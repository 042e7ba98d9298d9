/**
 The map-backed and YAML-backed handlers: an exact lookup of the request
 path that either redirects or hands the request, unchanged, to a fallback.
 */
module Handlers {
  import opened Wrappers
  import opened Http

  /** One record of the YAML document: a path and the URL it redirects to. */
  datatype PathURL = PathURL(path: string, url: string)

  /** What the YAML decoder yields: the records it filled in and its error, if any. */
  datatype Parsed = Parsed(records: seq<PathURL>, err: Option<string>)

  /** The YAML decoder, a foreign library, taken as a parameter. */
  type Parser = string -> Parsed

  /** The comma-ok lookup `dest, ok := pathsToUrls[path]`. */
  function Lookup(pathsToUrls: map<string, string>, path: string): Option<string>
  {
    if path in pathsToUrls then Some(pathsToUrls[path]) else None
  }

  /**
   A handler that redirects (302) every path that is a key of the map to its
   value and passes every other request, as it is, to the fallback.
   */
  function MapHandler(pathsToUrls: map<string, string>, fallback: Handler): (h: Handler)
    ensures forall r: Request :: r.path in pathsToUrls ==> h(r) == Redirect(StatusFound, pathsToUrls[r.path])
    ensures forall r: Request :: r.path !in pathsToUrls ==> h(r) == fallback(r)
  {
    var h := (r: Request) =>
      var found := Lookup(pathsToUrls, r.path);
      if found.Some? then Redirect(StatusFound, found.value) else fallback(r);
    assert forall r: Request :: r.path in pathsToUrls ==> Lookup(pathsToUrls, r.path) == Some(pathsToUrls[r.path]);
    h
  }

  /** The paths that occur in a list of records. */
  function Paths(pathURLs: seq<PathURL>): set<string>
  {
    set p | p in pathURLs :: p.path
  }

  /** Record i is the last one in the list with its path. */
  predicate IsLast(pathURLs: seq<PathURL>, i: int)
  {
    && 0 <= i < |pathURLs|
    && forall j :: i < j < |pathURLs| ==> pathURLs[j].path != pathURLs[i].path
  }

  /** The map that inserting the records one by one, in order, produces. */
  function Folded(pathURLs: seq<PathURL>): map<string, string>
  {
    if pathURLs == [] then map[]
    else
      var last := pathURLs[|pathURLs| - 1];
      Folded(pathURLs[..|pathURLs| - 1])[last.path := last.url]
  }

  /** The keys of the folded map are exactly the paths of the records. */
  lemma {:induction false} FoldedKeys(pathURLs: seq<PathURL>)
    ensures Folded(pathURLs).Keys == Paths(pathURLs)
  {
    if pathURLs != [] {
      var init, last := pathURLs[..|pathURLs| - 1], pathURLs[|pathURLs| - 1];
      FoldedKeys(init);
      assert pathURLs == init + [last];
      assert Paths(pathURLs) == Paths(init) + {last.path};
    }
  }

  /** The value stored for a path is the URL of the last record with that path. */
  lemma {:induction false} FoldedLastWins(pathURLs: seq<PathURL>, i: int)
    requires IsLast(pathURLs, i)
    ensures pathURLs[i].path in Folded(pathURLs)
    ensures Folded(pathURLs)[pathURLs[i].path] == pathURLs[i].url
  {
    var n := |pathURLs|;
    if i < n - 1 {
      var init := pathURLs[..n - 1];
      assert IsLast(init, i);
      FoldedLastWins(init, i);
    }
  }

  /** Every path of the records has a last record that carries it. */
  lemma {:induction false} LastExists(pathURLs: seq<PathURL>, path: string)
    requires path in Paths(pathURLs)
    ensures exists i :: IsLast(pathURLs, i) && pathURLs[i].path == path
  {
    var n := |pathURLs|;
    var last := pathURLs[n - 1];
    if last.path == path {
      assert IsLast(pathURLs, n - 1);
    } else {
      var init := pathURLs[..n - 1];
      assert pathURLs == init + [last];
      assert path in Paths(init);
      LastExists(init, path);
      var i :| IsLast(init, i) && init[i].path == path;
      assert IsLast(pathURLs, i);
    }
  }

  /**
   buildMap: insert every record into a fresh map, in order, so that a later
   record with the same path overwrites an earlier one.
   */
  method BuildMap(pathURLs: seq<PathURL>) returns (pathsToURLs: map<string, string>)
    ensures pathsToURLs == Folded(pathURLs)
    ensures pathsToURLs.Keys == Paths(pathURLs)
    ensures pathURLs == [] ==> pathsToURLs == map[]
    ensures forall i :: IsLast(pathURLs, i) ==>
      pathURLs[i].path in pathsToURLs && pathsToURLs[pathURLs[i].path] == pathURLs[i].url
  {
    pathsToURLs := map[];
    var i := 0;
    while i < |pathURLs|
      invariant 0 <= i <= |pathURLs|
      invariant pathsToURLs == Folded(pathURLs[..i])
    {
      assert pathURLs[..i + 1][..i] == pathURLs[..i];
      pathsToURLs := pathsToURLs[pathURLs[i].path := pathURLs[i].url];
      i := i + 1;
    }
    assert pathURLs[..i] == pathURLs;
    FoldedKeys(pathURLs);
    forall i | IsLast(pathURLs, i)
      ensures pathURLs[i].path in pathsToURLs && pathsToURLs[pathURLs[i].path] == pathURLs[i].url
    {
      FoldedLastWins(pathURLs, i);
    }
  }

  /**
   YAMLHandler: decode the document, fold its records into a map and wrap
   that map in a MapHandler. The decoder's error is returned beside the
   handler, which is built from whatever records the decoder produced.
   */
  function YAMLHandler(yml: string, parse: Parser, fallback: Handler): (res: (Handler, Option<string>))
    ensures res.1 == parse(yml).err
    ensures forall r: Request :: res.0(r) == MapHandler(Folded(parse(yml).records), fallback)(r)
    ensures forall r: Request, i :: IsLast(parse(yml).records, i) && parse(yml).records[i].path == r.path ==>
      res.0(r) == Redirect(StatusFound, parse(yml).records[i].url)
    ensures forall r: Request :: r.path !in Paths(parse(yml).records) ==> res.0(r) == fallback(r)
    ensures parse(yml).records == [] ==> forall r: Request :: res.0(r) == fallback(r)
  {
    var parsed := parse(yml);
    var pathsToURLs := Folded(parsed.records);
    var h := MapHandler(pathsToURLs, fallback);
    assert forall i | IsLast(parsed.records, i) ::
        parsed.records[i].path in pathsToURLs && pathsToURLs[parsed.records[i].path] == parsed.records[i].url by {
      forall i | IsLast(parsed.records, i)
        ensures parsed.records[i].path in pathsToURLs && pathsToURLs[parsed.records[i].path] == parsed.records[i].url
      {
        FoldedLastWins(parsed.records, i);
      }
    }
    FoldedKeys(parsed.records);
    (h, parsed.err)
  }
}
