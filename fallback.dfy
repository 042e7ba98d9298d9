/**
 The fallback chain: resolvers stacked over a terminal handler, each one
 either redirecting the request or passing it to the next. FirstMatch is
 the reference reading of a chain: the first resolver that knows the path
 decides the answer, and only when none does is the terminal reached.
 */
module Fallback {
  import opened Wrappers
  import opened Http
  import opened Handlers

  /** Something that maps a path to a destination, or reports no match. */
  type Resolver = string -> Option<string>

  /** The lookup in a static map, seen as a resolver. */
  function MapResolver(pathsToUrls: map<string, string>): Resolver
  {
    path => Lookup(pathsToUrls, path)
  }

  /** A handler that redirects (302) where the resolver matches and otherwise calls the fallback. */
  function Layer(resolve: Resolver, fallback: Handler): (h: Handler)
    ensures forall r: Request :: resolve(r.path).Some? ==> h(r) == Redirect(StatusFound, resolve(r.path).value)
    ensures forall r: Request :: resolve(r.path) == None ==> h(r) == fallback(r)
  {
    (r: Request) =>
      var found := resolve(r.path);
      if found.Some? then Redirect(StatusFound, found.value) else fallback(r)
  }

  /** The layers, outermost first, nested over the terminal handler. */
  function Chain(layers: seq<Resolver>, terminal: Handler): Handler
    decreases |layers|
  {
    if layers == [] then terminal else Layer(layers[0], Chain(layers[1..], terminal))
  }

  /** The position of a matching layer and the destination it gives. */
  datatype Match = Match(index: nat, dest: string)

  /** The first layer that matches the path, if any. */
  function FirstMatch(layers: seq<Resolver>, path: string): (m: Option<Match>)
    ensures m.Some? ==>
      && m.value.index < |layers|
      && layers[m.value.index](path) == Some(m.value.dest)
      && forall j :: 0 <= j < m.value.index ==> layers[j](path) == None
    ensures m == None ==> forall j :: 0 <= j < |layers| ==> layers[j](path) == None
    decreases |layers|
  {
    if layers == [] then None
    else
      var found := layers[0](path);
      if found.Some? then Some(Match(0, found.value))
      else
        var rest := FirstMatch(layers[1..], path);
        if rest.Some? then Some(Match(rest.value.index + 1, rest.value.dest)) else None
  }

  /** A chain answers with the first match's redirect, or with its terminal when nothing matches. */
  lemma {:induction false} ChainFirstMatch(layers: seq<Resolver>, terminal: Handler, r: Request)
    ensures FirstMatch(layers, r.path).Some? ==>
      Chain(layers, terminal)(r) == Redirect(StatusFound, FirstMatch(layers, r.path).value.dest)
    ensures FirstMatch(layers, r.path) == None ==> Chain(layers, terminal)(r) == terminal(r)
  {
    if layers != [] {
      ChainFirstMatch(layers[1..], terminal, r);
    }
  }

  /** When no layer matches, the request reaches the terminal handler unchanged. */
  lemma ChainFallsThrough(layers: seq<Resolver>, terminal: Handler, r: Request)
    requires forall j :: 0 <= j < |layers| ==> layers[j](r.path) == None
    ensures Chain(layers, terminal)(r) == terminal(r)
  {
  }

  /**
   Once a layer matches, nothing behind it is consulted: the inner layers
   and the terminal can be replaced by anything without changing the answer.
   */
  lemma {:induction false} ChainShortCircuit(layers: seq<Resolver>, rest: seq<Resolver>, terminal: Handler, other: Handler, r: Request)
    requires FirstMatch(layers, r.path).Some?
    ensures Chain(layers + rest, other)(r) == Chain(layers, terminal)(r)
  {
    if layers[0](r.path) == None {
      assert (layers + rest)[1..] == layers[1..] + rest;
      ChainShortCircuit(layers[1..], rest, terminal, other, r);
    }
  }

  /** A MapHandler is the layer of its map's resolver. */
  lemma MapHandlerIsLayer(pathsToUrls: map<string, string>, fallback: Handler, r: Request)
    ensures MapHandler(pathsToUrls, fallback)(r) == Layer(MapResolver(pathsToUrls), fallback)(r)
  {
  }
}
