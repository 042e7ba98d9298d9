/**
 The handler stack that main serves: the bolt store's handler wraps the
 YAML handler, which wraps the map handler, which wraps the default mux
 that greets every request.
 */
module Server {
  import opened Wrappers
  import opened Http
  import opened Handlers
  import opened Fallback

  /** What hello writes: Fprintln adds the line break. */
  const Greeting: string := "Hello, world!\n"

  function Hello(r: Request): Response
  {
    Page(StatusOK, Greeting)
  }

  /** The mux with hello registered on "/": every request it routes to hello is greeted. */
  function DefaultMux(): (mux: Handler)
    ensures forall r: Request :: mux(r).Page? && mux(r).code == StatusOK && mux(r).body == Greeting
  {
    r => Hello(r)
  }

  /** The two entries of the literal map. */
  const StaticPaths: map<string, string> := map[
    "/urlshort-godoc" := "https://godoc.org/github.com/gophercises/urlshort",
    "/yaml-godoc" := "https://godoc.org/gopkg.in/yaml.v2"
  ]

  /** The literal YAML document. */
  const ConfigDocument: string :=
    "\n- path: /urlshort\n  url: https://github.com/gophercises/urlshort\n"
    + "- path: /urlshort-final\n  url: https://github.com/gophercises/urlshort/tree/solution\n"

  /** The records that document denotes. */
  const ConfigRecords: seq<PathURL> := [
    PathURL("/urlshort", "https://github.com/gophercises/urlshort"),
    PathURL("/urlshort-final", "https://github.com/gophercises/urlshort/tree/solution")
  ]

  /** The pair init puts into the PathsToURLs bucket. */
  const BoltPath: string := "/urlshort-bolt"
  const BoltURL: string := "https://github.com/gophercises/urlshort"

  /** The YAML decoder reads the literal document as its two records, without error. */
  predicate DecodesAsWritten(parse: Parser)
  {
    parse(ConfigDocument) == Parsed(ConfigRecords, None)
  }

  /**
   The handler main passes to ListenAndServe, built inside out as main
   builds it; `store` stands for the bolt handler's lookup in the bucket.
   The decoder's error is dropped, as main overwrites it before checking.
   */
  function MainHandler(store: Resolver, parse: Parser): (h: Handler)
    ensures forall r: Request ::
      h(r) == Chain([store, MapResolver(Folded(parse(ConfigDocument).records)), MapResolver(StaticPaths)], DefaultMux())(r)
  {
    var mux := DefaultMux();
    var mapHandler := MapHandler(StaticPaths, mux);
    var (yamlHandler, _) := YAMLHandler(ConfigDocument, parse, mapHandler);
    var boltDBHandler := Layer(store, yamlHandler);
    var yamlResolver := MapResolver(Folded(parse(ConfigDocument).records));
    var layers := [store, yamlResolver, MapResolver(StaticPaths)];
    assert forall r: Request :: boltDBHandler(r) == Chain(layers, mux)(r) by {
      assert layers[1..][1..][1..] == [];
      forall r: Request
        ensures boltDBHandler(r) == Chain(layers, mux)(r)
      {
        MapHandlerIsLayer(StaticPaths, mux, r);
        assert Chain(layers[1..][1..], mux)(r) == mapHandler(r);
        MapHandlerIsLayer(Folded(parse(ConfigDocument).records), mapHandler, r);
        assert Chain(layers[1..], mux)(r) == yamlHandler(r);
      }
    }
    boltDBHandler
  }

  /** The paths the YAML records give, as the decoder reads the literal document. */
  lemma ConfigPaths()
    ensures Folded(ConfigRecords) == map[
      "/urlshort" := "https://github.com/gophercises/urlshort",
      "/urlshort-final" := "https://github.com/gophercises/urlshort/tree/solution"
    ]
  {
  }

  /** The bolt entry wins whenever the store has one, whatever the other sources hold. */
  lemma StoreWins(store: Resolver, parse: Parser, r: Request)
    requires store(r.path).Some?
    ensures MainHandler(store, parse)(r) == Redirect(StatusFound, store(r.path).value)
  {
  }

  /** /urlshort-bolt, seeded by init, redirects to the repository. */
  lemma BoltPathRedirects(store: Resolver, parse: Parser, r: Request)
    requires store(BoltPath) == Some(BoltURL) && r.path == BoltPath
    ensures MainHandler(store, parse)(r) == Redirect(StatusFound, "https://github.com/gophercises/urlshort")
  {
  }

  /**
   /urlshort-final is answered by the YAML handler; the map handler and the
   mux behind it can be anything.
   */
  lemma FinalFromYaml(store: Resolver, parse: Parser, inner: Handler, r: Request)
    requires DecodesAsWritten(parse) && store(r.path) == None && r.path == "/urlshort-final"
    ensures MainHandler(store, parse)(r) == Redirect(StatusFound, "https://github.com/gophercises/urlshort/tree/solution")
    ensures Layer(store, YAMLHandler(ConfigDocument, parse, inner).0)(r) == MainHandler(store, parse)(r)
  {
  }

  /** /urlshort-godoc is not among the YAML records and reaches the map handler. */
  lemma GodocFromMap(store: Resolver, parse: Parser, r: Request)
    requires DecodesAsWritten(parse) && store(r.path) == None && r.path == "/urlshort-godoc"
    ensures MainHandler(store, parse)(r) == Redirect(StatusFound, "https://godoc.org/github.com/gophercises/urlshort")
  {
  }

  /**
   With the store missing the path, the greeting is served exactly when the
   path is in neither the YAML records nor the map; otherwise a redirect.
   */
  lemma GreetingIffUnmatched(store: Resolver, parse: Parser, r: Request)
    requires DecodesAsWritten(parse)
    ensures MainHandler(store, parse)(r) == Page(StatusOK, Greeting) <==>
      (store(r.path) == None && r.path !in Folded(ConfigRecords) && r.path !in StaticPaths)
    ensures MainHandler(store, parse)(r).Redirect? <==> MainHandler(store, parse)(r) != Page(StatusOK, Greeting)
  {
  }

  /** The lookup is exact: a trailing slash or a change of case does not match. */
  lemma NoNormalisation(store: Resolver, parse: Parser, r: Request)
    requires DecodesAsWritten(parse) && store(r.path) == None
    requires r.path == "/urlshort-godoc/" || r.path == "/URLSHORT-GODOC" || r.path == "/Urlshort"
    ensures MainHandler(store, parse)(r) == Page(StatusOK, Greeting)
  {
  }

  /**
   A YAML record shadows the map: were the decoder to yield a path that the
   map also holds, the last such record's URL would be the answer.
   */
  lemma YamlShadowsMap(store: Resolver, parse: Parser, r: Request, i: int)
    requires store(r.path) == None
    requires IsLast(parse(ConfigDocument).records, i) && parse(ConfigDocument).records[i].path == r.path
    ensures MainHandler(store, parse)(r) == Redirect(StatusFound, parse(ConfigDocument).records[i].url)
  {
  }

  /**
   A document the decoder yields no records for (as on a syntax error) leaves
   the YAML handler transparent: the stack behaves as store, then map, then mux.
   */
  lemma EmptyConfigIsTransparent(store: Resolver, parse: Parser, r: Request)
    requires parse(ConfigDocument).records == []
    ensures MainHandler(store, parse)(r) == Chain([store, MapResolver(StaticPaths)], DefaultMux())(r)
  {
    var layers := [store, MapResolver(StaticPaths)];
    var stack := [store, MapResolver(Folded([])), MapResolver(StaticPaths)];
    assert stack[1..][1..] == layers[1..];
    assert MapResolver(Folded([]))(r.path) == None;
    assert Chain(stack[1..], DefaultMux())(r) == Chain(layers[1..], DefaultMux())(r);
  }
}
