# urlshort: the fallback chain of path resolvers

This project models the core of a small Go URL shortener. An HTTP request
path is resolved by a stack of handlers. Each handler either answers with a
302 redirect to a destination it knows, or passes the unchanged request to
the next handler. The stack `main` builds is, outermost first:

1. the BoltDB handler (a key-value store lookup),
2. the YAML handler (records decoded from a literal YAML document),
3. the map handler (a literal two-entry map),
4. the default mux, which routes every clean path to `hello`, and `hello` answers with `Hello, world!`.

Modules:

- `Wrappers` holds `Option`.
- `Http` reduces net/http to what the handlers use. A `Request` carries its decoded path, the only part of a request the handlers read. A `Response` is a `Redirect(code, location)` or a `Page(code, body)`. A `Handler` is a total function from requests to responses.
- `Handlers` models `handler.go`. It holds `MapHandler`, the `buildMap` loop (`BuildMap`), its specification `Folded` (a left fold over the records), and `YAMLHandler`.
- `Fallback` is the reference reading of a handler stack. A `Resolver` maps a path to an optional destination. `Layer` wraps one resolver around a fallback. `Chain` nests a list of resolvers over a terminal handler. `FirstMatch` names the first resolver that knows the path.
- `Server` models `main.go`: the literal map, the YAML document and its records, the default mux, and `MainHandler`, the stack as `main` wires it.

Two external parts are parameters. The YAML decoder is `parse: string -> Parsed(records, err)`. The store lookup behind the BoltDB handler is `store: string -> Option<string>`. The scenario lemmas assume, through `DecodesAsWritten`, that the decoder reads the literal document as its two records with no error.

Two details of the code shape the model:

- `YAMLHandler` builds its map from whatever records the decoder returned, even when an error comes with them (handler.go:31-33). A decoder that fills in some records and then fails still leaves those routes live. The map is empty only if the decoder filled in nothing.
- `hello` writes with `Fprintln`, so the body is `"Hello, world!\n"`, with a trailing line break.

## Model

| member | source | states |
|---|---|---|
| Handlers.MapHandler | students/bart/handler.go:15-25 | A path that is a key of the map gets a 302 redirect to exactly its mapped value. Any other path gets exactly what the fallback answers for the same, unchanged request. |
| Handlers.FoldedKeys | students/bart/handler.go:36-42 | The keys of the folded map are exactly the paths of the records, with none missing and none extra. |
| Handlers.FoldedLastWins | students/bart/handler.go:38-40 | For each path, the folded map holds the URL of the last record carrying that path, so a later duplicate overrides an earlier one. |
| Handlers.LastExists | students/bart/handler.go:38-40 | Every path among the records has a last record carrying it. With the two lemmas above, this fixes every entry of the map. |
| Handlers.BuildMap | students/bart/handler.go:36-42 | The insertion loop computes the left fold `Folded`. The result's keys are the records' paths, an empty list gives the empty map, and each path maps to the URL of its last record. |
| Handlers.YAMLHandler | students/bart/handler.go:30-34 | The decoder's error is returned unchanged beside the handler. The handler agrees with `MapHandler(buildMap(records), fallback)` on every request: the last record for a path decides the redirect, and paths absent from the records reach the fallback. With no records, every request reaches the fallback. |
| Fallback.Layer | students/bart/main.go:55 | The wrap a store-backed handler performs: a resolver hit is a 302 to the resolved destination, and a miss is the fallback's answer for the same request. |
| Fallback.FirstMatch | students/bart/main.go:34-55 | Returns the least index whose resolver knows the path, with that resolver's destination. Every earlier resolver misses. It returns None exactly when every resolver misses. |
| Fallback.ChainFirstMatch | students/bart/main.go:34-55 | A nested stack answers with a 302 to the first match's destination. When no resolver matches, it answers with the terminal handler's response. |
| Fallback.ChainFallsThrough | students/bart/main.go:34-55 | When every resolver misses, the request reaches the terminal handler unchanged. |
| Fallback.ChainShortCircuit | students/bart/handler.go:19-23 | Once a resolver matches, the answer does not depend on anything behind it. The inner resolvers and the terminal can be replaced without changing it, because the early return means a match never reaches the fallback. |
| Fallback.MapHandlerIsLayer | students/bart/handler.go:18-23 | A MapHandler answers every request as the layer of its map's comma-ok lookup does. |
| Server.DefaultMux | students/bart/main.go:64-72 | Every request the mux routes to `hello` is answered with status 200 and the body "Hello, world!\n", never with a redirect. The mux's own 301, 400 and not-found answers are not modelled (see "## Left out"). |
| Server.MainHandler | students/bart/main.go:34-55 | The stack `main` builds answers every request as the chain store, then YAML records, then the literal map, then the default mux. Each wrap receives the already built inner handler as its fallback. |
| Server.ConfigPaths | students/bart/main.go:44-49 | The two YAML records fold to the map /urlshort and /urlshort-final onto their URLs. |
| Server.StoreWins | students/bart/main.go:55 | A path the store knows is redirected to the store's destination, whatever the YAML records and the map hold. |
| Server.BoltPathRedirects | students/bart/main.go:23 | With the entry that init seeds, /urlshort-bolt redirects to https://github.com/gophercises/urlshort. |
| Server.FinalFromYaml | students/bart/main.go:44-50 | /urlshort-final is answered by the YAML handler with a redirect to the solution branch. The map handler and the mux behind it do not affect the answer. |
| Server.GodocFromMap | students/bart/main.go:37-50 | /urlshort-godoc is not among the YAML records, so it passes through the YAML handler and the map redirects it to its godoc page. |
| Server.GreetingIffUnmatched | students/bart/main.go:34-50 | For a request that the mux hands to `hello`, the greeting is served exactly when neither the store, nor the YAML records, nor the map knows the path. Every other answer is a redirect. |
| Server.NoNormalisation | students/bart/handler.go:18-19 | The lookup is an exact, case-sensitive string match. /urlshort-godoc/, /URLSHORT-GODOC and /Urlshort are greeted, not redirected. |
| Server.YamlShadowsMap | students/bart/main.go:41-50 | If the decoder yielded a path the map also holds, the last YAML record's URL would win, because the YAML handler wraps the map handler. |
| Server.EmptyConfigIsTransparent | students/bart/handler.go:31-33 | When the decoder yields no records, for instance on a syntax error, the YAML handler is transparent. The stack then behaves as store, then map, then mux. |

## Left out

- BoltDBHandler: its body is not part of this model. The store-backed handler is the opaque resolver `store`, wrapped by `Layer`. An absent key, an empty value and a failed read transaction all appear as `None`.
- The `init` seeding of the store and the read-only `bolt.Open` in `main` are store I/O against a foreign library. The seeded pair appears only as the assumption of `BoltPathRedirects`.
- `yaml.Unmarshal` is a foreign library, so the decoder is a parameter. The document is modelled as a string, not as bytes; it is plain ASCII.
- HTTP transport is left out: `ListenAndServe`, the `ResponseWriter`, headers, and the small body `http.Redirect` writes. `http.Redirect` also rewrites a relative destination against the request path, and the model does not capture that rewriting. Every destination used here is absolute.
- DefaultMux: the model greets every request that reaches the mux. The standard `ServeMux` (not part of this model) behaves differently in the cases below:
  - A non-CONNECT request with an unclean path gets a 301 to the cleaned path. Unclean paths contain `.` or `..` elements or repeated slashes, or are the empty path of an absolute-form request target, which cleans to `/`.
  - A non-OPTIONS request whose target is `*` (path `"*"`) gets a 400. An `OPTIONS *` request is answered by the server itself and never reaches the handler stack.
  - A CONNECT request's path is used as it is, without cleaning. An unclean CONNECT path such as `/a//b` therefore reaches `hello`. An authority-form target (`CONNECT host:443`) has the empty path, which matches no pattern, so the mux answers with its not-found handler instead of `hello`.

  The list is limited to these request forms and may not be exhaustive. The model's request carries no method or request target, so none of these exemptions can be stated in it.
- GreetingIffUnmatched: its greeting side holds only for requests that `ServeMux` routes to `hello`. Requests in the cases listed above get the mux's 301, 400 or not-found answer instead, or never reach the stack.
- Request paths and map keys are modelled as Unicode strings, while Go's are byte strings. A percent-decoded path such as `/%FF` can hold invalid UTF-8, which a `string` here cannot represent. All the literal, YAML and seeded keys are ASCII, so no answer for them changes.
- The debug `fmt.Println(r)` in `MapHandler` and the startup message in `main` have no effect on any answer, so they are left out.
- Concurrent request handling is left out. Every map is read-only once built.
- MainHandler: the start-up error plumbing is not modelled. `main` overwrites the YAML error twice (main.go:53, 55) before its only check, so a YAML error never stops start-up; `MainHandler` matches this by dropping that error. The `defer db.Close()` is registered before the nil check (main.go:14, 54). So when the open in `init` fails, the deferred `Close` runs on a nil `*bolt.DB` while the panic unwinds. That path, and the panic on a failed open, are not modelled.
