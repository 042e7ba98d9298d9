/**
 The part of net/http that the resolvers touch. A request is reduced to its
 decoded URL path, the only part the handlers read; a response is reduced to its status code
 and either the redirect target or the body written.
 */
module Http {

  const StatusOK: int := 200
  const StatusFound: int := 302

  datatype Request = Request(path: string)

  datatype Response =
    | Redirect(code: int, location: string)
    | Page(code: int, body: string)

  /** An http.Handler: what it answers for each request. */
  type Handler = Request -> Response
}
