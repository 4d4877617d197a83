/**
 * The request side every handler sees: who is calling, with which HTTP
 * method, and the status codes the handlers answer with.
 */
module Http {
  import opened Tables

  /** `request.user`: the anonymous user, or an authenticated user with its staff flag. */
  datatype Caller = Anonymous | Member(id: Id, isStaff: bool)

  datatype Method = GET | HEAD | OPTIONS | POST | PUT | PATCH | DELETE

  /** The methods that only read. */
  predicate IsSafe(m: Method) {
    m == GET || m == HEAD || m == OPTIONS
  }

  const OK := 200
  const CREATED := 201
  const NO_CONTENT := 204
  const BAD_REQUEST := 400
  const UNAUTHORIZED := 401
  const FORBIDDEN := 403
  const NOT_FOUND := 404
  const SERVER_ERROR := 500

  /**
   * The answer of the framework when a view-level permission refuses the
   * request: an unauthenticated request is told to authenticate (the token
   * authenticator supplies a challenge header), an authenticated one is
   * forbidden.
   */
  function DeniedStatus(c: Caller): (s: int)
    ensures s == UNAUTHORIZED <==> c.Anonymous?
    ensures s == FORBIDDEN <==> c.Member?
  {
    if c.Anonymous? then UNAUTHORIZED else FORBIDDEN
  }
}
