/**
 * The middleware that guards every private route (middleware/auth.js):
 * read the `x-auth-token` header, verify it, and either answer 401 or
 * hand the decoded user to the next handler.
 */
module Auth {
  import opened Sequences
  import opened Db

  /** `req.user`: the user a verified token names. */
  datatype ReqUser = ReqUser(id: UserId)

  /** The payload a token carries: `{user: {id}}`. */
  datatype TokenPayload = TokenPayload(user: ReqUser)

  /** The gate either answers the request itself or calls `next()` once, with `req.user` set. */
  datatype GateResult = Deny(response: Response) | Next(user: ReqUser)

  const NoTokenMsg := "No token, authorization denied"
  const BadTokenMsg := "Token Invalid, authorization denied"

  /**
   * The gate. `header` is the value of `x-auth-token` (None when the header
   * is absent); `verify(token, secret)` stands for `jwt.verify`, None when it
   * throws (bad signature, malformed or expired token).
   */
  function AuthGate(header: Option<string>, secret: string, verify: (string, string) -> Option<TokenPayload>): (r: GateResult)
    // `next` runs exactly when a non-empty token is present and verifies
    ensures r.Next? <==> header.Some? && header.value != "" && verify(header.value, secret).Some?
    // and then `req.user` is the user the token carries
    ensures r.Next? ==> r.user == verify(header.value, secret).value.user
    // every refusal is a 401, and its message tells the two causes apart
    ensures r.Deny? ==> r.response.status == 401
    ensures r.Deny? ==> r.response.body == Errors([if header.None? || header.value == "" then NoTokenMsg else BadTokenMsg])
  {
    if header.None? || header.value == "" then
      Deny(Response(401, Errors([NoTokenMsg])))
    else
      match verify(header.value, secret)
      case None => Deny(Response(401, Errors([BadTokenMsg])))
      case Some(decoded) => Next(decoded.user)
  }
}
