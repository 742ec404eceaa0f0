/** The server's `authenticateToken` middleware (server.js): take the second
    space-separated word of the `Authorization` header and hand it to the
    token verifier, which is an opaque function here (`jwt.verify`). */
module ServerAuth {
  import opened Wrappers
  import opened Text

  /** The identity a token carries: what `jwt.sign` put in and `jwt.verify` gives back as `req.user`. */
  datatype Claims = Claims(userId: nat, email: string, name: string, role: string)

  /** A non-2xx reply: its status code and its `error` text. */
  datatype HttpError = HttpError(status: int, error: string)

  const TokenRequired := HttpError(401, "Access token required")
  const TokenRejected := HttpError(403, "Invalid or expired token")

  /** `header.split(' ')[1]`: the word after the first space, if there is a
      space; it runs up to the next space or the end of the header. */
  function SecondWord(header: string): (w: Option<string>)
    ensures w.Some? <==> ' ' in header
    ensures w.Some? ==> ' ' !in w.value
    ensures w.Some? ==>
      var start := IndexOf(header, ' ') + 1;
      var end := start + |w.value|;
      0 < start <= end <= |header| && header[start..end] == w.value && (end == |header| || header[end] == ' ')
  {
    var parts := Split(header, ' ');
    assert ' ' !in header ==> parts == [header];
    if |parts| >= 2 then
      var i := IndexOf(header, ' ');
      var rest := header[i + 1..];
      assert parts == [header[..i]] + Split(rest, ' ');
      SplitFirst(rest, ' ');
      assert rest[..|parts[1]|] == parts[1];
      Some(parts[1])
    else None
  }

  /** `authHeader && authHeader.split(' ')[1]`, keeping only a truthy token. */
  function AccessToken(header: Option<string>): (t: Option<string>)
    ensures t.Some? ==> t.value != "" && ' ' !in t.value
    ensures header.None? ==> t.None?
    ensures header.Some? && ' ' !in header.value ==> t.None?
  {
    match header
    case None => None
    case Some(h) =>
      match SecondWord(h)
      case Some(w) => if w == "" then None else Some(w)
      case None => None
  }

  /** The header the pages send, `Bearer ${token}`, yields that token. */
  lemma BearerHeader(token: string)
    requires token != "" && ' ' !in token
    ensures AccessToken(Some("Bearer " + token)) == Some(token)
  {
    SplitJoin("Bearer", ' ', token);
    SplitNone(token, ' ');
    assert "Bearer " + token == "Bearer" + [' '] + token;
  }

  /** `authenticateToken`: 401 without a token, 403 when verification fails,
      otherwise the verified claims become `req.user`. */
  function Authenticate(header: Option<string>, verify: string -> Option<Claims>): (r: Result<Claims, HttpError>)
    ensures r == Failure(TokenRequired) <==> AccessToken(header).None?
    ensures r == Failure(TokenRejected) <==> AccessToken(header).Some? && verify(AccessToken(header).value).None?
    ensures r.Success? <==> AccessToken(header).Some? && verify(AccessToken(header).value).Some?
    ensures r.Success? ==> verify(AccessToken(header).value) == Some(r.value)
  {
    match AccessToken(header)
    case None => Failure(TokenRequired)
    case Some(token) =>
      match verify(token)
      case None => Failure(TokenRejected)
      case Some(user) => Success(user)
  }
}
