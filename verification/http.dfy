/**
 * What the two authentication middlewares share: the incoming request, whose
 * `user` field they set on success, the outcome of a gate, and the bearer
 * token taken from the Authorization header.
 */
module Http {
  import opened Wrappers
  import opened JsString
  import opened Jwt

  /** An Express request: its (lower-cased) headers and the `req.user` slot. */
  class Request {
    const headers: map<string, string>
    var user: Option<Claims>

    constructor (headers: map<string, string>)
      ensures this.headers == headers && user == None
    {
      this.headers := headers;
      user := None;
    }
  }

  /** A middleware either answers (`res.status(status).json(...)`) or calls `next()` once. */
  datatype Gate = Reject(status: int, message: string) | Proceed(user: Claims)

  /**
   * `authHeader?.split(' ')[1]`, kept only when truthy: the second
   * space-separated word of the header. The first word is never looked at.
   */
  function TokenOf(authorization: Option<string>): (t: Option<string>)
    ensures t.Some? ==> t.value != "" && ' ' !in t.value
  {
    match authorization
    case None => None
    case Some(h) =>
      var parts := Split(h, ' ');
      SplitJoin(h, ' ');
      if |parts| >= 2 && parts[1] != "" then Some(parts[1]) else None
  }

  /**
   * Whatever the scheme word is ("Bearer", "Basic", anything without a space),
   * the token is the word after it.
   */
  lemma SchemeIsNotChecked(scheme: string, token: string)
    requires ' ' !in scheme && ' ' !in token && token != ""
    ensures TokenOf(Some(scheme + " " + token)) == Some(token)
  {
    SplitLeadingWord(scheme, ' ', token);
    SplitWithoutSeparator(token, ' ');
  }

  /** A header of one word, or of a scheme followed by two spaces, carries no token. */
  lemma NoSecondWordNoToken(scheme: string, rest: string)
    requires ' ' !in scheme
    ensures TokenOf(Some(scheme)) == None
    ensures TokenOf(Some(scheme + "  " + rest)) == None
  {
    SplitWithoutSeparator(scheme, ' ');
    assert scheme + "  " + rest == scheme + [' '] + (" " + rest);
    SplitLeadingWord(scheme, ' ', " " + rest);
    SplitLeadingWord("", ' ', rest);
    assert "" + [' '] + rest == " " + rest;
  }
}
