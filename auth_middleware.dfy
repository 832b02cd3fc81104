/** The bearer-token middleware (middlewares/auth-middleware.js). The JWT
    check is a parameter: `verify(token)` is the decoded payload, or `None`
    when `jwt.verify` throws. */
module AuthMiddleware {
  import opened Strings
  import opened JsValues
  import opened Http

  /** Either the middleware answers, or it calls `next()` with `req.userId`
      and `req.userRole` set. */
  datatype AuthResult = Deny(response: Response) | Next(userId: JsValue, userRole: JsValue)

  const Scheme := "Bearer "
  const NoToken := Response(401, MessageBody("No token provided"))
  const InvalidToken := Response(401, MessageBody("Invalid token"))

  /** `authHeader.split(" ")[1]`: the field after the first space. A header
      that passed the prefix test always has one. */
  function TokenOf(header: string): (token: string)
    requires StartsWith(header, Scheme)
    ensures ' ' !in token
  {
    var rest := header[|Scheme|..];
    assert header == "Bearer" + [' '] + rest;
    SplitCons("Bearer", rest, ' ');
    Split(header, ' ')[1]
  }

  /** The token is the text after "Bearer " up to the next space, so a
      second space right after the scheme gives the empty token. */
  lemma TokenIsNextWord(word: string, more: string)
    requires ' ' !in word
    ensures TokenOf(Scheme + word) == word
    ensures TokenOf(Scheme + word + " " + more) == word
  {
    var h1 := Scheme + word;
    assert h1 == "Bearer" + [' '] + word;
    SplitCons("Bearer", word, ' ');
    SplitNoSep(word, ' ');
    var h2 := Scheme + word + " " + more;
    assert h2 == "Bearer" + [' '] + (word + [' '] + more);
    SplitCons("Bearer", word + [' '] + more, ' ');
    SplitCons(word, more, ' ');
  }

  /** "Bearer  x" carries the empty token. */
  lemma DoubleSpaceGivesEmptyToken()
    ensures TokenOf("Bearer  x") == ""
  {
    TokenIsNextWord("", "x");
    assert Scheme + "" + " " + "x" == "Bearer  x";
  }

  /** The middleware: the header test, then the token check; a payload that
      cannot be read makes `decoded._id` throw inside the same `try`, and so
      does an `_id` or `role` that the log template cannot convert. A user
      let through therefore always has a convertible id and role, so the
      log templates of `restrictToadmin` never throw after this middleware. */
  function Authenticate(header: Option<string>, verify: string -> Option<JsValue>): (r: AuthResult)
    ensures r.Next? ==> header.Some? && StartsWith(header.value, Scheme)
    ensures r.Next? ==> Stringable(r.userId) && Stringable(r.userRole)
  {
    if header.None? || header.value == "" || !StartsWith(header.value, Scheme) then Deny(NoToken)
    else match verify(TokenOf(header.value))
      case None => Deny(InvalidToken)
      case Some(decoded) =>
        if !Readable(decoded) then Deny(InvalidToken)
        else if !Stringable(Get(decoded, "_id")) || !Stringable(Get(decoded, "role")) then Deny(InvalidToken)
        else Next(Get(decoded, "_id"), Get(decoded, "role"))
  }

  /** A missing header, or one that does not start with exactly "Bearer ",
      is answered 401 "No token provided" and the token is never checked. */
  lemma NoTokenIff(header: Option<string>, verify: string -> Option<JsValue>)
    ensures Authenticate(header, verify) == Deny(NoToken) <==> header.None? || !StartsWith(header.value, Scheme)
  {
  }

  /** The scheme test is case-sensitive: a lower-case scheme is refused. */
  lemma LowerCaseSchemeRefused(token: string, verify: string -> Option<JsValue>)
    ensures Authenticate(Some("bearer " + token), verify) == Deny(NoToken)
  {
    var h := "bearer " + token;
    assert h[0] == 'b';
    assert !StartsWith(h, Scheme);
  }

  /** The payload is readable and the log template converts its `_id` and
      `role`. */
  predicate Accepted(decoded: Option<JsValue>) {
    decoded.Some? && Readable(decoded.value)
    && Stringable(Get(decoded.value, "_id")) && Stringable(Get(decoded.value, "role"))
  }

  /** `next()` is called exactly when the header is well formed and the
      verifier accepts its token with a payload whose `_id` and `role` can
      be logged; `req.userId` and `req.userRole` are then that `_id` and
      `role`. Otherwise the answer is 401 "Invalid token". */
  lemma NextIff(header: string, verify: string -> Option<JsValue>)
    requires StartsWith(header, Scheme)
    ensures var d := verify(TokenOf(header));
      && (Authenticate(Some(header), verify).Next? <==> Accepted(d))
      && (Accepted(d) ==>
            Authenticate(Some(header), verify) == Next(Get(d.value, "_id"), Get(d.value, "role")))
      && (!Accepted(d) ==> Authenticate(Some(header), verify) == Deny(InvalidToken))
  {
  }

  /** A payload whose `role` has its own `toString` is refused as an
      invalid token, although `jwt.verify` accepted it. */
  lemma UnloggableRoleRefused(word: string, n: int)
    requires ' ' !in word
    ensures
      var payload := Obj(map["_id" := Str("u"), "role" := Obj(map["toString" := Num(n)])]);
      Authenticate(Some(Scheme + word), (t: string) => Some(payload)) == Deny(InvalidToken)
  {
    var payload := Obj(map["_id" := Str("u"), "role" := Obj(map["toString" := Num(n)])]);
    assert Get(payload, "role") == Obj(map["toString" := Num(n)]);
    assert StartsWith(Scheme + word, Scheme);
  }

  /** Only the first word after the scheme is checked: what follows the next
      space does not change the outcome. */
  lemma TrailingTextIgnored(word: string, more: string, verify: string -> Option<JsValue>)
    requires ' ' !in word
    ensures Authenticate(Some(Scheme + word + " " + more), verify) == Authenticate(Some(Scheme + word), verify)
  {
    TokenIsNextWord(word, more);
    assert StartsWith(Scheme + word, Scheme);
    assert StartsWith(Scheme + word + " " + more, Scheme);
  }
}
