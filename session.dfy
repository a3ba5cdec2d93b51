/** The session-cookie handling of the server utilities: reading the
    `Cookie` request header (a loose form of section 4.2 of RFC 6265),
    resolving its token with the identity provider, the login gate, and
    issuing or clearing the cookie with a `Set-Cookie` header (section
    4.1 of RFC 6265). */
module Session {
  import opened Wrappers
  import opened Text
  import Http

  /** The name of the application's session cookie. */
  const AuthCookieName := "supabase_auth_token"

  /** The message of the `URIError` that `decodeURIComponent` throws. */
  const UriMalformed := "URI malformed"

  /** A user record of the identity provider. */
  datatype User = User(id: string, email: Option<string>, metadata: map<string, string>)

  /** What `auth.getUser(token)` answers: `{ data: { user }, error }`. */
  datatype UserReply = UserReply(error: Option<string>, user: Option<User>)

  /** The outcome of the authentication gate. */
  datatype Gate =
    | Proceed(user: User)           // the handler goes on with this user
    | RedirectTo(location: string)  // `throw redirect(location)`
    | Raise(message: string)        // another exception escapes

  // ---------------------------------------------------------------------
  // decodeURIComponent

  /** The value of a hexadecimal digit. */
  function HexValue(c: char): (r: Option<nat>)
    ensures r.Some? ==> r.value < 16
  {
    if '0' <= c <= '9' then Some(c as int - '0' as int)
    else if 'a' <= c <= 'f' then Some(c as int - 'a' as int + 10)
    else if 'A' <= c <= 'F' then Some(c as int - 'A' as int + 10)
    else None
  }

  /** `decodeURIComponent(s)`: every `%XX` escape is replaced by the
      character with that code; a `%` not followed by two hex digits throws
      (`None`). Escapes of bytes 0x80 and above, which JavaScript reads as
      UTF-8 sequences, are treated as malformed. */
  function PercentDecode(s: string): (r: Option<string>)
    ensures '%' !in s ==> r == Some(s)
    ensures r.Some? ==> |r.value| <= |s|
    decreases |s|
  {
    if s == [] then Some([])
    else if s[0] != '%' then
      assert s == [s[0]] + s[1..];
      match PercentDecode(s[1..])
      case None => None
      case Some(t) => Some([s[0]] + t)
    else if |s| < 3 then None
    else
      match (HexValue(s[1]), HexValue(s[2]))
      case (Some(hi), Some(lo)) =>
        if 16 * hi + lo < 0x80 then
          match PercentDecode(s[3..])
          case None => None
          case Some(t) => Some([(16 * hi + lo) as char] + t)
        else None
      case _ => None
  }

  // ---------------------------------------------------------------------
  // Parsing the Cookie header

  /** One `name=value` piece of the header: the name is the text before
      the first `=`, the value the text between the first and a second
      `=`, percent-decoded. Without any `=` the value is `undefined`,
      which decodes to the string "undefined". `None` when decoding throws. */
  function ParsePair(pair: string): (r: Option<(string, string)>)
    ensures r.Some? ==> '=' !in r.value.0
    ensures r.Some? ==> r.value.0 == Split(pair, "=")[0]
  {
    var parts := Split(pair, "=");
    var raw := if |parts| >= 2 then parts[1] else "undefined";
    SplitPiecesFree(pair, "=");
    match PercentDecode(raw)
    case None => None
    case Some(v) => Some((parts[0], v))
  }

  /** Every pair decoded, in order; `None` if any decoding throws (the
      `map` callback runs on every pair before any lookup). */
  function ParsePairs(pairs: seq<string>): (r: Option<seq<(string, string)>>)
    ensures r.Some? ==> |r.value| == |pairs|
    ensures r.Some? ==> forall k :: 0 <= k < |pairs| ==> Some(r.value[k]) == ParsePair(pairs[k])
    ensures r.None? <==> exists k :: 0 <= k < |pairs| && ParsePair(pairs[k]).None?
  {
    if pairs == [] then Some([])
    else
      match (ParsePair(pairs[0]), ParsePairs(pairs[1..]))
      case (Some(e), Some(es)) =>
        assert forall k :: 1 <= k < |pairs| ==> pairs[k] == pairs[1..][k - 1];
        Some([e] + es)
      case (None, _) => None
      case (_, None) =>
        var k :| 0 <= k < |pairs[1..]| && ParsePair(pairs[1..][k]).None?;
        assert ParsePair(pairs[k + 1]).None?;
        None
  }

  /** `Object.fromEntries(entries)`: each entry in turn sets its key, so a
      later entry overwrites an earlier one with the same name. */
  function FromEntries(entries: seq<(string, string)>): (m: map<string, string>)
    ensures forall k :: k in m <==> exists i :: 0 <= i < |entries| && entries[i].0 == k
  {
    if entries == [] then map[]
    else
      var last := entries[|entries| - 1];
      var m := FromEntries(entries[..|entries| - 1]);
      assert forall i :: 0 <= i < |entries| - 1 ==> entries[..|entries| - 1][i] == entries[i];
      m[last.0 := last.1]
  }

  /** When a name occurs several times, the value of its last occurrence
      is the one kept. */
  lemma {:induction false} LastWins(entries: seq<(string, string)>, i: nat)
    requires i < |entries|
    requires forall j :: i < j < |entries| ==> entries[j].0 != entries[i].0
    ensures entries[i].0 in FromEntries(entries)
    ensures FromEntries(entries)[entries[i].0] == entries[i].1
    decreases |entries|
  {
    if i < |entries| - 1 {
      var init := entries[..|entries| - 1];
      assert init[i] == entries[i];
      assert forall j :: i < j < |init| ==> init[j] == entries[j];
      LastWins(init, i);
    }
  }

  /** The header's cookies as a name-to-value record, split on "; ";
      `None` when a value fails to decode. */
  function ParseCookieHeader(header: string): Option<map<string, string>>
  {
    match ParsePairs(Split(header, "; "))
    case None => None
    case Some(entries) => Some(FromEntries(entries))
  }

  /** The token `getSession` hands to the provider, or `None` when it
      returns null without asking it; `Failure` when decoding throws.
      `cookieHeader` is the request's `Cookie` header, `None` if absent. */
  function TokenToVerify(cookieHeader: Option<string>): (r: Result<Option<string>, string>)
    ensures cookieHeader == None || cookieHeader == Some("") ==> r == Success(None)
    ensures r.Success? && r.value.Some? ==> r.value.value != ""
    ensures r.Failure? ==> r.error == UriMalformed
  {
    match cookieHeader
    case None => Success(None)
    case Some(h) =>
      if h == "" then Success(None)
      else
        match ParseCookieHeader(h)
        case None => Failure(UriMalformed)
        case Some(cookies) =>
          if AuthCookieName !in cookies || cookies[AuthCookieName] == "" then Success(None)
          else Success(Some(cookies[AuthCookieName]))
  }

  /** `getSession(request)`: the signed-in user, or `None`. `getUser` is the
      identity provider's answer for each token; it is consulted only for
      the token that `TokenToVerify` yields. */
  function GetSession(cookieHeader: Option<string>, getUser: string -> UserReply): (r: Result<Option<User>, string>)
    ensures TokenToVerify(cookieHeader) == Success(None) ==> r == Success(None)
    ensures TokenToVerify(cookieHeader).Failure? ==> r == Failure(UriMalformed)
    ensures TokenToVerify(cookieHeader).Success? && TokenToVerify(cookieHeader).value.Some? ==>
      var reply := getUser(TokenToVerify(cookieHeader).value.value);
      r == Success(if reply.error.None? then reply.user else None)
  {
    match TokenToVerify(cookieHeader)
    case Failure(e) => Failure(e)
    case Success(None) => Success(None)
    case Success(Some(token)) =>
      var reply := getUser(token);
      if reply.error.Some? || reply.user.None? then Success(None) else Success(reply.user)
  }

  /** `requireAuth(request)`: the user when there is one, otherwise a
      redirect to the login page; a decoding exception propagates. */
  function RequireAuth(cookieHeader: Option<string>, getUser: string -> UserReply): (g: Gate)
    ensures g.Proceed? <==> GetSession(cookieHeader, getUser).Success? && GetSession(cookieHeader, getUser).value.Some?
    ensures g.Proceed? ==> GetSession(cookieHeader, getUser) == Success(Some(g.user))
    ensures g.RedirectTo? <==> GetSession(cookieHeader, getUser) == Success(None)
    ensures g.RedirectTo? ==> g.location == "/login"
    ensures GetSession(cookieHeader, getUser).Failure? ==> g == Raise(UriMalformed)
  {
    match GetSession(cookieHeader, getUser)
    case Failure(e) => Raise(e)
    case Success(None) => RedirectTo("/login")
    case Success(Some(u)) => Proceed(u)
  }

  // ---------------------------------------------------------------------
  // Issuing and clearing the cookie

  /** The `Set-Cookie` value that issues `token` for one week
      (60 * 60 * 24 * 7 = 604800 seconds). */
  function AuthCookie(token: string): string
  {
    AuthCookieName + "=" + token + ";" + IssueAttributes
  }

  /** The attributes of the issued cookie, after the `;` that ends the pair. */
  const IssueAttributes := " Path=/; HttpOnly; SameSite=Lax; Max-Age=604800"

  /** The `Set-Cookie` value that clears the cookie at once: an empty
      value that expires immediately. */
  const ClearedAuthCookie := AuthCookieName + "=" + ";" + ClearAttributes

  /** The attributes of the clearing cookie, after the `;` that ends the pair. */
  const ClearAttributes := " Path=/; HttpOnly; SameSite=Lax; Max-Age=0"

  /** `setAuthCookie(response, token)`: appends exactly one header and
      returns the same response. */
  method SetAuthCookie(response: Http.Response, token: string) returns (r: Http.Response)
    modifies response
    ensures r == response
    ensures response.headers == old(response.headers) + [("Set-Cookie", AuthCookie(token))]
  {
    response.Append("Set-Cookie", AuthCookie(token));
    r := response;
  }

  /** `clearAuthCookie(response)`: appends exactly one header and returns
      the same response. */
  method ClearAuthCookie(response: Http.Response) returns (r: Http.Response)
    modifies response
    ensures r == response
    ensures response.headers == old(response.headers) + [("Set-Cookie", ClearedAuthCookie)]
  {
    response.Append("Set-Cookie", ClearedAuthCookie);
    r := response;
  }

  // ---------------------------------------------------------------------
  // Round trip between issuing and parsing

  /** The name-value pair a user agent stores from a `Set-Cookie` value:
      the text before its first `;` (section 5.2 of RFC 6265). */
  function StoredPair(setCookie: string): string
  {
    Split(setCookie, ";")[0]
  }

  /** A cookie name or value that the header syntax carries unchanged. */
  predicate PlainText(s: string)
  {
    ';' !in s && '=' !in s && '%' !in s
  }

  /** `name=value` for each cookie of a jar. */
  function PairTexts(jar: seq<(string, string)>): (ps: seq<string>)
    ensures |ps| == |jar|
    ensures forall k :: 0 <= k < |jar| ==> ps[k] == jar[k].0 + "=" + jar[k].1
  {
    if jar == [] then [] else [jar[0].0 + "=" + jar[0].1] + PairTexts(jar[1..])
  }

  /** The `Cookie` header a user agent sends for a jar of cookies. */
  function CookieHeader(jar: seq<(string, string)>): string
  {
    Join(PairTexts(jar), "; ")
  }

  /** A piece `name=value` of plain text parses to that very cookie. */
  lemma ParsePlainPair(name: string, value: string)
    requires PlainText(name) && PlainText(value)
    ensures ParsePair(name + "=" + value) == Some((name, value))
  {
    SplitJoin([name, value], "=");
    assert Join([name, value], "=") == name + "=" + Join([value], "=");
  }

  /** Text after a second `=` is dropped from the value. */
  lemma ParsePairDropsTail(name: string, value: string, rest: string)
    requires '=' !in name && '=' !in value && '%' !in value
    ensures ParsePair(name + "=" + value + "=" + rest) == Some((name, value))
  {
    var s := name + "=" + value + "=" + rest;
    IndexAfterPiece(name, "=", value + "=" + rest);
    assert s == name + "=" + (value + "=" + rest);
    assert s[..|name|] == name && s[|name| + 1..] == value + "=" + rest;
    IndexAfterPiece(value, "=", rest);
    var tail := value + "=" + rest;
    assert tail[..|value|] == value && tail[|value| + 1..] == rest;
    assert Split(tail, "=") == [value] + Split(rest, "=");
    assert Split(s, "=") == [name] + Split(tail, "=");
  }

  /** A piece without `=` is a cookie whose value is "undefined". */
  lemma ParsePairWithoutValue(name: string)
    requires '=' !in name
    ensures ParsePair(name) == Some((name, "undefined"))
  {
    FirstCharAbsent(name, "=");
    SplitSingle(name, "=");
  }

  /** Every piece of a plain jar parses to its cookie. */
  lemma {:induction false} ParsePlainPairs(jar: seq<(string, string)>)
    requires forall k :: 0 <= k < |jar| ==> PlainText(jar[k].0) && PlainText(jar[k].1)
    ensures ParsePairs(PairTexts(jar)) == Some(jar)
    decreases |jar|
  {
    if jar != [] {
      ParsePlainPair(jar[0].0, jar[0].1);
      ParsePlainPairs(jar[1..]);
      assert PairTexts(jar)[1..] == PairTexts(jar[1..]);
      assert jar == [jar[0]] + jar[1..];
    }
  }

  /** Parsing the header sent for a plain, non-empty jar gives back the
      jar as a record, later cookies overwriting earlier ones. */
  lemma ParseCookieHeaderOfJar(jar: seq<(string, string)>)
    requires |jar| >= 1
    requires forall k :: 0 <= k < |jar| ==> PlainText(jar[k].0) && PlainText(jar[k].1)
    ensures CookieHeader(jar) != ""
    ensures ParseCookieHeader(CookieHeader(jar)) == Some(FromEntries(jar))
  {
    var ps := PairTexts(jar);
    assert forall k :: 0 <= k < |ps| ==> ps[k][|jar[k].0|] == '=';
    assert forall k :: 0 <= k < |ps| ==> ';' !in ps[k];
    SplitJoin(ps, "; ");
    ParsePlainPairs(jar);
    JoinNonEmpty(ps, "; ");
  }

  /** The join of pieces that all contain a character is not empty. */
  lemma JoinNonEmpty(ps: seq<string>, sep: string)
    requires |ps| >= 1 && ps[0] != ""
    ensures Join(ps, sep) != ""
  {
    if |ps| > 1 {
      assert |Join(ps, sep)| >= |ps[0]|;
    }
  }

  /** A token made of letters, digits, `.`, `_` and `-`, the characters
      of a provider access token. */
  predicate TokenChars(token: string)
  {
    forall i :: 0 <= i < |token| ==>
      'A' <= token[i] <= 'Z' || 'a' <= token[i] <= 'z' || '0' <= token[i] <= '9' || token[i] in "._-"
  }

  /** What a user agent stores from the issued cookie is `name=token`,
      and from the clearing cookie `name=` with an empty value. */
  lemma StoredAuthCookie(token: string)
    requires ';' !in token
    ensures StoredPair(AuthCookie(token)) == AuthCookieName + "=" + token
    ensures StoredPair(ClearedAuthCookie) == AuthCookieName + "="
  {
    AuthCookieNamePlain();
    StoredPairBefore(AuthCookieName + "=" + token, IssueAttributes);
    StoredPairBefore(AuthCookieName + "=", ClearAttributes);
  }

  /** The stored pair is the text before the first `;`. */
  lemma StoredPairBefore(pair: string, attributes: string)
    requires ';' !in pair
    ensures StoredPair(pair + ";" + attributes) == pair
  {
    IndexAfterPiece(pair, ";", attributes);
    assert (pair + ";" + attributes)[..|pair|] == pair;
  }

  /** The session cookie's name is plain text. */
  lemma AuthCookieNamePlain()
    ensures PlainText(AuthCookieName)
  {
  }

  /** A token of provider characters is plain text. */
  lemma TokenIsPlain(token: string)
    requires TokenChars(token)
    ensures PlainText(token)
  {
    forall i | 0 <= i < |token| ensures token[i] != ';' && token[i] != '=' && token[i] != '%' {
      assert token[i] in "._-" ==> token[i] == '.' || token[i] == '_' || token[i] == '-';
    }
  }

  /** Resolving the header of a plain, non-empty jar looks up the last
      auth cookie of the jar. */
  lemma JarResolves(jar: seq<(string, string)>)
    requires |jar| >= 1
    requires forall k :: 0 <= k < |jar| ==> PlainText(jar[k].0) && PlainText(jar[k].1)
    ensures var cookies := FromEntries(jar);
      TokenToVerify(Some(CookieHeader(jar)))
        == Success(if AuthCookieName in cookies && cookies[AuthCookieName] != "" then Some(cookies[AuthCookieName]) else None)
  {
    ParseCookieHeaderOfJar(jar);
  }

  /** The cookie header of a jar with one more cookie at the end. */
  lemma PairTextsAppend(jar: seq<(string, string)>, c: (string, string))
    ensures PairTexts(jar + [c]) == PairTexts(jar) + [c.0 + "=" + c.1]
  {
  }

  /** The header sent after issuing `token` ends with the stored pair of
      the issued cookie. */
  lemma IssuedHeader(jar: seq<(string, string)>, token: string)
    requires ';' !in token
    ensures CookieHeader(jar + [(AuthCookieName, token)])
         == Join(PairTexts(jar) + [StoredPair(AuthCookie(token))], "; ")
  {
    StoredAuthCookie(token);
    PairTextsAppend(jar, (AuthCookieName, token));
  }

  /** The header of a plain jar whose last auth cookie has value `value`
      resolves to that value, or to no token when it is empty. */
  lemma LastAuthCookieResolves(jar: seq<(string, string)>, value: string)
    requires forall k :: 0 <= k < |jar| ==> PlainText(jar[k].0) && PlainText(jar[k].1)
    requires PlainText(value)
    ensures TokenToVerify(Some(CookieHeader(jar + [(AuthCookieName, value)])))
         == Success(if value == "" then None else Some(value))
  {
    var full := jar + [(AuthCookieName, value)];
    AuthCookieNamePlain();
    assert forall k :: 0 <= k < |full| ==> PlainText(full[k].0) && PlainText(full[k].1);
    JarResolves(full);
    LastWins(full, |full| - 1);
  }

  /** Issue, then resolve: whatever other plain cookies precede it, the
      header carrying the issued cookie yields the token, and the user is
      whatever the provider answers for it. */
  lemma IssueThenResolve(jar: seq<(string, string)>, token: string, getUser: string -> UserReply)
    requires forall k :: 0 <= k < |jar| ==> PlainText(jar[k].0) && PlainText(jar[k].1)
    requires token != "" && TokenChars(token)
    ensures CookieHeader(jar + [(AuthCookieName, token)])
         == Join(PairTexts(jar) + [StoredPair(AuthCookie(token))], "; ")
    ensures TokenToVerify(Some(CookieHeader(jar + [(AuthCookieName, token)]))) == Success(Some(token))
    ensures getUser(token).error.None? ==>
      GetSession(Some(CookieHeader(jar + [(AuthCookieName, token)])), getUser) == Success(getUser(token).user)
  {
    TokenIsPlain(token);
    IssuedHeader(jar, token);
    LastAuthCookieResolves(jar, token);
  }

  /** Clear, then resolve: a header whose last auth cookie is the cleared
      (empty) one, or that has no auth cookie at all, yields no token, so
      `getSession` returns null without asking the provider. */
  lemma ClearThenResolve(jar: seq<(string, string)>, getUser: string -> UserReply)
    requires forall k :: 0 <= k < |jar| ==> PlainText(jar[k].0) && PlainText(jar[k].1)
    ensures CookieHeader(jar + [(AuthCookieName, "")])
         == Join(PairTexts(jar) + [StoredPair(ClearedAuthCookie)], "; ")
    ensures TokenToVerify(Some(CookieHeader(jar + [(AuthCookieName, "")]))) == Success(None)
    ensures GetSession(Some(CookieHeader(jar + [(AuthCookieName, "")])), getUser) == Success(None)
  {
    StoredAuthCookie("");
    PairTextsAppend(jar, (AuthCookieName, ""));
    assert AuthCookieName + "=" + "" == StoredPair(ClearedAuthCookie);
    LastAuthCookieResolves(jar, "");
  }

  /** Once the user agent has dropped the expired cookie, the header it
      sends has no auth cookie (or there is no header at all), and
      `getSession` returns null without asking the provider. */
  lemma DroppedCookieResolves(jar: seq<(string, string)>, getUser: string -> UserReply)
    requires forall k :: 0 <= k < |jar| ==> PlainText(jar[k].0) && PlainText(jar[k].1)
    requires forall k :: 0 <= k < |jar| ==> jar[k].0 != AuthCookieName
    ensures GetSession(if jar == [] then None else Some(CookieHeader(jar)), getUser) == Success(None)
  {
    if jar != [] {
      JarResolves(jar);
      assert AuthCookieName !in FromEntries(jar);
    }
  }
}
