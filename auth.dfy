/** Authentication middleware: the `user_id` claim that may arrive as a number
    or as a quoted number, the bearer credential taken from the Authorization
    header or the `auth_token` cookie, the role check, and the user id the
    handlers read back from the request context. Token signing and
    verification are a parameter (`parse`). */
module Auth {
  import opened Wrappers
  import opened Text
  import opened Dynamic

  // ---------------------------------------------------------------------------
  // FlexibleInt.

  /** FlexibleInt.UnmarshalJSON of one JSON value: a quoted text must be an
      integer, a number must fit an int, and anything else fails (None).
      `null` leaves the fresh local integer at 0, which is then stored. */
  function FlexibleInt(json: Value): (r: Option<int>)
    ensures json.VString? ==> r == Atoi(json.s)
    ensures json.VInt? ==> (r.Some? <==> IsInt64(json.i)) && (r.Some? ==> r.value == json.i)
    ensures json.VNull? ==> r == Some(0)
    ensures json.VBool? ==> r.None?
  {
    match json
    case VString(s) => Atoi(s)
    case VInt(i) => if IsInt64(i) then Some(i) else None
    case VNull => Some(0)
    case VBool(_) => None
  }

  /** A claim written as a number or as the same number quoted decodes to the same value. */
  lemma QuotedClaimMatchesNumber(i: int)
    requires IsInt64(i)
    ensures FlexibleInt(VString(IntToDecimal(i))) == FlexibleInt(VInt(i)) == Some(i)
  {
    AtoiRoundTrip(i);
  }

  /** A quoted text that is not an integer is an error, even an empty one. */
  lemma QuotedNonIntegerFails()
    ensures FlexibleInt(VString("12a")).None?
    ensures FlexibleInt(VString("")).None?
  {
    assert !IsDigit('a');
    assert !AllDigits("12a") by { assert "12a"[2] == 'a'; }
    assert !AllDigits("2a") by { assert "2a"[1] == 'a'; }
  }

  // ---------------------------------------------------------------------------
  // The bearer credential.

  /** The index of the first space, if any. */
  function FirstSpace(s: string): (r: Option<nat>)
    ensures r.Some? ==> r.value < |s| && s[r.value] == ' ' && ' ' !in s[..r.value]
    ensures r.None? ==> ' ' !in s
  {
    if s == [] then None
    else if s[0] == ' ' then Some(0)
    else
      match FirstSpace(s[1..])
      case None => None
      case Some(i) => assert s[..i + 1] == [s[0]] + s[1..][..i]; Some(i + 1)
  }

  /** `strings.SplitN(s, " ", 2)`: the text before the first space and the rest after it. */
  function SplitOnce(s: string): (parts: seq<string>)
    ensures 1 <= |parts| <= 2
    ensures |parts| == 1 <==> ' ' !in s
    ensures |parts| == 1 ==> parts[0] == s
    ensures |parts| == 2 ==> ' ' !in parts[0] && s == parts[0] + " " + parts[1]
  {
    match FirstSpace(s)
    case None => [s]
    case Some(i) =>
      assert s == s[..i] + " " + s[i + 1..];
      [s[..i], s[i + 1..]]
  }

  /** A token may contain spaces: only the first one separates the scheme. */
  lemma SplitOnceAfterScheme(scheme: string, token: string)
    requires ' ' !in scheme
    ensures SplitOnce(scheme + " " + token) == [scheme, token]
  {
    var s := scheme + " " + token;
    var parts := SplitOnce(s);
    assert s[|scheme|] == ' ';
    assert ' ' in s;
    assert |parts| == 2;
    var p := parts[0];
    assert p == s[..|p|];
    assert s[..|scheme|] == scheme;
  }

  const NoCredentials: string := "Authorization header or cookie required"
  const BadFormat: string := "Invalid authorization header format"
  const BadToken: string := "Invalid or expired token"
  const StatusUnauthorized: int := 401
  const StatusForbidden: int := 403
  const StatusInternalServerError: int := 500

  /** What the middleware does with a request: stop it with a status and a
      message, or let it through with the request values it sets. */
  datatype Decision = Abort(status: int, message: string) | Proceed(context: map<string, Value>)

  /** The credential the header gives, a missing header replaced by the
      cookie: the token after a case-insensitive "bearer" scheme. */
  function BearerToken(header: string, cookie: Option<string>): (r: Result<string>)
    ensures r == Err(NoCredentials) <==> header == "" && cookie.None?
    ensures r.Err? ==> r.error == NoCredentials || r.error == BadFormat
    ensures r.Ok? && header != "" ==>
      var k := |header| - |r.value| - 1;
      && 0 <= k && header[k..] == " " + r.value && ' ' !in header[..k]
      && AsciiLower(header[..k]) == "bearer"
  {
    if header == "" && cookie.None? then Err(NoCredentials)
    else
      var full := if header == "" then "Bearer " + cookie.value else header;
      var parts := SplitOnce(full);
      if |parts| != 2 || AsciiLower(parts[0]) != "bearer" then Err(BadFormat)
      else
        assert full[..|parts[0]|] == parts[0] && full[|parts[0]|..] == " " + parts[1];
        Ok(parts[1])
  }

  /** The header is accepted exactly when the text before its first space is
      "bearer" in any case, and the token is everything after that space. */
  lemma {:induction false} HeaderAcceptedIff(header: string, cookie: Option<string>, scheme: string, token: string)
    requires header != "" && ' ' !in scheme && header == scheme + " " + token
    ensures BearerToken(header, cookie).Ok? <==> AsciiLower(scheme) == "bearer"
    ensures BearerToken(header, cookie).Ok? ==> BearerToken(header, cookie).value == token
  {
    SplitOnceAfterScheme(scheme, token);
  }

  /** A header without a space is always rejected. */
  lemma HeaderWithoutSpaceRejected(header: string, cookie: Option<string>)
    requires header != "" && ' ' !in header
    ensures BearerToken(header, cookie) == Err(BadFormat)
  {
  }

  /** Without a header the cookie is used as the bearer token, whatever it holds;
      with neither the request is refused. */
  lemma CookieFallback(cookie: Option<string>)
    ensures cookie.None? ==> BearerToken("", cookie) == Err(NoCredentials)
    ensures cookie.Some? ==> BearerToken("", cookie) == Ok(cookie.value)
  {
    if cookie.Some? {
      SplitOnceAfterScheme("Bearer", cookie.value);
      assert "Bearer " + cookie.value == "Bearer" + " " + cookie.value;
      BearerLowersToScheme();
    }
  }

  lemma BearerLowersToScheme()
    ensures AsciiLower("Bearer") == "bearer"
  {
    var r := AsciiLower("Bearer");
    assert r[0] == 'b';
  }

  /** The claims a verified token carries. */
  datatype Claims = Claims(userId: int, username: string, role: string)

  /** AuthMiddleware, for the header, the cookie and the token verifier. */
  function Authenticate(header: string, cookie: Option<string>, parse: string -> Option<Claims>): (d: Decision)
    ensures d.Abort? ==> d.status == StatusUnauthorized
  {
    match BearerToken(header, cookie)
    case Err(e) => Abort(StatusUnauthorized, e)
    case Ok(token) =>
      match parse(token)
      case None => Abort(StatusUnauthorized, BadToken)
      case Some(claims) =>
        Proceed(map["userID" := VInt(claims.userId), "username" := VString(claims.username), "role" := VString(claims.role)])
  }

  // ---------------------------------------------------------------------------
  // Roles and the current user.

  /** RoleMiddleware: no role is 401, a role that is not text is 500, a role not
      in the list is 403. */
  method RoleCheck(context: map<string, Value>, roles: seq<string>) returns (d: Decision)
    ensures "role" !in context ==> d == Abort(StatusUnauthorized, "User role not found")
    ensures "role" in context && !context["role"].VString? ==> d == Abort(StatusInternalServerError, "Invalid role type")
    ensures "role" in context && context["role"].VString? ==>
      (d == Proceed(context) <==> context["role"].s in roles)
      && (context["role"].s !in roles ==> d == Abort(StatusForbidden, "Insufficient permissions"))
  {
    if "role" !in context {
      return Abort(StatusUnauthorized, "User role not found");
    }
    var userRole := context["role"];
    if !userRole.VString? {
      return Abort(StatusInternalServerError, "Invalid role type");
    }
    var allowed := false;
    var i := 0;
    while i < |roles|
      invariant 0 <= i <= |roles|
      invariant !allowed ==> userRole.s !in roles[..i]
      invariant allowed ==> userRole.s in roles
    {
      if roles[i] == userRole.s {
        allowed := true;
        break;
      }
      assert roles[..i + 1] == roles[..i] + [roles[i]];
      i := i + 1;
    }
    if !allowed {
      assert roles[..|roles|] == roles;
      return Abort(StatusForbidden, "Insufficient permissions");
    }
    d := Proceed(context);
  }

  /** GetCurrentUserID: the userID request value, 0 when absent or not an int. */
  function CurrentUserId(context: map<string, Value>): (id: int)
    ensures "userID" in context && context["userID"].VInt? ==> id == context["userID"].i
    ensures "userID" !in context || !context["userID"].VInt? ==> id == 0
  {
    if "userID" in context && context["userID"].VInt? then context["userID"].i else 0
  }

  /** A request that passes authentication carries its token's user id and role:
      the handlers read that id, and the role check looks at that role. */
  lemma AuthenticatedContext(header: string, cookie: Option<string>, parse: string -> Option<Claims>)
    requires Authenticate(header, cookie, parse).Proceed?
    ensures var ctx := Authenticate(header, cookie, parse).context;
      var claims := parse(BearerToken(header, cookie).value).value;
      && CurrentUserId(ctx) == claims.userId
      && "role" in ctx && ctx["role"] == VString(claims.role)
  {
  }
}
