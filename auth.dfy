/** The authentication helpers of backend/app/auth_utils.py: the administrator
    e-mail list, the checks applied to a verified Google ID token, the claims of
    the ZotRide JWT, and the three route decorators. Signature checking (Google's
    and the JWT's HS256) is not modelled: each decoder is a parameter that maps a
    token to its claims, or to None when the decoder rejects it. */
module Auth {
  import opened Common
  import opened Models

  // ---------------------------------------------------------------- administrators

  const ADMIN_EMAILS: seq<string> := ["kennl21@uci.edu", "bdkeenan@uci.edu"]

  /** `email.lower() in [a.lower() for a in list]`. */
  function LowerIn(email: string, list: seq<string>): (b: bool)
    ensures b <==> exists i :: 0 <= i < |list| && Lower(email) == Lower(list[i])
    decreases |list|
  {
    if list == [] then false
    else Lower(email) == Lower(list[0]) || LowerIn(email, list[1..])
  }

  /** check_is_admin. */
  function CheckIsAdmin(email: string): bool
  {
    LowerIn(email, ADMIN_EMAILS)
  }

  /** Every address on the list is an administrator's, in any case. */
  lemma {:induction false} ListedAdminsAreAdmins(email: string, other: string)
    requires email in ADMIN_EMAILS && Lower(other) == Lower(email)
    ensures CheckIsAdmin(email) && CheckIsAdmin(other)
  {
    ListedIsIn(email, ADMIN_EMAILS);
    LowerInIgnoresCase(email, other, ADMIN_EMAILS);
  }

  lemma {:induction false} ListedIsIn(email: string, list: seq<string>)
    requires email in list
    ensures LowerIn(email, list)
  {
    var i :| 0 <= i < |list| && list[i] == email;
  }

  /** The check looks only at the lower-cased address. */
  lemma LowerInIgnoresCase(email: string, other: string, list: seq<string>)
    ensures Lower(email) == Lower(other) ==> LowerIn(email, list) == LowerIn(other, list)
    ensures LowerIn(Lower(email), list) == LowerIn(email, list)
  {
    LowerIdempotent(email);
  }

  // ---------------------------------------------------------------- Google ID tokens

  /** The claims of a Google ID token whose signature google-auth accepted; None
      marks a claim the token does not carry. */
  datatype GoogleClaims = GoogleClaims(iss: Option<string>, email: Option<string>, name: Option<string>, sub: Option<string>)

  datatype GoogleUser = GoogleUser(email: string, name: string, googleId: string)

  const GOOGLE_ISSUERS: seq<string> := ["accounts.google.com", "https://accounts.google.com"]
  const UCI_DOMAIN := "@uci.edu"

  /** verify_google_token: `claims` is what signature verification returned (None
      when it raised). The issuer must be Google's and the email must end, with
      exactly this case, in "@uci.edu"; a missing email counts as "". */
  function VerifyGoogleToken(claims: Option<GoogleClaims>): (r: Result<GoogleUser>)
    ensures r.Ok? <==> claims.Some? && claims.value.iss.Some? && claims.value.iss.value in GOOGLE_ISSUERS
                       && EndsWith(claims.value.email.GetOr(""), UCI_DOMAIN)
    ensures r.Ok? ==> r.value.email == claims.value.email.value && r.value.name == claims.value.name.GetOr("")
                      && r.value.googleId == claims.value.sub.GetOr("")
  {
    if claims.None? then Err("Invalid Google token")
    else if claims.value.iss.None? || claims.value.iss.value !in GOOGLE_ISSUERS then Err("Wrong issuer.")
    else
      var email := claims.value.email.GetOr("");
      if !EndsWith(email, UCI_DOMAIN) then Err("Only UC Irvine email addresses (@uci.edu) are allowed.")
      else Ok(GoogleUser(email, claims.value.name.GetOr(""), claims.value.sub.GetOr("")))
  }

  /** The domain check is case-sensitive: an upper-case domain is refused even
      though the same address in lower case is accepted. */
  lemma {:induction false} UpperCaseDomainRefused()
    ensures VerifyGoogleToken(Some(GoogleClaims(Some("accounts.google.com"), Some("ab@UCI.EDU"), None, None))).Err?
    ensures VerifyGoogleToken(Some(GoogleClaims(Some("accounts.google.com"), Some("ab@uci.edu"), None, None))).Ok?
  {
    var upper := "ab@UCI.EDU";
    assert upper[|upper| - |UCI_DOMAIN|..][1] == 'U';
    var lower := "ab@uci.edu";
    assert lower[|lower| - |UCI_DOMAIN|..] == UCI_DOMAIN;
  }

  // ---------------------------------------------------------------- ZotRide JWTs

  /** The claims generate_jwt_token signs; instants are seconds. */
  datatype JwtClaims = JwtClaims(userId: UserId, email: string, exp: int, iat: int)

  const TOKEN_LIFETIME := 7 * 24 * 60 * 60

  /** generate_jwt_token: issued now, expiring seven days later (the `exp` and
      `iat` claims of sections 4.1.4 and 4.1.6 of RFC 7519). */
  function GenerateJwtClaims(userId: UserId, email: string, now: int): (c: JwtClaims)
    ensures c.userId == userId && c.email == email
    ensures c.iat == now && c.exp - c.iat == 604800
  {
    JwtClaims(userId, email, now + TOKEN_LIFETIME, now)
  }

  /** The claims a decoder finds in a token: user_id may be missing. */
  datatype Payload = Payload(userId: Option<int>)

  // ---------------------------------------------------------------- the Authorization header

  /** `auth_header.split(' ')[1]`: the second space-separated field, or an
      IndexError when there is no space at all. */
  function TokenOf(header: string): (r: Result<string>)
    ensures r.Err? <==> |SplitOn(header, ' ')| < 2
    ensures r.Ok? ==> ' ' !in r.value
  {
    var parts := SplitOn(header, ' ');
    if |parts| < 2 then Err("Invalid token format. Use: Bearer <token>") else Ok(parts[1])
  }

  /** A header without a space has no token field. */
  lemma NoSpaceIsBadFormat(header: string)
    requires ' ' !in header
    ensures TokenOf(header).Err?
  {
    SplitNoSeparator(header, ' ');
  }

  /** "Bearer <token>" yields the token back, and the first word is never
      checked: any other space-free word in its place yields the same token. */
  lemma BearerRoundTrip(scheme: string, token: string)
    requires ' ' !in scheme && ' ' !in token
    ensures TokenOf(scheme + " " + token) == Ok(token)
    ensures TokenOf(scheme + " " + token) == TokenOf("Bearer " + token)
  {
    SplitAtFirst(scheme, ' ', token);
    SplitAtFirst("Bearer", ' ', token);
    SplitNoSeparator(token, ' ');
    assert "Bearer " + token == "Bearer" + [' '] + token;
  }

  // ---------------------------------------------------------------- decorators

  /** What a decorator does with a request: answer it with an error status, or
      call the route with the given current user. */
  datatype Gate = Reject(status: int, message: string) | Proceed(user: Option<UserId>)

  /** token_required: `header` is the Authorization header (None when absent) and
      `verify` is verify_jwt_token. */
  function TokenRequired(users: map<UserId, User>, header: Option<string>, verify: string -> Option<Payload>)
    : (g: Gate)
    ensures g.Proceed? ==> g.user.Some? && g.user.value in users
    ensures header.Some? && TokenOf(header.value).Err? ==> g == Reject(UNAUTHORIZED, TokenOf(header.value).error)
    ensures g.Reject? ==> g.status == UNAUTHORIZED
    ensures g.Proceed? <==> (header.Some? && TokenOf(header.value).Ok? && TokenOf(header.value).value != ""
      && verify(TokenOf(header.value).value).Some? && verify(TokenOf(header.value).value).value.userId.Some?
      && verify(TokenOf(header.value).value).value.userId.value in users)
    ensures g.Proceed? ==> g.user == verify(TokenOf(header.value).value).value.userId
  {
    if header.Some? && TokenOf(header.value).Err? then Reject(UNAUTHORIZED, TokenOf(header.value).error)
    else if header.None? || TokenOf(header.value).value == "" then Reject(UNAUTHORIZED, "Authentication token is missing")
    else
      var payload := verify(TokenOf(header.value).value);
      if payload.None? then Reject(UNAUTHORIZED, "Invalid token")
      else if payload.value.userId.None? then Reject(UNAUTHORIZED, "Authentication failed")
      else if payload.value.userId.value !in users then Reject(UNAUTHORIZED, "User not found")
      else Proceed(payload.value.userId)
  }

  /** admin_required, behind token_required: 401 without a current user, 403 for
      one who is not a system administrator. */
  function AdminRequired(users: map<UserId, User>, current: Option<UserId>): (g: Gate)
    ensures g.Proceed? <==> current.Some? && current.value in users && users[current.value].isSystemAdmin
    ensures g.Proceed? ==> g.user == current
    ensures current.None? ==> g.Reject? && g.status == UNAUTHORIZED
    ensures current.Some? && current.value in users && !users[current.value].isSystemAdmin
      ==> g.Reject? && g.status == FORBIDDEN
  {
    if current.None? || current.value !in users then Reject(UNAUTHORIZED, "Authentication required")
    else if !users[current.value].isSystemAdmin then Reject(FORBIDDEN, "Admin privileges required")
    else Proceed(current)
  }

  /** optional_auth: never answers by itself; any failure leaves the current user
      empty. */
  function OptionalAuth(users: map<UserId, User>, header: Option<string>, verify: string -> Option<Payload>)
    : (g: Gate)
    ensures g.Proceed?
    ensures g.user.Some? ==> g.user.value in users
  {
    if header.None? || TokenOf(header.value).Err? || TokenOf(header.value).value == "" then Proceed(None)
    else
      var payload := verify(TokenOf(header.value).value);
      if payload.None? || payload.value.userId.None? || payload.value.userId.value !in users then Proceed(None)
      else Proceed(payload.value.userId)
  }

  /** optional_auth identifies exactly the users token_required lets through. */
  lemma OptionalAuthAgreesWithTokenRequired(users: map<UserId, User>, header: Option<string>,
                                            verify: string -> Option<Payload>, u: UserId)
    ensures OptionalAuth(users, header, verify) == Proceed(Some(u))
        <==> TokenRequired(users, header, verify) == Proceed(Some(u))
  {
  }
}
