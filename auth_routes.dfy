/** The sign-in handlers of backend/app/routes/auth_routes.py: Google sign-in
    logs an existing user in or registers a new one, and a token refresh issues
    fresh claims for the user an old token names. */
module AuthRoutes {
  import opened Common
  import opened Models
  import opened Store
  import opened Auth

  /** The JSON body of POST /auth/google; None marks a missing key. */
  datatype GoogleAuthBody = GoogleAuthBody(token: Option<string>, gender: Option<int>, preferredContact: Option<string>)

  /** The genders the API accepts: 0 male, 1 female, 2 other. */
  predicate IsGender(g: int)
  {
    g == 0 || g == 1 || g == 2
  }

  /** POST /auth/google. `verifyGoogle` stands for google-auth's signature check;
      `now` is the issuing time of the returned token's claims. A registration
      whose email, name or contact is over 100 characters fails at commit. */
  method GoogleAuth(db: Database, body: GoogleAuthBody, verifyGoogle: string -> Option<GoogleClaims>, now: int)
    returns (status: int, claims: Option<JwtClaims>)
    requires db.Valid()
    modifies db
    ensures db.Valid()
    ensures var t := old(db.Snapshot());
      if body.token.None? then status == BAD_REQUEST && claims.None? && db.Snapshot() == t
      else
        var info := VerifyGoogleToken(verifyGoogle(body.token.value));
        if info.Err? then status == UNAUTHORIZED && claims.None? && db.Snapshot() == t
        else if EmailTaken(t.users, info.value.email) then
          var u := UserByEmail(t.users, info.value.email).value;
          status == OK && claims == Some(GenerateJwtClaims(u, info.value.email, now)) && db.Snapshot() == t
        else if body.gender.None? || body.preferredContact.None? then
          status == BAD_REQUEST && claims.None? && db.Snapshot() == t
        else if !IsGender(body.gender.value) then status == BAD_REQUEST && claims.None? && db.Snapshot() == t
        else
          var user := NewUser(info.value.email, info.value.name, body.gender.value, body.preferredContact.value,
                              CheckIsAdmin(info.value.email));
          if !UserRowFits(user) then status == BAD_REQUEST && claims.None? && db.Snapshot() == t
          else
            && status == CREATED && claims == Some(GenerateJwtClaims(t.next.user, info.value.email, now))
            && db.Snapshot() == t.(users := t.users[t.next.user := user], next := t.next.(user := t.next.user + 1))
  {
    var t := db.Snapshot();
    if body.token.None? {
      return BAD_REQUEST, None;
    }
    var info := VerifyGoogleToken(verifyGoogle(body.token.value));
    if info.Err? {
      return UNAUTHORIZED, None;
    }
    var email := info.value.email;
    var existing := UserByEmail(t.users, email);
    if existing.Some? {
      return OK, Some(GenerateJwtClaims(existing.value, email, now));
    }
    if body.gender.None? || body.preferredContact.None? {
      return BAD_REQUEST, None;
    }
    if !IsGender(body.gender.value) {
      return BAD_REQUEST, None;
    }
    var user := NewUser(email, info.value.name, body.gender.value, body.preferredContact.value, CheckIsAdmin(email));
    if !UserRowFits(user) {
      return BAD_REQUEST, None;
    }
    InsertUserKeepsConsistent(t, user);
    db.Commit(t.(users := t.users[t.next.user := user], next := t.next.(user := t.next.user + 1)));
    return CREATED, Some(GenerateJwtClaims(t.next.user, email, now));
  }

  datatype Refresh = Refresh(status: int, claims: Option<JwtClaims>)

  /** POST /auth/refresh. `verify` is verify_jwt_token and `decodeUnverified` the
      fallback decode that skips the signature (and so the expiry); the first that
      yields a payload is used. */
  function RefreshToken(users: map<UserId, User>, token: Option<string>, verify: string -> Option<Payload>,
                        decodeUnverified: string -> Option<Payload>, now: int): (r: Refresh)
    ensures token.None? ==> r == Refresh(BAD_REQUEST, None)
    ensures r.status == OK <==> r.claims.Some?
    ensures r.status != OK ==> r.status == BAD_REQUEST || r.status == UNAUTHORIZED
    ensures r.status == OK ==> (r.claims.value.userId in users && r.claims.value.iat == now
                                && r.claims.value.email == users[r.claims.value.userId].email
                                && r.claims.value == GenerateJwtClaims(r.claims.value.userId, users[r.claims.value.userId].email, now))
    ensures token.Some? ==>
      var p := if verify(token.value).Some? then verify(token.value) else decodeUnverified(token.value);
      && (r.status == OK <==> p.Some? && p.value.userId.Some? && p.value.userId.value in users)
      && (r.status == OK ==> r.claims.value.userId == p.value.userId.value)
  {
    if token.None? then Refresh(BAD_REQUEST, None)
    else
      var payload := if verify(token.value).Some? then verify(token.value) else decodeUnverified(token.value);
      if payload.None? then Refresh(UNAUTHORIZED, None)
      else if payload.value.userId.None? || payload.value.userId.value !in users then Refresh(UNAUTHORIZED, None)
      else
        var u := payload.value.userId.value;
        Refresh(OK, Some(GenerateJwtClaims(u, users[u].email, now)))
  }

  /** An expired token whose payload still names an existing user is refreshed:
      the signature check is not needed. */
  lemma ExpiredTokenStillRefreshes(users: map<UserId, User>, token: string, verify: string -> Option<Payload>,
                                   decodeUnverified: string -> Option<Payload>, now: int, u: UserId)
    requires verify(token).None? && decodeUnverified(token) == Some(Payload(Some(u))) && u in users
    ensures RefreshToken(users, Some(token), verify, decodeUnverified, now).claims
         == Some(JwtClaims(u, users[u].email, now + 604800, now))
  {
  }

  /** GET /auth/verify and GET /auth/me: behind token_required, both answer with
      the current user. */
  function CurrentUser(users: map<UserId, User>, header: Option<string>, verify: string -> Option<Payload>)
    : (r: (int, Option<UserId>))
    ensures r.0 == OK <==> r.1.Some?
    ensures r.0 != OK ==> r.0 == UNAUTHORIZED
    ensures r.1.Some? ==> r.1.value in users
    ensures r.1.Some? <==> TokenRequired(users, header, verify).Proceed?
  {
    match TokenRequired(users, header, verify)
    case Reject(status, _) => (status, None)
    case Proceed(u) => (OK, u)
  }

  /** A token a sign-in hands out is accepted by the routes behind token_required
      as long as the user still exists and the decoder gives its user id back. */
  lemma IssuedTokenIdentifies(users: map<UserId, User>, scheme: string, token: string,
                              verify: string -> Option<Payload>, u: UserId)
    requires ' ' !in scheme && ' ' !in token && token != ""
    requires verify(token) == Some(Payload(Some(u))) && u in users
    ensures CurrentUser(users, Some(scheme + " " + token), verify) == (OK, Some(u))
  {
    BearerRoundTrip(scheme, token);
  }
}
