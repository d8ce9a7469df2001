/** The access guard (src/middleware/auth.js): `protect` turns a request into
    the user it is made for, or a 401 naming the first check that failed;
    `restrictTo` and `checkRole` admit a user by role, or answer 403. */
module AuthGuard {
  import opened Outcomes
  import Text
  import Store
  import Foreign

  /** The parts of a request the guard reads: the Authorization header and the
      `jwt` cookie, each possibly missing. */
  datatype Request = Request(authorization: Option<string>, jwtCookie: Option<string>)

  /** `req.user` once `protect` has let the request through. */
  datatype Principal = Principal(id: nat, user: Store.User)

  /** The token `protect` takes from a request: the second space-separated word
      of an Authorization header starting with "Bearer" (RFC 6750, section
      2.1, read loosely), else the `jwt` cookie; `None` when that is missing or
      empty. */
  function TokenOf(req: Request): (t: Option<string>)
    ensures t.Some? ==> t.value != ""
  {
    if req.authorization.Some? && Text.StartsWith(req.authorization.value, "Bearer") then
      var words := Text.Split(req.authorization.value, ' ');
      if |words| > 1 && words[1] != "" then Some(words[1]) else None
    else if req.jwtCookie.Some? && req.jwtCookie.value != "" then Some(req.jwtCookie.value)
    else None
  }

  /** A header made of space-free words, the first starting with "Bearer",
      yields its second word, whatever the cookie says. */
  lemma HeaderTokenIsSecondWord(words: seq<string>, cookie: Option<string>)
    requires |words| >= 2 && words[1] != ""
    requires forall i :: 0 <= i < |words| ==> ' ' !in words[i]
    requires Text.StartsWith(words[0], "Bearer")
    ensures TokenOf(Request(Some(Text.Join(words, " ")), cookie)) == Some(words[1])
  {
    var h := Text.Join(words, " ");
    Text.JoinStartsWithFirst(words, " ");
    assert h[..|words[0]|] == words[0];
    assert h[..6] == words[0][..6];
    Text.SplitJoin(words, ' ');
  }

  /** The usual form: "Bearer <token>" yields the token. */
  lemma BearerRoundTrip(token: string, cookie: Option<string>)
    requires token != "" && ' ' !in token
    ensures TokenOf(Request(Some("Bearer " + token), cookie)) == Some(token)
  {
    var words := ["Bearer", token];
    assert Text.Join(words, " ") == "Bearer " + token by {
      assert words[1..] == [token];
    }
    HeaderTokenIsSecondWord(words, cookie);
  }

  /** A header that is just "Bearer" yields no token, and the cookie is not consulted. */
  lemma BareBearerIgnoresCookie(cookie: Option<string>)
    ensures TokenOf(Request(Some("Bearer"), cookie)).None?
  {
    Text.SplitWhole("Bearer", ' ');
  }

  /** A header starting with "Bearer" decides alone; the cookie never matters. */
  lemma HeaderShadowsCookie(header: string, c1: Option<string>, c2: Option<string>)
    requires Text.StartsWith(header, "Bearer")
    ensures TokenOf(Request(Some(header), c1)) == TokenOf(Request(Some(header), c2))
  {
  }

  /** Without a "Bearer" header the token is the cookie, when it is set. */
  lemma CookieFallback(req: Request)
    requires req.authorization.None? || !Text.StartsWith(req.authorization.value, "Bearer")
    ensures TokenOf(req) == if req.jwtCookie.Some? && req.jwtCookie.value != "" then req.jwtCookie else None
  {
  }

  /** `protect`: token, verification, the user's existence, the password-change
      check and the active flag, in that order; the first failure answers 401. */
  method Protect(users: Store.Users, svc: Foreign.Services, req: Request) returns (r: Outcome<Principal>)
    requires users.Valid()
    ensures TokenOf(req).None? ==> r == AppFail(401, NotLoggedIn)
    ensures TokenOf(req).Some? ==>
      match svc.verify(TokenOf(req).value)
      case Malformed => r == AppFail(401, InvalidToken)
      case Expired => r == AppFail(401, ExpiredToken)
      case Decoded(id, iat) =>
        if id !in users.docs then r == AppFail(401, UserNoLongerExists)
        else if svc.changedAfter(users.docs[id], iat) then r == AppFail(401, PasswordChangedSinceIssue)
        else if users.docs[id].active == Some(false) then r == AppFail(401, AccountDeactivatedToken)
        else r == Ok(Principal(id, users.docs[id]))
    ensures r.Ok? <==>
      && TokenOf(req).Some?
      && svc.verify(TokenOf(req).value).Decoded?
      && svc.verify(TokenOf(req).value).id in users.docs
      && !svc.changedAfter(users.docs[svc.verify(TokenOf(req).value).id], svc.verify(TokenOf(req).value).iat)
      && users.docs[svc.verify(TokenOf(req).value).id].active != Some(false)
    ensures r.Ok? ==> r.value.id in users.docs && r.value.user == users.docs[r.value.id]
    ensures r.Fail? ==> r.failure.Operational? && r.failure.code == 401
  {
    var token: Option<string> := None;
    if req.authorization.Some? && Text.StartsWith(req.authorization.value, "Bearer") {
      var words := Text.Split(req.authorization.value, ' ');
      if |words| > 1 && words[1] != "" {
        token := Some(words[1]);
      }
    } else if req.jwtCookie.Some? && req.jwtCookie.value != "" {
      token := req.jwtCookie;
    }
    if token.None? {
      return AppFail(401, NotLoggedIn);
    }
    var decoded := svc.verify(token.value);
    if decoded.Malformed? {
      return AppFail(401, InvalidToken);
    }
    if decoded.Expired? {
      return AppFail(401, ExpiredToken);
    }
    if decoded.id !in users.docs {
      return AppFail(401, UserNoLongerExists);
    }
    var current := users.docs[decoded.id];
    if svc.changedAfter(current, decoded.iat) {
      return AppFail(401, PasswordChangedSinceIssue);
    }
    if current.active == Some(false) {
      return AppFail(401, AccountDeactivatedToken);
    }
    r := Ok(Principal(decoded.id, current));
  }

  /** `restrictTo(...roles)` and `checkRole(roles)`: the user's role must be
      listed; otherwise 403, with nothing else affected. */
  function RequireRole(roles: seq<string>, role: string): (r: Outcome<()>)
    ensures r.Ok? <==> role in roles
    ensures r.Fail? ==> r == AppFail(403, NoPermission)
  {
    if role in roles then Ok(()) else AppFail(403, NoPermission)
  }

  /** Listing more roles never shuts anyone out. */
  lemma RequireRoleWidens(roles: seq<string>, more: seq<string>, role: string)
    requires forall x :: x in roles ==> x in more
    ensures RequireRole(roles, role).Ok? ==> RequireRole(more, role).Ok?
  {
  }
}
