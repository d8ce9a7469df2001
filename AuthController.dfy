/** The account handlers (src/controllers/authController.js) over the user
    collection. Missing body fields are empty strings, as JavaScript's falsy
    checks see them; hashing, token signing and password comparison are the
    foreign services. */
module AuthController {
  import opened Outcomes
  import Store
  import Foreign
  import Query
  import Errors

  /** The role every self-registered account receives. */
  const PATIENT_ROLE: string := "patient"

  /** The user schema's default for `active`, which a registration does not
      set; the schema is not part of this model and the default is taken to
      be true. */
  const DEFAULT_ACTIVE: Option<bool> := Some(true)

  /** How long a password-reset token stays valid: ten minutes, in milliseconds. */
  const RESET_WINDOW: int := 10 * 60 * 1000

  /** The public view of a user: `formatUserResponse`. */
  datatype Profile = Profile(id: nat, name: string, email: string, role: string)

  /** A successful sign-in: the profile and a fresh token. */
  datatype Session = Session(profile: Profile, token: string)

  function FormatUserResponse(id: nat, u: Store.User): (p: Profile)
    ensures p.id == id && p.name == u.name && p.email == u.email && p.role == u.role
  {
    Profile(id, u.name, u.email, u.role)
  }

  /** The profile carries no secret: the password, the active flag and the
      reset fields never show in it. */
  lemma ProfileHidesSecrets(id: nat, u: Store.User, password: string, active: Option<bool>,
                            resetToken: Option<string>, resetExpire: Option<int>)
    ensures FormatUserResponse(id, u) ==
      FormatUserResponse(id, u.(password := password, active := active, resetToken := resetToken,
                                resetExpire := resetExpire))
    ensures FormatUserResponse(id, u).id == id && FormatUserResponse(id, u).role == u.role
  {
  }

  /** The filter `{ email }`. */
  function HasEmail(email: string): Store.User -> bool
  {
    (u: Store.User) => u.email == email
  }

  /** The filter `{ resetPasswordToken: hashed, resetPasswordExpire: { $gt: now } }`. */
  function ResetMatches(hashed: string, now: int): Store.User -> bool
  {
    (u: Store.User) => u.resetToken == Some(hashed) && u.resetExpire.Some? && u.resetExpire.value > now
  }

  /** A reset issued at `issued` is accepted exactly before `issued + RESET_WINDOW`,
      and not at all once its fields are cleared. */
  lemma ResetWindow(u: Store.User, hashed: string, issued: int, now: int)
    ensures ResetMatches(hashed, now)(u.(resetToken := Some(hashed), resetExpire := Some(issued + RESET_WINDOW)))
            <==> now < issued + RESET_WINDOW
    ensures !ResetMatches(hashed, now)(u.(resetToken := None, resetExpire := None))
  {
  }

  /** `login`: the fields, the account, the active flag and then the password,
      in that order; an unknown email and a wrong password read the same. */
  method Login(users: Store.Users, svc: Foreign.Services, email: string, password: string)
    returns (r: Outcome<Session>)
    requires users.Valid()
    ensures email == "" || password == "" ==> r == AppFail(400, MissingLoginFields)
    ensures email != "" && password != "" ==>
      match users.FindOne(HasEmail(email))
      case None => r == AppFail(401, InvalidCredentials)
      case Some(id) =>
        var u := users.docs[id];
        if u.active != Some(true) then r == AppFail(401, AccountDeactivatedLogin)
        else if !svc.matches(password, u.password) then r == AppFail(401, InvalidCredentials)
        else r == Ok(Session(FormatUserResponse(id, u), svc.sign(id)))
    ensures r.Ok? ==> (exists id :: (id in users.docs && users.docs[id].email == email
                                     && users.docs[id].active == Some(true)
                                     && svc.matches(password, users.docs[id].password)
                                     && r.value == Session(FormatUserResponse(id, users.docs[id]), svc.sign(id))))
  {
    if email == "" || password == "" {
      return AppFail(400, MissingLoginFields);
    }
    var found := users.FindOne(HasEmail(email));
    if found.None? {
      return AppFail(401, InvalidCredentials);
    }
    var id := found.value;
    var u := users.docs[id];
    if u.active != Some(true) {
      return AppFail(401, AccountDeactivatedLogin);
    }
    if !svc.matches(password, u.password) {
      return AppFail(401, InvalidCredentials);
    }
    r := Ok(Session(FormatUserResponse(id, u), svc.sign(id)));
  }

  /** `register`: all three fields, an unused email, then a new patient. */
  method Register(users: Store.Users, svc: Foreign.Services, name: string, email: string, password: string)
    returns (r: Outcome<Session>)
    requires users.Valid()
    modifies users
    ensures users.Valid()
    ensures name == "" || email == "" || password == "" ==> r == AppFail(400, MissingRegisterFields)
    ensures name != "" && email != "" && password != "" && Store.EmailTaken(old(users.docs), email)
            ==> r == AppFail(400, EmailAlreadyRegistered)
    ensures r.Ok? <==> name != "" && email != "" && password != "" && !Store.EmailTaken(old(users.docs), email)
    ensures r.Ok? ==>
      (&& r.value.profile.id !in old(users.docs)
       && users.docs == old(users.docs)[r.value.profile.id := Store.User(name, email, password, PATIENT_ROLE,
                                                                       DEFAULT_ACTIVE, None, None)]
       && r.value == Session(Profile(r.value.profile.id, name, email, PATIENT_ROLE), svc.sign(r.value.profile.id)))
    ensures r.Fail? ==> users.docs == old(users.docs)
    ensures Store.EmailsUnique(old(users.docs)) ==> Store.EmailsUnique(users.docs)
  {
    if name == "" || email == "" || password == "" {
      return AppFail(400, MissingRegisterFields);
    }
    var existing := users.FindOne(HasEmail(email));
    if existing.Some? {
      return AppFail(400, EmailAlreadyRegistered);
    }
    var u := Store.User(name, email, password, PATIENT_ROLE, DEFAULT_ACTIVE, None, None);
    var id := users.Insert(u);
    r := Ok(Session(FormatUserResponse(id, u), svc.sign(id)));
  }

  /** `forgotPassword`: the account with the email gets the SHA-256 of a fresh
      random token and an expiry ten minutes from now; the token is answered. */
  method ForgotPassword(users: Store.Users, svc: Foreign.Services, email: string, resetToken: string, now: int)
    returns (r: Outcome<string>)
    requires users.Valid()
    modifies users
    ensures users.Valid()
    ensures email == "" ==> r == AppFail(400, MissingEmail)
    ensures email != "" ==>
      match old(users.FindOne(HasEmail(email)))
      case None => r == AppFail(404, NoUserWithEmail)
      case Some(id) =>
        r == Ok(resetToken)
        && users.docs == old(users.docs)[id := old(users.docs)[id].(resetToken := Some(svc.sha256(resetToken)),
                                                                   resetExpire := Some(now + RESET_WINDOW))]
    ensures r.Fail? ==> users.docs == old(users.docs)
    ensures users.docs.Keys == old(users.docs.Keys)
  {
    if email == "" {
      return AppFail(400, MissingEmail);
    }
    var found := users.FindOne(HasEmail(email));
    if found.None? {
      return AppFail(404, NoUserWithEmail);
    }
    var id := found.value;
    var u := users.docs[id];
    u := u.(resetToken := Some(svc.sha256(resetToken)));
    u := u.(resetExpire := Some(now + RESET_WINDOW));
    users.Save(id, u);
    r := Ok(resetToken);
  }

  /** How a request to an async handler ends: an answer reaches the client, or
      the handler's promise rejects, which Express 4 leaves unhandled and
      index.js answers by closing the server and exiting. */
  datatype Ending = Answered(response: Errors.Response) | ShutDown

  const RESET_SENT: string := "Password reset token sent to email"

  /** What the client is sent for an outcome: the success body, or the error
      handler's answer to the failure passed on with `next`. */
  function Answer(o: Outcome<string>, success: string, development: bool): Errors.Response
  {
    if o.Ok? then Errors.Response(200, true, success, false)
    else Errors.ErrorHandler(Errors.ErrorOf(o.failure), development).1
  }

  /** The end of `forgotPassword` as written: its catch block reads `user`,
      which is declared inside the try block, so every failure raises a
      ReferenceError before `next(error)` is reached. */
  function ForgotPasswordEndingAsWritten(o: Outcome<string>, development: bool): (e: Ending)
    ensures e.Answered? <==> o.Ok?
    ensures e.Answered? ==> e.response == Errors.Response(200, true, RESET_SENT, false)
  {
    if o.Ok? then Answered(Answer(o, RESET_SENT, development)) else ShutDown
  }

  /** The evidently intended end: every failure is passed on to the error
      handler, so every request is answered, a refusal with its own code and
      message. */
  function ForgotPasswordEnding(o: Outcome<string>, development: bool): (e: Ending)
    ensures e.Answered?
    ensures o.Ok? ==> e.response == Errors.Response(200, true, RESET_SENT, false)
    ensures o.Fail? && o.failure.Operational? && o.failure.code != 0 ==>
      e.response == Errors.Response(o.failure.code, false, Message(o.failure.reason), development)
  {
    Answered(Answer(o, RESET_SENT, development))
  }

  /** A request without an email or with an unknown one: as written the
      server shuts down, while the intended handler answers 400 or 404. */
  method ForgotPasswordRequestEndings(users: Store.Users, svc: Foreign.Services, email: string,
                                      resetToken: string, now: int, development: bool)
    returns (asWritten: Ending, corrected: Ending)
    requires users.Valid()
    modifies users
    ensures email == "" ==>
      && asWritten == ShutDown
      && corrected == Answered(Errors.Response(400, false, Message(MissingEmail), development))
    ensures email != "" && old(users.FindOne(HasEmail(email))).None? ==>
      && asWritten == ShutDown
      && corrected == Answered(Errors.Response(404, false, Message(NoUserWithEmail), development))
    ensures asWritten.ShutDown? ==> users.docs == old(users.docs)
  {
    var r := ForgotPassword(users, svc, email, resetToken, now);
    asWritten := ForgotPasswordEndingAsWritten(r, development);
    corrected := ForgotPasswordEnding(r, development);
  }

  /** `resetPassword`: the first account holding the token's hash with an
      expiry after now gets the hashed new password and loses both reset
      fields, so that account cannot be reset with the token again. */
  method ResetPassword(users: Store.Users, svc: Foreign.Services, token: string, password: string, now: int)
    returns (r: Outcome<Session>)
    requires users.Valid()
    modifies users
    ensures users.Valid()
    ensures token == "" || password == "" ==> r == AppFail(400, MissingResetFields)
    ensures token != "" && password != "" ==>
      match old(users.FindOne(ResetMatches(svc.sha256(token), now)))
      case None => r == AppFail(400, InvalidResetToken)
      case Some(id) =>
        var u := old(users.docs)[id].(password := svc.hash(password), resetToken := None, resetExpire := None);
        users.docs == old(users.docs)[id := u]
        && r == Ok(Session(FormatUserResponse(id, u), svc.sign(id)))
    ensures r.Ok? ==>
      (r.value.profile.id in users.docs && !ResetMatches(svc.sha256(token), now)(users.docs[r.value.profile.id]))
    ensures r.Fail? ==> users.docs == old(users.docs)
    ensures users.docs.Keys == old(users.docs.Keys)
  {
    if token == "" || password == "" {
      return AppFail(400, MissingResetFields);
    }
    var hashed := svc.sha256(token);
    var found := users.FindOne(ResetMatches(hashed, now));
    if found.None? {
      return AppFail(400, InvalidResetToken);
    }
    var id := found.value;
    var u := users.docs[id];
    u := u.(password := svc.hash(password));
    u := u.(resetToken := None, resetExpire := None);
    users.Save(id, u);
    r := Ok(Session(FormatUserResponse(id, u), svc.sign(id)));
  }

  /** Issuing a reset hash nobody held makes its holder the only account it
      matches while the expiry lies ahead. */
  lemma IssuedHashMatchesHolderOnly(docs: map<nat, Store.User>, holder: nat, hashed: string, expire: int, now: int)
    requires holder in docs && now < expire
    requires forall j :: j in docs ==> docs[j].resetToken != Some(hashed)
    ensures var after := docs[holder := docs[holder].(resetToken := Some(hashed), resetExpire := Some(expire))];
      && ResetMatches(hashed, now)(after[holder])
      && forall j :: j in after && j != holder ==> !ResetMatches(hashed, now)(after[j])
  {
  }

  /** Once the only matching account is cleared, nothing matches. */
  lemma ClearedHolderLeavesNoMatch(docs: map<nat, Store.User>, holder: nat, after: map<nat, Store.User>,
                                    hashed: string, now: int)
    requires forall j :: j in docs && j != holder ==> !ResetMatches(hashed, now)(docs[j])
    requires holder in after && after == docs[holder := after[holder]]
    requires !ResetMatches(hashed, now)(after[holder])
    ensures forall j :: j in after ==> !ResetMatches(hashed, now)(after[j])
  {
  }

  /** A reset token issued by `forgotPassword` and used within ten minutes
      succeeds; used again, it fails, when no account held its hash before. */
  method ForgotThenResetTwice(users: Store.Users, svc: Foreign.Services, email: string, resetToken: string,
                              issued: int, password: string, now: int)
    returns (first: Outcome<Session>, second: Outcome<Session>)
    requires users.Valid()
    requires email != "" && resetToken != "" && password != "" && now < issued + RESET_WINDOW
    requires Store.EmailTaken(users.docs, email)
    requires forall j :: j in users.docs ==> users.docs[j].resetToken != Some(svc.sha256(resetToken))
    modifies users
    ensures first.Ok? && second == AppFail(400, InvalidResetToken)
  {
    var hashed := svc.sha256(resetToken);
    Query.FirstBelowFinds(users.docs, HasEmail(email), users.nextId);
    var holder := users.FindOne(HasEmail(email)).value;
    IssuedHashMatchesHolderOnly(users.docs, holder, hashed, issued + RESET_WINDOW, now);
    var issuedToken := ForgotPassword(users, svc, email, resetToken, issued);
    ghost var issuedDocs := users.docs;
    Query.FirstBelowFinds(users.docs, ResetMatches(hashed, now), users.nextId);
    first := ResetPassword(users, svc, resetToken, password, now);
    ClearedHolderLeavesNoMatch(issuedDocs, holder, users.docs, hashed, now);
    Query.FirstBelowFinds(users.docs, ResetMatches(hashed, now), users.nextId);
    second := ResetPassword(users, svc, resetToken, password, now);
  }

  /** `getMe`: the caller's profile, or 404 when the account is gone. */
  method GetMe(users: Store.Users, id: nat) returns (r: Outcome<Profile>)
    requires users.Valid()
    ensures r.Ok? <==> id in users.docs
    ensures r.Ok? ==> r.value == FormatUserResponse(id, users.docs[id])
    ensures r.Fail? ==> r == AppFail(404, UserNotFound)
  {
    if id !in users.docs {
      return AppFail(404, UserNotFound);
    }
    r := Ok(FormatUserResponse(id, users.docs[id]));
  }

  /** `updateProfile`: a non-empty name and email replace the stored ones; an
      email another account holds is refused, the caller's own is accepted. */
  method UpdateProfile(users: Store.Users, id: nat, name: string, email: string) returns (r: Outcome<Profile>)
    requires users.Valid()
    modifies users
    ensures users.Valid()
    ensures email != "" && (exists j :: j in old(users.docs) && j != id && old(users.docs)[j].email == email)
            ==> r == AppFail(400, EmailInUse)
    ensures (email == "" || !(exists j :: j in old(users.docs) && j != id && old(users.docs)[j].email == email))
            ==> if id !in old(users.docs) then r == AppFail(404, UserNotFound)
                else
                  var u := old(users.docs)[id];
                  var v := u.(name := if name != "" then name else u.name,
                              email := if email != "" then email else u.email);
                  users.docs == old(users.docs)[id := v] && r == Ok(FormatUserResponse(id, v))
    ensures r.Fail? ==> users.docs == old(users.docs)
    ensures Store.EmailsUnique(old(users.docs)) ==> Store.EmailsUnique(users.docs)
  {
    if email != "" {
      var inUse := exists j | j in users.docs :: j != id && users.docs[j].email == email;
      if inUse {
        return AppFail(400, EmailInUse);
      }
    }
    if id !in users.docs {
      return AppFail(404, UserNotFound);
    }
    var v := users.docs[id];
    if name != "" {
      v := v.(name := name);
    }
    if email != "" {
      v := v.(email := email);
    }
    users.Save(id, v);
    r := Ok(FormatUserResponse(id, v));
  }

  /** `changePassword`: both fields, the account, then the current password
      must match; only then is the new one stored. */
  method ChangePassword(users: Store.Users, svc: Foreign.Services, id: nat, current: string, newPassword: string)
    returns (r: Outcome<()>)
    requires users.Valid()
    modifies users
    ensures users.Valid()
    ensures current == "" || newPassword == "" ==> r == AppFail(400, MissingPasswordFields)
    ensures current != "" && newPassword != "" ==>
      if id !in old(users.docs) then r == AppFail(404, UserNotFound)
      else if !svc.matches(current, old(users.docs)[id].password) then r == AppFail(401, CurrentPasswordIncorrect)
      else r == Ok(()) && users.docs == old(users.docs)[id := old(users.docs)[id].(password := newPassword)]
    ensures r.Fail? ==> users.docs == old(users.docs)
  {
    if current == "" || newPassword == "" {
      return AppFail(400, MissingPasswordFields);
    }
    if id !in users.docs {
      return AppFail(404, UserNotFound);
    }
    var u := users.docs[id];
    if !svc.matches(current, u.password) {
      return AppFail(401, CurrentPasswordIncorrect);
    }
    users.Save(id, u.(password := newPassword));
    r := Ok(());
  }
}
