/** Identity, sessions and administrators over whole runs of requests. */
module IdentityTheorems {
  import opened Common
  import opened Identity
  import opened IdentityInvariant
  import Password
  import Pbkdf2

  // ---- Emails and OIDC subjects.

  /** From a database that satisfies its unique indexes, every run keeps one user per email and per OIDC subject. */
  lemma {:induction false} OneUserPerEmailAndSubject(cfg: Config, s: State, requests: seq<Request>)
    requires EmailsUnique(s.users) && SubjectsUnique(s.users)
    ensures EmailsUnique(Run(cfg, s, requests).users) && SubjectsUnique(Run(cfg, s, requests).users)
    decreases |requests|
  {
    if requests != [] {
      StepKeepsUnique(cfg, s, requests[0]);
      OneUserPerEmailAndSubject(cfg, Step(cfg, s, requests[0]).0, requests[1..]);
    }
  }

  /** A callback that takes over the user by email and replaces the subject bound to it. */
  ghost predicate Rebinds(cfg: Config, s: State, request: Request, id: string) {
    cfg.autoMerge && request.Callback? && IsFresh(s, request.draw)
    && var p := Normalised(cfg, request.profile, request.tokenSubject);
       p.subject != "" && p.email != ""
       && BySubject(s.users, p.subject).None?
       && ByEmail(s.users, p.email) == Some(id)
       && !s.users[id].disabled
  }

  lemma OthersKeepSubjects(cfg: Config, s: State, request: Request, id: string)
    requires id in s.users && !request.Callback?
    ensures id in Step(cfg, s, request).0.users
    ensures Step(cfg, s, request).0.users[id].subject == s.users[id].subject
  {
    UserChangesOnlyBy(cfg, s, request, id);
  }

  lemma CallbackRebindsExactlyWhen(cfg: Config, s: State, request: Request, id: string)
    requires id in s.users && request.Callback?
    ensures id in Step(cfg, s, request).0.users
    ensures if Rebinds(cfg, s, request, id)
            then Step(cfg, s, request).0.users[id].subject ==
                 Some(Normalised(cfg, request.profile, request.tokenSubject).subject)
            else Step(cfg, s, request).0.users[id] == s.users[id]
  {
    var p := Normalised(cfg, request.profile, request.tokenSubject);
    if IsFresh(s, request.draw) && p.subject != "" && p.email != "" {
      CallbackStoresUpsert(cfg, s, request);
    }
  }

  lemma CallbackStoresUpsert(cfg: Config, s: State, request: Request)
    requires request.Callback? && IsFresh(s, request.draw)
    requires var p := Normalised(cfg, request.profile, request.tokenSubject); p.subject != "" && p.email != ""
    ensures Step(cfg, s, request).0.users ==
            Upserted(cfg, s.users, Normalised(cfg, request.profile, request.tokenSubject), request.id).0
  {
  }

  /**
    One request unbinds a subject exactly when merging is on and a callback with a subject bound
    to nobody shows the email of the subject's enabled user. The old subject is then nobody's.
   */
  lemma BindingIsLostExactlyWhen(cfg: Config, s: State, request: Request, subject: string, id: string)
    requires EmailsUnique(s.users) && SubjectsUnique(s.users)
    requires BySubject(s.users, subject) == Some(id)
    ensures BySubject(Step(cfg, s, request).0.users, subject) ==
            if Rebinds(cfg, s, request, id) then None else Some(id)
  {
    var after := Step(cfg, s, request).0;
    StepKeepsUnique(cfg, s, request);
    if request.Callback? {
      CallbackRebindsExactlyWhen(cfg, s, request, id);
    } else {
      OthersKeepSubjects(cfg, s, request, id);
    }
    if Rebinds(cfg, s, request, id) {
      var found := BySubject(after.users, subject);
      if found.Some? && found.value in s.users {
        CallbackRebindsExactlyWhen(cfg, s, request, found.value);
      } else if found.Some? {
        NewUserHasProfileSubject(cfg, s, request, found.value);
      }
    } else {
      SubjectFinds(after.users, id, subject);
    }
  }

  lemma NewUserHasProfileSubject(cfg: Config, s: State, request: Request, id: string)
    requires request.Callback? && id !in s.users && id in Step(cfg, s, request).0.users
    ensures Step(cfg, s, request).0.users[id].subject ==
            Some(Normalised(cfg, request.profile, request.tokenSubject).subject)
  {
    CallbackUsers(cfg, s, request);
  }

  /** With merging off, a bound subject resolves to the same user in every later state. */
  lemma {:induction false} BindingIsPermanent(cfg: Config, s: State, requests: seq<Request>, subject: string,
                                              id: string)
    requires EmailsUnique(s.users) && SubjectsUnique(s.users)
    requires !cfg.autoMerge && BySubject(s.users, subject) == Some(id)
    ensures BySubject(Run(cfg, s, requests).users, subject) == Some(id)
    decreases |requests|
  {
    if requests != [] {
      BindingIsLostExactlyWhen(cfg, s, requests[0], subject, id);
      StepKeepsUnique(cfg, s, requests[0]);
      BindingIsPermanent(cfg, Step(cfg, s, requests[0]).0, requests[1..], subject, id);
    }
  }

  lemma UpsertBinds(cfg: Config, users: Users, p: Profile, newId: string)
    requires EmailsUnique(users) && SubjectsUnique(users)
    requires Upserted(cfg, users, p, newId).1.SignedIn?
    ensures var (after, reply) := Upserted(cfg, users, p, newId);
            BySubject(after, p.subject) == Some(reply.user)
  {
    var (after, reply) := Upserted(cfg, users, p, newId);
    UpsertKeepsUnique(cfg, users, p, newId);
    SubjectFinds(after, reply.user, p.subject);
  }

  /**
    Merging off: once a callback found or inserted a user, even if its session was then not
    stored, a later one with the same subject creates no user and signs in no other, whatever
    happened between and whatever email it shows.
   */
  lemma RepeatedCallbackSameUser(cfg: Config, s: State, first: Request, between: seq<Request>, second: Request)
    requires EmailsUnique(s.users) && SubjectsUnique(s.users) && !cfg.autoMerge
    requires first.Callback? && second.Callback? && IsFresh(s, first.draw)
    requires var p := Normalised(cfg, first.profile, first.tokenSubject);
             p.subject != "" && p.email != "" && Upserted(cfg, s.users, p, first.id).1.SignedIn?
             && Normalised(cfg, second.profile, second.tokenSubject).subject == p.subject
    ensures var p := Normalised(cfg, first.profile, first.tokenSubject);
            var id := Upserted(cfg, s.users, p, first.id).1.user;
            var later := Run(cfg, Step(cfg, s, first).0, between);
            BySubject(later.users, p.subject) == Some(id)
            && Step(cfg, later, second).0.users == later.users
            && (Step(cfg, later, second).1.SignedIn? ==> Step(cfg, later, second).1.user == id)
  {
    var p, after := Normalised(cfg, first.profile, first.tokenSubject), Step(cfg, s, first).0;
    var id := Upserted(cfg, s.users, p, first.id).1.user;
    CallbackStoresUpsert(cfg, s, first);
    UpsertBinds(cfg, s.users, p, first.id);
    StepKeepsUnique(cfg, s, first);
    BindingIsPermanent(cfg, after, between, p.subject, id);
  }

  /** Merging on, two subjects that show one email: the second callback unbinds the first. */
  lemma MergingUnbinds(cfg: Config, first: Profile, second: Profile, u: User)
    requires cfg.autoMerge && !u.disabled && u.subject == Some(first.subject) && u.email == second.email
    requires first.subject != second.subject
    ensures var users := map["u" := u];
            BySubject(users, first.subject) == Some("u")
            && Upserted(cfg, users, second, "v") == (users["u" := u.(subject := Some(second.subject))], SignedIn("u"))
            && BySubject(Upserted(cfg, users, second, "v").0, first.subject).None?
  {
    var users := map["u" := u];
    assert "u" in users && users["u"].email == second.email;
    assert BySubject(users, first.subject) == Some("u");
    assert BySubject(users, second.subject).None?;
    assert ByEmail(users, second.email) == Some("u");
  }

  // ---- Tokens.

  ghost predicate Live(cfg: Config, s: State, token: string) {
    exists k :: k in s.sessions && s.sessions[k].hash == cfg.hash(token) && s.now < s.sessions[k].expires
  }

  /** The caller is the enabled user of the unexpired session that has the token's hash. */
  lemma AuthenticatedExactlyWhen(cfg: Config, s: State, token: string, user: string)
    requires HashesUnique(s.sessions)
    ensures Authenticated(cfg, s, token) == Some(user) <==>
            token != "" && user in s.users && !s.users[user].disabled
            && exists k :: k in s.sessions && s.sessions[k].hash == cfg.hash(token) && s.sessions[k].user == user
                           && s.now < s.sessions[k].expires
  {
    forall k | k in s.sessions && s.sessions[k].hash == cfg.hash(token)
      ensures ByHash(s.sessions, cfg.hash(token)) == Some(k)
    {
      HashFinds(s.sessions, k);
    }
  }

  lemma StepKeepsDead(cfg: Config, s: State, request: Request, token: string)
    requires Injective(cfg.hash) && token in s.issued && !Live(cfg, s, token)
    ensures token in Step(cfg, s, request).0.issued && !Live(cfg, Step(cfg, s, request).0, token)
  {
    var after := Step(cfg, s, request).0;
    StepEvolvesSessions(cfg, s, request);
    forall k | k in after.sessions && after.sessions[k].hash == cfg.hash(token)
      ensures after.sessions[k].expires <= after.now
    {
      assert IsKept(s, after, k) || IsOpened(cfg, s, after, k);
    }
  }

  lemma {:induction false} DeadStaysDead(cfg: Config, s: State, requests: seq<Request>, token: string)
    requires Injective(cfg.hash) && token in s.issued && !Live(cfg, s, token)
    ensures !Live(cfg, Run(cfg, s, requests), token)
    decreases |requests|
  {
    if requests != [] {
      StepKeepsDead(cfg, s, requests[0], token);
      DeadStaysDead(cfg, Step(cfg, s, requests[0]).0, requests[1..], token);
    }
  }

  /** The request logs the token out, revokes its session, or comes after that session expired. */
  ghost predicate Ends(cfg: Config, s: State, request: Request, token: string, k: string)
    requires k in s.sessions
  {
    request == Logout(token)
    || (request.Revoke? && request.sessionId == k && Step(cfg, s, request).1 == Done)
    || s.sessions[k].expires <= s.now
  }

  /** A token that was logged out, revoked or has expired never authenticates again. */
  lemma EndedTokenNeverAuthenticates(cfg: Config, s: State, request: Request, later: seq<Request>, token: string,
                                     k: string)
    requires SessionsOk(cfg, s) && Injective(cfg.hash) && token in s.issued && token != ""
    requires k in s.sessions && s.sessions[k].hash == cfg.hash(token) && Ends(cfg, s, request, token, k)
    ensures Authenticated(cfg, Run(cfg, Step(cfg, s, request).0, later), token).None?
  {
    var after := Step(cfg, s, request).0;
    StepEvolvesSessions(cfg, s, request);
    forall i | i in after.sessions && after.sessions[i].hash == cfg.hash(token)
      ensures after.sessions[i].expires <= after.now
    {
      assert IsKept(s, after, i) || IsOpened(cfg, s, after, i);
    }
    assert !Live(cfg, after, token);
    DeadStaysDead(cfg, after, later, token);
  }

  /**
    The state-dependent requests that end a live session: its own logout, or a revocation by the same user from
    another session.
   */
  ghost predicate EndsSession(cfg: Config, s: State, request: Request, token: string, k: string)
    requires k in s.sessions
  {
    match request
    case Logout(t) => t == token
    case Revoke(t, sessionId) =>
      sessionId == k && k != "" && t != token && s.sessions[k].user != ""
      && Authenticated(cfg, s, t) == Some(s.sessions[k].user)
    case _ => false
  }

  lemma PresentedKeepsLive(cfg: Config, s: State, t: string, k: string)
    requires HashesUnique(s.sessions) && k in s.sessions && s.now < s.sessions[k].expires
    ensures k in Presented(cfg, s, t).sessions && Presented(cfg, s, t).sessions[k] == s.sessions[k]
  {
    if s.sessions[k].hash == cfg.hash(t) {
      HashFinds(s.sessions, k);
    }
  }

  lemma OpenSessionKeeps(cfg: Config, s: State, user: string, draw: Draw, k: string)
    requires k in s.sessions
    ensures k in OpenSession(cfg, s, user, draw).0.sessions
    ensures OpenSession(cfg, s, user, draw).0.sessions[k] == s.sessions[k]
  {
  }

  lemma LogoutEndsExactly(cfg: Config, s: State, t: string, token: string, k: string)
    requires Injective(cfg.hash) && token != "" && k in s.sessions && s.sessions[k].hash == cfg.hash(token)
    ensures k in DoLogout(cfg, s, t).0.sessions <==> t != token
  {
  }

  lemma RevokeEndsExactly(cfg: Config, s: State, t: string, sessionId: string, token: string, k: string)
    requires SessionsOk(cfg, s) && Injective(cfg.hash) && token != ""
    requires k in s.sessions && s.sessions[k].hash == cfg.hash(token) && s.now < s.sessions[k].expires
    ensures k in DoRevoke(cfg, s, t, sessionId).0.sessions <==> !EndsSession(cfg, s, Revoke(t, sessionId), token, k)
  {
    PresentedKeepsLive(cfg, s, t, k);
    if t == token {
      HashFinds(s.sessions, k);
    }
  }

  /**
    A live session is ended by one request exactly when that is its own logout or a revocation of it
    by the same user through another token; in particular nobody revokes the session they are using.
   */
  lemma SessionEndsExactlyWhen(cfg: Config, s: State, request: Request, token: string, k: string)
    requires SessionsOk(cfg, s) && Injective(cfg.hash) && token != ""
    requires k in s.sessions && s.sessions[k].hash == cfg.hash(token) && s.now < s.sessions[k].expires
    ensures k in Step(cfg, s, request).0.sessions <==> !EndsSession(cfg, s, request, token, k)
    ensures k in Step(cfg, s, request).0.sessions ==> Step(cfg, s, request).0.sessions[k] == s.sessions[k]
  {
    var after := Step(cfg, s, request).0;
    StepEvolvesSessions(cfg, s, request);
    assert k in after.sessions ==> IsKept(s, after, k) || IsOpened(cfg, s, after, k);
    if request.Logout? {
      LogoutEndsExactly(cfg, s, request.token, token, k);
    } else if request.Revoke? {
      RevokeEndsExactly(cfg, s, request.token, request.sessionId, token, k);
    } else if request.Login? || request.Callback? {
      SignInEndsNothing(cfg, s, request, k);
    } else {
      OthersEndNothing(cfg, s, request, k);
    }
  }

  lemma SignInEndsNothing(cfg: Config, s: State, request: Request, k: string)
    requires k in s.sessions && (request.Login? || request.Callback?)
    ensures k in Step(cfg, s, request).0.sessions
  {
    match request
    case Login(email, password, draw) =>
      if ByEmail(s.users, cfg.normal(email)).Some? {
        OpenSessionKeeps(cfg, s, ByEmail(s.users, cfg.normal(email)).value, draw, k);
      }
    case Callback(profile, tokenSubject, id, draw) =>
      var (users, reply) := Upserted(cfg, s.users, Normalised(cfg, profile, tokenSubject), id);
      if reply.SignedIn? {
        OpenSessionKeeps(cfg, s.(users := users), reply.user, draw, k);
      }
  }

  lemma OthersEndNothing(cfg: Config, s: State, request: Request, k: string)
    requires HashesUnique(s.sessions) && k in s.sessions && s.now < s.sessions[k].expires
    requires !request.Logout? && !request.Revoke? && !request.Login? && !request.Callback?
    ensures k in Step(cfg, s, request).0.sessions
  {
    if !request.Register? && !request.Tick? {
      PresentedKeepsLive(cfg, s, request.token, k);
    }
  }

  /** Requests that may end a session of `user` or stop it from authenticating. */
  predicate Disturbs(request: Request, token: string, k: string, user: string) {
    match request
    case Logout(t) => t == token
    case Revoke(t, sessionId) => sessionId == k && t != token
    case AdminUpdate(_, target, change) => target == user && change.disabled == Some(true)
    case _ => false
  }

  lemma {:induction false} ClockOnlyAdvances(cfg: Config, s: State, requests: seq<Request>)
    ensures s.now <= Run(cfg, s, requests).now
    decreases |requests|
  {
    if requests != [] {
      StepEvolvesSessions(cfg, s, requests[0]);
      ClockOnlyAdvances(cfg, Step(cfg, s, requests[0]).0, requests[1..]);
    }
  }

  lemma StaysEnabled(cfg: Config, s: State, request: Request, id: string)
    requires id in s.users && !s.users[id].disabled
    requires !(request.AdminUpdate? && request.target == id && request.change.disabled == Some(true))
    ensures id in Step(cfg, s, request).0.users && !Step(cfg, s, request).0.users[id].disabled
  {
    UserChangesOnlyBy(cfg, s, request, id);
    if request.AdminUpdate? {
      AdminUpdateStep(cfg, s, request);
    }
  }

  /** Until it expires, a session keeps authenticating its user over every run that has none of those requests. */
  lemma {:induction false} SessionLives(cfg: Config, s: State, requests: seq<Request>, token: string, k: string)
    requires Inv(cfg, s) && Injective(cfg.hash) && token != ""
    requires k in s.sessions && s.sessions[k].hash == cfg.hash(token)
    requires !s.users[s.sessions[k].user].disabled
    requires forall i :: 0 <= i < |requests| ==> !Disturbs(requests[i], token, k, s.sessions[k].user)
    requires Run(cfg, s, requests).now < s.sessions[k].expires
    ensures Authenticated(cfg, Run(cfg, s, requests), token) == Some(s.sessions[k].user)
    decreases |requests|
  {
    ClockOnlyAdvances(cfg, s, requests);
    if requests == [] {
      HashFinds(s.sessions, k);
    } else {
      assert !Disturbs(requests[0], token, k, s.sessions[k].user);
      SessionEndsExactlyWhen(cfg, s, requests[0], token, k);
      StaysEnabled(cfg, s, requests[0], s.sessions[k].user);
      StepKeeps(cfg, s, requests[0]);
      SessionLives(cfg, Step(cfg, s, requests[0]).0, requests[1..], token, k);
    }
  }

  // ---- Administrators.

  function EnabledAdmins(users: Users): set<string> {
    set k | k in users && users[k].isAdmin && !users[k].disabled
  }

  lemma AdminStays(cfg: Config, s: State, request: Request, id: string)
    requires id in EnabledAdmins(s.users) && !request.AdminUpdate?
    ensures id in EnabledAdmins(Step(cfg, s, request).0.users)
  {
    UserChangesOnlyBy(cfg, s, request, id);
  }

  /** Once there is an enabled administrator, there is one after every run. */
  lemma {:induction false} AdministratorsNeverVanish(cfg: Config, s: State, requests: seq<Request>)
    requires EnabledAdmins(s.users) != {}
    ensures EnabledAdmins(Run(cfg, s, requests).users) != {}
    decreases |requests|
  {
    if requests != [] {
      SomeAdminStays(cfg, s, requests[0]);
      AdministratorsNeverVanish(cfg, Step(cfg, s, requests[0]).0, requests[1..]);
    }
  }

  lemma SomeAdminStays(cfg: Config, s: State, request: Request)
    requires EnabledAdmins(s.users) != {}
    ensures EnabledAdmins(Step(cfg, s, request).0.users) != {}
  {
    var after := Step(cfg, s, request).0;
    var id :| id in EnabledAdmins(s.users);
    if !request.AdminUpdate? {
      AdminStays(cfg, s, request, id);
    } else {
      AdminUpdateStep(cfg, s, request);
      if after.users != s.users {
        var actor := Authenticated(cfg, s, request.token).value;
        assert actor in EnabledAdmins(after.users);
      }
    }
  }

  ghost predicate AnotherAdmin(users: Users, target: string) {
    exists k :: k in EnabledAdmins(users) && k != target
  }

  /**
    The service call alone, with the caller as the middleware read it some time earlier, leaves an
    enabled administrator exactly when there is one besides the target or the target ends as one.
   */
  lemma AdminsSurviveExactlyWhen(cfg: Config, users: Users, actor: string, actorIsAdmin: bool, target: string,
                                 change: Change)
    requires AdminUpdated(cfg, users, actor, actorIsAdmin, target, change).1 == Done
    ensures EnabledAdmins(AdminUpdated(cfg, users, actor, actorIsAdmin, target, change).0) != {} <==>
            AnotherAdmin(users, target) ||
            ((change.isAdmin == Some(true) || (change.isAdmin.None? && users[target].isAdmin))
             && (change.disabled == Some(false) || (change.disabled.None? && !users[target].disabled)))
  {
    var after := AdminUpdated(cfg, users, actor, actorIsAdmin, target, change).0;
    if AnotherAdmin(users, target) {
      var k :| k in EnabledAdmins(users) && k != target;
      assert k in EnabledAdmins(after);
    }
    if EnabledAdmins(after) != {} {
      var k :| k in EnabledAdmins(after);
      if k != target {
        assert k in EnabledAdmins(users);
      }
    }
    if after[target].isAdmin && !after[target].disabled {
      assert target in EnabledAdmins(after);
    }
  }

  /** Authentication must be part of the step: two administrators who authenticated first can demote each other. */
  lemma StaleActorsDemoteEachOther(cfg: Config, a: User, b: User)
    requires a.isAdmin && b.isAdmin && !a.disabled && !b.disabled
    ensures var users, demote := map["a" := a, "b" := b], Change(None, None, Some(false), None);
            var middle := AdminUpdated(cfg, users, "a", true, "b", demote).0;
            EnabledAdmins(AdminUpdated(cfg, middle, "b", true, "a", demote).0) == {}
  {
    var users, demote := map["a" := a, "b" := b], Change(None, None, Some(false), None);
    var middle := AdminUpdated(cfg, users, "a", true, "b", demote).0;
    assert middle == map["a" := a, "b" := Changed(b, Cleaned(cfg, demote))];
    var after := AdminUpdated(cfg, middle, "b", true, "a", demote).0;
    assert after == middle["a" := Changed(a, Cleaned(cfg, demote))];
  }

  // ---- Passwords.

  /** Both passwords, with the pepper, derive one key from the salt. */
  ghost predicate SameKey(cfg: Config, prf: Pbkdf2.Prf, a: Bytes, b: Bytes, salt: Bytes) {
    Pbkdf2.DerivedKey(prf, a + cfg.pepper, salt, Password.ITERATIONS, Password.KEY_BYTES) ==
    Pbkdf2.DerivedKey(prf, b + cfg.pepper, salt, Password.ITERATIONS, Password.KEY_BYTES)
  }

  lemma CheckedExactlyWhen(cfg: Config, prf: Pbkdf2.Prf, password: Bytes, stored: Bytes, salt: Bytes)
    requires cfg.UsesRecords(prf)
    ensures Checked(cfg, password, PasswordHash(cfg, stored, salt)) ==
            if SameKey(cfg, prf, password, stored, salt) then Password.Accepted else Password.Rejected
  {
    var secret := stored + cfg.pepper;
    assert PasswordHash(cfg, stored, salt) == Password.Record(prf, secret, salt);
    Password.RecordRoundTrip(prf, secret, salt, password + cfg.pepper);
  }

  lemma PrintedNeverPanics(cfg: Config, prf: Pbkdf2.Prf, password: Bytes, hash: string)
    requires cfg.UsesRecords(prf) && IsPrinted(cfg, hash)
    ensures Checked(cfg, password, hash) != Password.Panicked
  {
    var stored, salt :| hash == PasswordHash(cfg, stored, salt);
    CheckedExactlyWhen(cfg, prf, password, stored, salt);
  }

  lemma LoginNeverPanics(cfg: Config, prf: Pbkdf2.Prf, s: State, email: string, password: Bytes, draw: Draw)
    requires cfg.UsesRecords(prf) && HashesPrinted(cfg, s.users)
    ensures DoLogin(cfg, s, email, password, draw).1 != Reply.Panicked
  {
    var id := ByEmail(s.users, cfg.normal(email));
    if id.Some? && s.users[id.value].passwordHash.Some? {
      PrintedNeverPanics(cfg, prf, password, s.users[id.value].passwordHash.value);
    }
  }

  lemma ChangePasswordNeverPanics(cfg: Config, prf: Pbkdf2.Prf, s: State, token: string, current: Bytes, next: Bytes,
                                  record: string)
    requires cfg.UsesRecords(prf) && HashesPrinted(cfg, s.users)
    ensures DoChangePassword(cfg, s, token, current, next, record).1 != Reply.Panicked
  {
    var id := Authenticated(cfg, s, token);
    if id.Some? && s.users[id.value].passwordHash.Some? {
      PrintedNeverPanics(cfg, prf, current, s.users[id.value].passwordHash.value);
    }
  }

  lemma OthersNeverPanic(cfg: Config, s: State, request: Request)
    requires !request.Login? && !request.ChangePassword?
    ensures Step(cfg, s, request).1 != Reply.Panicked
  {
  }

  /** Checking a password never reaches the key derivation's panic, in any state of any run. */
  lemma NothingPanics(cfg: Config, prf: Pbkdf2.Prf, s: State, requests: seq<Request>, request: Request)
    requires cfg.UsesRecords(prf) && Inv(cfg, s)
    ensures Step(cfg, Run(cfg, s, requests), request).1 != Reply.Panicked
  {
    RunKeeps(cfg, s, requests);
    NoPanicNow(cfg, prf, Run(cfg, s, requests), request);
  }

  lemma NoPanicNow(cfg: Config, prf: Pbkdf2.Prf, s: State, request: Request)
    requires cfg.UsesRecords(prf) && HashesPrinted(cfg, s.users)
    ensures Step(cfg, s, request).1 != Reply.Panicked
  {
    if request.Login? {
      LoginNeverPanics(cfg, prf, s, request.email, request.password, request.draw);
    } else if request.ChangePassword? {
      ChangePasswordNeverPanics(cfg, prf, s, request.token, request.current, request.next,
                                PasswordHash(cfg, request.next, request.salt));
    } else {
      OthersNeverPanic(cfg, s, request);
    }
  }

  lemma FreshSessionOpens(cfg: Config, s: State, user: string, draw: Draw)
    requires SessionsOk(cfg, s) && Injective(cfg.hash) && cfg.ttl > 0
    requires IsFresh(s, draw) && draw.stored && draw.sessionId !in s.sessions
    requires user in s.users && !s.users[user].disabled
    ensures OpenSession(cfg, s, user, draw).1 == SignedIn(user)
    ensures Authenticated(cfg, OpenSession(cfg, s, user, draw).0, draw.token) == Some(user)
  {
    var hash := cfg.hash(draw.token);
    assert ByHash(s.sessions, hash).None? by {
      forall k | k in s.sessions ensures s.sessions[k].hash != hash {
        assert IsIssued(cfg, s.issued, s.sessions[k].hash);
      }
    }
    var after := OpenSession(cfg, s, user, draw).0;
    assert after.sessions[draw.sessionId] == Session(user, hash, s.now + cfg.ttl, s.now);
    assert ByHash(after.sessions, hash) == Some(draw.sessionId);
  }

  /** Who has registered can log in with the same email and password, and the token authenticates them. */
  lemma RegisterThenLogin(cfg: Config, prf: Pbkdf2.Prf, s: State, email: string, name: string, password: Bytes,
                          id: string, salt: Bytes, draw: Draw)
    requires cfg.UsesRecords(prf) && Inv(cfg, s) && Injective(cfg.hash) && cfg.ttl > 0
    requires DoRegister(cfg, s, email, name, password, id, PasswordHash(cfg, password, salt)).1 == Done
    requires IsFresh(s, draw) && draw.stored && draw.sessionId !in s.sessions
    ensures var registered := DoRegister(cfg, s, email, name, password, id, PasswordHash(cfg, password, salt)).0;
            var (after, reply) := DoLogin(cfg, registered, email, password, draw);
            reply == SignedIn(id) && Authenticated(cfg, after, draw.token) == Some(id)
  {
    StepKeepsAs(cfg, s, Request.Register(email, name, password, id, salt),
                DoRegister(cfg, s, email, name, password, id, PasswordHash(cfg, password, salt)).0);
    CheckedExactlyWhen(cfg, prf, password, password, salt);
    RegisteredLogsIn(cfg, s, email, name, password, id, PasswordHash(cfg, password, salt), draw);
  }

  lemma RegisteredLogsIn(cfg: Config, s: State, email: string, name: string, password: Bytes, id: string,
                         record: string, draw: Draw)
    requires var registered := DoRegister(cfg, s, email, name, password, id, record).0;
             EmailsUnique(registered.users) && SessionsOk(cfg, registered)
    requires DoRegister(cfg, s, email, name, password, id, record).1 == Done
    requires Injective(cfg.hash) && cfg.ttl > 0 && Checked(cfg, password, record) == Password.Accepted
    requires IsFresh(s, draw) && draw.stored && draw.sessionId !in s.sessions
    ensures var registered := DoRegister(cfg, s, email, name, password, id, record).0;
            var (after, reply) := DoLogin(cfg, registered, email, password, draw);
            reply == SignedIn(id) && Authenticated(cfg, after, draw.token) == Some(id)
  {
    var registered := DoRegister(cfg, s, email, name, password, id, record).0;
    LoginByEmail(cfg, registered, email, password, draw, id);
    LoggedInIsIn(cfg, registered, email, password, draw);
  }

  // ---- What edits of an account do to its logins.

  lemma LoginByEmail(cfg: Config, s: State, email: string, password: Bytes, draw: Draw, id: string)
    requires EmailsUnique(s.users) && SessionsOk(cfg, s) && Injective(cfg.hash) && cfg.ttl > 0
    requires IsFresh(s, draw) && draw.stored && draw.sessionId !in s.sessions
    requires id in s.users && s.users[id].email == cfg.normal(email) && cfg.validEmail(cfg.normal(email))
             && password != []
    requires s.users[id].source == Local && !s.users[id].disabled && s.users[id].passwordHash.Some?
    ensures DoLogin(cfg, s, email, password, draw).1 ==
            match Checked(cfg, password, s.users[id].passwordHash.value)
            case Panicked => Reply.Panicked
            case Rejected => InvalidCredentials
            case Accepted => SignedIn(id)
  {
    EmailFinds(s.users, id);
    FreshSessionOpens(cfg, s, id, draw);
  }

  /** After a password change the user logs in with a password exactly when it derives the new one's key. */
  lemma ChangedPasswordDecidesLogin(cfg: Config, prf: Pbkdf2.Prf, s: State, token: string, current: Bytes, next: Bytes,
                                    salt: Bytes, email: string, password: Bytes, draw: Draw)
    requires cfg.UsesRecords(prf) && Inv(cfg, s) && Injective(cfg.hash) && cfg.ttl > 0
    requires DoChangePassword(cfg, s, token, current, next, PasswordHash(cfg, next, salt)).1 == Done
    requires IsFresh(s, draw) && draw.stored && draw.sessionId !in s.sessions && password != []
    requires cfg.validEmail(cfg.normal(email))
    requires s.users[Authenticated(cfg, s, token).value].email == cfg.normal(email)
    ensures var after := DoChangePassword(cfg, s, token, current, next, PasswordHash(cfg, next, salt)).0;
            DoLogin(cfg, after, email, password, draw).1 ==
            if SameKey(cfg, prf, password, next, salt) then SignedIn(Authenticated(cfg, s, token).value)
            else InvalidCredentials
  {
    StepKeepsAs(cfg, s, Request.ChangePassword(token, current, next, salt),
                DoChangePassword(cfg, s, token, current, next, PasswordHash(cfg, next, salt)).0);
    CheckedExactlyWhen(cfg, prf, password, next, salt);
    ChangedRecordDecides(cfg, s, token, current, next, PasswordHash(cfg, next, salt), email, password, draw);
  }

  /** A local user with a password record asks for a password of a proper length. */
  predicate MayChange(users: Users, id: string, current: Bytes, next: Bytes) {
    id != "" && id in users && users[id].source == Local && users[id].passwordHash.Some?
    && current != [] && |next| >= 8
  }

  /**
    With a proper request, the current password decides: it goes through exactly when `current` derives the key of
    the password behind the stored record. Nothing but the caller's record changes, and only then.
   */
  lemma CurrentPasswordDecides(cfg: Config, prf: Pbkdf2.Prf, s: State, token: string, current: Bytes, next: Bytes,
                               salt: Bytes, stored: Bytes, oldSalt: Bytes)
    requires cfg.UsesRecords(prf) && Authenticated(cfg, s, token).Some?
    requires MayChange(s.users, Authenticated(cfg, s, token).value, current, next)
    requires s.users[Authenticated(cfg, s, token).value].passwordHash == Some(PasswordHash(cfg, stored, oldSalt))
    ensures var id := Authenticated(cfg, s, token).value;
            var (after, reply) := DoChangePassword(cfg, s, token, current, next, PasswordHash(cfg, next, salt));
            if SameKey(cfg, prf, current, stored, oldSalt)
            then reply == Done
                 && after.users == s.users[id := s.users[id].(passwordHash := Some(PasswordHash(cfg, next, salt)))]
            else reply == InvalidCredentials && after == s
  {
    CheckedExactlyWhen(cfg, prf, current, stored, oldSalt);
  }

  lemma ChangedRecordDecides(cfg: Config, s: State, token: string, current: Bytes, next: Bytes, record: string,
                             email: string, password: Bytes, draw: Draw)
    requires DoChangePassword(cfg, s, token, current, next, record).1 == Done
    requires var after := DoChangePassword(cfg, s, token, current, next, record).0;
             EmailsUnique(after.users) && SessionsOk(cfg, after)
    requires Injective(cfg.hash) && cfg.ttl > 0
    requires IsFresh(s, draw) && draw.stored && draw.sessionId !in s.sessions && password != []
    requires cfg.validEmail(cfg.normal(email))
    requires s.users[Authenticated(cfg, s, token).value].email == cfg.normal(email)
    ensures var after := DoChangePassword(cfg, s, token, current, next, record).0;
            DoLogin(cfg, after, email, password, draw).1 ==
            match Checked(cfg, password, record)
            case Panicked => Reply.Panicked
            case Rejected => InvalidCredentials
            case Accepted => SignedIn(Authenticated(cfg, s, token).value)
  {
    var after := DoChangePassword(cfg, s, token, current, next, record).0;
    LoginByEmail(cfg, after, email, password, draw, Authenticated(cfg, s, token).value);
  }

  predicate Enables(request: Request, id: string) {
    request.AdminUpdate? && request.target == id && request.change.disabled == Some(false)
  }

  lemma StaysDisabled(cfg: Config, s: State, request: Request, id: string)
    requires id in s.users && s.users[id].disabled && !Enables(request, id)
    ensures id in Step(cfg, s, request).0.users && Step(cfg, s, request).0.users[id].disabled
  {
    UserChangesOnlyBy(cfg, s, request, id);
    if request.AdminUpdate? {
      AdminUpdateStep(cfg, s, request);
    }
  }

  lemma OnlyEnabledSignIn(cfg: Config, s: State, request: Request)
    requires Step(cfg, s, request).1.SignedIn?
    ensures request.Login? || request.Callback?
    ensures var user := Step(cfg, s, request).1.user; user in s.users ==> !s.users[user].disabled
  {
  }

  /**
    Until an administrator enables it again, a disabled user is neither authenticated by any token,
    old or new, nor signed in by any login or callback.
   */
  lemma {:induction false} DisabledUserStaysOut(cfg: Config, s: State, requests: seq<Request>, request: Request,
                                                token: string, id: string)
    requires id in s.users && s.users[id].disabled
    requires forall i :: 0 <= i < |requests| ==> !Enables(requests[i], id)
    ensures var after := Run(cfg, s, requests);
            Authenticated(cfg, after, token) != Some(id) && Step(cfg, after, request).1 != SignedIn(id)
    decreases |requests|
  {
    if requests == [] {
      if Step(cfg, s, request).1.SignedIn? {
        OnlyEnabledSignIn(cfg, s, request);
      }
    } else {
      assert !Enables(requests[0], id);
      StaysDisabled(cfg, s, requests[0], id);
      DisabledUserStaysOut(cfg, Step(cfg, s, requests[0]).0, requests[1..], request, token, id);
    }
  }

  // ---- What a single answer promises.

  /** The token authenticates nobody, now and after any later run. */
  ghost predicate IsOut(cfg: Config, s: State, token: string) {
    forall later :: Authenticated(cfg, Run(cfg, s, later), token).None?
  }

  lemma DeadIsOut(cfg: Config, s: State, token: string)
    requires Injective(cfg.hash) && token in s.issued && !Live(cfg, s, token)
    ensures IsOut(cfg, s, token)
  {
    forall later ensures Authenticated(cfg, Run(cfg, s, later), token).None? {
      DeadStaysDead(cfg, s, later, token);
    }
  }

  lemma LoggedOutIsOut(cfg: Config, s: State, token: string)
    requires Injective(cfg.hash)
    ensures Authenticated(cfg, DoLogout(cfg, s, token).0, token).None?
    ensures token in s.issued && token != "" ==> IsOut(cfg, DoLogout(cfg, s, token).0, token)
  {
    if token in s.issued && token != "" {
      DeadIsOut(cfg, DoLogout(cfg, s, token).0, token);
    }
  }

  lemma RevokedIsOut(cfg: Config, s: State, token: string, sessionId: string, revoked: string)
    requires SessionsOk(cfg, s) && Injective(cfg.hash) && revoked in s.issued
    requires DoRevoke(cfg, s, token, sessionId).1 == Done && s.sessions[sessionId].hash == cfg.hash(revoked)
    ensures IsOut(cfg, DoRevoke(cfg, s, token, sessionId).0, revoked)
  {
    DeadIsOut(cfg, DoRevoke(cfg, s, token, sessionId).0, revoked);
  }

  lemma RevokerStaysIn(cfg: Config, s: State, token: string, sessionId: string)
    requires SessionsOk(cfg, s) && Authenticated(cfg, s, token).Some?
    ensures Authenticated(cfg, DoRevoke(cfg, s, token, sessionId).0, token) == Authenticated(cfg, s, token)
  {
    var after := DoRevoke(cfg, s, token, sessionId).0;
    var k := ByHash(s.sessions, cfg.hash(token)).value;
    assert k in after.sessions && after.sessions[k] == s.sessions[k];
    assert HashesUnique(after.sessions);
    HashFinds(after.sessions, k);
  }

  lemma OpenedIsIn(cfg: Config, s: State, user: string, draw: Draw)
    requires SessionsOk(cfg, s) && Injective(cfg.hash) && cfg.ttl > 0 && IsFresh(s, draw)
    requires user in s.users && !s.users[user].disabled
    requires OpenSession(cfg, s, user, draw).1.SignedIn?
    ensures OpenSession(cfg, s, user, draw).1.user == user
    ensures Authenticated(cfg, OpenSession(cfg, s, user, draw).0, draw.token) == Some(user)
  {
    FreshSessionOpens(cfg, s, user, draw);
  }

  lemma UpsertKeepsSessionsOk(cfg: Config, s: State, p: Profile, id: string)
    requires SessionsOk(cfg, s)
    ensures SessionsOk(cfg, s.(users := Upserted(cfg, s.users, p, id).0))
  {
    forall k | k in s.sessions ensures s.sessions[k].user in Upserted(cfg, s.users, p, id).0 {
      UpsertChangesOnlySubject(cfg, s.users, p, id, s.sessions[k].user);
    }
  }

  /** A login that signs a user in opens a session that authenticates them. */
  lemma LoggedInIsIn(cfg: Config, s: State, email: string, password: Bytes, draw: Draw)
    requires SessionsOk(cfg, s) && Injective(cfg.hash) && cfg.ttl > 0
    requires DoLogin(cfg, s, email, password, draw).1.SignedIn?
    ensures var (after, reply) := DoLogin(cfg, s, email, password, draw);
            Authenticated(cfg, after, draw.token) == Some(reply.user)
            && reply.user in s.users && s.users[reply.user].email == cfg.normal(email)
  {
    OpenedIsIn(cfg, s, ByEmail(s.users, cfg.normal(email)).value, draw);
  }

  /** So does a callback, for the user its subject is then bound to. */
  lemma CalledBackIsIn(cfg: Config, s: State, profile: Profile, tokenSubject: string, id: string, draw: Draw)
    requires Inv(cfg, s) && Injective(cfg.hash) && cfg.ttl > 0
    requires DoCallback(cfg, s, profile, tokenSubject, id, draw).1.SignedIn?
    ensures var (after, reply) := DoCallback(cfg, s, profile, tokenSubject, id, draw);
            Authenticated(cfg, after, draw.token) == Some(reply.user)
            && BySubject(after.users, Normalised(cfg, profile, tokenSubject).subject) == Some(reply.user)
  {
    var p := Normalised(cfg, profile, tokenSubject);
    var (users, reply) := Upserted(cfg, s.users, p, id);
    UpsertKeepsSessionsOk(cfg, s, p, id);
    UpsertBinds(cfg, s.users, p, id);
    OpenedIsIn(cfg, s.(users := users), reply.user, draw);
  }
}
