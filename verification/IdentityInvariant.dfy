/** What every request keeps: the unique indexes, the shape of sessions, and who may change which column. */
module IdentityInvariant {
  import opened Common
  import opened Identity

  ghost predicate EmailsUnique(users: Users) {
    forall i, j :: i in users && j in users && users[i].email == users[j].email ==> i == j
  }

  ghost predicate SubjectsUnique(users: Users) {
    forall i, j :: i in users && j in users && users[i].subject.Some? && users[i].subject == users[j].subject ==> i == j
  }

  ghost predicate HashesUnique(sessions: Sessions) {
    forall i, j :: i in sessions && j in sessions && sessions[i].hash == sessions[j].hash ==> i == j
  }

  /** The hash of some token that was handed out. */
  ghost predicate IsIssued(cfg: Config, issued: set<string>, hash: string) {
    exists t :: t in issued && t != "" && cfg.hash(t) == hash
  }

  /** Whatever the time. */
  ghost predicate TokensOk(cfg: Config, users: Users, sessions: Sessions, issued: set<string>) {
    HashesUnique(sessions)
    && forall k :: k in sessions ==> sessions[k].user in users && IsIssued(cfg, issued, sessions[k].hash)
  }

  ghost predicate SessionsOk(cfg: Config, s: State) {
    TokensOk(cfg, s.users, s.sessions, s.issued)
  }

  ghost predicate IsPrinted(cfg: Config, record: string) {
    exists password, salt :: record == PasswordHash(cfg, password, salt)
  }

  ghost predicate HashesPrinted(cfg: Config, users: Users) {
    forall k :: k in users && users[k].passwordHash.Some? ==> IsPrinted(cfg, users[k].passwordHash.value)
  }

  ghost predicate Inv(cfg: Config, s: State) {
    EmailsUnique(s.users) && SubjectsUnique(s.users) && SessionsOk(cfg, s) && HashesPrinted(cfg, s.users)
  }

  ghost predicate Injective(hash: string -> string) {
    forall a, b :: hash(a) == hash(b) ==> a == b
  }

  // ---- Lookups under the unique indexes.

  lemma EmailFinds(users: Users, id: string)
    requires EmailsUnique(users) && id in users
    ensures ByEmail(users, users[id].email) == Some(id)
  {
  }

  lemma SubjectFinds(users: Users, id: string, subject: string)
    requires SubjectsUnique(users) && id in users && users[id].subject == Some(subject)
    ensures BySubject(users, subject) == Some(id)
  {
  }

  lemma HashFinds(sessions: Sessions, k: string)
    requires HashesUnique(sessions) && k in sessions
    ensures ByHash(sessions, sessions[k].hash) == Some(k)
  {
  }

  // ---- Which request may change which column.

  ghost predicate ByAdmin(cfg: Config, s: State, token: string) {
    Authenticated(cfg, s, token).Some? && s.users[Authenticated(cfg, s, token).value].isAdmin
  }

  ghost predicate SameStanding(u: User, v: User) {
    u.isAdmin == v.isAdmin && u.disabled == v.disabled
  }

  /** An administrator's edit of this user. */
  ghost predicate IsAdminEdit(cfg: Config, s: State, request: Request, id: string) {
    request.AdminUpdate? && request.target == id && ByAdmin(cfg, s, request.token)
  }

  /** The user's own profile update. */
  ghost predicate Renames(cfg: Config, s: State, request: Request, id: string) {
    request.UpdateProfile? && Authenticated(cfg, s, request.token) == Some(id)
  }

  ghost predicate SetsPassword(cfg: Config, s: State, request: Request, id: string) {
    (request.ChangePassword? && Authenticated(cfg, s, request.token) == Some(id)) ||
    (request.AdminResetPassword? && request.target == id && ByAdmin(cfg, s, request.token))
  }

  ghost predicate Allowed(cfg: Config, s: State, request: Request, id: string, u: User, v: User) {
    u.source == v.source
    && (u.email == v.email || (u.source == Local && IsAdminEdit(cfg, s, request, id)))
    && (u.name == v.name || Renames(cfg, s, request, id) || (u.source == Local && IsAdminEdit(cfg, s, request, id)))
    && (SameStanding(u, v) || IsAdminEdit(cfg, s, request, id))
    && (u.passwordHash == v.passwordHash || (u.source == Local && SetsPassword(cfg, s, request, id)))
    && (u.subject == v.subject || (cfg.autoMerge && request.Callback?))
  }

  /** Requests that leave the user table alone. */
  predicate IsQuiet(request: Request) {
    request.Login? || request.CurrentUser? || request.Logout? || request.Revoke? || request.Tick?
  }

  lemma QuietKeepsUsers(cfg: Config, s: State, request: Request)
    requires IsQuiet(request)
    ensures Step(cfg, s, request).0.users == s.users
  {
  }

  /** The user with another password record. */
  ghost predicate Rehashed(u: User, v: User, record: string) {
    u.source == Local && v == u.(passwordHash := Some(record))
  }

  ghost predicate OnlyRehashes(cfg: Config, s: State, request: Request, users: Users, id: string, record: string) {
    id in s.users && id in users && users == s.users[id := users[id]]
    && SetsPassword(cfg, s, request, id) && Rehashed(s.users[id], users[id], record)
  }

  lemma ChangePasswordRehashes(cfg: Config, s: State, request: Request, record: string)
    requires request.ChangePassword?
    ensures var users := DoChangePassword(cfg, s, request.token, request.current, request.next, record).0.users;
            users == s.users || (Authenticated(cfg, s, request.token).Some?
                                 && OnlyRehashes(cfg, s, request, users,
                                                 Authenticated(cfg, s, request.token).value, record))
  {
  }

  lemma AdminResetRehashes(cfg: Config, s: State, request: Request, record: string)
    requires request.AdminResetPassword?
    ensures var users := DoAdminResetPassword(cfg, s, request.token, request.target, request.next, record).0.users;
            users == s.users || OnlyRehashes(cfg, s, request, users, request.target, record)
  {
  }

  predicate SetsSomePassword(request: Request) {
    request.ChangePassword? || request.AdminResetPassword?
  }

  lemma PasswordRequestsRehash(cfg: Config, s: State, request: Request)
    requires SetsSomePassword(request)
    ensures var users := Step(cfg, s, request).0.users;
            users == s.users
            || exists id :: OnlyRehashes(cfg, s, request, users, id, PasswordHash(cfg, request.next, request.salt))
  {
    var record := PasswordHash(cfg, request.next, request.salt);
    if request.ChangePassword? {
      ChangePasswordRehashes(cfg, s, request, record);
    } else {
      AdminResetRehashes(cfg, s, request, record);
    }
  }

  /** A profile update changes the caller's name and nothing else. */
  ghost predicate OnlyRenames(cfg: Config, s: State, request: Request, users: Users, id: string) {
    Renames(cfg, s, request, id) && id in s.users && id in users
    && users == s.users[id := users[id]] && users[id] == s.users[id].(name := users[id].name)
  }

  lemma ProfileRequestsRename(cfg: Config, s: State, request: Request)
    requires request.UpdateProfile?
    ensures var users := Step(cfg, s, request).0.users;
            users == s.users ||
            (Authenticated(cfg, s, request.token).Some?
             && OnlyRenames(cfg, s, request, users, Authenticated(cfg, s, request.token).value))
  {
  }

  ghost predicate Inserts(users: Users, after: Users, id: string, record: string) {
    id !in users && id in after && after == users[id := after[id]] && CanInsert(users, id, after[id])
    && after[id].source == Local && after[id].subject.None? && !after[id].isAdmin && !after[id].disabled
    && after[id].passwordHash == Some(record)
  }

  lemma RegisterInserts(cfg: Config, s: State, request: Request, record: string)
    requires request.Register?
    ensures var (after, reply) :=
              DoRegister(cfg, s, request.email, request.name, request.password, request.id, record);
            if reply == Done then Inserts(s.users, after.users, request.id, record) else after.users == s.users
  {
  }

  lemma CallbackUsers(cfg: Config, s: State, request: Request)
    requires request.Callback?
    ensures Step(cfg, s, request).0.users == s.users ||
            Step(cfg, s, request).0.users ==
            Upserted(cfg, s.users, Normalised(cfg, request.profile, request.tokenSubject), request.id).0
  {
  }

  lemma UpsertChangesOnlySubject(cfg: Config, users: Users, p: Profile, id: string, k: string)
    requires k in users
    ensures k in Upserted(cfg, users, p, id).0
    ensures Upserted(cfg, users, p, id).0[k] == users[k] ||
            (cfg.autoMerge && Upserted(cfg, users, p, id).0[k] == users[k].(subject := Some(p.subject)))
  {
  }

  lemma AdminUpdateChanges(cfg: Config, s: State, request: Request, id: string)
    requires request.AdminUpdate? && id in s.users
    ensures id in Step(cfg, s, request).0.users
    ensures Allowed(cfg, s, request, id, s.users[id], Step(cfg, s, request).0.users[id])
  {
  }

  /**
    A user never disappears. Its source is fixed; its email, admin flag and disabled flag change
    only by an enabled administrator's edit of it, the email only for local users; its name by
    such an edit of a local user or by its own profile update; its password only by itself or an
    administrator; its subject only by a merging callback.
   */
  lemma UserChangesOnlyBy(cfg: Config, s: State, request: Request, id: string)
    requires id in s.users
    ensures id in Step(cfg, s, request).0.users
    ensures Allowed(cfg, s, request, id, s.users[id], Step(cfg, s, request).0.users[id])
  {
    if IsQuiet(request) {
      QuietKeepsUsers(cfg, s, request);
    } else if request.Register? {
      RegisterInserts(cfg, s, request, PasswordHash(cfg, request.password, request.salt));
    } else if request.Callback? {
      CallbackUsers(cfg, s, request);
      UpsertChangesOnlySubject(cfg, s.users, Normalised(cfg, request.profile, request.tokenSubject), request.id, id);
    } else if request.AdminUpdate? {
      AdminUpdateChanges(cfg, s, request, id);
    } else if request.UpdateProfile? {
      ProfileRequestsRename(cfg, s, request);
    } else {
      PasswordRequestsRehash(cfg, s, request);
    }
  }

  /** A user row that was not there before is enabled, no administrator, and comes from the request's own data. */
  lemma NewUsers(cfg: Config, s: State, request: Request, id: string)
    requires id !in s.users && id in Step(cfg, s, request).0.users
    ensures (request.Register? || request.Callback?) && request.id == id
    ensures var u := Step(cfg, s, request).0.users[id];
            !u.isAdmin && !u.disabled && (u.source == Local <==> request.Register?)
  {
  }

  // ---- Preservation of the unique indexes.

  lemma InsertKeepsUnique(users: Users, id: string, u: User)
    requires EmailsUnique(users) && SubjectsUnique(users) && CanInsert(users, id, u)
    ensures EmailsUnique(users[id := u]) && SubjectsUnique(users[id := u])
  {
  }

  lemma ReplaceKeepsUnique(users: Users, id: string, u: User)
    requires EmailsUnique(users) && SubjectsUnique(users) && id in users
    requires u.email == users[id].email || EmailIsFree(users, id, u.email)
    requires u.subject == users[id].subject || (u.subject.Some? && SubjectIsFree(users, id, u.subject.value))
    ensures EmailsUnique(users[id := u]) && SubjectsUnique(users[id := u])
  {
  }

  lemma UpsertKeepsUnique(cfg: Config, users: Users, p: Profile, id: string)
    requires EmailsUnique(users) && SubjectsUnique(users)
    ensures EmailsUnique(Upserted(cfg, users, p, id).0) && SubjectsUnique(Upserted(cfg, users, p, id).0)
  {
    if BySubject(users, p.subject).None? {
      match ByEmail(users, p.email)
      case Some(k) =>
        if SubjectIsFree(users, k, p.subject) {
          ReplaceKeepsUnique(users, k, users[k].(subject := Some(p.subject)));
        }
      case None =>
        var u := User(p.email, p.name, None, Oidc, Some(p.subject), false, false);
        if CanInsert(users, id, u) {
          InsertKeepsUnique(users, id, u);
        }
    }
  }

  lemma AdminUpdateKeepsUnique(cfg: Config, users: Users, actor: string, isAdmin: bool, target: string, change: Change)
    requires EmailsUnique(users) && SubjectsUnique(users)
    ensures EmailsUnique(AdminUpdated(cfg, users, actor, isAdmin, target, change).0)
    ensures SubjectsUnique(AdminUpdated(cfg, users, actor, isAdmin, target, change).0)
  {
    if AdminUpdated(cfg, users, actor, isAdmin, target, change).1 == Done {
      ReplaceKeepsUnique(users, target, Changed(users[target], Cleaned(cfg, change)));
    }
  }

  lemma RehashKeepsUnique(cfg: Config, s: State, request: Request, users: Users, id: string, record: string)
    requires EmailsUnique(s.users) && SubjectsUnique(s.users) && OnlyRehashes(cfg, s, request, users, id, record)
    ensures EmailsUnique(users) && SubjectsUnique(users)
  {
    ReplaceKeepsUnique(s.users, id, users[id]);
  }

  lemma AdminUpdateStep(cfg: Config, s: State, request: Request)
    requires request.AdminUpdate?
    ensures Step(cfg, s, request).0.users == s.users ||
            (ByAdmin(cfg, s, request.token) &&
             Step(cfg, s, request).0.users ==
             AdminUpdated(cfg, s.users, Authenticated(cfg, s, request.token).value, true,
                          request.target, request.change).0)
  {
  }

  lemma StepKeepsUnique(cfg: Config, s: State, request: Request)
    requires EmailsUnique(s.users) && SubjectsUnique(s.users)
    ensures EmailsUnique(Step(cfg, s, request).0.users) && SubjectsUnique(Step(cfg, s, request).0.users)
  {
    var users := Step(cfg, s, request).0.users;
    if IsQuiet(request) {
      QuietKeepsUsers(cfg, s, request);
    } else if request.Register? {
      RegisterInserts(cfg, s, request, PasswordHash(cfg, request.password, request.salt));
      if users != s.users {
        InsertKeepsUnique(s.users, request.id, users[request.id]);
      }
    } else if request.Callback? {
      CallbackUsers(cfg, s, request);
      UpsertKeepsUnique(cfg, s.users, Normalised(cfg, request.profile, request.tokenSubject), request.id);
    } else if request.AdminUpdate? {
      AdminUpdateStep(cfg, s, request);
      if users != s.users {
        var actor := Authenticated(cfg, s, request.token).value;
        AdminUpdateKeepsUnique(cfg, s.users, actor, true, request.target, request.change);
      }
    } else if request.UpdateProfile? {
      ProfileRequestsRename(cfg, s, request);
      if users != s.users {
        var id := Authenticated(cfg, s, request.token).value;
        ReplaceKeepsUnique(s.users, id, users[id]);
      }
    } else {
      PasswordRequestsRehash(cfg, s, request);
      if users != s.users {
        var record := PasswordHash(cfg, request.next, request.salt);
        var id :| OnlyRehashes(cfg, s, request, users, id, record);
        RehashKeepsUnique(cfg, s, request, users, id, record);
      }
    }
  }

  // ---- Sessions.

  ghost predicate IsKept(s: State, after: State, k: string) {
    k in s.sessions && k in after.sessions && after.sessions[k] == s.sessions[k]
  }

  /** A session opened for a token that was never handed out before. */
  ghost predicate IsOpened(cfg: Config, s: State, after: State, k: string) {
    k in after.sessions && k !in s.sessions && after.sessions[k].user in after.users
    && ByHash(s.sessions, after.sessions[k].hash).None?
    && exists t :: t in after.issued && t !in s.issued && t != "" && cfg.hash(t) == after.sessions[k].hash
  }

  ghost predicate SessionsEvolve(cfg: Config, s: State, after: State) {
    s.issued <= after.issued && s.now <= after.now
    && (forall k :: k in after.sessions ==> IsKept(s, after, k) || IsOpened(cfg, s, after, k))
    && (forall i, j :: i in after.sessions && j in after.sessions && i !in s.sessions && j !in s.sessions ==> i == j)
  }

  lemma OpenedFor(cfg: Config, s: State, user: string, draw: Draw)
    requires IsFresh(s, draw) && user in s.users
    ensures SessionsEvolve(cfg, s, OpenSession(cfg, s, user, draw).0)
  {
    var after := OpenSession(cfg, s, user, draw).0;
    forall k | k in after.sessions ensures IsKept(s, after, k) || IsOpened(cfg, s, after, k) {
      if k !in s.sessions {
        assert draw.token in after.issued && cfg.hash(draw.token) == after.sessions[k].hash;
      }
    }
  }

  /** Requests that sign nobody in keep sessions or drop them. */
  ghost predicate OnlyDrops(s: State, after: State) {
    after.issued == s.issued && s.now <= after.now && forall k :: k in after.sessions ==> IsKept(s, after, k)
  }

  lemma PresentedDrops(cfg: Config, s: State, token: string)
    ensures OnlyDrops(s, Presented(cfg, s, token))
  {
  }

  lemma LogoutDrops(cfg: Config, s: State, token: string)
    ensures OnlyDrops(s, DoLogout(cfg, s, token).0)
  {
  }

  lemma RevokeDrops(cfg: Config, s: State, token: string, sessionId: string)
    ensures OnlyDrops(s, DoRevoke(cfg, s, token, sessionId).0)
  {
    PresentedDrops(cfg, s, token);
  }

  lemma PasswordsDrop(cfg: Config, s: State, token: string, target: string, current: Bytes, next: Bytes, record: string)
    ensures OnlyDrops(s, DoChangePassword(cfg, s, token, current, next, record).0)
    ensures OnlyDrops(s, DoAdminResetPassword(cfg, s, token, target, next, record).0)
  {
    PresentedDrops(cfg, s, token);
  }

  lemma ProfilesDrop(cfg: Config, s: State, token: string, name: string, target: string, change: Change)
    ensures OnlyDrops(s, DoUpdateProfile(cfg, s, token, name).0)
    ensures OnlyDrops(s, DoAdminUpdate(cfg, s, token, target, change).0)
  {
    PresentedDrops(cfg, s, token);
  }

  lemma OthersOnlyDrop(cfg: Config, s: State, request: Request)
    requires !request.Login? && !request.Callback?
    ensures OnlyDrops(s, Step(cfg, s, request).0)
  {
    match request
    case CurrentUser(token) => PresentedDrops(cfg, s, token);
    case Logout(token) => LogoutDrops(cfg, s, token);
    case Revoke(token, sessionId) => RevokeDrops(cfg, s, token, sessionId);
    case ChangePassword(token, current, next, salt) =>
      PasswordsDrop(cfg, s, token, "", current, next, PasswordHash(cfg, next, salt));
    case AdminResetPassword(token, target, next, salt) =>
      PasswordsDrop(cfg, s, token, target, [], next, PasswordHash(cfg, next, salt));
    case UpdateProfile(token, name) => ProfilesDrop(cfg, s, token, name, "", Change(None, None, None, None));
    case AdminUpdate(token, target, change) => ProfilesDrop(cfg, s, token, "", target, change);
    case Register(_, _, _, _, _) =>
    case Tick(_) =>
  }

  lemma LoginEvolves(cfg: Config, s: State, email: string, password: Bytes, draw: Draw)
    ensures SessionsEvolve(cfg, s, DoLogin(cfg, s, email, password, draw).0)
  {
    var mail := cfg.normal(email);
    if IsFresh(s, draw) && ByEmail(s.users, mail).Some? {
      OpenedFor(cfg, s, ByEmail(s.users, mail).value, draw);
    }
  }

  lemma CallbackEvolves(cfg: Config, s: State, profile: Profile, tokenSubject: string, id: string, draw: Draw)
    ensures SessionsEvolve(cfg, s, DoCallback(cfg, s, profile, tokenSubject, id, draw).0)
  {
    var p := Normalised(cfg, profile, tokenSubject);
    var (users, reply) := Upserted(cfg, s.users, p, id);
    if IsFresh(s, draw) && reply.SignedIn? {
      OpenedFor(cfg, s.(users := users), reply.user, draw);
      SameSessions(cfg, s, users, OpenSession(cfg, s.(users := users), reply.user, draw).0);
    }
  }

  /** Sessions appear only for fresh tokens and are never rewritten. */
  lemma StepEvolvesSessions(cfg: Config, s: State, request: Request)
    ensures SessionsEvolve(cfg, s, Step(cfg, s, request).0)
  {
    if request.Login? {
      LoginEvolves(cfg, s, request.email, request.password, request.draw);
    } else if request.Callback? {
      CallbackEvolves(cfg, s, request.profile, request.tokenSubject, request.id, request.draw);
    } else {
      OthersOnlyDrop(cfg, s, request);
    }
  }

  lemma SameSessions(cfg: Config, s: State, users: Users, after: State)
    requires SessionsEvolve(cfg, s.(users := users), after)
    ensures SessionsEvolve(cfg, s, after)
  {
    var m := s.(users := users);
    forall k | k in after.sessions ensures IsKept(s, after, k) || IsOpened(cfg, s, after, k) {
      assert IsKept(m, after, k) || IsOpened(cfg, m, after, k);
    }
  }

  lemma StepKeepsSessionsOk(cfg: Config, s: State, request: Request)
    requires SessionsOk(cfg, s)
    ensures SessionsOk(cfg, Step(cfg, s, request).0)
  {
    var after := Step(cfg, s, request).0;
    StepEvolvesSessions(cfg, s, request);
    forall k | k in after.sessions
      ensures after.sessions[k].user in after.users && IsIssued(cfg, after.issued, after.sessions[k].hash)
    {
      if IsKept(s, after, k) {
        UserChangesOnlyBy(cfg, s, request, s.sessions[k].user);
        var t :| t in s.issued && t != "" && cfg.hash(t) == s.sessions[k].hash;
        assert t in after.issued;
      } else {
        assert IsOpened(cfg, s, after, k);
      }
    }
    forall i, j | i in after.sessions && j in after.sessions && after.sessions[i].hash == after.sessions[j].hash
      ensures i == j
    {
      assert IsKept(s, after, i) || IsOpened(cfg, s, after, i);
      assert IsKept(s, after, j) || IsOpened(cfg, s, after, j);
    }
  }

  // ---- Password records.

  lemma UpsertedHashes(cfg: Config, users: Users, p: Profile, id: string, k: string)
    requires k in Upserted(cfg, users, p, id).0
    ensures var hash := Upserted(cfg, users, p, id).0[k].passwordHash;
            hash.None? || (k in users && hash == users[k].passwordHash)
  {
  }

  lemma UpsertKeepsHashes(cfg: Config, users: Users, p: Profile, id: string)
    requires HashesPrinted(cfg, users)
    ensures HashesPrinted(cfg, Upserted(cfg, users, p, id).0)
  {
    var after := Upserted(cfg, users, p, id).0;
    forall k | k in after && after[k].passwordHash.Some? ensures IsPrinted(cfg, after[k].passwordHash.value) {
      UpsertedHashes(cfg, users, p, id, k);
    }
  }

  lemma AdminUpdateKeepsHashes(cfg: Config, s: State, request: Request)
    requires HashesPrinted(cfg, s.users) && request.AdminUpdate?
    ensures HashesPrinted(cfg, Step(cfg, s, request).0.users)
  {
    var users := Step(cfg, s, request).0.users;
    forall k | k in users && users[k].passwordHash.Some? ensures IsPrinted(cfg, users[k].passwordHash.value) {
      if k in s.users {
        AdminUpdateChanges(cfg, s, request, k);
      } else {
        NewUsers(cfg, s, request, k);
      }
    }
  }

  lemma InsertKeepsHashes(cfg: Config, users: Users, after: Users, id: string, record: string)
    requires HashesPrinted(cfg, users) && Inserts(users, after, id, record) && IsPrinted(cfg, record)
    ensures HashesPrinted(cfg, after)
  {
  }

  lemma RegisterKeepsHashes(cfg: Config, s: State, request: Request)
    requires HashesPrinted(cfg, s.users) && request.Register?
    ensures HashesPrinted(cfg, Step(cfg, s, request).0.users)
  {
    var record, after := PasswordHash(cfg, request.password, request.salt), Step(cfg, s, request).0.users;
    RegisterInserts(cfg, s, request, record);
    if after != s.users {
      InsertKeepsHashes(cfg, s.users, after, request.id, record);
    }
  }

  lemma StepKeepsHashesPrinted(cfg: Config, s: State, request: Request)
    requires HashesPrinted(cfg, s.users)
    ensures HashesPrinted(cfg, Step(cfg, s, request).0.users)
  {
    var users := Step(cfg, s, request).0.users;
    if IsQuiet(request) {
      QuietKeepsUsers(cfg, s, request);
    } else if request.Register? {
      RegisterKeepsHashes(cfg, s, request);
    } else if request.Callback? {
      CallbackUsers(cfg, s, request);
      if users != s.users {
        UpsertKeepsHashes(cfg, s.users, Normalised(cfg, request.profile, request.tokenSubject), request.id);
      }
    } else if request.AdminUpdate? {
      AdminUpdateKeepsHashes(cfg, s, request);
    } else if request.UpdateProfile? {
      ProfileRequestsRename(cfg, s, request);
    } else {
      PasswordRequestsRehash(cfg, s, request);
      if users != s.users {
        var record := PasswordHash(cfg, request.next, request.salt);
        var id :| OnlyRehashes(cfg, s, request, users, id, record);
      }
    }
  }

  lemma StepKeeps(cfg: Config, s: State, request: Request)
    requires Inv(cfg, s)
    ensures Inv(cfg, Step(cfg, s, request).0)
  {
    StepKeepsUnique(cfg, s, request);
    StepKeepsSessionsOk(cfg, s, request);
    StepKeepsHashesPrinted(cfg, s, request);
  }

  lemma StepKeepsAs(cfg: Config, s: State, request: Request, after: State)
    requires Inv(cfg, s) && after == Step(cfg, s, request).0
    ensures Inv(cfg, after)
  {
    StepKeeps(cfg, s, request);
  }

  lemma {:induction false} RunKeeps(cfg: Config, s: State, requests: seq<Request>)
    requires Inv(cfg, s)
    ensures Inv(cfg, Run(cfg, s, requests))
    decreases |requests|
  {
    if requests != [] {
      StepKeeps(cfg, s, requests[0]);
      RunKeeps(cfg, Step(cfg, s, requests[0]).0, requests[1..]);
    }
  }
}
