/** The account service: the user and session tables it updates in place, request by request. */
module IdentityServer {
  import opened Common
  import opened Identity
  import opened IdentityInvariant
  import opened IdentityTheorems
  import opened Pbkdf2
  import Password

  datatype PublicSession = PublicSession(id: string, current: bool, expires: int, created: int)

  predicate Shows(item: PublicSession, session: Session, currentHash: string) {
    item.expires == session.expires && item.created == session.created
    && (item.current <==> session.hash == currentHash)
  }

  ghost predicate Lists(items: seq<PublicSession>, k: string) {
    exists i :: 0 <= i < |items| && items[i].id == k
  }

  function Public(id: string, session: Session, currentHash: string): PublicSession {
    PublicSession(id, session.hash == currentHash, session.expires, session.created)
  }

  /** `items` shows what was taken from `records` so far, newest first, each once. */
  ghost predicate IsListing(sessions: Sessions, records: set<string>, left: set<string>, items: seq<PublicSession>,
                            currentHash: string)
  {
    && left <= records <= sessions.Keys
    && (forall k :: k in records - left <==> Lists(items, k))
    && (forall i, j :: 0 <= i < j < |items| ==> items[i].id != items[j].id && items[i].created >= items[j].created)
    && (forall i, k :: 0 <= i < |items| && k in left ==> items[i].created >= sessions[k].created)
    && (forall i :: 0 <= i < |items| ==>
          items[i].id in records && items[i].id !in left && Shows(items[i], sessions[items[i].id], currentHash))
  }

  lemma ListsNext(sessions: Sessions, records: set<string>, left: set<string>, items: seq<PublicSession>,
                  currentHash: string, k: string)
    requires IsListing(sessions, records, left, items, currentHash) && IsNewest(sessions, left, k)
    ensures IsListing(sessions, records, left - {k}, items + [Public(k, sessions[k], currentHash)], currentHash)
  {
    ListsOneMore(items, Public(k, sessions[k], currentHash));
    assert forall x :: x in records - (left - {k}) <==> x in records - left || x == k;
  }

  lemma ListsOneMore(items: seq<PublicSession>, item: PublicSession)
    ensures forall k :: Lists(items + [item], k) <==> Lists(items, k) || k == item.id
  {
    forall k ensures Lists(items + [item], k) <==> Lists(items, k) || k == item.id {
      assert (items + [item])[|items|] == item;
      if Lists(items, k) {
        var i :| 0 <= i < |items| && items[i].id == k;
        assert (items + [item])[i].id == k;
      }
    }
  }

  class AccountStore {
    const cfg: Config
    const prf: Prf
    var users: Users
    var sessions: Sessions
    ghost var issued: set<string>

    constructor (cfg: Config, prf: Prf, users: Users)
      requires EmailsUnique(users) && SubjectsUnique(users) && HashesPrinted(cfg, users)
      requires Injective(cfg.hash) && cfg.UsesRecords(prf)
      ensures Valid() && this.cfg == cfg && this.prf == prf && this.users == users && sessions == map[] && issued == {}
    {
      this.cfg, this.prf, this.users, sessions, issued := cfg, prf, users, map[], {};
    }

    /** The tables at the time a request runs. */
    ghost function At(now: int): State
      reads this
    {
      State(users, sessions, now, issued)
    }

    /** The unique indexes. */
    ghost predicate Indexed()
      reads this
    {
      EmailsUnique(users) && SubjectsUnique(users) && HashesUnique(sessions)
    }

    /** What every service call keeps, at any time. */
    ghost predicate Valid()
      reads this
    {
      Inv(cfg, At(0)) && Injective(cfg.hash) && cfg.UsesRecords(prf)
    }

    // ---- The repository.

    method FindByEmail(email: string) returns (id: Option<string>)
      requires Indexed()
      ensures id == ByEmail(users, email)
    {
      if k :| k in users && users[k].email == email {
        EmailFinds(users, k);
        id := Some(k);
      } else {
        id := None;
      }
    }

    method FindByOIDCSubject(subject: string) returns (id: Option<string>)
      requires Indexed()
      ensures id == BySubject(users, subject)
    {
      if k :| k in users && users[k].subject == Some(subject) {
        SubjectFinds(users, k, subject);
        id := Some(k);
      } else {
        id := None;
      }
    }

    method FindSessionByTokenHash(hash: string) returns (id: Option<string>)
      requires Indexed()
      ensures id == ByHash(sessions, hash)
    {
      if k :| k in sessions && sessions[k].hash == hash {
        HashFinds(sessions, k);
        id := Some(k);
      } else {
        id := None;
      }
    }

    method CreateUser(id: string, u: User) returns (ok: bool)
      requires Indexed()
      modifies this`users
      ensures Indexed()
      ensures ok == CanInsert(old(users), id, u)
      ensures users == if ok then old(users)[id := u] else old(users)
    {
      ok := CanInsert(users, id, u);
      if ok {
        InsertKeepsUnique(users, id, u);
        users := users[id := u];
      }
    }

    method SetOIDCSubject(id: string, subject: string) returns (ok: bool)
      requires Indexed() && id in users
      modifies this`users
      ensures Indexed()
      ensures ok == SubjectIsFree(old(users), id, subject)
      ensures users == if ok then old(users)[id := old(users)[id].(subject := Some(subject))] else old(users)
    {
      ok := SubjectIsFree(users, id, subject);
      if ok {
        ReplaceKeepsUnique(users, id, users[id].(subject := Some(subject)));
        users := users[id := users[id].(subject := Some(subject))];
      }
    }

    /** UPDATE users with COALESCE; the email index may refuse it. */
    method UpdateRow(id: string, change: Change) returns (ok: bool)
      requires Indexed() && id in users
      modifies this`users
      ensures Indexed()
      ensures ok == (change.email.Some? ==> EmailIsFree(old(users), id, change.email.value))
      ensures users == if ok then old(users)[id := Changed(old(users)[id], change)] else old(users)
    {
      ok := change.email.None? || EmailIsFree(users, id, change.email.value);
      if ok {
        ReplaceKeepsUnique(users, id, Changed(users[id], change));
        users := users[id := Changed(users[id], change)];
      }
    }

    method DeleteSessionByTokenHash(hash: string)
      requires Indexed()
      modifies this`sessions
      ensures Indexed()
      ensures forall k :: k in sessions <==> k in old(sessions) && old(sessions)[k].hash != hash
      ensures forall k :: k in sessions ==> sessions[k] == old(sessions)[k]
    {
      sessions := WithoutHash(sessions, hash);
    }

    method SetPasswordHash(id: string, record: string)
      requires Indexed() && id in users
      modifies this`users
      ensures Indexed()
      ensures users == old(users)[id := old(users)[id].(passwordHash := Some(record))]
    {
      ReplaceKeepsUnique(users, id, users[id].(passwordHash := Some(record)));
      users := users[id := users[id].(passwordHash := Some(record))];
    }

    method SetName(id: string, name: string)
      requires Indexed() && id in users
      modifies this`users
      ensures Indexed()
      ensures users == old(users)[id := old(users)[id].(name := name)]
    {
      ReplaceKeepsUnique(users, id, users[id].(name := name));
      users := users[id := users[id].(name := name)];
    }

    method NewPasswordHash(password: Bytes, salt: Bytes) returns (record: string)
      requires |salt| == Password.SALT_BYTES && cfg.UsesRecords(prf)
      ensures record == PasswordHash(cfg, password, salt) && Checked(cfg, password, record) == Password.Accepted
    {
      record := Password.HashPassword(prf, password, cfg.pepper, salt);
    }

    method CheckPassword(password: Bytes, record: string) returns (verdict: Password.Verdict)
      requires cfg.UsesRecords(prf)
      ensures verdict == Checked(cfg, password, record)
    {
      verdict := Password.VerifyPassword(prf, password, cfg.pepper, record);
    }

    // ---- Sessions.

    method CreateSession(user: string, draw: Draw, now: int) returns (reply: Reply)
      requires Indexed()
      modifies this`sessions, this`issued
      ensures Indexed()
      ensures (At(now), reply) == OpenSession(cfg, old(At(now)), user, draw)
    {
      var hash := cfg.hash(draw.token);
      var existing := FindSessionByTokenHash(hash);
      if !draw.stored || draw.sessionId in sessions || existing.Some? { return StoreFailed; }
      sessions := sessions[draw.sessionId := Session(user, hash, now + cfg.ttl, now)];
      issued := issued + {draw.token};
      reply := SignedIn(user);
    }

    /** Authenticates the caller of a request; deletes the session of the token when it has expired. */
    method Authenticate(token: string, now: int) returns (user: Option<string>)
      requires Indexed()
      modifies this`sessions
      ensures Indexed()
      ensures user == Authenticated(cfg, old(At(now)), token)
      ensures At(now) == Presented(cfg, old(At(now)), token)
      ensures user.Some? ==> sessions == old(sessions)
    {
      if token == "" { return None; }
      var found := FindSessionByTokenHash(cfg.hash(token));
      if found.None? { return None; }
      var session := sessions[found.value];
      if session.expires <= now {
        DeleteSessionByTokenHash(session.hash);
        return None;
      }
      if session.user !in users || users[session.user].disabled { return None; }
      user := Some(session.user);
    }

    /** A session that is presented too late is gone, and its token never authenticates again. */
    method CurrentUser(token: string, now: int) returns (user: Option<string>)
      requires Valid()
      modifies this`sessions
      ensures Valid()
      ensures user == Authenticated(cfg, old(At(now)), token)
      ensures At(now) == Presented(cfg, old(At(now)), token)
      ensures user.Some? ==> user.value in users && !users[user.value].disabled
      ensures token in issued && !Live(cfg, old(At(now)), token) ==> IsOut(cfg, At(now), token)
    {
      StepKeepsAs(cfg, At(now), Request.CurrentUser(token), Presented(cfg, At(now), token));
      if token in issued && !Live(cfg, At(now), token) { PresentedIsOut(cfg, At(now), token); }
      user := Authenticate(token, now);
    }

    /** Afterwards the token authenticates nobody, and if it ever was a token, nobody ever again. */
    method Logout(token: string, now: int)
      requires Valid()
      modifies this`sessions
      ensures Valid()
      ensures At(now) == DoLogout(cfg, old(At(now)), token).0
      ensures Authenticated(cfg, At(now), token).None?
      ensures token in issued && token != "" ==> IsOut(cfg, At(now), token)
    {
      StepKeepsAs(cfg, At(now), Request.Logout(token), DoLogout(cfg, At(now), token).0);
      LoggedOutIsOut(cfg, At(now), token);
      EndSession(token, now);
    }

    method EndSession(token: string, now: int)
      requires Indexed()
      modifies this`sessions
      ensures At(now) == DoLogout(cfg, old(At(now)), token).0
    {
      if token != "" {
        DeleteSessionByTokenHash(cfg.hash(token));
      }
    }

    /** The caller's own session stays; the token of a revoked session never authenticates again. */
    method RevokeSession(token: string, sessionId: string, now: int) returns (reply: Reply)
      requires Valid()
      modifies this`sessions
      ensures Valid()
      ensures (At(now), reply) == DoRevoke(cfg, old(At(now)), token, sessionId)
      ensures Authenticated(cfg, old(At(now)), token).Some? ==>
                Authenticated(cfg, At(now), token) == Authenticated(cfg, old(At(now)), token)
      ensures reply == Done <==>
                var user := Authenticated(cfg, old(At(now)), token);
                && user.Some? && user.value != "" && sessionId != "" && sessionId in old(sessions)
                && old(sessions)[sessionId].user == user.value && old(sessions)[sessionId].hash != cfg.hash(token)
      ensures reply == Done ==>
                sessionId in old(sessions) && sessions == old(sessions) - {sessionId}
                && forall t :: t in issued && cfg.hash(t) == old(sessions)[sessionId].hash ==> IsOut(cfg, At(now), t)
    {
      StepKeepsAs(cfg, At(now), Request.Revoke(token, sessionId), DoRevoke(cfg, At(now), token, sessionId).0);
      if Authenticated(cfg, At(now), token).Some? { RevokerStaysIn(cfg, At(now), token, sessionId); }
      if DoRevoke(cfg, At(now), token, sessionId).1 == Done { RevokedTokensAreOut(cfg, At(now), token, sessionId); }
      reply := Revoke(token, sessionId, now);
    }

    method Revoke(token: string, sessionId: string, now: int) returns (reply: Reply)
      requires Indexed()
      modifies this`sessions
      ensures (At(now), reply) == DoRevoke(cfg, old(At(now)), token, sessionId)
    {
      var user := Authenticate(token, now);
      if user.None? { return Unauthenticated; }
      if user.value == "" || sessionId == "" { return InvalidInput; }
      if sessionId !in sessions || sessions[sessionId].user != user.value { return SessionForbidden; }
      if sessions[sessionId].hash == cfg.hash(token) { return Reply.CurrentSession; }
      sessions := sessions - {sessionId};
      reply := Done;
    }

    /**
      The unexpired sessions of a user, each once, newest first, with the caller's own marked;
      nothing when unauthenticated.
     */
    method ListSessions(user: string, token: string, now: int) returns (items: Option<seq<PublicSession>>)
      ensures items.None? <==> user == "" || token == ""
      ensures items.Some? ==> forall k ::
                Lists(items.value, k) <==> k in sessions && sessions[k].user == user && now < sessions[k].expires
      ensures items.Some? ==> forall i, j :: 0 <= i < j < |items.value| ==>
                items.value[i].id != items.value[j].id && items.value[i].created >= items.value[j].created
      ensures items.Some? ==> forall i :: 0 <= i < |items.value| ==>
                items.value[i].id in sessions && Shows(items.value[i], sessions[items.value[i].id], cfg.hash(token))
    {
      if user == "" || token == "" { return None; }
      var records := set k | k in sessions && sessions[k].user == user && now < sessions[k].expires;
      var currentHash := cfg.hash(token);
      var listed: seq<PublicSession> := [];
      var left := records;
      while left != {}
        invariant IsListing(sessions, records, left, listed, currentHash)
        decreases left
      {
        NewestExists(sessions, left);
        var k :| k in left && IsNewest(sessions, left, k);
        ListsNext(sessions, records, left, listed, currentHash, k);
        listed := listed + [Public(k, sessions[k], currentHash)];
        left := left - {k};
      }
      assert records - left == records;
      items := Some(listed);
    }

    // ---- Local accounts.

    /**
      Goes through exactly for a proper and unused email, a name and 8 bytes of password, and then adds one enabled
      local user, no administrator, whose record accepts the password.
     */
    method Register(email: string, name: string, password: Bytes, id: string, salt: Bytes, now: int)
      returns (reply: Reply)
      requires Valid() && |salt| == Password.SALT_BYTES
      modifies this`users
      ensures Valid()
      ensures (At(now), reply) ==
              DoRegister(cfg, old(At(now)), email, name, password, id, PasswordHash(cfg, password, salt))
      ensures reply == Done <==>
                cfg.validEmail(cfg.normal(email)) && cfg.trim(name) != "" && |password| >= 8 && id !in old(users)
                && ByEmail(old(users), cfg.normal(email)).None?
      ensures reply != Done ==> users == old(users)
      ensures reply == Done ==>
                BySomeRecord(users, cfg.normal(email), id)
                && users == old(users)[id := users[id]]
                && users[id].email == cfg.normal(email) && users[id].name == cfg.trim(name)
                && users[id].source == Local && users[id].subject.None? && !users[id].isAdmin && !users[id].disabled
                && Checked(cfg, password, users[id].passwordHash.value) == Password.Accepted
    {
      StepKeepsAs(cfg, At(now), Request.Register(email, name, password, id, salt),
                  DoRegister(cfg, At(now), email, name, password, id, PasswordHash(cfg, password, salt)).0);
      var record := NewPasswordHash(password, salt);
      reply := RegisterWith(email, name, password, id, record, now);
      if reply == Done {
        EmailFinds(users, id);
      }
    }

    method RegisterWith(email: string, name: string, password: Bytes, id: string, record: string, now: int)
      returns (reply: Reply)
      requires Indexed()
      modifies this`users
      ensures (At(now), reply) == DoRegister(cfg, old(At(now)), email, name, password, id, record)
      ensures reply == Done ==>
                var u := User(cfg.normal(email), cfg.trim(name), Some(record), Local, None, false, false);
                users == old(users)[id := u]
    {
      var mail, shown := cfg.normal(email), cfg.trim(name);
      if !cfg.validEmail(mail) || shown == "" || |password| < 8 { return InvalidInput; }
      var ok := CreateUser(id, User(mail, shown, Some(record), Local, None, false, false));
      reply := if ok then Done else EmailTaken;
    }

    /**
      Never panics. Only the enabled local user with the email and an accepted password is signed in, by a session
      that ends `ttl` from now and whose token authenticates them.
     */
    method Login(email: string, password: Bytes, draw: Draw, now: int) returns (reply: Reply)
      requires Valid() && IsFresh(At(now), draw)
      modifies this`sessions, this`issued
      ensures Valid()
      ensures (At(now), reply) == DoLogin(cfg, old(At(now)), email, password, draw)
      ensures reply != Reply.Panicked
      ensures reply.SignedIn? ==> MayLogIn(cfg, users, email, password, reply.user)
      ensures Opens(cfg, old(sessions), sessions, reply, draw, now)
      ensures reply.SignedIn? && cfg.ttl > 0 ==> Authenticated(cfg, At(now), draw.token) == Some(reply.user)
    {
      StepKeepsAs(cfg, At(now), Request.Login(email, password, draw), DoLogin(cfg, At(now), email, password, draw).0);
      LoginNeverPanics(cfg, prf, At(now), email, password, draw);
      LoginSignsIn(cfg, At(now), email, password, draw);
      if DoLogin(cfg, At(now), email, password, draw).1.SignedIn? && cfg.ttl > 0 {
        LoggedInIsIn(cfg, At(now), email, password, draw);
      }
      reply := LoginWith(email, password, draw, now);
    }

    method LoginWith(email: string, password: Bytes, draw: Draw, now: int) returns (reply: Reply)
      requires Indexed() && cfg.UsesRecords(prf) && IsFresh(At(now), draw)
      modifies this`sessions, this`issued
      ensures (At(now), reply) == DoLogin(cfg, old(At(now)), email, password, draw)
    {
      var mail := cfg.normal(email);
      if !cfg.validEmail(mail) || password == [] { return InvalidCredentials; }
      var id := FindByEmail(mail);
      if id.None? { return InvalidCredentials; }
      var u := users[id.value];
      if u.disabled || u.source != Local || u.passwordHash.None? { return InvalidCredentials; }
      var verdict := CheckPassword(password, u.passwordHash.value);
      if verdict == Password.Panicked { return Reply.Panicked; }
      if verdict == Password.Rejected { return InvalidCredentials; }
      reply := CreateSession(id.value, draw, now);
    }

    /**
      Goes through exactly when a local user asks with the password that their record accepts, never panics, and
      changes that record only: to one that accepts the new password.
     */
    method ChangePassword(token: string, current: Bytes, next: Bytes, salt: Bytes, now: int) returns (reply: Reply)
      requires Valid() && |salt| == Password.SALT_BYTES
      modifies this`users, this`sessions
      ensures Valid()
      ensures (At(now), reply) ==
              DoChangePassword(cfg, old(At(now)), token, current, next, PasswordHash(cfg, next, salt))
      ensures reply != Reply.Panicked
      ensures var user := Authenticated(cfg, old(At(now)), token);
              var proper := user.Some? && MayChange(old(users), user.value, current, next);
              && (reply == Done <==>
                  proper && Checked(cfg, current, old(users)[user.value].passwordHash.value) == Password.Accepted)
              && (reply == InvalidCredentials <==>
                  proper && Checked(cfg, current, old(users)[user.value].passwordHash.value) == Password.Rejected)
      ensures reply != Done ==> users == old(users)
      ensures reply == Done ==>
                var id := Authenticated(cfg, old(At(now)), token).value;
                id in users && users[id].passwordHash.Some?
                && users == old(users)[id := old(users)[id].(passwordHash := users[id].passwordHash)]
                && Checked(cfg, next, users[id].passwordHash.value) == Password.Accepted
    {
      StepKeepsAs(cfg, At(now), Request.ChangePassword(token, current, next, salt),
                  DoChangePassword(cfg, At(now), token, current, next, PasswordHash(cfg, next, salt)).0);
      ChangePasswordNeverPanics(cfg, prf, At(now), token, current, next, PasswordHash(cfg, next, salt));
      var record := NewPasswordHash(next, salt);
      reply := ChangePasswordTo(token, current, next, record, now);
    }

    method ChangePasswordTo(token: string, current: Bytes, next: Bytes, record: string, now: int) returns (reply: Reply)
      requires Indexed() && cfg.UsesRecords(prf)
      modifies this`users, this`sessions
      ensures (At(now), reply) == DoChangePassword(cfg, old(At(now)), token, current, next, record)
      ensures reply == Done ==>
                Authenticated(cfg, old(At(now)), token).Some?
                && var id := Authenticated(cfg, old(At(now)), token).value;
                   id in users && users == old(users)[id := old(users)[id].(passwordHash := Some(record))]
    {
      var user := Authenticate(token, now);
      if user.None? { return Unauthenticated; }
      var id := user.value;
      if id == "" || current == [] || |next| < 8 { return InvalidInput; }
      if users[id].source != Local || users[id].passwordHash.None? { return PasswordUnsupported; }
      var verdict := CheckPassword(current, users[id].passwordHash.value);
      if verdict == Password.Panicked { return Reply.Panicked; }
      if verdict == Password.Rejected { return InvalidCredentials; }
      SetPasswordHash(id, record);
      reply := Done;
    }

    /** Goes through exactly for an authenticated caller with a proper name, and then changes the caller's name only. */
    method UpdateProfile(token: string, name: string, now: int) returns (reply: Reply)
      requires Valid()
      modifies this`users, this`sessions
      ensures Valid()
      ensures (At(now), reply) == DoUpdateProfile(cfg, old(At(now)), token, name)
      ensures reply == Done <==>
                Authenticated(cfg, old(At(now)), token).Some? && Authenticated(cfg, old(At(now)), token).value != ""
                && 0 < |cfg.trim(name)| <= 120
      ensures reply != Done ==> users == old(users)
      ensures reply == Done ==>
                var id := Authenticated(cfg, old(At(now)), token).value;
                users == old(users)[id := old(users)[id].(name := cfg.trim(name))]
    {
      StepKeepsAs(cfg, At(now), Request.UpdateProfile(token, name), DoUpdateProfile(cfg, At(now), token, name).0);
      reply := UpdateProfileWith(token, name, now);
    }

    method UpdateProfileWith(token: string, name: string, now: int) returns (reply: Reply)
      requires Indexed()
      modifies this`users, this`sessions
      ensures (At(now), reply) == DoUpdateProfile(cfg, old(At(now)), token, name)
      ensures reply == Done <==>
                Authenticated(cfg, old(At(now)), token).Some? && Authenticated(cfg, old(At(now)), token).value != ""
                && 0 < |cfg.trim(name)| <= 120
      ensures reply != Done ==> users == old(users)
      ensures reply == Done ==>
                var id := Authenticated(cfg, old(At(now)), token).value;
                users == old(users)[id := old(users)[id].(name := cfg.trim(name))]
    {
      var user := Authenticate(token, now);
      if user.None? { return Unauthenticated; }
      var shown := cfg.trim(name);
      if user.value == "" || shown == "" || |shown| > MAX_NAME { return InvalidInput; }
      SetName(user.value, shown);
      reply := Done;
    }

    // ---- OIDC.

    method UpsertOIDCUser(p: Profile, id: string) returns (reply: Reply)
      requires Indexed()
      modifies this`users
      ensures Indexed()
      ensures (users, reply) == Upserted(cfg, old(users), p, id)
    {
      var known := FindByOIDCSubject(p.subject);
      if known.Some? {
        return if users[known.value].disabled then InvalidCredentials else SignedIn(known.value);
      }
      var existing := FindByEmail(p.email);
      if existing.Some? {
        if !cfg.autoMerge { return EmailConflict; }
        if users[existing.value].disabled { return InvalidCredentials; }
        var ok := SetOIDCSubject(existing.value, p.subject);
        return if ok then SignedIn(existing.value) else EmailTaken;
      }
      var ok := CreateUser(id, User(p.email, p.name, None, Oidc, Some(p.subject), false, false));
      reply := if ok then SignedIn(id) else EmailConflict;
    }

    /**
      The user signed in had the profile's subject, or had its email while merging is on, or is new with the profile's
      data. Their session ends `ttl` from now, its token authenticates them, and the subject is bound to them.
     */
    method Callback(profile: Profile, tokenSubject: string, id: string, draw: Draw, now: int) returns (reply: Reply)
      requires Valid() && IsFresh(At(now), draw)
      modifies this
      ensures Valid()
      ensures (At(now), reply) == DoCallback(cfg, old(At(now)), profile, tokenSubject, id, draw)
      ensures reply.SignedIn? ==> IsUserOf(cfg, old(users), users, profile, tokenSubject, id, reply.user)
      ensures Opens(cfg, old(sessions), sessions, reply, draw, now)
      ensures reply.SignedIn? && cfg.ttl > 0 ==>
                Authenticated(cfg, At(now), draw.token) == Some(reply.user)
                && BySubject(users, if cfg.trim(profile.subject) == "" then tokenSubject else cfg.trim(profile.subject))
                   == Some(reply.user)
    {
      StepKeepsAs(cfg, At(now), Request.Callback(profile, tokenSubject, id, draw),
                  DoCallback(cfg, At(now), profile, tokenSubject, id, draw).0);
      CallbackSignsIn(cfg, At(now), profile, tokenSubject, id, draw);
      if DoCallback(cfg, At(now), profile, tokenSubject, id, draw).1.SignedIn? && cfg.ttl > 0 {
        CalledBackIsIn(cfg, At(now), profile, tokenSubject, id, draw);
      }
      reply := CallbackWith(profile, tokenSubject, id, draw, now);
    }

    method CallbackWith(profile: Profile, tokenSubject: string, id: string, draw: Draw, now: int) returns (reply: Reply)
      requires Indexed() && IsFresh(At(now), draw)
      modifies this
      ensures (At(now), reply) == DoCallback(cfg, old(At(now)), profile, tokenSubject, id, draw)
    {
      var p := Normalised(cfg, profile, tokenSubject);
      if p.subject == "" || p.email == "" { return InvalidToken; }
      reply := UpsertOIDCUser(p, id);
      if reply.SignedIn? {
        reply := CreateSession(reply.user, draw, now);
      }
    }

    // ---- Administration.

    /** `actor` and `actorIsAdmin` are the caller as authenticated before. */
    method AdminUpdateUser(actor: string, actorIsAdmin: bool, target: string, change: Change) returns (reply: Reply)
      requires Indexed()
      modifies this`users
      ensures Indexed()
      ensures (users, reply) == AdminUpdated(cfg, old(users), actor, actorIsAdmin, target, change)
    {
      if !actorIsAdmin || target == "" { return InvalidInput; }
      if target == actor && (change.isAdmin == Some(false) || change.disabled == Some(true)) { return InvalidInput; }
      if target !in users { return NotFound; }
      if (change.name.Some? || change.email.Some?) && users[target].source != Local { return PasswordUnsupported; }
      var clean := Cleaned(cfg, change);
      if clean.name.Some? && (clean.name.value == "" || |clean.name.value| > MAX_NAME) { return InvalidInput; }
      if clean.email.Some? && !cfg.validEmail(clean.email.value) { return InvalidInput; }
      var ok := UpdateRow(target, clean);
      reply := if ok then Done else EmailTaken;
    }

    /**
      The route: authentication, the administrator check, then the service call. It leaves an
      enabled administrator, and when it went through the caller is still one.
     */
    method AdminUpdateRoute(token: string, target: string, change: Change, now: int) returns (reply: Reply)
      requires Valid()
      modifies this`users, this`sessions
      ensures Valid()
      ensures (At(now), reply) == DoAdminUpdate(cfg, old(At(now)), token, target, change)
      ensures EnabledAdmins(old(users)) != {} ==> EnabledAdmins(users) != {}
      ensures reply != Done ==> users == old(users)
      ensures reply == Done <==>
                var actor := Authenticated(cfg, old(At(now)), token);
                actor.Some? && MayEdit(cfg, old(users), actor.value, target, change)
      ensures reply == Done ==>
                Authenticated(cfg, old(At(now)), token).Some?
                && Authenticated(cfg, old(At(now)), token).value in EnabledAdmins(users)
      ensures reply == Done ==>
                target in old(users) && target in users && IsEdited(cfg, old(users)[target], users[target], change)
                && users == old(users)[target := users[target]]
    {
      StepKeepsAs(cfg, At(now), Request.AdminUpdate(token, target, change),
                  DoAdminUpdate(cfg, At(now), token, target, change).0);
      if EnabledAdmins(users) != {} { AdminUpdateLeavesAdmin(cfg, At(now), token, target, change); }
      if DoAdminUpdate(cfg, At(now), token, target, change).1 == Done {
        AdminUpdateByAdmin(cfg, At(now), token, target, change);
      }
      AdminUpdateEdits(cfg, At(now), token, target, change);
      reply := AdminUpdateWith(token, target, change, now);
    }

    method AdminUpdateWith(token: string, target: string, change: Change, now: int) returns (reply: Reply)
      requires Indexed()
      modifies this`users, this`sessions
      ensures (At(now), reply) == DoAdminUpdate(cfg, old(At(now)), token, target, change)
    {
      var actor := Authenticate(token, now);
      if actor.None? { return Unauthenticated; }
      if !users[actor.value].isAdmin { return Forbidden; }
      reply := AdminUpdateUser(actor.value, users[actor.value].isAdmin, target, change);
    }

    /**
      Goes through exactly for an enabled administrator, an existing local user with a record and 8 bytes of password,
      and changes that record only: to one that accepts the new password.
     */
    method AdminResetPassword(token: string, target: string, next: Bytes, salt: Bytes, now: int) returns (reply: Reply)
      requires Valid() && |salt| == Password.SALT_BYTES
      modifies this`users, this`sessions
      ensures Valid()
      ensures (At(now), reply) ==
              DoAdminResetPassword(cfg, old(At(now)), token, target, next, PasswordHash(cfg, next, salt))
      ensures reply == Done <==>
                var actor := Authenticated(cfg, old(At(now)), token);
                && actor.Some? && old(users)[actor.value].isAdmin && |next| >= 8
                && target != "" && target in old(users) && old(users)[target].source == Local
                && old(users)[target].passwordHash.Some?
      ensures reply != Done ==> users == old(users)
      ensures reply == Done ==>
                target in users && users[target].passwordHash.Some?
                && users == old(users)[target := old(users)[target].(passwordHash := users[target].passwordHash)]
                && Checked(cfg, next, users[target].passwordHash.value) == Password.Accepted
    {
      StepKeepsAs(cfg, At(now), Request.AdminResetPassword(token, target, next, salt),
                  DoAdminResetPassword(cfg, At(now), token, target, next, PasswordHash(cfg, next, salt)).0);
      var record := NewPasswordHash(next, salt);
      reply := AdminResetPasswordTo(token, target, next, record, now);
    }

    method AdminResetPasswordTo(token: string, target: string, next: Bytes, record: string, now: int)
      returns (reply: Reply)
      requires Indexed()
      modifies this`users, this`sessions
      ensures (At(now), reply) == DoAdminResetPassword(cfg, old(At(now)), token, target, next, record)
      ensures reply == Done ==>
                target in old(users)
                && users == old(users)[target := old(users)[target].(passwordHash := Some(record))]
    {
      var actor := Authenticate(token, now);
      if actor.None? { return Unauthenticated; }
      if !users[actor.value].isAdmin { return Forbidden; }
      if target == "" || |next| < 8 { return InvalidInput; }
      if target !in users { return NotFound; }
      if users[target].source != Local || users[target].passwordHash.None? { return PasswordUnsupported; }
      SetPasswordHash(target, record);
      reply := Done;
    }
  }

  // ---- What the calls promise, on the tables as values.

  ghost predicate BySomeRecord(users: Users, email: string, id: string) {
    ByEmail(users, email) == Some(id) && users[id].passwordHash.Some?
  }

  /** The user with this email is local and enabled, and the stored record accepts the password. */
  ghost predicate MayLogIn(cfg: Config, users: Users, email: string, password: Bytes, id: string) {
    ByEmail(users, cfg.normal(email)) == Some(id) && !users[id].disabled && users[id].source == Local
    && users[id].passwordHash.Some? && Checked(cfg, password, users[id].passwordHash.value) == Password.Accepted
  }

  /** A sign-in adds one session, which ends `ttl` from now; anything else adds none. */
  predicate Opens(cfg: Config, before: Sessions, after: Sessions, reply: Reply, draw: Draw, now: int) {
    after == if reply.SignedIn?
             then before[draw.sessionId := Session(reply.user, cfg.hash(draw.token), now + cfg.ttl, now)] else before
  }

  /** The user had the profile's subject, or its email while merging is on, or is new with the profile's data. */
  predicate IsUserOf(cfg: Config, before: Users, after: Users, profile: Profile, tokenSubject: string, newId: string,
                     id: string)
  {
    var subject := if cfg.trim(profile.subject) == "" then tokenSubject else cfg.trim(profile.subject);
    var email, shown := cfg.normal(profile.email), cfg.trim(profile.name);
    && subject != "" && email != ""
    && if id in before then
         after == before[id := before[id].(subject := Some(subject))]
         && (before[id].subject == Some(subject) || (cfg.autoMerge && before[id].email == email))
       else
         id == newId
         && var name := if shown == "" then email else shown;
            after == before[id := User(email, name, None, Oidc, Some(subject), false, false)]
  }

  /**
    An administrator's edit that goes through: nobody demotes or disables themselves, only local users get another
    name or email, names are trimmed and short, and emails valid and unused.
   */
  predicate MayEdit(cfg: Config, users: Users, actor: string, target: string, change: Change) {
    && actor in users && users[actor].isAdmin && target != "" && target in users
    && (target == actor ==> change.isAdmin != Some(false) && change.disabled != Some(true))
    && (change.name.Some? ==> users[target].source == Local && 0 < |cfg.trim(change.name.value)| <= 120)
    && (change.email.Some? ==>
          && users[target].source == Local && cfg.validEmail(cfg.normal(change.email.value))
          && forall k :: k in users && users[k].email == cfg.normal(change.email.value) ==> k == target)
  }

  /** The columns that were sent are set, cleaned; every other one stays. */
  predicate IsEdited(cfg: Config, u: User, v: User, change: Change) {
    && v.name == (if change.name.Some? then cfg.trim(change.name.value) else u.name)
    && v.email == (if change.email.Some? then cfg.normal(change.email.value) else u.email)
    && v.isAdmin == (if change.isAdmin.Some? then change.isAdmin.value else u.isAdmin)
    && v.disabled == (if change.disabled.Some? then change.disabled.value else u.disabled)
    && v.passwordHash == u.passwordHash && v.source == u.source && v.subject == u.subject
  }

  lemma LoginSignsIn(cfg: Config, s: State, email: string, password: Bytes, draw: Draw)
    ensures var (after, reply) := DoLogin(cfg, s, email, password, draw);
            && after.users == s.users && Opens(cfg, s.sessions, after.sessions, reply, draw, s.now)
            && (reply.SignedIn? ==> MayLogIn(cfg, s.users, email, password, reply.user))
  {
  }

  lemma CallbackSignsIn(cfg: Config, s: State, profile: Profile, tokenSubject: string, id: string, draw: Draw)
    ensures var (after, reply) := DoCallback(cfg, s, profile, tokenSubject, id, draw);
            && Opens(cfg, s.sessions, after.sessions, reply, draw, s.now)
            && (reply.SignedIn? ==> IsUserOf(cfg, s.users, after.users, profile, tokenSubject, id, reply.user))
  {
    var p := Normalised(cfg, profile, tokenSubject);
    var known := BySubject(s.users, p.subject);
    if known.Some? {
      assert s.users == s.users[known.value := s.users[known.value]];
    }
  }

  lemma AdminUpdateEdits(cfg: Config, s: State, token: string, target: string, change: Change)
    ensures var actor := Authenticated(cfg, s, token);
            DoAdminUpdate(cfg, s, token, target, change).1 == Done <==>
            actor.Some? && MayEdit(cfg, s.users, actor.value, target, change)
    ensures var (after, reply) := DoAdminUpdate(cfg, s, token, target, change);
            if reply == Done
            then target in s.users && target in after.users
                 && IsEdited(cfg, s.users[target], after.users[target], change)
                 && after.users == s.users[target := after.users[target]]
            else after.users == s.users
  {
  }

  lemma AdminUpdateLeavesAdmin(cfg: Config, s: State, token: string, target: string, change: Change)
    requires EnabledAdmins(s.users) != {}
    ensures EnabledAdmins(DoAdminUpdate(cfg, s, token, target, change).0.users) != {}
  {
    SomeAdminStays(cfg, s, Request.AdminUpdate(token, target, change));
  }

  lemma AdminUpdateByAdmin(cfg: Config, s: State, token: string, target: string, change: Change)
    requires DoAdminUpdate(cfg, s, token, target, change).1 == Done
    ensures Authenticated(cfg, s, token).Some?
    ensures Authenticated(cfg, s, token).value in EnabledAdmins(DoAdminUpdate(cfg, s, token, target, change).0.users)
  {
  }

  lemma RevokedTokensAreOut(cfg: Config, s: State, token: string, sessionId: string)
    requires SessionsOk(cfg, s) && Injective(cfg.hash) && DoRevoke(cfg, s, token, sessionId).1 == Done
    ensures sessionId in s.sessions && sessionId !in DoRevoke(cfg, s, token, sessionId).0.sessions
    ensures forall t :: t in s.issued && cfg.hash(t) == s.sessions[sessionId].hash ==>
              IsOut(cfg, DoRevoke(cfg, s, token, sessionId).0, t)
  {
    forall t | t in s.issued && cfg.hash(t) == s.sessions[sessionId].hash
      ensures IsOut(cfg, DoRevoke(cfg, s, token, sessionId).0, t)
    {
      RevokedIsOut(cfg, s, token, sessionId, t);
    }
  }

  lemma PresentedIsOut(cfg: Config, s: State, token: string)
    requires Injective(cfg.hash) && token in s.issued && !Live(cfg, s, token)
    ensures IsOut(cfg, Presented(cfg, s, token), token)
  {
    StepKeepsDead(cfg, s, Request.CurrentUser(token), token);
    DeadIsOut(cfg, Presented(cfg, s, token), token);
  }

  // ---- The order of the session listing.

  predicate IsNewest(sessions: Sessions, left: set<string>, k: string) {
    k in left && k in sessions
    && forall m :: m in left ==> m in sessions && sessions[m].created <= sessions[k].created
  }

  lemma {:induction false} NewestExists(sessions: Sessions, left: set<string>)
    requires left != {} && left <= sessions.Keys
    ensures exists k :: IsNewest(sessions, left, k)
    decreases |left|
  {
    var x :| x in left;
    if left == {x} {
      assert IsNewest(sessions, left, x);
    } else {
      NewestExists(sessions, left - {x});
      var y :| IsNewest(sessions, left - {x}, y);
      assert IsNewest(sessions, left, if sessions[x].created <= sessions[y].created then y else x);
    }
  }
}
