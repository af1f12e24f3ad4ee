/**
  Users, sessions and the requests that change them: local registration and login, OIDC callbacks,
  session revocation and admin edits. Every request, with its authentication, is one atomic step.
 */
module Identity {
  import opened Common
  import opened Pbkdf2
  import Password

  const MAX_NAME: nat := 120

  datatype Source = Local | Oidc

  datatype User = User(email: string, name: string, passwordHash: Option<string>, source: Source,
                       subject: Option<string>, isAdmin: bool, disabled: bool)

  datatype Session = Session(user: string, hash: string, expires: int, created: int)

  type Users = map<string, User>
  type Sessions = map<string, Session>

  /** `issued` holds every session token that was ever handed out. */
  datatype State = State(users: Users, sessions: Sessions, now: int, issued: set<string>)

  /**
    Settings and the functions the services are built with; `hash` is the token hash, and hashing
    a password takes the salt it draws.
   */
  datatype Config = Config(autoMerge: bool, ttl: int, pepper: Bytes, hash: string -> string,
                           hashPassword: (Bytes, Bytes, Bytes) -> string,
                           verifyPassword: (Bytes, Bytes, string) -> Password.Verdict,
                           normal: string -> string, validEmail: string -> bool, trim: string -> string)
  {
    /** The two password functions are those of the password record, over some keyed function. */
    ghost predicate UsesRecords(prf: Prf) {
      (forall password, pepper, salt {:trigger Password.Record(prf, password + pepper, salt)} ::
         hashPassword(password, pepper, salt) == Password.Record(prf, password + pepper, salt))
      && (forall password, pepper, record {:trigger Password.Verify(prf, password + pepper, record)} ::
            verifyPassword(password, pepper, record) == Password.Verify(prf, password + pepper, record))
    }
  }

  /** What one sign-in draws, and whether its session row was stored. */
  datatype Draw = Draw(token: string, sessionId: string, stored: bool)

  datatype Profile = Profile(subject: string, email: string, name: string)

  /** The columns an administrator sends; an absent one stays. */
  datatype Change = Change(name: Option<string>, email: Option<string>, isAdmin: Option<bool>, disabled: Option<bool>)

  datatype Request =
    | Register(email: string, name: string, password: Bytes, id: string, salt: Bytes)
    | Login(email: string, password: Bytes, draw: Draw)
    | Callback(profile: Profile, tokenSubject: string, id: string, draw: Draw)
    | CurrentUser(token: string)
    | Logout(token: string)
    | Revoke(token: string, sessionId: string)
    | ChangePassword(token: string, current: Bytes, next: Bytes, salt: Bytes)
    | UpdateProfile(token: string, name: string)
    | AdminUpdate(token: string, target: string, change: Change)
    | AdminResetPassword(token: string, target: string, next: Bytes, salt: Bytes)
    | Tick(seconds: nat)

  datatype Reply =
    | Done
    | SignedIn(user: string)
    | InvalidInput | InvalidCredentials | InvalidToken
    | EmailTaken | EmailConflict
    | Unauthenticated | Forbidden | NotFound
    | SessionForbidden | CurrentSession
    | PasswordUnsupported
    | StoreFailed
    | Panicked
    | NotFresh

  // ---- Lookups by the unique columns.

  ghost function ByEmail(users: Users, email: string): (id: Option<string>)
    ensures id.Some? ==> id.value in users && users[id.value].email == email
    ensures id.None? ==> forall k :: k in users ==> users[k].email != email
  {
    if k :| k in users && users[k].email == email then Some(k) else None
  }

  ghost function BySubject(users: Users, subject: string): (id: Option<string>)
    ensures id.Some? ==> id.value in users && users[id.value].subject == Some(subject)
    ensures id.None? ==> forall k :: k in users ==> users[k].subject != Some(subject)
  {
    if k :| k in users && users[k].subject == Some(subject) then Some(k) else None
  }

  ghost function ByHash(sessions: Sessions, hash: string): (id: Option<string>)
    ensures id.Some? ==> id.value in sessions && sessions[id.value].hash == hash
    ensures id.None? ==> forall k :: k in sessions ==> sessions[k].hash != hash
  {
    if k :| k in sessions && sessions[k].hash == hash then Some(k) else None
  }

  // ---- Table operations.

  predicate CanInsert(users: Users, id: string, u: User) {
    id !in users
    && (forall k :: k in users ==> users[k].email != u.email)
    && (u.subject.Some? ==> forall k :: k in users ==> users[k].subject != u.subject)
  }

  predicate SubjectIsFree(users: Users, id: string, subject: string) {
    forall k :: k in users && k != id ==> users[k].subject != Some(subject)
  }

  predicate EmailIsFree(users: Users, id: string, email: string) {
    forall k :: k in users && k != id ==> users[k].email != email
  }

  function WithoutHash(sessions: Sessions, hash: string): Sessions {
    map k | k in sessions && sessions[k].hash != hash :: sessions[k]
  }

  // ---- Authentication.

  /** The user a request with this session cookie runs as. */
  ghost function Authenticated(cfg: Config, s: State, token: string): (user: Option<string>)
    ensures user.Some? ==> user.value in s.users && !s.users[user.value].disabled
  {
    if token == "" then None
    else
      match ByHash(s.sessions, cfg.hash(token))
      case None => None
      case Some(k) =>
        var session := s.sessions[k];
        if session.expires <= s.now || session.user !in s.users || s.users[session.user].disabled then None
        else Some(session.user)
  }

  /** Presenting an expired session deletes it. */
  ghost function Presented(cfg: Config, s: State, token: string): State {
    if token == "" then s
    else
      match ByHash(s.sessions, cfg.hash(token))
      case None => s
      case Some(k) =>
        if s.sessions[k].expires <= s.now then s.(sessions := WithoutHash(s.sessions, cfg.hash(token))) else s
  }

  predicate IsFresh(s: State, draw: Draw) {
    draw.token != "" && draw.token !in s.issued
  }

  ghost function OpenSession(cfg: Config, s: State, user: string, draw: Draw): (State, Reply) {
    var hash := cfg.hash(draw.token);
    if !draw.stored || draw.sessionId in s.sessions || ByHash(s.sessions, hash).Some? then (s, StoreFailed)
    else
      (s.(sessions := s.sessions[draw.sessionId := Session(user, hash, s.now + cfg.ttl, s.now)],
          issued := s.issued + {draw.token}),
       SignedIn(user))
  }

  // ---- Local accounts.

  function PasswordHash(cfg: Config, password: Bytes, salt: Bytes): string {
    cfg.hashPassword(password, cfg.pepper, salt)
  }

  function Checked(cfg: Config, password: Bytes, hash: string): Password.Verdict {
    cfg.verifyPassword(password, cfg.pepper, hash)
  }

  // In these requests `record` is what hashing the new password printed.

  ghost function DoRegister(cfg: Config, s: State, email: string, name: string, password: Bytes, id: string,
                            record: string): (State, Reply)
  {
    var mail, shown := cfg.normal(email), cfg.trim(name);
    if !cfg.validEmail(mail) || shown == "" || |password| < 8 then (s, InvalidInput)
    else
      var u := User(mail, shown, Some(record), Local, None, false, false);
      if !CanInsert(s.users, id, u) then (s, EmailTaken) else (s.(users := s.users[id := u]), Done)
  }

  ghost function DoLogin(cfg: Config, s: State, email: string, password: Bytes, draw: Draw): (State, Reply) {
    var mail := cfg.normal(email);
    if !IsFresh(s, draw) then (s, NotFresh)
    else if !cfg.validEmail(mail) || password == [] then (s, InvalidCredentials)
    else
      match ByEmail(s.users, mail)
      case None => (s, InvalidCredentials)
      case Some(id) =>
        var u := s.users[id];
        if u.disabled || u.source != Local || u.passwordHash.None? then (s, InvalidCredentials)
        else
          match Checked(cfg, password, u.passwordHash.value)
          case Panicked => (s, Reply.Panicked)
          case Rejected => (s, InvalidCredentials)
          case Accepted => OpenSession(cfg, s, id, draw)
  }

  ghost function DoChangePassword(cfg: Config, s: State, token: string, current: Bytes, next: Bytes,
                                  record: string): (State, Reply)
  {
    match Authenticated(cfg, s, token)
    case None => (Presented(cfg, s, token), Unauthenticated)
    case Some(id) =>
      if id == "" || current == [] || |next| < 8 then (s, InvalidInput)
      else if s.users[id].source != Local || s.users[id].passwordHash.None? then (s, PasswordUnsupported)
      else
        match Checked(cfg, current, s.users[id].passwordHash.value)
        case Panicked => (s, Reply.Panicked)
        case Rejected => (s, InvalidCredentials)
        case Accepted =>
          (s.(users := s.users[id := s.users[id].(passwordHash := Some(record))]), Done)
  }

  /** Any enabled user, local or not, renames themselves. */
  ghost function DoUpdateProfile(cfg: Config, s: State, token: string, name: string): (State, Reply) {
    match Authenticated(cfg, s, token)
    case None => (Presented(cfg, s, token), Unauthenticated)
    case Some(id) =>
      var shown := cfg.trim(name);
      if id == "" || shown == "" || |shown| > MAX_NAME then (s, InvalidInput)
      else (s.(users := s.users[id := s.users[id].(name := shown)]), Done)
  }

  // ---- OIDC callbacks.

  /** The provider's profile, with the subject of the id token where the profile has none. */
  function Normalised(cfg: Config, profile: Profile, tokenSubject: string): Profile {
    var subject, email, name := cfg.trim(profile.subject), cfg.normal(profile.email), cfg.trim(profile.name);
    Profile(if subject == "" then tokenSubject else subject, email, if name == "" then email else name)
  }

  /** Finds the user of a profile by subject, merges by email where that is on, or inserts one. */
  ghost function Upserted(cfg: Config, users: Users, p: Profile, id: string): (Users, Reply) {
    match BySubject(users, p.subject)
    case Some(k) => (users, if users[k].disabled then InvalidCredentials else SignedIn(k))
    case None =>
      match ByEmail(users, p.email)
      case Some(k) =>
        if !cfg.autoMerge then (users, EmailConflict)
        else if users[k].disabled then (users, InvalidCredentials)
        else if !SubjectIsFree(users, k, p.subject) then (users, EmailTaken)
        else (users[k := users[k].(subject := Some(p.subject))], SignedIn(k))
      case None =>
        var u := User(p.email, p.name, None, Oidc, Some(p.subject), false, false);
        if !CanInsert(users, id, u) then (users, EmailConflict) else (users[id := u], SignedIn(id))
  }

  /** The user row stays even when the session after it cannot be stored. */
  ghost function DoCallback(cfg: Config, s: State, profile: Profile, tokenSubject: string, id: string,
                            draw: Draw): (State, Reply)
  {
    var p := Normalised(cfg, profile, tokenSubject);
    if !IsFresh(s, draw) then (s, NotFresh)
    else if p.subject == "" || p.email == "" then (s, InvalidToken)
    else
      var (users, reply) := Upserted(cfg, s.users, p, id);
      if reply.SignedIn? then OpenSession(cfg, s.(users := users), reply.user, draw) else (s, reply)
  }

  // ---- Ending sessions.

  ghost function DoLogout(cfg: Config, s: State, token: string): (State, Reply) {
    (if token == "" then s else s.(sessions := WithoutHash(s.sessions, cfg.hash(token))), Done)
  }

  ghost function DoRevoke(cfg: Config, s: State, token: string, sessionId: string): (State, Reply) {
    match Authenticated(cfg, s, token)
    case None => (Presented(cfg, s, token), Unauthenticated)
    case Some(user) =>
      if user == "" || sessionId == "" then (s, InvalidInput)
      else if sessionId !in s.sessions || s.sessions[sessionId].user != user then (s, SessionForbidden)
      else if s.sessions[sessionId].hash == cfg.hash(token) then (s, CurrentSession)
      else (s.(sessions := s.sessions - {sessionId}), Done)
  }

  // ---- Administrators.

  function Coalesce<T>(given: Option<T>, current: T): T {
    if given.Some? then given.value else current
  }

  function Changed(u: User, change: Change): User {
    u.(name := Coalesce(change.name, u.name), email := Coalesce(change.email, u.email),
       isAdmin := Coalesce(change.isAdmin, u.isAdmin), disabled := Coalesce(change.disabled, u.disabled))
  }

  function Cleaned(cfg: Config, change: Change): Change {
    change.(name := if change.name.Some? then Some(cfg.trim(change.name.value)) else None,
            email := if change.email.Some? then Some(cfg.normal(change.email.value)) else None)
  }

  /** The service call: `actor` and `actorIsAdmin` are what the middleware read when it authenticated the caller. */
  ghost function AdminUpdated(cfg: Config, users: Users, actor: string, actorIsAdmin: bool, target: string,
                              change: Change): (Users, Reply)
  {
    var clean := Cleaned(cfg, change);
    if !actorIsAdmin || target == "" then (users, InvalidInput)
    else if target == actor && (change.isAdmin == Some(false) || change.disabled == Some(true))
    then (users, InvalidInput)
    else if target !in users then (users, NotFound)
    else if (change.name.Some? || change.email.Some?) && users[target].source != Local then (users, PasswordUnsupported)
    else if clean.name.Some? && (clean.name.value == "" || |clean.name.value| > MAX_NAME) then (users, InvalidInput)
    else if clean.email.Some? && !cfg.validEmail(clean.email.value) then (users, InvalidInput)
    else if clean.email.Some? && !EmailIsFree(users, target, clean.email.value) then (users, EmailTaken)
    else (users[target := Changed(users[target], clean)], Done)
  }

  ghost function DoAdminUpdate(cfg: Config, s: State, token: string, target: string, change: Change): (State, Reply) {
    match Authenticated(cfg, s, token)
    case None => (Presented(cfg, s, token), Unauthenticated)
    case Some(actor) =>
      if !s.users[actor].isAdmin then (s, Forbidden)
      else
        var (users, reply) := AdminUpdated(cfg, s.users, actor, s.users[actor].isAdmin, target, change);
        (s.(users := users), reply)
  }

  ghost function DoAdminResetPassword(cfg: Config, s: State, token: string, target: string, next: Bytes,
                                      record: string): (State, Reply)
  {
    match Authenticated(cfg, s, token)
    case None => (Presented(cfg, s, token), Unauthenticated)
    case Some(actor) =>
      if !s.users[actor].isAdmin then (s, Forbidden)
      else if target == "" || |next| < 8 then (s, InvalidInput)
      else if target !in s.users then (s, NotFound)
      else if s.users[target].source != Local || s.users[target].passwordHash.None? then (s, PasswordUnsupported)
      else (s.(users := s.users[target := s.users[target].(passwordHash := Some(record))]), Done)
  }

  // ---- Runs.

  ghost function Step(cfg: Config, s: State, request: Request): (State, Reply) {
    match request
    case Register(email, name, password, id, salt) =>
      DoRegister(cfg, s, email, name, password, id, PasswordHash(cfg, password, salt))
    case Login(email, password, draw) => DoLogin(cfg, s, email, password, draw)
    case Callback(profile, tokenSubject, id, draw) => DoCallback(cfg, s, profile, tokenSubject, id, draw)
    case CurrentUser(token) =>
      (Presented(cfg, s, token), if Authenticated(cfg, s, token).Some? then Done else Unauthenticated)
    case Logout(token) => DoLogout(cfg, s, token)
    case Revoke(token, sessionId) => DoRevoke(cfg, s, token, sessionId)
    case ChangePassword(token, current, next, salt) =>
      DoChangePassword(cfg, s, token, current, next, PasswordHash(cfg, next, salt))
    case UpdateProfile(token, name) => DoUpdateProfile(cfg, s, token, name)
    case AdminUpdate(token, target, change) => DoAdminUpdate(cfg, s, token, target, change)
    case AdminResetPassword(token, target, next, salt) =>
      DoAdminResetPassword(cfg, s, token, target, next, PasswordHash(cfg, next, salt))
    case Tick(seconds) => (s.(now := s.now + seconds), Done)
  }

  ghost function Run(cfg: Config, s: State, requests: seq<Request>): State
    decreases |requests|
  {
    if requests == [] then s else Run(cfg, Step(cfg, s, requests[0]).0, requests[1..])
  }
}
