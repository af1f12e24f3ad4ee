/** What every event of the collaboration room keeps, and what follows for every run. */
module CollabInvariant {
  import opened Common
  import opened CollabMachine
  import opened CollabReplay

  // ---- The invariant, one concern at a time.

  ghost predicate StoreInv(s: State) {
    && AllUpdates(s.store.updates)
    && SnapshotsAgree(s.store)
    && s.acked <= s.store.updates.Keys
  }

  /** A base read from the store: the initial content, or a logged update. */
  ghost predicate IsBase(s: State, content: string, num: nat) {
    num == 0 || (num in s.store.updates && s.store.updates[num].content == content)
  }

  ghost predicate AboveLog(s: State, num: nat) {
    forall n :: n in s.store.updates ==> n <= num
  }

  /** At most one room ever exists in a process, and it is never behind the log. */
  ghost predicate RoomInv(s: State) {
    var p := s.proc;
    && p.installed == (if p.rooms == [] then None else Some(0))
    && |p.rooms| <= 1
    && (p.rooms == [] ==> p.sessions == [] && p.ops == [])
    && (p.rooms != [] ==>
          && AboveLog(s, p.rooms[0].updateSeq)
          && if p.ops == [] then IsBase(s, p.rooms[0].content, p.rooms[0].updateSeq)
             else
               var last := p.ops[|p.ops| - 1];
               p.rooms[0].updateSeq == last.num && p.rooms[0].content == last.content)
  }

  ghost predicate CallInv(s: State, call: Call) {
    match call.phase
    case Based(content, num) => IsBase(s, content, num)
    case Loaded(content, num) => IsBase(s, content, num) && (s.proc.installed.None? ==> AboveLog(s, num))
    case Found(room) => room < |s.proc.rooms|
    case Entered(x) => x < |s.proc.sessions|
    case _ => true
  }

  ghost predicate CallsInv(s: State) {
    forall c :: 0 <= c < |s.proc.calls| ==> CallInv(s, s.proc.calls[c])
  }

  predicate SessionInv(room: Room, x: nat, session: Session) {
    && session.room == 0
    && session.initSeq <= room.updateSeq
    && (x in room.clients <==> session.leftAt.None?)
    && (session.leftAt.Some? ==> session.initSeq <= session.leftAt.value <= room.updateSeq)
    && |session.queue| <= QUEUE_CAPACITY
  }

  ghost predicate SessionsInv(s: State) {
    s.proc.rooms != [] ==>
      && (forall x :: x in s.proc.rooms[0].clients ==> x < |s.proc.sessions|)
      && (forall x :: 0 <= x < |s.proc.sessions| ==> SessionInv(s.proc.rooms[0], x, s.proc.sessions[x]))
  }

  predicate IsLogged(op: Op) {
    op.phase.NeedSnapshot? || op.phase.Sending? || op.phase == Finished(Success) || op.phase == Finished(Panicked)
  }

  ghost predicate OpInv(s: State, op: Op) {
    && op.room == 0
    && op.num >= 1
    && op.author < |s.proc.sessions| && s.proc.sessions[op.author].canEdit
    && (op.phase.NeedPersist? ==> op.num !in s.store.updates)
    && (IsLogged(op) ==> op.num in s.store.updates)
    && (op.num in s.store.updates ==>
          s.store.updates[op.num] == Update("update", op.content, s.proc.sessions[op.author].user))
  }

  ghost predicate OpsInv(s: State) {
    && (forall o :: 0 <= o < |s.proc.ops| ==> OpInv(s, s.proc.ops[o]))
    && (forall o, o' :: 0 <= o < o' < |s.proc.ops| ==> s.proc.ops[o].num < s.proc.ops[o'].num)
  }

  /** The broadcast target rule: joined below this number and not left before it. */
  predicate Covers(session: Session, num: nat) {
    session.initSeq < num && (session.leftAt.None? || num <= session.leftAt.value)
  }

  ghost predicate TargetsRight(sessions: seq<Session>, op: Op) {
    forall x: nat :: x in op.targets <==> x < |sessions| && Covers(sessions[x], op.num)
  }

  ghost predicate TargetsInv(s: State) {
    forall o :: 0 <= o < |s.proc.ops| ==> TargetsRight(s.proc.sessions, s.proc.ops[o])
  }

  /** Who was offered the update, by the phase of its operation. */
  ghost predicate Sent(op: Op, acked: set<nat>) {
    && Distinct(op.sent)
    && Elements(op.sent) <= op.Receivers()
    && (op.phase.NeedPersist? || op.phase.NeedSnapshot? || op.phase == Finished(StoreError) ==> op.sent == [])
    && (op.phase == Finished(Success) ==> Elements(op.sent) == op.Receivers() && op.num in acked)
  }

  ghost predicate PanickedAtLeaver(sessions: seq<Session>, op: Op) {
    exists x :: x in op.Receivers() && x !in op.sent && x < |sessions| && sessions[x].leftAt.Some?
  }

  ghost predicate PanicExplained(sessions: seq<Session>, op: Op) {
    op.phase == Finished(Panicked) ==> PanickedAtLeaver(sessions, op)
  }

  ghost predicate SentInv(s: State, op: Op) {
    Sent(op, s.acked) && PanicExplained(s.proc.sessions, op)
  }

  ghost predicate AllSentInv(s: State) {
    forall o :: 0 <= o < |s.proc.ops| ==> SentInv(s, s.proc.ops[o])
  }

  /** The message the broadcast of `op` puts in the queue of session `x`. */
  predicate SentAs(sessions: seq<Session>, op: Op, x: nat, message: Message) {
    && x in op.sent
    && op.author < |sessions|
    && message == UpdateMessage(op.content, op.num, sessions[op.author].user)
  }

  /** A queued message is the session's own init, or was put there by the broadcast of its number. */
  ghost predicate MessageInv(p: Process, x: nat, session: Session, message: Message) {
    match message
    case UpdateMessage(_, _, _) =>
      exists o :: 0 <= o < |p.ops| && SentAs(p.sessions, p.ops[o], x, message)
    case InitMessage(content, canEdit, num) =>
      content == session.initContent && canEdit == session.canEdit && num == session.initSeq
    case _ => true
  }

  ghost predicate QueueInv(p: Process, x: nat, session: Session) {
    forall i :: 0 <= i < |session.queue| ==> MessageInv(p, x, session, session.queue[i])
  }

  ghost predicate QueuesInv(s: State) {
    forall x :: 0 <= x < |s.proc.sessions| ==> QueueInv(s.proc, x, s.proc.sessions[x])
  }

  /** The content and number a session was shown on joining: recovered, or given out by an operation. */
  ghost predicate InitFrom(s: State, session: Session) {
    || IsBase(s, session.initContent, session.initSeq)
    || exists o :: 0 <= o < |s.proc.ops| && Carries(s.proc.ops[o], session.initContent, session.initSeq)
  }

  predicate Carries(op: Op, content: string, num: nat) {
    op.num == num && op.content == content
  }

  /** What a session was shown on joining is the content that carries its number. */
  ghost predicate InitInv(s: State) {
    && (forall x, o :: 0 <= x < |s.proc.sessions| && 0 <= o < |s.proc.ops| ==>
          InitMatches(s.proc.sessions[x], s.proc.ops[o]))
    && (forall x :: 0 <= x < |s.proc.sessions| ==> InitFrom(s, s.proc.sessions[x]))
  }

  predicate InitMatches(session: Session, op: Op) {
    op.num == session.initSeq ==> op.content == session.initContent
  }

  /** Everything but the queues. */
  ghost predicate CoreInv(s: State) {
    && StoreInv(s) && RoomInv(s) && CallsInv(s) && SessionsInv(s) && OpsInv(s)
    && TargetsInv(s) && AllSentInv(s) && InitInv(s)
  }

  ghost predicate Inv(s: State) {
    CoreInv(s) && QueuesInv(s)
  }

  // ---- What every event leaves alone.

  /** What no event but a restart ever undoes: operations and sessions keep their identity. */
  ghost predicate Grows(p: Process, p': Process) {
    OpsGrow(p, p') && SessionsGrow(p, p')
  }

  ghost predicate OpsGrow(p: Process, p': Process) {
    |p.ops| <= |p'.ops| && forall o :: 0 <= o < |p.ops| ==> SameOp(p.ops[o], p'.ops[o])
  }

  ghost predicate SessionsGrow(p: Process, p': Process) {
    |p.sessions| <= |p'.sessions| && forall x :: 0 <= x < |p.sessions| ==> SameSession(p.sessions[x], p'.sessions[x])
  }

  predicate SameOp(op: Op, op': Op) {
    && op'.author == op.author && op'.room == op.room && op'.num == op.num
    && op'.content == op.content && op'.targets == op.targets
    && op.sent <= op'.sent
  }

  predicate SameSession(session: Session, session': Session) {
    && session'.user == session.user && session'.canEdit == session.canEdit
    && session'.initContent == session.initContent && session'.initSeq == session.initSeq
    && (session.leftAt.Some? ==> session'.leftAt == session.leftAt)
  }

  /** Steps of an update outside the lock. */
  predicate OnOp(e: Event) {
    e.Persist? || e.PersistSnapshot? || e.Offer? || e.Finish?
  }

  /** Steps that change a room or who is in it. */
  predicate OnRoom(e: Event) {
    e.Install? || e.Enter? || e.SendInit? || e.Leave? || e.Submit?
  }

  /** Steps that change a queue or the set of sessions. */
  predicate OnSession(e: Event) {
    e.Enter? || e.SendInit? || e.Leave? || e.Submit? || e.Offer? || e.Notice? || e.Drain?
  }

  lemma SubmitGrows(s: State, x: nat, content: string)
    ensures Grows(s.proc, DoSubmit(s, x, content).proc)
  {
  }

  lemma WritesGrow(s: State, o: nat, write: Write)
    ensures Grows(s.proc, DoPersist(s, o, write).proc) && Grows(s.proc, DoPersistSnapshot(s, o, write).proc)
  {
  }

  lemma BroadcastGrows(s: State, o: nat, x: nat)
    ensures Grows(s.proc, DoOffer(s, o, x).proc) && Grows(s.proc, DoFinish(s, o).proc)
  {
  }

  lemma OthersKeepOps(s: State, e: Event)
    requires !OnOp(e) && !e.Submit? && !e.Restart?
    ensures Apply(s, e).proc.ops == s.proc.ops
  {
  }

  lemma EnterGrows(s: State, c: nat)
    ensures SessionsGrow(s.proc, DoEnter(s, c).proc) && SessionsGrow(s.proc, DoSendInit(s, c).proc)
  {
  }

  lemma LeaveGrows(s: State, x: nat)
    requires RoomInv(s) && SessionsInv(s)
    ensures SessionsGrow(s.proc, DoLeave(s, x).proc)
  {
    if s.proc.rooms != [] && x < |s.proc.sessions| {
      assert SessionInv(s.proc.rooms[0], x, s.proc.sessions[x]);
    }
  }

  lemma QueueGrows(s: State, x: nat)
    ensures SessionsGrow(s.proc, DoNotice(s, x).proc) && SessionsGrow(s.proc, DoDrain(s, x).proc)
  {
  }

  lemma OthersKeepSessions(s: State, e: Event)
    requires !OnSession(e) && !e.Restart?
    ensures Apply(s, e).proc.sessions == s.proc.sessions
  {
  }

  lemma EventGrowsOps(s: State, e: Event)
    requires !e.Restart?
    ensures OpsGrow(s.proc, Apply(s, e).proc)
  {
    match e
    case Submit(x, content) => SubmitGrows(s, x, content);
    case Persist(o, write) => WritesGrow(s, o, write);
    case PersistSnapshot(o, write) => WritesGrow(s, o, write);
    case Offer(o, x) => BroadcastGrows(s, o, x);
    case Finish(o) => BroadcastGrows(s, o, 0);
    case _ => OthersKeepOps(s, e);
  }

  lemma StayingGrowsSessions(s: State, e: Event)
    requires !e.Leave? && !e.Restart?
    ensures SessionsGrow(s.proc, Apply(s, e).proc)
  {
    match e
    case Enter(c) => EnterGrows(s, c);
    case SendInit(c) => EnterGrows(s, c);
    case Submit(x, content) => SubmitGrows(s, x, content);
    case Offer(o, x) => BroadcastGrows(s, o, x);
    case Notice(x) => QueueGrows(s, x);
    case Drain(x) => QueueGrows(s, x);
    case _ => OthersKeepSessions(s, e);
  }

  lemma EventGrowsSessions(s: State, e: Event)
    requires RoomInv(s) && SessionsInv(s) && !e.Restart?
    ensures SessionsGrow(s.proc, Apply(s, e).proc)
  {
    if e.Leave? { LeaveGrows(s, e.session); } else { StayingGrowsSessions(s, e); }
  }

  lemma OpGrows(s: State, e: Event, o: nat)
    requires !e.Restart? && o < |s.proc.ops|
    ensures |s.proc.ops| <= |Apply(s, e).proc.ops| && SameOp(s.proc.ops[o], Apply(s, e).proc.ops[o])
  {
    EventGrowsOps(s, e);
  }

  lemma SessionGrows(s: State, e: Event, x: nat)
    requires RoomInv(s) && SessionsInv(s)
    requires !e.Restart? && x < |s.proc.sessions|
    ensures |s.proc.sessions| <= |Apply(s, e).proc.sessions|
    ensures SameSession(s.proc.sessions[x], Apply(s, e).proc.sessions[x])
  {
    EventGrowsSessions(s, e);
  }

  lemma StepGrows(s: State, e: Event)
    requires RoomInv(s) && SessionsInv(s)
    requires !e.Restart?
    ensures Grows(s.proc, Apply(s, e).proc)
  {
    EventGrowsOps(s, e);
    EventGrowsSessions(s, e);
  }

  // ---- Preservation of everything but the queues.

  lemma StartKeeps(configured: int, initial: string)
    ensures Inv(Start(configured, initial))
  {
  }

  lemma StoreKeep(s: State, e: Event)
    requires StoreInv(s) && OpsInv(s)
    ensures StoreInv(Apply(s, e))
  {
  }

  lemma PersistKeepsRoom(s: State, o: nat, write: Write)
    requires RoomInv(s) && OpsInv(s)
    ensures RoomInv(DoPersist(s, o, write))
  {
    if o < |s.proc.ops| { assert OpInv(s, s.proc.ops[o]); }
  }

  lemma SnapshotKeepsRoom(s: State, o: nat, write: Write)
    requires RoomInv(s)
    ensures RoomInv(DoPersistSnapshot(s, o, write))
  {
  }

  lemma OfferKeepsRoom(s: State, o: nat, x: nat)
    requires RoomInv(s) && OpsInv(s)
    ensures RoomInv(DoOffer(s, o, x)) && RoomInv(DoFinish(s, o))
  {
    if o < |s.proc.ops| { assert OpInv(s, s.proc.ops[o]); }
  }

  lemma InstallKeepsRoom(s: State, c: nat)
    requires RoomInv(s) && CallsInv(s)
    ensures RoomInv(DoInstall(s, c))
  {
    if c < |s.proc.calls| { assert CallInv(s, s.proc.calls[c]); }
  }

  lemma EnterKeepsRoom(s: State, c: nat)
    requires RoomInv(s) && CallsInv(s)
    ensures RoomInv(DoEnter(s, c)) && RoomInv(DoSendInit(s, c))
  {
    if c < |s.proc.calls| { assert CallInv(s, s.proc.calls[c]); }
  }

  lemma LeaveKeepsRoom(s: State, x: nat)
    requires RoomInv(s)
    ensures RoomInv(DoLeave(s, x))
  {
  }

  lemma SubmitKeepsRoom(s: State, x: nat, content: string)
    requires RoomInv(s)
    ensures RoomInv(DoSubmit(s, x, content))
  {
  }

  lemma OthersKeepRoom(s: State, e: Event)
    requires RoomInv(s) && !OnOp(e) && !OnRoom(e)
    ensures RoomInv(Apply(s, e))
  {
  }

  lemma OnOpKeepsRoom(s: State, e: Event)
    requires RoomInv(s) && OpsInv(s) && OnOp(e)
    ensures RoomInv(Apply(s, e))
  {
    match e
    case Persist(o, write) => PersistKeepsRoom(s, o, write);
    case PersistSnapshot(o, write) => SnapshotKeepsRoom(s, o, write);
    case Offer(o, x) => OfferKeepsRoom(s, o, x);
    case Finish(o) => OfferKeepsRoom(s, o, 0);
    case _ =>
  }

  lemma OnRoomKeepsRoom(s: State, e: Event)
    requires RoomInv(s) && CallsInv(s) && OnRoom(e)
    ensures RoomInv(Apply(s, e))
  {
    match e
    case Install(c) => InstallKeepsRoom(s, c);
    case Enter(c) => EnterKeepsRoom(s, c);
    case SendInit(c) => EnterKeepsRoom(s, c);
    case Leave(x) => LeaveKeepsRoom(s, x);
    case Submit(x, content) => SubmitKeepsRoom(s, x, content);
    case _ =>
  }

  lemma RoomKeep(s: State, e: Event)
    requires StoreInv(s) && RoomInv(s) && CallsInv(s) && OpsInv(s)
    ensures RoomInv(Apply(s, e))
  {
    if OnOp(e) { OnOpKeepsRoom(s, e); } else if OnRoom(e) { OnRoomKeepsRoom(s, e); } else { OthersKeepRoom(s, e); }
  }

  lemma BaseKeeps(s: State, e: Event, content: string, num: nat)
    requires IsBase(s, content, num)
    ensures IsBase(Apply(s, e), content, num)
  {
    if num != 0 { LogGrows(s, e, num); }
  }

  /** Before the room is installed nothing is in flight, so the log stands still. */
  lemma NoRoomNoWrites(s: State, e: Event)
    requires RoomInv(s) && s.proc.rooms == []
    ensures Apply(s, e).store.updates == s.store.updates
  {
  }

  /** What currentContent's second query makes of a base: the head of the log, or the base itself. */
  lemma ReadUpdatesResult(s: State, c: nat)
    requires StoreInv(s) && CallsInv(s)
    requires c < |s.proc.calls| && s.proc.calls[c].phase.Based?
    ensures var base, top := s.proc.calls[c].phase, Top(s.store.updates.Keys);
            DoReadUpdates(s, c) ==
            SetCall(s, c, if top > base.num then Loaded(s.store.updates[top].content, top)
                          else Loaded(base.content, base.num))
    ensures CallInv(DoReadUpdates(s, c), DoReadUpdates(s, c).proc.calls[c])
  {
    var base := s.proc.calls[c].phase;
    assert CallInv(s, s.proc.calls[c]);
    ReplayFrom(s.store.updates, base.content, base.num);
  }

  function TouchedCall(e: Event): Option<nat> {
    match e
    case ReadSnapshot(c, _) => Some(c)
    case ReadInitial(c) => Some(c)
    case ReadUpdates(c) => Some(c)
    case Abandon(c) => Some(c)
    case Install(c) => Some(c)
    case Enter(c) => Some(c)
    case SendInit(c) => Some(c)
    case _ => None
  }

  /** Calls that are not touched stay, and so does all that a call's invariant is about. */
  ghost predicate CallFrame(s: State, s': State, call: Option<nat>) {
    && |s.proc.calls| <= |s'.proc.calls|
    && (forall c :: 0 <= c < |s.proc.calls| && call != Some(c) ==> s'.proc.calls[c] == s.proc.calls[c])
    && (call.Some? ==> |s'.proc.calls| == |s.proc.calls|)
    && |s.proc.rooms| <= |s'.proc.rooms| && |s.proc.sessions| <= |s'.proc.sessions|
    && (s'.proc.installed.None? ==> s.proc.installed.None?)
  }

  lemma ReadsFrame(s: State, c: nat, pick: nat)
    ensures CallFrame(s, DoReadSnapshot(s, c, pick), Some(c)) && CallFrame(s, DoReadInitial(s, c), Some(c))
    ensures CallFrame(s, DoReadUpdates(s, c), Some(c)) && CallFrame(s, DoAbandon(s, c), Some(c))
  {
  }

  lemma InstallFrame(s: State, c: nat)
    ensures CallFrame(s, DoInstall(s, c), Some(c))
  {
  }

  lemma EnterFrame(s: State, c: nat)
    ensures CallFrame(s, DoEnter(s, c), Some(c)) && CallFrame(s, DoSendInit(s, c), Some(c))
  {
  }

  lemma StartFrame(s: State, user: string, canEdit: bool)
    ensures CallFrame(s, DoCheck(s, user, canEdit), None) && CallFrame(s, DoStartRead(s, user), None)
  {
  }

  lemma OthersKeepCalls(s: State, e: Event)
    requires TouchedCall(e).None? && !e.Check? && !e.StartRead? && !e.Restart?
    ensures Apply(s, e).proc.calls == s.proc.calls && CallFrame(s, Apply(s, e), None)
  {
  }

  lemma EventFrame(s: State, e: Event)
    requires !e.Restart?
    ensures CallFrame(s, Apply(s, e), TouchedCall(e))
  {
    match e
    case ReadSnapshot(c, pick) => ReadsFrame(s, c, pick);
    case ReadInitial(c) => ReadsFrame(s, c, 0);
    case ReadUpdates(c) => ReadsFrame(s, c, 0);
    case Abandon(c) => ReadsFrame(s, c, 0);
    case Install(c) => InstallFrame(s, c);
    case Enter(c) => EnterFrame(s, c);
    case SendInit(c) => EnterFrame(s, c);
    case Check(user, canEdit) => StartFrame(s, user, canEdit);
    case StartRead(user) => StartFrame(s, user, false);
    case _ => OthersKeepCalls(s, e);
  }

  lemma CallStays(s: State, e: Event, c: nat)
    requires RoomInv(s) && CallsInv(s)
    requires c < |s.proc.calls| && !e.Restart?
    ensures CallInv(Apply(s, e), s.proc.calls[c])
  {
    assert CallInv(s, s.proc.calls[c]);
    EventFrame(s, e);
    forall content, num | IsBase(s, content, num) ensures IsBase(Apply(s, e), content, num) {
      BaseKeeps(s, e, content, num);
    }
    if Apply(s, e).proc.installed.None? { NoRoomNoWrites(s, e); }
  }

  lemma ReadSnapshotCall(s: State, c: nat, pick: nat)
    requires StoreInv(s) && CallsInv(s) && c < |s.proc.calls|
    ensures CallInv(DoReadSnapshot(s, c, pick), DoReadSnapshot(s, c, pick).proc.calls[c])
  {
    assert CallInv(s, s.proc.calls[c]);
  }

  lemma ReadInitialCall(s: State, c: nat)
    requires CallsInv(s) && c < |s.proc.calls|
    ensures CallInv(DoReadInitial(s, c), DoReadInitial(s, c).proc.calls[c])
    ensures CallInv(DoAbandon(s, c), DoAbandon(s, c).proc.calls[c])
  {
    assert CallInv(s, s.proc.calls[c]);
  }

  lemma InstallCall(s: State, c: nat)
    requires RoomInv(s) && CallsInv(s) && c < |s.proc.calls|
    ensures CallInv(DoInstall(s, c), DoInstall(s, c).proc.calls[c])
  {
    assert CallInv(s, s.proc.calls[c]);
  }

  lemma EnterCall(s: State, c: nat)
    requires CallsInv(s) && c < |s.proc.calls|
    ensures CallInv(DoEnter(s, c), DoEnter(s, c).proc.calls[c])
    ensures CallInv(DoSendInit(s, c), DoSendInit(s, c).proc.calls[c])
  {
    assert CallInv(s, s.proc.calls[c]);
  }

  lemma StartCall(s: State, user: string, canEdit: bool)
    requires RoomInv(s)
    ensures var s' := DoCheck(s, user, canEdit);
            |s'.proc.calls| == |s.proc.calls| + 1 && CallInv(s', s'.proc.calls[|s.proc.calls|])
    ensures var s' := DoStartRead(s, user);
            |s'.proc.calls| == |s.proc.calls| + 1 && CallInv(s', s'.proc.calls[|s.proc.calls|])
  {
  }

  lemma TouchedCallKeeps(s: State, e: Event, c: nat)
    requires StoreInv(s) && RoomInv(s) && CallsInv(s)
    requires c < |s.proc.calls| && TouchedCall(e) == Some(c)
    ensures c < |Apply(s, e).proc.calls| && CallInv(Apply(s, e), Apply(s, e).proc.calls[c])
  {
    EventFrame(s, e);
    match e
    case ReadSnapshot(_, pick) => ReadSnapshotCall(s, c, pick);
    case ReadInitial(_) => ReadInitialCall(s, c);
    case Abandon(_) => ReadInitialCall(s, c);
    case ReadUpdates(_) =>
      assert CallInv(s, s.proc.calls[c]);
      if s.proc.calls[c].phase.Based? { ReadUpdatesResult(s, c); }
    case Install(_) => InstallCall(s, c);
    case Enter(_) => EnterCall(s, c);
    case SendInit(_) => EnterCall(s, c);
    case _ =>
  }

  lemma CallKeeps(s: State, e: Event, c: nat)
    requires StoreInv(s) && RoomInv(s) && CallsInv(s)
    requires c < |Apply(s, e).proc.calls| && !e.Restart?
    ensures CallInv(Apply(s, e), Apply(s, e).proc.calls[c])
  {
    EventFrame(s, e);
    if c < |s.proc.calls| && TouchedCall(e) == Some(c) {
      TouchedCallKeeps(s, e, c);
    } else if c < |s.proc.calls| {
      CallStays(s, e, c);
    } else {
      NewCallKeeps(s, e, c);
    }
  }

  lemma NewCallKeeps(s: State, e: Event, c: nat)
    requires RoomInv(s) && |s.proc.calls| <= c < |Apply(s, e).proc.calls| && !e.Restart?
    ensures CallInv(Apply(s, e), Apply(s, e).proc.calls[c])
  {
    if e.Check? {
      StartCall(s, e.user, e.canEdit);
    } else if e.StartRead? {
      StartCall(s, e.user, false);
    } else {
      NoNewCall(s, e);
    }
  }

  lemma NoNewCall(s: State, e: Event)
    requires !e.Check? && !e.StartRead? && !e.Restart?
    ensures |Apply(s, e).proc.calls| == |s.proc.calls|
  {
    EventFrame(s, e);
    if TouchedCall(e).None? { OthersKeepCalls(s, e); }
  }

  lemma CallsKeep(s: State, e: Event)
    requires StoreInv(s) && RoomInv(s) && CallsInv(s)
    ensures CallsInv(Apply(s, e))
  {
    if e.Restart? { return; }
    forall c | 0 <= c < |Apply(s, e).proc.calls|
      ensures CallInv(Apply(s, e), Apply(s, e).proc.calls[c])
    { CallKeeps(s, e, c); }
  }

  lemma EnterKeepsSessions(s: State, c: nat)
    requires RoomInv(s) && CallsInv(s) && SessionsInv(s)
    ensures SessionsInv(DoEnter(s, c))
  {
  }

  lemma SendInitKeepsSessions(s: State, c: nat)
    requires RoomInv(s) && SessionsInv(s)
    ensures SessionsInv(DoSendInit(s, c))
  {
  }

  lemma LeaveKeepsSessions(s: State, x: nat)
    requires RoomInv(s) && SessionsInv(s)
    ensures SessionsInv(DoLeave(s, x))
  {
  }

  lemma SubmitKeepsSessions(s: State, x: nat, content: string)
    requires RoomInv(s) && SessionsInv(s)
    ensures SessionsInv(DoSubmit(s, x, content))
  {
  }

  lemma OfferKeepsSessions(s: State, o: nat, x: nat)
    requires RoomInv(s) && SessionsInv(s)
    ensures SessionsInv(DoOffer(s, o, x))
  {
  }

  lemma InstallKeepsSessions(s: State, c: nat)
    requires RoomInv(s) && SessionsInv(s)
    ensures SessionsInv(DoInstall(s, c))
  {
  }

  lemma OthersKeepSessionsInv(s: State, e: Event)
    requires RoomInv(s) && SessionsInv(s)
    requires !OnRoom(e) && !e.Offer?
    ensures SessionsInv(Apply(s, e))
  {
  }

  lemma OnRoomKeepsSessions(s: State, e: Event)
    requires RoomInv(s) && CallsInv(s) && SessionsInv(s) && OnRoom(e)
    ensures SessionsInv(Apply(s, e))
  {
    match e
    case Install(c) => InstallKeepsSessions(s, c);
    case Enter(c) => EnterKeepsSessions(s, c);
    case SendInit(c) => SendInitKeepsSessions(s, c);
    case Leave(x) => LeaveKeepsSessions(s, x);
    case Submit(x, content) => SubmitKeepsSessions(s, x, content);
    case _ =>
  }

  lemma SessionsKeep(s: State, e: Event)
    requires RoomInv(s) && CallsInv(s) && SessionsInv(s)
    ensures SessionsInv(Apply(s, e))
  {
    if OnRoom(e) { OnRoomKeepsSessions(s, e); }
    else if e.Offer? { OfferKeepsSessions(s, e.op, e.receiver); }
    else { OthersKeepSessionsInv(s, e); }
  }

  /** Only an update from an editor's session makes a new operation, numbered right above the room. */
  lemma NewOp(s: State, e: Event)
    requires RoomInv(s) && SessionsInv(s)
    requires |Apply(s, e).proc.ops| > |s.proc.ops|
    ensures |Apply(s, e).proc.ops| == |s.proc.ops| + 1
    ensures e.Submit? && e.session < |s.proc.sessions| && s.proc.sessions[e.session].canEdit && s.proc.rooms != []
    ensures var room := s.proc.rooms[0];
            Apply(s, e).proc.ops[|s.proc.ops|] ==
            Op(e.session, 0, room.updateSeq + 1, e.content, room.clients, [], NeedPersist)
    ensures Apply(s, e).store == s.store && Apply(s, e).proc.sessions == s.proc.sessions
  {
    if e.Submit? && e.session < |s.proc.sessions| {
      assert SessionInv(s.proc.rooms[0], e.session, s.proc.sessions[e.session]);
    }
  }

  /** A number enters the log only by the operation that carries it. */
  lemma NewRow(s: State, e: Event, n: nat)
    requires n !in s.store.updates && n in Apply(s, e).store.updates
    ensures e.Persist? && e.op < |s.proc.ops| && s.proc.ops[e.op].num == n
    ensures s.proc.ops[e.op].phase.NeedPersist? && !e.write.NotStored?
    ensures s.proc.ops[e.op].author < |s.proc.sessions|
    ensures Apply(s, e).store.updates ==
            s.store.updates[n := Update("update", s.proc.ops[e.op].content,
                                        s.proc.sessions[s.proc.ops[e.op].author].user)]
  {
  }

  lemma LogGrows(s: State, e: Event, n: nat)
    requires n in s.store.updates
    ensures n in Apply(s, e).store.updates && Apply(s, e).store.updates[n] == s.store.updates[n]
  {
  }

  ghost predicate PhaseFits(s: State, op: Op) {
    && (op.phase.NeedPersist? ==> op.num !in s.store.updates)
    && (IsLogged(op) ==> op.num in s.store.updates)
  }

  lemma PersistKeepsPhase(s: State, p: nat, write: Write, o: nat)
    requires o < |s.proc.ops| && s.proc.ops[o].author < |s.proc.sessions| && PhaseFits(s, s.proc.ops[o])
    requires p < |s.proc.ops| && p != o ==> s.proc.ops[p].num != s.proc.ops[o].num
    ensures PhaseFits(DoPersist(s, p, write), DoPersist(s, p, write).proc.ops[o])
  {
  }

  lemma SnapshotKeepsPhase(s: State, p: nat, write: Write, o: nat)
    requires o < |s.proc.ops| && PhaseFits(s, s.proc.ops[o])
    ensures PhaseFits(DoPersistSnapshot(s, p, write), DoPersistSnapshot(s, p, write).proc.ops[o])
  {
  }

  lemma BroadcastKeepsPhase(s: State, p: nat, x: nat, o: nat)
    requires o < |s.proc.ops| && PhaseFits(s, s.proc.ops[o])
    ensures PhaseFits(DoOffer(s, p, x), DoOffer(s, p, x).proc.ops[o])
    ensures PhaseFits(DoFinish(s, p), DoFinish(s, p).proc.ops[o])
  {
  }

  lemma OthersKeepPhase(s: State, e: Event, o: nat)
    requires o < |s.proc.ops| && PhaseFits(s, s.proc.ops[o]) && !OnOp(e) && !e.Restart?
    ensures o < |Apply(s, e).proc.ops| && PhaseFits(Apply(s, e), Apply(s, e).proc.ops[o])
  {
  }

  lemma PhaseKeeps(s: State, e: Event, o: nat)
    requires o < |s.proc.ops| && s.proc.ops[o].author < |s.proc.sessions| && PhaseFits(s, s.proc.ops[o])
    requires e.Persist? && e.op < |s.proc.ops| && e.op != o ==> s.proc.ops[e.op].num != s.proc.ops[o].num
    requires !e.Restart?
    ensures o < |Apply(s, e).proc.ops| && PhaseFits(Apply(s, e), Apply(s, e).proc.ops[o])
  {
    EventGrowsOps(s, e);
    match e
    case Persist(p, write) => PersistKeepsPhase(s, p, write, o);
    case PersistSnapshot(p, write) => SnapshotKeepsPhase(s, p, write, o);
    case Offer(p, x) => BroadcastKeepsPhase(s, p, x, o);
    case Finish(p) => BroadcastKeepsPhase(s, p, 0, o);
    case _ => OthersKeepPhase(s, e, o);
  }

  lemma OpKeeps(s: State, e: Event, o: nat)
    requires RoomInv(s) && SessionsInv(s) && OpsInv(s)
    requires o < |s.proc.ops| && !e.Restart?
    ensures OpInv(Apply(s, e), Apply(s, e).proc.ops[o])
  {
    var op := s.proc.ops[o];
    assert OpInv(s, op);
    OpGrows(s, e, o);
    SessionGrows(s, e, op.author);
    assert e.Persist? && e.op < |s.proc.ops| && e.op != o ==> e.op < o || o < e.op;
    PhaseKeeps(s, e, o);
    if op.num in s.store.updates {
      LogGrows(s, e, op.num);
    } else if op.num in Apply(s, e).store.updates {
      NewRow(s, e, op.num);
    }
  }

  lemma OpsKeep(s: State, e: Event)
    requires StoreInv(s) && RoomInv(s) && SessionsInv(s) && OpsInv(s)
    ensures OpsInv(Apply(s, e))
  {
    if e.Restart? { return; }
    forall o | 0 <= o < |Apply(s, e).proc.ops| ensures OpInv(Apply(s, e), Apply(s, e).proc.ops[o]) {
      if o < |s.proc.ops| { OpKeeps(s, e, o); } else { NewOp(s, e); }
    }
    forall o, o' | 0 <= o < o' < |Apply(s, e).proc.ops|
      ensures Apply(s, e).proc.ops[o].num < Apply(s, e).proc.ops[o'].num
    { NumbersStayOrdered(s, e, o, o'); }
  }

  lemma NumbersStayOrdered(s: State, e: Event, o: nat, o': nat)
    requires RoomInv(s) && SessionsInv(s) && OpsInv(s) && !e.Restart? && o < o' < |Apply(s, e).proc.ops|
    ensures Apply(s, e).proc.ops[o].num < Apply(s, e).proc.ops[o'].num
  {
    EventGrowsOps(s, e);
    if o' >= |s.proc.ops| {
      NewOp(s, e);
      OpBelowRoom(s, o);
    }
  }

  /** How a session's reach changes: it only ever shrinks to the numbers given out before it left. */
  lemma ReachKeeps(s: State, e: Event, x: nat, num: nat)
    requires RoomInv(s) && CallsInv(s) && SessionsInv(s)
    requires !e.Restart? && s.proc.rooms != [] && num <= s.proc.rooms[0].updateSeq
    ensures var s' := Apply(s, e);
            x < |s'.proc.sessions| && Covers(s'.proc.sessions[x], num) <==>
            x < |s.proc.sessions| && Covers(s.proc.sessions[x], num)
  {
    if x < |s.proc.sessions| {
      assert SessionInv(s.proc.rooms[0], x, s.proc.sessions[x]);
      SessionGrows(s, e, x);
    } else if e.Enter? && e.call < |s.proc.calls| {
      assert CallInv(s, s.proc.calls[e.call]);
    }
  }

  lemma OpBelowRoom(s: State, o: nat)
    requires RoomInv(s) && OpsInv(s) && o < |s.proc.ops|
    ensures s.proc.rooms != [] && s.proc.ops[o].num <= s.proc.rooms[0].updateSeq
  {
  }

  lemma TargetsKeep(s: State, e: Event)
    requires RoomInv(s) && CallsInv(s) && SessionsInv(s) && OpsInv(s) && TargetsInv(s)
    ensures TargetsInv(Apply(s, e))
  {
    if e.Restart? { return; }
    var s' := Apply(s, e);
    forall o | 0 <= o < |s'.proc.ops| ensures TargetsRight(s'.proc.sessions, s'.proc.ops[o]) {
      if o < |s.proc.ops| {
        OpGrows(s, e, o);
        OpBelowRoom(s, o);
        assert TargetsRight(s.proc.sessions, s.proc.ops[o]);
        forall x: nat
          ensures x in s'.proc.ops[o].targets <==>
                  x < |s'.proc.sessions| && Covers(s'.proc.sessions[x], s'.proc.ops[o].num)
        { ReachKeeps(s, e, x, s.proc.ops[o].num); }
      } else {
        NewOp(s, e);
        forall x: nat
          ensures x in s'.proc.ops[o].targets <==>
                  x < |s'.proc.sessions| && Covers(s'.proc.sessions[x], s'.proc.ops[o].num)
        {
          if x < |s.proc.sessions| { assert SessionInv(s.proc.rooms[0], x, s.proc.sessions[x]); }
        }
      }
    }
  }

  lemma WritesKeepSent(s: State, p: nat, write: Write, o: nat)
    requires o < |s.proc.ops| && Sent(s.proc.ops[o], s.acked)
    ensures Sent(DoPersist(s, p, write).proc.ops[o], DoPersist(s, p, write).acked)
    ensures Sent(DoPersistSnapshot(s, p, write).proc.ops[o], DoPersistSnapshot(s, p, write).acked)
  {
  }

  lemma OfferKeepsSent(s: State, p: nat, x: nat, o: nat)
    requires o < |s.proc.ops| && Sent(s.proc.ops[o], s.acked)
    ensures Sent(DoOffer(s, p, x).proc.ops[o], DoOffer(s, p, x).acked)
  {
  }

  lemma FinishKeepsSent(s: State, p: nat, o: nat)
    requires o < |s.proc.ops| && Sent(s.proc.ops[o], s.acked)
    ensures Sent(DoFinish(s, p).proc.ops[o], DoFinish(s, p).acked)
  {
  }

  lemma OthersKeepSent(s: State, e: Event, o: nat)
    requires o < |s.proc.ops| && !OnOp(e) && !e.Restart?
    ensures o < |Apply(s, e).proc.ops| && Apply(s, e).proc.ops[o] == s.proc.ops[o] && Apply(s, e).acked == s.acked
  {
  }

  lemma RecordKeeps(s: State, e: Event, o: nat)
    requires o < |s.proc.ops| && !e.Restart? && Sent(s.proc.ops[o], s.acked)
    ensures o < |Apply(s, e).proc.ops| && Sent(Apply(s, e).proc.ops[o], Apply(s, e).acked)
  {
    EventGrowsOps(s, e);
    match e
    case Persist(p, write) => WritesKeepSent(s, p, write, o);
    case PersistSnapshot(p, write) => WritesKeepSent(s, p, write, o);
    case Offer(p, x) => OfferKeepsSent(s, p, x, o);
    case Finish(p) => FinishKeepsSent(s, p, o);
    case _ => OthersKeepSent(s, e, o);
  }

  lemma OfferPanics(s: State, p: nat, x: nat, o: nat)
    requires o < |s.proc.ops| && s.proc.ops[o].phase != Finished(Panicked)
    ensures PanicExplained(DoOffer(s, p, x).proc.sessions, DoOffer(s, p, x).proc.ops[o])
  {
  }

  lemma OthersNeverPanic(s: State, e: Event, o: nat)
    requires o < |s.proc.ops| && s.proc.ops[o].phase != Finished(Panicked) && !e.Offer? && !e.Restart?
    ensures o < |Apply(s, e).proc.ops| && Apply(s, e).proc.ops[o].phase != Finished(Panicked)
  {
  }

  lemma FinishedOpStays(s: State, e: Event, o: nat)
    requires o < |s.proc.ops| && s.proc.ops[o].phase.Finished? && !e.Restart?
    ensures o < |Apply(s, e).proc.ops| && Apply(s, e).proc.ops[o] == s.proc.ops[o]
  {
    if !OnOp(e) { OthersKeepSent(s, e, o); }
  }

  lemma PanicKeeps(s: State, e: Event, o: nat)
    requires RoomInv(s) && SessionsInv(s)
    requires o < |s.proc.ops| && !e.Restart? && PanicExplained(s.proc.sessions, s.proc.ops[o])
    ensures o < |Apply(s, e).proc.ops| && PanicExplained(Apply(s, e).proc.sessions, Apply(s, e).proc.ops[o])
  {
    var op := s.proc.ops[o];
    if op.phase == Finished(Panicked) {
      FinishedOpStays(s, e, o);
      var x :| x in op.Receivers() && x !in op.sent && x < |s.proc.sessions| && s.proc.sessions[x].leftAt.Some?;
      SessionGrows(s, e, x);
      assert Apply(s, e).proc.sessions[x].leftAt.Some?;
    } else if e.Offer? {
      OfferPanics(s, e.op, e.receiver, o);
    } else {
      OthersNeverPanic(s, e, o);
    }
  }

  lemma SentKeeps(s: State, e: Event, o: nat)
    requires RoomInv(s) && SessionsInv(s)
    requires o < |s.proc.ops| && !e.Restart? && SentInv(s, s.proc.ops[o])
    ensures o < |Apply(s, e).proc.ops| && SentInv(Apply(s, e), Apply(s, e).proc.ops[o])
  {
    RecordKeeps(s, e, o);
    PanicKeeps(s, e, o);
  }

  lemma AllSentKeep(s: State, e: Event)
    requires RoomInv(s) && SessionsInv(s) && AllSentInv(s)
    ensures AllSentInv(Apply(s, e))
  {
    if e.Restart? { return; }
    var s' := Apply(s, e);
    forall o | 0 <= o < |s'.proc.ops| ensures SentInv(s', s'.proc.ops[o]) {
      if o < |s.proc.ops| { SentKeeps(s, e, o); } else { NewOp(s, e); }
    }
  }

  lemma InitFromKeeps(s: State, e: Event, x: nat)
    requires RoomInv(s) && SessionsInv(s) && x < |s.proc.sessions| && InitFrom(s, s.proc.sessions[x])
    requires !e.Restart?
    ensures x < |Apply(s, e).proc.sessions| && InitFrom(Apply(s, e), Apply(s, e).proc.sessions[x])
  {
    var session := s.proc.sessions[x];
    SessionGrows(s, e, x);
    if IsBase(s, session.initContent, session.initSeq) {
      BaseKeeps(s, e, session.initContent, session.initSeq);
    } else {
      var o :| 0 <= o < |s.proc.ops| && Carries(s.proc.ops[o], session.initContent, session.initSeq);
      OpGrows(s, e, o);
      assert Carries(Apply(s, e).proc.ops[o], session.initContent, session.initSeq);
    }
  }

  lemma NewInitFrom(s: State, e: Event)
    requires RoomInv(s) && CallsInv(s) && |Apply(s, e).proc.sessions| > |s.proc.sessions|
    ensures InitFrom(Apply(s, e), Apply(s, e).proc.sessions[|s.proc.sessions|])
  {
    NewSession(s, e);
    var room := s.proc.rooms[0];
    if s.proc.ops == [] {
      BaseKeeps(s, e, room.content, room.updateSeq);
    } else {
      assert Carries(Apply(s, e).proc.ops[|s.proc.ops| - 1], room.content, room.updateSeq);
    }
  }

  lemma InitsKeepFrom(s: State, e: Event)
    requires RoomInv(s) && CallsInv(s) && SessionsInv(s) && InitInv(s)
    requires !e.Restart?
    ensures forall x :: 0 <= x < |Apply(s, e).proc.sessions| ==> InitFrom(Apply(s, e), Apply(s, e).proc.sessions[x])
  {
    forall x | 0 <= x < |Apply(s, e).proc.sessions| ensures InitFrom(Apply(s, e), Apply(s, e).proc.sessions[x]) {
      if x < |s.proc.sessions| {
        assert InitFrom(s, s.proc.sessions[x]);
        InitFromKeeps(s, e, x);
      } else {
        NewSession(s, e);
        NewInitFrom(s, e);
      }
    }
  }

  /** Whatever number a session joined at, the log agrees with what it was shown. */
  lemma InitIsLogged(s: State, x: nat)
    requires StoreInv(s) && OpsInv(s) && InitInv(s) && x < |s.proc.sessions|
    ensures var session := s.proc.sessions[x];
            && (session.initSeq in s.store.updates ==> s.store.updates[session.initSeq].content == session.initContent)
            && (session.initSeq != 0 && session.initSeq !in s.store.updates ==>
                  exists o :: 0 <= o < |s.proc.ops| && Carries(s.proc.ops[o], session.initContent, session.initSeq))
  {
    var session := s.proc.sessions[x];
    assert InitFrom(s, session);
    if !IsBase(s, session.initContent, session.initSeq) {
      var o :| 0 <= o < |s.proc.ops| && Carries(s.proc.ops[o], session.initContent, session.initSeq);
      assert OpInv(s, s.proc.ops[o]);
    }
  }

  lemma InitMatchKeeps(s: State, e: Event, x: nat, o: nat)
    requires RoomInv(s) && CallsInv(s) && SessionsInv(s) && OpsInv(s) && InitInv(s) && !e.Restart?
    requires x < |Apply(s, e).proc.sessions| && o < |Apply(s, e).proc.ops|
    ensures InitMatches(Apply(s, e).proc.sessions[x], Apply(s, e).proc.ops[o])
  {
    if o < |s.proc.ops| { OpGrows(s, e, o); OpBelowRoom(s, o); } else { NewOp(s, e); }
    if x < |s.proc.sessions| {
      SessionGrows(s, e, x);
      assert SessionInv(s.proc.rooms[0], x, s.proc.sessions[x]);
      assert o < |s.proc.ops| ==> InitMatches(s.proc.sessions[x], s.proc.ops[o]);
    } else {
      NewSession(s, e);
    }
  }

  lemma InitKeep(s: State, e: Event)
    requires RoomInv(s) && CallsInv(s) && SessionsInv(s) && OpsInv(s) && InitInv(s)
    ensures InitInv(Apply(s, e))
  {
    if e.Restart? { return; }
    InitsKeepFrom(s, e);
    forall x, o | 0 <= x < |Apply(s, e).proc.sessions| && 0 <= o < |Apply(s, e).proc.ops|
      ensures InitMatches(Apply(s, e).proc.sessions[x], Apply(s, e).proc.ops[o])
    { InitMatchKeeps(s, e, x, o); }
  }

  /** A session starts with the room's content and number, in the critical section that makes it a member. */
  lemma NewSession(s: State, e: Event)
    requires RoomInv(s) && CallsInv(s)
    requires |Apply(s, e).proc.sessions| > |s.proc.sessions|
    ensures e.Enter? && e.call < |s.proc.calls| && s.proc.rooms != []
    ensures |Apply(s, e).proc.sessions| == |s.proc.sessions| + 1
    ensures var room, call := s.proc.rooms[0], s.proc.calls[e.call];
            Apply(s, e).proc.sessions[|s.proc.sessions|] ==
            Session(call.user, call.canEdit, 0, room.content, room.updateSeq, None, [])
    ensures Apply(s, e).proc.ops == s.proc.ops
  {
    if e.Enter? && e.call < |s.proc.calls| { assert CallInv(s, s.proc.calls[e.call]); }
  }

  lemma CoreKeeps(s: State, e: Event)
    requires CoreInv(s)
    ensures CoreInv(Apply(s, e))
  {
    StoreKeep(s, e);
    RoomKeep(s, e);
    CallsKeep(s, e);
    SessionsKeep(s, e);
    OpsKeep(s, e);
    TargetsKeep(s, e);
    AllSentKeep(s, e);
    InitKeep(s, e);
  }

  // ---- Preservation of the queues.

  lemma MessageStable(p: Process, p': Process, x: nat, session: Session, session': Session, message: Message)
    requires MessageInv(p, x, session, message)
    requires Grows(p, p') && SameSession(session, session')
    ensures MessageInv(p', x, session', message)
  {
    if message.UpdateMessage? {
      var o :| 0 <= o < |p.ops| && SentAs(p.sessions, p.ops[o], x, message);
      assert SameOp(p.ops[o], p'.ops[o]);
      assert SentAs(p'.sessions, p'.ops[o], x, message);
    }
  }

  /** The messages an event adds to a queue; it may also take one away at the front. */
  lemma QueueChange(s: State, e: Event, x: nat, i: nat)
    requires !e.Restart? && x < |Apply(s, e).proc.sessions| && i < |Apply(s, e).proc.sessions[x].queue|
    ensures var s' := Apply(s, e);
            var message := s'.proc.sessions[x].queue[i];
            || (x < |s.proc.sessions| && message in s.proc.sessions[x].queue)
            || MessageInv(s'.proc, x, s'.proc.sessions[x], message)
  {
    var s' := Apply(s, e);
    if x < |s.proc.sessions| && s'.proc.sessions[x].queue == s.proc.sessions[x].queue {
    } else if e.Offer? {
      var message := s'.proc.sessions[x].queue[i];
      if message !in s.proc.sessions[x].queue {
        assert SentAs(s'.proc.sessions, s'.proc.ops[e.op], x, message);
      }
    }
  }

  lemma QueuesKeep(s: State, e: Event)
    requires Inv(s)
    ensures QueuesInv(Apply(s, e))
  {
    if e.Restart? { return; }
    var s' := Apply(s, e);
    StepGrows(s, e);
    forall x, i | 0 <= x < |s'.proc.sessions| && 0 <= i < |s'.proc.sessions[x].queue|
      ensures MessageInv(s'.proc, x, s'.proc.sessions[x], s'.proc.sessions[x].queue[i])
    {
      QueueChange(s, e, x, i);
      var message := s'.proc.sessions[x].queue[i];
      if x < |s.proc.sessions| && message in s.proc.sessions[x].queue {
        MessageStable(s.proc, s'.proc, x, s.proc.sessions[x], s'.proc.sessions[x], message);
      }
    }
  }

  lemma StepKeeps(s: State, e: Event)
    requires Inv(s)
    ensures Inv(Apply(s, e))
  {
    CoreKeeps(s, e);
    QueuesKeep(s, e);
  }

  lemma {:induction false} RunKeeps(s: State, events: seq<Event>)
    requires Inv(s)
    ensures Inv(Run(s, events))
    decreases |events|
  {
    if events != [] {
      RunKeeps(s, events[..|events| - 1]);
      StepKeeps(Run(s, events[..|events| - 1]), events[|events| - 1]);
    }
  }
}
