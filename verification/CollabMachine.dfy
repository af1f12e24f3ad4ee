/**
  The Markdown collaboration room of one document as a state machine.

  Every event is one critical section or one I/O call of the service. Disabled events leave
  the state alone, so `Run(s, events)` over all event sequences ranges over all interleavings
  of calls in flight, of writes that fail, and of process restarts.
 */
module CollabMachine {
  import opened Common

  type Interval = n: nat | n > 0 witness 1

  const QUEUE_CAPACITY: nat := 16
  const DEFAULT_INTERVAL: Interval := 100

  // ---- The durable store: the document's initial content, the update log and the snapshots.

  datatype Update = Update(kind: string, content: string, createdBy: string)
  datatype Row = Row(updateSeq: nat, update: Update)
  datatype Snapshot = Snapshot(versionNo: nat, content: string)

  /** `updates` is keyed by update_seq, the table's unique index; snapshots have no such index. */
  datatype Store = Store(initial: string, updates: map<nat, Update>, snapshots: seq<Snapshot>)

  // ---- The process: everything a restart forgets.

  datatype Room = Room(content: string, updateSeq: nat, clients: set<nat>)

  datatype Message =
    | InitMessage(content: string, canEdit: bool, updateSeq: nat)
    | UpdateMessage(content: string, updateSeq: nat, user: string)
    | ErrorMessage
    | NoticeMessage

  /** `leftAt` is the room's sequence number at the moment the session left and its queue was closed. */
  datatype Session = Session(user: string, canEdit: bool, room: nat, initContent: string, initSeq: nat,
                             leftAt: Option<nat>, queue: seq<Message>)

  /** A call of Join (`joining`) or of Snapshot on its way through getRoom and currentContent. */
  datatype Call = Call(user: string, canEdit: bool, joining: bool, phase: CallPhase)
  datatype CallPhase =
    | Checked
    | NoSnapshot
    | Based(content: string, num: nat)
    | Loaded(content: string, num: nat)
    | Found(room: nat)
    | Entered(session: nat)
    | Returned

  datatype Outcome = Success | StoreError | Panicked
  datatype OpPhase = NeedPersist | NeedSnapshot | Sending | Finished(outcome: Outcome)

  /** A call of applyContentUpdate; `sent` lists the receivers it has offered its message to. */
  datatype Op = Op(author: nat, room: nat, num: nat, content: string,
                   targets: set<nat>, sent: seq<nat>, phase: OpPhase)
  {
    function Receivers(): set<nat> { targets - {author} }
  }

  datatype Process = Process(rooms: seq<Room>, installed: Option<nat>, calls: seq<Call>,
                             sessions: seq<Session>, ops: seq<Op>)

  const IDLE := Process([], None, [], [], [])

  /** `acked` remembers, across restarts, the numbers of the updates that returned success. */
  datatype State = State(interval: Interval, store: Store, proc: Process, acked: set<nat>)

  function EffectiveInterval(configured: int): Interval {
    if configured <= 0 then DEFAULT_INTERVAL else configured
  }

  function Start(configured: int, initial: string): State {
    State(EffectiveInterval(configured), Store(initial, map[], []), IDLE, {})
  }

  // ---- Events.

  /** What an INSERT does: it may also commit and then be reported as an error to the caller. */
  datatype Write = Stored | NotStored | StoredButReported

  datatype Event =
    | Check(user: string, canEdit: bool)
    | StartRead(user: string)
    | ReadSnapshot(call: nat, pick: nat)
    | ReadInitial(call: nat)
    | ReadUpdates(call: nat)
    | Abandon(call: nat)
    | Install(call: nat)
    | Enter(call: nat)
    | SendInit(call: nat)
    | Leave(session: nat)
    | Submit(session: nat, content: string)
    | Persist(op: nat, write: Write)
    | PersistSnapshot(op: nat, write: Write)
    | Offer(op: nat, receiver: nat)
    | Finish(op: nat)
    | Notice(session: nat)
    | Drain(session: nat)
    | Resave(content: string)
    | Restart

  function SetCall(s: State, c: nat, phase: CallPhase): State
    requires c < |s.proc.calls|
  {
    s.(proc := s.proc.(calls := s.proc.calls[c := s.proc.calls[c].(phase := phase)]))
  }

  function SetOp(s: State, o: nat, op: Op): State
    requires o < |s.proc.ops|
  {
    s.(proc := s.proc.(ops := s.proc.ops[o := op]))
  }

  function SetSession(s: State, x: nat, session: Session): State
    requires x < |s.proc.sessions|
  {
    s.(proc := s.proc.(sessions := s.proc.sessions[x := session]))
  }

  function SetRoom(s: State, r: nat, room: Room): State
    requires r < |s.proc.rooms|
  {
    s.(proc := s.proc.(rooms := s.proc.rooms[r := room]))
  }

  /** The non-blocking send: a full queue drops the message. */
  function Enqueue(session: Session, message: Message): Session {
    if |session.queue| < QUEUE_CAPACITY then session.(queue := session.queue + [message]) else session
  }

  // ---- Reading the store.

  /** SELECT .. ORDER BY version_no DESC LIMIT 1: any row with the greatest number. */
  predicate IsLatest(snapshots: seq<Snapshot>, i: nat) {
    i < |snapshots| && forall j :: 0 <= j < |snapshots| ==> snapshots[j].versionNo <= snapshots[i].versionNo
  }

  function RowsUpTo(updates: map<nat, Update>, after: nat, upTo: nat): seq<Row>
    decreases upTo
  {
    if upTo <= after then []
    else RowsUpTo(updates, after, upTo - 1) + (if upTo in updates then [Row(upTo, updates[upTo])] else [])
  }

  /** SELECT .. WHERE update_seq > $2 ORDER BY update_seq ASC. */
  ghost function ListUpdatesAfter(updates: map<nat, Update>, after: nat): seq<Row> {
    RowsUpTo(updates, after, Top(updates.Keys))
  }

  /** The replay loop of currentContent. */
  function Replay(rows: seq<Row>, content: string, num: nat): (string, nat) {
    if rows == [] then (content, num)
    else if rows[0].update.kind == "update" then Replay(rows[1..], rows[0].update.content, rows[0].updateSeq)
    else Replay(rows[1..], content, num)
  }

  /** currentContent without interruption; `pick` names the row the snapshot query returned. */
  ghost function CurrentContent(store: Store, pick: nat): (string, nat)
    requires store.snapshots != [] ==> IsLatest(store.snapshots, pick)
  {
    if store.snapshots == [] then Replay(ListUpdatesAfter(store.updates, 0), store.initial, 0)
    else
      var snapshot := store.snapshots[pick];
      Replay(ListUpdatesAfter(store.updates, snapshot.versionNo), snapshot.content, snapshot.versionNo)
  }

  /** The slow reference: every persisted update, from the initial content. */
  ghost function FullReplay(store: Store): (string, nat) {
    Replay(ListUpdatesAfter(store.updates, 0), store.initial, 0)
  }

  /** What both should be: the persisted update with the highest number. */
  ghost function Head(store: Store): (string, nat) {
    if store.updates.Keys == {} then (store.initial, 0)
    else
      var top := Top(store.updates.Keys);
      (store.updates[top].content, top)
  }

  // ---- One event.

  function DoCheck(s: State, user: string, canEdit: bool): State {
    var phase := if s.proc.installed.Some? then Found(s.proc.installed.value) else Checked;
    s.(proc := s.proc.(calls := s.proc.calls + [Call(user, canEdit, true, phase)]))
  }

  function DoStartRead(s: State, user: string): State {
    s.(proc := s.proc.(calls := s.proc.calls + [Call(user, false, false, Checked)]))
  }

  function DoReadSnapshot(s: State, c: nat, pick: nat): State {
    if c >= |s.proc.calls| || !s.proc.calls[c].phase.Checked? then s
    else if s.store.snapshots == [] then SetCall(s, c, NoSnapshot)
    else if !IsLatest(s.store.snapshots, pick) then s
    else SetCall(s, c, Based(s.store.snapshots[pick].content, s.store.snapshots[pick].versionNo))
  }

  function DoReadInitial(s: State, c: nat): State {
    if c >= |s.proc.calls| || !s.proc.calls[c].phase.NoSnapshot? then s
    else SetCall(s, c, Based(s.store.initial, 0))
  }

  ghost function DoReadUpdates(s: State, c: nat): State {
    if c >= |s.proc.calls| || !s.proc.calls[c].phase.Based? then s
    else
      var base := s.proc.calls[c].phase;
      var (content, num) := Replay(ListUpdatesAfter(s.store.updates, base.num), base.content, base.num);
      SetCall(s, c, Loaded(content, num))
  }

  function DoAbandon(s: State, c: nat): State {
    if c >= |s.proc.calls| || s.proc.calls[c].phase.Entered? then s else SetCall(s, c, Returned)
  }

  function DoInstall(s: State, c: nat): State {
    if c >= |s.proc.calls| || !s.proc.calls[c].joining || !s.proc.calls[c].phase.Loaded? then s
    else if s.proc.installed.Some? then SetCall(s, c, Found(s.proc.installed.value))
    else
      var loaded := s.proc.calls[c].phase;
      var next := |s.proc.rooms|;
      var s' := s.(proc := s.proc.(rooms := s.proc.rooms + [Room(loaded.content, loaded.num, {})],
                                   installed := Some(next)));
      SetCall(s', c, Found(next))
  }

  function DoEnter(s: State, c: nat): State {
    if c >= |s.proc.calls| || !s.proc.calls[c].phase.Found? then s
    else
      var call := s.proc.calls[c];
      var r := call.phase.room;
      if r >= |s.proc.rooms| then s
      else
        var room := s.proc.rooms[r];
        var x := |s.proc.sessions|;
        var s1 := SetRoom(s, r, room.(clients := room.clients + {x}));
        var session := Session(call.user, call.canEdit, r, room.content, room.updateSeq, None, []);
        var s2 := s1.(proc := s1.proc.(sessions := s1.proc.sessions + [session]));
        SetCall(s2, c, Entered(x))
  }

  /** The blocking send of the init message captured on entering; on a closed queue it panics. */
  function DoSendInit(s: State, c: nat): State {
    if c >= |s.proc.calls| || !s.proc.calls[c].phase.Entered? then s
    else
      var x := s.proc.calls[c].phase.session;
      if x >= |s.proc.sessions| then s
      else
        var session := s.proc.sessions[x];
        if session.leftAt.Some? then SetCall(s, c, Returned)
        else if |session.queue| >= QUEUE_CAPACITY then s
        else
          var init := InitMessage(session.initContent, session.canEdit, session.initSeq);
          SetCall(SetSession(s, x, Enqueue(session, init)), c, Returned)
  }

  function DoLeave(s: State, x: nat): State {
    if x >= |s.proc.sessions| || s.proc.sessions[x].room >= |s.proc.rooms| then s
    else
      var session := s.proc.sessions[x];
      var room := s.proc.rooms[session.room];
      if x !in room.clients then s
      else
        SetSession(SetRoom(s, session.room, room.(clients := room.clients - {x})),
                   x, session.(leftAt := Some(room.updateSeq)))
  }

  /** The critical section of applyContentUpdate, behind the check of the session's own edit flag. */
  function DoSubmit(s: State, x: nat, content: string): State {
    if x >= |s.proc.sessions| || s.proc.sessions[x].room >= |s.proc.rooms| then s
    else
      var session := s.proc.sessions[x];
      if !session.canEdit then
        if session.leftAt.Some? then s else SetSession(s, x, Enqueue(session, ErrorMessage))
      else
        var room := s.proc.rooms[session.room];
        var num := room.updateSeq + 1;
        var s1 := SetRoom(s, session.room, room.(content := content, updateSeq := num));
        s1.(proc := s1.proc.(ops := s1.proc.ops +
                                    [Op(x, session.room, num, content, room.clients, [], NeedPersist)]))
  }

  /** CreateUpdate: the unique index refuses a number that is already in the log. */
  function DoPersist(s: State, o: nat, write: Write): State {
    if o >= |s.proc.ops| || !s.proc.ops[o].phase.NeedPersist? then s
    else
      var op := s.proc.ops[o];
      if write.NotStored? || op.num in s.store.updates || op.author >= |s.proc.sessions| then
        SetOp(s, o, op.(phase := Finished(StoreError)))
      else
        var row := Update("update", op.content, s.proc.sessions[op.author].user);
        var s1 := s.(store := s.store.(updates := s.store.updates[op.num := row]));
        var next := if write.StoredButReported? then Finished(StoreError)
                    else if op.num % s.interval == 0 then NeedSnapshot
                    else Sending;
        SetOp(s1, o, op.(phase := next))
  }

  function DoPersistSnapshot(s: State, o: nat, write: Write): State {
    if o >= |s.proc.ops| || !s.proc.ops[o].phase.NeedSnapshot? then s
    else
      var op := s.proc.ops[o];
      if write.NotStored? then SetOp(s, o, op.(phase := Finished(StoreError)))
      else
        var s1 := s.(store := s.store.(snapshots := s.store.snapshots + [Snapshot(op.num, op.content)]));
        SetOp(s1, o, op.(phase := if write.StoredButReported? then Finished(StoreError) else Sending))
  }

  /** One turn of the broadcast loop; sending to a session that has left panics on its closed queue. */
  function DoOffer(s: State, o: nat, x: nat): State {
    if o >= |s.proc.ops| || !s.proc.ops[o].phase.Sending? then s
    else
      var op := s.proc.ops[o];
      if x !in op.Receivers() || x in op.sent || x >= |s.proc.sessions| || op.author >= |s.proc.sessions| then s
      else
        var session := s.proc.sessions[x];
        if session.leftAt.Some? then SetOp(s, o, op.(phase := Finished(Panicked)))
        else
          var message := UpdateMessage(op.content, op.num, s.proc.sessions[op.author].user);
          SetOp(SetSession(s, x, Enqueue(session, message)), o, op.(sent := op.sent + [x]))
  }

  function DoFinish(s: State, o: nat): State {
    if o >= |s.proc.ops| || !s.proc.ops[o].phase.Sending? then s
    else
      var op := s.proc.ops[o];
      if op.Receivers() <= Elements(op.sent)
      then SetOp(s, o, op.(phase := Finished(Success))).(acked := s.acked + {op.num})
      else s
  }

  function DoNotice(s: State, x: nat): State {
    if x >= |s.proc.sessions| || s.proc.sessions[x].leftAt.Some? then s
    else SetSession(s, x, Enqueue(s.proc.sessions[x], NoticeMessage))
  }

  function DoDrain(s: State, x: nat): State {
    if x >= |s.proc.sessions| || s.proc.sessions[x].queue == [] then s
    else SetSession(s, x, s.proc.sessions[x].(queue := s.proc.sessions[x].queue[1..]))
  }

  ghost function Apply(s: State, e: Event): State {
    match e
    case Check(user, canEdit) => DoCheck(s, user, canEdit)
    case StartRead(user) => DoStartRead(s, user)
    case ReadSnapshot(c, pick) => DoReadSnapshot(s, c, pick)
    case ReadInitial(c) => DoReadInitial(s, c)
    case ReadUpdates(c) => DoReadUpdates(s, c)
    case Abandon(c) => DoAbandon(s, c)
    case Install(c) => DoInstall(s, c)
    case Enter(c) => DoEnter(s, c)
    case SendInit(c) => DoSendInit(s, c)
    case Leave(x) => DoLeave(s, x)
    case Submit(x, content) => DoSubmit(s, x, content)
    case Persist(o, write) => DoPersist(s, o, write)
    case PersistSnapshot(o, write) => DoPersistSnapshot(s, o, write)
    case Offer(o, x) => DoOffer(s, o, x)
    case Finish(o) => DoFinish(s, o)
    case Notice(x) => DoNotice(s, x)
    case Drain(x) => DoDrain(s, x)
    case Resave(content) => s.(store := s.store.(initial := content))
    case Restart => s.(proc := IDLE)
  }

  ghost function Run(s: State, events: seq<Event>): State
    decreases |events|
  {
    if events == [] then s else Apply(Run(s, events[..|events| - 1]), events[|events| - 1])
  }

  lemma {:induction false} RunConcat(s: State, first: seq<Event>, rest: seq<Event>)
    ensures Run(s, first + rest) == Run(Run(s, first), rest)
    decreases |rest|
  {
    if rest == [] {
      assert first + rest == first;
    } else {
      var n := |rest| - 1;
      assert (first + rest)[..|first + rest| - 1] == first + rest[..n];
      RunConcat(s, first, rest[..n]);
    }
  }

  lemma RunSnoc(s: State, events: seq<Event>, e: Event)
    ensures Run(s, events + [e]) == Apply(Run(s, events), e)
  {
    assert (events + [e])[..|events|] == events;
  }
}
