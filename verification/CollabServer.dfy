/**
  The collaboration service as it updates its tables and its room in place. Every critical
  section and every I/O call is a method that takes the machine's event of the same meaning;
  the service calls compose them, uninterrupted, into schedules of the machine.
 */
module CollabServer {
  import opened Common
  import opened CollabMachine
  import opened CollabReplay
  import opened CollabInvariant
  import opened CollabTheorems

  class LiveRoom {
    var content: string
    var updateSeq: nat
    var clients: set<nat>

    constructor (content: string, updateSeq: nat)
      ensures this.content == content && this.updateSeq == updateSeq && clients == {}
    {
      this.content := content;
      this.updateSeq := updateSeq;
      this.clients := {};
    }

    ghost function Value(): Room
      reads this
    {
      Room(content, updateSeq, clients)
    }
  }

  /** `valid` tells whether a cursor is present with both positions non-negative. */
  datatype ClientMessage = UpdateRequest(content: string) | PresenceRequest | CursorRequest(valid: bool) | OtherRequest
  datatype Answer = Accepted | Failed | Forbidden | Crashed

  class Server {
    const interval: Interval
    var initial: string
    var updates: map<nat, Update>
    var snapshots: seq<Snapshot>
    var room: LiveRoom?
    var sessions: seq<Session>
    ghost var calls: seq<Call>
    ghost var ops: seq<Op>
    ghost var acked: set<nat>

    ghost function TheStore(): Store
      reads this
    {
      Store(initial, updates, snapshots)
    }

    ghost function Current(): State
      reads this, room
    {
      var rooms := if room == null then [] else [room.Value()];
      var installed := if room == null then None else Some(0);
      State(interval, TheStore(), Process(rooms, installed, calls, sessions, ops), acked)
    }

    constructor (configured: int, initial: string)
      ensures Current() == Start(configured, initial)
      ensures room == null && interval == if configured <= 0 then 100 else configured
    {
      this.interval := EffectiveInterval(configured);
      this.initial := initial;
      this.updates, this.snapshots, this.room := map[], [], null;
      this.sessions, this.calls, this.ops, this.acked := [], [], [], {};
    }

    // ---- The repository's two queries and the replay loop.

    method LatestSnapshot() returns (latest: Option<Snapshot>, ghost pick: nat)
      ensures latest.None? <==> snapshots == []
      ensures latest.Some? ==> IsLatest(snapshots, pick) && latest.value == snapshots[pick]
    {
      latest, pick := None, 0;
      var i := 0;
      while i < |snapshots|
        invariant 0 <= i <= |snapshots|
        invariant latest.None? <==> i == 0
        invariant latest.Some? ==> pick < i && latest.value == snapshots[pick]
        invariant latest.Some? ==> forall j :: 0 <= j < i ==> snapshots[j].versionNo <= latest.value.versionNo
      {
        if latest.None? || snapshots[i].versionNo > latest.value.versionNo {
          latest, pick := Some(snapshots[i]), i;
        }
        i := i + 1;
      }
    }

    method ListUpdatesAfter(after: nat) returns (rows: seq<Row>)
      ensures rows == CollabMachine.ListUpdatesAfter(updates, after)
    {
      rows := [];
      var rest := set n | n in updates.Keys && n > after;
      ghost var done := after;
      while rest != {}
        invariant after <= done && (after < done ==> done in updates)
        invariant rest == set n | n in updates.Keys && n > done
        invariant rows == RowsUpTo(updates, after, done)
        decreases rest
      {
        LeastExists(rest);
        var least :| least in rest && forall n :: n in rest ==> least <= n;
        assert forall n :: n in updates && n > done ==> n in rest;
        SkipGap(updates, after, done, least - 1);
        rows := rows + [Row(least, updates[least])];
        done := least;
        rest := rest - {least};
      }
      ghost var top := Top(updates.Keys);
      assert forall n :: n in updates && n > done ==> n in rest;
    }

    method CurrentContent() returns (content: string, num: nat, ghost pick: nat)
      ensures snapshots != [] ==> IsLatest(snapshots, pick)
      ensures (content, num) == CollabMachine.CurrentContent(TheStore(), pick)
    {
      var latest;
      latest, pick := LatestSnapshot();
      content, num := initial, 0;
      if latest.Some? {
        content, num := latest.value.content, latest.value.versionNo;
      }
      ghost var base := (content, num);
      var rows := ListUpdatesAfter(num);
      var i := 0;
      while i < |rows|
        invariant 0 <= i <= |rows|
        invariant Replay(rows[i..], content, num) == Replay(rows, base.0, base.1)
      {
        assert rows[i..][1..] == rows[i + 1..];
        if rows[i].update.kind == "update" {
          content, num := rows[i].update.content, rows[i].updateSeq;
        }
        i := i + 1;
      }
      assert rows[|rows|..] == [];
    }

    // ---- One critical section or write at a time.

    /** The locked look at the map of rooms. */
    method CheckInstalled(user: string, canEdit: bool) returns (existing: LiveRoom?)
      modifies this
      ensures Current() == Apply(old(Current()), Check(user, canEdit))
      ensures existing == room == old(room)
    {
      existing := room;
      calls := calls + [Call(user, canEdit, true, if room == null then Checked else Found(0))];
    }

    /** The second locked look: the room read from the store is installed only if there is still none. */
    method InstallRoom(content: string, num: nat, ghost c: nat) returns (r: LiveRoom)
      requires c < |calls| && calls[c].joining && calls[c].phase == Loaded(content, num)
      modifies this
      ensures Current() == Apply(old(Current()), Install(c))
      ensures r == room && (if old(room) == null then fresh(room) && room.Value() == Room(content, num, {})
                            else room == old(room))
    {
      if room == null {
        room := new LiveRoom(content, num);
      }
      calls := calls[c := calls[c].(phase := Found(0))];
      r := room;
    }

    /** Membership and init are captured in one critical section. */
    method EnterRoom(user: string, canEdit: bool, ghost c: nat) returns (x: nat, init: Message)
      requires c < |calls| && calls[c].phase == Found(0) && calls[c].user == user && calls[c].canEdit == canEdit
      requires room != null
      modifies this, room
      ensures Current() == Apply(old(Current()), Enter(c))
      ensures room == old(room) && x == |old(sessions)|
      ensures init == InitMessage(room.content, canEdit, room.updateSeq)
      ensures room.clients == old(room.clients) + {x}
      ensures sessions == old(sessions) + [Session(user, canEdit, 0, room.content, room.updateSeq, None, [])]
      ensures calls == old(calls)[c := old(calls)[c].(phase := Entered(x))]
    {
      x := |sessions|;
      room.clients := room.clients + {x};
      init := InitMessage(room.content, canEdit, room.updateSeq);
      sessions := sessions + [Session(user, canEdit, 0, room.content, room.updateSeq, None, [])];
      calls := calls[c := calls[c].(phase := Entered(x))];
    }

    /** Entering and the blocking send of the captured init into the new, empty queue. */
    method EnterAndInit(user: string, canEdit: bool, ghost c: nat) returns (x: nat)
      requires c < |calls| && calls[c].phase == Found(0) && calls[c].user == user && calls[c].canEdit == canEdit
      requires room != null
      modifies this, room
      ensures Current() == Apply(Apply(old(Current()), Enter(c)), SendInit(c))
      ensures room == old(room) && room.clients == old(room.clients) + {x}
      ensures room.content == old(room.content) && room.updateSeq == old(room.updateSeq)
      ensures TheStore() == old(TheStore()) && x == |old(sessions)|
      ensures sessions == old(sessions) + [Session(user, canEdit, 0, room.content, room.updateSeq, None,
                                                   [InitMessage(room.content, canEdit, room.updateSeq)])]
    {
      var init;
      x, init := EnterRoom(user, canEdit, c);
      InitSent(Current(), c, init);
      sessions := sessions[x := sessions[x].(queue := [init])];
      calls := calls[c := calls[c].(phase := Returned)];
    }

    method LeaveRoom(x: nat)
      requires Inv(Current()) && x < |sessions|
      modifies this, room
      ensures Current() == Apply(old(Current()), CollabMachine.Leave(x))
      ensures room == old(room) && room != null && room.clients == old(room.clients) - {x}
    {
      RoomIsThere(Current(), x);
      if x in room.clients {
        room.clients := room.clients - {x};
        sessions := sessions[x := sessions[x].(leftAt := Some(room.updateSeq))];
      }
    }

    /** The critical section of applyContentUpdate: number, content and receivers together. */
    method AssignNumber(x: nat, content: string) returns (num: nat, receivers: set<nat>)
      requires room != null && x < |sessions| && sessions[x].canEdit && sessions[x].room == 0
      modifies this, room
      ensures Current() == Apply(old(Current()), Submit(x, content))
      ensures room == old(room) && room != null && room.clients == old(room.clients)
      ensures num == room.updateSeq == old(room.updateSeq) + 1 && room.content == content
      ensures receivers == room.clients
      ensures sessions == old(sessions) && updates == old(updates) && snapshots == old(snapshots)
      ensures |ops| == |old(ops)| + 1 && ops[|old(ops)|] == Op(x, 0, num, content, receivers, [], NeedPersist)
    {
      num := room.updateSeq + 1;
      room.content := content;
      room.updateSeq := num;
      receivers := room.clients;
      ops := ops + [Op(x, 0, num, content, receivers, [], NeedPersist)];
    }

    method CreateUpdate(num: nat, row: Update, write: Write, ghost o: nat) returns (ok: bool)
      requires o < |ops| && ops[o].phase.NeedPersist? && ops[o].num == num && ops[o].author < |sessions|
      requires row == Update("update", ops[o].content, sessions[ops[o].author].user)
      modifies this
      ensures Current() == Apply(old(Current()), Persist(o, write))
      ensures room == old(room)
      ensures ok <==> write.Stored? && num !in old(updates)
      ensures ok ==> num in updates && updates[num] == row
    {
      if write.NotStored? || num in updates {
        ok := false;
        ops := ops[o := ops[o].(phase := Finished(StoreError))];
      } else {
        updates := updates[num := row];
        ok := write.Stored?;
        ops := ops[o := ops[o].(phase := if !ok then Finished(StoreError)
                                         else if num % interval == 0 then NeedSnapshot else Sending)];
      }
    }

    method CreateSnapshot(snapshot: Snapshot, write: Write, ghost o: nat) returns (ok: bool)
      requires o < |ops| && ops[o].phase.NeedSnapshot? && snapshot == Snapshot(ops[o].num, ops[o].content)
      modifies this
      ensures Current() == Apply(old(Current()), PersistSnapshot(o, write))
      ensures room == old(room)
      ensures ok <==> write.Stored?
    {
      ok := write.Stored?;
      if !write.NotStored? {
        snapshots := snapshots + [snapshot];
      }
      ops := ops[o := ops[o].(phase := if ok then Sending else Finished(StoreError))];
    }

    /** The non-blocking send of the broadcast loop; on the closed queue of a session that left it panics. */
    method SendTo(y: nat, message: Message, ghost o: nat) returns (panicked: bool)
      requires o < |ops| && ops[o].phase.Sending? && ops[o].author < |sessions|
      requires y < |sessions| && y in ops[o].Receivers() && y !in ops[o].sent
      requires message == UpdateMessage(ops[o].content, ops[o].num, sessions[ops[o].author].user)
      modifies this
      ensures Current() == Apply(old(Current()), Offer(o, y))
      ensures room == old(room) && (panicked <==> old(sessions)[y].leftAt.Some?)
    {
      panicked := sessions[y].leftAt.Some?;
      if panicked {
        ops := ops[o := ops[o].(phase := Finished(Panicked))];
        return;
      }
      if |sessions[y].queue| < QUEUE_CAPACITY {
        sessions := sessions[y := sessions[y].(queue := sessions[y].queue + [message])];
      }
      ops := ops[o := ops[o].(sent := ops[o].sent + [y])];
    }

    // ---- The service calls, uninterrupted.

    /** The reads of currentContent on behalf of call `c`. */
    method LoadContent(ghost c: nat) returns (content: string, num: nat, ghost pick: nat)
      requires AllUpdates(updates) && SnapshotsAgree(TheStore())
      requires c < |calls| && calls[c].phase.Checked?
      modifies this`calls
      ensures snapshots != [] ==> IsLatest(snapshots, pick)
      ensures Current() == Run(old(Current()), ReadSchedule(TheStore(), c, pick))
      ensures calls == old(calls)[c := old(calls)[c].(phase := Loaded(content, num))]
      ensures (content, num) == Head(TheStore())
    {
      content, num, pick := CurrentContent();
      RecoveryIsFullReplay(TheStore(), pick);
      ReadsTogether(Current(), c, pick);
      calls := calls[c := calls[c].(phase := Loaded(content, num))];
    }

    method GetRoom(user: string, canEdit: bool) returns (r: LiveRoom, ghost c: nat, ghost pick: nat)
      requires AllUpdates(updates) && SnapshotsAgree(TheStore())
      modifies this
      ensures snapshots != [] ==> IsLatest(snapshots, pick)
      ensures Current() == Run(old(Current()), GetRoomSchedule(old(Current()), user, canEdit, pick))
      ensures r == room && (if old(room) == null then fresh(room) else room == old(room))
      ensures old(room) == null ==> (r.content, r.updateSeq) == Head(TheStore()) && r.clients == {}
      ensures c == |old(calls)| && |calls| == c + 1 && calls[c] == Call(user, canEdit, true, Found(0))
      ensures sessions == old(sessions) && TheStore() == old(TheStore())
    {
      ghost var s0 := Current();
      c, pick := |calls|, 0;
      var existing := CheckInstalled(user, canEdit);
      RunOne(s0, Check(user, canEdit));
      if existing != null {
        r := existing;
        if snapshots != [] { pick := SomeLatest(snapshots); }
      } else {
        ghost var s1 := Current();
        r, pick := BuildRoom(user, canEdit, c);
        GetRoomRuns(s0, s1, user, canEdit, pick);
      }
    }

    /** The slow path: the store is read outside the lock, then the room is installed under it. */
    method BuildRoom(user: string, canEdit: bool, ghost c: nat) returns (r: LiveRoom, ghost pick: nat)
      requires AllUpdates(updates) && SnapshotsAgree(TheStore())
      requires room == null && c < |calls| && calls[c] == Call(user, canEdit, true, Checked)
      modifies this
      ensures snapshots != [] ==> IsLatest(snapshots, pick)
      ensures Current() == Apply(Run(old(Current()), ReadSchedule(TheStore(), c, pick)), Install(c))
      ensures fresh(r) && room == r && (r.content, r.updateSeq) == Head(TheStore()) && r.clients == {}
      ensures calls == old(calls)[c := Call(user, canEdit, true, Found(0))]
      ensures sessions == old(sessions) && TheStore() == old(TheStore())
    {
      var content, num;
      content, num, pick := LoadContent(c);
      r := InstallRoom(content, num, c);
    }

    method Join(user: string, canEdit: bool) returns (x: nat, ghost pick: nat)
      requires Inv(Current())
      modifies this, room
      ensures Inv(Current())
      ensures Current() == Run(old(Current()), JoinSchedule(old(Current()), user, canEdit, pick))
      ensures room != null && (old(room) == null ==> (room.content, room.updateSeq) == Head(TheStore()))
      ensures TheStore() == old(TheStore())
      ensures x == |old(sessions)| && x in room.clients
      ensures sessions == old(sessions) + [Session(user, canEdit, 0, room.content, room.updateSeq, None,
                                                   [InitMessage(room.content, canEdit, room.updateSeq)])]
    {
      ghost var s0 := Current();
      var r;
      ghost var c;
      r, c, pick := GetRoom(user, canEdit);
      ghost var s1 := Current();
      x := EnterAndInit(user, canEdit, c);
      JoinRuns(s0, s1, user, canEdit, pick);
    }

    /** The two writes of applyContentUpdate; `ok` means the broadcast may start. */
    method PersistBoth(x: nat, num: nat, content: string, first: Write, second: Write, ghost o: nat) returns (ok: bool)
      requires x < |sessions| && num !in updates
      requires o < |ops| && ops[o].author == x && ops[o].num == num && ops[o].content == content
      requires ops[o].phase.NeedPersist?
      modifies this
      ensures Current() == Run(old(Current()), if first.Stored? && num % interval == 0
                                               then [Persist(o, first), PersistSnapshot(o, second)]
                                               else [Persist(o, first)])
      ensures room == old(room) && sessions == old(sessions) && |ops| == |old(ops)|
      ensures ok <==> first.Stored? && (num % interval == 0 ==> second.Stored?)
      ensures ok ==> updates == old(updates)[num := Update("update", content, sessions[x].user)]
      ensures ok ==> ops[o] == old(ops)[o].(phase := Sending)
    {
      ghost var start := Current();
      ok := CreateUpdate(num, Update("update", content, sessions[x].user), first, o);
      RunOne(start, Persist(o, first));
      if ok && num % interval == 0 {
        ok := CreateSnapshot(Snapshot(num, content), second, o);
        RunTwo(start, Persist(o, first), PersistSnapshot(o, second));
      }
    }

    /** The broadcast loop: it panics at the first receiver that left, exactly when there is one. */
    method Broadcast(order: seq<nat>, author: nat, message: Message, ghost o: nat) returns (panicked: bool)
      requires o < |ops| && ops[o].phase.Sending? && ops[o].sent == [] && ops[o].author == author < |sessions|
      requires IsWalk(Current(), o, order)
      requires message == BroadcastMessage(Current(), o)
      modifies this
      ensures Current() == Run(old(Current()), Offers(o, Without(order, author)))
      ensures room == old(room)
      ensures !panicked <==> AllHere(old(sessions), order, author)
    {
      ghost var start := Current();
      var i := 0;
      panicked := false;
      while i < |order| && !panicked
        invariant 0 <= i <= |order|
        invariant room == old(room)
        invariant !panicked ==> AllHere(start.proc.sessions, order[..i], author)
        invariant !panicked ==> Current() == Run(start, Offers(o, Without(order[..i], author)))
        invariant panicked ==> Current() == Run(start, Offers(o, Without(order, author)))
        invariant panicked ==> !AllHere(start.proc.sessions, order, author)
      {
        BeforeTurn(start, o, order, i);
        BroadcastTurn(start, o, order, i, author);
        HereSoFar(start.proc.sessions, order, i, author);
        if order[i] != author {
          panicked := SendTo(order[i], message, o);
          if panicked { PanicStops(start, o, order, i); }
        }
        i := i + 1;
      }
      assert order[..|order|] == order;
    }

    /** The whole broadcast loop and, unless it panicked, the return of success. */
    method BroadcastAll(order: seq<nat>, author: nat, message: Message, ghost o: nat) returns (panicked: bool)
      requires o < |ops| && ops[o].phase.Sending? && ops[o].sent == [] && ops[o].author == author < |sessions|
      requires IsWalk(Current(), o, order)
      requires message == BroadcastMessage(Current(), o)
      modifies this
      ensures Current() == Run(old(Current()), Offers(o, Without(order, author)) + [Finish(o)])
      ensures room == old(room) && TheStore() == old(TheStore())
      ensures !panicked <==> AllHere(old(sessions), order, author)
      ensures acked == if panicked then old(acked) else old(acked) + {old(ops)[o].num}
      ensures !panicked ==> AllServed(old(sessions), sessions, order, author, message)
    {
      ghost var start := Current();
      BroadcastRuns(start, o, order);
      panicked := Broadcast(order, author, message, o);
      if !panicked {
        ops := ops[o := ops[o].(phase := Finished(Success))];
        acked := acked + {ops[o].num};
      }
    }

    /** Everything applyContentUpdate does outside the lock, whoever has left since the receivers were captured. */
    method PersistAndSend(x: nat, num: nat, content: string, order: seq<nat>, first: Write, second: Write, ghost o: nat)
      returns (outcome: Outcome)
      requires x < |sessions| && num !in updates && o < |ops|
      requires ops[o] == Op(x, 0, num, content, Elements(order), [], NeedPersist)
      requires Distinct(order) && forall i :: 0 <= i < |order| ==> order[i] < |sessions|
      modifies this
      ensures Current() == Unlocked(old(Current()), o, num % interval == 0, x, order, first, second)
      ensures room == old(room)
      ensures outcome == StoreError <==> !(first.Stored? && (num % interval == 0 ==> second.Stored?))
      ensures outcome != StoreError ==>
                updates == old(updates)[num := Update("update", content, old(sessions)[x].user)]
                && (outcome == Panicked <==> !AllHere(old(sessions), order, x))
      ensures outcome == StoreError ==> sessions == old(sessions)
      ensures outcome == Success ==>
                num in acked
                && AllServed(old(sessions), sessions, order, x, UpdateMessage(content, num, old(sessions)[x].user))
    {
      var ok := PersistBoth(x, num, content, first, second, o);
      if !ok { return StoreError; }
      var panicked := BroadcastAll(order, x, UpdateMessage(content, num, sessions[x].user), o);
      outcome := if panicked then Panicked else Success;
    }

    /** The stages of applyContentUpdate one after the other. */
    method UpdateStages(x: nat, content: string, order: seq<nat>, first: Write, second: Write) returns (ok: bool)
      requires room != null && x < |sessions| && sessions[x].canEdit && sessions[x].room == 0
      requires room.updateSeq + 1 !in updates
      requires Distinct(order) && Elements(order) == room.clients
      requires forall y :: y in order ==> y < |sessions| && sessions[y].leftAt.None?
      modifies this, room
      ensures Current() == Stages(old(Current()), x, content, order, first, second)
      ensures room == old(room) && room.content == content && room.updateSeq == old(room.updateSeq) + 1
      ensures ok <==> first.Stored? && (room.updateSeq % interval == 0 ==> second.Stored?)
      ensures |sessions| == |old(sessions)|
      ensures ok ==> updates == old(updates)[room.updateSeq := Update("update", content, old(sessions)[x].user)]
      ensures ok ==> room.updateSeq in acked
      ensures forall y :: 0 <= y < |sessions| ==>
        sessions[y] == if ok && y in room.clients && y != x
                       then Enqueue(old(sessions)[y], UpdateMessage(content, room.updateSeq, old(sessions)[x].user))
                       else old(sessions)[y]
    {
      ghost var o := |ops|;
      var num, receivers := AssignNumber(x, content);
      assert forall i :: 0 <= i < |order| ==> order[i] in order;
      var outcome := PersistAndSend(x, num, content, order, first, second, o);
      ok := outcome == Success;
    }

    /** `order` is the order in which the map of clients is walked. */
    method ApplyContentUpdate(x: nat, content: string, order: seq<nat>, first: Write, second: Write) returns (ok: bool)
      requires Inv(Current()) && x < |sessions| && sessions[x].canEdit
      requires room != null && Distinct(order) && Elements(order) == room.clients
      modifies this, room
      ensures Inv(Current())
      ensures Current() == Run(old(Current()), UpdateSchedule(old(Current()), x, content, order, first, second))
      ensures room == old(room) && room.content == content && room.updateSeq == old(room.updateSeq) + 1
      ensures ok <==> first.Stored? && (room.updateSeq % interval == 0 ==> second.Stored?)
      ensures |sessions| == |old(sessions)|
      ensures ok ==> updates == old(updates)[room.updateSeq := Update("update", content, old(sessions)[x].user)]
      ensures ok ==> room.updateSeq in acked
      ensures forall y :: 0 <= y < |sessions| ==>
        sessions[y] == if ok && y in room.clients && y != x
                       then Enqueue(old(sessions)[y], UpdateMessage(content, room.updateSeq, old(sessions)[x].user))
                       else old(sessions)[y]
    {
      UpdateRuns(Current(), x, content, order, first, second);
      ok := UpdateStages(x, content, order, first, second);
    }

    /** The error message to a session that may not edit; on the closed queue of one that left it panics. */
    method RefuseUpdate(x: nat, ghost content: string) returns (panicked: bool)
      requires Inv(Current()) && x < |sessions| && !sessions[x].canEdit
      modifies this`sessions
      ensures Inv(Current())
      ensures Current() == Run(old(Current()), [Submit(x, content)])
      ensures panicked <==> old(sessions)[x].leftAt.Some?
      ensures sessions == if panicked then old(sessions)
              else old(sessions)[x := Enqueue(old(sessions)[x], ErrorMessage)]
    {
      RefusalRuns(Current(), x, content);
      panicked := sessions[x].leftAt.Some?;
      if !panicked && |sessions[x].queue| < QUEUE_CAPACITY {
        sessions := sessions[x := sessions[x].(queue := sessions[x].queue + [ErrorMessage])];
      }
    }

    method NoticeTo(y: nat)
      requires y < |sessions| && sessions[y].leftAt.None?
      modifies this`sessions
      ensures Current() == Apply(old(Current()), Notice(y))
      ensures sessions == old(sessions)[y := Enqueue(old(sessions)[y], NoticeMessage)]
    {
      if |sessions[y].queue| < QUEUE_CAPACITY {
        sessions := sessions[y := sessions[y].(queue := sessions[y].queue + [NoticeMessage])];
      }
    }

    /** Presence goes to every client, a cursor to every other one; the receivers were captured under the lock. */
    method Notify(receivers: seq<nat>)
      requires forall i :: 0 <= i < |receivers| ==>
                 receivers[i] < |sessions| && sessions[receivers[i]].leftAt.None?
      requires Distinct(receivers)
      modifies this`sessions
      ensures Current() == Run(old(Current()), Notices(receivers))
      ensures AllNoticed(old(sessions), sessions, receivers)
    {
      ghost var start := Current();
      var i := 0;
      while i < |receivers|
        invariant 0 <= i <= |receivers|
        invariant Current() == Run(start, Notices(receivers[..i]))
        invariant AllNoticed(start.proc.sessions, sessions, receivers[..i])
      {
        NoticeTurn(start, receivers, i);
        NoticedMore(start.proc.sessions, sessions, receivers, i);
        NoticeTo(receivers[i]);
        i := i + 1;
      }
      assert receivers[..|receivers|] == receivers;
    }

    /**
      An editor's update is accepted exactly when its due writes are stored; it is then logged, acknowledged and sent to
      every other client. A session that could not edit when it joined gets an error message and changes nothing else.
      Presence goes to every client, a valid cursor to every client but its own.
     */
    method ApplyClientMessage(x: nat, message: ClientMessage, order: seq<nat>, first: Write, second: Write)
      returns (answer: Answer)
      requires Inv(Current()) && x < |sessions|
      requires room != null && Distinct(order) && Elements(order) == room.clients
      modifies this, room
      ensures Inv(Current())
      ensures answer == Forbidden <==>
                message.UpdateRequest? && !old(sessions)[x].canEdit && old(sessions)[x].leftAt.None?
      ensures answer == Crashed <==>
                message.UpdateRequest? && !old(sessions)[x].canEdit && old(sessions)[x].leftAt.Some?
      ensures message.UpdateRequest? && old(sessions)[x].canEdit ==>
        && room == old(room) && room.content == message.content && room.updateSeq == old(room.updateSeq) + 1
        && (answer == Accepted <==> first.Stored? && (room.updateSeq % interval == 0 ==> second.Stored?))
        && (answer == Accepted ==>
              room.updateSeq in acked
              && updates == old(updates)[room.updateSeq := Update("update", message.content, old(sessions)[x].user)])
      ensures !message.UpdateRequest? ==> answer == Accepted
      ensures |sessions| == |old(sessions)|
      ensures forall y :: 0 <= y < |sessions| ==>
        sessions[y] == if IsSentTo(message, answer, old(sessions)[x].canEdit, x, y, old(room.clients))
                       then Enqueue(old(sessions)[y], SentFor(message, answer, room.updateSeq, old(sessions)[x].user))
                       else old(sessions)[y]
      ensures message.UpdateRequest? ==>
        Current() == Run(old(Current()), if old(sessions)[x].canEdit
                                         then UpdateSchedule(old(Current()), x, message.content, order, first, second)
                                         else [Submit(x, message.content)])
      ensures !message.UpdateRequest? ==>
        Current() == Run(old(Current()), Notices(Notified(message, x, order)))
      ensures !message.UpdateRequest? || !old(sessions)[x].canEdit ==>
        TheStore() == old(TheStore()) && room == old(room) && room.Value() == old(room.Value())
    {
      answer := Accepted;
      if message.UpdateRequest? {
        if !sessions[x].canEdit {
          var panicked := RefuseUpdate(x, message.content);
          return if panicked then Crashed else Forbidden;
        }
        var ok := ApplyContentUpdate(x, message.content, order, first, second);
        answer := if ok then Accepted else Failed;
      } else {
        PassOn(x, message, order);
      }
    }

    method PassOn(x: nat, message: ClientMessage, order: seq<nat>)
      requires Inv(Current()) && x < |sessions| && !message.UpdateRequest?
      requires room != null && Distinct(order) && Elements(order) == room.clients
      modifies this`sessions
      ensures Inv(Current())
      ensures Current() == Run(old(Current()), Notices(Notified(message, x, order)))
      ensures |sessions| == |old(sessions)|
      ensures forall y :: 0 <= y < |sessions| ==>
        sessions[y] == if IsSentTo(message, Accepted, false, x, y, room.clients)
                       then Enqueue(old(sessions)[y], NoticeMessage) else old(sessions)[y]
    {
      NotifiedAreHere(Current(), message, x, order);
      RunKeeps(Current(), Notices(Notified(message, x, order)));
      Notify(Notified(message, x, order));
    }
  }

  /** Who has a message queued after a client's message. */
  predicate IsSentTo(message: ClientMessage, answer: Answer, canEdit: bool, x: nat, y: nat, clients: set<nat>) {
    match message
    case UpdateRequest(_) =>
      if canEdit then answer == Accepted && y in clients && y != x else answer == Forbidden && y == x
    case PresenceRequest => y in clients
    case CursorRequest(valid) => valid && y in clients && y != x
    case OtherRequest => false
  }

  function SentFor(message: ClientMessage, answer: Answer, num: nat, author: string): Message {
    if !message.UpdateRequest? then NoticeMessage
    else if answer == Forbidden then ErrorMessage
    else UpdateMessage(message.content, num, author)
  }

  /** Whom a message that is no update is passed on to. */
  function Notified(message: ClientMessage, x: nat, order: seq<nat>): seq<nat> {
    if message.PresenceRequest? then order
    else if message == CursorRequest(true) then Without(order, x)
    else []
  }

  function Notices(receivers: seq<nat>): seq<Event> {
    seq(|receivers|, i requires 0 <= i < |receivers| => Notice(receivers[i]))
  }

  predicate AllNoticed(before: seq<Session>, after: seq<Session>, receivers: seq<nat>) {
    |after| == |before|
    && forall y :: 0 <= y < |after| ==>
         after[y] == if y in receivers then Enqueue(before[y], NoticeMessage) else before[y]
  }

  lemma NoticeTurn(s: State, receivers: seq<nat>, i: nat)
    requires i < |receivers|
    ensures Run(s, Notices(receivers[..i + 1])) == Apply(Run(s, Notices(receivers[..i])), Notice(receivers[i]))
  {
    assert Notices(receivers[..i + 1]) == Notices(receivers[..i]) + [Notice(receivers[i])];
    RunSnoc(s, Notices(receivers[..i]), Notice(receivers[i]));
  }

  lemma NoticedMore(before: seq<Session>, now: seq<Session>, receivers: seq<nat>, i: nat)
    requires i < |receivers| && Distinct(receivers) && AllNoticed(before, now, receivers[..i])
    requires receivers[i] < |now|
    ensures now[receivers[i]] == before[receivers[i]]
    ensures AllNoticed(before, now[receivers[i] := Enqueue(now[receivers[i]], NoticeMessage)], receivers[..i + 1])
  {
    assert receivers[..i + 1] == receivers[..i] + [receivers[i]];
    assert receivers[i] !in receivers[..i];
  }

  lemma NotifiedAreHere(s: State, message: ClientMessage, x: nat, order: seq<nat>)
    requires Inv(s) && s.proc.rooms != [] && Distinct(order) && Elements(order) == s.proc.rooms[0].clients
    ensures var receivers := Notified(message, x, order);
            && Distinct(receivers)
            && (!message.UpdateRequest? ==> forall y ::
                 y in receivers <==> IsSentTo(message, Accepted, false, x, y, s.proc.rooms[0].clients))
            && forall i :: 0 <= i < |receivers| ==>
                 receivers[i] < |s.proc.sessions| && s.proc.sessions[receivers[i]].leftAt.None?
  {
    var receivers := Notified(message, x, order);
    ClientsAreHere(s, order);
    WithoutElements(order, x);
    forall i | 0 <= i < |receivers| ensures receivers[i] in order {
      assert receivers[i] in Elements(receivers) && (receivers == order || Elements(receivers) <= Elements(order));
    }
  }

  ghost function GetRoomSchedule(s: State, user: string, canEdit: bool, pick: nat): seq<Event> {
    var c := |s.proc.calls|;
    [Check(user, canEdit)] +
    if s.proc.installed.Some? then []
    else ReadSchedule(s.store, c, pick) + [Install(c)]
  }

  /** currentContent without interruption. */
  ghost function ReadSchedule(store: Store, c: nat, pick: nat): seq<Event> {
    if store.snapshots == [] then [ReadSnapshot(c, pick), ReadInitial(c), ReadUpdates(c)]
    else [ReadSnapshot(c, pick), ReadUpdates(c)]
  }

  lemma ReadsTogether(s: State, c: nat, pick: nat)
    requires c < |s.proc.calls| && s.proc.calls[c].phase.Checked?
    requires s.store.snapshots != [] ==> IsLatest(s.store.snapshots, pick)
    ensures var (content, num) := CollabMachine.CurrentContent(s.store, pick);
            Run(s, ReadSchedule(s.store, c, pick)) == SetCall(s, c, Loaded(content, num))
  {
    var base := if s.store.snapshots == [] then Based(s.store.initial, 0)
                else Based(s.store.snapshots[pick].content, s.store.snapshots[pick].versionNo);
    if s.store.snapshots == [] {
      RunThree(s, ReadSnapshot(c, pick), ReadInitial(c), ReadUpdates(c));
      assert DoReadInitial(DoReadSnapshot(s, c, pick), c) == SetCall(s, c, base);
    } else {
      RunTwo(s, ReadSnapshot(c, pick), ReadUpdates(c));
      assert DoReadSnapshot(s, c, pick) == SetCall(s, c, base);
    }
  }

  lemma GetRoomRuns(s0: State, s1: State, user: string, canEdit: bool, pick: nat)
    requires s0.proc.installed.None? && s1 == Apply(s0, Check(user, canEdit))
    ensures var c := |s0.proc.calls|;
            Apply(Run(s1, ReadSchedule(s0.store, c, pick)), Install(c)) ==
            Run(s0, GetRoomSchedule(s0, user, canEdit, pick))
  {
    var c := |s0.proc.calls|;
    var readEvents := ReadSchedule(s0.store, c, pick);
    RunOne(s0, Check(user, canEdit));
    RunConcat(s0, [Check(user, canEdit)], readEvents);
    RunSnoc(s0, [Check(user, canEdit)] + readEvents, Install(c));
    assert [Check(user, canEdit)] + readEvents + [Install(c)] == [Check(user, canEdit)] + (readEvents + [Install(c)]);
  }

  lemma InitSent(s: State, c: nat, init: Message)
    requires c < |s.proc.calls| && s.proc.calls[c].phase.Entered? && s.proc.calls[c].phase.session < |s.proc.sessions|
    requires var session := s.proc.sessions[s.proc.calls[c].phase.session];
             && session.leftAt.None? && session.queue == []
             && init == InitMessage(session.initContent, session.canEdit, session.initSeq)
    ensures var x := s.proc.calls[c].phase.session;
            Apply(s, SendInit(c)) == SetCall(SetSession(s, x, s.proc.sessions[x].(queue := [init])), c, Returned)
  {
    assert [] + [init] == [init];
  }

  lemma JoinRuns(s0: State, s1: State, user: string, canEdit: bool, pick: nat)
    requires Inv(s0)
    requires s1 == Run(s0, GetRoomSchedule(s0, user, canEdit, pick))
    ensures Apply(Apply(s1, Enter(|s0.proc.calls|)), SendInit(|s0.proc.calls|)) ==
            Run(s0, JoinSchedule(s0, user, canEdit, pick))
    ensures Inv(Run(s0, JoinSchedule(s0, user, canEdit, pick)))
  {
    var c := |s0.proc.calls|;
    RunTwo(s1, Enter(c), SendInit(c));
    RunConcat(s0, GetRoomSchedule(s0, user, canEdit, pick), [Enter(c), SendInit(c)]);
    RunKeeps(s0, JoinSchedule(s0, user, canEdit, pick));
  }

  /** What applyContentUpdate does outside the lock: the writes, then the broadcast if they succeeded. */
  ghost function Unlocked(s: State, o: nat, due: bool, x: nat, order: seq<nat>, first: Write, second: Write): State {
    var written := Run(s, if first.Stored? && due then [Persist(o, first), PersistSnapshot(o, second)]
                          else [Persist(o, first)]);
    if first.Stored? && (due ==> second.Stored?) then Run(written, Offers(o, Without(order, x)) + [Finish(o)])
    else written
  }

  /** applyContentUpdate stage by stage: the locked section, the writes, the broadcast. */
  ghost function Stages(s: State, x: nat, content: string, order: seq<nat>, first: Write, second: Write): State {
    Unlocked(Apply(s, Submit(x, content)), |s.proc.ops|, SnapshotDue(s), x, order, first, second)
  }

  lemma UpdateRuns(s: State, x: nat, content: string, order: seq<nat>, first: Write, second: Write)
    requires Inv(s) && s.proc.rooms != [] && x < |s.proc.sessions| && Elements(order) == s.proc.rooms[0].clients
    ensures Run(s, UpdateSchedule(s, x, content, order, first, second)) == Stages(s, x, content, order, first, second)
    ensures Inv(Stages(s, x, content, order, first, second))
    ensures s.proc.sessions[x].room == 0 && s.proc.rooms[0].updateSeq + 1 !in s.store.updates
    ensures forall y :: y in order ==> y < |s.proc.sessions| && s.proc.sessions[y].leftAt.None?
  {
    var writes := WriteSchedule(s, x, content, first, second);
    WritesAfterSubmit(s, x, content, first, second);
    RunKeeps(s, UpdateSchedule(s, x, content, order, first, second));
    if WritesSucceed(s, first, second) {
      RunConcat(s, writes, Offers(|s.proc.ops|, Without(order, x)) + [Finish(|s.proc.ops|)]);
    } else {
      assert writes + [] == writes;
    }
    ClientsAreHere(s, order);
    assert SessionInv(s.proc.rooms[0], x, s.proc.sessions[x]);
  }

  ghost function JoinSchedule(s: State, user: string, canEdit: bool, pick: nat): seq<Event> {
    var c := |s.proc.calls|;
    GetRoomSchedule(s, user, canEdit, pick) + [Enter(c), SendInit(c)]
  }

  function Without(order: seq<nat>, x: nat): seq<nat> {
    if order == [] then []
    else
      var n := |order| - 1;
      Without(order[..n], x) + (if order[n] == x then [] else [order[n]])
  }

  lemma WithoutNext(order: seq<nat>, i: nat, x: nat)
    requires i < |order|
    ensures Without(order[..i + 1], x) ==
            if order[i] == x then Without(order[..i], x) else Without(order[..i], x) + [order[i]]
  {
    assert order[..i + 1][..i] == order[..i];
  }

  lemma {:induction false} WithoutElements(order: seq<nat>, x: nat)
    ensures Elements(Without(order, x)) == Elements(order) - {x}
    ensures Distinct(order) ==> Distinct(Without(order, x))
    decreases |order|
  {
    if order != [] {
      var n := |order| - 1;
      WithoutElements(order[..n], x);
      assert order == order[..n] + [order[n]];
      assert Elements(order) == Elements(order[..n]) + {order[n]};
      assert Elements(Without(order, x)) ==
             Elements(Without(order[..n], x)) + (if order[n] == x then {} else {order[n]});
      assert Distinct(order) ==> order[n] !in Elements(order[..n]);
      assert forall y :: y in Without(order[..n], x) ==> y in Elements(Without(order[..n], x));
    }
  }

  ghost predicate WritesSucceed(s: State, first: Write, second: Write) {
    first.Stored? && (SnapshotDue(s) ==> second.Stored?)
  }

  ghost predicate SnapshotDue(s: State) {
    s.proc.rooms != [] && (s.proc.rooms[0].updateSeq + 1) % s.interval == 0
  }

  /** applyContentUpdate up to its last write. */
  ghost function WriteSchedule(s: State, x: nat, content: string, first: Write, second: Write): seq<Event> {
    var o := |s.proc.ops|;
    if first.Stored? && SnapshotDue(s) then [Submit(x, content), Persist(o, first), PersistSnapshot(o, second)]
    else [Submit(x, content), Persist(o, first)]
  }

  /** The whole of applyContentUpdate without interruption, with the outcome of its two writes. */
  ghost function UpdateSchedule(s: State, x: nat, content: string, order: seq<nat>,
                                first: Write, second: Write): seq<Event> {
    var o := |s.proc.ops|;
    WriteSchedule(s, x, content, first, second) +
    if WritesSucceed(s, first, second) then Offers(o, Without(order, x)) + [Finish(o)] else []
  }

  /** `order` walks the captured clients of operation `o`, each once; some may have left since. */
  ghost predicate IsWalk(s: State, o: nat, order: seq<nat>) {
    o < |s.proc.ops| && Distinct(order) && Elements(order) == s.proc.ops[o].targets
    && forall i :: 0 <= i < |order| ==> order[i] < |s.proc.sessions|
  }

  /** Nobody in `order`, the author aside, has left. */
  predicate AllHere(sessions: seq<Session>, order: seq<nat>, author: nat) {
    forall y :: y in order && y != author ==> y < |sessions| && sessions[y].leftAt.None?
  }

  ghost predicate AllServed(before: seq<Session>, after: seq<Session>, order: seq<nat>, author: nat, message: Message) {
    |after| == |before|
    && forall y :: 0 <= y < |after| ==>
         after[y] == if y in Elements(order) && y != author then Enqueue(before[y], message) else before[y]
  }

  /** Where the broadcast loop stands after walking `i` clients that are all still here. */
  lemma SentSoFar(s: State, o: nat, order: seq<nat>, i: nat)
    requires IsWalk(s, o, order) && s.proc.ops[o].phase.Sending? && s.proc.ops[o].sent == []
    requires s.proc.ops[o].author < |s.proc.sessions|
    requires i <= |order| && AllHere(s.proc.sessions, order[..i], s.proc.ops[o].author)
    ensures var sent := Without(order[..i], s.proc.ops[o].author);
            && Serves(s, o, sent)
            && Served(s, o, sent, Run(s, Offers(o, sent)))
            && Run(s, Offers(o, sent)).proc.ops[o].sent == sent
            && Elements(sent) == Elements(order[..i]) - {s.proc.ops[o].author}
            && (i < |order| ==> order[i] in s.proc.ops[o].targets && order[i] !in sent)
  {
    var sent := Without(order[..i], s.proc.ops[o].author);
    WithoutElements(order[..i], s.proc.ops[o].author);
    forall y | y in sent ensures y in s.proc.ops[o].Receivers() && y in order && y in order[..i] {
      assert y in Elements(sent);
      assert y in Elements(order[..i]);
      assert y in Elements(order);
    }
    OffersGoThrough(s, o, sent);
    assert [] + sent == sent;
    if i < |order| {
      assert order[i] in Elements(order) && order[i] !in order[..i];
    }
  }

  /** The broadcast before turn `i`: still sending, to the captured receivers, with the captured message. */
  lemma BeforeTurn(s: State, o: nat, order: seq<nat>, i: nat)
    requires IsWalk(s, o, order) && s.proc.ops[o].phase.Sending? && s.proc.ops[o].sent == []
    requires s.proc.ops[o].author < |s.proc.sessions|
    requires i < |order| && AllHere(s.proc.sessions, order[..i], s.proc.ops[o].author)
    ensures var author := s.proc.ops[o].author;
            var before := Run(s, Offers(o, Without(order[..i], author)));
            && |before.proc.ops| == |s.proc.ops| && |before.proc.sessions| == |s.proc.sessions|
            && before.proc.ops[o].phase.Sending? && before.proc.ops[o].author == author
            && BroadcastMessage(before, o) == BroadcastMessage(s, o)
            && before.proc.sessions[order[i]].leftAt == s.proc.sessions[order[i]].leftAt
            && (order[i] != author ==>
                  order[i] in before.proc.ops[o].Receivers() && order[i] !in before.proc.ops[o].sent)
  {
    var sent := Without(order[..i], s.proc.ops[o].author);
    SentSoFar(s, o, order, i);
  }

  /** One turn of the loop: the author is skipped, anyone else is offered the message. */
  lemma BroadcastTurn(s: State, o: nat, order: seq<nat>, i: nat, author: nat)
    requires i < |order|
    ensures var before := Run(s, Offers(o, Without(order[..i], author)));
            Run(s, Offers(o, Without(order[..i + 1], author))) ==
            if order[i] == author then before else Apply(before, Offer(o, order[i]))
  {
    var sent := Without(order[..i], author);
    WithoutNext(order, i, author);
    if order[i] != author {
      assert Offers(o, sent + [order[i]]) == Offers(o, sent) + [Offer(o, order[i])];
      RunSnoc(s, Offers(o, sent), Offer(o, order[i]));
    }
  }

  lemma HereSoFar(sessions: seq<Session>, order: seq<nat>, i: nat, author: nat)
    requires i < |order| && order[i] < |sessions| && AllHere(sessions, order[..i], author)
    ensures AllHere(sessions, order[..i + 1], author) <==> order[i] == author || sessions[order[i]].leftAt.None?
  {
    assert order[..i + 1] == order[..i] + [order[i]];
    assert order[i] in order[..i + 1];
  }

  /** At a receiver that left the update is over: the offers that would follow change nothing. */
  lemma PanicStops(s: State, o: nat, order: seq<nat>, i: nat)
    requires IsWalk(s, o, order) && s.proc.ops[o].phase.Sending? && s.proc.ops[o].sent == []
    requires s.proc.ops[o].author < |s.proc.sessions|
    requires i < |order| && AllHere(s.proc.sessions, order[..i], s.proc.ops[o].author)
    requires order[i] != s.proc.ops[o].author && s.proc.sessions[order[i]].leftAt.Some?
    ensures var author := s.proc.ops[o].author;
            && Run(s, Offers(o, Without(order, author))) == Run(s, Offers(o, Without(order[..i + 1], author)))
            && !AllHere(s.proc.sessions, order, author)
            && |Run(s, Offers(o, Without(order, author))).proc.ops| == |s.proc.ops|
            && Run(s, Offers(o, Without(order, author))).proc.ops[o].phase == Finished(Panicked)
  {
    var author := s.proc.ops[o].author;
    BeforeTurn(s, o, order, i);
    BroadcastTurn(s, o, order, i, author);
    AfterPanic(s, o, order, i, author);
    assert order[i] in order;
  }

  lemma AfterPanic(s: State, o: nat, order: seq<nat>, i: nat, author: nat)
    requires i < |order|
    requires var stopped := Run(s, Offers(o, Without(order[..i + 1], author)));
             o < |stopped.proc.ops| && !stopped.proc.ops[o].phase.Sending?
    ensures Run(s, Offers(o, Without(order, author))) == Run(s, Offers(o, Without(order[..i + 1], author)))
  {
    var first, rest := Without(order[..i + 1], author), Without(order[i + 1..], author);
    WithoutConcat(order[..i + 1], order[i + 1..], author);
    assert order[..i + 1] + order[i + 1..] == order;
    assert Offers(o, first + rest) == Offers(o, first) + Offers(o, rest);
    RunConcat(s, Offers(o, first), Offers(o, rest));
    FinishedStays(Run(s, Offers(o, first)), o, rest);
  }

  lemma {:induction false} WithoutConcat(a: seq<nat>, b: seq<nat>, x: nat)
    ensures Without(a + b, x) == Without(a, x) + Without(b, x)
    decreases |b|
  {
    if b == [] {
      assert a + b == a;
    } else {
      var n := |b| - 1;
      assert (a + b)[..|a + b| - 1] == a + b[..n];
      WithoutConcat(a, b[..n], x);
    }
  }

  lemma OffersSnoc(s: State, o: nat, receivers: seq<nat>)
    requires receivers != []
    ensures var n := |receivers| - 1;
            Run(s, Offers(o, receivers)) == Apply(Run(s, Offers(o, receivers[..n])), Offer(o, receivers[n]))
  {
    var n := |receivers| - 1;
    assert Offers(o, receivers) == Offers(o, receivers[..n]) + [Offer(o, receivers[n])];
    RunSnoc(s, Offers(o, receivers[..n]), Offer(o, receivers[n]));
  }

  lemma {:induction false} FinishedStays(s: State, o: nat, receivers: seq<nat>)
    requires o < |s.proc.ops| && !s.proc.ops[o].phase.Sending?
    ensures Run(s, Offers(o, receivers)) == s
    decreases |receivers|
  {
    if receivers != [] {
      var n := |receivers| - 1;
      FinishedStays(s, o, receivers[..n]);
      OffersSnoc(s, o, receivers);
    }
  }

  /** The first receiver that left. */
  lemma FirstGone(sessions: seq<Session>, order: seq<nat>, author: nat) returns (i: nat)
    requires !AllHere(sessions, order, author) && forall j :: 0 <= j < |order| ==> order[j] < |sessions|
    ensures i < |order| && AllHere(sessions, order[..i], author)
    ensures order[i] != author && sessions[order[i]].leftAt.Some?
  {
    assert order[..|order|] == order;
    i := 0;
    while i < |order| && (order[i] == author || sessions[order[i]].leftAt.None?)
      invariant i <= |order| && AllHere(sessions, order[..i], author)
    {
      HereSoFar(sessions, order, i, author);
      i := i + 1;
    }
  }

  /** What the whole loop comes to: success when everyone is here, otherwise the panic ends it. */
  lemma BroadcastRuns(s: State, o: nat, order: seq<nat>)
    requires IsWalk(s, o, order) && s.proc.ops[o].phase.Sending? && s.proc.ops[o].sent == []
    requires s.proc.ops[o].author < |s.proc.sessions|
    ensures var author := s.proc.ops[o].author;
            var last := Run(s, Offers(o, Without(order, author)));
            var end := Run(s, Offers(o, Without(order, author)) + [Finish(o)]);
            && last.store == s.store && last.acked == s.acked && last.proc.rooms == s.proc.rooms
            && |last.proc.ops| == |s.proc.ops| && last.proc.ops[o].num == s.proc.ops[o].num
            && (if AllHere(s.proc.sessions, order, author)
                then end == Acknowledged(last, o)
                     && AllServed(s.proc.sessions, last.proc.sessions, order, author, BroadcastMessage(s, o))
                else end == last)
  {
    var author := s.proc.ops[o].author;
    OffersKeep(s, o, Without(order, author));
    RunSnoc(s, Offers(o, Without(order, author)), Finish(o));
    if AllHere(s.proc.sessions, order, author) {
      EveryoneServed(s, o, order);
    } else {
      PanicEnds(s, o, order);
    }
  }

  lemma PanicEnds(s: State, o: nat, order: seq<nat>)
    requires IsWalk(s, o, order) && s.proc.ops[o].phase.Sending? && s.proc.ops[o].sent == []
    requires s.proc.ops[o].author < |s.proc.sessions| && !AllHere(s.proc.sessions, order, s.proc.ops[o].author)
    ensures var last := Run(s, Offers(o, Without(order, s.proc.ops[o].author)));
            Apply(last, Finish(o)) == last
  {
    var i := FirstGone(s.proc.sessions, order, s.proc.ops[o].author);
    PanicStops(s, o, order, i);
  }

  /** Operation `o` has returned success. */
  function Acknowledged(s: State, o: nat): State
    requires o < |s.proc.ops|
  {
    SetOp(s, o, s.proc.ops[o].(phase := Finished(Success))).(acked := s.acked + {s.proc.ops[o].num})
  }

  lemma EveryoneServed(s: State, o: nat, order: seq<nat>)
    requires IsWalk(s, o, order) && s.proc.ops[o].phase.Sending? && s.proc.ops[o].sent == []
    requires s.proc.ops[o].author < |s.proc.sessions| && AllHere(s.proc.sessions, order, s.proc.ops[o].author)
    ensures var author := s.proc.ops[o].author;
            var last := Run(s, Offers(o, Without(order, author)));
            && |last.proc.ops| == |s.proc.ops| && Apply(last, Finish(o)) == Acknowledged(last, o)
            && AllServed(s.proc.sessions, last.proc.sessions, order, author, BroadcastMessage(s, o))
  {
    var author := s.proc.ops[o].author;
    var last := Run(s, Offers(o, Without(order, author)));
    assert order[..|order|] == order;
    SentSoFar(s, o, order, |order|);
    FinishOnceServed(last, o);
    ServedIsAllServed(s, o, order, last);
  }

  lemma ServedIsAllServed(s: State, o: nat, order: seq<nat>, s': State)
    requires o < |s.proc.ops| && s.proc.ops[o].author < |s.proc.sessions|
    requires var sent := Without(order, s.proc.ops[o].author);
             Serves(s, o, sent) && Served(s, o, sent, s') && Elements(sent) == Elements(order) - {s.proc.ops[o].author}
    ensures AllServed(s.proc.sessions, s'.proc.sessions, order, s.proc.ops[o].author, BroadcastMessage(s, o))
  {
    var sent := Without(order, s.proc.ops[o].author);
    assert forall y :: y in sent <==> y in Elements(sent);
  }

  /** Offers touch neither the store nor the rooms. */
  lemma {:induction false} OffersKeep(s: State, o: nat, receivers: seq<nat>)
    requires o < |s.proc.ops|
    ensures var s' := Run(s, Offers(o, receivers));
            && s'.store == s.store && s'.acked == s.acked && s'.proc.rooms == s.proc.rooms
            && |s'.proc.ops| == |s.proc.ops| && s'.proc.ops[o].num == s.proc.ops[o].num
    decreases |receivers|
  {
    if receivers != [] {
      var n := |receivers| - 1;
      OffersKeep(s, o, receivers[..n]);
      OffersSnoc(s, o, receivers);
    }
  }

  lemma RefusalRuns(s: State, x: nat, content: string)
    requires Inv(s) && x < |s.proc.sessions| && !s.proc.sessions[x].canEdit
    ensures Run(s, [Submit(x, content)]) ==
            if s.proc.sessions[x].leftAt.Some? then s else SetSession(s, x, Enqueue(s.proc.sessions[x], ErrorMessage))
    ensures Inv(Run(s, [Submit(x, content)]))
  {
    RoomIsThere(s, x);
    StepKeeps(s, Submit(x, content));
    RunOne(s, Submit(x, content));
  }

  lemma RoomIsThere(s: State, x: nat)
    requires RoomInv(s) && SessionsInv(s) && x < |s.proc.sessions|
    ensures s.proc.rooms != [] && s.proc.sessions[x].room == 0
  {
    assert SessionInv(s.proc.rooms[0], x, s.proc.sessions[x]);
  }

  lemma RunOne(s: State, e: Event)
    ensures Run(s, [e]) == Apply(s, e)
  {
    RunSnoc(s, [], e);
    assert [] + [e] == [e];
  }

  lemma RunTwo(s: State, e1: Event, e2: Event)
    ensures Run(s, [e1, e2]) == Apply(Apply(s, e1), e2)
  {
    RunOne(s, e1);
    RunSnoc(s, [e1], e2);
    assert [e1] + [e2] == [e1, e2];
  }

  lemma RunThree(s: State, e1: Event, e2: Event, e3: Event)
    ensures Run(s, [e1, e2, e3]) == Apply(Apply(Apply(s, e1), e2), e3)
  {
    RunTwo(s, e1, e2);
    RunSnoc(s, [e1, e2], e3);
    assert [e1, e2] + [e3] == [e1, e2, e3];
  }

  lemma WritesAfterSubmit(s: State, x: nat, content: string, first: Write, second: Write)
    ensures var o := |s.proc.ops|;
            Run(s, WriteSchedule(s, x, content, first, second)) ==
            Run(Apply(s, Submit(x, content)), if first.Stored? && SnapshotDue(s)
                                              then [Persist(o, first), PersistSnapshot(o, second)]
                                              else [Persist(o, first)])
  {
    var o := |s.proc.ops|;
    var rest := if first.Stored? && SnapshotDue(s) then [Persist(o, first), PersistSnapshot(o, second)]
                else [Persist(o, first)];
    RunOne(s, Submit(x, content));
    RunConcat(s, [Submit(x, content)], rest);
    assert [Submit(x, content)] + rest == WriteSchedule(s, x, content, first, second);
  }

  lemma ClientsAreHere(s: State, order: seq<nat>)
    requires Inv(s) && s.proc.rooms != [] && Elements(order) == s.proc.rooms[0].clients
    ensures forall y :: y in order ==> y < |s.proc.sessions| && s.proc.sessions[y].leftAt.None?
  {
    forall y | y in order ensures y < |s.proc.sessions| && s.proc.sessions[y].leftAt.None? {
      assert y in s.proc.rooms[0].clients;
      assert SessionInv(s.proc.rooms[0], y, s.proc.sessions[y]);
    }
  }

  lemma SomeLatest(snapshots: seq<Snapshot>) returns (pick: nat)
    requires snapshots != []
    ensures IsLatest(snapshots, pick)
  {
    pick := 0;
    var i := 1;
    while i < |snapshots|
      invariant 1 <= i <= |snapshots| && pick < i
      invariant forall j :: 0 <= j < i ==> snapshots[j].versionNo <= snapshots[pick].versionNo
    {
      if snapshots[i].versionNo > snapshots[pick].versionNo { pick := i; }
      i := i + 1;
    }
  }

  lemma {:induction false} SkipGap(updates: map<nat, Update>, after: nat, lo: nat, hi: nat)
    requires after <= lo <= hi
    requires forall n :: lo < n <= hi ==> n !in updates
    ensures RowsUpTo(updates, after, hi) == RowsUpTo(updates, after, lo)
    decreases hi
  {
    if lo < hi {
      SkipGap(updates, after, lo, hi - 1);
      assert RowsUpTo(updates, after, hi) == RowsUpTo(updates, after, hi - 1) + [];
    }
  }

}
