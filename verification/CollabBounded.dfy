/** Bounded replay: without failed writes, recovery never replays a whole snapshot interval. */
module CollabBounded {
  import opened Common
  import opened CollabMachine
  import opened CollabReplay
  import opened CollabInvariant

  predicate PastWrites(op: Op) {
    op.phase.Sending? || op.phase.Finished?
  }

  /** No update is between its number and its last write. */
  ghost predicate Quiet(s: State) {
    forall o :: 0 <= o < |s.proc.ops| ==> PastWrites(s.proc.ops[o])
  }

  /** The writes succeed, and the process restarts only when no update is in mid-flight. */
  ghost predicate CleanStep(s: State, e: Event) {
    && (e.Persist? ==> e.write.Stored?)
    && (e.PersistSnapshot? ==> e.write.Stored?)
    && (e.Restart? ==> Quiet(s))
  }

  ghost predicate CleanRun(s: State, events: seq<Event>)
    decreases |events|
  {
    events == [] ||
    (CleanRun(s, events[..|events| - 1]) && CleanStep(Run(s, events[..|events| - 1]), events[|events| - 1]))
  }

  ghost predicate Pending(s: State, n: nat) {
    exists o :: 0 <= o < |s.proc.ops| && s.proc.ops[o].num == n && s.proc.ops[o].phase.NeedPersist?
  }

  ghost predicate SnapshotPending(s: State, n: nat) {
    exists o :: 0 <= o < |s.proc.ops| && s.proc.ops[o].num == n && s.proc.ops[o].phase.NeedSnapshot?
  }

  ghost predicate HasSnapshot(store: Store, n: nat) {
    exists i :: 0 <= i < |store.snapshots| && store.snapshots[i].versionNo == n
  }

  /** The highest number given out so far. */
  ghost function Given(s: State): nat {
    if s.proc.rooms == [] then Top(s.store.updates.Keys) else s.proc.rooms[0].updateSeq
  }

  /** The log has no gap but what is in flight. */
  ghost predicate Dense(s: State) {
    && (forall n :: 1 <= n <= Given(s) ==> n in s.store.updates || Pending(s, n))
    && (forall n :: n in s.store.updates ==> n <= Given(s))
  }

  /** Every multiple of the interval has its snapshot, and snapshots are at multiples only. */
  ghost predicate Snapshots(s: State) {
    && (forall n :: n in s.store.updates && n % s.interval == 0 ==> HasSnapshot(s.store, n) || SnapshotPending(s, n))
    && (forall i :: 0 <= i < |s.store.snapshots| ==> s.store.snapshots[i].versionNo % s.interval == 0)
    && (forall o :: 0 <= o < |s.proc.ops| && s.proc.ops[o].phase.NeedSnapshot? ==> s.proc.ops[o].num % s.interval == 0)
  }

  /** Before there is a room, a finished read has the highest number. */
  ghost predicate Reads(s: State) {
    forall c :: 0 <= c < |s.proc.calls| && s.proc.rooms == [] && s.proc.calls[c].phase.Loaded? ==>
      s.proc.calls[c].phase.num == Given(s)
  }

  ghost predicate CleanInv(s: State) {
    Dense(s) && Snapshots(s) && Reads(s)
  }

  // ---- How what is pending moves.

  lemma PendingKeeps(s: State, e: Event, n: nat)
    requires Inv(s) && CleanStep(s, e) && !e.Restart? && Pending(s, n)
    ensures n in Apply(s, e).store.updates || Pending(Apply(s, e), n)
  {
    var o :| 0 <= o < |s.proc.ops| && s.proc.ops[o].num == n && s.proc.ops[o].phase.NeedPersist?;
    assert OpInv(s, s.proc.ops[o]);
    OpPersists(s, e, o);
  }

  /** A stored insert ends in the log; until then the operation waits. */
  lemma OpPersists(s: State, e: Event, o: nat)
    requires o < |s.proc.ops| && s.proc.ops[o].phase.NeedPersist? && s.proc.ops[o].author < |s.proc.sessions|
    requires !e.Restart? && (e.Persist? ==> e.write.Stored?)
    ensures var s', num := Apply(s, e), s.proc.ops[o].num;
            num in s'.store.updates
            || (o < |s'.proc.ops| && s'.proc.ops[o].num == num && s'.proc.ops[o].phase.NeedPersist?)
  {
  }

  lemma OpSnapshots(s: State, e: Event, o: nat)
    requires o < |s.proc.ops| && s.proc.ops[o].phase.NeedSnapshot?
    requires !e.Restart? && (e.PersistSnapshot? ==> e.write.Stored?)
    ensures var s', op := Apply(s, e), s.proc.ops[o];
            if e == PersistSnapshot(o, Stored)
            then s'.store.snapshots == s.store.snapshots + [Snapshot(op.num, op.content)]
            else o < |s'.proc.ops| && s'.proc.ops[o].num == op.num && s'.proc.ops[o].phase.NeedSnapshot?
  {
  }

  lemma SnapshotPendingKeeps(s: State, e: Event, n: nat)
    requires Inv(s) && CleanStep(s, e) && !e.Restart? && SnapshotPending(s, n)
    ensures HasSnapshot(Apply(s, e).store, n) || SnapshotPending(Apply(s, e), n)
  {
    var o :| 0 <= o < |s.proc.ops| && s.proc.ops[o].num == n && s.proc.ops[o].phase.NeedSnapshot?;
    OpSnapshots(s, e, o);
    if e == PersistSnapshot(o, Stored) {
      assert Apply(s, e).store.snapshots[|s.store.snapshots|].versionNo == n;
    }
  }

  lemma SnapshotStays(s: State, e: Event, n: nat)
    requires HasSnapshot(s.store, n)
    ensures HasSnapshot(Apply(s, e).store, n)
  {
    var i :| 0 <= i < |s.store.snapshots| && s.store.snapshots[i].versionNo == n;
    assert i < |Apply(s, e).store.snapshots| && Apply(s, e).store.snapshots[i].versionNo == n;
  }

  lemma RestartKeepsGiven(s: State)
    requires Inv(s) && CleanInv(s) && Quiet(s)
    ensures Given(Apply(s, Restart)) == Given(s)
  {
    if s.proc.rooms != [] && Given(s) > 0 {
      assert Given(s) in s.store.updates;
      TopIs(s.store.updates.Keys, Given(s));
    }
  }

  lemma NoRoomKeepsGiven(s: State, e: Event)
    requires RoomInv(s) && CleanInv(s) && s.proc.rooms == [] && !e.Restart?
    ensures Given(Apply(s, e)) == Given(s)
  {
    NoRoomNoWrites(s, e);
  }

  lemma RoomKeepsGiven(s: State, e: Event)
    requires RoomInv(s) && s.proc.rooms != [] && !e.Restart?
    requires |Apply(s, e).proc.ops| == |s.proc.ops|
    ensures Given(Apply(s, e)) == Given(s)
  {
  }

  /** The number given out moves only when an update is submitted, and then by one. */
  lemma GivenMoves(s: State, e: Event)
    requires Inv(s) && CleanInv(s) && CleanStep(s, e)
    ensures var s' := Apply(s, e);
            || Given(s') == Given(s)
            || (|s'.proc.ops| > |s.proc.ops| && Given(s') == Given(s) + 1 && Pending(s', Given(s) + 1))
  {
    var s' := Apply(s, e);
    if e.Restart? {
      RestartKeepsGiven(s);
    } else if s.proc.rooms == [] {
      NoRoomKeepsGiven(s, e);
    } else if |s'.proc.ops| > |s.proc.ops| {
      NewOp(s, e);
      assert s'.proc.ops[|s.proc.ops|].num == Given(s) + 1;
    } else {
      OpsStay(s, e);
      RoomKeepsGiven(s, e);
    }
  }

  lemma OpsStay(s: State, e: Event)
    requires !e.Restart?
    ensures |Apply(s, e).proc.ops| >= |s.proc.ops|
  {
  }

  lemma LogStaysDense(s: State, e: Event, n: nat)
    requires Inv(s) && CleanInv(s) && CleanStep(s, e)
    requires 1 <= n <= Given(Apply(s, e))
    ensures n in Apply(s, e).store.updates || Pending(Apply(s, e), n)
  {
    GivenMoves(s, e);
    if n <= Given(s) {
      if n in s.store.updates {
        LogGrows(s, e, n);
      } else {
        assert Pending(s, n);
        if !e.Restart? { PendingKeeps(s, e, n); }
      }
    }
  }

  lemma SnapshotsStayDue(s: State, e: Event, n: nat)
    requires Inv(s) && CleanInv(s) && CleanStep(s, e)
    requires n in Apply(s, e).store.updates && n % s.interval == 0
    ensures HasSnapshot(Apply(s, e).store, n) || SnapshotPending(Apply(s, e), n)
  {
    if n !in s.store.updates {
      NewRow(s, e, n);
      assert Apply(s, e).proc.ops[e.op].num == n;
    } else if HasSnapshot(s.store, n) {
      SnapshotStays(s, e, n);
    } else if !e.Restart? {
      SnapshotPendingKeeps(s, e, n);
    }
  }

  lemma NumbersStayGiven(s: State, e: Event, n: nat)
    requires Inv(s) && CleanInv(s) && CleanStep(s, e)
    requires n in Apply(s, e).store.updates
    ensures n <= Given(Apply(s, e))
  {
    GivenMoves(s, e);
    if n !in s.store.updates {
      NewRow(s, e, n);
      OpBelowRoom(s, e.op);
    }
  }

  lemma LoadedStays(s: State, e: Event, c: nat)
    requires Inv(s) && CleanInv(s) && CleanStep(s, e)
    requires c < |Apply(s, e).proc.calls| && Apply(s, e).proc.rooms == [] && Apply(s, e).proc.calls[c].phase.Loaded?
    ensures Apply(s, e).proc.calls[c].phase.num == Given(Apply(s, e))
  {
    if e.ReadUpdates? && e.call == c && s.proc.calls[c].phase.Based? {
      LoadedByRead(s, c);
    } else {
      OnlyReadsLoad(s, e, c);
      NoRoomKeepsGiven(s, e);
    }
  }

  lemma LoadedByRead(s: State, c: nat)
    requires StoreInv(s) && CallsInv(s) && s.proc.rooms == []
    requires c < |s.proc.calls| && s.proc.calls[c].phase.Based?
    ensures DoReadUpdates(s, c).proc.calls[c].phase.Loaded?
    ensures DoReadUpdates(s, c).proc.calls[c].phase.num == Given(s) == Given(DoReadUpdates(s, c))
  {
    ReadUpdatesResult(s, c);
    assert CallInv(s, s.proc.calls[c]);
  }

  lemma OnlyReadsLoad(s: State, e: Event, c: nat)
    requires c < |Apply(s, e).proc.calls| && Apply(s, e).proc.calls[c].phase.Loaded?
    requires !(e.ReadUpdates? && e.call == c && s.proc.calls[c].phase.Based?)
    ensures c < |s.proc.calls| && s.proc.calls[c].phase == Apply(s, e).proc.calls[c].phase
    ensures Apply(s, e).proc.rooms == [] ==> s.proc.rooms == []
  {
  }

  lemma SnapshotDueOnlyAtMultiples(s: State, e: Event, o: nat)
    requires RoomInv(s) && SessionsInv(s) && o < |Apply(s, e).proc.ops|
    requires o < |s.proc.ops| && s.proc.ops[o].phase.NeedSnapshot? ==> s.proc.ops[o].num % s.interval == 0
    ensures Apply(s, e).proc.ops[o].phase.NeedSnapshot? ==> Apply(s, e).proc.ops[o].num % s.interval == 0
  {
    if !e.Restart? {
      if o < |s.proc.ops| { DueOnlyAtMultiples(s, e, o); } else { NewOp(s, e); }
    }
  }

  lemma DueOnlyAtMultiples(s: State, e: Event, o: nat)
    requires o < |s.proc.ops| && !e.Restart?
    requires s.proc.ops[o].phase.NeedSnapshot? ==> s.proc.ops[o].num % s.interval == 0
    ensures o < |Apply(s, e).proc.ops|
    ensures Apply(s, e).proc.ops[o].phase.NeedSnapshot? ==> Apply(s, e).proc.ops[o].num % s.interval == 0
  {
    EventGrowsOps(s, e);
  }

  lemma SnapshotNumbersKeep(s: State, e: Event)
    requires Inv(s) && CleanInv(s)
    ensures var s' := Apply(s, e);
            && (forall i :: 0 <= i < |s'.store.snapshots| ==> s'.store.snapshots[i].versionNo % s.interval == 0)
            && (forall o :: 0 <= o < |s'.proc.ops| && s'.proc.ops[o].phase.NeedSnapshot? ==>
                  s'.proc.ops[o].num % s.interval == 0)
  {
    var s' := Apply(s, e);
    forall o | 0 <= o < |s'.proc.ops| && s'.proc.ops[o].phase.NeedSnapshot?
      ensures s'.proc.ops[o].num % s.interval == 0
    { SnapshotDueOnlyAtMultiples(s, e, o); }
    forall i | 0 <= i < |s'.store.snapshots|
      ensures s'.store.snapshots[i].versionNo % s.interval == 0
    { NewSnapshot(s, e, i); }
  }

  lemma NewSnapshot(s: State, e: Event, i: nat)
    requires i < |Apply(s, e).store.snapshots|
    ensures || (i < |s.store.snapshots| && Apply(s, e).store.snapshots[i] == s.store.snapshots[i])
            || (e.PersistSnapshot? && e.op < |s.proc.ops| && s.proc.ops[e.op].phase.NeedSnapshot?
                && Apply(s, e).store.snapshots[i].versionNo == s.proc.ops[e.op].num)
  {
  }

  lemma DenseKeeps(s: State, e: Event)
    requires Inv(s) && CleanInv(s) && CleanStep(s, e)
    ensures Dense(Apply(s, e))
  {
    forall n | 1 <= n <= Given(Apply(s, e))
      ensures n in Apply(s, e).store.updates || Pending(Apply(s, e), n) { LogStaysDense(s, e, n); }
    forall n | n in Apply(s, e).store.updates ensures n <= Given(Apply(s, e)) { NumbersStayGiven(s, e, n); }
  }

  lemma SnapshotsKeep(s: State, e: Event)
    requires Inv(s) && CleanInv(s) && CleanStep(s, e)
    ensures Snapshots(Apply(s, e))
  {
    assert Apply(s, e).interval == s.interval;
    forall n | n in Apply(s, e).store.updates && n % s.interval == 0
      ensures HasSnapshot(Apply(s, e).store, n) || SnapshotPending(Apply(s, e), n) { SnapshotsStayDue(s, e, n); }
    SnapshotNumbersKeep(s, e);
  }

  lemma ReadsKeep(s: State, e: Event)
    requires Inv(s) && CleanInv(s) && CleanStep(s, e)
    ensures Reads(Apply(s, e))
  {
    forall c | 0 <= c < |Apply(s, e).proc.calls| && Apply(s, e).proc.rooms == []
                 && Apply(s, e).proc.calls[c].phase.Loaded?
      ensures Apply(s, e).proc.calls[c].phase.num == Given(Apply(s, e)) { LoadedStays(s, e, c); }
  }

  lemma CleanKeeps(s: State, e: Event)
    requires Inv(s) && CleanInv(s) && CleanStep(s, e)
    ensures CleanInv(Apply(s, e))
  {
    DenseKeeps(s, e);
    SnapshotsKeep(s, e);
    ReadsKeep(s, e);
  }

  lemma {:induction false} CleanRunKeeps(configured: int, initial: string, events: seq<Event>)
    requires CleanRun(Start(configured, initial), events)
    ensures Inv(Run(Start(configured, initial), events)) && CleanInv(Run(Start(configured, initial), events))
    decreases |events|
  {
    StartKeeps(configured, initial);
    if events != [] {
      CleanRunKeeps(configured, initial, events[..|events| - 1]);
      var before := Run(Start(configured, initial), events[..|events| - 1]);
      StepKeeps(before, events[|events| - 1]);
      CleanKeeps(before, events[|events| - 1]);
    }
  }

  /** At rest after a clean run: no gap in the log, a snapshot at every multiple, less than an interval to replay. */
  lemma ReplayIsBounded(configured: int, initial: string, events: seq<Event>, pick: nat)
    requires CleanRun(Start(configured, initial), events)
    requires Quiet(Run(Start(configured, initial), events))
    requires var snapshots := Run(Start(configured, initial), events).store.snapshots;
             snapshots != [] ==> IsLatest(snapshots, pick)
    ensures var s := Run(Start(configured, initial), events);
            var base := if s.store.snapshots == [] then 0 else s.store.snapshots[pick].versionNo;
            && |ListUpdatesAfter(s.store.updates, base)| < s.interval
            && base == Top(s.store.updates.Keys) / s.interval * s.interval
            && (forall n :: 1 <= n <= Top(s.store.updates.Keys) ==> n in s.store.updates)
  {
    var s := Run(Start(configured, initial), events);
    CleanRunKeeps(configured, initial, events);
    var top := Top(s.store.updates.Keys);
    if Given(s) > 0 { assert Given(s) in s.store.updates; }
    assert top == Given(s);
    var base := if s.store.snapshots == [] then 0 else s.store.snapshots[pick].versionNo;
    var due := top / s.interval * s.interval;
    LastMultiple(top, s.interval);
    if due >= 1 {
      assert due in s.store.updates;
      assert HasSnapshot(s.store, due);
    }
    assert due <= base <= top;
    MultipleBetween(base, top, s.interval);
    RowsCount(s.store.updates, base, top);
  }

  lemma Distributes(a: nat, b: nat, interval: nat)
    ensures (a + b) * interval == a * interval + b * interval
  {
  }

  lemma StrictMultiples(a: nat, b: nat, interval: Interval)
    ensures a < b ==> a * interval + interval <= b * interval
  {
    if a < b {
      Distributes(a, 1, interval);
      Distributes(a + 1, b - a - 1, interval);
    }
  }

  lemma LastMultiple(top: nat, interval: Interval)
    ensures (top / interval * interval) % interval == 0
    ensures top - interval < top / interval * interval <= top
  {
    var q := top / interval;
    var m := q * interval;
    var k := m / interval;
    StrictMultiples(q, k, interval);
    StrictMultiples(k, q, interval);
  }

  lemma MultipleBetween(base: nat, top: nat, interval: Interval)
    requires base % interval == 0 && top / interval * interval <= base <= top
    ensures base == top / interval * interval
  {
    var q, k := top / interval, base / interval;
    assert base == k * interval && top < q * interval + interval;
    StrictMultiples(q, k, interval);
    StrictMultiples(k, q, interval);
  }
}
