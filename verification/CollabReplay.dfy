/** The replay loop against the slow full replay and against the head of the log. */
module CollabReplay {
  import opened Common
  import opened CollabMachine

  /** The highest logged number in (after, upTo], or `after` when there is none. */
  function LastUpTo(updates: map<nat, Update>, after: nat, upTo: nat): nat
    decreases upTo
  {
    if upTo <= after then after
    else if upTo in updates then upTo
    else LastUpTo(updates, after, upTo - 1)
  }

  lemma {:induction false} ReplaySnoc(rows: seq<Row>, last: Row, content: string, num: nat)
    ensures Replay(rows + [last], content, num) ==
            if last.update.kind == "update" then (last.update.content, last.updateSeq)
            else Replay(rows, content, num)
    decreases |rows|
  {
    if rows == [] {
      assert rows + [last] == [last];
      assert [last][1..] == [];
    } else {
      assert (rows + [last])[1..] == rows[1..] + [last];
      if rows[0].update.kind == "update" {
        ReplaySnoc(rows[1..], last, rows[0].update.content, rows[0].updateSeq);
      } else {
        ReplaySnoc(rows[1..], last, content, num);
      }
    }
  }

  ghost predicate AllUpdates(updates: map<nat, Update>) {
    forall n :: n in updates ==> n >= 1 && updates[n].kind == "update"
  }

  lemma {:induction false} ReplayRows(updates: map<nat, Update>, after: nat, upTo: nat, content: string)
    requires AllUpdates(updates)
    ensures LastUpTo(updates, after, upTo) != after ==> LastUpTo(updates, after, upTo) in updates
    ensures var last := LastUpTo(updates, after, upTo);
            Replay(RowsUpTo(updates, after, upTo), content, after) ==
            (if last == after then content else updates[last].content, last)
    decreases upTo
  {
    if upTo > after {
      ReplayRows(updates, after, upTo - 1, content);
      if upTo in updates {
        ReplaySnoc(RowsUpTo(updates, after, upTo - 1), Row(upTo, updates[upTo]), content, after);
      } else {
        assert RowsUpTo(updates, after, upTo) == RowsUpTo(updates, after, upTo - 1);
      }
    }
  }

  lemma {:induction false} LastIsGreatest(updates: map<nat, Update>, after: nat, upTo: nat)
    ensures var last := LastUpTo(updates, after, upTo);
            after <= last && forall n :: n in updates && n <= upTo ==> n <= last || n <= after
    decreases upTo
  {
    if upTo > after { LastIsGreatest(updates, after, upTo - 1); }
  }

  /** Replaying the log after any base number: the head of the log if it lies above the base, else the base. */
  lemma ReplayFrom(updates: map<nat, Update>, content: string, num: nat)
    requires AllUpdates(updates)
    ensures var top := Top(updates.Keys);
            Replay(ListUpdatesAfter(updates, num), content, num) ==
            if top > num then (updates[top].content, top) else (content, num)
  {
    var top := Top(updates.Keys);
    ReplayRows(updates, num, top, content);
    LastIsGreatest(updates, num, top);
  }

  /** Every snapshot is a copy of the update of its own number. */
  ghost predicate SnapshotsAgree(store: Store) {
    forall i :: 0 <= i < |store.snapshots| ==>
      && store.snapshots[i].versionNo in store.updates
      && store.updates[store.snapshots[i].versionNo].content == store.snapshots[i].content
  }

  /** Fast recovery equals full replay equals the head of the log, whichever latest row was picked. */
  lemma RecoveryIsFullReplay(store: Store, pick: nat)
    requires AllUpdates(store.updates) && SnapshotsAgree(store)
    requires store.snapshots != [] ==> IsLatest(store.snapshots, pick)
    ensures CurrentContent(store, pick) == FullReplay(store) == Head(store)
  {
    var top := Top(store.updates.Keys);
    ReplayFrom(store.updates, store.initial, 0);
    if store.snapshots != [] {
      ReplayFrom(store.updates, store.snapshots[pick].content, store.snapshots[pick].versionNo);
    }
  }

  lemma {:induction false} RowsCount(updates: map<nat, Update>, after: nat, upTo: nat)
    ensures |RowsUpTo(updates, after, upTo)| <= if upTo <= after then 0 else upTo - after
    decreases upTo
  {
    if upTo > after { RowsCount(updates, after, upTo - 1); }
  }
}
