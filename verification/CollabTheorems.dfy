/** What the collaboration room guarantees in every state that any interleaving can reach. */
module CollabTheorems {
  import opened Common
  import opened CollabMachine
  import opened CollabReplay
  import opened CollabInvariant

  ghost predicate Reachable(s: State) {
    exists configured, initial, events :: s == Run(Start(configured, initial), events)
  }

  lemma ReachableInv(s: State)
    requires Reachable(s)
    ensures Inv(s)
  {
    var configured, initial, events :| s == Run(Start(configured, initial), events);
    StartKeeps(configured, initial);
    RunKeeps(Start(configured, initial), events);
  }

  // ---- Recovery.

  /** Snapshot plus later updates gives what replaying everything gives, and no acknowledged update is lost. */
  lemma RecoveryLosesNothing(s: State, pick: nat)
    requires Reachable(s)
    requires s.store.snapshots != [] ==> IsLatest(s.store.snapshots, pick)
    ensures CurrentContent(s.store, pick) == FullReplay(s.store) == Head(s.store)
    ensures forall n :: n in s.acked ==> n in s.store.updates && n <= FullReplay(s.store).1
  {
    ReachableInv(s);
    RecoveryIsFullReplay(s.store, pick);
  }

  /** Over every run, restarts included, a logged update is never changed, removed or unacknowledged. */
  lemma {:induction false} LogIsAppendOnly(s: State, events: seq<Event>)
    ensures var s' := Run(s, events);
            && (forall n :: n in s.store.updates ==> n in s'.store.updates && s'.store.updates[n] == s.store.updates[n])
            && s.acked <= s'.acked
            && Head(s'.store).1 >= Head(s.store).1
    decreases |events|
  {
    if events != [] {
      var before := Run(s, events[..|events| - 1]);
      LogIsAppendOnly(s, events[..|events| - 1]);
      forall n | n in before.store.updates
        ensures n in Run(s, events).store.updates && Run(s, events).store.updates[n] == before.store.updates[n]
      { LogGrows(before, events[|events| - 1], n); }
    }
  }

  // ---- Numbering.

  /** No insert that reaches the store ever meets its own number there; the index is never hit. */
  lemma NumbersAreUnique(s: State, o: nat)
    requires Reachable(s) && o < |s.proc.ops|
    ensures |s.proc.rooms| == 1 && s.proc.ops[o].num <= s.proc.rooms[0].updateSeq
    ensures s.proc.ops[o].phase.NeedPersist? ==> s.proc.ops[o].num !in s.store.updates
    ensures forall o' :: 0 <= o' < |s.proc.ops| && o' != o ==> s.proc.ops[o'].num != s.proc.ops[o].num
  {
    ReachableInv(s);
    OpBelowRoom(s, o);
    assert OpInv(s, s.proc.ops[o]);
  }

  /** The double-checked getRoom: one room at most, never behind any persisted number. */
  lemma OneRoomAheadOfLog(s: State)
    requires Reachable(s)
    ensures |s.proc.rooms| <= 1
    ensures forall r, n :: 0 <= r < |s.proc.rooms| && n in s.store.updates ==> n <= s.proc.rooms[r].updateSeq
    ensures forall x :: 0 <= x < |s.proc.sessions| ==> s.proc.sessions[x].room < |s.proc.rooms|
  {
    ReachableInv(s);
    RoomIsAhead(s);
  }

  lemma RoomIsAhead(s: State)
    requires RoomInv(s) && SessionsInv(s)
    ensures |s.proc.rooms| <= 1
    ensures forall r, n :: 0 <= r < |s.proc.rooms| && n in s.store.updates ==> n <= s.proc.rooms[r].updateSeq
    ensures forall x :: 0 <= x < |s.proc.sessions| ==> s.proc.sessions[x].room < |s.proc.rooms|
  {
    forall x | 0 <= x < |s.proc.sessions| ensures s.proc.sessions[x].room < |s.proc.rooms| {
      assert SessionInv(s.proc.rooms[0], x, s.proc.sessions[x]);
    }
  }

  // ---- The room as a cache.

  /** A room above number 0 shows what recovery would show exactly when its number is persisted. */
  lemma NumberedRoomIsCacheExactlyWhen(s: State, pick: nat)
    requires Reachable(s) && s.proc.rooms != []
    requires s.store.snapshots != [] ==> IsLatest(s.store.snapshots, pick)
    ensures var room := s.proc.rooms[0];
            && (room.updateSeq != 0 ==>
                  ((room.content, room.updateSeq) == CurrentContent(s.store, pick) <==>
                   room.updateSeq in s.store.updates))
            && (room.updateSeq == 0 ==>
                  s.store.updates.Keys == {} && CurrentContent(s.store, pick) == (s.store.initial, 0))
  {
    ReachableInv(s);
    RecoveryIsFullReplay(s.store, pick);
    var room := s.proc.rooms[0];
    if room.updateSeq in s.store.updates {
      TopIs(s.store.updates.Keys, room.updateSeq);
      if s.proc.ops != [] { assert OpInv(s, s.proc.ops[|s.proc.ops| - 1]); }
    } else if room.updateSeq == 0 {
      assert forall n :: n in s.store.updates ==> 1 <= n <= 0;
      assert s.store.updates.Keys == {};
    }
  }

  /** Saving the document while its room is still at number 0 leaves the room behind recovery. */
  lemma SavedBesideRoom(initial: string, saved: string)
    requires initial != saved
    ensures var s := Run(Start(0, initial), [Check("u", true), ReadSnapshot(0, 0), ReadInitial(0), ReadUpdates(0),
                                             Install(0), Resave(saved)]);
            && s.proc.rooms == [Room(initial, 0, {})]
            && s.store.snapshots == []
            && CurrentContent(s.store, 0) == (saved, 0)
  {
    var s0 := Start(0, initial);
    var e0, e1, e2 := Check("u", true), ReadSnapshot(0, 0), ReadInitial(0);
    var e3, e4, e5 := ReadUpdates(0), Install(0), Resave(saved);
    var s1, s2 := Apply(s0, e0), Apply(Apply(s0, e0), e1);
    var s3 := Apply(s2, e2);
    assert RowsUpTo(s3.store.updates, 0, Top(s3.store.updates.Keys)) == [];
    var s4 := Apply(s3, e3);
    var s5 := Apply(s4, e4);
    var s6 := Apply(s5, e5);
    RunSix(s0, e0, e1, e2, e3, e4, e5);
  }

  lemma RunPair(s: State, e1: Event, e2: Event)
    ensures Run(s, [e1, e2]) == Apply(Apply(s, e1), e2)
  {
    RunSnoc(s, [], e1);
    RunSnoc(s, [e1], e2);
    assert [] + [e1] == [e1] && [e1] + [e2] == [e1, e2];
  }

  lemma RunFour(s: State, e1: Event, e2: Event, e3: Event, e4: Event)
    ensures Run(s, [e1, e2, e3, e4]) == Apply(Apply(Apply(Apply(s, e1), e2), e3), e4)
  {
    RunPair(s, e1, e2);
    RunPair(Apply(Apply(s, e1), e2), e3, e4);
    RunConcat(s, [e1, e2], [e3, e4]);
    assert [e1, e2] + [e3, e4] == [e1, e2, e3, e4];
  }

  lemma RunSix(s: State, e0: Event, e1: Event, e2: Event, e3: Event, e4: Event, e5: Event)
    ensures Run(s, [e0, e1, e2, e3, e4, e5]) == Apply(Apply(Apply(Apply(Apply(Apply(s, e0), e1), e2), e3), e4), e5)
  {
    RunFour(s, e0, e1, e2, e3);
    RunPair(Apply(Apply(Apply(Apply(s, e0), e1), e2), e3), e4, e5);
    RunConcat(s, [e0, e1, e2, e3], [e4, e5]);
    assert [e0, e1, e2, e3] + [e4, e5] == [e0, e1, e2, e3, e4, e5];
  }

  /** Room content, room number and log change only through sessions that could edit when they joined. */
  lemma OnlyEditorsWrite(s: State, e: Event)
    requires Reachable(s) && s.proc.rooms != [] && !e.Restart?
    ensures var s' := Apply(s, e);
            s'.proc.rooms[0].content != s.proc.rooms[0].content ||
            s'.proc.rooms[0].updateSeq != s.proc.rooms[0].updateSeq ||
            s'.store.updates != s.store.updates ==>
              exists x :: 0 <= x < |s.proc.sessions| && s.proc.sessions[x].canEdit &&
                ((e.Submit? && e.session == x) ||
                 (e.Persist? && e.op < |s.proc.ops| && s.proc.ops[e.op].author == x))
  {
    ReachableInv(s);
    if Apply(s, e).store.updates != s.store.updates { LogChangesByPersist(s, e); }
    RoomChangesBySubmit(s, e);
    if e.Persist? && e.op < |s.proc.ops| {
      assert OpInv(s, s.proc.ops[e.op]);
    }
  }

  lemma LogChangesByPersist(s: State, e: Event)
    requires Apply(s, e).store.updates != s.store.updates
    ensures e.Persist? && e.op < |s.proc.ops|
  {
  }

  lemma RoomChangesBySubmit(s: State, e: Event)
    requires s.proc.rooms != [] && !e.Restart?
    ensures Apply(s, e).proc.rooms != []
    ensures Apply(s, e).proc.rooms[0].content != s.proc.rooms[0].content ||
            Apply(s, e).proc.rooms[0].updateSeq != s.proc.rooms[0].updateSeq ==>
              e.Submit? && e.session < |s.proc.sessions| && s.proc.sessions[e.session].canEdit
  {
  }

  // ---- Delivery.

  /**
    A session is a target of exactly the updates numbered above its init and given out before it
    left; it is never offered its own update, nor one twice. Its init carries the content of its
    number, whether that was given out in this process or recovered from the log.
   */
  lemma DeliveryHasNoGap(s: State, x: nat, o: nat)
    requires Reachable(s) && x < |s.proc.sessions| && o < |s.proc.ops|
    ensures var session, op := s.proc.sessions[x], s.proc.ops[o];
            && (x in op.targets <==>
                  session.initSeq < op.num && (session.leftAt.None? || op.num <= session.leftAt.value))
            && (op.num == session.initSeq ==> op.content == session.initContent)
            && (session.initSeq in s.store.updates ==> s.store.updates[session.initSeq].content == session.initContent)
            && (x in op.sent ==> x in op.targets && x != op.author)
            && Distinct(op.sent)
  {
    ReachableInv(s);
    assert TargetsRight(s.proc.sessions, s.proc.ops[o]) && SentInv(s, s.proc.ops[o]);
    assert InitMatches(s.proc.sessions[x], s.proc.ops[o]);
    InitIsLogged(s, x);
    assert x in s.proc.ops[o].sent ==> x in Elements(s.proc.ops[o].sent);
  }

  /**
    The same for a session on its own: its init is the log's entry of its number, or that of an update in flight
    or failed.
   */
  lemma InitCarriesItsNumber(s: State, x: nat)
    requires Reachable(s) && x < |s.proc.sessions|
    ensures var session := s.proc.sessions[x];
            && (session.initSeq in s.store.updates ==> s.store.updates[session.initSeq].content == session.initContent)
            && (session.initSeq != 0 && session.initSeq !in s.store.updates ==>
                  exists o :: 0 <= o < |s.proc.ops| && Carries(s.proc.ops[o], session.initContent, session.initSeq)
                              && !IsLogged(s.proc.ops[o]))
  {
    ReachableInv(s);
    InitIsLogged(s, x);
    var session := s.proc.sessions[x];
    if session.initSeq != 0 && session.initSeq !in s.store.updates {
      var o :| 0 <= o < |s.proc.ops| && Carries(s.proc.ops[o], session.initContent, session.initSeq);
      assert OpInv(s, s.proc.ops[o]);
    }
  }

  /** All targets were offered the update, or none on a failed write; a panic means a missed target had left. */
  lemma AllOrNothing(s: State, o: nat)
    requires Reachable(s) && o < |s.proc.ops| && s.proc.ops[o].phase.Finished?
    ensures var op := s.proc.ops[o];
            match op.phase.outcome
            case Success => Elements(op.sent) == op.Receivers() && op.num in s.acked && op.num in s.store.updates
            case StoreError => op.sent == []
            case Panicked =>
              op.num in s.store.updates && PanickedAtLeaver(s.proc.sessions, op)
  {
    ReachableInv(s);
    var op := s.proc.ops[o];
    assert SentInv(s, op) && OpInv(s, op);
  }

  /** Every queued update message carries the content and author given to its number, above the init. */
  lemma QueuedMessagesAreGenuine(s: State, x: nat, i: nat)
    requires Reachable(s) && x < |s.proc.sessions| && i < |s.proc.sessions[x].queue|
    requires s.proc.sessions[x].queue[i].UpdateMessage?
    ensures var message := s.proc.sessions[x].queue[i];
            && message.updateSeq > s.proc.sessions[x].initSeq
            && exists o :: 0 <= o < |s.proc.ops| && s.proc.ops[o].author != x
                 && s.proc.ops[o].author < |s.proc.sessions|
                 && message == UpdateMessage(s.proc.ops[o].content, s.proc.ops[o].num,
                                             s.proc.sessions[s.proc.ops[o].author].user)
  {
    ReachableInv(s);
    var message := s.proc.sessions[x].queue[i];
    assert QueueInv(s.proc, x, s.proc.sessions[x]);
    var o :| 0 <= o < |s.proc.ops| && SentAs(s.proc.sessions, s.proc.ops[o], x, message);
    DeliveryHasNoGap(s, x, o);
  }

  // ---- Which broadcasts complete.

  ghost predicate MissedLeaver(s: State, o: nat) {
    && o < |s.proc.ops|
    && exists x :: x in s.proc.ops[o].Receivers() && x !in s.proc.ops[o].sent
                   && x < |s.proc.sessions| && s.proc.sessions[x].leftAt.Some?
  }

  lemma MissedStays(s: State, e: Event, o: nat, x: nat)
    requires !e.Restart? && o < |s.proc.ops| && x < |s.proc.sessions|
    requires x !in s.proc.ops[o].sent && s.proc.sessions[x].leftAt.Some?
    ensures o < |Apply(s, e).proc.ops| && x !in Apply(s, e).proc.ops[o].sent
  {
  }

  lemma LeaverMissedAfter(s: State, e: Event, o: nat)
    requires RoomInv(s) && SessionsInv(s) && MissedLeaver(s, o) && !e.Restart?
    ensures MissedLeaver(Apply(s, e), o)
  {
    var x :| x in s.proc.ops[o].Receivers() && x !in s.proc.ops[o].sent
             && x < |s.proc.sessions| && s.proc.sessions[x].leftAt.Some?;
    OpGrows(s, e, o);
    SessionGrows(s, e, x);
    MissedStays(s, e, o, x);
  }

  lemma {:induction false} LeaverStaysMissed(s: State, o: nat, events: seq<Event>)
    requires Inv(s) && MissedLeaver(s, o)
    requires forall i :: 0 <= i < |events| ==> !events[i].Restart?
    ensures MissedLeaver(Run(s, events), o)
    decreases |events|
  {
    if events != [] {
      var before, e := Run(s, events[..|events| - 1]), events[|events| - 1];
      LeaverStaysMissed(s, o, events[..|events| - 1]);
      RunKeeps(s, events[..|events| - 1]);
      LeaverMissedAfter(before, e, o);
    }
  }

  function Offers(o: nat, receivers: seq<nat>): seq<Event> {
    seq(|receivers|, i requires 0 <= i < |receivers| => Offer(o, receivers[i]))
  }

  /** The message the broadcast of operation `o` offers. */
  function BroadcastMessage(s: State, o: nat): Message
    requires o < |s.proc.ops| && s.proc.ops[o].author < |s.proc.sessions|
  {
    UpdateMessage(s.proc.ops[o].content, s.proc.ops[o].num, s.proc.sessions[s.proc.ops[o].author].user)
  }

  ghost predicate Serves(s: State, o: nat, receivers: seq<nat>) {
    && o < |s.proc.ops| && s.proc.ops[o].phase.Sending? && s.proc.ops[o].author < |s.proc.sessions|
    && (forall x :: x in receivers ==>
          && x in s.proc.ops[o].Receivers() && x !in s.proc.ops[o].sent
          && x < |s.proc.sessions| && s.proc.sessions[x].leftAt.None?)
  }

  /** `s'` is `s` after the broadcast of operation `o` has offered its message to `receivers`. */
  ghost predicate Served(s: State, o: nat, receivers: seq<nat>, s': State)
    requires Serves(s, o, receivers)
  {
    && |s'.proc.ops| == |s.proc.ops| && |s'.proc.sessions| == |s.proc.sessions|
    && s'.proc.ops[o] == s.proc.ops[o].(sent := s.proc.ops[o].sent + receivers)
    && s'.store == s.store && s'.acked == s.acked && s'.proc.rooms == s.proc.rooms
    && (forall x :: 0 <= x < |s.proc.sessions| ==>
          s'.proc.sessions[x] ==
          if x in receivers then Enqueue(s.proc.sessions[x], BroadcastMessage(s, o)) else s.proc.sessions[x])
  }

  lemma OfferOnce(s: State, o: nat, x: nat)
    requires Serves(s, o, [x])
    ensures Served(s, o, [x], Apply(s, Offer(o, x)))
  {
    assert x in [x];
  }

  lemma ServedMore(s: State, o: nat, first: seq<nat>, x: nat, mid: State, s': State)
    requires Serves(s, o, first + [x]) && x !in first && Serves(s, o, first) && Served(s, o, first, mid)
    requires Serves(mid, o, [x]) && Served(mid, o, [x], s')
    ensures Served(s, o, first + [x], s')
  {
    assert BroadcastMessage(mid, o) == BroadcastMessage(s, o);
    assert s.proc.ops[o].sent + (first + [x]) == s.proc.ops[o].sent + first + [x];
    forall y | 0 <= y < |s.proc.sessions|
      ensures s'.proc.sessions[y] ==
              if y in first + [x] then Enqueue(s.proc.sessions[y], BroadcastMessage(s, o)) else s.proc.sessions[y]
    {
      assert y in first + [x] <==> y in first || y == x;
      assert y in [x] <==> y == x;
    }
  }

  lemma {:induction false} OffersGoThrough(s: State, o: nat, receivers: seq<nat>)
    requires Serves(s, o, receivers) && Distinct(receivers)
    ensures Served(s, o, receivers, Run(s, Offers(o, receivers)))
    decreases |receivers|
  {
    if receivers == [] {
      assert s.proc.ops[o].sent + receivers == s.proc.ops[o].sent;
    } else {
      var n := |receivers| - 1;
      var first, x := receivers[..n], receivers[n];
      OffersGoThrough(s, o, first);
      assert receivers == first + [x];
      assert x in receivers && x !in first;
      var mid := Run(s, Offers(o, first));
      assert Serves(mid, o, [x]) by {
        assert x !in s.proc.ops[o].sent + first;
      }
      OfferOnce(mid, o, x);
      assert Offers(o, receivers) == Offers(o, first) + [Offer(o, x)];
      RunSnoc(s, Offers(o, first), Offer(o, x));
      ServedMore(s, o, first, x, mid, Run(s, Offers(o, receivers)));
    }
  }

  lemma {:induction false} Enumerate(s: set<nat>) returns (xs: seq<nat>)
    ensures Distinct(xs) && Elements(xs) == s
    decreases |s|
  {
    if s == {} {
      xs := [];
    } else {
      var x :| x in s;
      xs := Enumerate(s - {x});
      assert x !in Elements(xs);
      xs := xs + [x];
    }
  }

  ghost predicate SucceedsBy(s: State, o: nat, events: seq<Event>) {
    && (forall i :: 0 <= i < |events| ==> !events[i].Restart?)
    && o < |Run(s, events).proc.ops|
    && Run(s, events).proc.ops[o].phase == Finished(Success)
  }

  lemma MissedLeaverNeverSucceeds(s: State, o: nat, events: seq<Event>)
    requires Inv(s) && MissedLeaver(s, o)
    ensures !SucceedsBy(s, o, events)
  {
    if forall i :: 0 <= i < |events| ==> !events[i].Restart? {
      LeaverStaysMissed(s, o, events);
      RunKeeps(s, events);
      assert SentInv(Run(s, events), Run(s, events).proc.ops[o]);
    }
  }

  lemma EveryoneStillHere(s: State, o: nat) returns (events: seq<Event>)
    requires Inv(s) && o < |s.proc.ops| && s.proc.ops[o].phase.Sending? && !MissedLeaver(s, o)
    ensures SucceedsBy(s, o, events)
  {
    var op := s.proc.ops[o];
    var rest := Enumerate(op.Receivers() - Elements(op.sent));
    assert Serves(s, o, rest) by {
      assert OpInv(s, op) && TargetsRight(s.proc.sessions, op);
      assert forall x :: x in rest ==> x in Elements(rest);
    }
    OffersGoThrough(s, o, rest);
    events := Offers(o, rest) + [Finish(o)];
    RunSnoc(s, Offers(o, rest), Finish(o));
    forall x | x in op.Receivers() ensures x in Elements(op.sent + rest) {
      assert x in op.sent || x in Elements(rest);
    }
    FinishOnceServed(Run(s, Offers(o, rest)), o);
  }

  lemma FinishOnceServed(s: State, o: nat)
    requires o < |s.proc.ops| && s.proc.ops[o].phase.Sending?
    requires s.proc.ops[o].Receivers() <= Elements(s.proc.ops[o].sent)
    ensures Apply(s, Finish(o)) == SetOp(s, o, s.proc.ops[o].(phase := Finished(Success))).(
                                     acked := s.acked + {s.proc.ops[o].num})
  {
  }

  /** A broadcast can still succeed exactly when no receiver it has yet to serve has left. */
  lemma BroadcastCanSucceedExactlyWhen(s: State, o: nat)
    requires Reachable(s) && o < |s.proc.ops| && s.proc.ops[o].phase.Sending?
    ensures !MissedLeaver(s, o) <==> exists events :: SucceedsBy(s, o, events)
  {
    ReachableInv(s);
    if MissedLeaver(s, o) {
      forall events ensures !SucceedsBy(s, o, events) { MissedLeaverNeverSucceeds(s, o, events); }
    } else {
      var events := EveryoneStillHere(s, o);
    }
  }

  // ---- No update twice in a queue.

  ghost predicate QueueDistinct(queue: seq<Message>) {
    forall i, j :: 0 <= i < j < |queue| && queue[i].UpdateMessage? && queue[j].UpdateMessage? ==>
      queue[i].updateSeq != queue[j].updateSeq
  }

  ghost predicate QueuesDistinct(s: State) {
    forall x :: 0 <= x < |s.proc.sessions| ==> QueueDistinct(s.proc.sessions[x].queue)
  }

  /** A queue is as before, or lost its first message, or got one that is no update. */
  ghost predicate QueueMoves(queue: seq<Message>, queue': seq<Message>) {
    || queue' == queue
    || (queue != [] && queue' == queue[1..])
    || (exists message: Message :: !message.UpdateMessage? && queue' == queue + [message])
  }

  lemma QueueWithoutOffer(s: State, e: Event, x: nat)
    requires !e.Restart? && !e.Offer? && x < |s.proc.sessions|
    ensures x < |Apply(s, e).proc.sessions|
    ensures QueueMoves(s.proc.sessions[x].queue, Apply(s, e).proc.sessions[x].queue)
  {
    var queue, queue' := s.proc.sessions[x].queue, Apply(s, e).proc.sessions[x].queue;
    if |queue'| == |queue| + 1 {
      assert queue' == queue + [queue'[|queue|]];
    }
  }

  lemma QueueAfterOffer(s: State, e: Event, x: nat)
    requires e.Offer? && x < |s.proc.sessions|
    ensures x < |Apply(s, e).proc.sessions|
    ensures var queue, queue' := s.proc.sessions[x].queue, Apply(s, e).proc.sessions[x].queue;
            || queue' == queue
            || (e.op < |s.proc.ops| && x !in s.proc.ops[e.op].sent && s.proc.ops[e.op].author < |s.proc.sessions|
                && queue' == queue + [BroadcastMessage(s, e.op)])
  {
  }

  lemma OfferedIsNew(s: State, o: nat, x: nat, i: nat)
    requires OpsInv(s) && QueuesInv(s) && o < |s.proc.ops| && x < |s.proc.sessions| && x !in s.proc.ops[o].sent
    requires i < |s.proc.sessions[x].queue| && s.proc.sessions[x].queue[i].UpdateMessage?
    ensures s.proc.sessions[x].queue[i].updateSeq != s.proc.ops[o].num
  {
    assert QueueInv(s.proc, x, s.proc.sessions[x]);
    var o' :| 0 <= o' < |s.proc.ops| && SentAs(s.proc.sessions, s.proc.ops[o'], x, s.proc.sessions[x].queue[i]);
    assert o' < o || o < o';
  }

  lemma QueueDistinctKeeps(s: State, e: Event, x: nat)
    requires Inv(s) && QueuesDistinct(s) && !e.Restart? && x < |Apply(s, e).proc.sessions|
    ensures QueueDistinct(Apply(s, e).proc.sessions[x].queue)
  {
    if x >= |s.proc.sessions| {
      NewSession(s, e);
    } else {
      var queue := s.proc.sessions[x].queue;
      assert QueueDistinct(queue);
      if e.Offer? {
        QueueAfterOffer(s, e, x);
        forall i | 0 <= i < |queue| && queue[i].UpdateMessage? && e.op < |s.proc.ops| && x !in s.proc.ops[e.op].sent
          ensures queue[i].updateSeq != s.proc.ops[e.op].num
        { OfferedIsNew(s, e.op, x, i); }
      } else {
        QueueWithoutOffer(s, e, x);
      }
    }
  }

  lemma {:induction false} NoUpdateTwice(configured: int, initial: string, events: seq<Event>)
    ensures QueuesDistinct(Run(Start(configured, initial), events))
    decreases |events|
  {
    if events != [] {
      var before, e := Run(Start(configured, initial), events[..|events| - 1]), events[|events| - 1];
      NoUpdateTwice(configured, initial, events[..|events| - 1]);
      StartKeeps(configured, initial);
      RunKeeps(Start(configured, initial), events[..|events| - 1]);
      if !e.Restart? {
        forall x | 0 <= x < |Apply(before, e).proc.sessions|
          ensures QueueDistinct(Apply(before, e).proc.sessions[x].queue)
        { QueueDistinctKeeps(before, e, x); }
      }
    }
  }
}
