/**
  Delivery over whole runs: everything that was ever put in a session's queue, which updates are in
  it and which were dropped, and a run in which a broadcast meets a session that has left.
 */
module CollabDelivery {
  import opened Common
  import opened CollabMachine
  import opened CollabInvariant
  import opened CollabTheorems

  function QueueOf(s: State, x: nat): seq<Message> {
    if x < |s.proc.sessions| then s.proc.sessions[x].queue else []
  }

  /** What an event puts in the queue of session `x`. */
  ghost function Added(s: State, e: Event, x: nat): seq<Message> {
    var queue, queue' := QueueOf(s, x), QueueOf(Apply(s, e), x);
    if |queue'| == |queue| + 1 then [queue'[|queue|]] else []
  }

  /** Everything put in the queue of session `x`, in order, since the process started. */
  ghost function Ever(start: State, events: seq<Event>, x: nat): seq<Message>
    decreases |events|
  {
    if events == [] then []
    else
      var n := |events| - 1;
      if events[n].Restart? then []
      else Ever(start, events[..n], x) + Added(Run(start, events[..n]), events[n], x)
  }

  /** The broadcast of operation `o` has its turn for session `x`, which is still here. */
  predicate OffersTo(s: State, o: nat, x: nat) {
    && o < |s.proc.ops| && s.proc.ops[o].phase.Sending? && s.proc.ops[o].author < |s.proc.sessions|
    && x in s.proc.ops[o].Receivers() && x !in s.proc.ops[o].sent
    && x < |s.proc.sessions| && s.proc.sessions[x].leftAt.None?
  }

  predicate HasRoom(s: State, x: nat) {
    |QueueOf(s, x)| < QUEUE_CAPACITY
  }

  /** The message of operation `o`. */
  function Carried(s: State, o: nat): Message {
    if o < |s.proc.ops| && s.proc.ops[o].author < |s.proc.sessions| then BroadcastMessage(s, o) else ErrorMessage
  }

  /** Event `i` offered the message of operation `o` to session `x`, and the process has not restarted since. */
  ghost predicate OfferedAt(start: State, events: seq<Event>, i: nat, o: nat, x: nat) {
    && i < |events| && events[i] == Offer(o, x) && OffersTo(Run(start, events[..i]), o, x)
    && forall j :: i <= j < |events| ==> !events[j].Restart?
  }

  // ---- One event.

  lemma OfferTakesEffect(s: State, o: nat, x: nat)
    requires OffersTo(s, o, x)
    ensures var s' := Apply(s, Offer(o, x));
            && o < |s'.proc.ops| && x in s'.proc.ops[o].sent
            && Carried(s', o) == Carried(s, o) && Carried(s, o).UpdateMessage?
            && Added(s, Offer(o, x), x) == if HasRoom(s, x) then [Carried(s, o)] else []
  {
  }

  lemma NewQueueIsEmpty(s: State, e: Event, x: nat)
    requires !e.Restart? && x >= |s.proc.sessions|
    ensures QueueOf(Apply(s, e), x) == []
  {
    match e
    case Enter(c) => EnteredQueueIsEmpty(s, c, x);
    case _ => SessionsStay(s, e);
  }

  lemma EnteredQueueIsEmpty(s: State, c: nat, x: nat)
    requires x >= |s.proc.sessions|
    ensures QueueOf(DoEnter(s, c), x) == []
  {
  }

  lemma SessionsStay(s: State, e: Event)
    requires !e.Restart? && !e.Enter?
    ensures |Apply(s, e).proc.sessions| == |s.proc.sessions|
  {
    if !OnSession(e) { OthersKeepSessions(s, e); }
  }

  lemma OfferToAnother(s: State, o: nat, y: nat, x: nat)
    requires x != y || !OffersTo(s, o, x)
    ensures QueueOf(DoOffer(s, o, y), x) == QueueOf(s, x)
  {
  }

  /** An update enters a queue only when it is offered and there is room. */
  lemma AddedByOffer(s: State, e: Event, x: nat)
    requires !e.Restart? && Added(s, e, x) != [] && Added(s, e, x)[0].UpdateMessage?
    ensures e.Offer? && e == Offer(e.op, x) && OffersTo(s, e.op, x) && HasRoom(s, x)
    ensures Added(s, e, x) == [Carried(s, e.op)]
  {
    if x >= |s.proc.sessions| {
      NewQueueIsEmpty(s, e, x);
    } else if !e.Offer? {
      QueueWithoutOffer(s, e, x);
    } else if e.receiver != x || !OffersTo(s, e.op, x) {
      OfferToAnother(s, e.op, e.receiver, x);
    } else {
      OfferTakesEffect(s, e.op, x);
    }
  }

  /** Nothing but an offer to it enters a session in the record of a broadcast. */
  lemma SentByOffer(s: State, e: Event, o: nat, x: nat)
    requires !e.Restart? && o < |Apply(s, e).proc.ops| && x in Apply(s, e).proc.ops[o].sent
    requires o < |s.proc.ops| ==> x !in s.proc.ops[o].sent
    ensures e == Offer(o, x) && OffersTo(s, o, x)
  {
    match e
    case Offer(p, y) => OfferEnters(s, p, y, o, x);
    case Submit(author, content) => SubmitSendsNothing(s, author, content, o);
    case _ => OthersSendNothing(s, e, o);
  }

  lemma OfferEnters(s: State, p: nat, y: nat, o: nat, x: nat)
    requires o < |DoOffer(s, p, y).proc.ops| && x in DoOffer(s, p, y).proc.ops[o].sent
    requires o < |s.proc.ops| ==> x !in s.proc.ops[o].sent
    ensures p == o && y == x && OffersTo(s, o, x)
  {
  }

  lemma SubmitSendsNothing(s: State, author: nat, content: string, o: nat)
    requires o < |DoSubmit(s, author, content).proc.ops|
    ensures DoSubmit(s, author, content).proc.ops[o].sent == if o < |s.proc.ops| then s.proc.ops[o].sent else []
  {
  }

  lemma OthersSendNothing(s: State, e: Event, o: nat)
    requires !e.Offer? && !e.Submit? && !e.Restart? && o < |Apply(s, e).proc.ops|
    ensures o < |s.proc.ops| && Apply(s, e).proc.ops[o].sent == s.proc.ops[o].sent
  {
    if !OnOp(e) { OthersKeepOps(s, e); }
  }

  lemma CarriedStays(s: State, e: Event, o: nat)
    requires RoomInv(s) && SessionsInv(s) && !e.Restart?
    requires o < |s.proc.ops| && s.proc.ops[o].author < |s.proc.sessions|
    ensures o < |Apply(s, e).proc.ops| && Apply(s, e).proc.ops[o].author < |Apply(s, e).proc.sessions|
    ensures Carried(Apply(s, e), o) == Carried(s, o)
  {
    OpGrows(s, e, o);
    SessionGrows(s, e, s.proc.ops[o].author);
  }

  /** A queue is as before, lost its first message, or got one at its end. */
  lemma QueueStep(s: State, e: Event, x: nat)
    requires !e.Restart?
    ensures var queue, queue' := QueueOf(s, x), QueueOf(Apply(s, e), x);
            queue' == queue + Added(s, e, x) || (queue != [] && queue' == queue[1..] && Added(s, e, x) == [])
  {
    var queue, queue' := QueueOf(s, x), QueueOf(Apply(s, e), x);
    if x >= |s.proc.sessions| {
      NewQueueIsEmpty(s, e, x);
    } else if e.Offer? {
      QueueAfterOffer(s, e, x);
    } else {
      QueueWithoutOffer(s, e, x);
    }
    assert queue' == queue ==> queue' == queue + [];
  }

  // ---- Runs.

  lemma StartInv(configured: int, initial: string, events: seq<Event>)
    ensures Inv(Run(Start(configured, initial), events))
  {
    StartKeeps(configured, initial);
    RunKeeps(Start(configured, initial), events);
  }

  lemma StillOfferedAt(start: State, events: seq<Event>, i: nat, o: nat, x: nat)
    requires events != [] && i < |events| - 1 && !events[|events| - 1].Restart?
    ensures OfferedAt(start, events[..|events| - 1], i, o, x) <==> OfferedAt(start, events, i, o, x)
  {
    var n := |events| - 1;
    assert events[..n][..i] == events[..i] && events[..n][i] == events[i];
    assert forall j :: i <= j < n ==> events[..n][j] == events[j];
  }

  /** Who was offered an update stays in its record. */
  lemma {:induction false} OfferedIsSent(configured: int, initial: string, events: seq<Event>, i: nat, o: nat, x: nat)
    requires OfferedAt(Start(configured, initial), events, i, o, x)
    ensures var s := Run(Start(configured, initial), events);
            o < |s.proc.ops| && x in s.proc.ops[o].sent && s.proc.ops[o].author < |s.proc.sessions|
    decreases |events|
  {
    var n := |events| - 1;
    var before := Run(Start(configured, initial), events[..n]);
    StartInv(configured, initial, events[..n]);
    if i == n {
      OfferTakesEffect(before, o, x);
    } else {
      StillOfferedAt(Start(configured, initial), events, i, o, x);
      OfferedIsSent(configured, initial, events[..n], i, o, x);
      OpGrows(before, events[n], o);
    }
    CarriedStays(before, events[n], o);
  }

  predicate IsSent(s: State, o: nat, x: nat) {
    o < |s.proc.ops| && x in s.proc.ops[o].sent
  }

  lemma LastSentWasOffered(start: State, events: seq<Event>, o: nat, x: nat)
    requires events != [] && IsSent(Run(start, events), o, x) && !IsSent(Run(start, events[..|events| - 1]), o, x)
    ensures OfferedAt(start, events, |events| - 1, o, x)
  {
    var n := |events| - 1;
    SentByOffer(Run(start, events[..n]), events[n], o, x);
  }

  lemma {:induction false} SentWasOffered(configured: int, initial: string, events: seq<Event>, o: nat, x: nat)
    requires IsSent(Run(Start(configured, initial), events), o, x)
    ensures exists i: nat :: OfferedAt(Start(configured, initial), events, i, o, x)
    decreases |events|
  {
    var start, n := Start(configured, initial), |events| - 1;
    if IsSent(Run(start, events[..n]), o, x) {
      SentWasOffered(configured, initial, events[..n], o, x);
      var i: nat :| OfferedAt(start, events[..n], i, o, x);
      StillOfferedAt(start, events, i, o, x);
    } else {
      LastSentWasOffered(start, events, o, x);
    }
  }

  lemma OfferedOnce(configured: int, initial: string, events: seq<Event>, i: nat, j: nat, o: nat, x: nat)
    requires OfferedAt(Start(configured, initial), events, i, o, x)
    requires OfferedAt(Start(configured, initial), events, j, o, x)
    ensures i == j
  {
    if i < j {
      OfferedBefore(configured, initial, events, i, j, o, x);
    } else if j < i {
      OfferedBefore(configured, initial, events, j, i, o, x);
    }
  }

  lemma OfferedBefore(configured: int, initial: string, events: seq<Event>, i: nat, j: nat, o: nat, x: nat)
    requires i < j <= |events| && OfferedAt(Start(configured, initial), events, i, o, x)
    ensures !OffersTo(Run(Start(configured, initial), events[..j]), o, x)
  {
    assert events[..j][..i] == events[..i] && events[..j][i] == events[i];
    assert forall k :: i <= k < j ==> events[..j][k] == events[k];
    OfferedIsSent(configured, initial, events[..j], i, o, x);
  }

  /** An update in the history of a queue was offered there, with room. */
  ghost predicate CameFrom(start: State, events: seq<Event>, x: nat, message: Message, i: nat, o: nat) {
    && OfferedAt(start, events, i, o, x) && HasRoom(Run(start, events[..i]), x)
    && message == Carried(Run(start, events), o)
  }

  lemma StillCameFrom(configured: int, initial: string, events: seq<Event>, x: nat, message: Message, i: nat, o: nat)
    requires events != [] && !events[|events| - 1].Restart?
    requires CameFrom(Start(configured, initial), events[..|events| - 1], x, message, i, o)
    ensures CameFrom(Start(configured, initial), events, x, message, i, o)
  {
    StillOfferedAt(Start(configured, initial), events, i, o, x);
    CarriedStaysOver(configured, initial, events, i, o, x);
    assert events[..|events| - 1][..i] == events[..i];
  }

  lemma EverSnoc(start: State, events: seq<Event>, x: nat)
    requires events != [] && !events[|events| - 1].Restart?
    ensures var n := |events| - 1;
            Ever(start, events, x) == Ever(start, events[..n], x) + Added(Run(start, events[..n]), events[n], x)
  {
  }

  lemma EverStays(start: State, events: seq<Event>, x: nat, message: Message)
    requires events != [] && !events[|events| - 1].Restart?
    requires message in Ever(start, events[..|events| - 1], x)
    ensures message in Ever(start, events, x)
  {
    EverSnoc(start, events, x);
  }

  lemma LastAddedCameFrom(start: State, events: seq<Event>, x: nat, message: Message)
    requires events != [] && !events[|events| - 1].Restart? && message.UpdateMessage?
    requires var n := |events| - 1; message in Added(Run(start, events[..n]), events[n], x)
    ensures events[|events| - 1].Offer? && CameFrom(start, events, x, message, |events| - 1, events[|events| - 1].op)
  {
    var n := |events| - 1;
    AddedByOffer(Run(start, events[..n]), events[n], x);
    OfferTakesEffect(Run(start, events[..n]), events[n].op, x);
  }

  lemma {:induction false} EverCameFromOffers(configured: int, initial: string, events: seq<Event>, x: nat,
                                              message: Message)
    requires message in Ever(Start(configured, initial), events, x) && message.UpdateMessage?
    ensures exists i: nat, o: nat :: CameFrom(Start(configured, initial), events, x, message, i, o)
    decreases |events|
  {
    var start, n := Start(configured, initial), |events| - 1;
    EverSnoc(start, events, x);
    if message in Ever(start, events[..n], x) {
      EverCameFromOffers(configured, initial, events[..n], x, message);
      var i: nat, o: nat :| CameFrom(start, events[..n], x, message, i, o);
      StillCameFrom(configured, initial, events, x, message, i, o);
    } else {
      LastAddedCameFrom(start, events, x, message);
    }
  }

  lemma LastOfferIsEver(start: State, events: seq<Event>, o: nat, x: nat)
    requires events != [] && OfferedAt(start, events, |events| - 1, o, x)
    requires HasRoom(Run(start, events[..|events| - 1]), x)
    ensures Carried(Run(start, events), o) in Ever(start, events, x)
  {
    EverSnoc(start, events, x);
    OfferTakesEffect(Run(start, events[..|events| - 1]), o, x);
  }

  lemma CarriedStaysOver(configured: int, initial: string, events: seq<Event>, i: nat, o: nat, x: nat)
    requires events != [] && !events[|events| - 1].Restart?
    requires OfferedAt(Start(configured, initial), events[..|events| - 1], i, o, x)
    ensures Carried(Run(Start(configured, initial), events), o) ==
            Carried(Run(Start(configured, initial), events[..|events| - 1]), o)
  {
    var n := |events| - 1;
    StartInv(configured, initial, events[..n]);
    OfferedIsSent(configured, initial, events[..n], i, o, x);
    CarriedStays(Run(Start(configured, initial), events[..n]), events[n], o);
  }

  /** Event `i` offered the message, with room. */
  ghost predicate OfferedWithRoom(start: State, events: seq<Event>, i: nat, o: nat, x: nat) {
    OfferedAt(start, events, i, o, x) && HasRoom(Run(start, events[..i]), x)
  }

  ghost predicate IsEver(start: State, events: seq<Event>, o: nat, x: nat) {
    Carried(Run(start, events), o) in Ever(start, events, x)
  }

  lemma OfferedWithRoomBefore(start: State, events: seq<Event>, i: nat, o: nat, x: nat)
    requires OfferedWithRoom(start, events, i, o, x) && i < |events| - 1
    ensures OfferedWithRoom(start, events[..|events| - 1], i, o, x)
  {
    StillOfferedAt(start, events, i, o, x);
    assert events[..|events| - 1][..i] == events[..i];
  }

  lemma StillIsEver(configured: int, initial: string, events: seq<Event>, i: nat, o: nat, x: nat)
    requires events != [] && !events[|events| - 1].Restart?
    requires OfferedAt(Start(configured, initial), events[..|events| - 1], i, o, x)
    requires IsEver(Start(configured, initial), events[..|events| - 1], o, x)
    ensures IsEver(Start(configured, initial), events, o, x)
  {
    var start := Start(configured, initial);
    CarriedStaysOver(configured, initial, events, i, o, x);
    EverStays(start, events, x, Carried(Run(start, events), o));
  }

  lemma {:induction false} OfferedWithRoomIsEver(configured: int, initial: string, events: seq<Event>, i: nat, o: nat,
                                                 x: nat)
    requires OfferedWithRoom(Start(configured, initial), events, i, o, x)
    ensures IsEver(Start(configured, initial), events, o, x)
    decreases |events|
  {
    var start := Start(configured, initial);
    if i == |events| - 1 {
      LastOfferIsEver(start, events, o, x);
    } else {
      OfferedWithRoomBefore(start, events, i, o, x);
      OfferedWithRoomIsEver(configured, initial, events[..|events| - 1], i, o, x);
      StillIsEver(configured, initial, events, i, o, x);
    }
  }

  lemma SameMessageSameOp(s: State, o: nat, p: nat)
    requires OpsInv(s) && o < |s.proc.ops| && p < |s.proc.ops| && Carried(s, o) == Carried(s, p)
    requires s.proc.ops[o].author < |s.proc.sessions| && s.proc.ops[p].author < |s.proc.sessions|
    ensures o == p
  {
    assert o < p || p < o || o == p;
  }

  /**
    Over every run: a session that a broadcast has served was offered its message at exactly one
    event, and the message ever entered its queue exactly when the queue was not full at that event.
   */
  lemma OfferedIsDeliveredExactlyWhen(configured: int, initial: string, events: seq<Event>, o: nat, x: nat)
    requires IsSent(Run(Start(configured, initial), events), o, x)
    ensures exists i: nat :: OfferedAt(Start(configured, initial), events, i, o, x)
    ensures var start := Start(configured, initial);
            forall i: nat :: OfferedAt(start, events, i, o, x) ==>
              (Carried(Run(start, events), o) in Ever(start, events, x) <==> HasRoom(Run(start, events[..i]), x))
  {
    var start := Start(configured, initial);
    SentWasOffered(configured, initial, events, o, x);
    forall i: nat | OfferedAt(start, events, i, o, x)
      ensures Carried(Run(start, events), o) in Ever(start, events, x) <==> HasRoom(Run(start, events[..i]), x)
    {
      if HasRoom(Run(start, events[..i]), x) {
        OfferedWithRoomIsEver(configured, initial, events, i, o, x);
      } else if Carried(Run(start, events), o) in Ever(start, events, x) {
        EverHadRoom(configured, initial, events, i, o, x);
      }
    }
  }

  lemma EverHadRoom(configured: int, initial: string, events: seq<Event>, i: nat, o: nat, x: nat)
    requires OfferedAt(Start(configured, initial), events, i, o, x)
    requires Carried(Run(Start(configured, initial), events), o) in Ever(Start(configured, initial), events, x)
    ensures HasRoom(Run(Start(configured, initial), events[..i]), x)
  {
    var start := Start(configured, initial);
    var s := Run(start, events);
    StartInv(configured, initial, events);
    OfferedIsSent(configured, initial, events, i, o, x);
    EverCameFromOffers(configured, initial, events, x, Carried(s, o));
    var j: nat, p: nat :| CameFrom(start, events, x, Carried(s, o), j, p);
    OfferedIsSent(configured, initial, events, j, p, x);
    SameMessageSameOp(s, o, p);
    OfferedOnce(configured, initial, events, i, j, o, x);
  }

  /**
    A successful update was put in the queue of every session that joined below its number, was
    not its author and had not left, or met that queue full at its one offer.
   */
  lemma SuccessReachesEveryReceiver(configured: int, initial: string, events: seq<Event>, o: nat, x: nat)
    requires var s := Run(Start(configured, initial), events);
             o < |s.proc.ops| && s.proc.ops[o].phase == Finished(Success)
             && x < |s.proc.sessions| && x != s.proc.ops[o].author && Covers(s.proc.sessions[x], s.proc.ops[o].num)
    ensures var start := Start(configured, initial);
            Carried(Run(start, events), o) in Ever(start, events, x)
            || exists i: nat :: OfferedAt(start, events, i, o, x) && !HasRoom(Run(start, events[..i]), x)
  {
    var start := Start(configured, initial);
    var s := Run(start, events);
    StartInv(configured, initial, events);
    assert TargetsRight(s.proc.sessions, s.proc.ops[o]) && SentInv(s, s.proc.ops[o]);
    assert x in Elements(s.proc.ops[o].sent);
    OfferedIsDeliveredExactlyWhen(configured, initial, events, o, x);
    var i: nat :| OfferedAt(start, events, i, o, x);
  }

  // ---- The history of a queue.

  /** Over every run no update is ever put in a queue twice, read messages included. */
  lemma {:induction false} NoUpdateTwiceEver(configured: int, initial: string, events: seq<Event>, x: nat)
    ensures QueueDistinct(Ever(Start(configured, initial), events, x))
    decreases |events|
  {
    if events != [] && !events[|events| - 1].Restart? {
      var n := |events| - 1;
      NoUpdateTwiceEver(configured, initial, events[..n], x);
      EverSnoc(Start(configured, initial), events, x);
      AddedKeepsDistinct(configured, initial, events[..n], events[n], x);
    }
  }

  lemma AddedKeepsDistinct(configured: int, initial: string, events: seq<Event>, e: Event, x: nat)
    requires !e.Restart? && QueueDistinct(Ever(Start(configured, initial), events, x))
    ensures QueueDistinct(Ever(Start(configured, initial), events, x) +
                          Added(Run(Start(configured, initial), events), e, x))
  {
    var before, past := Run(Start(configured, initial), events), Ever(Start(configured, initial), events, x);
    if Added(before, e, x) != [] && Added(before, e, x)[0].UpdateMessage? {
      AddedByOffer(before, e, x);
      forall k | 0 <= k < |past| && past[k].UpdateMessage?
        ensures past[k].updateSeq != Carried(before, e.op).updateSeq
      { AddedIsNew(configured, initial, events, e.op, x, past[k]); }
    }
  }

  lemma AddedIsNew(configured: int, initial: string, events: seq<Event>, o: nat, x: nat, message: Message)
    requires OffersTo(Run(Start(configured, initial), events), o, x)
    requires message in Ever(Start(configured, initial), events, x) && message.UpdateMessage?
    ensures Carried(Run(Start(configured, initial), events), o).UpdateMessage?
    ensures message.updateSeq != Carried(Run(Start(configured, initial), events), o).updateSeq
  {
    EverCameFromOffers(configured, initial, events, x, message);
    var j: nat, p: nat :| CameFrom(Start(configured, initial), events, x, message, j, p);
    CameFromAnother(configured, initial, events, o, x, message, j, p);
  }

  lemma CameFromAnother(configured: int, initial: string, events: seq<Event>, o: nat, x: nat, message: Message,
                        j: nat, p: nat)
    requires OffersTo(Run(Start(configured, initial), events), o, x)
    requires CameFrom(Start(configured, initial), events, x, message, j, p) && message.UpdateMessage?
    ensures Carried(Run(Start(configured, initial), events), o).UpdateMessage?
    ensures message.updateSeq != Carried(Run(Start(configured, initial), events), o).updateSeq
  {
    StartInv(configured, initial, events);
    OfferedIsSent(configured, initial, events, j, p, x);
    NumbersDiffer(Run(Start(configured, initial), events), o, p);
  }

  lemma NumbersDiffer(s: State, o: nat, p: nat)
    requires OpsInv(s) && o < |s.proc.ops| && p < |s.proc.ops| && o != p
    ensures s.proc.ops[o].num != s.proc.ops[p].num
  {
    assert o < p || p < o;
  }

  /** A queue holds the last messages of its history in order: the others were read, first in first out. */
  lemma {:induction false} QueueIsEndOfHistory(start: State, events: seq<Event>, x: nat)
    requires start.proc == IDLE
    ensures IsEndOf(QueueOf(Run(start, events), x), Ever(start, events, x))
    decreases |events|
  {
    if events != [] && !events[|events| - 1].Restart? {
      var n := |events| - 1;
      var before := Run(start, events[..n]);
      QueueIsEndOfHistory(start, events[..n], x);
      EverSnoc(start, events, x);
      QueueStep(before, events[n], x);
      StillEndOf(QueueOf(before, x), Ever(start, events[..n], x), QueueOf(Apply(before, events[n]), x),
                 Added(before, events[n], x));
    }
  }

  predicate IsEndOf(queue: seq<Message>, past: seq<Message>) {
    |queue| <= |past| && past[|past| - |queue|..] == queue
  }

  lemma StillEndOf(queue: seq<Message>, past: seq<Message>, queue': seq<Message>, added: seq<Message>)
    requires IsEndOf(queue, past)
    requires queue' == queue + added || (queue != [] && queue' == queue[1..] && added == [])
    ensures IsEndOf(queue', past + added)
  {
    assert past == past[..|past| - |queue|] + queue;
    if queue' == queue + added {
      assert past + added == past[..|past| - |queue|] + queue';
    } else {
      assert past + added == past;
    }
  }

  // ---- A run into the panic.

  /** Join of the first user of a process: nothing is logged yet, so the room shows the stored document. */
  function FirstJoin(user: string): seq<Event> {
    [Check(user, true), ReadSnapshot(0, 0), ReadInitial(0), ReadUpdates(0), Install(0), Enter(0), SendInit(0)]
  }

  function SecondJoin(user: string, canEdit: bool): seq<Event> {
    [Check(user, canEdit), Enter(1), SendInit(1)]
  }

  /** The first session's update is logged; the second leaves before its turn in the broadcast. */
  function LateLeave(content: string): seq<Event> {
    [Submit(0, content), Persist(0, Stored), Leave(1)]
  }

  function Joined(user: string, canEdit: bool, initial: string): Session {
    Session(user, canEdit, 0, initial, 0, None, [InitMessage(initial, canEdit, 0)])
  }

  /** The state after both joins. */
  function TwoJoined(initial: string, first: string, second: string, canEdit: bool): State {
    State(DEFAULT_INTERVAL, Store(initial, map[], []),
          Process([Room(initial, 0, {0, 1})], Some(0),
                  [Call(first, true, true, Returned), Call(second, canEdit, true, Returned)],
                  [Joined(first, true, initial), Joined(second, canEdit, initial)], []), {})
  }

  function OneJoined(initial: string, first: string): State {
    State(DEFAULT_INTERVAL, Store(initial, map[], []),
          Process([Room(initial, 0, {0})], Some(0), [Call(first, true, true, Returned)],
                  [Joined(first, true, initial)], []), {})
  }

  /** Entering the one room and the init message, in terms of the state before. */
  lemma EntersRoom(s: State, c: nat)
    requires |s.proc.rooms| == 1 && c < |s.proc.calls| && s.proc.calls[c].phase == Found(0)
    ensures var call, room, x := s.proc.calls[c], s.proc.rooms[0], |s.proc.sessions|;
            var init := InitMessage(room.content, call.canEdit, room.updateSeq);
            Apply(Apply(s, Enter(c)), SendInit(c)) ==
            s.(proc := s.proc.(rooms := [room.(clients := room.clients + {x})],
                               calls := s.proc.calls[c := call.(phase := Returned)],
                               sessions := s.proc.sessions +
                                           [Session(call.user, call.canEdit, 0, room.content, room.updateSeq, None,
                                                    [init])]))
  {
    assert s.proc.rooms == [s.proc.rooms[0]];
    assert forall m: Message :: [] + [m] == [m];
  }

  lemma FirstJoinRuns(initial: string, first: string)
    ensures Run(Start(0, initial), FirstJoin(first)) == OneJoined(initial, first)
  {
    var s0 := Start(0, initial);
    var read, enter := [Check(first, true), ReadSnapshot(0, 0), ReadInitial(0), ReadUpdates(0), Install(0)],
                       [Enter(0), SendInit(0)];
    ReadRuns(initial, first);
    RunConcat(s0, read, enter);
    assert read + enter == FirstJoin(first);
    RunPair(Run(s0, read), Enter(0), SendInit(0));
    EntersRoom(RoomBuilt(initial, first), 0);
    assert {} + {0} == {0} && [] + [Joined(first, true, initial)] == [Joined(first, true, initial)];
  }

  function RoomBuilt(initial: string, first: string): State {
    State(DEFAULT_INTERVAL, Store(initial, map[], []),
          Process([Room(initial, 0, {})], Some(0), [Call(first, true, true, Found(0))], [], []), {})
  }

  /** The room is built from the stored document. */
  lemma ReadRuns(initial: string, first: string)
    ensures RoomBuilt(initial, first) ==
            Run(Start(0, initial), [Check(first, true), ReadSnapshot(0, 0), ReadInitial(0), ReadUpdates(0), Install(0)])
  {
    var s0 := Start(0, initial);
    var e1, e2, e3, e4 := Check(first, true), ReadSnapshot(0, 0), ReadInitial(0), ReadUpdates(0);
    var s3 := Apply(Apply(Apply(s0, e1), e2), e3);
    assert RowsUpTo(s3.store.updates, 0, Top(s3.store.updates.Keys)) == [];
    assert Apply(s3, e4).proc == s0.proc.(calls := [Call(first, true, true, Loaded(initial, 0))]);
    RunFour(s0, e1, e2, e3, e4);
    RunSnoc(s0, [e1, e2, e3, e4], Install(0));
    assert [e1, e2, e3, e4] + [Install(0)] == [e1, e2, e3, e4, Install(0)];
  }

  lemma SecondJoinRuns(initial: string, first: string, second: string, canEdit: bool)
    ensures Run(OneJoined(initial, first), SecondJoin(second, canEdit)) == TwoJoined(initial, first, second, canEdit)
  {
    var s := OneJoined(initial, first);
    RunConcat(s, [Check(second, canEdit)], [Enter(1), SendInit(1)]);
    assert [Check(second, canEdit)] + [Enter(1), SendInit(1)] == SecondJoin(second, canEdit);
    RunSnoc(s, [], Check(second, canEdit));
    assert [] + [Check(second, canEdit)] == [Check(second, canEdit)];
    var checked := Apply(s, Check(second, canEdit));
    RunPair(checked, Enter(1), SendInit(1));
    EntersRoom(checked, 1);
    assert {0} + {1} == {0, 1};
  }

  /** The update of the first session, logged and about to be broadcast to the second, which has left. */
  lemma LateLeaveRuns(initial: string, first: string, second: string, canEdit: bool, content: string)
    ensures var s := Run(TwoJoined(initial, first, second, canEdit), LateLeave(content));
            && s.proc.ops == [Op(0, 0, 1, content, {0, 1}, [], Sending)]
            && s.store.updates == map[1 := Update("update", content, first)]
            && s.proc.sessions == [Joined(first, true, initial), Joined(second, canEdit, initial).(leftAt := Some(1))]
            && s.acked == {}
  {
    var s := TwoJoined(initial, first, second, canEdit);
    RunPair(s, Submit(0, content), Persist(0, Stored));
    RunSnoc(s, [Submit(0, content), Persist(0, Stored)], Leave(1));
    assert [Submit(0, content), Persist(0, Stored)] + [Leave(1)] == LateLeave(content);
    SubmitAndPersist(s, content);
  }

  lemma SubmitAndPersist(s: State, content: string)
    requires |s.proc.rooms| == 1 && s.proc.rooms[0].updateSeq == 0 && s.proc.ops == [] && s.store.updates == map[]
    requires s.proc.sessions != [] && s.proc.sessions[0].canEdit && s.proc.sessions[0].room == 0
    requires s.interval == DEFAULT_INTERVAL
    ensures var room := s.proc.rooms[0];
            Apply(Apply(s, Submit(0, content)), Persist(0, Stored)) ==
            s.(store := s.store.(updates := map[1 := Update("update", content, s.proc.sessions[0].user)]),
               proc := s.proc.(rooms := [Room(content, 1, room.clients)],
                               ops := [Op(0, 0, 1, content, room.clients, [], Sending)]))
  {
    assert s.proc.rooms == [s.proc.rooms[0]];
    assert [] + [Op(0, 0, 1, content, s.proc.rooms[0].clients, [], NeedPersist)] ==
           [Op(0, 0, 1, content, s.proc.rooms[0].clients, [], NeedPersist)];
  }

  function UntilLateLeave(first: string, second: string, canEdit: bool, content: string): seq<Event> {
    FirstJoin(first) + SecondJoin(second, canEdit) + LateLeave(content)
  }

  /**
    For any two users, document and update: two joins, an update of the first session that is logged,
    and the second leaving before its turn reach a state whose broadcast can no longer succeed, and
    its next turn panics. The update stays logged but is never acknowledged.
   */
  lemma LeaverPanicsBroadcast(initial: string, first: string, second: string, canEdit: bool, content: string)
    ensures var events := UntilLateLeave(first, second, canEdit, content);
            var s, s' := Run(Start(0, initial), events), Run(Start(0, initial), events + [Offer(0, 1)]);
            && MissedLeaver(s, 0) && s.proc.ops[0].phase.Sending? && !(exists later :: SucceedsBy(s, 0, later))
            && |s'.proc.ops| == 1 && s'.proc.ops[0].phase == Finished(Panicked)
            && 1 in s'.store.updates && 1 !in s'.acked
  {
    var events := UntilLateLeave(first, second, canEdit, content);
    var s0, s := Start(0, initial), Run(Start(0, initial), events);
    FirstJoinRuns(initial, first);
    SecondJoinRuns(initial, first, second, canEdit);
    LateLeaveRuns(initial, first, second, canEdit, content);
    RunConcat(s0, FirstJoin(first), SecondJoin(second, canEdit));
    RunConcat(s0, FirstJoin(first) + SecondJoin(second, canEdit), LateLeave(content));
    LastTurn(s0, events);
  }

  lemma LastTurn(s0: State, events: seq<Event>)
    requires Reachable(Run(s0, events))
    requires var s := Run(s0, events);
             && |s.proc.ops| == 1 && s.proc.ops[0].phase.Sending? && s.proc.ops[0].num == 1 && s.proc.ops[0].author == 0
             && 1 in s.proc.ops[0].targets && s.proc.ops[0].sent == []
             && |s.proc.sessions| == 2 && s.proc.sessions[1].leftAt.Some?
             && 1 in s.store.updates && 1 !in s.acked
    ensures var s, s' := Run(s0, events), Run(s0, events + [Offer(0, 1)]);
            && MissedLeaver(s, 0) && !(exists later :: SucceedsBy(s, 0, later))
            && |s'.proc.ops| == 1 && s'.proc.ops[0].phase == Finished(Panicked)
            && 1 in s'.store.updates && 1 !in s'.acked
  {
    var s := Run(s0, events);
    RunSnoc(s0, events, Offer(0, 1));
    assert 1 in s.proc.ops[0].Receivers();
    BroadcastCanSucceedExactlyWhen(s, 0);
  }

  // ---- A run into a full queue.

  function Notices(x: nat, n: nat): seq<Event> {
    seq(n, _ => Notice(x))
  }

  /** `s` with `n` more presence messages in the queue of session `x`. */
  function Noticed(s: State, x: nat, n: nat): State
    requires x < |s.proc.sessions|
  {
    SetSession(s, x, s.proc.sessions[x].(queue := s.proc.sessions[x].queue + seq(n, _ => NoticeMessage)))
  }

  lemma {:induction false} NoticesFill(s: State, x: nat, n: nat)
    requires x < |s.proc.sessions| && s.proc.sessions[x].leftAt.None?
    requires |s.proc.sessions[x].queue| + n <= QUEUE_CAPACITY
    ensures Run(s, Notices(x, n)) == Noticed(s, x, n)
  {
    if n == 0 {
      var queue := s.proc.sessions[x].queue;
      assert queue + seq(n, _ => NoticeMessage) == queue;
      assert s.proc.sessions[x := s.proc.sessions[x]] == s.proc.sessions;
      assert Notices(x, n) == [];
    } else {
      NoticesFill(s, x, n - 1);
      assert Notices(x, n) == Notices(x, n - 1) + [Notice(x)];
      RunSnoc(s, Notices(x, n - 1), Notice(x));
      OneMoreNotice(s, x, n - 1);
    }
  }

  lemma OneMoreNotice(s: State, x: nat, n: nat)
    requires x < |s.proc.sessions| && s.proc.sessions[x].leftAt.None?
    requires |s.proc.sessions[x].queue| + n < QUEUE_CAPACITY
    ensures Apply(Noticed(s, x, n), Notice(x)) == Noticed(s, x, n + 1)
  {
    var queue := s.proc.sessions[x].queue;
    assert queue + seq(n, _ => NoticeMessage) + [NoticeMessage] == queue + seq(n + 1, _ => NoticeMessage);
  }

  /** Two joins, fifteen presence messages that the second session does not read, an update that is logged. */
  function UntilFull(first: string, second: string, canEdit: bool, content: string): seq<Event> {
    FirstJoin(first) + SecondJoin(second, canEdit) + Notices(1, 15) + [Submit(0, content), Persist(0, Stored)]
  }

  lemma FullRuns(initial: string, first: string, second: string, canEdit: bool, content: string)
    ensures var s := Run(Start(0, initial), UntilFull(first, second, canEdit, content));
            && s.proc.ops == [Op(0, 0, 1, content, {0, 1}, [], Sending)]
            && |s.proc.sessions| == 2 && s.proc.sessions[1].leftAt.None? && |QueueOf(s, 1)| == QUEUE_CAPACITY
  {
    var s0, joins := Start(0, initial), FirstJoin(first) + SecondJoin(second, canEdit);
    var joined := TwoJoined(initial, first, second, canEdit);
    FirstJoinRuns(initial, first);
    SecondJoinRuns(initial, first, second, canEdit);
    RunConcat(s0, FirstJoin(first), SecondJoin(second, canEdit));
    RunConcat(s0, joins, Notices(1, 15));
    NoticesFill(joined, 1, 15);
    RunConcat(s0, joins + Notices(1, 15), [Submit(0, content), Persist(0, Stored)]);
    RunPair(Noticed(joined, 1, 15), Submit(0, content), Persist(0, Stored));
    SubmitAndPersist(Noticed(joined, 1, 15), content);
  }

  /**
    For any two users, document and update: a session that does not read its queue never gets an
    update that was logged and acknowledged.
   */
  lemma FullQueueDropsUpdate(initial: string, first: string, second: string, canEdit: bool, content: string)
    ensures var start := Start(0, initial);
            var events := UntilFull(first, second, canEdit, content) + [Offer(0, 1), Finish(0)];
            var s := Run(start, events);
            && |s.proc.ops| == 1 && s.proc.ops[0].phase == Finished(Success) && 1 in s.acked
            && 1 in s.proc.ops[0].sent && Carried(s, 0) !in Ever(start, events, 1)
  {
    var start, full := Start(0, initial), UntilFull(first, second, canEdit, content);
    var events := full + [Offer(0, 1), Finish(0)];
    FullRuns(initial, first, second, canEdit, content);
    RunConcat(start, full, [Offer(0, 1), Finish(0)]);
    RunPair(Run(start, full), Offer(0, 1), Finish(0));
    DroppedAndFinished(Run(start, full));
    assert events[..|full|] == full && events[|full|] == Offer(0, 1) && events[|full| + 1] == Finish(0);
    assert OfferedAt(start, events, |full|, 0, 1);
    if Carried(Run(start, events), 0) in Ever(start, events, 1) {
      EverHadRoom(0, initial, events, |full|, 0, 1);
    }
  }

  lemma DroppedAndFinished(s: State)
    requires |s.proc.ops| == 1 && s.proc.ops[0].phase == Sending && s.proc.ops[0].num == 1 && s.proc.ops[0].author == 0
    requires s.proc.ops[0].targets == {0, 1} && s.proc.ops[0].sent == []
    requires |s.proc.sessions| == 2 && s.proc.sessions[1].leftAt.None? && |QueueOf(s, 1)| == QUEUE_CAPACITY
    ensures var s' := Apply(Apply(s, Offer(0, 1)), Finish(0));
            && |s'.proc.ops| == 1 && s'.proc.ops[0].phase == Finished(Success) && 1 in s'.acked
            && 1 in s'.proc.ops[0].sent
    ensures OffersTo(s, 0, 1) && !HasRoom(s, 1)
  {
    assert s.proc.ops[0].Receivers() == {1};
    assert [] + [1 as nat] == [1];
  }
}
