/**
  What is shown at number 0, where nothing was logged yet: the document as it was stored when it was
  read. Later saves of the document beside its room decide whether that is still what recovery shows.
 */
module CollabInitial {
  import opened Common
  import opened CollabMachine
  import opened CollabReplay
  import opened CollabInvariant
  import opened CollabTheorems

  /** The stored document after these events. */
  function StoredAfter(initial: string, events: seq<Event>): string
    decreases |events|
  {
    if events == [] then initial
    else
      var n := |events| - 1;
      if events[n].Resave? then events[n].content else StoredAfter(initial, events[..n])
  }

  /** The content of the last save among these events. */
  function LastSave(events: seq<Event>): Option<string>
    decreases |events|
  {
    if events == [] then None
    else
      var n := |events| - 1;
      if events[n].Resave? then Some(events[n].content) else LastSave(events[..n])
  }

  /** The document was not saved, or last saved with this very content. */
  predicate SavedNothingElse(events: seq<Event>, content: string) {
    LastSave(events) == None || LastSave(events) == Some(content)
  }

  lemma {:induction false} StoredIs(configured: int, initial: string, events: seq<Event>)
    ensures Run(Start(configured, initial), events).store.initial == StoredAfter(initial, events)
    decreases |events|
  {
    if events != [] {
      var n := |events| - 1;
      StoredIs(configured, initial, events[..n]);
      OnlyResaveStores(Run(Start(configured, initial), events[..n]), events[n]);
    }
  }

  lemma OnlyResaveStores(s: State, e: Event)
    ensures Apply(s, e).store.initial == if e.Resave? then e.content else s.store.initial
  {
  }

  lemma {:induction false} StoredSince(initial: string, events: seq<Event>, i: nat)
    requires i <= |events|
    ensures StoredAfter(initial, events) ==
            match LastSave(events[i..])
            case None => StoredAfter(initial, events[..i])
            case Some(content) => content
    decreases |events|
  {
    var n := |events| - 1;
    if i == |events| {
      assert events[..i] == events;
    } else {
      assert events[i..][..n - i] == events[..n][i..];
      assert events[..n][..i] == events[..i];
      StoredSince(initial, events[..n], i);
    }
  }

  // ---- What shows at number 0.

  predicate ShowsAtZero(phase: CallPhase, content: string) {
    phase == Based(content, 0) || phase == Loaded(content, 0)
  }

  ghost predicate CallShows(s: State, content: string) {
    exists c :: 0 <= c < |s.proc.calls| && ShowsAtZero(s.proc.calls[c].phase, content)
  }

  predicate RoomShows(s: State, content: string) {
    s.proc.rooms != [] && s.proc.rooms[0].updateSeq == 0 && s.proc.rooms[0].content == content
  }

  ghost predicate SessionShows(s: State, content: string) {
    exists x :: 0 <= x < |s.proc.sessions| && InitAtZero(s.proc.sessions[x], content)
  }

  predicate InitAtZero(session: Session, content: string) {
    session.initSeq == 0 && session.initContent == content
  }

  /** A read in progress, the room, or the init of some session has this content at number 0. */
  ghost predicate ZeroContent(s: State, content: string) {
    CallShows(s, content) || RoomShows(s, content) || SessionShows(s, content)
  }

  /** The event that reads the stored document. */
  predicate ReadsInitial(s: State, e: Event) {
    e.ReadInitial? && e.call < |s.proc.calls| && s.proc.calls[e.call].phase.NoSnapshot?
  }

  lemma CallOrigin(s: State, e: Event, c: nat, content: string)
    requires StoreInv(s) && CallsInv(s)
    requires c < |Apply(s, e).proc.calls| && ShowsAtZero(Apply(s, e).proc.calls[c].phase, content)
    ensures CallShows(s, content) || (ReadsInitial(s, e) && content == s.store.initial)
  {
    if e.ReadUpdates? && e.call == c && c < |s.proc.calls| && s.proc.calls[c].phase.Based? {
      ReadUpdatesResult(s, c);
      assert ShowsAtZero(s.proc.calls[c].phase, content);
    } else if e.ReadSnapshot? && e.call == c && e.pick < |s.store.snapshots| {
      OtherCallsStay(s, e, c);
      assert ShowsAtZero(s.proc.calls[c].phase, content);
    } else if !(ReadsInitial(s, e) && e.call == c) {
      OtherCallsStay(s, e, c);
      assert ShowsAtZero(s.proc.calls[c].phase, content);
    }
  }

  lemma OtherCallsStay(s: State, e: Event, c: nat)
    requires c < |Apply(s, e).proc.calls|
    requires Apply(s, e).proc.calls[c].phase.Based? || Apply(s, e).proc.calls[c].phase.Loaded?
    requires !(e.ReadUpdates? && e.call == c && c < |s.proc.calls| && s.proc.calls[c].phase.Based?)
    requires !(ReadsInitial(s, e) && e.call == c)
    ensures c < |s.proc.calls|
    ensures Apply(s, e).proc.calls[c].phase == s.proc.calls[c].phase
            || (e.ReadSnapshot? && e.pick < |s.store.snapshots|
                && Apply(s, e).proc.calls[c].phase ==
                   Based(s.store.snapshots[e.pick].content, s.store.snapshots[e.pick].versionNo))
  {
  }

  lemma RoomOrigin(s: State, e: Event, content: string)
    requires RoomInv(s) && RoomShows(Apply(s, e), content)
    ensures RoomShows(s, content) || CallShows(s, content)
  {
    if s.proc.rooms == [] {
      assert e.Install? && ShowsAtZero(s.proc.calls[e.call].phase, content);
    }
  }

  lemma SessionOrigin(s: State, e: Event, x: nat, content: string)
    requires RoomInv(s) && CallsInv(s) && SessionsInv(s) && !e.Restart?
    requires x < |Apply(s, e).proc.sessions| && InitAtZero(Apply(s, e).proc.sessions[x], content)
    ensures SessionShows(s, content) || RoomShows(s, content)
  {
    if x < |s.proc.sessions| {
      SessionGrows(s, e, x);
      assert InitAtZero(s.proc.sessions[x], content);
    } else {
      NewSession(s, e);
    }
  }

  /** Content at number 0 comes only from reading the stored document. */
  lemma ZeroOrigin(s: State, e: Event, content: string)
    requires Inv(s) && !e.Restart? && ZeroContent(Apply(s, e), content)
    ensures ZeroContent(s, content) || (ReadsInitial(s, e) && content == s.store.initial)
  {
    var s' := Apply(s, e);
    if CallShows(s', content) {
      var c :| 0 <= c < |s'.proc.calls| && ShowsAtZero(s'.proc.calls[c].phase, content);
      CallOrigin(s, e, c, content);
    } else if RoomShows(s', content) {
      RoomOrigin(s, e, content);
    } else {
      var x :| 0 <= x < |s'.proc.sessions| && InitAtZero(s'.proc.sessions[x], content);
      SessionOrigin(s, e, x, content);
    }
  }

  // ---- Over runs.

  /** Event `i` read the stored document, with this content, and the process has not restarted since. */
  ghost predicate ReadAt(configured: int, initial: string, events: seq<Event>, i: nat, content: string) {
    && i < |events| && ReadsInitial(Run(Start(configured, initial), events[..i]), events[i])
    && content == StoredAfter(initial, events[..i])
    && forall j :: i <= j < |events| ==> !events[j].Restart?
  }

  lemma StillReadAt(configured: int, initial: string, events: seq<Event>, i: nat, content: string)
    requires events != [] && ReadAt(configured, initial, events[..|events| - 1], i, content)
    requires !events[|events| - 1].Restart?
    ensures ReadAt(configured, initial, events, i, content)
  {
    assert events[..|events| - 1][..i] == events[..i];
  }

  /** Whatever a read, a room or an init shows at number 0 is the stored document at some read of this process. */
  lemma {:induction false} ZeroContentWasRead(configured: int, initial: string, events: seq<Event>, content: string)
    requires ZeroContent(Run(Start(configured, initial), events), content)
    ensures exists i: nat :: ReadAt(configured, initial, events, i, content)
    decreases |events|
  {
    if events != [] {
      var n := |events| - 1;
      var before := Run(Start(configured, initial), events[..n]);
      StartKeeps(configured, initial);
      RunKeeps(Start(configured, initial), events[..n]);
      if !events[n].Restart? {
        ZeroOrigin(before, events[n], content);
        if ZeroContent(before, content) {
          ZeroContentWasRead(configured, initial, events[..n], content);
          var i: nat :| ReadAt(configured, initial, events[..n], i, content);
          StillReadAt(configured, initial, events, i, content);
        } else {
          StoredIs(configured, initial, events[..n]);
          assert ReadAt(configured, initial, events, n, content);
        }
      }
    }
  }

  /** Without saves beside the room, everything at number 0 shows the initial document, over every run. */
  lemma WithoutSavesZeroIsInitial(configured: int, initial: string, events: seq<Event>, content: string)
    requires forall j :: 0 <= j < |events| ==> !events[j].Resave?
    requires ZeroContent(Run(Start(configured, initial), events), content)
    ensures content == initial
  {
    ZeroContentWasRead(configured, initial, events, content);
    var i: nat :| ReadAt(configured, initial, events, i, content);
    NothingStored(initial, events[..i]);
  }

  lemma {:induction false} NothingStored(initial: string, events: seq<Event>)
    requires forall j :: 0 <= j < |events| ==> !events[j].Resave?
    ensures StoredAfter(initial, events) == initial
    decreases |events|
  {
    if events != [] {
      NothingStored(initial, events[..|events| - 1]);
    }
  }

  /** A content read at event `i` is still the stored document exactly when nothing else was last saved since. */
  lemma StillStoredExactlyWhen(configured: int, initial: string, events: seq<Event>, i: nat, content: string)
    requires ReadAt(configured, initial, events, i, content)
    ensures content == Run(Start(configured, initial), events).store.initial <==> SavedNothingElse(events[i..], content)
  {
    StoredIs(configured, initial, events);
    StoredSince(initial, events, i);
  }

  /**
    The room shows what recovery would show: above number 0, exactly when its number is persisted;
    at number 0, where it shows the document as read at some event, exactly when the document was
    not last saved with anything else since that read.
   */
  lemma RoomIsCacheExactlyWhen(configured: int, initial: string, events: seq<Event>, pick: nat)
    requires var s := Run(Start(configured, initial), events);
             s.proc.rooms != [] && (s.store.snapshots != [] ==> IsLatest(s.store.snapshots, pick))
    ensures var s := Run(Start(configured, initial), events);
            var room := s.proc.rooms[0];
            var isCache := (room.content, room.updateSeq) == CurrentContent(s.store, pick);
            && (room.updateSeq != 0 ==> (isCache <==> room.updateSeq in s.store.updates))
            && (room.updateSeq == 0 ==>
                  && (exists i: nat :: ReadAt(configured, initial, events, i, room.content))
                  && (forall i: nat :: ReadAt(configured, initial, events, i, room.content) ==>
                        (isCache <==> SavedNothingElse(events[i..], room.content))))
  {
    var s := Run(Start(configured, initial), events);
    var room := s.proc.rooms[0];
    NumberedRoomIsCacheExactlyWhen(s, pick);
    if room.updateSeq == 0 {
      assert RoomShows(s, room.content);
      ZeroContentWasRead(configured, initial, events, room.content);
      forall i: nat | ReadAt(configured, initial, events, i, room.content)
        ensures room.content == s.store.initial <==> SavedNothingElse(events[i..], room.content)
      { StillStoredExactlyWhen(configured, initial, events, i, room.content); }
    }
  }

  /**
    currentContent runs its queries with other calls in between. With a log its result is still the
    full replay of the log as the last query sees it. Without one it is the document as read at some
    event, which is the full replay exactly when nothing else was last saved since that read.
   */
  lemma InterruptedReadIsFullReplay(configured: int, initial: string, events: seq<Event>, c: nat)
    requires var s := Run(Start(configured, initial), events);
             c < |s.proc.calls| && s.proc.calls[c].phase.Based?
    ensures var s := Run(Start(configured, initial), events);
            var base, result := s.proc.calls[c].phase, DoReadUpdates(s, c).proc.calls[c].phase;
            var isReplay := result == Loaded(FullReplay(s.store).0, FullReplay(s.store).1);
            && (s.store.updates.Keys != {} ==> isReplay)
            && (s.store.updates.Keys == {} ==>
                  && result == Loaded(base.content, 0)
                  && (exists i: nat :: ReadAt(configured, initial, events, i, base.content))
                  && (forall i: nat :: ReadAt(configured, initial, events, i, base.content) ==>
                        (isReplay <==> SavedNothingElse(events[i..], base.content))))
  {
    var s := Run(Start(configured, initial), events);
    var base := s.proc.calls[c].phase;
    ReadOfBase(s, c);
    if s.store.updates.Keys == {} {
      assert ShowsAtZero(s.proc.calls[c].phase, base.content);
      ZeroContentWasRead(configured, initial, events, base.content);
      forall i: nat | ReadAt(configured, initial, events, i, base.content)
        ensures base.content == s.store.initial <==> SavedNothingElse(events[i..], base.content)
      { StillStoredExactlyWhen(configured, initial, events, i, base.content); }
    }
  }

  lemma ReadOfBase(s: State, c: nat)
    requires Reachable(s) && c < |s.proc.calls| && s.proc.calls[c].phase.Based?
    ensures var base, replayed := s.proc.calls[c].phase, FullReplay(s.store);
            if s.store.updates.Keys == {}
            then base.num == 0 && DoReadUpdates(s, c).proc.calls[c].phase == Loaded(base.content, 0)
                 && replayed == (s.store.initial, 0)
            else DoReadUpdates(s, c).proc.calls[c].phase == Loaded(replayed.0, replayed.1)
  {
    ReachableInv(s);
    ReadUpdatesResult(s, c);
    assert CallInv(s, s.proc.calls[c]);
    ReplayFrom(s.store.updates, s.store.initial, 0);
    var top := Top(s.store.updates.Keys);
    assert s.store.updates.Keys != {} ==> top in s.store.updates;
  }
}
