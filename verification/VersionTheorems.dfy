/** What the version store guarantees at every point of every interleaving of its writers. */
module VersionTheorems {
  import opened Common
  import opened StorageKey
  import opened VersionMachine
  import opened VersionInvariant

  ghost predicate Reachable(s: State) {
    exists events :: s == Run(EMPTY, events)
  }

  lemma ReachableInv(s: State)
    requires Reachable(s)
    ensures Inv(s)
  {
    var events :| s == Run(EMPTY, events);
    RunKeeps(EMPTY, events);
  }

  /**
    Each committed version's key holds exactly the bytes its writer put, of the recorded size; keys are never
    shared.
   */
  lemma NoDanglingVersion(s: State, v: string)
    requires Reachable(s) && v in s.versions
    ensures v in s.madeBy && s.madeBy[v] < |s.writers| && s.writers[s.madeBy[v]].version == v
    ensures var version := s.versions[v];
            && version.key in s.objects
            && s.objects[version.key] == s.writers[s.madeBy[v]].bytes
            && |s.objects[version.key]| == version.size
    ensures forall v' :: v' in s.versions && v' != v ==> s.versions[v'].key != s.versions[v].key
  {
    ReachableInv(s);
    assert VersionInv(s, v);
    forall v' | v' in s.versions && v' != v ensures s.versions[v'].key != s.versions[v].key {
      assert VersionInv(s, v');
      assert WriterInv(s, s.writers[s.madeBy[v]]) && WriterInv(s, s.writers[s.madeBy[v']]);
      WriterKeysDiffer(s, s.writers[s.madeBy[v]], s.writers[s.madeBy[v']]);
    }
  }

  ghost predicate HasNumber(s: State, d: string, k: nat) {
    exists v :: v in s.versions && s.versions[v].document == d && s.versions[v].no == k
  }

  lemma HasNumberIsMember(s: State, d: string, k: nat)
    ensures HasNumber(s, d, k) <==> k in NumbersOf(s.versions, d)
  {
    if k in NumbersOf(s.versions, d) {
      var v :| v in s.versions.Keys && s.versions[v].document == d && s.versions[v].no == k;
      assert HasNumber(s, d, k);
    }
  }

  /** Version numbers are exactly 1..n, each once, and the document row is that of number n. */
  lemma NumbersAreOneToN(s: State, d: string)
    requires Reachable(s) && d in s.documents
    ensures var document, n := s.documents[d], MaxNo(s.versions, d);
            && n >= 1
            && (forall k: nat :: HasNumber(s, d, k) <==> 1 <= k <= n)
            && document.current in s.versions
            && s.versions[document.current] == Version(d, n, document.key, document.size)
    ensures forall v, v' :: v in s.versions && v' in s.versions && v != v' ==>
              s.versions[v].document != s.versions[v'].document || s.versions[v].no != s.versions[v'].no
  {
    ReachableInv(s);
    assert DocumentInv(s, d);
    forall k: nat ensures HasNumber(s, d, k) <==> 1 <= k <= MaxNo(s.versions, d) { HasNumberIsMember(s, d, k); }
  }

  /** Compensation removes the object of a version that was never committed, and of no other. */
  lemma CompensationSparesVersions(s: State, w: nat, works: bool)
    requires Reachable(s) && w < |s.writers| && s.writers[w].phase.Compensating?
    ensures var s' := Apply(s, Compensate(w, works));
            && s.writers[w].version !in s'.versions && s'.versions == s.versions
            && (forall v :: v in s.versions ==>
                  s.versions[v].key in s'.objects && s'.objects[s.versions[v].key] == s.objects[s.versions[v].key])
            && (works ==> s.writers[w].key !in s'.objects)
  {
    ReachableInv(s);
    assert WriterInv(s, s.writers[w]);
    forall v | v in s.versions
      ensures s.versions[v].key in Apply(s, Compensate(w, works)).objects
      ensures Apply(s, Compensate(w, works)).objects[s.versions[v].key] == s.objects[s.versions[v].key]
    { ObjectStays(s, Compensate(w, works), v); }
  }

  /** History is append-only: a version keeps its row and its bytes through every later run. */
  lemma {:induction false} HistoryIsAppendOnly(s: State, events: seq<Event>, v: string)
    requires Inv(s) && v in s.versions
    ensures var s' := Run(s, events);
            && v in s'.versions && s'.versions[v] == s.versions[v]
            && s.versions[v].key in s.objects && s.versions[v].key in s'.objects
            && s'.objects[s.versions[v].key] == s.objects[s.versions[v].key]
            && MaxNo(s.versions, s.versions[v].document) <= MaxNo(s'.versions, s.versions[v].document)
    decreases |events|
  {
    assert VersionInv(s, v);
    if events != [] {
      var before, e := Run(s, events[..|events| - 1]), events[|events| - 1];
      HistoryIsAppendOnly(s, events[..|events| - 1], v);
      RunKeeps(s, events[..|events| - 1]);
      VersionStays(before, e, v);
      ObjectStays(before, e, v);
      MaxNoGrows(before, e, s.versions[v].document);
    }
  }

  /** As long as the document is not deleted, every download of an old version shows the same bytes. */
  lemma OldDownloadsNeverChange(s: State, events: seq<Event>, d: string, v: string)
    requires Reachable(s) && DownloadVersion(s, d, v).Some? && IsActive(Run(s, events), d)
    ensures DownloadVersion(Run(s, events), d, v) == DownloadVersion(s, d, v)
  {
    ReachableInv(s);
    HistoryIsAppendOnly(s, events, v);
  }

  /** The current download is the download of the version with the highest number. */
  lemma DownloadIsLatestVersion(s: State, d: string)
    requires Reachable(s) && IsActive(s, d)
    ensures Download(s, d).Some? && Download(s, d) == DownloadVersion(s, d, s.documents[d].current)
    ensures s.documents[d].current in s.versions
    ensures s.versions[s.documents[d].current].no == MaxNo(s.versions, d)
  {
    ReachableInv(s);
    assert DocumentInv(s, d);
    assert VersionInv(s, s.documents[d].current);
  }

  /**
    A commit that meets no database error succeeds exactly when the document is not deleted and
    nobody committed since the number was read; otherwise it leaves every table as it was.
   */
  lemma CommitSucceedsExactlyWhen(s: State, w: nat)
    requires Reachable(s) && w < |s.writers| && !s.writers[w].kind.Upload? && s.writers[w].phase.NumberRead?
    ensures var s', writer := Apply(s, Commit(w, false)), s.writers[w];
            && w < |s'.writers|
            && (s'.writers[w].phase == Finished(true) <==>
                  IsActive(s, writer.document) && writer.phase.no == MaxNo(s.versions, writer.document) + 1)
            && (s'.writers[w].phase != Finished(true) ==>
                  s'.versions == s.versions && s'.documents == s.documents && s'.objects == s.objects
                  && s'.writers[w].phase == Compensating)
  {
    ReachableInv(s);
    var writer := s.writers[w];
    assert WriterInv(s, writer);
    if IsActive(s, writer.document) {
      NumberIsFreeExactlyWhen(s, w);
    }
    CommitOutcome(s, w);
  }

  lemma CommitOutcome(s: State, w: nat)
    requires w < |s.writers| && !s.writers[w].kind.Upload? && s.writers[w].phase.NumberRead?
    ensures var s', writer := Apply(s, Commit(w, false)), s.writers[w];
            && w < |s'.writers|
            && (s'.writers[w].phase == Finished(true) <==>
                  writer.version !in s.versions && IsActive(s, writer.document)
                  && !NumberTaken(s, writer.document, writer.phase.no))
            && (s'.writers[w].phase != Finished(true) ==> s' == SetPhase(s, w, Compensating))
  {
  }

  lemma NumberIsFreeExactlyWhen(s: State, w: nat)
    requires Inv(s) && w < |s.writers| && !s.writers[w].kind.Upload? && s.writers[w].phase.NumberRead?
    requires IsActive(s, s.writers[w].document)
    ensures !NumberTaken(s, s.writers[w].document, s.writers[w].phase.no) <==>
            s.writers[w].phase.no == MaxNo(s.versions, s.writers[w].document) + 1
  {
    assert WriterInv(s, s.writers[w]);
    assert DocumentInv(s, s.writers[w].document);
  }

  /** After a commit the document's download is what the writer put, under the next number. */
  lemma CommitIsDownloaded(s: State, w: nat)
    requires Reachable(s) && w < |s.writers| && s.writers[w].phase != Finished(true)
    requires Apply(s, Commit(w, false)).writers[w].phase == Finished(true)
    ensures var s', writer := Apply(s, Commit(w, false)), s.writers[w];
            && Download(s', writer.document) == Some(writer.bytes)
            && writer.version in s'.versions
            && s'.versions[writer.version].no == MaxNo(s.versions, writer.document) + 1
            && s'.documents[writer.document].current == writer.version
  {
    ReachableInv(s);
    CommitOkExactlyWhen(s, w);
    CommitDownloads(s, w);
  }

  lemma CommitDownloads(s: State, w: nat)
    requires Inv(s) && CommitOk(s, w)
    ensures var s', writer := DoCommit(s, w, false), s.writers[w];
            && Download(s', writer.document) == Some(writer.bytes)
            && writer.version in s'.versions
            && s'.versions[writer.version].no == MaxNo(s.versions, writer.document) + 1
            && s'.documents[writer.document].current == writer.version
  {
    CommitInsertsNext(s, w);
    CommittedBytes(s, DoCommit(s, w, false), w, s.writers[w].version, MaxNo(s.versions, s.writers[w].document) + 1);
  }

  /** What a commit checks. */
  predicate CommitOk(s: State, w: nat) {
    w < |s.writers| && s.writers[w].version !in s.versions &&
    if s.writers[w].kind.Upload? then s.writers[w].phase.ObjectPut? && s.writers[w].document !in s.documents
    else s.writers[w].phase.NumberRead? && IsActive(s, s.writers[w].document)
         && !NumberTaken(s, s.writers[w].document, s.writers[w].phase.no)
  }

  lemma CommitOkExactlyWhen(s: State, w: nat)
    requires w < |s.writers| && s.writers[w].phase != Finished(true)
    ensures w < |DoCommit(s, w, false).writers|
    ensures DoCommit(s, w, false).writers[w].phase == Finished(true) <==> CommitOk(s, w)
  {
  }

  lemma CommitInsertsNext(s: State, w: nat)
    requires Inv(s) && CommitOk(s, w)
    ensures var s', writer := DoCommit(s, w, false), s.writers[w];
            Commits(s, s', w, writer.version, MaxNo(s.versions, writer.document) + 1) && IsActive(s', writer.document)
  {
    WritersNumberIsNext(s, w);
  }

  lemma CommittedBytes(s: State, s': State, w: nat, v: string, no: nat)
    requires WritersInv(s) && Commits(s, s', w, v, no) && IsActive(s', s.writers[w].document)
    requires s.writers[w].phase.ObjectPut? || s.writers[w].phase.NumberRead?
    ensures Download(s', s.writers[w].document) == Some(s.writers[w].bytes)
    ensures v in s'.versions && s'.versions[v].no == no && s'.documents[s.writers[w].document].current == v
  {
    assert WriterInv(s, s.writers[w]);
  }

  lemma CommitInserts(s: State, w: nat)
    requires w < |s.writers| && s.writers[w].phase != Finished(true)
    requires DoCommit(s, w, false).writers[w].phase == Finished(true)
    ensures s.writers[w].version in DoCommit(s, w, false).versions
    ensures IsActive(DoCommit(s, w, false), s.writers[w].document)
  {
  }

  /** In every state, a committed restore holds the bytes of the version it restored. */
  lemma RestoreCopiesSource(s: State, v: string)
    requires Reachable(s) && v in s.versions
    requires v in s.madeBy && s.madeBy[v] < |s.writers| && s.writers[s.madeBy[v]].kind.Restore?
    ensures var source := s.writers[s.madeBy[v]].kind.source;
            && source in s.versions && s.versions[source].document == s.versions[v].document
            && s.versions[source].key in s.objects && s.versions[v].key in s.objects
            && s.objects[s.versions[v].key] == s.objects[s.versions[source].key]
  {
    ReachableInv(s);
    MadeBySource(s, v);
    NoDanglingVersion(s, v);
  }

  lemma MadeBySource(s: State, v: string)
    requires Inv(s) && v in s.versions
    ensures v in s.madeBy && s.madeBy[v] < |s.writers| && s.writers[s.madeBy[v]].phase == Finished(true)
    ensures SourceInv(s, s.writers[s.madeBy[v]]) && s.writers[s.madeBy[v]].document == s.versions[v].document
  {
    assert VersionInv(s, v);
    FinishedSource(s, s.madeBy[v]);
  }

  lemma FinishedSource(s: State, w: nat)
    requires WritersInv(s) && w < |s.writers|
    ensures SourceInv(s, s.writers[w])
    ensures s.writers[w].phase == Finished(true) <==> s.writers[w].version in s.versions
  {
    assert WriterInv(s, s.writers[w]);
  }

  /** RestoreVersion: the download becomes the restored version's bytes, every old download stays. */
  lemma RestoreThenDownload(s: State, w: nat)
    requires Reachable(s) && w < |s.writers| && s.writers[w].kind.Restore? && s.writers[w].phase != Finished(true)
    requires Apply(s, Commit(w, false)).writers[w].phase == Finished(true)
    ensures var s', writer := Apply(s, Commit(w, false)), s.writers[w];
            && Download(s', writer.document) == DownloadVersion(s', writer.document, writer.kind.source)
            && Download(s', writer.document).Some?
            && forall v :: DownloadVersion(s, writer.document, v).Some? ==>
                 DownloadVersion(s', writer.document, v) == DownloadVersion(s, writer.document, v)
  {
    ReachableInv(s);
    CommitIsDownloaded(s, w);
    StepKeeps(s, Commit(w, false));
    SourceAfterCommit(s, w);
    OldDownloadsKept(s, Commit(w, false), s.writers[w].document);
  }

  lemma OldDownloadsKept(s: State, e: Event, d: string)
    requires Inv(s) && IsActive(Apply(s, e), d)
    ensures forall v :: DownloadVersion(s, d, v).Some? ==>
            DownloadVersion(Apply(s, e), d, v) == DownloadVersion(s, d, v)
  {
    forall v | DownloadVersion(s, d, v).Some? ensures DownloadVersion(Apply(s, e), d, v) == DownloadVersion(s, d, v) {
      OldDownloadKept(s, e, d, v);
    }
  }

  lemma OldDownloadKept(s: State, e: Event, d: string, v: string)
    requires Inv(s) && IsActive(Apply(s, e), d) && DownloadVersion(s, d, v).Some?
    ensures DownloadVersion(Apply(s, e), d, v) == DownloadVersion(s, d, v)
  {
    VersionStays(s, e, v);
    ObjectStays(s, e, v);
    SameBytes(s, Apply(s, e), d, v);
  }

  lemma SameBytes(s: State, s': State, d: string, v: string)
    requires DownloadVersion(s, d, v).Some? && IsActive(s', d)
    requires v in s'.versions && s'.versions[v] == s.versions[v]
    requires s.versions[v].key in s'.objects && s'.objects[s.versions[v].key] == s.objects[s.versions[v].key]
    ensures DownloadVersion(s', d, v) == DownloadVersion(s, d, v)
  {
  }

  lemma SourceAfterCommit(s: State, w: nat)
    requires w < |s.writers| && s.writers[w].kind.Restore? && s.writers[w].phase != Finished(true)
    requires Apply(s, Commit(w, false)).writers[w].phase == Finished(true)
    requires Inv(Apply(s, Commit(w, false)))
    ensures var s', writer := Apply(s, Commit(w, false)), s.writers[w];
            DownloadVersion(s', writer.document, writer.kind.source) == Some(writer.bytes)
  {
    CommitMoves(s, w, false);
    CommitInserts(s, w);
    RestoredBytes(Apply(s, Commit(w, false)), w);
  }

  lemma RestoredBytes(s: State, w: nat)
    requires WritersInv(s) && w < |s.writers| && s.writers[w].kind.Restore? && s.writers[w].phase == Finished(true)
    requires IsActive(s, s.writers[w].document)
    ensures DownloadVersion(s, s.writers[w].document, s.writers[w].kind.source) == Some(s.writers[w].bytes)
  {
    FinishedSource(s, w);
  }

  /** The race is real: two savers that read the same number, of which only the first commits. */
  lemma SecondSaverLosesRace(s: State, w: nat, w': nat)
    requires Reachable(s) && w < |s.writers| && w' < |s.writers| && w != w'
    requires s.writers[w].phase.NumberRead? && s.writers[w'].phase.NumberRead?
    requires !s.writers[w].kind.Upload? && !s.writers[w'].kind.Upload?
    requires s.writers[w].document == s.writers[w'].document && s.writers[w].phase.no == s.writers[w'].phase.no
    requires Apply(s, Commit(w, false)).writers[w].phase == Finished(true)
    ensures var s1 := Apply(s, Commit(w, false));
            && w' < |s1.writers| && s1.writers[w'] == s.writers[w']
            && Apply(s1, Commit(w', false)) == SetPhase(s1, w', Compensating)
  {
    var s1 := Apply(s, Commit(w, false));
    OtherWriterStays(s, Commit(w, false), w');
    CommitMoves(s, w, false);
    CommitInserts(s, w);
    assert s1.versions[s.writers[w].version].no in NumbersOf(s1.versions, s.writers[w].document);
  }
}
