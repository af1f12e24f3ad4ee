/**
  The document, share and office services as they update the tables and the object store in
  place. Each I/O call is a method that takes the machine's step; the services compose them.
 */
module VersionServer {
  import opened Common
  import opened StorageKey
  import opened VersionMachine
  import opened VersionInvariant
  import opened VersionTheorems

  class VersionStore {
    var objects: map<string, Bytes>
    var documents: map<string, Document>
    var versions: map<string, Version>
    ghost var writers: seq<Writer>
    ghost var madeBy: map<string, nat>
    ghost var ids: set<string>

    ghost function Current(): State
      reads this
    {
      State(objects, documents, versions, writers, madeBy, ids)
    }

    constructor ()
      ensures Current() == EMPTY
    {
      objects, documents, versions := map[], map[], map[];
      writers, madeBy, ids := [], map[], {};
    }

    // ---- One I/O call at a time.

    method PutObject(key: string, bytes: Bytes, write: Write, ghost w: nat) returns (ok: bool)
      requires w < |writers| && writers[w].phase.Ready? && writers[w].key == key && writers[w].bytes == bytes
      modifies this`objects, this`writers
      ensures Current() == Apply(old(Current()), Put(w, write))
      ensures ok <==> write.Stored?
    {
      ok := write.Stored?;
      if !write.NotStored? { objects := objects[key := bytes]; }
      writers := writers[w := writers[w].(phase := if ok then ObjectPut else Finished(false))];
    }

    method DeleteObject(key: string, works: bool, ghost w: nat)
      requires w < |writers| && writers[w].phase.Compensating? && writers[w].key == key
      modifies this`objects, this`writers
      ensures Current() == Apply(old(Current()), Compensate(w, works))
    {
      if works { objects := objects - {key}; }
      writers := writers[w := writers[w].(phase := Finished(false))];
    }

    /** The MAX query of AddDocumentVersion. */
    method NextVersionNo(d: string) returns (no: nat)
      ensures no == MaxNo(versions, d) + 1
    {
      var rest := versions.Keys;
      var top := 0;
      while rest != {}
        invariant rest <= versions.Keys
        invariant forall v :: v in versions.Keys - rest && versions[v].document == d ==> versions[v].no <= top
        invariant top == 0 || top in NumbersOf(versions, d)
        decreases rest
      {
        var v :| v in rest;
        if versions[v].document == d && versions[v].no > top { top := versions[v].no; }
        rest := rest - {v};
      }
      assert forall k :: k in NumbersOf(versions, d) ==> k <= top;
      no := top + 1;
    }

    method AddDocumentVersion(d: string, v: string, key: string, size: nat, fails: bool, ghost w: nat)
      returns (ok: bool)
      requires w < |writers| && writers[w].phase.ObjectPut? && !writers[w].kind.Upload?
      requires writers[w].document == d && writers[w].version == v && writers[w].key == key
               && |writers[w].bytes| == size
      modifies this`documents, this`versions, this`writers, this`madeBy
      ensures Current() == Apply(Apply(old(Current()), ReadMax(w)), Commit(w, fails))
      ensures ok <==> !fails && v !in old(versions) && IsActive(old(Current()), d)
      ensures |writers| == |old(writers)|
      ensures writers[w] == old(writers)[w].(phase := if ok then Finished(true) else Compensating)
      ensures if ok then versions == old(versions)[v := Version(d, MaxNo(old(versions), d) + 1, key, size)]
                         && documents == old(documents)[d := old(documents)[d].(current := v, key := key, size := size)]
              else versions == old(versions) && documents == old(documents)
    {
      var no := NextVersionNo(d);
      AddVersionSteps(Current(), w, fails);
      if fails || v in versions || d !in documents || documents[d].deleted {
        ok := false;
        writers := writers[w := writers[w].(phase := Compensating)];
      } else {
        versions := versions[v := Version(d, no, key, size)];
        documents := documents[d := documents[d].(current := v, key := key, size := size)];
        ok := true;
        madeBy := madeBy[v := w];
        writers := writers[w := writers[w].(phase := Finished(true))];
      }
    }

    method CreateWithVersion(document: Document, d: string, v: string, fails: bool, ghost w: nat) returns (ok: bool)
      requires w < |writers| && writers[w].phase.ObjectPut? && writers[w].kind.Upload?
      requires var writer := writers[w];
               && writer.document == d && writer.version == v
               && document == Document(writer.kind.owner, writer.filename, false, v, writer.key, |writer.bytes|)
      modifies this`documents, this`versions, this`writers, this`madeBy
      ensures Current() == Apply(old(Current()), Commit(w, fails))
      ensures ok <==> !fails && d !in old(documents) && v !in old(versions)
      ensures |writers| == |old(writers)|
      ensures writers[w] == old(writers)[w].(phase := if ok then Finished(true) else Compensating)
      ensures if ok then versions == old(versions)[v := Version(d, 1, document.key, document.size)]
                         && documents == old(documents)[d := document]
              else versions == old(versions) && documents == old(documents)
    {
      ok := !fails && d !in documents && v !in versions;
      if ok {
        documents := documents[d := document];
        versions := versions[v := Version(d, 1, document.key, document.size)];
        madeBy := madeBy[v := w];
      }
      writers := writers[w := writers[w].(phase := if ok then Finished(true) else Compensating)];
    }

    method Delete(d: string) returns (ok: bool)
      modifies this`documents
      ensures Current() == Apply(old(Current()), SoftDelete(d))
      ensures ok <==> IsActive(old(Current()), d)
      ensures !IsActive(Current(), d)
      ensures documents == if ok then old(documents)[d := old(documents)[d].(deleted := true)] else old(documents)
    {
      ok := d in documents && !documents[d].deleted;
      if ok { documents := documents[d := documents[d].(deleted := true)]; }
    }

    // ---- The service calls, uninterrupted.

    /** The tail every saving writer shares: put, commit a version, compensate on failure. */
    method PutThenCommit(d: string, v: string, key: string, bytes: Bytes, put: Write, fails: bool, works: bool,
                         ghost w: nat)
      returns (ok: bool)
      requires w < |writers| && writers[w].phase.Ready? && !writers[w].kind.Upload?
      requires writers[w].document == d && writers[w].version == v && writers[w].key == key && writers[w].bytes == bytes
      modifies this
      ensures Current() == Tail(old(Current()), w, put, fails, works, ok)
      ensures ok <==> put.Stored? && !fails && v !in old(versions) && IsActive(old(Current()), d)
      ensures if ok then versions == old(versions)[v := Version(d, MaxNo(old(versions), d) + 1, key, |bytes|)]
                         && documents ==
                            old(documents)[d := old(documents)[d].(current := v, key := key, size := |bytes|)]
                         && objects == old(objects)[key := bytes]
              else versions == old(versions) && documents == old(documents)
      ensures !ok && put.Stored? && works ==> objects == old(objects) - {key}
    {
      ok := PutObject(key, bytes, put, w);
      if ok { ok := CommitOrCompensate(d, v, key, |bytes|, fails, works, w); }
    }

    method CommitOrCompensate(d: string, v: string, key: string, size: nat, fails: bool, works: bool, ghost w: nat)
      returns (ok: bool)
      requires w < |writers| && writers[w].phase.ObjectPut? && !writers[w].kind.Upload?
      requires writers[w].document == d && writers[w].version == v && writers[w].key == key
               && |writers[w].bytes| == size
      modifies this
      ensures Current() == CommitTail(old(Current()), w, fails, works, ok)
      ensures ok <==> !fails && v !in old(versions) && IsActive(old(Current()), d)
      ensures if ok then versions == old(versions)[v := Version(d, MaxNo(old(versions), d) + 1, key, size)]
                         && documents == old(documents)[d := old(documents)[d].(current := v, key := key, size := size)]
                         && objects == old(objects)
              else versions == old(versions) && documents == old(documents)
      ensures !ok && works ==> objects == old(objects) - {key}
    {
      ok := AddDocumentVersion(d, v, key, size, fails, w);
      if !ok { DeleteObject(key, works, w); }
    }

    method SaveSteps(kind: Kind, d: string, bytes: Bytes, v: string, put: Write, fails: bool, works: bool)
      returns (ok: bool)
      requires v !in versions && IsNew(Current(), v) && !kind.Upload? && !kind.Restore?
      modifies this
      ensures Current() == SaveChain(old(Current()), kind, d, bytes, v, put, fails, works, ok)
      ensures ok <==> IsActive(old(Current()), d) && put.Stored? && !fails
      ensures ok ==> Download(Current(), d) == Some(bytes)
                     && v in versions && versions[v].no == MaxNo(old(versions), d) + 1
      ensures !ok ==> versions == old(versions) && documents == old(documents)
    {
      ok := d in documents && !documents[d].deleted;
      if ok {
        ghost var w := |writers|;
        var filename := documents[d].filename;
        var key := WriterKey(kind, d, v, filename);
        writers := writers + [Writer(kind, d, filename, v, key, bytes, Ready)];
        ids := ids + {v};
        ok := PutThenCommit(d, v, key, bytes, put, fails, works, w);
      }
    }

    /** SaveMarkdown of the document service and of the share service, and the office Save. */
    method Save(kind: Kind, d: string, bytes: Bytes, v: string, put: Write, fails: bool, works: bool) returns (ok: bool)
      requires Inv(Current()) && IsNew(Current(), v) && !kind.Upload? && !kind.Restore?
      modifies this
      ensures Inv(Current())
      ensures Current() == Run(old(Current()), SaveSchedule(old(Current()), kind, d, bytes, v, put, fails, works, ok))
      ensures ok <==> IsActive(old(Current()), d) && put.Stored? && !fails
      ensures ok ==> Download(Current(), d) == Some(bytes)
                     && v in versions && versions[v].no == MaxNo(old(versions), d) + 1
      ensures !ok ==> versions == old(versions) && documents == old(documents)
    {
      ghost var s0 := Current();
      DrawnBefore(s0);
      ok := SaveSteps(kind, d, bytes, v, put, fails, works);
      SaveRuns(s0, kind, d, bytes, v, put, fails, works, ok);
    }

    method RestoreSteps(d: string, source: string, v: string, put: Write, fails: bool, works: bool) returns (ok: bool)
      requires v !in versions && IsNew(Current(), v)
      requires source in versions ==> versions[source].key in objects
      modifies this
      ensures Current() == RestoreChain(old(Current()), d, source, v, put, fails, works, ok)
      ensures ok <==> DownloadVersion(old(Current()), d, source).Some? && put.Stored? && !fails
      ensures ok ==> Download(Current(), d) == DownloadVersion(old(Current()), d, source)
                     && v in versions && versions[v].no == MaxNo(old(versions), d) + 1
      ensures !ok ==> versions == old(versions) && documents == old(documents)
    {
      ok := d in documents && !documents[d].deleted;
      if !ok { return; }
      ghost var w := |writers|;
      var filename := documents[d].filename;
      var key := ServiceKey(d, v, filename);
      ids := ids + {v};
      ok := source in versions && versions[source].document == d;
      if !ok {
        writers := writers + [Writer(Restore(source), d, filename, v, key, [], Finished(false))];
        return;
      }
      var bytes := objects[versions[source].key];
      writers := writers + [Writer(Restore(source), d, filename, v, key, bytes, Ready)];
      LookUpChain(old(Current()), d, source, v);
      ok := PutThenCommit(d, v, key, bytes, put, fails, works, w);
    }

    method RestoreRun(d: string, source: string, v: string, put: Write, fails: bool, works: bool) returns (ok: bool)
      requires v !in versions && IsNew(Current(), v)
      requires source in versions ==> versions[source].key in objects
      modifies this
      ensures Current() == Run(old(Current()), RestoreSchedule(old(Current()), d, source, v, put, fails, works, ok))
      ensures ok <==> DownloadVersion(old(Current()), d, source).Some? && put.Stored? && !fails
      ensures ok ==> Download(Current(), d) == DownloadVersion(old(Current()), d, source)
                     && v in versions && versions[v].no == MaxNo(old(versions), d) + 1
      ensures !ok ==> versions == old(versions) && documents == old(documents)
    {
      ghost var s0 := Current();
      ok := RestoreSteps(d, source, v, put, fails, works);
      LookUpRuns(s0, d, source, v, put, fails, works, ok);
    }

    method RestoreVersion(d: string, source: string, v: string, put: Write, fails: bool, works: bool) returns (ok: bool)
      requires Inv(Current()) && IsNew(Current(), v)
      modifies this
      ensures Inv(Current())
      ensures Current() == Run(old(Current()), RestoreSchedule(old(Current()), d, source, v, put, fails, works, ok))
      ensures ok <==> DownloadVersion(old(Current()), d, source).Some? && put.Stored? && !fails
      ensures ok ==> Download(Current(), d) == DownloadVersion(old(Current()), d, source)
                     && v in versions && versions[v].no == MaxNo(old(versions), d) + 1
      ensures SameDownloads(old(Current()), Current(), d)
      ensures !ok ==> versions == old(versions) && documents == old(documents)
    {
      ghost var s0 := Current();
      RestoreReady(s0, source, v);
      ok := RestoreRun(d, source, v, put, fails, works);
      KeptByRun(s0, RestoreSchedule(s0, d, source, v, put, fails, works, ok), Current(), d);
    }

    method UploadSteps(owner: string, filename: string, bytes: Bytes, d: string, v: string,
                       put: Write, fails: bool, works: bool)
      returns (ok: bool)
      requires v !in versions && d !in documents && IsNew(Current(), d) && IsNew(Current(), v) && d != v
      modifies this
      ensures Current() == UploadChain(old(Current()), owner, filename, bytes, d, v, put, fails, works, ok)
      ensures ok <==> owner != "" && bytes != [] && put.Stored? && !fails
      ensures ok ==> Download(Current(), d) == Some(bytes)
                     && d in documents && documents[d].owner == owner && documents[d].filename == Base(filename)
                     && versions == old(versions)[v := Version(d, 1, ServiceKey(d, v, filename), |bytes|)]
      ensures !ok ==> versions == old(versions) && documents == old(documents)
    {
      ok := owner != "" && bytes != [];
      if !ok { return; }
      ghost var w := |writers|;
      var key := ServiceKey(d, v, filename);
      writers := writers + [Writer(VersionMachine.Upload(owner), d, Base(filename), v, key, bytes, Ready)];
      ids := ids + {d, v};
      ok := PutObject(key, bytes, put, w);
      if !ok { return; }
      ok := CreateWithVersion(Document(owner, Base(filename), false, v, key, |bytes|), d, v, fails, w);
      if !ok { DeleteObject(key, works, w); }
    }

    method Upload(owner: string, filename: string, bytes: Bytes, d: string, v: string, put: Write, fails: bool,
                  works: bool)
      returns (ok: bool)
      requires Inv(Current()) && IsNew(Current(), d) && IsNew(Current(), v) && d != v
      modifies this
      ensures Inv(Current())
      ensures Current() == Run(old(Current()), UploadSchedule(old(Current()), owner, filename, bytes, d, v,
                                                              put, fails, works, ok))
      ensures ok <==> owner != "" && bytes != [] && put.Stored? && !fails
      ensures ok ==> Download(Current(), d) == Some(bytes)
                     && d in documents && documents[d].owner == owner && documents[d].filename == Base(filename)
                     && versions == old(versions)[v := Version(d, 1, ServiceKey(d, v, filename), |bytes|)]
      ensures !ok ==> versions == old(versions) && documents == old(documents)
    {
      ghost var s0 := Current();
      DrawnBefore(s0);
      ok := UploadSteps(owner, filename, bytes, d, v, put, fails, works);
      UploadRuns(s0, owner, filename, bytes, d, v, put, fails, works, ok);
    }
  }

  // ---- Schedules.

  function TailSchedule(w: nat, put: Write, fails: bool, works: bool, ok: bool): seq<Event> {
    if !put.Stored? then [Put(w, put)]
    else if ok then [Put(w, put), ReadMax(w), Commit(w, fails)]
    else [Put(w, put), ReadMax(w), Commit(w, fails), Compensate(w, works)]
  }

  /** The same tail as a chain of steps. */
  ghost function Tail(s: State, w: nat, put: Write, fails: bool, works: bool, ok: bool): State {
    var s1 := Apply(s, Put(w, put));
    if !put.Stored? then s1 else CommitTail(s1, w, fails, works, ok)
  }

  ghost function CommitTail(s: State, w: nat, fails: bool, works: bool, ok: bool): State {
    var committed := Apply(Apply(s, ReadMax(w)), Commit(w, fails));
    if ok then committed else Apply(committed, Compensate(w, works))
  }

  /** The two halves of AddDocumentVersion together. */
  lemma AddVersionSteps(s: State, w: nat, fails: bool)
    requires w < |s.writers| && s.writers[w].phase.ObjectPut? && !s.writers[w].kind.Upload?
    ensures var writer := s.writers[w];
            Apply(Apply(s, ReadMax(w)), Commit(w, fails)) ==
            if fails || writer.version in s.versions || !IsActive(s, writer.document) then SetPhase(s, w, Compensating)
            else
              var size := |writer.bytes|;
              var document := s.documents[writer.document].(current := writer.version, key := writer.key, size := size);
              var no := MaxNo(s.versions, writer.document) + 1;
              SetPhase(s.(documents := s.documents[writer.document := document],
                          versions := s.versions[writer.version := Version(writer.document, no, writer.key, size)],
                          madeBy := s.madeBy[writer.version := w]), w, Finished(true))
  {
    assert MaxNo(s.versions, s.writers[w].document) + 1 !in NumbersOf(s.versions, s.writers[w].document);
  }

  lemma RunThree(s: State, e1: Event, e2: Event, e3: Event)
    ensures Run(s, [e1, e2]) == Apply(Apply(s, e1), e2)
    ensures Run(s, [e1, e2, e3]) == Apply(Apply(Apply(s, e1), e2), e3)
  {
    RunSnoc(s, [], e1);
    RunSnoc(s, [e1], e2);
    RunSnoc(s, [e1, e2], e3);
    assert [] + [e1] == [e1] && [e1] + [e2] == [e1, e2] && [e1, e2] + [e3] == [e1, e2, e3];
  }

  lemma RunFour(s: State, e1: Event, e2: Event, e3: Event, e4: Event)
    ensures Run(s, [e1]) == Apply(s, e1)
    ensures Run(s, [e1, e2, e3]) == Apply(Apply(Apply(s, e1), e2), e3)
    ensures Run(s, [e1, e2, e3, e4]) == Apply(Apply(Apply(Apply(s, e1), e2), e3), e4)
  {
    RunSnoc(s, [], e1);
    RunSnoc(s, [e1], e2);
    RunSnoc(s, [e1, e2], e3);
    RunSnoc(s, [e1, e2, e3], e4);
    assert [] + [e1] == [e1] && [e1] + [e2] == [e1, e2];
    assert [e1, e2] + [e3] == [e1, e2, e3] && [e1, e2, e3] + [e4] == [e1, e2, e3, e4];
  }

  lemma TailRuns(s: State, w: nat, put: Write, fails: bool, works: bool, ok: bool)
    ensures Run(s, TailSchedule(w, put, fails, works, ok)) == Tail(s, w, put, fails, works, ok)
  {
    RunFour(s, Put(w, put), ReadMax(w), Commit(w, fails), Compensate(w, works));
  }

  lemma {:induction false} RunConcat(s: State, first: seq<Event>, rest: seq<Event>)
    ensures Run(s, first + rest) == Run(Run(s, first), rest)
    decreases |rest|
  {
    if rest == [] {
      assert first + rest == first;
    } else {
      var n := |rest| - 1;
      assert first + rest == first + rest[..n] + [rest[n]];
      RunSnoc(s, first + rest[..n], rest[n]);
      RunConcat(s, first, rest[..n]);
    }
  }

  ghost function SaveSchedule(s: State, kind: Kind, d: string, bytes: Bytes, v: string,
                              put: Write, fails: bool, works: bool, ok: bool): seq<Event> {
    if IsActive(s, d) then [BeginSave(kind, d, bytes, v)] + TailSchedule(|s.writers|, put, fails, works, ok) else []
  }

  ghost function SaveChain(s: State, kind: Kind, d: string, bytes: Bytes, v: string,
                           put: Write, fails: bool, works: bool, ok: bool): State {
    if IsActive(s, d) then Tail(Apply(s, BeginSave(kind, d, bytes, v)), |s.writers|, put, fails, works, ok) else s
  }

  lemma SaveRuns(s: State, kind: Kind, d: string, bytes: Bytes, v: string, put: Write, fails: bool, works: bool,
                 ok: bool)
    requires Inv(s)
    ensures Run(s, SaveSchedule(s, kind, d, bytes, v, put, fails, works, ok)) ==
            SaveChain(s, kind, d, bytes, v, put, fails, works, ok)
    ensures Inv(SaveChain(s, kind, d, bytes, v, put, fails, works, ok))
  {
    var e, w := BeginSave(kind, d, bytes, v), |s.writers|;
    RunFour(s, e, e, e, e);
    RunConcat(s, [e], TailSchedule(w, put, fails, works, ok));
    TailRuns(Apply(s, e), w, put, fails, works, ok);
    RunKeeps(s, SaveSchedule(s, kind, d, bytes, v, put, fails, works, ok));
  }

  /** Whether FindVersion will find the version to restore. */
  predicate SourceFits(s: State, d: string, source: string) {
    source in s.versions && s.versions[source].document == d
  }

  ghost function RestoreSchedule(s: State, d: string, source: string, v: string,
                                 put: Write, fails: bool, works: bool, ok: bool): seq<Event> {
    var w := |s.writers|;
    if !IsActive(s, d) then []
    else if !SourceFits(s, d, source) then [BeginRestore(d, source, v), FindSource(w)]
    else [BeginRestore(d, source, v), FindSource(w), ReadSource(w)] + TailSchedule(w, put, fails, works, ok)
  }

  ghost function RestoreChain(s: State, d: string, source: string, v: string,
                              put: Write, fails: bool, works: bool, ok: bool): State {
    var w := |s.writers|;
    if !IsActive(s, d) then s
    else
      var found := Apply(Apply(s, BeginRestore(d, source, v)), FindSource(w));
      if !SourceFits(s, d, source) then found
      else Tail(Apply(found, ReadSource(w)), w, put, fails, works, ok)
  }

  /** The two look-ups of RestoreVersion when the source is there. */
  lemma LookUpChain(s: State, d: string, source: string, v: string)
    requires IsActive(s, d) && IsNew(s, v) && SourceFits(s, d, source) && s.versions[source].key in s.objects
    ensures var w, filename := |s.writers|, s.documents[d].filename;
            Apply(Apply(Apply(s, BeginRestore(d, source, v)), FindSource(w)), ReadSource(w)) ==
            s.(ids := s.ids + {v},
               writers := s.writers + [Writer(Restore(source), d, filename, v, ServiceKey(d, v, filename),
                                              s.objects[s.versions[source].key], Ready)])
  {
  }

  lemma LookUpRuns(s: State, d: string, source: string, v: string, put: Write, fails: bool, works: bool, ok: bool)
    ensures Run(s, RestoreSchedule(s, d, source, v, put, fails, works, ok)) ==
            RestoreChain(s, d, source, v, put, fails, works, ok)
  {
    var w := |s.writers|;
    var e1, e2, e3 := BeginRestore(d, source, v), FindSource(w), ReadSource(w);
    var tail := TailSchedule(w, put, fails, works, ok);
    RunThree(s, e1, e2, e3);
    RunConcat(s, [e1, e2, e3], tail);
    TailRuns(Apply(Apply(Apply(s, e1), e2), e3), w, put, fails, works, ok);
  }

  ghost function UploadSchedule(s: State, owner: string, filename: string, bytes: Bytes, d: string, v: string,
                                put: Write, fails: bool, works: bool, ok: bool): seq<Event> {
    var w, e := |s.writers|, BeginUpload(owner, filename, bytes, d, v);
    if owner == "" || bytes == [] then []
    else if !put.Stored? then [e, Put(w, put)]
    else if ok then [e, Put(w, put), Commit(w, fails)]
    else [e, Put(w, put), Commit(w, fails), Compensate(w, works)]
  }

  ghost function UploadChain(s: State, owner: string, filename: string, bytes: Bytes, d: string, v: string,
                             put: Write, fails: bool, works: bool, ok: bool): State {
    var w := |s.writers|;
    if owner == "" || bytes == [] then s
    else
      var stored := Apply(Apply(s, BeginUpload(owner, filename, bytes, d, v)), Put(w, put));
      if !put.Stored? then stored
      else
        var tried := Apply(stored, Commit(w, fails));
        if ok then tried else Apply(tried, Compensate(w, works))
  }

  lemma UploadRuns(s: State, owner: string, filename: string, bytes: Bytes, d: string, v: string,
                   put: Write, fails: bool, works: bool, ok: bool)
    requires Inv(s)
    ensures Run(s, UploadSchedule(s, owner, filename, bytes, d, v, put, fails, works, ok)) ==
            UploadChain(s, owner, filename, bytes, d, v, put, fails, works, ok)
    ensures Inv(UploadChain(s, owner, filename, bytes, d, v, put, fails, works, ok))
  {
    var w := |s.writers|;
    var e1, e2 := BeginUpload(owner, filename, bytes, d, v), Put(w, put);
    var e3, e4 := Commit(w, fails), Compensate(w, works);
    RunFour(s, e1, e2, e3, e4);
    RunSnoc(s, [e1], e2);
    assert [e1] + [e2] == [e1, e2];
    RunKeeps(s, UploadSchedule(s, owner, filename, bytes, d, v, put, fails, works, ok));
  }

  lemma RestoreReady(s: State, source: string, v: string)
    requires Inv(s) && IsNew(s, v)
    ensures v !in s.versions
    ensures source in s.versions ==> s.versions[source].key in s.objects
  {
    DrawnBefore(s);
    if source in s.versions { SourceIsThere(s, source); }
  }

  lemma KeptByRun(s: State, events: seq<Event>, s': State, d: string)
    requires Inv(s) && s' == Run(s, events)
    ensures Inv(s') && SameDownloads(s, s', d)
  {
    RunKeeps(s, events);
    OldDownloadsStay(s, events, d);
  }

  lemma SourceIsThere(s: State, v: string)
    requires Inv(s) && v in s.versions
    ensures s.versions[v].key in s.objects
  {
    assert VersionInv(s, v);
  }

  /** Versions that could be downloaded before show the same bytes after, as long as the document is there. */
  ghost predicate SameDownloads(s: State, s': State, d: string) {
    forall u :: u in s.versions && IsActive(s, d) && IsActive(s', d) ==>
      DownloadVersion(s', d, u) == DownloadVersion(s, d, u)
  }

  lemma OldDownloadsStay(s: State, events: seq<Event>, d: string)
    requires Inv(s)
    ensures SameDownloads(s, Run(s, events), d)
  {
    forall u | u in s.versions && IsActive(s, d) && IsActive(Run(s, events), d)
      ensures DownloadVersion(Run(s, events), d, u) == DownloadVersion(s, d, u)
    { SameDownload(s, events, d, u); }
  }

  lemma SameDownload(s: State, events: seq<Event>, d: string, u: string)
    requires Inv(s) && u in s.versions && IsActive(s, d) && IsActive(Run(s, events), d)
    ensures DownloadVersion(Run(s, events), d, u) == DownloadVersion(s, d, u)
  {
    HistoryIsAppendOnly(s, events, u);
  }
}
