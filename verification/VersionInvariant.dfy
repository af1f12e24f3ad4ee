/** What every step of the version store keeps. */
module VersionInvariant {
  import opened Common
  import opened StorageKey
  import opened VersionMachine

  ghost predicate HasKeyShape(key: string, d: string, v: string) {
    exists name :: key == KeyOf(d, v, name)
  }

  /** A restoring writer's source stays what it looked up, down to the bytes. */
  ghost predicate SourceInv(s: State, writer: Writer) {
    writer.kind.Restore? && !writer.phase.LookUpSource? && writer.phase != Finished(false) ==>
      var source := writer.kind.source;
      && source in s.versions && s.versions[source].document == writer.document
      && (writer.phase.SourceFound? ==> writer.phase.key == s.versions[source].key)
      && (!writer.phase.SourceFound? && !writer.phase.Compensating? ==>
            s.versions[source].key in s.objects && writer.bytes == s.objects[s.versions[source].key])
  }

  ghost predicate WriterInv(s: State, writer: Writer) {
    && IsSlashFree(writer.document) && IsSlashFree(writer.version)
    && writer.document in s.ids && writer.version in s.ids
    && HasKeyShape(writer.key, writer.document, writer.version)
    && (!writer.kind.Upload? ==> writer.document in s.documents)
    && (writer.phase == Finished(true) <==> writer.version in s.versions)
    && (writer.phase.ObjectPut? || writer.phase.NumberRead? ==>
          writer.key in s.objects && s.objects[writer.key] == writer.bytes)
    && (writer.phase.NumberRead? ==> 1 <= writer.phase.no <= MaxNo(s.versions, writer.document) + 1)
    && SourceInv(s, writer)
  }

  ghost predicate WritersInv(s: State) {
    && (forall w :: 0 <= w < |s.writers| ==> WriterInv(s, s.writers[w]))
    && (forall w, w' :: 0 <= w < w' < |s.writers| ==> s.writers[w].version != s.writers[w'].version)
  }

  /** A committed version: made by one writer, and its object holds that writer's bytes. */
  ghost predicate VersionInv(s: State, v: string)
    requires v in s.versions
  {
    && v in s.madeBy && s.madeBy[v] < |s.writers|
    && var version, writer := s.versions[v], s.writers[s.madeBy[v]];
       && writer.version == v && writer.document == version.document && writer.key == version.key
       && version.key in s.objects && s.objects[version.key] == writer.bytes && version.size == |writer.bytes|
       && version.document in s.documents
  }

  ghost predicate VersionsInv(s: State) {
    forall v :: v in s.versions ==> VersionInv(s, v)
  }

  /** Numbers 1..n, and the document row describes number n. */
  ghost predicate DocumentInv(s: State, d: string)
    requires d in s.documents
  {
    var document, n := s.documents[d], MaxNo(s.versions, d);
    && n >= 1
    && (forall k: nat :: k in NumbersOf(s.versions, d) <==> 1 <= k <= n)
    && document.current in s.versions
    && s.versions[document.current] == Version(d, n, document.key, document.size)
  }

  ghost predicate DocumentsInv(s: State) {
    && (forall d :: d in s.documents ==> DocumentInv(s, d))
    && (forall v, v' :: v in s.versions && v' in s.versions && v != v' ==>
          s.versions[v].document != s.versions[v'].document || s.versions[v].no != s.versions[v'].no)
  }

  ghost predicate Inv(s: State) {
    WritersInv(s) && VersionsInv(s) && DocumentsInv(s)
  }

  // ---- Keys of different versions are different.

  lemma WriterKeysDiffer(s: State, writer: Writer, other: Writer)
    requires WriterInv(s, writer) && WriterInv(s, other) && writer.version != other.version
    ensures writer.key != other.key
  {
    var name :| writer.key == KeyOf(writer.document, writer.version, name);
    var name' :| other.key == KeyOf(other.document, other.version, name');
    if writer.key == other.key {
      KeysAreInjective(writer.document, writer.version, name, other.document, other.version, name');
    }
  }

  /** A writer that has not committed owns a key no committed version uses. */
  lemma UncommittedKeyIsFree(s: State, w: nat, v: string)
    requires Inv(s) && w < |s.writers| && s.writers[w].phase != Finished(true) && v in s.versions
    ensures s.writers[w].key != s.versions[v].key
  {
    assert VersionInv(s, v) && WriterInv(s, s.writers[w]) && WriterInv(s, s.writers[s.madeBy[v]]);
    WriterKeysDiffer(s, s.writers[w], s.writers[s.madeBy[v]]);
  }

  // ---- What an event leaves alone.

  predicate SameWriter(writer: Writer, writer': Writer) {
    && writer'.kind == writer.kind && writer'.document == writer.document
    && writer'.version == writer.version && writer'.key == writer.key
    && (!writer.phase.SourceFound? ==> writer'.bytes == writer.bytes)
    && (writer.phase.Finished? ==> writer' == writer)
  }

  function TouchedWriter(e: Event): Option<nat> {
    match e
    case FindSource(w) => Some(w)
    case ReadSource(w) => Some(w)
    case Put(w, _) => Some(w)
    case ReadMax(w) => Some(w)
    case Commit(w, _) => Some(w)
    case Compensate(w, _) => Some(w)
    case _ => None
  }

  /** Nothing recorded is ever forgotten, and only the touched writer moves; it finishes by a commit only. */
  ghost predicate Moves(s: State, s': State, touched: Option<nat>) {
    && |s.writers| <= |s'.writers| && s.ids <= s'.ids && s.documents.Keys <= s'.documents.Keys
    && (forall v :: v in s.versions ==> v in s'.versions && s'.versions[v] == s.versions[v])
    && (forall v :: v in s.versions && v in s.madeBy ==> v in s'.madeBy && s'.madeBy[v] == s.madeBy[v])
    && (forall w :: 0 <= w < |s.writers| && touched != Some(w) ==> s'.writers[w] == s.writers[w])
    && (touched.Some? ==> |s'.writers| == |s.writers|)
    && (touched.Some? && touched.value < |s.writers| ==>
          && SameWriter(s.writers[touched.value], s'.writers[touched.value])
          && (s'.writers[touched.value].phase == Finished(true) ==>
                s.writers[touched.value].phase == Finished(true) || s.writers[touched.value].version in s'.versions))
  }

  lemma BeginUploadMoves(s: State, owner: string, filename: string, bytes: Bytes, d: string, v: string)
    ensures Moves(s, DoBeginUpload(s, owner, filename, bytes, d, v), None)
  {
  }

  lemma BeginSaveMoves(s: State, kind: Kind, d: string, bytes: Bytes, v: string)
    ensures Moves(s, DoBeginSave(s, kind, d, bytes, v), None)
  {
  }

  lemma BeginRestoreMoves(s: State, d: string, source: string, v: string)
    ensures Moves(s, DoBeginRestore(s, d, source, v), None)
  {
  }

  lemma FindSourceMoves(s: State, w: nat)
    ensures Moves(s, DoFindSource(s, w), Some(w))
  {
  }

  lemma ReadSourceMoves(s: State, w: nat)
    ensures Moves(s, DoReadSource(s, w), Some(w))
  {
  }

  lemma PutMoves(s: State, w: nat, write: Write)
    ensures Moves(s, DoPut(s, w, write), Some(w))
  {
  }

  lemma ReadMaxMoves(s: State, w: nat)
    ensures Moves(s, DoReadMax(s, w), Some(w))
  {
  }

  lemma CommitUploadMoves(s: State, w: nat, fails: bool)
    requires w < |s.writers| && s.writers[w].kind.Upload? && s.writers[w].phase.ObjectPut?
    ensures Moves(s, DoCommitUpload(s, w, fails), Some(w))
  {
  }

  lemma CommitVersionMoves(s: State, w: nat, fails: bool)
    requires w < |s.writers| && s.writers[w].phase.NumberRead?
    ensures Moves(s, DoCommitVersion(s, w, fails), Some(w))
  {
  }

  lemma CommitMovesWriter(s: State, w: nat, fails: bool)
    ensures Moves(s, DoCommit(s, w, fails), Some(w))
  {
    if w < |s.writers| && s.writers[w].kind.Upload? && s.writers[w].phase.ObjectPut? {
      CommitUploadMoves(s, w, fails);
    } else if w < |s.writers| && s.writers[w].phase.NumberRead? {
      CommitVersionMoves(s, w, fails);
    }
  }

  lemma CompensateMoves(s: State, w: nat, works: bool)
    ensures Moves(s, DoCompensate(s, w, works), Some(w))
  {
  }

  lemma SoftDeleteMoves(s: State, d: string)
    ensures Moves(s, DoSoftDelete(s, d), None)
  {
  }

  lemma EventMoves(s: State, e: Event)
    ensures Moves(s, Apply(s, e), TouchedWriter(e))
  {
    match e
    case BeginUpload(owner, filename, bytes, d, v) => BeginUploadMoves(s, owner, filename, bytes, d, v);
    case BeginSave(kind, d, bytes, v) => BeginSaveMoves(s, kind, d, bytes, v);
    case BeginRestore(d, source, v) => BeginRestoreMoves(s, d, source, v);
    case FindSource(w) => FindSourceMoves(s, w);
    case ReadSource(w) => ReadSourceMoves(s, w);
    case Put(w, write) => PutMoves(s, w, write);
    case ReadMax(w) => ReadMaxMoves(s, w);
    case Commit(w, fails) => CommitMovesWriter(s, w, fails);
    case Compensate(w, works) => CompensateMoves(s, w, works);
    case SoftDelete(d) => SoftDeleteMoves(s, d);
  }

  lemma OtherWriterStays(s: State, e: Event, w: nat)
    requires w < |s.writers| && TouchedWriter(e) != Some(w)
    ensures w < |Apply(s, e).writers| && Apply(s, e).writers[w] == s.writers[w]
  {
    EventMoves(s, e);
  }

  lemma CommitMoves(s: State, w: nat, fails: bool)
    requires w < |s.writers|
    ensures var s' := DoCommit(s, w, fails);
            && |s'.writers| == |s.writers|
            && (s'.writers[w] == s.writers[w]
                || (!s.writers[w].phase.Finished? &&
                    (s'.writers[w] == s.writers[w].(phase := Compensating)
                     || s'.writers[w] == s.writers[w].(phase := Finished(true)))))
  {
  }

  lemma WriterGrows(s: State, e: Event, w: nat)
    requires w < |s.writers|
    ensures w < |Apply(s, e).writers| && SameWriter(s.writers[w], Apply(s, e).writers[w])
  {
    EventMoves(s, e);
    if TouchedWriter(e) != Some(w) { OtherWriterStays(s, e, w); }
  }

  lemma IdsGrow(s: State, e: Event)
    ensures s.ids <= Apply(s, e).ids
    ensures s.documents.Keys <= Apply(s, e).documents.Keys
  {
    EventMoves(s, e);
  }

  lemma VersionStays(s: State, e: Event, v: string)
    requires v in s.versions
    ensures v in Apply(s, e).versions && Apply(s, e).versions[v] == s.versions[v]
  {
    EventMoves(s, e);
  }

  // ---- What a commit writes, and which objects change.

  /** Row `v` was inserted for writer `w`, which had not committed, and the document points to it. */
  ghost predicate Commits(s: State, s': State, w: nat, v: string, no: nat) {
    && w < |s.writers| && v !in s.versions && v in s'.versions && s.writers[w].version == v
    && var writer := s.writers[w];
       && s'.versions == s.versions[v := Version(writer.document, no, writer.key, |writer.bytes|)]
       && s'.objects == s.objects && s'.madeBy == s.madeBy[v := w]
       && |s'.writers| == |s.writers| && s'.writers[w] == writer.(phase := Finished(true))
       && writer.document in s'.documents
       && s'.documents[writer.document].current == v
       && s'.documents[writer.document].key == writer.key
       && s'.documents[writer.document].size == |writer.bytes|
       && s'.documents == s.documents[writer.document := s'.documents[writer.document]]
  }

  /** The rows are as before, but for a document that may now be marked as deleted. */
  ghost predicate KeepsRows(s: State, s': State) {
    && s'.versions == s.versions
    && forall d :: d in s'.documents ==>
         d in s.documents && s'.documents[d].(deleted := false) == s.documents[d].(deleted := false)
  }

  ghost predicate CommitsOrKeeps(s: State, s': State, w: nat, no: nat) {
    KeepsRows(s, s') || (w < |s.writers| && Commits(s, s', w, s.writers[w].version, no))
  }

  lemma CommitUploadCommits(s: State, w: nat, fails: bool)
    requires w < |s.writers| && s.writers[w].kind.Upload?
    ensures CommitsOrKeeps(s, DoCommitUpload(s, w, fails), w, 1)
    ensures DoCommitUpload(s, w, fails).versions != s.versions ==> s.writers[w].document !in s.documents
  {
  }

  lemma CommitVersionCommits(s: State, w: nat, fails: bool)
    requires w < |s.writers| && s.writers[w].phase.NumberRead?
    ensures CommitsOrKeeps(s, DoCommitVersion(s, w, fails), w, s.writers[w].phase.no)
    ensures DoCommitVersion(s, w, fails).versions != s.versions ==>
              IsActive(s, s.writers[w].document) && !NumberTaken(s, s.writers[w].document, s.writers[w].phase.no)
  {
  }

  lemma StepKeepsRows(s: State, w: nat)
    ensures KeepsRows(s, DoFindSource(s, w)) && KeepsRows(s, DoReadSource(s, w)) && KeepsRows(s, DoReadMax(s, w))
  {
  }

  lemma ObjectStepKeepsRows(s: State, w: nat, write: Write, works: bool)
    ensures KeepsRows(s, DoPut(s, w, write)) && KeepsRows(s, DoCompensate(s, w, works))
  {
  }

  lemma OthersKeepRows(s: State, e: Event)
    requires !e.Commit?
    ensures KeepsRows(s, Apply(s, e))
  {
    match e
    case BeginUpload(_, _, _, _, _) =>
    case BeginSave(_, _, _, _) =>
    case BeginRestore(_, _, _) =>
    case FindSource(w) => StepKeepsRows(s, w);
    case ReadSource(w) => StepKeepsRows(s, w);
    case ReadMax(w) => StepKeepsRows(s, w);
    case Put(w, write) => ObjectStepKeepsRows(s, w, write, true);
    case Compensate(w, works) => ObjectStepKeepsRows(s, w, Stored, works);
    case SoftDelete(_) =>
  }

  /** The number a commit of this writer would insert. */
  function OwnNumber(writer: Writer): nat {
    if writer.kind.Upload? then 1 else if writer.phase.NumberRead? then writer.phase.no else 0
  }

  /** A version appears only by the commit of the writer that drew its id. */
  lemma NewVersion(s: State, e: Event, v: string)
    requires v !in s.versions && v in Apply(s, e).versions
    ensures e.Commit? && e.writer < |s.writers| && s.writers[e.writer].version == v
    ensures s.writers[e.writer].phase.ObjectPut? || s.writers[e.writer].phase.NumberRead?
    ensures Commits(s, Apply(s, e), e.writer, v, OwnNumber(s.writers[e.writer]))
    ensures var writer := s.writers[e.writer];
            if writer.kind.Upload? then writer.document !in s.documents
            else writer.phase.NumberRead? && IsActive(s, writer.document)
                 && !NumberTaken(s, writer.document, writer.phase.no)
  {
    if !e.Commit? {
      OthersKeepRows(s, e);
    } else {
      CommittedRow(s, e.writer, e.fails);
    }
  }

  lemma CommittedRow(s: State, w: nat, fails: bool)
    requires DoCommit(s, w, fails).versions != s.versions
    ensures w < |s.writers| && (s.writers[w].phase.ObjectPut? || s.writers[w].phase.NumberRead?)
    ensures Commits(s, DoCommit(s, w, fails), w, s.writers[w].version, OwnNumber(s.writers[w]))
    ensures var writer := s.writers[w];
            if writer.kind.Upload? then writer.document !in s.documents
            else writer.phase.NumberRead? && IsActive(s, writer.document)
                 && !NumberTaken(s, writer.document, writer.phase.no)
  {
    if s.writers[w].kind.Upload? { CommitUploadCommits(s, w, fails); } else { CommitVersionCommits(s, w, fails); }
  }

  /** Objects change only at the key of a writer that has not committed. */
  ghost predicate ObjectsMove(s: State, s': State, w: nat) {
    s'.objects == s.objects ||
    (w < |s.writers| && (s.writers[w].phase.Ready? || s.writers[w].phase.Compensating?)
     && (forall key :: key != s.writers[w].key ==>
           (key in s'.objects <==> key in s.objects) && (key in s.objects ==> s'.objects[key] == s.objects[key])))
  }

  lemma PutMovesObjects(s: State, w: nat, write: Write)
    ensures ObjectsMove(s, DoPut(s, w, write), w)
  {
  }

  lemma CompensateMovesObjects(s: State, w: nat, works: bool)
    ensures ObjectsMove(s, DoCompensate(s, w, works), w)
  {
  }

  lemma CommitKeepsObjects(s: State, w: nat, fails: bool)
    ensures DoCommit(s, w, fails).objects == s.objects
  {
  }

  lemma OthersKeepObjects(s: State, e: Event)
    requires !e.Put? && !e.Compensate? && !e.Commit?
    ensures Apply(s, e).objects == s.objects
  {
  }

  lemma ObjectsChange(s: State, e: Event)
    ensures Apply(s, e).objects == s.objects || ((e.Put? || e.Compensate?) && ObjectsMove(s, Apply(s, e), e.writer))
  {
    match e
    case Put(w, write) => PutMovesObjects(s, w, write);
    case Compensate(w, works) => CompensateMovesObjects(s, w, works);
    case Commit(w, fails) => CommitKeepsObjects(s, w, fails);
    case _ => OthersKeepObjects(s, e);
  }

  lemma ObjectStays(s: State, e: Event, v: string)
    requires Inv(s) && v in s.versions
    ensures s.versions[v].key in Apply(s, e).objects
    ensures Apply(s, e).objects[s.versions[v].key] == s.objects[s.versions[v].key]
  {
    assert VersionInv(s, v);
    ObjectsChange(s, e);
    if Apply(s, e).objects != s.objects {
      UncommittedKeyIsFree(s, e.writer, v);
    }
  }

  // ---- Preservation.

  lemma VersionKeeps(s: State, e: Event, v: string)
    requires Inv(s) && v in Apply(s, e).versions
    ensures VersionInv(Apply(s, e), v)
  {
    IdsGrow(s, e);
    if v in s.versions {
      assert VersionInv(s, v);
      VersionStays(s, e, v);
      ObjectStays(s, e, v);
      MadeByStays(s, e, v);
      assert WriterInv(s, s.writers[s.madeBy[v]]);
      WriterGrows(s, e, s.madeBy[v]);
    } else {
      NewVersion(s, e, v);
      assert WriterInv(s, s.writers[e.writer]);
    }
  }

  lemma MadeByStays(s: State, e: Event, v: string)
    requires v in s.versions && v in s.madeBy
    ensures v in Apply(s, e).madeBy && Apply(s, e).madeBy[v] == s.madeBy[v]
  {
    EventMoves(s, e);
  }

  lemma NumbersAfter(versions: map<string, Version>, v: string, version: Version, d: string)
    requires v !in versions
    ensures NumbersOf(versions[v := version], d) ==
            NumbersOf(versions, d) + if version.document == d then {version.no} else {}
  {
    var versions' := versions[v := version];
    forall n | n in NumbersOf(versions, d) ensures n in NumbersOf(versions', d) {
      var u :| u in versions && versions[u].document == d && versions[u].no == n;
      assert u in versions' && versions'[u] == versions[u];
    }
    if version.document == d {
      assert versions'[v].document == d && versions'[v].no == version.no;
    }
    forall n | n in NumbersOf(versions', d)
      ensures n in NumbersOf(versions, d) + if version.document == d then {version.no} else {}
    {
      var u :| u in versions' && versions'[u].document == d && versions'[u].no == n;
      if u != v { assert u in versions && versions[u] == versions'[u]; }
    }
  }

  lemma NoVersionsYet(s: State, d: string)
    requires VersionsInv(s) && d !in s.documents
    ensures NumbersOf(s.versions, d) == {} && MaxNo(s.versions, d) == 0
  {
    forall u | u in s.versions ensures s.versions[u].document != d { assert VersionInv(s, u); }
  }

  lemma WritersNumberIsNext(s: State, w: nat)
    requires WritersInv(s) && VersionsInv(s) && DocumentsInv(s) && w < |s.writers|
    requires var writer := s.writers[w];
             if writer.kind.Upload? then writer.document !in s.documents
             else writer.phase.NumberRead? && !NumberTaken(s, writer.document, writer.phase.no)
    ensures var writer := s.writers[w];
            (if writer.kind.Upload? then 1 else writer.phase.no) == MaxNo(s.versions, writer.document) + 1
  {
    var writer := s.writers[w];
    assert WriterInv(s, writer);
    if writer.kind.Upload? {
      NoVersionsYet(s, writer.document);
    } else {
      assert DocumentInv(s, writer.document);
    }
  }

  lemma InsertedRow(s: State, e: Event, v: string)
    requires v !in s.versions && v in Apply(s, e).versions
    ensures e.Commit? && e.writer < |s.writers|
    ensures var version, writer := Apply(s, e).versions[v], s.writers[e.writer];
            && version.document == writer.document
            && (if writer.kind.Upload? then version.no == 1 && writer.document !in s.documents
                else writer.phase.NumberRead? && version.no == writer.phase.no
                     && !NumberTaken(s, writer.document, writer.phase.no))
  {
    NewVersion(s, e, v);
  }

  /** The number a commit inserts is the next one, because any other is taken. */
  lemma CommittedNumberIsNext(s: State, e: Event, v: string)
    requires Inv(s) && v !in s.versions && v in Apply(s, e).versions
    ensures Apply(s, e).versions[v].no == MaxNo(s.versions, Apply(s, e).versions[v].document) + 1
  {
    InsertedRow(s, e, v);
    WritersNumberIsNext(s, e.writer);
  }

  /** The document rows after version `v` of `version.document` was inserted under the next number. */
  lemma DocumentAfterInsert(s: State, s': State, v: string, d: string)
    requires v !in s.versions && v in s'.versions && s'.versions == s.versions[v := s'.versions[v]]
    requires var version := s'.versions[v];
             && version.no == MaxNo(s.versions, version.document) + 1
             && version.document in s'.documents
             && s'.documents[version.document].current == v
             && s'.documents[version.document].key == version.key
             && s'.documents[version.document].size == version.size
             && s'.documents == s.documents[version.document := s'.documents[version.document]]
             && (forall k: nat :: k in NumbersOf(s.versions, version.document) <==> 1 <= k < version.no)
    requires d in s'.documents && (d != s'.versions[v].document ==> d in s.documents && DocumentInv(s, d))
    ensures DocumentInv(s', d)
  {
    NumbersAfter(s.versions, v, s'.versions[v], d);
    if d == s'.versions[v].document { TopIs(NumbersOf(s'.versions, d), s'.versions[v].no); }
  }

  lemma NumbersBelowNext(s: State, d: string)
    requires DocumentsInv(s) && VersionsInv(s)
    ensures forall k: nat :: k in NumbersOf(s.versions, d) <==> 1 <= k <= MaxNo(s.versions, d)
  {
    if d in s.documents { assert DocumentInv(s, d); } else { NoVersionsYet(s, d); }
  }

  lemma DocumentKeeps(s: State, e: Event, d: string)
    requires Inv(s) && d in Apply(s, e).documents
    ensures DocumentInv(Apply(s, e), d)
  {
    if e.Commit? {
      CommitKeepsDocument(s, e.writer, e.fails, d);
    } else {
      OthersKeepRows(s, e);
      KeptDocument(s, Apply(s, e), d);
    }
  }

  lemma CommitKeepsDocument(s: State, w: nat, fails: bool, d: string)
    requires Inv(s) && d in DoCommit(s, w, fails).documents
    ensures DocumentInv(DoCommit(s, w, fails), d)
  {
    if DoCommit(s, w, fails).versions == s.versions {
      CommitKeepsRows(s, w, fails);
      KeptDocument(s, DoCommit(s, w, fails), d);
    } else {
      CommittedRow(s, w, fails);
      WritersNumberIsNext(s, w);
      CommittedDocument(s, DoCommit(s, w, fails), w, s.writers[w].version, d);
    }
  }

  lemma CommittedDocument(s: State, s': State, w: nat, v: string, d: string)
    requires Inv(s) && w < |s.writers| && Commits(s, s', w, v, MaxNo(s.versions, s.writers[w].document) + 1)
    requires d in s'.documents
    ensures DocumentInv(s', d)
  {
    NumbersBelowNext(s, s.writers[w].document);
    if d in s.documents { assert DocumentInv(s, d); }
    DocumentAfterInsert(s, s', v, d);
  }

  lemma KeptDocument(s: State, s': State, d: string)
    requires DocumentsInv(s) && KeepsRows(s, s') && d in s'.documents
    ensures DocumentInv(s', d)
  {
    assert DocumentInv(s, d);
  }

  lemma CommitKeepsRows(s: State, w: nat, fails: bool)
    requires DoCommit(s, w, fails).versions == s.versions
    ensures KeepsRows(s, DoCommit(s, w, fails))
  {
    if w < |s.writers| && s.writers[w].kind.Upload? && s.writers[w].phase.ObjectPut? {
      CommitUploadCommits(s, w, fails);
    } else if w < |s.writers| && s.writers[w].phase.NumberRead? {
      CommitVersionCommits(s, w, fails);
    }
  }

  lemma NumberIsUnused(s: State, e: Event, v: string, other: string)
    requires Inv(s) && v !in s.versions && v in Apply(s, e).versions && other in s.versions
    ensures s.versions[other].document != Apply(s, e).versions[v].document ||
            s.versions[other].no != Apply(s, e).versions[v].no
  {
    CommittedNumberIsNext(s, e, v);
    assert s.versions[other].no in NumbersOf(s.versions, s.versions[other].document);
  }

  lemma DocumentsKeep(s: State, e: Event)
    requires Inv(s)
    ensures DocumentsInv(Apply(s, e))
  {
    var s' := Apply(s, e);
    forall d | d in s'.documents ensures DocumentInv(s', d) { DocumentKeeps(s, e, d); }
    forall u, u' | u in s'.versions && u' in s'.versions && u != u'
      ensures s'.versions[u].document != s'.versions[u'].document || s'.versions[u].no != s'.versions[u'].no
    { NumbersStayUnique(s, e, u, u'); }
  }

  lemma NumbersStayUnique(s: State, e: Event, u: string, u': string)
    requires Inv(s) && u in Apply(s, e).versions && u' in Apply(s, e).versions && u != u'
    ensures var s' := Apply(s, e);
            s'.versions[u].document != s'.versions[u'].document || s'.versions[u].no != s'.versions[u'].no
  {
    if u in s.versions { VersionStays(s, e, u); }
    if u' in s.versions { VersionStays(s, e, u'); }
    if u !in s.versions {
      NewVersion(s, e, u);
      NumberIsUnused(s, e, u, u');
    } else if u' !in s.versions {
      NumberIsUnused(s, e, u', u);
    }
  }

  lemma MaxNoGrows(s: State, e: Event, d: string)
    requires Inv(s)
    ensures MaxNo(s.versions, d) <= MaxNo(Apply(s, e).versions, d)
  {
    EventMoves(s, e);
    MoreVersionsMoreNumbers(s.versions, Apply(s, e).versions, d);
  }

  lemma MoreVersionsMoreNumbers(versions: map<string, Version>, versions': map<string, Version>, d: string)
    requires forall v :: v in versions ==> v in versions' && versions'[v] == versions[v]
    ensures MaxNo(versions, d) <= MaxNo(versions', d)
  {
    if NumbersOf(versions, d) != {} {
      var v :| v in versions && versions[v].document == d && versions[v].no == MaxNo(versions, d);
      assert versions'[v].no in NumbersOf(versions', d);
    }
  }

  /** The source a writer looked up is as it was. */
  lemma SourceRowStays(s: State, e: Event, source: string)
    requires Inv(s) && source in s.versions
    ensures source in Apply(s, e).versions && Apply(s, e).versions[source] == s.versions[source]
    ensures s.versions[source].key in s.objects && s.versions[source].key in Apply(s, e).objects
    ensures Apply(s, e).objects[s.versions[source].key] == s.objects[s.versions[source].key]
  {
    VersionStays(s, e, source);
    ObjectStays(s, e, source);
    assert VersionInv(s, source);
  }

  lemma SourceInvMoves(s: State, s': State, writer: Writer, writer': Writer)
    requires writer.kind.Restore? && SourceInv(s, writer)
    requires writer'.kind == writer.kind && writer'.document == writer.document
    requires var source := writer.kind.source;
             source in s.versions ==>
               && source in s'.versions && s'.versions[source] == s.versions[source]
               && s.versions[source].key in s.objects && s.versions[source].key in s'.objects
               && s'.objects[s.versions[source].key] == s.objects[s.versions[source].key]
    requires RestoreMoves(s, writer, writer')
    ensures SourceInv(s', writer')
  {
  }

  lemma SourceKeeps(s: State, e: Event, w: nat)
    requires Inv(s) && w < |s.writers|
    ensures w < |Apply(s, e).writers| && SourceInv(Apply(s, e), Apply(s, e).writers[w])
  {
    WriterGrows(s, e, w);
    if s.writers[w].kind.Restore? {
      assert SourceInv(s, s.writers[w]) by { assert WriterInv(s, s.writers[w]); }
      if s.writers[w].kind.source in s.versions { SourceRowStays(s, e, s.writers[w].kind.source); }
      if TouchedWriter(e) == Some(w) { SourcePhase(s, e, w); } else { OtherWriterStays(s, e, w); }
      SourceInvMoves(s, Apply(s, e), s.writers[w], Apply(s, e).writers[w]);
    }
  }

  /** How a restoring writer moves. */
  ghost predicate RestoreMoves(s: State, writer: Writer, writer': Writer)
    requires writer.kind.Restore?
  {
    var source := writer.kind.source;
    || writer'.phase == Finished(false)
    || writer' == writer
    || (writer.phase.LookUpSource? && source in s.versions
        && writer' == writer.(phase := SourceFound(s.versions[source].key))
        && s.versions[source].document == writer.document)
    || (writer.phase.SourceFound? && writer.phase.key in s.objects
        && writer' == writer.(bytes := s.objects[writer.phase.key], phase := Ready))
    || ((writer.phase.Ready? || writer.phase.ObjectPut? || writer.phase.NumberRead?)
        && writer' == writer.(phase := writer'.phase)
        && !writer'.phase.SourceFound? && !writer'.phase.LookUpSource?)
  }

  lemma LookUpMovesSource(s: State, w: nat)
    requires w < |s.writers| && s.writers[w].kind.Restore?
    ensures RestoreMoves(s, s.writers[w], DoFindSource(s, w).writers[w])
    ensures RestoreMoves(s, s.writers[w], DoReadSource(s, w).writers[w])
  {
  }

  lemma WriteMovesSource(s: State, w: nat, write: Write, works: bool)
    requires w < |s.writers| && s.writers[w].kind.Restore?
    ensures RestoreMoves(s, s.writers[w], DoPut(s, w, write).writers[w])
    ensures RestoreMoves(s, s.writers[w], DoCompensate(s, w, works).writers[w])
  {
  }

  lemma CommitMovesSource(s: State, w: nat, fails: bool)
    requires w < |s.writers| && s.writers[w].kind.Restore?
    ensures RestoreMoves(s, s.writers[w], DoReadMax(s, w).writers[w])
    ensures RestoreMoves(s, s.writers[w], DoCommit(s, w, fails).writers[w])
  {
  }

  lemma SourcePhase(s: State, e: Event, w: nat)
    requires w < |s.writers| && s.writers[w].kind.Restore? && TouchedWriter(e) == Some(w)
    ensures |Apply(s, e).writers| == |s.writers| && RestoreMoves(s, s.writers[w], Apply(s, e).writers[w])
  {
    EventMoves(s, e);
    match e
    case FindSource(_) => LookUpMovesSource(s, w);
    case ReadSource(_) => LookUpMovesSource(s, w);
    case Put(_, write) => WriteMovesSource(s, w, write, true);
    case Compensate(_, works) => WriteMovesSource(s, w, Stored, works);
    case ReadMax(_) => CommitMovesSource(s, w, true);
    case Commit(_, fails) => CommitMovesSource(s, w, fails);
    case _ =>
  }

  /** The object a writer has put is still there when it commits: nobody else has its key. */
  lemma PutObjectStays(s: State, e: Event, w: nat)
    requires Inv(s) && w < |s.writers| && (s.writers[w].phase.ObjectPut? || s.writers[w].phase.NumberRead?)
    ensures s.writers[w].key in Apply(s, e).objects && Apply(s, e).objects[s.writers[w].key] == s.writers[w].bytes
  {
    assert WriterInv(s, s.writers[w]);
    ObjectsChange(s, e);
    if Apply(s, e).objects != s.objects && e.writer != w {
      assert WriterInv(s, s.writers[e.writer]);
      WriterKeysDiffer(s, s.writers[w], s.writers[e.writer]);
    }
  }

  lemma VersionOfWriter(s: State, e: Event, w: nat)
    requires Inv(s) && w < |s.writers|
    ensures w < |Apply(s, e).writers|
    ensures Apply(s, e).writers[w].phase == Finished(true) <==> s.writers[w].version in Apply(s, e).versions
  {
    var v := s.writers[w].version;
    assert WriterInv(s, s.writers[w]);
    WriterGrows(s, e, w);
    if v in s.versions {
      VersionStays(s, e, v);
    } else if v in Apply(s, e).versions {
      NewVersion(s, e, v);
      assert e.writer == w;
    } else if TouchedWriter(e) != Some(w) {
      OtherWriterStays(s, e, w);
    } else {
      NotCommitted(s, e, w);
    }
  }

  lemma NotCommitted(s: State, e: Event, w: nat)
    requires w < |s.writers| && TouchedWriter(e) == Some(w) && s.writers[w].phase != Finished(true)
    requires s.writers[w].version !in Apply(s, e).versions
    ensures w < |Apply(s, e).writers| && Apply(s, e).writers[w].phase != Finished(true)
  {
    EventMoves(s, e);
  }

  /** A writer's object and number, in the phases in which it holds them. */
  ghost predicate Holds(s: State, w: nat) {
    && w < |s.writers|
    && (s.writers[w].phase.ObjectPut? || s.writers[w].phase.NumberRead? ==>
          s.writers[w].key in s.objects && s.objects[s.writers[w].key] == s.writers[w].bytes)
    && (s.writers[w].phase.NumberRead? ==>
          1 <= s.writers[w].phase.no <= MaxNo(s.versions, s.writers[w].document) + 1)
  }

  lemma LookUpHolds(s: State, w: nat)
    requires Holds(s, w)
    ensures Holds(DoFindSource(s, w), w) && Holds(DoReadSource(s, w), w)
  {
  }

  lemma WriteHolds(s: State, w: nat, write: Write, works: bool)
    requires Holds(s, w)
    ensures Holds(DoPut(s, w, write), w) && Holds(DoCompensate(s, w, works), w)
  {
  }

  lemma CommitHolds(s: State, w: nat, fails: bool)
    requires Holds(s, w)
    ensures Holds(DoReadMax(s, w), w) && Holds(DoCommit(s, w, fails), w)
  {
    CommitMoves(s, w, fails);
  }

  lemma HeldThings(s: State, e: Event, w: nat)
    requires w < |s.writers| && WriterInv(s, s.writers[w]) && TouchedWriter(e) == Some(w)
    ensures Holds(Apply(s, e), w)
  {
    match e
    case FindSource(_) => LookUpHolds(s, w);
    case ReadSource(_) => LookUpHolds(s, w);
    case Put(_, write) => WriteHolds(s, w, write, true);
    case Compensate(_, works) => WriteHolds(s, w, Stored, works);
    case ReadMax(_) => CommitHolds(s, w, true);
    case Commit(_, fails) => CommitHolds(s, w, fails);
    case _ =>
  }

  lemma WriterKeeps(s: State, e: Event, w: nat)
    requires Inv(s) && w < |s.writers|
    ensures w < |Apply(s, e).writers| && WriterInv(Apply(s, e), Apply(s, e).writers[w])
  {
    var writer := s.writers[w];
    assert WriterInv(s, writer);
    WriterGrows(s, e, w);
    IdsGrow(s, e);
    VersionOfWriter(s, e, w);
    SourceKeeps(s, e, w);
    MaxNoGrows(s, e, writer.document);
    if TouchedWriter(e) == Some(w) {
      HeldThings(s, e, w);
    } else {
      OtherWriterStays(s, e, w);
      if writer.phase.ObjectPut? || writer.phase.NumberRead? { PutObjectStays(s, e, w); }
    }
  }

  lemma NewUpload(s: State, e: Event)
    requires e.BeginUpload? && |Apply(s, e).writers| > |s.writers|
    requires forall v :: v in s.versions ==> v in s.ids
    ensures |Apply(s, e).writers| == |s.writers| + 1
    ensures var writer := Apply(s, e).writers[|s.writers|];
            writer.version !in s.ids && WriterInv(Apply(s, e), writer)
  {
    var writer := Apply(s, e).writers[|s.writers|];
    assert writer.key == KeyOf(writer.document, writer.version, Sanitise(e.filename));
  }

  lemma NewSave(s: State, e: Event)
    requires (e.BeginSave? || e.BeginRestore?) && |Apply(s, e).writers| > |s.writers|
    requires forall v :: v in s.versions ==> v in s.ids
    requires forall d :: d in s.documents ==> d in s.ids && IsSlashFree(d)
    ensures |Apply(s, e).writers| == |s.writers| + 1
    ensures var writer := Apply(s, e).writers[|s.writers|];
            writer.version !in s.ids && WriterInv(Apply(s, e), writer)
  {
    var writer := Apply(s, e).writers[|s.writers|];
    assert writer.key == KeyOf(writer.document, writer.version,
                               if writer.kind.OfficeSave? then writer.filename else Sanitise(writer.filename));
  }

  lemma NewWriter(s: State, e: Event)
    requires Inv(s) && |Apply(s, e).writers| > |s.writers|
    ensures |Apply(s, e).writers| == |s.writers| + 1
    ensures var writer := Apply(s, e).writers[|s.writers|];
            writer.version !in s.ids && WriterInv(Apply(s, e), writer)
  {
    DrawnBefore(s);
    SameNumberOfWriters(s, e);
    if e.BeginUpload? { NewUpload(s, e); } else { NewSave(s, e); }
  }

  lemma SameNumberOfWriters(s: State, e: Event)
    ensures !e.BeginUpload? && !e.BeginSave? && !e.BeginRestore? ==> |Apply(s, e).writers| == |s.writers|
  {
    EventMoves(s, e);
  }

  /** Every committed version's id, and every document's, was drawn. */
  lemma DrawnBefore(s: State)
    requires Inv(s)
    ensures forall v :: v in s.versions ==> v in s.ids
    ensures forall d :: d in s.documents ==> d in s.ids && IsSlashFree(d)
  {
    forall v | v in s.versions
      ensures v in s.ids && s.versions[v].document in s.ids && IsSlashFree(s.versions[v].document)
    {
      assert VersionInv(s, v) && WriterInv(s, s.writers[s.madeBy[v]]);
    }
    forall d | d in s.documents ensures d in s.ids && IsSlashFree(d) {
      assert DocumentInv(s, d);
      assert s.versions[s.documents[d].current].document == d;
    }
  }

  lemma NewIdIsNew(s: State, e: Event)
    requires Inv(s) && |Apply(s, e).writers| > |s.writers|
    ensures |Apply(s, e).writers| == |s.writers| + 1 && Apply(s, e).writers[|s.writers|].version !in s.ids
  {
    NewWriter(s, e);
  }

  lemma WriterIdDrawn(s: State, w: nat)
    requires WritersInv(s) && w < |s.writers|
    ensures s.writers[w].version in s.ids
  {
    assert WriterInv(s, s.writers[w]);
  }

  lemma SameVersionId(s: State, e: Event, w: nat)
    requires w < |s.writers|
    ensures w < |Apply(s, e).writers| && Apply(s, e).writers[w].version == s.writers[w].version
  {
    WriterGrows(s, e, w);
  }

  lemma OldWritersKeep(s: State, e: Event, s': State)
    requires Inv(s) && s' == Apply(s, e)
    ensures |s.writers| <= |s'.writers|
    ensures forall w :: 0 <= w < |s.writers| ==> WriterInv(s', s'.writers[w])
  {
    EventMoves(s, e);
    forall w | 0 <= w < |s.writers| ensures WriterInv(s', s'.writers[w]) { WriterKeeps(s, e, w); }
  }

  lemma LastWriterKeeps(s: State, e: Event, s': State)
    requires Inv(s) && s' == Apply(s, e)
    ensures |s'.writers| <= |s.writers| + 1
    ensures |s'.writers| == |s.writers| + 1 ==> WriterInv(s', s'.writers[|s.writers|])
  {
    if |s'.writers| > |s.writers| { NewWriter(s, e); }
  }

  lemma WritersKeep(s: State, e: Event, s': State)
    requires Inv(s) && s' == Apply(s, e)
    ensures WritersInv(s')
  {
    OldWritersKeep(s, e, s');
    LastWriterKeeps(s, e, s');
    WriterVersionsStayDistinct(s, e, s');
  }

  lemma WriterVersionsStayDistinct(s: State, e: Event, s': State)
    requires Inv(s) && s' == Apply(s, e)
    ensures forall w, w' :: 0 <= w < w' < |s'.writers| ==> s'.writers[w].version != s'.writers[w'].version
  {
    OldVersionsStay(s, e, s');
    if |s'.writers| > |s.writers| { NewIdIsNew(s, e); }
    forall w, w' | 0 <= w < w' < |s'.writers| ensures s'.writers[w].version != s'.writers[w'].version {
      StillApart(s, s', w, w');
    }
  }

  lemma OldVersionsStay(s: State, e: Event, s': State)
    requires s' == Apply(s, e)
    ensures |s.writers| <= |s'.writers|
    ensures forall w :: 0 <= w < |s.writers| ==> s'.writers[w].version == s.writers[w].version
  {
    EventMoves(s, e);
    forall w | 0 <= w < |s.writers| ensures s'.writers[w].version == s.writers[w].version { SameVersionId(s, e, w); }
  }

  lemma StillApart(s: State, s': State, w: nat, w': nat)
    requires WritersInv(s) && w < w' < |s'.writers| <= |s.writers| + 1 && w < |s.writers| <= |s'.writers|
    requires forall u :: 0 <= u < |s.writers| ==> s'.writers[u].version == s.writers[u].version
    requires |s'.writers| > |s.writers| ==> s'.writers[|s.writers|].version !in s.ids
    ensures s'.writers[w].version != s'.writers[w'].version
  {
    WriterIdDrawn(s, w);
  }

  lemma StepKeeps(s: State, e: Event)
    requires Inv(s)
    ensures Inv(Apply(s, e))
  {
    WritersKeep(s, e, Apply(s, e));
    DocumentsKeep(s, e);
    forall v | v in Apply(s, e).versions ensures VersionInv(Apply(s, e), v) { VersionKeeps(s, e, v); }
  }

  lemma {:induction false} RunKeeps(s: State, events: seq<Event>)
    requires Inv(s)
    ensures Inv(Run(s, events))
    decreases |events|
  {
    if events != [] {
      RunKeeps(s, events[..|events| - 1]);
      StepKeeps(Run(s, events[..|events| - 1]), events[|events| - 1]);
    }
  }
}
