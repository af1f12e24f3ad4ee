/**
  The version store: document and version tables over an object store, and the five writers
  that put an object, commit metadata and compensate, as interleaved steps. A writer that gets
  no further event has stopped at that point; a disabled event leaves the state alone.
 */
module VersionMachine {
  import opened Common
  import opened StorageKey

  datatype Version = Version(document: string, no: nat, key: string, size: nat)
  datatype Document = Document(owner: string, filename: string, deleted: bool,
                               current: string, key: string, size: nat)

  datatype Kind =
    | Upload(owner: string)
    | Restore(source: string)
    | MarkdownSave
    | ShareSave
    | OfficeSave

  datatype Phase =
    | LookUpSource
    | SourceFound(key: string)
    | Ready
    | ObjectPut
    | NumberRead(no: nat)
    | Compensating
    | Finished(ok: bool)

  datatype Writer = Writer(kind: Kind, document: string, filename: string, version: string,
                           key: string, bytes: Bytes, phase: Phase)

  /** `madeBy` remembers which writer committed a version; `ids` which ids were ever drawn. */
  datatype State = State(objects: map<string, Bytes>, documents: map<string, Document>,
                         versions: map<string, Version>, writers: seq<Writer>,
                         madeBy: map<string, nat>, ids: set<string>)

  const EMPTY := State(map[], map[], map[], [], map[], {})

  datatype Write = Stored | NotStored | StoredButReported

  datatype Event =
    | BeginUpload(owner: string, filename: string, bytes: Bytes, document: string, version: string)
    | BeginSave(kind: Kind, document: string, bytes: Bytes, version: string)
    | BeginRestore(document: string, source: string, version: string)
    | FindSource(writer: nat)
    | ReadSource(writer: nat)
    | Put(writer: nat, write: Write)
    | ReadMax(writer: nat)
    | Commit(writer: nat, fails: bool)
    | Compensate(writer: nat, works: bool)
    | SoftDelete(document: string)

  // ---- Reading the tables.

  function NumbersOf(versions: map<string, Version>, d: string): (numbers: set<nat>)
    ensures forall v :: v in versions && versions[v].document == d ==> versions[v].no in numbers
  {
    set v | v in versions.Keys && versions[v].document == d :: versions[v].no
  }

  /** SELECT COALESCE(MAX(version_no), 0) FROM document_versions WHERE document_id = $1. */
  ghost function MaxNo(versions: map<string, Version>, d: string): nat {
    Top(NumbersOf(versions, d))
  }

  predicate IsActive(s: State, d: string) {
    d in s.documents && !s.documents[d].deleted
  }

  /** Random ids: not drawn before, and without a slash. */
  predicate IsNew(s: State, id: string) {
    id !in s.ids && IsSlashFree(id)
  }

  function WriterKey(kind: Kind, d: string, v: string, filename: string): string {
    if kind.OfficeSave? then KeyOf(d, v, filename) else ServiceKey(d, v, filename)
  }

  // ---- Events.

  function SetWriter(s: State, w: nat, writer: Writer): State
    requires w < |s.writers|
  {
    s.(writers := s.writers[w := writer])
  }

  function SetPhase(s: State, w: nat, phase: Phase): State
    requires w < |s.writers|
  {
    SetWriter(s, w, s.writers[w].(phase := phase))
  }

  function DoBeginUpload(s: State, owner: string, filename: string, bytes: Bytes, d: string, v: string): State {
    if owner == "" || bytes == [] || !IsNew(s, d) || !IsNew(s, v) || d == v then s
    else
      var kind := Upload(owner);
      s.(writers := s.writers + [Writer(kind, d, Base(filename), v, ServiceKey(d, v, filename), bytes, Ready)],
         ids := s.ids + {d, v})
  }

  function DoBeginSave(s: State, kind: Kind, d: string, bytes: Bytes, v: string): State {
    if kind.Upload? || kind.Restore? || !IsActive(s, d) || !IsNew(s, v) then s
    else
      var filename := s.documents[d].filename;
      s.(writers := s.writers + [Writer(kind, d, filename, v, WriterKey(kind, d, v, filename), bytes, Ready)],
         ids := s.ids + {v})
  }

  function DoBeginRestore(s: State, d: string, source: string, v: string): State {
    if !IsActive(s, d) || !IsNew(s, v) then s
    else
      var filename := s.documents[d].filename;
      var kind := Restore(source);
      s.(writers := s.writers + [Writer(kind, d, filename, v, WriterKey(kind, d, v, filename), [], LookUpSource)],
         ids := s.ids + {v})
  }

  function DoFindSource(s: State, w: nat): State {
    if w >= |s.writers| || !s.writers[w].phase.LookUpSource? || !s.writers[w].kind.Restore? then s
    else
      var writer := s.writers[w];
      var source := writer.kind.source;
      if IsActive(s, writer.document) && source in s.versions && s.versions[source].document == writer.document
      then SetPhase(s, w, SourceFound(s.versions[source].key))
      else SetPhase(s, w, Finished(false))
  }

  function DoReadSource(s: State, w: nat): State {
    if w >= |s.writers| || !s.writers[w].phase.SourceFound? then s
    else
      var key := s.writers[w].phase.key;
      if key in s.objects then SetWriter(s, w, s.writers[w].(bytes := s.objects[key], phase := Ready))
      else SetPhase(s, w, Finished(false))
  }

  function DoPut(s: State, w: nat, write: Write): State {
    if w >= |s.writers| || !s.writers[w].phase.Ready? then s
    else if write.NotStored? then SetPhase(s, w, Finished(false))
    else
      var s1 := s.(objects := s.objects[s.writers[w].key := s.writers[w].bytes]);
      SetPhase(s1, w, if write.Stored? then ObjectPut else Finished(false))
  }

  ghost function DoReadMax(s: State, w: nat): State {
    if w >= |s.writers| || !s.writers[w].phase.ObjectPut? || s.writers[w].kind.Upload? then s
    else SetPhase(s, w, NumberRead(MaxNo(s.versions, s.writers[w].document) + 1))
  }

  /** Both inserts of CreateWithVersion, refused by either primary key. */
  function DoCommitUpload(s: State, w: nat, fails: bool): State
    requires w < |s.writers| && s.writers[w].kind.Upload?
  {
    var writer := s.writers[w];
    if fails || writer.document in s.documents || writer.version in s.versions then SetPhase(s, w, Compensating)
    else
      var size := |writer.bytes|;
      var document := Document(writer.kind.owner, writer.filename, false, writer.version, writer.key, size);
      var s1 := s.(documents := s.documents[writer.document := document],
                   versions := s.versions[writer.version := Version(writer.document, 1, writer.key, size)],
                   madeBy := s.madeBy[writer.version := w]);
      SetPhase(s1, w, Finished(true))
  }

  /** The unique index on (document_id, version_no). */
  predicate NumberTaken(s: State, d: string, no: nat) {
    no in NumbersOf(s.versions, d)
  }

  /** Insert, update and commit of AddDocumentVersion; a deleted document rolls the insert back. */
  function DoCommitVersion(s: State, w: nat, fails: bool): State
    requires w < |s.writers| && s.writers[w].phase.NumberRead?
  {
    var writer := s.writers[w];
    var no := writer.phase.no;
    if fails || writer.version in s.versions || NumberTaken(s, writer.document, no) || !IsActive(s, writer.document)
    then SetPhase(s, w, Compensating)
    else
      var size := |writer.bytes|;
      var document := s.documents[writer.document].(current := writer.version, key := writer.key, size := size);
      var s1 := s.(documents := s.documents[writer.document := document],
                   versions := s.versions[writer.version := Version(writer.document, no, writer.key, size)],
                   madeBy := s.madeBy[writer.version := w]);
      SetPhase(s1, w, Finished(true))
  }

  function DoCommit(s: State, w: nat, fails: bool): State {
    if w >= |s.writers| then s
    else if s.writers[w].kind.Upload? && s.writers[w].phase.ObjectPut? then DoCommitUpload(s, w, fails)
    else if !s.writers[w].kind.Upload? && s.writers[w].phase.NumberRead? then DoCommitVersion(s, w, fails)
    else s
  }

  function DoCompensate(s: State, w: nat, works: bool): State {
    if w >= |s.writers| || !s.writers[w].phase.Compensating? then s
    else
      var s1 := if works then s.(objects := s.objects - {s.writers[w].key}) else s;
      SetPhase(s1, w, Finished(false))
  }

  function DoSoftDelete(s: State, d: string): State {
    if !IsActive(s, d) then s
    else s.(documents := s.documents[d := s.documents[d].(deleted := true)])
  }

  ghost function Apply(s: State, e: Event): State {
    match e
    case BeginUpload(owner, filename, bytes, d, v) => DoBeginUpload(s, owner, filename, bytes, d, v)
    case BeginSave(kind, d, bytes, v) => DoBeginSave(s, kind, d, bytes, v)
    case BeginRestore(d, source, v) => DoBeginRestore(s, d, source, v)
    case FindSource(w) => DoFindSource(s, w)
    case ReadSource(w) => DoReadSource(s, w)
    case Put(w, write) => DoPut(s, w, write)
    case ReadMax(w) => DoReadMax(s, w)
    case Commit(w, fails) => DoCommit(s, w, fails)
    case Compensate(w, works) => DoCompensate(s, w, works)
    case SoftDelete(d) => DoSoftDelete(s, d)
  }

  ghost function Run(s: State, events: seq<Event>): State
    decreases |events|
  {
    if events == [] then s else Apply(Run(s, events[..|events| - 1]), events[|events| - 1])
  }

  lemma RunSnoc(s: State, events: seq<Event>, e: Event)
    ensures Run(s, events + [e]) == Apply(Run(s, events), e)
  {
    assert (events + [e])[..|events|] == events;
  }

  // ---- Downloads.

  /** What DownloadVersion returns once access is granted. */
  function DownloadVersion(s: State, d: string, v: string): Option<Bytes> {
    if IsActive(s, d) && v in s.versions && s.versions[v].document == d && s.versions[v].key in s.objects
    then Some(s.objects[s.versions[v].key]) else None
  }

  /** What Download returns once access is granted. */
  function Download(s: State, d: string): Option<Bytes> {
    if IsActive(s, d) && s.documents[d].key in s.objects then Some(s.objects[s.documents[d].key]) else None
  }
}
