/**
  Documents and their permission rows: the role of a user, the requests that change the two
  tables, and the accessible-documents query. Every request is one atomic step.
 */
module Permission {
  import opened Common

  const SUBJECT_USER := "user"
  const EDITOR := "editor"
  const VIEWER := "viewer"

  datatype Doc = Doc(id: string, owner: string, deleted: bool)

  /** The columns of the unique index on permission rows. */
  datatype Pair = Pair(doc: string, subjectType: string, subject: string)

  datatype Row = Row(id: string, pair: Pair, permission: string, grantedBy: string)

  datatype Tables = Tables(docs: seq<Doc>, rows: seq<Row>)

  datatype Request =
    | Upload(owner: string, id: string)
    | Grant(actor: string, pair: Pair, permission: string, id: string)
    | Revoke(actor: string, doc: string, id: string)
    | Delete(actor: string, doc: string)
    | DeleteAsAdmin(doc: string)

  datatype Reply = Done | Refused | InvalidInput | Forbidden | NotFound

  const EMPTY := Tables([], [])

  function UserPair(doc: string, user: string): Pair {
    Pair(doc, SUBJECT_USER, user)
  }

  // ---- Queries.

  /** The row with this primary key, deleted or not. */
  function FindAny(docs: seq<Doc>, id: string): Option<Doc> {
    if docs == [] then None
    else if docs[0].id == id then Some(docs[0])
    else FindAny(docs[1..], id)
  }

  /** SELECT owner_id FROM documents WHERE id = $1 AND deleted_at IS NULL. */
  function OwnerOf(docs: seq<Doc>, id: string): Option<string> {
    if docs == [] then None
    else if docs[0].id == id && !docs[0].deleted then Some(docs[0].owner)
    else OwnerOf(docs[1..], id)
  }

  function FindPair(rows: seq<Row>, pair: Pair): Option<Row> {
    if rows == [] then None
    else if rows[0].pair == pair then Some(rows[0])
    else FindPair(rows[1..], pair)
  }

  function RoleNamed(permission: string): Role {
    if permission == EDITOR then Editor else if permission == VIEWER then Viewer else NoRole
  }

  function RoleOf(t: Tables, user: string, doc: string): Role {
    if user == "" || doc == "" then NoRole
    else
      match OwnerOf(t.docs, doc)
      case None => NoRole
      case Some(owner) =>
        if owner == user then Owner
        else
          match FindPair(t.rows, UserPair(doc, user))
          case None => NoRole
          case Some(row) => RoleNamed(row.permission)
  }

  // ---- The accessible-documents query: LEFT JOIN, WHERE, DISTINCT.

  /** The permission rows a document is joined with. */
  function Joined(rows: seq<Row>, pair: Pair): seq<Row> {
    if rows == [] then []
    else (if rows[0].pair == pair then [rows[0]] else []) + Joined(rows[1..], pair)
  }

  /** One copy of the document for each of its joined rows that passes the condition. */
  function Copies(doc: Doc, user: string, joined: seq<Row>): seq<Doc> {
    if joined == [] then []
    else
      (if doc.owner == user || joined[0].permission == VIEWER || joined[0].permission == EDITOR then [doc] else [])
      + Copies(doc, user, joined[1..])
  }

  /** A document without a matching row is joined once, with nulls. */
  function SelectedOf(doc: Doc, user: string, joined: seq<Row>): seq<Doc> {
    if doc.deleted then []
    else if joined == [] then (if doc.owner == user then [doc] else [])
    else Copies(doc, user, joined)
  }

  function Selected(docs: seq<Doc>, rows: seq<Row>, user: string): seq<Doc> {
    if docs == [] then []
    else SelectedOf(docs[0], user, Joined(rows, UserPair(docs[0].id, user))) + Selected(docs[1..], rows, user)
  }

  function Deduplicated(docs: seq<Doc>): seq<Doc> {
    if docs == [] then []
    else
      var n := |docs| - 1;
      var before := Deduplicated(docs[..n]);
      if docs[n] in before then before else before + [docs[n]]
  }

  function Accessible(t: Tables, user: string): seq<Doc> {
    Deduplicated(Selected(t.docs, t.rows, user))
  }

  function DocIds(docs: seq<Doc>): (ids: seq<string>)
    ensures |ids| == |docs| && forall i :: 0 <= i < |ids| ==> ids[i] == docs[i].id
  {
    seq(|docs|, i requires 0 <= i < |docs| => docs[i].id)
  }

  // ---- Requests.

  /** INSERT .. ON CONFLICT (document_id, subject_type, subject_id) DO UPDATE: the old row id stays. */
  function Upsert(rows: seq<Row>, row: Row): seq<Row> {
    if rows == [] then [row]
    else if rows[0].pair == row.pair then
      [rows[0].(permission := row.permission, grantedBy := row.grantedBy)] + rows[1..]
    else [rows[0]] + Upsert(rows[1..], row)
  }

  predicate HasRowId(rows: seq<Row>, id: string) {
    exists i :: 0 <= i < |rows| && rows[i].id == id
  }

  /** DELETE FROM document_permissions WHERE document_id = $1 AND id = $2. */
  function Without(rows: seq<Row>, doc: string, id: string): (left: seq<Row>)
    ensures |left| <= |rows|
  {
    if rows == [] then []
    else (if rows[0].pair.doc == doc && rows[0].id == id then [] else [rows[0]]) + Without(rows[1..], doc, id)
  }

  /** UPDATE documents SET deleted_at = now WHERE id = $1 AND deleted_at IS NULL. */
  function MarkDeleted(docs: seq<Doc>, id: string): seq<Doc> {
    if docs == [] then []
    else [if docs[0].id == id then docs[0].(deleted := true) else docs[0]] + MarkDeleted(docs[1..], id)
  }

  /** The insert is refused when the primary key is taken. */
  function DoUpload(t: Tables, owner: string, id: string): (Tables, Reply) {
    if owner == "" then (t, InvalidInput)
    else if id == "" || FindAny(t.docs, id).Some? then (t, Refused)
    else (t.(docs := t.docs + [Doc(id, owner, false)]), Done)
  }

  function DoGrant(t: Tables, actor: string, pair: Pair, permission: string, id: string): (Tables, Reply) {
    if pair.subjectType != SUBJECT_USER || pair.subject == "" || pair.doc == "" then (t, InvalidInput)
    else if permission != EDITOR && permission != VIEWER then (t, InvalidInput)
    else if RoleOf(t, actor, pair.doc) != Owner then (t, Forbidden)
    else if id == "" || (FindPair(t.rows, pair).None? && HasRowId(t.rows, id)) then (t, Refused)
    else (t.(rows := Upsert(t.rows, Row(id, pair, permission, actor))), Done)
  }

  function DoRevoke(t: Tables, actor: string, doc: string, id: string): (Tables, Reply) {
    if id == "" || doc == "" then (t, InvalidInput)
    else if RoleOf(t, actor, doc) != Owner then (t, Forbidden)
    else
      var left := Without(t.rows, doc, id);
      if |left| == |t.rows| then (t, NotFound) else (t.(rows := left), Done)
  }

  function DoDeleteAsAdmin(t: Tables, doc: string): (Tables, Reply) {
    if doc == "" then (t, Forbidden)
    else if OwnerOf(t.docs, doc).None? then (t, NotFound)
    else (t.(docs := MarkDeleted(t.docs, doc)), Done)
  }

  function DoDelete(t: Tables, actor: string, doc: string): (Tables, Reply) {
    if actor == "" || doc == "" || RoleOf(t, actor, doc) != Owner then (t, Forbidden)
    else DoDeleteAsAdmin(t, doc)
  }

  function Step(t: Tables, request: Request): (Tables, Reply) {
    match request
    case Upload(owner, id) => DoUpload(t, owner, id)
    case Grant(actor, pair, permission, id) => DoGrant(t, actor, pair, permission, id)
    case Revoke(actor, doc, id) => DoRevoke(t, actor, doc, id)
    case Delete(actor, doc) => DoDelete(t, actor, doc)
    case DeleteAsAdmin(doc) => DoDeleteAsAdmin(t, doc)
  }

  function Run(t: Tables, requests: seq<Request>): Tables
    decreases |requests|
  {
    if requests == [] then t else Run(Step(t, requests[0]).0, requests[1..])
  }
}
