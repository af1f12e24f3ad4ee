/** The listing agrees with the role function; who can change whose role, over any run. */
module PermissionTheorems {
  import opened Common
  import opened Permission

  // ---- The invariant: primary keys and the unique index.

  ghost predicate DocsOk(docs: seq<Doc>) {
    docs == [] ||
    (docs[0].id != "" && docs[0].owner != ""
     && (forall d :: d in docs[1..] ==> d.id != docs[0].id) && DocsOk(docs[1..]))
  }

  ghost predicate RowsOk(rows: seq<Row>) {
    rows == [] ||
    ((forall r :: r in rows[1..] ==> r.id != rows[0].id && r.pair != rows[0].pair) && RowsOk(rows[1..]))
  }

  ghost predicate Genuine(row: Row) {
    row.id != "" && row.pair.subjectType == SUBJECT_USER && row.pair.subject != "" &&
    (row.permission == EDITOR || row.permission == VIEWER)
  }

  ghost predicate Inv(t: Tables) {
    DocsOk(t.docs) && RowsOk(t.rows) && forall r :: r in t.rows ==> Genuine(r)
  }

  ghost predicate Reachable(t: Tables) {
    exists requests :: t == Run(EMPTY, requests)
  }

  // ---- What the table operations do to lookups.

  lemma {:induction false} FindAfterUpsert(rows: seq<Row>, row: Row, pair: Pair)
    ensures FindPair(Upsert(rows, row), pair) ==
            if pair != row.pair then FindPair(rows, pair)
            else if FindPair(rows, pair).None? then Some(row)
            else Some(row.(id := FindPair(rows, pair).value.id))
    decreases |rows|
  {
    if rows != [] {
      var first := rows[0];
      if first.pair == row.pair {
        assert Upsert(rows, row)[1..] == rows[1..];
      } else {
        assert Upsert(rows, row)[1..] == Upsert(rows[1..], row);
        FindAfterUpsert(rows[1..], row, pair);
      }
    }
  }

  lemma {:induction false} UpsertElements(rows: seq<Row>, row: Row, r: Row)
    requires r in Upsert(rows, row)
    ensures r == row || r in rows ||
            exists before :: before in rows && r == row.(id := before.id) && before.pair == row.pair
    decreases |rows|
  {
    if rows != [] && r != rows[0] && r !in rows[1..] {
      if rows[0].pair == row.pair {
        assert r == row.(id := rows[0].id);
      } else {
        UpsertElements(rows[1..], row, r);
      }
    }
  }

  lemma {:induction false} UpsertKeepsRowsOk(rows: seq<Row>, row: Row)
    requires RowsOk(rows)
    requires FindPair(rows, row.pair).Some? || !HasRowId(rows, row.id)
    ensures RowsOk(Upsert(rows, row))
    decreases |rows|
  {
    if rows == [] {
      assert Upsert(rows, row)[1..] == [];
    } else if rows[0].pair == row.pair {
      assert Upsert(rows, row)[1..] == rows[1..];
    } else {
      var rest := rows[1..];
      assert Upsert(rows, row)[1..] == Upsert(rest, row);
      if HasRowId(rest, row.id) {
        var i :| 0 <= i < |rest| && rest[i].id == row.id;
        assert rows[i + 1].id == row.id;
      }
      UpsertKeepsRowsOk(rest, row);
      forall r | r in Upsert(rest, row) ensures r.id != rows[0].id && r.pair != rows[0].pair {
        UpsertElements(rest, row, r);
        if r == row && r !in rest {
          if FindPair(rows, row.pair).Some? {
            FoundIsThere(rest, row.pair);
            UpsertOfKnown(rest, row);
          } else {
            assert rows[0].id != row.id;
          }
        }
      }
    }
  }

  lemma {:induction false} FoundIsThere(rows: seq<Row>, pair: Pair)
    requires FindPair(rows, pair).Some?
    ensures FindPair(rows, pair).value in rows && FindPair(rows, pair).value.pair == pair
    decreases |rows|
  {
    if rows[0].pair != pair {
      FoundIsThere(rows[1..], pair);
    }
  }

  /** A pair that has a row keeps its row ids, whatever id the new row carried. */
  lemma {:induction false} UpsertOfKnown(rows: seq<Row>, row: Row)
    requires FindPair(rows, row.pair).Some?
    ensures |Upsert(rows, row)| == |rows|
    ensures forall i :: 0 <= i < |rows| ==> Upsert(rows, row)[i].id == rows[i].id
    decreases |rows|
  {
    if rows[0].pair != row.pair {
      UpsertOfKnown(rows[1..], row);
    }
  }

  lemma {:induction false} UpsertOfUnknown(rows: seq<Row>, row: Row)
    requires FindPair(rows, row.pair).None?
    ensures Upsert(rows, row) == rows + [row]
    decreases |rows|
  {
    if rows != [] {
      UpsertOfUnknown(rows[1..], row);
    }
  }

  lemma {:induction false} WithoutElements(rows: seq<Row>, doc: string, id: string, r: Row)
    ensures r in Without(rows, doc, id) <==> r in rows && !(r.pair.doc == doc && r.id == id)
    decreases |rows|
  {
    if rows != [] {
      WithoutElements(rows[1..], doc, id, r);
      assert rows == [rows[0]] + rows[1..];
    }
  }

  lemma {:induction false} WithoutKeepsRowsOk(rows: seq<Row>, doc: string, id: string)
    requires RowsOk(rows)
    ensures RowsOk(Without(rows, doc, id))
    decreases |rows|
  {
    if rows != [] {
      var left := Without(rows[1..], doc, id);
      WithoutKeepsRowsOk(rows[1..], doc, id);
      if rows[0].pair.doc == doc && rows[0].id == id {
        assert Without(rows, doc, id) == left;
      } else {
        forall r | r in left ensures r in rows[1..] {
          WithoutElements(rows[1..], doc, id, r);
        }
        assert Without(rows, doc, id)[1..] == left;
      }
    }
  }

  lemma {:induction false} FindIsMember(rows: seq<Row>, pair: Pair, r: Row)
    requires RowsOk(rows)
    ensures FindPair(rows, pair) == Some(r) <==> r in rows && r.pair == pair
    decreases |rows|
  {
    if rows != [] {
      FindIsMember(rows[1..], pair, r);
      assert rows == [rows[0]] + rows[1..];
    }
  }

  lemma {:induction false} OwnerIsMember(docs: seq<Doc>, id: string, owner: string)
    requires DocsOk(docs)
    ensures OwnerOf(docs, id) == Some(owner) <==> Doc(id, owner, false) in docs
    decreases |docs|
  {
    if docs != [] {
      OwnerIsMember(docs[1..], id, owner);
      assert docs == [docs[0]] + docs[1..];
    }
  }

  lemma {:induction false} AnyIsMember(docs: seq<Doc>, id: string)
    ensures FindAny(docs, id).None? <==> forall d :: d in docs ==> d.id != id
    decreases |docs|
  {
    if docs != [] {
      AnyIsMember(docs[1..], id);
      assert docs == [docs[0]] + docs[1..];
    }
  }

  lemma {:induction false} InsertKeepsDocsOk(docs: seq<Doc>, doc: Doc)
    requires DocsOk(docs) && doc.id != "" && doc.owner != ""
    requires forall d :: d in docs ==> d.id != doc.id
    ensures DocsOk(docs + [doc])
    decreases |docs|
  {
    if docs == [] {
      assert ([] + [doc])[1..] == [];
    } else {
      assert (docs + [doc])[1..] == docs[1..] + [doc];
      InsertKeepsDocsOk(docs[1..], doc);
    }
  }

  lemma {:induction false} MarkedElements(docs: seq<Doc>, id: string, d: Doc)
    ensures d in MarkDeleted(docs, id) <==>
            if d.id == id then d.deleted && (d in docs || d.(deleted := false) in docs) else d in docs
    decreases |docs|
  {
    if docs != [] {
      MarkedElements(docs[1..], id, d);
      assert docs == [docs[0]] + docs[1..];
    }
  }

  lemma {:induction false} MarkKeepsDocsOk(docs: seq<Doc>, id: string)
    requires DocsOk(docs)
    ensures DocsOk(MarkDeleted(docs, id))
    decreases |docs|
  {
    if docs != [] {
      var marked := MarkDeleted(docs, id);
      assert marked[1..] == MarkDeleted(docs[1..], id);
      MarkKeepsDocsOk(docs[1..], id);
      forall d | d in marked[1..] ensures d.id != docs[0].id {
        MarkedElements(docs[1..], id, d);
      }
    }
  }

  lemma {:induction false} OwnerAfterMark(docs: seq<Doc>, id: string, other: string)
    ensures OwnerOf(MarkDeleted(docs, id), other) == if other == id then None else OwnerOf(docs, other)
    decreases |docs|
  {
    if docs != [] {
      assert MarkDeleted(docs, id)[1..] == MarkDeleted(docs[1..], id);
      OwnerAfterMark(docs[1..], id, other);
    }
  }

  lemma {:induction false} OwnerAfterInsert(docs: seq<Doc>, doc: Doc, id: string)
    requires FindAny(docs, doc.id).None?
    ensures OwnerOf(docs + [doc], id) ==
            if id == doc.id && !doc.deleted then Some(doc.owner) else OwnerOf(docs, id)
    decreases |docs|
  {
    if docs == [] {
      assert (docs + [doc])[1..] == [];
    } else {
      assert (docs + [doc])[1..] == docs[1..] + [doc];
      OwnerAfterInsert(docs[1..], doc, id);
    }
  }

  // ---- Preservation.

  lemma StepKeeps(t: Tables, request: Request)
    requires Inv(t)
    ensures Inv(Step(t, request).0)
  {
    match request
    case Upload(owner, id) =>
      AnyIsMember(t.docs, id);
      if owner != "" && id != "" && FindAny(t.docs, id).None? {
        InsertKeepsDocsOk(t.docs, Doc(id, owner, false));
      }
    case Grant(actor, pair, permission, id) =>
      if Step(t, request).1 == Done {
        var row := Row(id, pair, permission, actor);
        UpsertKeepsRowsOk(t.rows, row);
        forall r | r in Upsert(t.rows, row) ensures Genuine(r) {
          UpsertElements(t.rows, row, r);
        }
      }
    case Revoke(actor, doc, id) =>
      WithoutKeepsRowsOk(t.rows, doc, id);
      forall r | r in Without(t.rows, doc, id) ensures r in t.rows {
        WithoutElements(t.rows, doc, id, r);
      }
    case Delete(actor, doc) =>
      MarkKeepsDocsOk(t.docs, doc);
    case DeleteAsAdmin(doc) =>
      MarkKeepsDocsOk(t.docs, doc);
  }

  lemma {:induction false} RunKeeps(t: Tables, requests: seq<Request>)
    requires Inv(t)
    ensures Inv(Run(t, requests))
    decreases |requests|
  {
    if requests != [] {
      StepKeeps(t, requests[0]);
      RunKeeps(Step(t, requests[0]).0, requests[1..]);
    }
  }

  lemma ReachableIsInv(t: Tables)
    requires Reachable(t)
    ensures Inv(t)
  {
    var requests :| t == Run(EMPTY, requests);
    RunKeeps(EMPTY, requests);
  }

  // ---- The query.

  lemma {:induction false} JoinedElements(rows: seq<Row>, pair: Pair, r: Row)
    ensures r in Joined(rows, pair) <==> r in rows && r.pair == pair
    decreases |rows|
  {
    if rows != [] {
      JoinedElements(rows[1..], pair, r);
      assert rows == [rows[0]] + rows[1..];
    }
  }

  ghost predicate Passes(doc: Doc, user: string, r: Row) {
    doc.owner == user || r.permission == VIEWER || r.permission == EDITOR
  }

  lemma {:induction false} CopiesElements(doc: Doc, user: string, joined: seq<Row>, d: Doc)
    ensures d in Copies(doc, user, joined) <==> d == doc && exists r :: r in joined && Passes(doc, user, r)
    decreases |joined|
  {
    if joined != [] {
      CopiesElements(doc, user, joined[1..], d);
      assert joined == [joined[0]] + joined[1..];
      if Passes(doc, user, joined[0]) {
        assert joined[0] in joined && Passes(doc, user, joined[0]);
      }
    }
  }

  ghost predicate Granted(rows: seq<Row>, pair: Pair) {
    exists r :: r in rows && r.pair == pair && (r.permission == VIEWER || r.permission == EDITOR)
  }

  lemma SelectedOne(rows: seq<Row>, doc: Doc, user: string, d: Doc)
    ensures d in SelectedOf(doc, user, Joined(rows, UserPair(doc.id, user))) <==>
            d == doc && !doc.deleted && (doc.owner == user || Granted(rows, UserPair(doc.id, user)))
  {
    var pair := UserPair(doc.id, user);
    var joined := Joined(rows, pair);
    forall r ensures r in joined <==> r in rows && r.pair == pair {
      JoinedElements(rows, pair, r);
    }
    CopiesElements(doc, user, joined, d);
    if joined != [] {
      assert joined[0] in joined;
      if doc.owner == user {
        assert Passes(doc, user, joined[0]);
      }
    }
    if Granted(rows, pair) {
      var r :| r in rows && r.pair == pair && (r.permission == VIEWER || r.permission == EDITOR);
      assert r in joined && Passes(doc, user, r);
    }
  }

  lemma {:induction false} SelectedElements(docs: seq<Doc>, rows: seq<Row>, user: string, d: Doc)
    ensures d in Selected(docs, rows, user) <==>
            d in docs && !d.deleted && (d.owner == user || Granted(rows, UserPair(d.id, user)))
    decreases |docs|
  {
    if docs != [] {
      SelectedElements(docs[1..], rows, user, d);
      SelectedOne(rows, docs[0], user, d);
      assert docs == [docs[0]] + docs[1..];
    }
  }

  lemma {:induction false} DeduplicatedElements(docs: seq<Doc>)
    ensures forall d :: d in Deduplicated(docs) <==> d in docs
    ensures Distinct(Deduplicated(docs))
    decreases |docs|
  {
    if docs != [] {
      var n := |docs| - 1;
      DeduplicatedElements(docs[..n]);
      assert docs == docs[..n] + [docs[n]];
    }
  }

  lemma {:induction false} SameIdSameDoc(docs: seq<Doc>, d: Doc, e: Doc)
    requires DocsOk(docs) && d in docs && e in docs && d.id == e.id
    ensures d == e
    decreases |docs|
  {
    assert docs == [docs[0]] + docs[1..];
    if d != docs[0] && e != docs[0] {
      SameIdSameDoc(docs[1..], d, e);
    }
  }

  /** A role means: an active document that the user owns or holds a granting row for. */
  lemma RoleMeans(t: Tables, user: string, doc: string)
    requires Inv(t) && user != ""
    ensures RoleOf(t, user, doc) != NoRole <==>
            exists owner :: Doc(doc, owner, false) in t.docs && (owner == user || Granted(t.rows, UserPair(doc, user)))
  {
    var pair := UserPair(doc, user);
    forall owner ensures OwnerOf(t.docs, doc) == Some(owner) <==> Doc(doc, owner, false) in t.docs {
      OwnerIsMember(t.docs, doc, owner);
    }
    forall r ensures FindPair(t.rows, pair) == Some(r) <==> r in t.rows && r.pair == pair {
      FindIsMember(t.rows, pair, r);
    }
    if OwnerOf(t.docs, doc).Some? {
      NoEmptyId(t.docs, Doc(doc, OwnerOf(t.docs, doc).value, false));
    }
  }

  ghost predicate HasRow(rows: seq<Row>, doc: string, user: string, permission: string) {
    exists r :: r in rows && r.pair == Pair(doc, "user", user) && r.permission == permission
  }

  /** An active document of somebody else. */
  ghost predicate OwnedByAnother(docs: seq<Doc>, doc: string, user: string) {
    exists owner :: owner != user && Doc(doc, owner, false) in docs
  }

  /** Which role, read off the tables. */
  ghost predicate RoleFits(t: Tables, user: string, doc: string, role: Role) {
    && (role == Owner <==> Doc(doc, user, false) in t.docs)
    && (role == Editor <==> OwnedByAnother(t.docs, doc, user) && HasRow(t.rows, doc, user, "editor"))
    && (role == Viewer <==> OwnedByAnother(t.docs, doc, user) && HasRow(t.rows, doc, user, "viewer"))
  }

  lemma RoleExactlyWhen(t: Tables, user: string, doc: string)
    requires Inv(t)
    ensures if user == "" || doc == "" then RoleOf(t, user, doc) == NoRole
            else RoleFits(t, user, doc, RoleOf(t, user, doc))
  {
    if user != "" && doc != "" {
      forall owner ensures OwnerOf(t.docs, doc) == Some(owner) <==> Doc(doc, owner, false) in t.docs {
        OwnerIsMember(t.docs, doc, owner);
      }
      forall r
        ensures FindPair(t.rows, UserPair(doc, user)) == Some(r) <==> r in t.rows && r.pair == UserPair(doc, user)
      {
        FindIsMember(t.rows, UserPair(doc, user), r);
      }
    }
  }

  lemma {:induction false} NoEmptyId(docs: seq<Doc>, d: Doc)
    requires DocsOk(docs) && d in docs
    ensures d.id != "" && d.owner != ""
    decreases |docs|
  {
    assert docs == [docs[0]] + docs[1..];
    if d != docs[0] {
      NoEmptyId(docs[1..], d);
    }
  }

  /**
    In every state reached by uploads, grants, revocations and deletions, the query lists
    exactly the documents on which the user has a role, each once.
   */
  lemma ListingAgreesWithRole(t: Tables, user: string)
    requires Reachable(t) && user != ""
    ensures Distinct(DocIds(Accessible(t, user)))
    ensures forall doc :: doc in DocIds(Accessible(t, user)) <==> RoleOf(t, user, doc) != NoRole
  {
    ReachableIsInv(t);
    InvListingAgrees(t, user);
  }

  lemma InvListingAgrees(t: Tables, user: string)
    requires Inv(t) && user != ""
    ensures Distinct(DocIds(Accessible(t, user)))
    ensures forall doc :: doc in DocIds(Accessible(t, user)) <==> RoleOf(t, user, doc) != NoRole
  {
    var listed := Accessible(t, user);
    DeduplicatedElements(Selected(t.docs, t.rows, user));
    forall d ensures d in listed <==>
                     d in t.docs && !d.deleted && (d.owner == user || Granted(t.rows, UserPair(d.id, user)))
    {
      SelectedElements(t.docs, t.rows, user, d);
    }
    forall i, j | 0 <= i < j < |listed| ensures listed[i].id != listed[j].id {
      assert listed[i] in listed && listed[j] in listed;
      if listed[i].id == listed[j].id {
        SameIdSameDoc(t.docs, listed[i], listed[j]);
      }
    }
    forall doc ensures doc in DocIds(listed) <==> RoleOf(t, user, doc) != NoRole {
      RoleMeans(t, user, doc);
      if doc in DocIds(listed) {
        var i :| 0 <= i < |listed| && DocIds(listed)[i] == doc;
        assert listed[i] in listed && listed[i] == Doc(doc, listed[i].owner, false);
      }
      if RoleOf(t, user, doc) != NoRole {
        var owner :| Doc(doc, owner, false) in t.docs && (owner == user || Granted(t.rows, UserPair(doc, user)));
        assert Doc(doc, owner, false) in listed;
        var i :| 0 <= i < |listed| && listed[i] == Doc(doc, owner, false);
        assert DocIds(listed)[i] == doc;
      }
    }
  }

  // ---- Grants and revocations.

  /** A grant that goes through sets the role of its own pair, never an owner's, and touches no other. */
  lemma GrantChangesOnlyItsPair(t: Tables, actor: string, pair: Pair, permission: string, id: string, user: string,
                                doc: string)
    ensures var (after, reply) := DoGrant(t, actor, pair, permission, id);
            RoleOf(after, user, doc) ==
            if reply == Done && user == pair.subject && doc == pair.doc && RoleOf(t, user, doc) != Owner
            then (if permission == "editor" then Editor else Viewer) else RoleOf(t, user, doc)
    ensures var (after, reply) := DoGrant(t, actor, pair, permission, id);
            reply == Done ==> RoleOf(after, pair.subject, pair.doc) != NoRole
    ensures DoGrant(t, actor, pair, permission, id).1 == Done <==>
            && pair.subjectType == "user" && pair.subject != "" && pair.doc != "" && id != ""
            && (permission == "editor" || permission == "viewer") && RoleOf(t, actor, pair.doc) == Owner
            && (FindPair(t.rows, pair).Some? || !HasRowId(t.rows, id))
  {
    if DoGrant(t, actor, pair, permission, id).1 == Done {
      var row := Row(id, pair, permission, actor);
      FindAfterUpsert(t.rows, row, UserPair(doc, user));
      FindAfterUpsert(t.rows, row, UserPair(pair.doc, pair.subject));
      assert RoleOf(t, actor, pair.doc) == Owner;
      assert OwnerOf(t.docs, pair.doc).Some?;
    }
  }

  lemma WithoutUnknown(rows: seq<Row>, doc: string, id: string)
    requires !HasRowId(rows, id)
    ensures Without(rows, doc, id) == rows
  {
    forall r | r in rows ensures r.id != id {
      var i :| 0 <= i < |rows| && rows[i] == r;
    }
    KeepsOthers(rows, doc, id);
  }

  lemma {:induction false} WithoutLast(rows: seq<Row>, row: Row)
    requires !HasRowId(rows, row.id)
    ensures Without(rows + [row], row.pair.doc, row.id) == rows
    decreases |rows|
  {
    if rows == [] {
      assert (rows + [row])[1..] == [];
    } else {
      assert (rows + [row])[1..] == rows[1..] + [row];
      assert rows[0].id != row.id;
      assert forall i :: 0 <= i < |rows[1..]| ==> rows[1..][i] == rows[i + 1];
      WithoutLast(rows[1..], row);
    }
  }

  /**
    Revoking with the id a grant answered undoes the grant exactly when the pair had no row
    before. Otherwise the old row kept its own id: the revocation finds nothing and the
    granted role stays.
   */
  lemma RevokeUndoesFirstGrantOnly(t: Tables, actor: string, pair: Pair, permission: string, id: string)
    requires DoGrant(t, actor, pair, permission, id).1 == Done
    requires !HasRowId(t.rows, id)
    ensures var granted := DoGrant(t, actor, pair, permission, id).0;
            DoRevoke(granted, actor, pair.doc, id) ==
            if FindPair(t.rows, pair).None? then (t, Done) else (granted, NotFound)
  {
    var row := Row(id, pair, permission, actor);
    var granted := DoGrant(t, actor, pair, permission, id).0;
    FindAfterUpsert(t.rows, row, UserPair(pair.doc, actor));
    assert RoleOf(granted, actor, pair.doc) == Owner;
    if FindPair(t.rows, pair).None? {
      UpsertOfUnknown(t.rows, row);
      WithoutLast(t.rows, row);
    } else {
      UpsertOfKnown(t.rows, row);
      WithoutUnknown(granted.rows, pair.doc, id);
    }
  }

  /** The id a second grant answers revokes nothing: upload, grant, grant again, revoke. */
  lemma RegrantCannotBeRevoked(owner: string, friend: string, doc: string, first: string, second: string)
    requires owner != "" && friend != "" && owner != friend && doc != ""
    requires first != "" && second != "" && first != second
    ensures var pair := UserPair(doc, friend);
            var t := Run(EMPTY, [Upload(owner, doc), Grant(owner, pair, VIEWER, first),
                                 Grant(owner, pair, EDITOR, second)]);
            DoRevoke(t, owner, doc, second) == (t, NotFound) && RoleOf(t, friend, doc) == Editor
  {
    var pair := UserPair(doc, friend);
    var t0 := Tables([Doc(doc, owner, false)], []);
    var t1 := Tables([Doc(doc, owner, false)], [Row(first, pair, VIEWER, owner)]);
    var e0, e1, e2 := Upload(owner, doc), Grant(owner, pair, VIEWER, first), Grant(owner, pair, EDITOR, second);
    assert [] + t0.docs == t0.docs && t0.docs[1..] == [];
    assert Step(EMPTY, e0) == (t0, Done);
    assert RoleOf(t0, owner, doc) == Owner;
    assert Step(t0, e1) == (t1, Done);
    assert [e0, e1, e2][1..] == [e1, e2] && [e1, e2][1..] == [e2] && [e2][1..] == [];
    assert Run(EMPTY, [e0, e1, e2]) == Run(t1, [e2]) == Step(t1, e2).0;
    RevokeUndoesFirstGrantOnly(t1, owner, pair, EDITOR, second);
    GrantChangesOnlyItsPair(t1, owner, pair, EDITOR, second, friend, doc);
  }

  /** Whether this user's row on the document is the one with the id. */
  ghost predicate HoldsRow(rows: seq<Row>, user: string, doc: string, id: string) {
    FindPair(rows, UserPair(doc, user)).Some? && FindPair(rows, UserPair(doc, user)).value.id == id
  }

  /**
    A revocation by the owner goes through exactly when some user holds the row on the document.
    It takes that user's role, unless they own the document, and nobody else's.
   */
  lemma RevokeTakesOnlyItsRole(t: Tables, actor: string, doc: string, id: string, user: string, d: string)
    requires Inv(t) && id != "" && RoleOf(t, actor, doc) == Owner
    ensures var (after, reply) := DoRevoke(t, actor, doc, id);
            (reply == Done <==> exists u :: HoldsRow(t.rows, u, doc, id))
            && RoleOf(after, user, d) ==
               if d == doc && HoldsRow(t.rows, user, doc, id) && RoleOf(t, user, doc) != Owner then NoRole
               else RoleOf(t, user, d)
  {
    FindAfterWithout(t.rows, doc, id, UserPair(d, user));
    if exists u :: HoldsRow(t.rows, u, doc, id) {
      var u :| HoldsRow(t.rows, u, doc, id);
      FindAfterWithout(t.rows, doc, id, UserPair(doc, u));
      if |Without(t.rows, doc, id)| == |t.rows| {
        NothingRemoved(t.rows, doc, id);
      }
    } else {
      forall r | r in t.rows ensures !(r.pair.doc == doc && r.id == id) {
        FindIsMember(t.rows, r.pair, r);
        assert Genuine(r) && r.pair == UserPair(r.pair.doc, r.pair.subject);
        assert !HoldsRow(t.rows, r.pair.subject, doc, id);
      }
      KeepsOthers(t.rows, doc, id);
    }
  }

  lemma {:induction false} NothingRemoved(rows: seq<Row>, doc: string, id: string)
    requires |Without(rows, doc, id)| == |rows|
    ensures Without(rows, doc, id) == rows
    decreases |rows|
  {
    if rows != [] {
      NothingRemoved(rows[1..], doc, id);
    }
  }

  lemma {:induction false} KeepsOthers(rows: seq<Row>, doc: string, id: string)
    requires forall r :: r in rows ==> !(r.pair.doc == doc && r.id == id)
    ensures Without(rows, doc, id) == rows
    decreases |rows|
  {
    if rows != [] {
      assert rows[0] in rows;
      KeepsOthers(rows[1..], doc, id);
    }
  }

  // ---- Whole runs.

  ghost predicate TouchedBy(request: Request, owner: string, doc: string) {
    match request
    case Upload(_, _) => false
    case Grant(actor, pair, _, _) => actor == owner && pair.doc == doc
    case Revoke(actor, d, _) => actor == owner && d == doc
    case Delete(actor, d) => actor == owner && d == doc
    case DeleteAsAdmin(d) => d == doc
  }

  ghost predicate SameRoles(t: Tables, after: Tables, doc: string) {
    forall user :: RoleOf(after, user, doc) == RoleOf(t, user, doc)
  }

  lemma FindAfterWithout(rows: seq<Row>, doc: string, id: string, pair: Pair)
    requires RowsOk(rows)
    ensures FindPair(Without(rows, doc, id), pair) ==
            if FindPair(rows, pair).Some? && pair.doc == doc && FindPair(rows, pair).value.id == id then None
            else FindPair(rows, pair)
  {
    var left := Without(rows, doc, id);
    WithoutKeepsRowsOk(rows, doc, id);
    forall r ensures r in left <==> r in rows && !(r.pair.doc == doc && r.id == id) {
      WithoutElements(rows, doc, id, r);
    }
    if FindPair(rows, pair).Some? {
      FindIsMember(rows, pair, FindPair(rows, pair).value);
      FindIsMember(left, pair, FindPair(rows, pair).value);
    }
    if FindPair(left, pair).Some? {
      FindIsMember(left, pair, FindPair(left, pair).value);
      FindIsMember(rows, pair, FindPair(left, pair).value);
    }
  }

  lemma StepByOthersKeepsRoles(t: Tables, request: Request, owner: string, doc: string)
    requires Inv(t) && doc != "" && OwnerOf(t.docs, doc) == Some(owner)
    requires !TouchedBy(request, owner, doc)
    ensures OwnerOf(Step(t, request).0.docs, doc) == Some(owner)
    ensures SameRoles(t, Step(t, request).0, doc)
  {
    match request
    case Upload(o, id) =>
      if Step(t, request).1 == Done {
        OwnerAfterInsert(t.docs, Doc(id, o, false), doc);
        OwnerIsMember(t.docs, doc, owner);
        AnyIsMember(t.docs, id);
      }
    case Grant(actor, pair, permission, id) =>
      forall user ensures RoleOf(Step(t, request).0, user, doc) == RoleOf(t, user, doc) {
        GrantChangesOnlyItsPair(t, actor, pair, permission, id, user, doc);
      }
    case Revoke(actor, d, id) =>
      forall user ensures RoleOf(Step(t, request).0, user, doc) == RoleOf(t, user, doc) {
        FindAfterWithout(t.rows, d, id, UserPair(doc, user));
      }
    case Delete(actor, d) =>
      OwnerAfterMark(t.docs, d, doc);
    case DeleteAsAdmin(d) =>
      OwnerAfterMark(t.docs, d, doc);
  }

  /** Nobody's role on a document changes in a run without a request by its owner or an admin deletion of it. */
  lemma {:induction false} OnlyTheOwnerChangesRoles(t: Tables, requests: seq<Request>, owner: string, doc: string)
    requires Inv(t) && doc != "" && OwnerOf(t.docs, doc) == Some(owner)
    requires forall i :: 0 <= i < |requests| ==> !TouchedBy(requests[i], owner, doc)
    ensures OwnerOf(Run(t, requests).docs, doc) == Some(owner)
    ensures SameRoles(t, Run(t, requests), doc)
    decreases |requests|
  {
    if requests != [] {
      assert !TouchedBy(requests[0], owner, doc);
      StepKeeps(t, requests[0]);
      StepByOthersKeepsRoles(t, requests[0], owner, doc);
      OnlyTheOwnerChangesRoles(Step(t, requests[0]).0, requests[1..], owner, doc);
    }
  }

  lemma StepKeepsDocRow(t: Tables, request: Request, d: Doc)
    requires d in t.docs
    ensures var docs := Step(t, request).0.docs;
            d in docs || (!d.deleted && d.(deleted := true) in docs)
  {
    match request
    case Upload(_, _) =>
    case Grant(_, _, _, _) =>
    case Revoke(_, _, _) =>
    case Delete(_, doc) =>
      MarkedElements(t.docs, doc, d);
      MarkedElements(t.docs, doc, d.(deleted := true));
    case DeleteAsAdmin(doc) =>
      MarkedElements(t.docs, doc, d);
      MarkedElements(t.docs, doc, d.(deleted := true));
  }

  /** The owner of a document never changes, and a deleted one is never restored nor visible again. */
  lemma {:induction false} OwnershipIsPermanent(t: Tables, requests: seq<Request>, d: Doc)
    requires Inv(t) && d in t.docs
    ensures d in Run(t, requests).docs || (!d.deleted && d.(deleted := true) in Run(t, requests).docs)
    decreases |requests|
  {
    if requests != [] {
      StepKeeps(t, requests[0]);
      StepKeepsDocRow(t, requests[0], d);
      var next := Step(t, requests[0]).0;
      if d in next.docs {
        OwnershipIsPermanent(next, requests[1..], d);
      } else {
        OwnershipIsPermanent(next, requests[1..], d.(deleted := true));
      }
    }
  }

  lemma DeletedStaysHidden(t: Tables, requests: seq<Request>, d: Doc, user: string)
    requires Inv(t) && d in t.docs && d.deleted
    ensures RoleOf(Run(t, requests), user, d.id) == NoRole
  {
    OwnershipIsPermanent(t, requests, d);
    RunKeeps(t, requests);
    var after := Run(t, requests);
    if OwnerOf(after.docs, d.id).Some? {
      var owner := OwnerOf(after.docs, d.id).value;
      OwnerIsMember(after.docs, d.id, owner);
      SameIdSameDoc(after.docs, d, Doc(d.id, owner, false));
    }
  }
}
