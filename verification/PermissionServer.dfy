/** The permission service and the two tables it reads and updates in place. */
module PermissionServer {
  import opened Common
  import opened Permission
  import Theorems = PermissionTheorems

  class PermissionStore {
    var documents: seq<Doc>
    var permissions: seq<Row>

    constructor ()
      ensures Valid() && Current() == EMPTY
    {
      documents, permissions := [], [];
    }

    ghost function Current(): Tables
      reads this
    {
      Tables(documents, permissions)
    }

    /** Primary keys, the unique index, and rows that name a user and a real permission. */
    ghost predicate Valid()
      reads this
    {
      Theorems.Inv(Current())
    }

    // ---- The repository.

    /** Some owner exactly when an active row has the id. */
    method DocumentOwnerID(doc: string) returns (owner: Option<string>)
      requires Valid()
      ensures forall o :: owner == Some(o) <==> Doc(doc, o, false) in documents
      ensures owner == OwnerOf(documents, doc)
    {
      var i := 0;
      while i < |documents|
        invariant 0 <= i <= |documents|
        invariant OwnerOf(documents, doc) == OwnerOf(documents[i..], doc)
      {
        if documents[i].id == doc && !documents[i].deleted {
          OwnedExactlyWhen(documents, doc);
          return Some(documents[i].owner);
        }
        i := i + 1;
      }
      OwnedExactlyWhen(documents, doc);
      owner := None;
    }

    /** Some row exactly when the table has it for this user and document. */
    method FindForUser(doc: string, user: string) returns (row: Option<Row>)
      requires Valid()
      ensures forall r :: row == Some(r) <==> r in permissions && r.pair == UserPair(doc, user)
      ensures row == FindPair(permissions, UserPair(doc, user))
    {
      var i := 0;
      while i < |permissions|
        invariant 0 <= i <= |permissions|
        invariant FindPair(permissions, UserPair(doc, user)) == FindPair(permissions[i..], UserPair(doc, user))
      {
        if permissions[i].pair == UserPair(doc, user) {
          FoundExactlyWhen(permissions, UserPair(doc, user));
          return Some(permissions[i]);
        }
        i := i + 1;
      }
      FoundExactlyWhen(permissions, UserPair(doc, user));
      row := None;
    }

    /**
      The insert with ON CONFLICT DO UPDATE. Afterwards the pair has one row, with the new
      permission and the id it had before, if any; every row of another pair is as it was.
     */
    method CreateRow(row: Row) returns (ok: bool)
      requires Valid() && Theorems.Genuine(row)
      modifies this`permissions
      ensures Valid()
      ensures ok <==> FindPair(old(permissions), row.pair).Some? || !HasRowId(old(permissions), row.id)
      ensures !ok ==> permissions == old(permissions)
      ensures ok ==> permissions == Upsert(old(permissions), row)
      ensures ok ==> forall r: Row :: r.pair != row.pair ==> (r in permissions <==> r in old(permissions))
      ensures ok ==> forall r :: r in permissions && r.pair == row.pair <==>
                r == row.(id := if FindPair(old(permissions), row.pair).Some?
                                then FindPair(old(permissions), row.pair).value.id else row.id)
    {
      if FindPair(permissions, row.pair).None? && HasRowId(permissions, row.id) { return false; }
      UpsertRows(permissions, row);
      permissions := Upsert(permissions, row);
      ok := true;
    }

    /** The row with this id on this document goes, every other one stays; `ok` when there was one. */
    method DeleteRow(doc: string, id: string) returns (ok: bool)
      requires Valid()
      modifies this`permissions
      ensures Valid()
      ensures forall r :: r in permissions <==> r in old(permissions) && !(r.pair.doc == doc && r.id == id)
      ensures ok <==> exists r :: r in old(permissions) && r.pair.doc == doc && r.id == id
      ensures permissions == Without(old(permissions), doc, id)
      ensures ok <==> |permissions| != |old(permissions)|
    {
      var left := Without(permissions, doc, id);
      ok := |left| != |permissions|;
      DeletedRows(permissions, doc, id);
      permissions := left;
    }

    // ---- The service.

    /**
      Owner exactly for the owner of the active document, Editor and Viewer exactly for another user
      with an "editor" or "viewer" row on it.
     */
    method Role(user: string, doc: string) returns (role: Role)
      requires Valid()
      ensures role == RoleOf(Current(), user, doc)
      ensures if user == "" || doc == "" then role == NoRole else Theorems.RoleFits(Current(), user, doc, role)
    {
      Theorems.RoleExactlyWhen(Current(), user, doc);
      if user == "" || doc == "" { return NoRole; }
      var owner := DocumentOwnerID(doc);
      if owner.None? { return NoRole; }
      if owner.value == user { return Owner; }
      var row := FindForUser(doc, user);
      if row.None? { return NoRole; }
      if row.value.permission != EDITOR && row.value.permission != VIEWER { return NoRole; }
      role := if row.value.permission == EDITOR then Editor else Viewer;
    }

    method CanView(user: string, doc: string) returns (ok: bool)
      requires Valid()
      ensures ok <==> RoleOf(Current(), user, doc) != NoRole
    {
      var role := Role(user, doc);
      ok := role == Owner || role == Editor || role == Viewer;
    }

    /** True exactly for the owner and for the holder of an "editor" row on the active document. */
    method CanEdit(user: string, doc: string) returns (ok: bool)
      requires Valid()
      ensures ok <==> RoleOf(Current(), user, doc) == Owner || RoleOf(Current(), user, doc) == Editor
      ensures ok <==> user != "" && doc != "" &&
                      (Doc(doc, user, false) in documents
                       || (Theorems.OwnedByAnother(documents, doc, user)
                           && Theorems.HasRow(permissions, doc, user, "editor")))
    {
      var role := Role(user, doc);
      ok := role == Owner || role == Editor;
    }

    method CanManage(user: string, doc: string) returns (ok: bool)
      requires Valid()
      ensures ok <==> RoleOf(Current(), user, doc) == Owner
    {
      var role := Role(user, doc);
      ok := role == Owner;
    }

    /** A grant that goes through leaves its subject with a role, and no other pair's role changed. */
    method Grant(actor: string, pair: Pair, permission: string, id: string) returns (reply: Reply)
      requires Valid()
      modifies this`permissions
      ensures Valid()
      ensures (Current(), reply) == DoGrant(old(Current()), actor, pair, permission, id)
      ensures forall user, doc ::
                RoleOf(Current(), user, doc) ==
                if reply == Done && user == pair.subject && doc == pair.doc
                   && RoleOf(old(Current()), user, doc) != Owner
                then (if permission == "editor" then Editor else Viewer) else RoleOf(old(Current()), user, doc)
      ensures reply == Done <==>
              && pair.subjectType == "user" && pair.subject != "" && pair.doc != "" && id != ""
              && (permission == "editor" || permission == "viewer") && RoleOf(old(Current()), actor, pair.doc) == Owner
              && (FindPair(old(permissions), pair).Some? || !HasRowId(old(permissions), id))
    {
      forall user, doc {
        Theorems.GrantChangesOnlyItsPair(Current(), actor, pair, permission, id, user, doc);
      }
      if pair.subjectType != SUBJECT_USER || pair.subject == "" || pair.doc == "" { return InvalidInput; }
      if permission != EDITOR && permission != VIEWER { return InvalidInput; }
      var canManage := CanManage(actor, pair.doc);
      if !canManage { return Forbidden; }
      if id == "" { return Refused; }
      var ok := CreateRow(Row(id, pair, permission, actor));
      reply := if ok then Done else Refused;
    }

    /** A revocation takes the role of the user who held the row, unless they own the document, and no other. */
    method Delete(actor: string, doc: string, id: string) returns (reply: Reply)
      requires Valid()
      modifies this`permissions
      ensures Valid()
      ensures (Current(), reply) == DoRevoke(old(Current()), actor, doc, id)
      ensures reply == Done ==> forall user, d ::
                RoleOf(Current(), user, d) ==
                if d == doc && Theorems.HoldsRow(old(permissions), user, doc, id)
                   && RoleOf(old(Current()), user, doc) != Owner
                then NoRole else RoleOf(old(Current()), user, d)
    {
      if id != "" && RoleOf(Current(), actor, doc) == Owner {
        forall user, d { Theorems.RevokeTakesOnlyItsRole(Current(), actor, doc, id, user, d); }
      }
      if id == "" || doc == "" { return InvalidInput; }
      var canManage := CanManage(actor, doc);
      if !canManage { return Forbidden; }
      ghost var before := permissions;
      var ok := DeleteRow(doc, id);
      if !ok { Theorems.NothingRemoved(before, doc, id); }
      reply := if ok then Done else NotFound;
    }

    method UploadDocument(owner: string, id: string) returns (reply: Reply)
      requires Valid()
      modifies this`documents
      ensures Valid()
      ensures (Current(), reply) == DoUpload(old(Current()), owner, id)
      ensures reply == Done <==> owner != "" && id != "" && forall d :: d in old(documents) ==> d.id != id
      ensures documents == if reply == Done then old(documents) + [Doc(id, owner, false)] else old(documents)
      ensures reply == Done ==> RoleOf(Current(), owner, id) == Owner
    {
      Theorems.AnyIsMember(documents, id);
      Theorems.StepKeeps(Current(), Upload(owner, id));
      if owner == "" { return InvalidInput; }
      if id == "" || FindAny(documents, id).Some? { return Refused; }
      Theorems.OwnerAfterInsert(documents, Doc(id, owner, false), id);
      documents := documents + [Doc(id, owner, false)];
      reply := Done;
    }

    method SoftDeleteAdmin(doc: string) returns (reply: Reply)
      requires Valid()
      modifies this`documents
      ensures Valid()
      ensures (Current(), reply) == DoDeleteAsAdmin(old(Current()), doc)
      ensures forall user :: RoleOf(Current(), user, doc) == NoRole
      ensures reply == Done <==> exists owner :: doc != "" && Doc(doc, owner, false) in old(documents)
    {
      Theorems.StepKeeps(Current(), DeleteAsAdmin(doc));
      if doc == "" { return Forbidden; }
      var owner := DocumentOwnerID(doc);
      if owner.None? { return NotFound; }
      Theorems.OwnerAfterMark(documents, doc, doc);
      documents := MarkDeleted(documents, doc);
      reply := Done;
    }

    method DeleteDocument(actor: string, doc: string) returns (reply: Reply)
      requires Valid()
      modifies this`documents
      ensures Valid()
      ensures (Current(), reply) == DoDelete(old(Current()), actor, doc)
      ensures reply == Done ==> forall user :: RoleOf(Current(), user, doc) == NoRole
    {
      if actor == "" || doc == "" { return Forbidden; }
      var canDelete := CanManage(actor, doc);
      if !canDelete { return Forbidden; }
      reply := SoftDeleteAdmin(doc);
    }

    /** Scans the joined rows, keeping the first copy of each document: exactly those with a role, each once. */
    method ListAccessible(user: string) returns (docs: seq<Doc>)
      requires Valid()
      ensures docs == Accessible(Current(), user)
      ensures user != "" ==>
                Distinct(DocIds(docs)) && forall doc :: doc in DocIds(docs) <==> RoleOf(Current(), user, doc) != NoRole
    {
      var joined := Selected(documents, permissions, user);
      docs := [];
      var i := 0;
      while i < |joined|
        invariant 0 <= i <= |joined|
        invariant docs == Deduplicated(joined[..i])
      {
        assert joined[..i + 1][..i] == joined[..i];
        if joined[i] !in docs { docs := docs + [joined[i]]; }
        i := i + 1;
      }
      assert joined[..|joined|] == joined;
      if user != "" {
        Theorems.InvListingAgrees(Current(), user);
      }
    }
  }

  /** On new tables: a document is listed for nobody but its owner until it is granted, and then for its subject. */
  method UploadThenGrant(owner: string, friend: string, doc: string, permission: string, id: string)
    returns (before: seq<Doc>, after: seq<Doc>)
    requires owner != "" && friend != "" && owner != friend && doc != "" && id != ""
    requires permission == EDITOR || permission == VIEWER
    ensures DocIds(before) == [] && DocIds(after) == [doc]
  {
    var store := new PermissionStore();
    var reply := store.UploadDocument(owner, doc);
    FirstGrant(owner, friend, doc, permission, id);
    forall d { FirstUpload(owner, doc, friend, d); }
    before := store.ListAccessible(friend);
    NothingListed(DocIds(before));
    reply := store.Grant(owner, UserPair(doc, friend), permission, id);
    assert forall d :: RoleOf(store.Current(), friend, d) ==
                       if d != doc then NoRole else if permission == EDITOR then Editor else Viewer;
    after := store.ListAccessible(friend);
    OneListed(DocIds(after), doc);
  }

  lemma FirstUpload(owner: string, doc: string, user: string, d: string)
    requires owner != "" && doc != ""
    ensures DoUpload(EMPTY, owner, doc) == (Tables([Doc(doc, owner, false)], []), Done)
    ensures RoleOf(DoUpload(EMPTY, owner, doc).0, user, d) == if d == doc && user == owner then Owner else NoRole
  {
    var docs := [Doc(doc, owner, false)];
    assert [] + docs == docs && docs[1..] == [];
    assert OwnerOf(docs, d) == if d == doc then Some(owner) else None;
  }

  lemma FirstGrant(owner: string, friend: string, doc: string, permission: string, id: string)
    requires owner != "" && friend != "" && doc != "" && id != "" && (permission == EDITOR || permission == VIEWER)
    ensures DoGrant(DoUpload(EMPTY, owner, doc).0, owner, UserPair(doc, friend), permission, id).1 == Done
  {
    FirstUpload(owner, doc, owner, doc);
  }

  lemma NothingListed(ids: seq<string>)
    requires forall x :: x !in ids
    ensures ids == []
  {
    if ids != [] { MemberAt(ids, 0); }
  }

  lemma OneListed(ids: seq<string>, doc: string)
    requires Distinct(ids) && forall x :: x in ids <==> x == doc
    ensures ids == [doc]
  {
    assert doc in ids;
    MemberAt(ids, 0);
    if |ids| > 1 { MemberAt(ids, 1); }
  }

  lemma MemberAt(ids: seq<string>, i: nat)
    requires i < |ids|
    ensures ids[i] in ids
  {
  }

  // ---- The table operations, row by row.

  lemma OwnedExactlyWhen(docs: seq<Doc>, id: string)
    requires Theorems.DocsOk(docs)
    ensures forall o :: OwnerOf(docs, id) == Some(o) <==> Doc(id, o, false) in docs
  {
    forall o ensures OwnerOf(docs, id) == Some(o) <==> Doc(id, o, false) in docs {
      Theorems.OwnerIsMember(docs, id, o);
    }
  }

  lemma FoundExactlyWhen(rows: seq<Row>, pair: Pair)
    requires Theorems.RowsOk(rows)
    ensures forall r :: FindPair(rows, pair) == Some(r) <==> r in rows && r.pair == pair
  {
    forall r ensures FindPair(rows, pair) == Some(r) <==> r in rows && r.pair == pair {
      Theorems.FindIsMember(rows, pair, r);
    }
  }

  lemma UpsertRows(rows: seq<Row>, row: Row)
    requires Theorems.RowsOk(rows) && Theorems.Genuine(row) && forall r :: r in rows ==> Theorems.Genuine(r)
    requires FindPair(rows, row.pair).Some? || !HasRowId(rows, row.id)
    ensures var after := Upsert(rows, row);
            Theorems.RowsOk(after) && (forall r :: r in after ==> Theorems.Genuine(r))
    ensures forall r: Row :: r.pair != row.pair ==> (r in Upsert(rows, row) <==> r in rows)
    ensures forall r :: r in Upsert(rows, row) && r.pair == row.pair <==>
              r == row.(id := if FindPair(rows, row.pair).Some? then FindPair(rows, row.pair).value.id else row.id)
  {
    var after := Upsert(rows, row);
    Theorems.UpsertKeepsRowsOk(rows, row);
    forall r | r in after ensures Theorems.Genuine(r) {
      Theorems.UpsertElements(rows, row, r);
    }
    forall r: Row ensures r.pair != row.pair ==> (r in after <==> r in rows) {
      Theorems.FindAfterUpsert(rows, row, r.pair);
      Theorems.FindIsMember(rows, r.pair, r);
      Theorems.FindIsMember(after, r.pair, r);
    }
    Theorems.FindAfterUpsert(rows, row, row.pair);
    forall r ensures r in after && r.pair == row.pair <==> FindPair(after, row.pair) == Some(r) {
      Theorems.FindIsMember(after, row.pair, r);
    }
  }

  lemma DeletedRows(rows: seq<Row>, doc: string, id: string)
    requires Theorems.RowsOk(rows)
    ensures Theorems.RowsOk(Without(rows, doc, id))
    ensures forall r :: r in Without(rows, doc, id) <==> r in rows && !(r.pair.doc == doc && r.id == id)
    ensures |Without(rows, doc, id)| != |rows| <==> exists r :: r in rows && r.pair.doc == doc && r.id == id
  {
    Theorems.WithoutKeepsRowsOk(rows, doc, id);
    forall r ensures r in Without(rows, doc, id) <==> r in rows && !(r.pair.doc == doc && r.id == id) {
      Theorems.WithoutElements(rows, doc, id, r);
    }
    if |Without(rows, doc, id)| == |rows| {
      Theorems.NothingRemoved(rows, doc, id);
    } else if forall r :: r in rows ==> !(r.pair.doc == doc && r.id == id) {
      Theorems.KeepsOthers(rows, doc, id);
    }
  }
}
