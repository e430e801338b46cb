// The rows of the backend's tables and the SQL predicates the handlers put
// on them: ownership (`user_id = $caller`), liveness (`deleted_at is null`),
// listing in creation order, soft delete and in-place update. Rows are kept
// in creation order; ids are handed out in increasing order, so id order is
// creation order too.

module Tables {
  import opened Common

  /** A user-owned row: its id, its owner, its payload and its soft-delete
      stamp. */
  datatype Row<T> = Row(id: Id, owner: Id, data: T, deletedAt: Option<Time>)

  predicate Live<T>(r: Row<T>)
  {
    r.deletedAt.None?
  }

  /** `select ... where user_id = $owner and deleted_at is null order by created_at`. */
  function ListLive<T>(rows: seq<Row<T>>, owner: Id): (r: seq<Row<T>>)
    ensures forall k :: 0 <= k < |r| ==> r[k] in rows && r[k].owner == owner && Live(r[k])
    ensures forall k :: 0 <= k < |rows| && rows[k].owner == owner && Live(rows[k]) ==> rows[k] in r
  {
    if rows == [] then []
    else
      var last := rows[|rows| - 1];
      assert rows == rows[..|rows| - 1] + [last];
      ListLive(rows[..|rows| - 1], owner) + (if last.owner == owner && Live(last) then [last] else [])
  }

  /** `select ... where user_id = $owner order by created_at`: every row of the
      owner, soft-deleted ones included. */
  function ListOwned<T>(rows: seq<Row<T>>, owner: Id): (r: seq<Row<T>>)
    ensures forall k :: 0 <= k < |r| ==> r[k] in rows && r[k].owner == owner
    ensures forall k :: 0 <= k < |rows| && rows[k].owner == owner ==> rows[k] in r
  {
    if rows == [] then []
    else
      var last := rows[|rows| - 1];
      assert rows == rows[..|rows| - 1] + [last];
      ListOwned(rows[..|rows| - 1], owner) + (if last.owner == owner then [last] else [])
  }

  /** Listing distributes over a table grown by later rows, so a listing
      keeps the table's (creation) order. */
  lemma {:induction false} ListLiveAppend<T>(a: seq<Row<T>>, b: seq<Row<T>>, owner: Id)
    ensures ListLive(a + b, owner) == ListLive(a, owner) + ListLive(b, owner)
    decreases |b|
  {
    if b != [] {
      var b' := b[..|b| - 1];
      assert (a + b)[..|a + b| - 1] == a + b';
      ListLiveAppend(a, b', owner);
    } else {
      assert a + b == a;
    }
  }

  /** The first live row with this id owned by `owner`: the join condition
      `x.id = $id and x.user_id = $owner and x.deleted_at is null`. */
  function FindLiveOwned<T>(rows: seq<Row<T>>, id: Id, owner: Id): (r: Option<Row<T>>)
    ensures r.Some? ==> r.value in rows && r.value.id == id && r.value.owner == owner && Live(r.value)
    ensures r.Some? ==> OwnedRow(rows, id, owner)
    ensures r.None? ==> forall x :: x in rows && x.id == id && x.owner == owner ==> !Live(x)
  {
    if rows == [] then None
    else if rows[0].id == id && rows[0].owner == owner && Live(rows[0]) then Some(rows[0])
    else
      assert forall x :: x in rows ==> x == rows[0] || x in rows[1..];
      FindLiveOwned(rows[1..], id, owner)
  }

  /** The owner of the row with this id, if there is one. */
  function OwnerOf<T>(rows: seq<Row<T>>, id: Id): (r: Option<Id>)
    ensures r.Some? <==> exists i :: 0 <= i < |rows| && rows[i].id == id
    ensures r.Some? ==> exists i :: 0 <= i < |rows| && rows[i].id == id && rows[i].owner == r.value
  {
    if rows == [] then None
    else if rows[0].id == id then Some(rows[0].owner)
    else
      var r := OwnerOf(rows[1..], id);
      assert forall i :: 1 <= i < |rows| ==> rows[i] == rows[1..][i - 1];
      r
  }

  /** Whether some row (live or not) with this id belongs to `owner`. */
  predicate OwnedRow<T>(rows: seq<Row<T>>, id: Id, owner: Id)
  {
    exists i :: 0 <= i < |rows| && rows[i].id == id && rows[i].owner == owner
  }

  /** `update <table> set deleted_at = now() where id = $id and user_id = $owner`.
      Only rows with that id AND that owner are stamped (again, if they
      already were); every other row is left exactly as it was. */
  function SoftDelete<T>(rows: seq<Row<T>>, id: Id, owner: Id, now: Time): (r: seq<Row<T>>)
    ensures |r| == |rows|
    ensures forall i :: 0 <= i < |rows| ==> r[i] == if rows[i].id == id && rows[i].owner == owner
                                                    then rows[i].(deletedAt := Some(now)) else rows[i]
  {
    if rows == [] then []
    else
      var last := rows[|rows| - 1];
      SoftDelete(rows[..|rows| - 1], id, owner, now)
        + [if last.id == id && last.owner == owner then last.(deletedAt := Some(now)) else last]
  }

  /** `update <table> set ... where id = $id and user_id = $owner`: the
      payload of the caller's row with that id is replaced; its soft-delete
      stamp is kept (the handlers do not look at it). */
  function Replace<T>(rows: seq<Row<T>>, id: Id, owner: Id, data: T): (r: seq<Row<T>>)
    ensures |r| == |rows|
    ensures forall i :: 0 <= i < |rows| ==> r[i] == if rows[i].id == id && rows[i].owner == owner
                                                    then rows[i].(data := data) else rows[i]
  {
    if rows == [] then []
    else
      var last := rows[|rows| - 1];
      Replace(rows[..|rows| - 1], id, owner, data)
        + [if last.id == id && last.owner == owner then last.(data := data) else last]
  }

  /** The index of the first row with this id owned by `owner` (live or not),
      the row an update statement matches. */
  function IndexOwned<T>(rows: seq<Row<T>>, id: Id, owner: Id): (r: Option<nat>)
    ensures r.Some? ==> r.value < |rows| && rows[r.value].id == id && rows[r.value].owner == owner
    ensures r.None? <==> !OwnedRow(rows, id, owner)
  {
    if rows == [] then None
    else if rows[0].id == id && rows[0].owner == owner then Some(0)
    else
      var r := IndexOwned(rows[1..], id, owner);
      assert forall i :: 1 <= i < |rows| ==> rows[i] == rows[1..][i - 1];
      if r.Some? then Some(r.value + 1) else None
  }

  /** A listing without the rows carrying `id`. */
  function WithoutId<T>(rows: seq<Row<T>>, id: Id): (r: seq<Row<T>>)
    ensures forall k :: 0 <= k < |r| ==> r[k] in rows && r[k].id != id
    ensures forall k :: 0 <= k < |rows| && rows[k].id != id ==> rows[k] in r
  {
    if rows == [] then []
    else
      var last := rows[|rows| - 1];
      assert rows == rows[..|rows| - 1] + [last];
      WithoutId(rows[..|rows| - 1], id) + (if last.id != id then [last] else [])
  }

  /** After a delete the caller's listing is the old one without that id, in
      the same order. */
  lemma {:induction false} SoftDeleteListing<T>(rows: seq<Row<T>>, id: Id, owner: Id, now: Time)
    ensures ListLive(SoftDelete(rows, id, owner, now), owner) == WithoutId(ListLive(rows, owner), id)
  {
    if rows != [] {
      var front := rows[..|rows| - 1];
      var last := rows[|rows| - 1];
      SoftDeleteListing(front, id, owner, now);
      var after := SoftDelete(rows, id, owner, now);
      assert after[..|after| - 1] == SoftDelete(front, id, owner, now);
      var kept := if last.owner == owner && Live(last) then [last] else [];
      WithoutIdAppend(ListLive(front, owner), kept, id);
    }
  }

  lemma {:induction false} WithoutIdAppend<T>(a: seq<Row<T>>, b: seq<Row<T>>, id: Id)
    ensures WithoutId(a + b, id) == WithoutId(a, id) + WithoutId(b, id)
    decreases |b|
  {
    if b != [] {
      var b' := b[..|b| - 1];
      assert (a + b)[..|a + b| - 1] == a + b';
      WithoutIdAppend(a, b', id);
    } else {
      assert a + b == a;
    }
  }

  /** What one user deletes never changes another user's listing. */
  lemma {:induction false} SoftDeleteIsolation<T>(rows: seq<Row<T>>, id: Id, owner: Id, now: Time, other: Id)
    requires other != owner
    ensures ListLive(SoftDelete(rows, id, owner, now), other) == ListLive(rows, other)
  {
    if rows != [] {
      var after := SoftDelete(rows, id, owner, now);
      assert after[..|after| - 1] == SoftDelete(rows[..|rows| - 1], id, owner, now);
      SoftDeleteIsolation(rows[..|rows| - 1], id, owner, now, other);
    }
  }

  /** What one user updates never changes another user's listing. */
  lemma {:induction false} ReplaceIsolation<T>(rows: seq<Row<T>>, id: Id, owner: Id, data: T, other: Id)
    requires other != owner
    ensures ListLive(Replace(rows, id, owner, data), other) == ListLive(rows, other)
  {
    if rows != [] {
      var after := Replace(rows, id, owner, data);
      assert after[..|after| - 1] == Replace(rows[..|rows| - 1], id, owner, data);
      ReplaceIsolation(rows[..|rows| - 1], id, owner, data, other);
    }
  }

  /** Ids strictly increase along the table and stay below `next`, the next
      id to be handed out: ids are unique and follow creation order. */
  predicate IdsAscending<T>(rows: seq<Row<T>>, next: nat)
  {
    && (forall i, j :: 0 <= i < j < |rows| ==> rows[i].id < rows[j].id)
    && (forall i :: 0 <= i < |rows| ==> rows[i].id < next)
  }

  lemma IdsAscendingBump<T>(rows: seq<Row<T>>, next: nat, later: nat)
    requires IdsAscending(rows, next) && next <= later
    ensures IdsAscending(rows, later)
  {
  }

  /** With unique ids, the owner of the row with an id is the owner of any
      row carrying it. */
  lemma OwnerOfOwned<T>(rows: seq<Row<T>>, next: nat, id: Id, owner: Id)
    requires IdsAscending(rows, next) && OwnedRow(rows, id, owner)
    ensures OwnerOf(rows, id) == Some(owner)
  {
    var i :| 0 <= i < |rows| && rows[i].id == id && rows[i].owner == owner;
    var j :| 0 <= j < |rows| && rows[j].id == id && rows[j].owner == OwnerOf(rows, id).value;
    assert i == j;
  }

  /** Appending rows does not change the owner of an id already present. */
  lemma {:induction false} OwnerOfAppend<T>(rows: seq<Row<T>>, more: seq<Row<T>>, id: Id)
    requires OwnerOf(rows, id).Some?
    ensures OwnerOf(rows + more, id) == OwnerOf(rows, id)
  {
    if rows[0].id != id {
      assert (rows + more)[1..] == rows[1..] + more;
      OwnerOfAppend(rows[1..], more, id);
    }
  }

  lemma {:induction false} OwnerOfSameKeys<T>(a: seq<Row<T>>, b: seq<Row<T>>, id: Id)
    requires SameKeys(a, b)
    ensures OwnerOf(a, id) == OwnerOf(b, id)
  {
    if a != [] && a[0].id != id {
      OwnerOfSameKeys(a[1..], b[1..], id);
    }
  }

  /** Rows that agree with another table on every id and owner. */
  predicate SameKeys<T>(a: seq<Row<T>>, b: seq<Row<T>>)
  {
    |a| == |b| && forall i :: 0 <= i < |a| ==> a[i].id == b[i].id && a[i].owner == b[i].owner
  }

  /** Appending a row with a fresh id keeps ids ascending. */
  lemma IdsAscendingAppend<T>(rows: seq<Row<T>>, next: nat, x: Row<T>)
    requires IdsAscending(rows, next) && x.id == next
    ensures IdsAscending(rows + [x], next + 1)
  {
  }

  /** Updates and soft deletes keep every id and owner in place. */
  lemma SameKeysAfterUpdates<T>(rows: seq<Row<T>>, id: Id, owner: Id, now: Time, data: T)
    ensures SameKeys(SoftDelete(rows, id, owner, now), rows)
    ensures SameKeys(Replace(rows, id, owner, data), rows)
  {
  }

  lemma SameKeysKeepAscending<T>(a: seq<Row<T>>, b: seq<Row<T>>, next: nat)
    requires SameKeys(a, b) && IdsAscending(b, next)
    ensures IdsAscending(a, next)
  {
  }

  /** Owning a row is unaffected by tables that keep ids and owners, and by
      rows appended later. */
  lemma OwnedRowKept<T>(a: seq<Row<T>>, b: seq<Row<T>>, id: Id, owner: Id)
    requires SameKeys(a, b) || (|b| <= |a| && a[..|b|] == b)
    requires OwnedRow(b, id, owner)
    ensures OwnedRow(a, id, owner)
  {
    var i :| 0 <= i < |b| && b[i].id == id && b[i].owner == owner;
    if !SameKeys(a, b) {
      assert a[i] == a[..|b|][i];
    }
  }
}
