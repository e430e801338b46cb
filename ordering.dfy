// `order by <date> desc, created_at desc`, the order of the transaction and
// assignment listings. Ids follow creation order, so `created_at desc` is
// `id desc`.

module Ordering {
  import opened Common
  import opened Tables

  /** Whether a row dated `da` with id `ia` may come before one dated `db`
      with id `ib`: a later date first, and on the same date the later row. */
  predicate NewerOrSame(da: Date, ia: Id, db: Date, ib: Id)
  {
    DateBefore(db, da) || (da == db && ia >= ib)
  }

  lemma NewerOrSameTotal(da: Date, ia: Id, db: Date, ib: Id)
    ensures NewerOrSame(da, ia, db, ib) || NewerOrSame(db, ib, da, ia)
  {
  }

  lemma NewerOrSameTransitive(da: Date, ia: Id, db: Date, ib: Id, dc: Date, ic: Id)
    requires NewerOrSame(da, ia, db, ib) && NewerOrSame(db, ib, dc, ic)
    ensures NewerOrSame(da, ia, dc, ic)
  {
  }

  /** The rows are listed newest first under the date `dateOf` picks. */
  predicate NewestFirst<T>(rows: seq<Row<T>>, dateOf: T -> Date)
  {
    forall i, j :: 0 <= i < j < |rows| ==>
      NewerOrSame(dateOf(rows[i].data), rows[i].id, dateOf(rows[j].data), rows[j].id)
  }

  /** Places `x` into a newest-first listing. */
  function Insert<T>(x: Row<T>, rows: seq<Row<T>>, dateOf: T -> Date): (r: seq<Row<T>>)
    ensures multiset(r) == multiset(rows) + multiset{x}
  {
    if rows == [] then [x]
    else if NewerOrSame(dateOf(x.data), x.id, dateOf(rows[0].data), rows[0].id) then [x] + rows
    else
      assert rows == [rows[0]] + rows[1..];
      [rows[0]] + Insert(x, rows[1..], dateOf)
  }

  /** The head of a non-empty insertion result is either `x` or the old head. */
  lemma {:induction false} InsertHead<T>(x: Row<T>, rows: seq<Row<T>>, dateOf: T -> Date)
    ensures |Insert(x, rows, dateOf)| == |rows| + 1
    ensures Insert(x, rows, dateOf)[0] == x || (rows != [] && Insert(x, rows, dateOf)[0] == rows[0])
  {
    if rows != [] && !NewerOrSame(dateOf(x.data), x.id, dateOf(rows[0].data), rows[0].id) {
      InsertHead(x, rows[1..], dateOf);
    }
  }

  /** A row newer than everything in a newest-first listing may head it. */
  lemma ConsKeepsOrder<T>(h: Row<T>, rest: seq<Row<T>>, dateOf: T -> Date)
    requires NewestFirst(rest, dateOf)
    requires forall k :: 0 <= k < |rest| ==>
               NewerOrSame(dateOf(h.data), h.id, dateOf(rest[k].data), rest[k].id)
    ensures NewestFirst([h] + rest, dateOf)
  {
    var r := [h] + rest;
    forall i, j | 0 <= i < j < |r|
      ensures NewerOrSame(dateOf(r[i].data), r[i].id, dateOf(r[j].data), r[j].id)
    {
      assert r[j] == rest[j - 1];
      if i > 0 {
        assert r[i] == rest[i - 1];
      }
    }
  }

  lemma {:induction false} InsertKeepsOrder<T>(x: Row<T>, rows: seq<Row<T>>, dateOf: T -> Date)
    requires NewestFirst(rows, dateOf)
    ensures NewestFirst(Insert(x, rows, dateOf), dateOf)
  {
    if rows == [] {
    } else if NewerOrSame(dateOf(x.data), x.id, dateOf(rows[0].data), rows[0].id) {
      forall k | 0 <= k < |rows|
        ensures NewerOrSame(dateOf(x.data), x.id, dateOf(rows[k].data), rows[k].id)
      {
        if k > 0 {
          NewerOrSameTransitive(dateOf(x.data), x.id, dateOf(rows[0].data), rows[0].id,
                                dateOf(rows[k].data), rows[k].id);
        }
      }
      ConsKeepsOrder(x, rows, dateOf);
    } else {
      var tail := rows[1..];
      InsertKeepsOrder(x, tail, dateOf);
      InsertHeadBeatsAll(x, rows, dateOf);
      ConsKeepsOrder(rows[0], Insert(x, tail, dateOf), dateOf);
    }
  }

  /** When `x` does not go first, the old head beats everything after it. */
  lemma InsertHeadBeatsAll<T>(x: Row<T>, rows: seq<Row<T>>, dateOf: T -> Date)
    requires NewestFirst(rows, dateOf) && rows != []
    requires !NewerOrSame(dateOf(x.data), x.id, dateOf(rows[0].data), rows[0].id)
    ensures forall k :: 0 <= k < |Insert(x, rows[1..], dateOf)| ==>
              NewerOrSame(dateOf(rows[0].data), rows[0].id,
                          dateOf(Insert(x, rows[1..], dateOf)[k].data), Insert(x, rows[1..], dateOf)[k].id)
  {
    var tail := rows[1..];
    var ins := Insert(x, tail, dateOf);
    NewerOrSameTotal(dateOf(x.data), x.id, dateOf(rows[0].data), rows[0].id);
    forall k | 0 <= k < |ins|
      ensures NewerOrSame(dateOf(rows[0].data), rows[0].id, dateOf(ins[k].data), ins[k].id)
    {
      var y := ins[k];
      assert y in multiset(ins);
      assert y == x || y in tail;
      if y != x {
        var n :| 0 <= n < |tail| && tail[n] == y;
        assert rows[n + 1] == y;
      }
    }
  }

  /** `order by <date> desc, created_at desc` over a listing. */
  function SortNewestFirst<T>(rows: seq<Row<T>>, dateOf: T -> Date): (r: seq<Row<T>>)
    ensures multiset(r) == multiset(rows)
  {
    if rows == [] then []
    else
      assert rows == [rows[0]] + rows[1..];
      Insert(rows[0], SortNewestFirst(rows[1..], dateOf), dateOf)
  }

  /** The sorted listing holds exactly the listed rows, newest first. */
  lemma {:induction false} SortNewestFirstSorted<T>(rows: seq<Row<T>>, dateOf: T -> Date)
    ensures NewestFirst(SortNewestFirst(rows, dateOf), dateOf)
    ensures multiset(SortNewestFirst(rows, dateOf)) == multiset(rows)
  {
    if rows != [] {
      SortNewestFirstSorted(rows[1..], dateOf);
      InsertKeepsOrder(rows[0], SortNewestFirst(rows[1..], dateOf), dateOf);
    }
  }

  /** With unique ids there is only one newest-first order of a set of rows,
      so the sorted listing is fully determined by the rows it holds. */
  lemma {:induction false} NewestFirstUnique<T>(a: seq<Row<T>>, b: seq<Row<T>>, dateOf: T -> Date)
    requires NewestFirst(a, dateOf) && NewestFirst(b, dateOf)
    requires multiset(a) == multiset(b)
    requires forall i, j :: 0 <= i < j < |a| ==> a[i].id != a[j].id
    ensures a == b
    decreases |a|
  {
    assert |a| == |multiset(a)| == |b|;
    if a != [] {
      NewestFirstHead(a, b, dateOf);
      NewestFirstTails(a, b, dateOf);
      NewestFirstUnique(a[1..], b[1..], dateOf);
      assert a == [a[0]] + a[1..] && b == [b[0]] + b[1..];
    }
  }

  /** Dropping the same head from both listings keeps what the induction needs. */
  lemma NewestFirstTails<T>(a: seq<Row<T>>, b: seq<Row<T>>, dateOf: T -> Date)
    requires NewestFirst(a, dateOf) && NewestFirst(b, dateOf)
    requires multiset(a) == multiset(b) && a != [] && b != [] && a[0] == b[0]
    requires forall i, j :: 0 <= i < j < |a| ==> a[i].id != a[j].id
    ensures NewestFirst(a[1..], dateOf) && NewestFirst(b[1..], dateOf)
    ensures multiset(a[1..]) == multiset(b[1..])
    ensures forall i, j :: 0 <= i < j < |a[1..]| ==> a[1..][i].id != a[1..][j].id
  {
    NewestFirstTail(a, dateOf);
    NewestFirstTail(b, dateOf);
    TailMultiset(a);
    TailMultiset(b);
    forall i, j | 0 <= i < j < |a[1..]|
      ensures a[1..][i].id != a[1..][j].id
    {
      assert a[1..][i] == a[i + 1] && a[1..][j] == a[j + 1];
    }
  }

  lemma TailMultiset<T>(a: seq<T>)
    requires a != []
    ensures multiset(a[1..]) == multiset(a) - multiset{a[0]}
  {
    assert a == [a[0]] + a[1..];
  }

  lemma NewestFirstTail<T>(a: seq<Row<T>>, dateOf: T -> Date)
    requires NewestFirst(a, dateOf) && a != []
    ensures NewestFirst(a[1..], dateOf)
  {
    forall i, j | 0 <= i < j < |a[1..]|
      ensures NewerOrSame(dateOf(a[1..][i].data), a[1..][i].id, dateOf(a[1..][j].data), a[1..][j].id)
    {
      assert a[1..][i] == a[i + 1] && a[1..][j] == a[j + 1];
    }
  }

  lemma NewestFirstHead<T>(a: seq<Row<T>>, b: seq<Row<T>>, dateOf: T -> Date)
    requires NewestFirst(a, dateOf) && NewestFirst(b, dateOf)
    requires multiset(a) == multiset(b) && a != []
    requires forall i, j :: 0 <= i < j < |a| ==> a[i].id != a[j].id
    ensures |b| > 0 && a[0] == b[0]
  {
    assert a[0] in multiset(b);
    var m :| 0 <= m < |b| && b[m] == a[0];
    assert b[0] in multiset(a);
    var k :| 0 <= k < |a| && a[k] == b[0];
    assert NewerOrSame(dateOf(a[0].data), a[0].id, dateOf(b[0].data), b[0].id);
    assert NewerOrSame(dateOf(b[0].data), b[0].id, dateOf(a[0].data), a[0].id) by {
      if m != 0 {
        assert b[m] == a[0];
      }
    }
    assert a[0].id == a[k].id;
    assert k == 0;
  }
}
