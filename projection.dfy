// The read models the backend computes from the store: the per-category
// month projection, the all-time dashboard and the transaction listing with
// its splits.

module Projection {
  import opened Common
  import opened Tables
  import opened Validation
  import opened Store
  import opened Ordering

  // ------------------------------------------------------------ month projection

  /** `select coalesce(sum(amount), 0) from category_assignments where
      category_id = $1 and month = $2 and deleted_at is null`. */
  function Assigned(assignments: seq<Row<AssignmentData>>, category: Id, period: Date): int
  {
    if assignments == [] then 0
    else
      var a := assignments[|assignments| - 1];
      Assigned(assignments[..|assignments| - 1], category, period)
        + (if Live(a) && a.data.category == category && a.data.month == period then a.data.amount else 0)
  }

  /** The transaction a split joins (`t.id = ts.transaction_id`); ids are
      unique, so there is at most one. */
  function TransactionById(transactions: seq<Row<TransactionData>>, id: Id): (r: Option<Row<TransactionData>>)
    ensures r.Some? ==> r.value in transactions && r.value.id == id
    ensures r.None? ==> forall t :: t in transactions ==> t.id != id
  {
    if transactions == [] then None
    else if transactions[0].id == id then Some(transactions[0])
    else
      assert forall t :: t in transactions ==> t == transactions[0] || t in transactions[1..];
      TransactionById(transactions[1..], id)
  }

  /** Whether a split counts towards the activity of `category` in the month
      starting `period`: it is live, of that category, and its transaction
      is live and dated in that month (`date_trunc('month', t.tx_date) = $2`). */
  predicate CountsFor(s: SplitRow, transactions: seq<Row<TransactionData>>, category: Id, period: Date)
  {
    && s.deletedAt.None?
    && s.category == category
    && var t := TransactionById(transactions, s.transaction);
       t.Some? && Live(t.value) && MonthStart(t.value.data.date) == period
  }

  /** `select coalesce(sum(ts.outflow - ts.inflow), 0) from transaction_splits ts
      join transactions t ...`: money spent in the category that month. */
  function Activity(splits: seq<SplitRow>, transactions: seq<Row<TransactionData>>, category: Id, period: Date): int
  {
    if splits == [] then 0
    else
      var s := splits[|splits| - 1];
      Activity(splits[..|splits| - 1], transactions, category, period)
        + (if CountsFor(s, transactions, category, period) then s.outflow - s.inflow else 0)
  }

  /** One row of the month projection. */
  datatype CategoryProjection = CategoryProjection(category: Id, assignedAmount: int, activity: int, available: int)

  /** The loop of `month_projection`: one row per live category of the
      caller, in creation order, each with its assigned sum, its activity and
      what is left of the one after the other. */
  method MonthProjection(categories: seq<Row<CategoryData>>, assignments: seq<Row<AssignmentData>>,
                         transactions: seq<Row<TransactionData>>, splits: seq<SplitRow>,
                         caller: Id, period: Date)
    returns (rows: seq<CategoryProjection>)
    ensures var live := ListLive(categories, caller);
            && |rows| == |live|
            && forall k :: 0 <= k < |rows| ==>
                 && rows[k].category == live[k].id
                 && rows[k].assignedAmount == Assigned(assignments, live[k].id, period)
                 && rows[k].activity == Activity(splits, transactions, live[k].id, period)
                 && rows[k].available == rows[k].assignedAmount - rows[k].activity
  {
    var live := ListLive(categories, caller);
    rows := [];
    var i := 0;
    while i < |live|
      invariant 0 <= i <= |live| && |rows| == i
      invariant forall k :: 0 <= k < i ==>
                  && rows[k].category == live[k].id
                  && rows[k].assignedAmount == Assigned(assignments, live[k].id, period)
                  && rows[k].activity == Activity(splits, transactions, live[k].id, period)
                  && rows[k].available == rows[k].assignedAmount - rows[k].activity
    {
      var id := live[i].id;
      var assignedSum := Assigned(assignments, id, period);
      var activity := Activity(splits, transactions, id, period);
      rows := rows + [CategoryProjection(id, assignedSum, activity, assignedSum - activity)];
      i := i + 1;
    }
  }

  /** Empty sums are 0: a category nothing was assigned to and nothing was
      spent from shows 0 / 0 / 0. */
  lemma {:induction false} UntouchedCategoryIsZero(assignments: seq<Row<AssignmentData>>, transactions: seq<Row<TransactionData>>,
                                                  splits: seq<SplitRow>, category: Id, period: Date)
    requires forall i :: 0 <= i < |assignments| ==> assignments[i].data.category != category
    requires forall i :: 0 <= i < |splits| ==> splits[i].category != category
    ensures Assigned(assignments, category, period) == 0
    ensures Activity(splits, transactions, category, period) == 0
  {
    NothingAssigned(assignments, category, period);
    NothingSpent(splits, transactions, category, period);
  }

  lemma {:induction false} NothingAssigned(assignments: seq<Row<AssignmentData>>, category: Id, period: Date)
    requires forall i :: 0 <= i < |assignments| ==> assignments[i].data.category != category
    ensures Assigned(assignments, category, period) == 0
  {
    if assignments != [] {
      NothingAssigned(assignments[..|assignments| - 1], category, period);
    }
  }

  lemma {:induction false} NothingSpent(splits: seq<SplitRow>, transactions: seq<Row<TransactionData>>, category: Id, period: Date)
    requires forall i :: 0 <= i < |splits| ==> splits[i].category != category
    ensures Activity(splits, transactions, category, period) == 0
  {
    if splits != [] {
      NothingSpent(splits[..|splits| - 1], transactions, category, period);
    }
  }

  /** Assignments are additive: a new assignment adds its amount to its own
      category and month, and to nothing else. */
  lemma AssignmentAdds(assignments: seq<Row<AssignmentData>>, x: Row<AssignmentData>, category: Id, period: Date)
    requires Live(x)
    ensures Assigned(assignments + [x], category, period)
            == Assigned(assignments, category, period)
               + (if x.data.category == category && x.data.month == period then x.data.amount else 0)
  {
    assert (assignments + [x])[..|assignments|] == assignments;
  }

  /** Rows stamped deleted add nothing to the assigned sum, whatever their
      category, month and amount (the `deleted_at is null` filter). */
  lemma {:induction false} DeletedAssignmentsDoNotCount(assignments: seq<Row<AssignmentData>>, deleted: seq<Row<AssignmentData>>,
                                                       category: Id, period: Date)
    requires forall i :: 0 <= i < |deleted| ==> deleted[i].deletedAt.Some?
    ensures Assigned(assignments + deleted, category, period) == Assigned(assignments, category, period)
    decreases |deleted|
  {
    if deleted != [] {
      var front := deleted[..|deleted| - 1];
      assert (assignments + deleted)[..|assignments + deleted| - 1] == assignments + front;
      assert (assignments + deleted)[|assignments + deleted| - 1] == deleted[|deleted| - 1];
      DeletedAssignmentsDoNotCount(assignments, front, category, period);
    } else {
      assert assignments + deleted == assignments;
    }
  }

  /** A split adds to the activity of its own category in its transaction's
      month only, wherever it sits among the splits. */
  lemma {:induction false} SplitCountsInItsMonthOnly(a: seq<SplitRow>, s: SplitRow, b: seq<SplitRow>,
                                                     transactions: seq<Row<TransactionData>>, category: Id, period: Date)
    ensures Activity(a + [s] + b, transactions, category, period)
            == Activity(a + b, transactions, category, period) + (if CountsFor(s, transactions, category, period) then s.outflow - s.inflow else 0)
    ensures s.category != category ==>
              Activity(a + [s] + b, transactions, category, period) == Activity(a + b, transactions, category, period)
    ensures var t := TransactionById(transactions, s.transaction);
            t.Some? && MonthStart(t.value.data.date) != period ==>
              Activity(a + [s] + b, transactions, category, period) == Activity(a + b, transactions, category, period)
    decreases |b|
  {
    if b == [] {
      assert a + [s] + b == a + [s] && a + b == a;
      assert (a + [s])[..|a + [s]| - 1] == a;
    } else {
      var front := b[..|b| - 1];
      assert (a + [s] + b)[..|a + [s] + b| - 1] == a + [s] + front;
      assert (a + b)[..|a + b| - 1] == a + front;
      assert (a + [s] + b)[|a + [s] + b| - 1] == b[|b| - 1] == (a + b)[|a + b| - 1];
      SplitCountsInItsMonthOnly(a, s, front, transactions, category, period);
    }
  }

  // ------------------------------------------------------------ dashboard

  /** Whether a split is one of the caller's, as the dashboard joins it: the
      split is live and its transaction is live and the caller's. */
  predicate CallersLiveSplit(s: SplitRow, transactions: seq<Row<TransactionData>>, caller: Id)
  {
    && s.deletedAt.None?
    && var t := TransactionById(transactions, s.transaction);
       t.Some? && Live(t.value) && t.value.owner == caller
  }

  /** `coalesce(sum(ts.inflow), 0)` over the caller's live splits. */
  function TotalInflow(splits: seq<SplitRow>, transactions: seq<Row<TransactionData>>, caller: Id): int
  {
    if splits == [] then 0
    else
      var s := splits[|splits| - 1];
      TotalInflow(splits[..|splits| - 1], transactions, caller) + (if CallersLiveSplit(s, transactions, caller) then s.inflow else 0)
  }

  /** `coalesce(sum(ts.outflow), 0)` over the caller's live splits. */
  function TotalOutflow(splits: seq<SplitRow>, transactions: seq<Row<TransactionData>>, caller: Id): int
  {
    if splits == [] then 0
    else
      var s := splits[|splits| - 1];
      TotalOutflow(splits[..|splits| - 1], transactions, caller) + (if CallersLiveSplit(s, transactions, caller) then s.outflow else 0)
  }

  datatype Dashboard = Dashboard(inflow: int, outflow: int, available: int)

  /** `compute_dashboard_projection`. */
  function ComputeDashboard(splits: seq<SplitRow>, transactions: seq<Row<TransactionData>>, caller: Id): (d: Dashboard)
    ensures d.inflow == TotalInflow(splits, transactions, caller)
    ensures d.outflow == TotalOutflow(splits, transactions, caller)
    ensures d.available == d.inflow - d.outflow
  {
    var inflow := TotalInflow(splits, transactions, caller);
    var outflow := TotalOutflow(splits, transactions, caller);
    Dashboard(inflow, outflow, ProjectAvailable(inflow, outflow))
  }

  /** Stored splits never carry negative amounts, so neither total is
      negative. */
  lemma {:induction false} DashboardTotalsNonNegative(splits: seq<SplitRow>, transactions: seq<Row<TransactionData>>, caller: Id)
    requires forall i :: 0 <= i < |splits| ==> splits[i].inflow >= 0 && splits[i].outflow >= 0
    ensures TotalInflow(splits, transactions, caller) >= 0
    ensures TotalOutflow(splits, transactions, caller) >= 0
  {
    if splits != [] {
      DashboardTotalsNonNegative(splits[..|splits| - 1], transactions, caller);
    }
  }

  /** What a user does never shows in another user's dashboard: a split of a
      foreign transaction contributes nothing. */
  lemma {:induction false} DashboardIgnoresOtherUsers(splits: seq<SplitRow>, more: seq<SplitRow>,
                                                     transactions: seq<Row<TransactionData>>, caller: Id)
    requires forall i :: 0 <= i < |more| ==> !CallersLiveSplit(more[i], transactions, caller)
    ensures ComputeDashboard(splits + more, transactions, caller) == ComputeDashboard(splits, transactions, caller)
    decreases |more|
  {
    if more != [] {
      var m' := more[..|more| - 1];
      assert (splits + more)[..|splits + more| - 1] == splits + m';
      assert (splits + more)[|splits + more| - 1] == more[|more| - 1];
      DashboardIgnoresOtherUsers(splits, m', transactions, caller);
    } else {
      assert splits + more == splits;
    }
  }

  // ------------------------------------------------------------ transactions

  function TransactionDate(t: TransactionData): Date { t.date }

  /** `select ... from transaction_splits where transaction_pillid = $1 and
      deleted_at is null order by created_at`. */
  function LiveSplitsOf(splits: seq<SplitRow>, txn: Id): (r: seq<SplitRow>)
    ensures forall k :: 0 <= k < |r| ==> r[k] in splits && r[k].transaction == txn && r[k].deletedAt.None?
    ensures forall k :: 0 <= k < |splits| && splits[k].transaction == txn && splits[k].deletedAt.None? ==> splits[k] in r
  {
    if splits == [] then []
    else
      var s := splits[|splits| - 1];
      assert splits == splits[..|splits| - 1] + [s];
      LiveSplitsOf(splits[..|splits| - 1], txn) + (if s.transaction == txn && s.deletedAt.None? then [s] else [])
  }

  lemma {:induction false} LiveSplitsOfAppend(a: seq<SplitRow>, b: seq<SplitRow>, txn: Id)
    ensures LiveSplitsOf(a + b, txn) == LiveSplitsOf(a, txn) + LiveSplitsOf(b, txn)
    decreases |b|
  {
    if b != [] {
      var b' := b[..|b| - 1];
      assert (a + b)[..|a + b| - 1] == a + b';
      assert (a + b)[|a + b| - 1] == b[|b| - 1];
      LiveSplitsOfAppend(a, b', txn);
    } else {
      assert a + b == a;
    }
  }

  /** Stamping the splits of `txn` leaves it none and leaves the other
      transactions' splits alone. */
  lemma {:induction false} DeleteSplitsOfListing(splits: seq<SplitRow>, txn: Id, now: Time, other: Id)
    ensures LiveSplitsOf(DeleteSplitsOf(splits, txn, now), txn) == []
    ensures other != txn ==> LiveSplitsOf(DeleteSplitsOf(splits, txn, now), other) == LiveSplitsOf(splits, other)
  {
    if splits != [] {
      var front := splits[..|splits| - 1];
      var after := DeleteSplitsOf(splits, txn, now);
      assert after[..|after| - 1] == DeleteSplitsOf(front, txn, now);
      DeleteSplitsOfListing(front, txn, now, other);
    }
  }

  /** New split rows are live splits of their transaction and of no other. */
  lemma {:induction false} SplitRowsListing(txn: Id, inputs: seq<SplitInput>, first: nat, other: Id)
    ensures LiveSplitsOf(SplitRows(txn, inputs, first), txn) == SplitRows(txn, inputs, first)
    ensures other != txn ==> LiveSplitsOf(SplitRows(txn, inputs, first), other) == []
  {
    if inputs != [] {
      var rows := SplitRows(txn, inputs, first);
      var k := |inputs| - 1;
      assert rows[..k] == SplitRows(txn, inputs[..k], first);
      SplitRowsListing(txn, inputs[..k], first, other);
    }
  }

  /** `update_transaction` replaces the splits wholesale: afterwards the
      transaction lists exactly the new split rows, and every other
      transaction lists the splits it had before. */
  lemma UpdateTransactionReplacesSplits(st: State, id: Id, caller: Id, data: TransactionData,
                                        inputs: seq<SplitInput>, now: Time, other: Id)
    ensures var r := UpdateTransaction(st, id, caller, data, inputs, now);
            && LiveSplitsOf(r.splits, id) == SplitRows(id, inputs, st.nextId)
            && (other != id ==> LiveSplitsOf(r.splits, other) == LiveSplitsOf(st.splits, other))
  {
    var kept := DeleteSplitsOf(st.splits, id, now);
    var added := SplitRows(id, inputs, st.nextId);
    LiveSplitsOfAppend(kept, added, id);
    LiveSplitsOfAppend(kept, added, other);
    DeleteSplitsOfListing(st.splits, id, now, other);
    SplitRowsListing(id, inputs, st.nextId, other);
  }

  /** One entry of the transaction listing: the row and its live splits. */
  datatype TransactionView = TransactionView(row: Row<TransactionData>, splits: seq<SplitRow>)

  /** The loop of `list_transactions`: the caller's live transactions, latest
      date first and, on one date, latest created first, each with its live
      splits in creation order. */
  method ListTransactions(transactions: seq<Row<TransactionData>>, splits: seq<SplitRow>, caller: Id)
    returns (views: seq<TransactionView>)
    ensures var sorted := SortNewestFirst(ListLive(transactions, caller), TransactionDate);
            && |views| == |sorted|
            && forall k :: 0 <= k < |views| ==> views[k] == TransactionView(sorted[k], LiveSplitsOf(splits, sorted[k].id))
    ensures forall i, j :: 0 <= i < j < |views| ==>
              NewerOrSame(views[i].row.data.date, views[i].row.id, views[j].row.data.date, views[j].row.id)
  {
    var sorted := SortNewestFirst(ListLive(transactions, caller), TransactionDate);
    views := AttachSplits(sorted, splits);
    SortNewestFirstSorted(ListLive(transactions, caller), TransactionDate);
    ViewsKeepOrder(views, sorted);
  }

  /** Each listed transaction paired with its live splits, in listing order. */
  method AttachSplits(sorted: seq<Row<TransactionData>>, splits: seq<SplitRow>) returns (views: seq<TransactionView>)
    ensures |views| == |sorted|
    ensures forall k :: 0 <= k < |views| ==> views[k] == TransactionView(sorted[k], LiveSplitsOf(splits, sorted[k].id))
  {
    views := [];
    var i := 0;
    while i < |sorted|
      invariant 0 <= i <= |sorted| && |views| == i
      invariant forall k :: 0 <= k < i ==> views[k] == TransactionView(sorted[k], LiveSplitsOf(splits, sorted[k].id))
    {
      views := views + [TransactionView(sorted[i], LiveSplitsOf(splits, sorted[i].id))];
      i := i + 1;
    }
  }

  lemma ViewsKeepOrder(views: seq<TransactionView>, sorted: seq<Row<TransactionData>>)
    requires NewestFirst(sorted, TransactionDate)
    requires |views| == |sorted| && forall k :: 0 <= k < |views| ==> views[k].row == sorted[k]
    ensures forall i, j :: 0 <= i < j < |views| ==>
              NewerOrSame(views[i].row.data.date, views[i].row.id, views[j].row.data.date, views[j].row.id)
  {
  }
}
