/**
 * The paid-notification queue over the `requests` table: the oldest paid
 * requests not yet notified, and the soft marker that takes a request out
 * of that queue.
 */
module NotifyPaid {
  import opened Wrappers
  import opened Sorting

  /** The columns of a `requests` row that the queue reads or writes; `paidAt` is None while NULL. */
  datatype RequestRow = RequestRow(
    id: string,
    title: string,
    quoteUsd: string,
    providerId: string,
    paidTxSig: string,
    paidAt: Option<int>,
    status: string)

  /** The columns `getUnnotifiedPaid` selects, for a row whose `paidAt` is set. */
  datatype PaidRow = PaidRow(id: string, title: string, quoteUsd: string, providerId: string, paidTxSig: string, paidAt: int)

  const QUEUE_LIMIT: nat := 25

  /** `status = 'paid' AND paidAt IS NOT NULL`. */
  predicate Pending(r: RequestRow) {
    r.status == "paid" && r.paidAt.Some?
  }

  function Project(r: RequestRow): (p: PaidRow)
    requires r.paidAt.Some?
    ensures p.id == r.id && p.paidAt == r.paidAt.value
  {
    PaidRow(r.id, r.title, r.quoteUsd, r.providerId, r.paidTxSig, r.paidAt.value)
  }

  /** `ORDER BY paidAt ASC`. */
  function PaidAtLe(a: PaidRow, b: PaidRow): bool {
    a.paidAt <= b.paidAt
  }

  /** The selected columns of the pending rows, in table order. */
  function PendingRows(rows: seq<RequestRow>): (p: seq<PaidRow>)
    ensures |p| <= |rows|
    ensures forall x :: x in p ==> exists i :: 0 <= i < |rows| && Pending(rows[i]) && Project(rows[i]) == x
    ensures forall i :: 0 <= i < |rows| && Pending(rows[i]) ==> Project(rows[i]) in p
  {
    if |rows| == 0 then []
    else
      var rest := PendingRows(rows[1..]);
      assert forall i :: 1 <= i < |rows| ==> rows[i] == rows[1..][i - 1];
      if Pending(rows[0]) then [Project(rows[0])] + rest else rest
  }

  /** The positions of the pending rows in the table. */
  function PendingIndices(rows: seq<RequestRow>): set<int> {
    set i | 0 <= i < |rows| && Pending(rows[i])
  }

  /** Selecting from two stretches of the table selects from each in turn. */
  lemma {:induction false} PendingRowsAppend(a: seq<RequestRow>, b: seq<RequestRow>)
    ensures PendingRows(a + b) == PendingRows(a) + PendingRows(b)
    decreases |a|
  {
    if |a| > 0 {
      assert (a + b)[1..] == a[1..] + b;
      PendingRowsAppend(a[1..], b);
    } else {
      assert a + b == b;
    }
  }

  /** The pending positions of a table are those of all rows but the last, plus the last one if it is pending. */
  lemma PendingIndicesSnoc(rows: seq<RequestRow>)
    requires |rows| > 0
    ensures var n := |rows| - 1;
            && n !in PendingIndices(rows[..n])
            && PendingIndices(rows) == PendingIndices(rows[..n]) + (if Pending(rows[n]) then {n} else {})
  {
    var n := |rows| - 1;
    var front := rows[..n];
    forall i ensures i in PendingIndices(rows) <==> i in PendingIndices(front) || (i == n && Pending(rows[n])) {
      if 0 <= i < n {
        assert front[i] == rows[i];
      }
    }
  }

  /** Selecting from a single row. */
  lemma PendingRowsOne(r: RequestRow)
    ensures |PendingRows([r])| == if Pending(r) then 1 else 0
  {
    assert [r][1..] == [];
  }

  /** One selected row per pending row of the table, no more and no fewer. */
  lemma {:induction false} PendingRowsCount(rows: seq<RequestRow>)
    ensures |PendingRows(rows)| == |PendingIndices(rows)|
    decreases |rows|
  {
    if |rows| == 0 {
      assert PendingIndices(rows) == {};
    } else {
      var n := |rows| - 1;
      var front := rows[..n];
      assert rows == front + [rows[n]];
      PendingRowsAppend(front, [rows[n]]);
      PendingRowsOne(rows[n]);
      PendingRowsCount(front);
      PendingIndicesSnoc(rows);
    }
  }

  /** `ORDER BY paidAt ASC` compares integers: a total, transitive order. */
  lemma PaidAtLeOrder()
    ensures Total(PaidAtLe) && Transitive(PaidAtLe)
  {
  }

  function Min(a: nat, b: nat): nat {
    if a < b then a else b
  }

  /** `getUnnotifiedPaid()`: the pending rows sorted by `paidAt`, at most 25 of them. */
  function UnnotifiedPaid(rows: seq<RequestRow>): (r: seq<PaidRow>)
    ensures |r| == Min(|PendingRows(rows)|, QUEUE_LIMIT)
    ensures |r| == Min(|PendingIndices(rows)|, QUEUE_LIMIT)
    ensures multiset(r) <= multiset(PendingRows(rows))
    ensures forall x :: x in r ==> exists i :: 0 <= i < |rows| && Pending(rows[i]) && Project(rows[i]) == x
  {
    var sorted := InsertionSort(PendingRows(rows), PaidAtLe);
    var k := Min(|sorted|, QUEUE_LIMIT);
    assert sorted == sorted[..k] + sorted[k..];
    var pending := PendingRows(rows);
    assert forall x :: x in sorted[..k] ==> x in multiset(sorted) && x in multiset(pending) && x in pending;
    PendingRowsCount(rows);
    sorted[..k]
  }

  /**
   * The queue is in ascending `paidAt` order, and when more than 25 rows are
   * pending, the ones left out were paid no earlier than any returned.
   */
  lemma UnnotifiedPaidOldestFirst(rows: seq<RequestRow>)
    ensures PairwiseSortedBy(UnnotifiedPaid(rows), PaidAtLe)
    ensures var r := UnnotifiedPaid(rows);
            forall x, y :: x in r && y in multiset(PendingRows(rows)) - multiset(r) ==> x.paidAt <= y.paidAt
  {
    var pending := PendingRows(rows);
    var sorted := InsertionSort(pending, PaidAtLe);
    var k := Min(|sorted|, QUEUE_LIMIT);
    var r := UnnotifiedPaid(rows);
    assert r == sorted[..k];
    PaidAtLeOrder();
    InsertionSortSorted(pending, PaidAtLe);
    SortedPairwise(sorted, PaidAtLe);
    PairwisePrefix(sorted, k, PaidAtLe);
    SortedPrefixBelowRest(sorted, k, PaidAtLe);
    assert multiset(sorted) == multiset(pending);
    forall x, y | x in r && y in multiset(pending) - multiset(r) ensures x.paidAt <= y.paidAt {
      assert PaidAtLe(x, y);
    }
  }

  /** The table after `markNotified(id)`: every row with that id gets status `paid_notified`, whatever it was. */
  function MarkedNotified(rows: seq<RequestRow>, id: string): (t: seq<RequestRow>)
    ensures |t| == |rows|
    ensures forall i :: 0 <= i < |rows| ==>
              t[i] == if rows[i].id == id then rows[i].(status := "paid_notified") else rows[i]
  {
    seq(|rows|, i requires 0 <= i < |rows| => if rows[i].id == id then rows[i].(status := "paid_notified") else rows[i])
  }

  /** After `markNotified(id)` the request no longer appears in the queue. */
  lemma MarkedLeavesQueue(rows: seq<RequestRow>, id: string)
    ensures forall x :: x in UnnotifiedPaid(MarkedNotified(rows, id)) ==> x.id != id
  {
  }

  /** Marking one request changes the queue of no other: a row with another id stays pending exactly when it was. */
  lemma MarkedKeepsOthers(rows: seq<RequestRow>, id: string)
    ensures forall i :: 0 <= i < |rows| && rows[i].id != id ==>
              (Pending(MarkedNotified(rows, id)[i]) <==> Pending(rows[i]))
    ensures forall x :: x in PendingRows(rows) && x.id != id ==> x in PendingRows(MarkedNotified(rows, id))
  {
    var t := MarkedNotified(rows, id);
    forall x | x in PendingRows(rows) && x.id != id
      ensures x in PendingRows(t)
    {
      var i :| 0 <= i < |rows| && Pending(rows[i]) && Project(rows[i]) == x;
      assert t[i] == rows[i];
    }
  }

  /** The number of rows with that id: the rows `UPDATE ... WHERE id = ?` touches. */
  function CountId(rows: seq<RequestRow>, id: string): (n: nat)
    ensures n <= |rows|
    ensures n == 0 <==> forall i :: 0 <= i < |rows| ==> rows[i].id != id
    decreases |rows|
  {
    if |rows| == 0 then 0
    else
      var rest := CountId(rows[1..], id);
      assert forall i :: 1 <= i < |rows| ==> rows[i] == rows[1..][i - 1];
      (if rows[0].id == id then 1 else 0) + rest
  }

  /** The `requests` table, reduced to the columns above. */
  class RequestsTable {
    var rows: seq<RequestRow>

    constructor(rows0: seq<RequestRow>)
      ensures rows == rows0
    {
      rows := rows0;
    }

    /**
     * `markNotified(id)`: sets the status of the rows with that id, unguarded,
     * changes nothing else, and reports how many rows the update matched.
     */
    method MarkNotified(id: string) returns (changes: nat)
      modifies this
      ensures rows == MarkedNotified(old(rows), id)
      ensures changes == CountId(old(rows), id)
      ensures forall x :: x in UnnotifiedPaid(rows) ==> x.id != id
    {
      changes := CountId(rows, id);
      rows := MarkedNotified(rows, id);
      MarkedLeavesQueue(old(rows), id);
    }
  }
}
