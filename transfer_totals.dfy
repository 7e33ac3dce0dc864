/**
 * The transfer-totals report: one entry per sender of completed transfers,
 * holding the sum of those transfers, ordered by descending total (the
 * order among equal totals is the database's choice, so it is left open).
 */
module TransferReports {
  import opened Transactions
  import opened TransactionTypes
  import opened Caches

  /** The rows the report (and the daily total) add up: completed transfers. */
  predicate IsCompletedTransfer(d: TransactionData) {
    d.kind == Transfer && d.status == Completed
  }

  /** SUM(amount) over the completed transfers of `sender`. */
  function TotalOf(rows: seq<TransactionData>, sender: int): (total: int)
    ensures total >= 0
  {
    if |rows| == 0 then 0
    else
      var last := rows[|rows| - 1];
      TotalOf(rows[..|rows| - 1], sender)
        + (if IsCompletedTransfer(last) && last.senderId == sender then last.amount.cents else 0)
  }

  /** Whether `sender` has at least one completed transfer, i.e. forms a group. */
  predicate HasSent(rows: seq<TransactionData>, sender: int) {
    exists i :: 0 <= i < |rows| && IsCompletedTransfer(rows[i]) && rows[i].senderId == sender
  }

  predicate DistinctSenders(s: seq<SenderTotal>) {
    forall i, j :: 0 <= i < j < |s| ==> s[i].senderId != s[j].senderId
  }

  predicate SortedByTotalDesc(s: seq<SenderTotal>) {
    forall i, j :: 0 <= i < j < |s| ==> s[i].totalCents >= s[j].totalCents
  }

  /** Adding one row adds a group only when that row is a completed transfer. */
  lemma HasSentSnoc(rows: seq<TransactionData>, d: TransactionData, u: int)
    ensures HasSent(rows + [d], u) <==> HasSent(rows, u) || (IsCompletedTransfer(d) && d.senderId == u)
  {
    var all := rows + [d];
    if HasSent(rows, u) {
      var i :| 0 <= i < |rows| && IsCompletedTransfer(rows[i]) && rows[i].senderId == u;
      assert all[i] == rows[i];
    }
    if IsCompletedTransfer(d) && d.senderId == u {
      assert all[|rows|] == d;
    }
    if HasSent(all, u) {
      var i :| 0 <= i < |all| && IsCompletedTransfer(all[i]) && all[i].senderId == u;
      if i < |rows| {
        assert rows[i] == all[i];
      }
    }
  }

  /** The distinct senders of completed transfers, in order of first appearance. */
  function Senders(rows: seq<TransactionData>): (r: seq<int>)
    ensures forall i, j :: 0 <= i < j < |r| ==> r[i] != r[j]
    ensures forall u :: u in r <==> HasSent(rows, u)
  {
    if |rows| == 0 then []
    else
      var prefix := rows[..|rows| - 1];
      var last := rows[|rows| - 1];
      assert rows == prefix + [last];
      assert forall u :: HasSent(rows, u) <==> HasSent(prefix, u) || (IsCompletedTransfer(last) && last.senderId == u) by {
        forall u
          ensures HasSent(rows, u) <==> HasSent(prefix, u) || (IsCompletedTransfer(last) && last.senderId == u)
        {
          HasSentSnoc(prefix, last, u);
        }
      }
      var p := Senders(prefix);
      if IsCompletedTransfer(last) && last.senderId !in p then p + [last.senderId] else p
  }

  /** The GROUP BY sender_id step: each sender with the sum of their completed transfers. */
  function Group(rows: seq<TransactionData>): (r: seq<SenderTotal>)
    ensures DistinctSenders(r)
    ensures forall e :: e in r ==> e.totalCents == TotalOf(rows, e.senderId)
    ensures forall u :: HasSent(rows, u) <==> exists e :: e in r && e.senderId == u
  {
    var ids := Senders(rows);
    var r := seq(|ids|, k requires 0 <= k < |ids| => SenderTotal(ids[k], TotalOf(rows, ids[k])));
    assert forall u :: u in ids ==> exists e :: e in r && e.senderId == u by {
      forall u | u in ids
        ensures exists e :: e in r && e.senderId == u
      {
        var k :| 0 <= k < |ids| && ids[k] == u;
        assert r[k] in r;
      }
    }
    r
  }

  /** Inserts one entry before the first entry whose total does not exceed it. */
  function InsertDesc(x: SenderTotal, s: seq<SenderTotal>): (r: seq<SenderTotal>)
    requires SortedByTotalDesc(s)
    ensures SortedByTotalDesc(r)
    ensures |r| == |s| + 1
    ensures forall e :: e in r <==> e == x || e in s
  {
    if |s| == 0 || x.totalCents >= s[0].totalCents then
      [x] + s
    else
      var rest := InsertDesc(x, s[1..]);
      assert forall e :: e in rest ==> e.totalCents <= s[0].totalCents by {
        forall e | e in rest
          ensures e.totalCents <= s[0].totalCents
        {
          if e != x {
            var k :| 0 <= k < |s[1..]| && s[1..][k] == e;
            assert s[k + 1] == e;
          }
        }
      }
      [s[0]] + rest
  }

  /** A list headed by `a` has distinct senders when its tail has and does not repeat `a`'s sender. */
  lemma ConsDistinct(a: SenderTotal, t: seq<SenderTotal>)
    requires DistinctSenders(t) && forall e :: e in t ==> e.senderId != a.senderId
    ensures DistinctSenders([a] + t)
  {
    var r := [a] + t;
    forall i, j | 0 <= i < j < |r|
      ensures r[i].senderId != r[j].senderId
    {
      assert r[j] == t[j - 1];
      if i > 0 {
        assert r[i] == t[i - 1];
      }
    }
  }

  lemma {:induction false} InsertKeepsDistinct(x: SenderTotal, s: seq<SenderTotal>)
    requires SortedByTotalDesc(s) && DistinctSenders(s)
    requires forall e :: e in s ==> e.senderId != x.senderId
    ensures DistinctSenders(InsertDesc(x, s))
  {
    if |s| == 0 || x.totalCents >= s[0].totalCents {
      ConsDistinct(x, s);
    } else {
      var tail := s[1..];
      assert forall e :: e in tail ==> e in s;
      InsertKeepsDistinct(x, tail);
      assert forall e :: e in tail ==> e.senderId != s[0].senderId by {
        forall e | e in tail
          ensures e.senderId != s[0].senderId
        {
          var k :| 0 <= k < |tail| && tail[k] == e;
          assert s[k + 1] == e;
        }
      }
      ConsDistinct(s[0], InsertDesc(x, tail));
    }
  }

  /** ORDER BY total DESC, as an insertion sort. */
  function SortDesc(xs: seq<SenderTotal>): (r: seq<SenderTotal>)
    ensures SortedByTotalDesc(r)
    ensures |r| == |xs|
    ensures forall e :: e in r <==> e in xs
  {
    if |xs| == 0 then []
    else
      var rest := SortDesc(xs[1..]);
      assert forall e :: e in xs[1..] ==> e in xs;
      InsertDesc(xs[0], rest)
  }

  lemma {:induction false} SortKeepsDistinct(xs: seq<SenderTotal>)
    requires DistinctSenders(xs)
    ensures DistinctSenders(SortDesc(xs))
  {
    if |xs| > 0 {
      var tail := xs[1..];
      assert DistinctSenders(tail) by {
        forall i, j | 0 <= i < j < |tail|
          ensures tail[i].senderId != tail[j].senderId
        {
          assert tail[i] == xs[i + 1] && tail[j] == xs[j + 1];
        }
      }
      SortKeepsDistinct(tail);
      assert forall e :: e in tail ==> e.senderId != xs[0].senderId by {
        forall e | e in tail
          ensures e.senderId != xs[0].senderId
        {
          var k :| 0 <= k < |tail| && tail[k] == e;
          assert xs[k + 1] == e;
        }
      }
      InsertKeepsDistinct(xs[0], SortDesc(tail));
    }
  }

  /**
   * getTransferTotalsByUser, computed from the table: exactly one entry per
   * sender of a completed transfer, each holding that sender's sum, in
   * descending order of the sums.
   */
  function TransferTotals(rows: seq<TransactionData>): (r: seq<SenderTotal>)
    ensures SortedByTotalDesc(r)
    ensures DistinctSenders(r)
    ensures forall e :: e in r ==> e.totalCents == TotalOf(rows, e.senderId)
    ensures forall u :: HasSent(rows, u) <==> exists e :: e in r && e.senderId == u
  {
    SortKeepsDistinct(Group(rows));
    SortDesc(Group(rows))
  }

  /** A sender with no completed transfer has a total of zero. */
  lemma {:induction false} NoTransfersNoTotal(rows: seq<TransactionData>, sender: int)
    requires !HasSent(rows, sender)
    ensures TotalOf(rows, sender) == 0
  {
    if |rows| > 0 {
      var prefix := rows[..|rows| - 1];
      assert rows == prefix + [rows[|rows| - 1]];
      HasSentSnoc(prefix, rows[|rows| - 1], sender);
      NoTransfersNoTotal(prefix, sender);
    }
  }
}
