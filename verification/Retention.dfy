/**
  Log retention: the pruning operations of `sqlite.SQLiteLogger` on one log table and the cycle of
  `logging.RetentionCleaner` that applies them. Timestamps are compared as the stored text, which
  is how SQLite compares them; rows with equal timestamps come in any order. Any statement can fail.
 */
module Retention {
  import opened Basics

  // ---- Text order ----------------------------------------------------------------------

  /** a comes before b, or is b, in the order of SQLite's text comparison. */
  predicate AtMost(a: string, b: string) {
    a == "" || (b != "" && (a[0] < b[0] || (a[0] == b[0] && AtMost(a[1..], b[1..]))))
  }

  lemma {:induction false} AtMostIsTotal(a: string, b: string)
    ensures AtMost(a, b) || AtMost(b, a)
    ensures AtMost(a, b) && AtMost(b, a) ==> a == b
  {
    if a != "" && b != "" && a[0] == b[0] {
      AtMostIsTotal(a[1..], b[1..]);
      if AtMost(a, b) && AtMost(b, a) {
        assert a == [a[0]] + a[1..] && b == [b[0]] + b[1..];
      }
    }
  }

  lemma {:induction false} AtMostIsTransitive(a: string, b: string, c: string)
    requires AtMost(a, b) && AtMost(b, c)
    ensures AtMost(a, c)
  {
    if a != "" && a[0] == b[0] == c[0] {
      AtMostIsTransitive(a[1..], b[1..], c[1..]);
    }
  }

  // ---- Rows --------------------------------------------------------------------------------

  /** A row: primary key, stored timestamp, and the estimated size of its columns. */
  datatype Row = Row(id: string, timestamp: string, size: nat)

  type Rows = set<Row>

  ghost predicate KeysUnique(t: Rows) {
    forall a <- t, b <- t :: a.id == b.id ==> a == b
  }

  ghost predicate TimesDistinct(t: Rows) {
    forall a <- t, b <- t :: a.timestamp == b.timestamp ==> a == b
  }

  /** The estimated size of the table. */
  ghost function Size(t: Rows): nat {
    if t == {} then 0
    else
      var r :| r in t;
      r.size + Size(t - {r})
  }

  lemma {:induction false} SizeWithout(t: Rows, r: Row)
    requires r in t
    ensures Size(t) == r.size + Size(t - {r})
    decreases t
  {
    var x :| x in t && Size(t) == x.size + Size(t - {x});
    if x != r {
      SizeWithout(t - {x}, r);
      SizeWithout(t - {r}, x);
      assert t - {x} - {r} == t - {r} - {x};
    }
  }

  /** What a deletion that goes from the oldest on leaves: no deleted row is newer than a kept one. */
  ghost predicate NewestOf(t: Rows, kept: Rows) {
    && kept <= t
    && forall gone <- t - kept, k <- kept :: AtMost(gone.timestamp, k.timestamp)
  }

  lemma NewestOfTwice(t: Rows, u: Rows, v: Rows)
    requires NewestOf(t, u) && NewestOf(u, v)
    ensures NewestOf(t, v)
  {
    forall gone, k | gone in t - v && k in v ensures AtMost(gone.timestamp, k.timestamp) {
      if gone in u {
        assert gone in u - v;
      } else {
        assert gone in t - u && k in u;
      }
    }
  }

  /** ORDER BY timestamp DESC: the rows newest first, ties in any order. */
  ghost predicate NewestFirst(t: Rows, order: seq<Row>) {
    && (forall r :: r in t <==> r in order) && |order| == |t|
    && (forall i, j :: 0 <= i < j < |order| ==> order[i] != order[j] && AtMost(order[j].timestamp, order[i].timestamp))
  }

  lemma {:induction false} HasNewest(t: Rows) returns (r: Row)
    requires t != {}
    ensures r in t && forall x <- t :: AtMost(x.timestamp, r.timestamp)
    decreases t
  {
    r :| r in t;
    AtMostIsTotal(r.timestamp, r.timestamp);
    if t != {r} {
      assert t - {r} != {};
      var s := HasNewest(t - {r});
      AtMostIsTotal(r.timestamp, s.timestamp);
      forall x | x in t ensures AtMost(x.timestamp, s.timestamp) || AtMost(s.timestamp, r.timestamp) {
        assert x == r || x in t - {r};
      }
      if AtMost(r.timestamp, s.timestamp) {
        r := s;
      } else {
        forall x | x in t ensures AtMost(x.timestamp, r.timestamp) {
          if x != r { AtMostIsTransitive(x.timestamp, s.timestamp, r.timestamp); }
        }
      }
    }
  }

  /** DELETE ... WHERE timestamp < cutoff. */
  ghost function NotBefore(t: Rows, cutoff: string): Rows {
    set r | r in t && AtMost(cutoff, r.timestamp)
  }

  ghost predicate KeepsNewest(t: Rows, kept: Rows, n: nat) {
    NewestOf(t, kept) && |kept| == if |t| <= n then |t| else n
  }

  /** What PruneRequestLogs leaves of t: first the days, then the rows. */
  ghost predicate Pruned(t: Rows, kept: Rows, maxRows: int, maxDays: int, cutoff: string) {
    var recent := if maxDays > 0 then NotBefore(t, cutoff) else t;
    if maxRows > 0 then KeepsNewest(recent, kept, maxRows) else kept == recent
  }

  lemma NotBeforeIsNewest(t: Rows, cutoff: string)
    ensures NewestOf(t, NotBefore(t, cutoff))
  {
    forall gone, k | gone in t - NotBefore(t, cutoff) && k in NotBefore(t, cutoff)
      ensures AtMost(gone.timestamp, k.timestamp)
    {
      AtMostIsTotal(gone.timestamp, cutoff);
      AtMostIsTransitive(gone.timestamp, cutoff, k.timestamp);
    }
  }

  lemma PrunedIsNewest(t: Rows, kept: Rows, maxRows: int, maxDays: int, cutoff: string)
    requires Pruned(t, kept, maxRows, maxDays, cutoff)
    ensures NewestOf(t, kept)
    ensures maxRows > 0 ==> |kept| <= maxRows
    ensures maxDays > 0 ==> forall r <- kept :: AtMost(cutoff, r.timestamp)
  {
    NotBeforeIsNewest(t, cutoff);
    if maxDays > 0 && maxRows > 0 {
      NewestOfTwice(t, NotBefore(t, cutoff), kept);
    }
  }

  /** A batch of size pruning: the n oldest rows, or all there are, are gone. */
  ghost predicate OldestGone(t: Rows, kept: Rows, n: nat) {
    NewestOf(t, kept) && |kept| == if |t| <= n then 0 else |t| - n
  }

  /** The tables that size pruning goes through: batch by batch, over the limit up to the last one,
      which is the first that is not. */
  ghost predicate SizeHistory(history: seq<Rows>, maxBytes: int, batch: nat) {
    && history != []
    && (forall i :: 0 <= i < |history| - 1 ==>
          Size(history[i]) > maxBytes && OldestGone(history[i], history[i + 1], batch))
  }

  lemma {:induction false} HistoryIsNewest(history: seq<Rows>, maxBytes: int, batch: nat)
    requires SizeHistory(history, maxBytes, batch)
    ensures NewestOf(history[0], history[|history| - 1])
  {
    var n := |history| - 1;
    if n > 0 {
      HistoryIsNewest(history[..n], maxBytes, batch);
      assert OldestGone(history[n - 1], history[n - 1 + 1], batch);
      NewestOfTwice(history[0], history[n - 1], history[n]);
    }
  }

  lemma HistoryGrows(history: seq<Rows>, kept: Rows, maxBytes: int, batch: nat)
    requires SizeHistory(history, maxBytes, batch)
    requires Size(history[|history| - 1]) > maxBytes && OldestGone(history[|history| - 1], kept, batch)
    ensures SizeHistory(history + [kept], maxBytes, batch)
  {
  }

  function RowsOf(order: seq<Row>): Rows {
    set r | r in order
  }

  function IdsOf(order: seq<Row>): set<string> {
    set r | r in order :: r.id
  }

  lemma {:induction false} SizeOfPrefix(order: seq<Row>, n: nat)
    requires n <= |order| && forall i, j :: 0 <= i < j < |order| ==> order[i] != order[j]
    ensures |RowsOf(order[..n])| == n
  {
    if n > 0 {
      SizeOfPrefix(order, n - 1);
      assert order[..n] == order[..n - 1] + [order[n - 1]];
      assert RowsOf(order[..n]) == RowsOf(order[..n - 1]) + {order[n - 1]};
    }
  }

  /** Deleting by ID what comes from position n on leaves what comes before. */
  lemma HeadKept(t: Rows, order: seq<Row>, n: nat)
    requires NewestFirst(t, order) && KeysUnique(t) && n <= |order|
    ensures (set r | r in t && r.id !in IdsOf(order[n..])) == RowsOf(order[..n])
  {
    forall r | r in t ensures r.id in IdsOf(order[n..]) <==> r !in order[..n] {
      var i :| 0 <= i < |order| && order[i] == r;
      if i < n {
        assert r == order[..n][i];
        forall x | x in order[n..] ensures x.id != r.id {
          assert x in order && x in t;
        }
      } else {
        assert r == order[n..][i - n];
      }
    }
    assert forall r :: r in order[..n] ==> r in order;
  }

  /** So it keeps the n newest. */
  lemma TailGone(t: Rows, order: seq<Row>, n: nat, kept: Rows)
    requires NewestFirst(t, order) && KeysUnique(t) && n <= |order|
    requires kept == set r | r in t && r.id !in IdsOf(order[n..])
    ensures NewestOf(t, kept) && |kept| == n
  {
    HeadKept(t, order, n);
    SizeOfPrefix(order, n);
    forall gone, k | gone in t - kept && k in kept ensures AtMost(gone.timestamp, k.timestamp) {
      var x :| x in order[n..] && x.id == gone.id;
      assert x in order && x in t && x == gone;
      TailIsOlder(t, order, n, gone, k);
    }
  }

  lemma TailIsOlder(t: Rows, order: seq<Row>, n: nat, gone: Row, k: Row)
    requires NewestFirst(t, order) && n <= |order| && gone in order[n..] && k in order[..n]
    ensures AtMost(gone.timestamp, k.timestamp)
  {
    var i :| 0 <= i < |order| - n && order[n..][i] == gone;
    var j :| 0 <= j < n && order[..n][j] == k;
    assert order[n + i] == gone && order[j] == k;
  }

  /** Which statements of one tier's cycle fail: the deletions by days and by rows, the cycle's own
      look at the size, and in each round of size pruning the look and the deletion. */
  datatype Faults = Faults(days: bool, rows: bool, look: bool, roundLook: nat -> bool, roundDelete: nat -> bool) {
    ghost predicate None() {
      !days && !rows && !look && RoundsSucceed()
    }
    ghost predicate RoundsSucceed() {
      forall k :: !roundLook(k) && !roundDelete(k)
    }
  }

  class LogTable {
    var rows: Rows

    /** SELECT ... ORDER BY timestamp DESC. */
    method SelectNewestFirst() returns (order: seq<Row>)
      ensures NewestFirst(rows, order)
    {
      order := [];
      var todo := rows;
      while todo != {}
        invariant todo <= rows && |order| + |todo| == |rows|
        invariant forall r :: r in rows <==> r in order || r in todo
        invariant forall r <- order :: r !in todo
        invariant forall i, j :: 0 <= i < j < |order| ==>
                    order[i] != order[j] && AtMost(order[j].timestamp, order[i].timestamp)
        invariant forall r <- order, x <- todo :: AtMost(x.timestamp, r.timestamp)
        decreases todo
      {
        ghost var newest := HasNewest(todo);
        var r :| r in todo && forall x <- todo :: AtMost(x.timestamp, r.timestamp);
        order := order + [r];
        todo := todo - {r};
      }
    }

    /** SELECT COALESCE(SUM(...), 0). */
    method SizeBytes() returns (size: nat)
      ensures size == Size(rows)
    {
      size := 0;
      var todo := rows;
      while todo != {}
        invariant todo <= rows && size + Size(todo) == Size(rows)
        decreases todo
      {
        var r :| r in todo;
        SizeWithout(todo, r);
        size := size + r.size;
        todo := todo - {r};
      }
    }

    /** DELETE ... WHERE id IN. */
    method DeleteIds(ids: set<string>)
      modifies this
      ensures rows == set r | r in old(rows) && r.id !in ids
    {
      rows := set r | r in rows && r.id !in ids;
    }

    /** PruneRequestLogs and PruneDetailLogs. */
    method Prune(maxRows: int, maxDays: int, cutoff: string, f: Faults) returns (ok: bool)
      requires KeysUnique(rows)
      modifies this
      ensures KeysUnique(rows)
      ensures ok <==> !(maxDays > 0 && f.days) && !(maxRows > 0 && f.rows)
      ensures ok ==> Pruned(old(rows), rows, maxRows, maxDays, cutoff)
      ensures !ok ==> rows == if maxDays > 0 && !f.days then NotBefore(old(rows), cutoff) else old(rows)
    {
      if maxDays > 0 {
        if f.days { return false; }
        rows := set r | r in rows && AtMost(cutoff, r.timestamp);
      }
      ghost var recent := rows;
      if maxRows > 0 {
        if f.rows { return false; }
        var order := SelectNewestFirst();
        var n := if maxRows < |order| then maxRows else |order|;
        DeleteIds(IdsOf(order[n..]));
        TailGone(recent, order, n, rows);
      }
      ok := true;
    }

    /** PruneRequestLogsBySize (batches of 500) and PruneDetailLogsBySize (batches of 100): deletes
        batches of the oldest rows and stops at the first batch boundary that is not over the limit,
        or at the first statement that fails. */
    method PruneBySize(maxBytes: int, batch: nat, f: Faults) returns (ok: bool, ghost history: seq<Rows>)
      requires KeysUnique(rows) && batch > 0
      modifies this
      ensures KeysUnique(rows)
      ensures SizeHistory(history, maxBytes, batch) && history[0] == old(rows) && history[|history| - 1] == rows
      ensures maxBytes <= 0 ==> ok && rows == old(rows)
      ensures maxBytes > 0 && ok ==> Size(rows) <= maxBytes
      ensures !ok ==> f.roundLook(|history| - 1) || (Size(rows) > maxBytes && f.roundDelete(|history| - 1))
    {
      history := [rows];
      if maxBytes <= 0 { return true, history; }
      var round: nat := 0;
      while true
        invariant KeysUnique(rows) && SizeHistory(history, maxBytes, batch)
        invariant history[0] == old(rows) && history[|history| - 1] == rows && round == |history| - 1
        decreases |rows|
      {
        if f.roundLook(round) { return false, history; }
        var size := SizeBytes();
        if size <= maxBytes { return true, history; }
        if f.roundDelete(round) { return false, history; }
        ghost var before := rows;
        var order := SelectNewestFirst();
        var n := if |order| <= batch then 0 else |order| - batch;
        DeleteIds(IdsOf(order[n..]));
        TailGone(before, order, n, rows);
        HistoryGrows(history, rows, maxBytes, batch);
        history := history + [rows];
        round := round + 1;
      }
    }
  }

  // ---- The retention cycle -----------------------------------------------------------------------

  const MB := 1024 * 1024

  /** The limits of one tier; one that is not positive is off. */
  datatype Limits = Limits(maxRows: int, maxDays: int, maxSizeMB: int)

  ghost predicate Within(t: Rows, l: Limits, cutoff: string) {
    && (l.maxRows > 0 ==> |t| <= l.maxRows)
    && (l.maxDays > 0 ==> forall r <- t :: AtMost(cutoff, r.timestamp))
    && (l.maxSizeMB > 0 ==> Size(t) <= l.maxSizeMB * MB)
  }

  lemma PruneLeavesAlone(t: Rows, kept: Rows, l: Limits, cutoff: string)
    requires Within(t, l, cutoff) && Pruned(t, kept, l.maxRows, l.maxDays, cutoff)
    ensures kept == t
  {
    assert l.maxDays > 0 ==> NotBefore(t, cutoff) == t;
    SubsetIsSmaller(kept, t);
  }

  /** Size pruning takes t to kept: it stops at the first batch boundary within the limit. */
  ghost predicate SizeCut(t: Rows, kept: Rows, maxBytes: int, batch: nat) {
    Size(kept) <= maxBytes
    && exists history :: SizeHistory(history, maxBytes, batch) && history[0] == t && history[|history| - 1] == kept
  }

  /** What a cycle leaves of t: days, then rows, then size, and nothing is deleted beyond that. */
  ghost predicate Cleaned(t: Rows, kept: Rows, l: Limits, cutoff: string, batch: nat) {
    exists mid :: Pruned(t, mid, l.maxRows, l.maxDays, cutoff)
                  && if l.maxSizeMB > 0 then SizeCut(mid, kept, l.maxSizeMB * MB, batch) else kept == mid
  }

  lemma AlreadySmall(t: Rows, maxBytes: int, batch: nat)
    requires Size(t) <= maxBytes
    ensures SizeCut(t, t, maxBytes, batch)
  {
    assert SizeHistory([t], maxBytes, batch);
  }

  /** Each limit holds unless a statement that enforces it failed, or one before it in the same
      call did. */
  ghost predicate Enforced(t: Rows, l: Limits, cutoff: string, f: Faults) {
    && (l.maxDays > 0 && !f.days ==> forall r <- t :: AtMost(cutoff, r.timestamp))
    && (l.maxRows > 0 && !f.rows && !(l.maxDays > 0 && f.days) ==> |t| <= l.maxRows)
    && (l.maxSizeMB > 0 && !f.look && f.RoundsSucceed() ==> Size(t) <= l.maxSizeMB * MB)
  }

  lemma PruneEnforces(t: Rows, kept: Rows, l: Limits, cutoff: string, f: Faults, ok: bool)
    requires ok <==> !(l.maxDays > 0 && f.days) && !(l.maxRows > 0 && f.rows)
    requires ok ==> Pruned(t, kept, l.maxRows, l.maxDays, cutoff)
    requires !ok ==> kept == if l.maxDays > 0 && !f.days then NotBefore(t, cutoff) else t
    ensures NewestOf(t, kept) && Enforced(kept, l.(maxSizeMB := 0), cutoff, f)
    ensures Within(t, l, cutoff) ==> kept == t
  {
    if ok {
      PrunedIsNewest(t, kept, l.maxRows, l.maxDays, cutoff);
      if Within(t, l, cutoff) { PruneLeavesAlone(t, kept, l, cutoff); }
    } else {
      NotBeforeIsNewest(t, cutoff);
    }
  }

  lemma SizePruneEnforces(t: Rows, kept: Rows, l: Limits, cutoff: string, f: Faults, ok: bool, history: seq<Rows>,
                          batch: nat)
    requires l.maxSizeMB > 0 && Size(t) > l.maxSizeMB * MB && Enforced(t, l.(maxSizeMB := 0), cutoff, f)
    requires SizeHistory(history, l.maxSizeMB * MB, batch) && history[0] == t && history[|history| - 1] == kept
    requires ok ==> Size(kept) <= l.maxSizeMB * MB
    requires !ok ==> f.roundLook(|history| - 1) || f.roundDelete(|history| - 1)
    ensures NewestOf(t, kept) && Enforced(kept, l, cutoff, f)
    ensures ok ==> kept != t && SizeCut(t, kept, l.maxSizeMB * MB, batch)
  {
    HistoryIsNewest(history, l.maxSizeMB * MB, batch);
    SubsetIsSmaller(kept, t);
  }

  /** One tier's part of `clean`. Whatever fails, it leaves the newest rows, enforces the limits whose
      statements succeed, and leaves a table alone that is within its limits. If nothing fails the table
      ends within all limits with nothing deleted beyond that, so a second cycle at the same clock
      deletes nothing; and a change is reported when rows were deleted, but also whenever a row or day
      limit is on. */
  method CleanTier(table: LogTable, l: Limits, cutoff: string, batch: nat, f: Faults) returns (pruned: bool)
    requires KeysUnique(table.rows) && batch > 0
    modifies table
    ensures KeysUnique(table.rows) && NewestOf(old(table.rows), table.rows)
    ensures Enforced(table.rows, l, cutoff, f)
    ensures old(Within(table.rows, l, cutoff)) ==> table.rows == old(table.rows)
    ensures pruned ==> l.maxRows > 0 || l.maxDays > 0 || table.rows != old(table.rows)
    ensures f.None() ==>
              && Cleaned(old(table.rows), table.rows, l, cutoff, batch) && Within(table.rows, l, cutoff)
              && (table.rows != old(table.rows) ==> pruned)
              && (l.maxRows > 0 || l.maxDays > 0 ==> pruned)
  {
    ghost var t0 := table.rows;
    var ok := table.Prune(l.maxRows, l.maxDays, cutoff, f);
    ghost var t1 := table.rows;
    PruneEnforces(t0, t1, l, cutoff, f, ok);
    pruned := ok && (l.maxRows > 0 || l.maxDays > 0);
    if l.maxSizeMB > 0 {
      var maxBytes := l.maxSizeMB * MB;
      var before := 0;
      if !f.look { before := table.SizeBytes(); }
      if before > maxBytes {
        ghost var history;
        ok, history := table.PruneBySize(maxBytes, batch, f);
        SizePruneEnforces(t1, table.rows, l, cutoff, f, ok, history, batch);
        NewestOfTwice(t0, t1, table.rows);
        if ok { pruned := true; }
      } else if !f.look {
        AlreadySmall(t1, maxBytes, batch);
      }
    }
  }

  const ONE_ROW := {Row("a", "2024-01-01T00:00:00Z", 1)}

  /** So the database can be vacuumed when nothing was deleted: a table of one row with room for one. */
  method ReportsWithoutDeleting() returns (table: LogTable, pruned: bool)
    ensures fresh(table) && table.rows == ONE_ROW && pruned
  {
    table := new LogTable;
    table.rows := ONE_ROW;
    var f := Faults(false, false, false, k => false, k => false);
    pruned := CleanTier(table, Limits(1, 0, 0), "", 500, f);
  }

  /** `clean`: both tiers, each with its own limits and batch size; the result says whether the
      cycle goes on to vacuum the database. */
  method Clean(basic: LogTable, detail: LogTable, basicLimits: Limits, detailLimits: Limits,
               basicCutoff: string, detailCutoff: string, basicFaults: Faults, detailFaults: Faults)
    returns (pruned: bool)
    requires basic != detail && KeysUnique(basic.rows) && KeysUnique(detail.rows)
    modifies basic, detail
    ensures KeysUnique(basic.rows) && KeysUnique(detail.rows)
    ensures NewestOf(old(basic.rows), basic.rows) && Enforced(basic.rows, basicLimits, basicCutoff, basicFaults)
    ensures NewestOf(old(detail.rows), detail.rows) && Enforced(detail.rows, detailLimits, detailCutoff, detailFaults)
    ensures old(Within(basic.rows, basicLimits, basicCutoff)) ==> basic.rows == old(basic.rows)
    ensures old(Within(detail.rows, detailLimits, detailCutoff)) ==> detail.rows == old(detail.rows)
    ensures basicFaults.None() ==>
              && Cleaned(old(basic.rows), basic.rows, basicLimits, basicCutoff, 500)
              && Within(basic.rows, basicLimits, basicCutoff)
    ensures detailFaults.None() ==>
              && Cleaned(old(detail.rows), detail.rows, detailLimits, detailCutoff, 100)
              && Within(detail.rows, detailLimits, detailCutoff)
    ensures basicFaults.None() && detailFaults.None() ==>
              (pruned <==>
                || basicLimits.maxRows > 0 || basicLimits.maxDays > 0 || basic.rows != old(basic.rows)
                || detailLimits.maxRows > 0 || detailLimits.maxDays > 0 || detail.rows != old(detail.rows))
  {
    var basicPruned := CleanTier(basic, basicLimits, basicCutoff, 500, basicFaults);
    var detailPruned := CleanTier(detail, detailLimits, detailCutoff, 100, detailFaults);
    pruned := basicPruned || detailPruned;
  }

  // ---- The order of the policies --------------------------------------------------------------------

  /** However ties are broken, rows-then-days keeps as many rows as days-then-rows. */
  lemma SameNumberKept(t: Rows, cutoff: string, n: nat, daysFirst: Rows, newest: Rows)
    requires KeepsNewest(NotBefore(t, cutoff), daysFirst, n)
    requires KeepsNewest(t, newest, n)
    ensures |NotBefore(newest, cutoff)| == |daysFirst|
  {
    var recent, rowsFirst := NotBefore(t, cutoff), NotBefore(newest, cutoff);
    SubsetIsSmaller(rowsFirst, recent);
    SubsetIsSmaller(rowsFirst, newest);
    SubsetIsSmaller(recent, t);
    if rowsFirst != recent {
      var y :| y in recent && y !in rowsFirst;
      forall x | x in newest ensures x in rowsFirst {
        assert y in t - newest && AtMost(y.timestamp, x.timestamp);
        AtMostIsTransitive(cutoff, y.timestamp, x.timestamp);
      }
      assert rowsFirst == newest;
      SubsetIsSmaller(newest, t);
    }
  }

  ghost function Newer(t: Rows, r: Row): Rows {
    set x | x in t && x.timestamp != r.timestamp && AtMost(r.timestamp, x.timestamp)
  }

  ghost function NotOlder(t: Rows, r: Row): Rows {
    set x | x in t && AtMost(r.timestamp, x.timestamp)
  }

  /** Rows of one timestamp lie on both sides of position n of the newest-first order. */
  ghost predicate TieAcross(t: Rows, n: nat) {
    exists r <- t :: |Newer(t, r)| < n < |NotOlder(t, r)|
  }

  /** Two ways of keeping the n newest rows differ only by a tie across n. */
  lemma DifferByTie(t: Rows, n: nat, a: Rows, b: Rows, x: Row)
    requires KeepsNewest(t, a, n) && KeepsNewest(t, b, n) && x in a && x !in b
    ensures TieAcross(t, n)
  {
    if b <= a { SubsetIsSmaller(b, a); }
    var y :| y in b && y !in a;
    AtMostIsTotal(x.timestamp, y.timestamp);
    assert x.timestamp == y.timestamp;
    forall z | z in Newer(t, x) ensures z in a {
      if z !in a { AtMostIsTotal(z.timestamp, x.timestamp); }
    }
    SubsetIsSmaller(Newer(t, x) + {x}, a);
    forall k | k in a ensures AtMost(x.timestamp, k.timestamp) {
      assert y in t - a;
    }
    AtMostIsTotal(x.timestamp, x.timestamp);
    SubsetIsSmaller(a + {y}, NotOlder(t, x));
    SubsetIsSmaller(NotOlder(t, x), t);
    assert |Newer(t, x)| < n < |NotOlder(t, x)|;
  }

  lemma {:induction false} Between(lo: Rows, hi: Rows, n: nat) returns (a: Rows)
    requires lo <= hi && |lo| <= n <= |hi|
    ensures lo <= a <= hi && |a| == n
    decreases n - |lo|
  {
    if n == |lo| {
      a := lo;
    } else {
      var x := HasMore(lo, hi);
      a := Between(lo + {x}, hi, n);
    }
  }

  lemma KeepsAround(t: Rows, r: Row, a: Rows)
    requires Newer(t, r) <= a <= NotOlder(t, r)
    ensures NewestOf(t, a)
  {
    forall gone, k | gone in t - a && k in a ensures AtMost(gone.timestamp, k.timestamp) {
      AtMostIsTotal(gone.timestamp, r.timestamp);
      AtMostIsTransitive(gone.timestamp, r.timestamp, k.timestamp);
    }
  }

  /** A tie across n leaves a choice. */
  lemma TieLeavesChoice(t: Rows, n: nat) returns (a: Rows, b: Rows)
    requires TieAcross(t, n)
    ensures KeepsNewest(t, a, n) && KeepsNewest(t, b, n) && a != b && n < |t|
  {
    var r :| r in t && |Newer(t, r)| < n < |NotOlder(t, r)|;
    var lo, hi := Newer(t, r), NotOlder(t, r);
    a := Between(lo, hi, n);
    var x := HasMore(lo, a);
    var y := HasMore(a, hi);
    b := a - {x} + {y};
    KeepsAround(t, r, a);
    KeepsAround(t, r, b);
    SubsetIsSmaller(hi, t);
  }

  lemma RowsFirstKeeps(t: Rows, cutoff: string, n: nat, daysFirst: Rows, newest: Rows)
    requires KeepsNewest(NotBefore(t, cutoff), daysFirst, n) && KeepsNewest(t, newest, n)
    ensures KeepsNewest(NotBefore(t, cutoff), NotBefore(newest, cutoff), n)
  {
    SameNumberKept(t, cutoff, n, daysFirst, newest);
    forall gone, k | gone in NotBefore(t, cutoff) - NotBefore(newest, cutoff) && k in NotBefore(newest, cutoff)
      ensures AtMost(gone.timestamp, k.timestamp)
    {
      assert gone in t - newest;
    }
  }

  /** The order in which the code applies the two policies and the order its comment gives keep the same
      rows, however the database breaks ties, if and only if no tie among the rows that are recent enough
      straddles the row limit. */
  lemma OrderOfPoliciesIsImmaterial(t: Rows, cutoff: string, n: nat)
    ensures (forall daysFirst, newest ::
               KeepsNewest(NotBefore(t, cutoff), daysFirst, n) && KeepsNewest(t, newest, n)
               ==> NotBefore(newest, cutoff) == daysFirst)
            <==> !TieAcross(NotBefore(t, cutoff), n)
  {
    var recent := NotBefore(t, cutoff);
    if TieAcross(recent, n) {
      var a, b := TieLeavesChoice(recent, n);
      SubsetIsSmaller(recent, t);
      NotBeforeIsNewest(t, cutoff);
      NewestOfTwice(t, recent, b);
      assert KeepsNewest(t, b, n) && NotBefore(b, cutoff) == b;
    } else {
      forall daysFirst, newest | KeepsNewest(recent, daysFirst, n) && KeepsNewest(t, newest, n)
        ensures NotBefore(newest, cutoff) == daysFirst
      {
        NoTieNoChoice(t, cutoff, n, daysFirst, newest);
      }
    }
  }

  lemma NoTieNoChoice(t: Rows, cutoff: string, n: nat, daysFirst: Rows, newest: Rows)
    requires KeepsNewest(NotBefore(t, cutoff), daysFirst, n) && KeepsNewest(t, newest, n)
    requires !TieAcross(NotBefore(t, cutoff), n)
    ensures NotBefore(newest, cutoff) == daysFirst
  {
    var recent, rowsFirst := NotBefore(t, cutoff), NotBefore(newest, cutoff);
    RowsFirstKeeps(t, cutoff, n, daysFirst, newest);
    forall x ensures x in rowsFirst <==> x in daysFirst {
      if x in rowsFirst && x !in daysFirst { DifferByTie(recent, n, rowsFirst, daysFirst, x); }
      if x in daysFirst && x !in rowsFirst { DifferByTie(recent, n, daysFirst, rowsFirst, x); }
    }
  }

  /** Distinct timestamps never tie. */
  lemma DistinctTimesNeverTie(t: Rows, n: nat)
    requires TimesDistinct(t)
    ensures !TieAcross(t, n)
  {
    forall r | r in t ensures |NotOlder(t, r)| == |Newer(t, r)| + 1 {
      AtMostIsTotal(r.timestamp, r.timestamp);
      assert NotOlder(t, r) == Newer(t, r) + {r};
    }
  }
}
