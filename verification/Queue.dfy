/** The claim queue over one stage's status column (db/queue.py).  A row's id is its place in the table. */
module Queue {
  import opened Base
  import opened Stages

  type Table = seq<StageRow>

  predicate IsPending(r: StageRow) {
    r.Row? && r.status == Pending
  }

  predicate IsInProgress(r: StageRow) {
    r.Row? && r.status == InProgress
  }

  predicate Claimable(rows: Table, locked: set<nat>, i: nat) {
    i < |rows| && IsPending(rows[i]) && i !in locked
  }

  /** The ids below `n` that a claim of at most `limit` takes: pending, not locked, lowest ids first. */
  function Claimed(rows: Table, locked: set<nat>, limit: nat, n: nat): seq<nat>
    requires n <= |rows|
  {
    if n == 0 then []
    else
      var prev := Claimed(rows, locked, limit, n - 1);
      if |prev| < limit && Claimable(rows, locked, n - 1) then prev + [n - 1] else prev
  }

  function WithStatus(r: StageRow, s: Status): StageRow {
    if r.Row? then r.(status := s) else r
  }

  function Marked(rows: Table, ids: seq<nat>): Table {
    seq(|rows|, i requires 0 <= i < |rows| => if i in ids then WithStatus(rows[i], InProgress) else rows[i])
  }

  function Recovered(rows: Table): Table {
    seq(|rows|, i requires 0 <= i < |rows| => if IsInProgress(rows[i]) then WithStatus(rows[i], Pending) else rows[i])
  }

  function PendingCount(rows: Table): nat {
    if rows == [] then 0 else PendingCount(rows[..|rows| - 1]) + (if IsPending(rows[|rows| - 1]) then 1 else 0)
  }

  function InProgressCount(rows: Table): nat {
    if rows == [] then 0 else InProgressCount(rows[..|rows| - 1]) + (if IsInProgress(rows[|rows| - 1]) then 1 else 0)
  }

  class StageTable {
    var rows: Table

    /** Selects for update, skipping locked rows, and marks what it took. */
    method ClaimPendingIds(locked: set<nat>, limit: nat) returns (ids: seq<nat>)
      modifies this
      ensures ids == Claimed(old(rows), locked, limit, |old(rows)|)
      ensures rows == Marked(old(rows), ids)
    {
      ids := [];
      for i := 0 to |rows|
        invariant ids == Claimed(rows, locked, limit, i)
      {
        if |ids| < limit && Claimable(rows, locked, i) {
          ids := ids + [i];
        }
      }
      MarkInProgress(ids);
    }

    method MarkInProgress(ids: seq<nat>)
      modifies this
      ensures rows == Marked(old(rows), ids)
    {
      rows := Marked(rows, ids);
    }

    method RecoverOrphans() returns (count: nat)
      modifies this
      ensures rows == Recovered(old(rows)) && count == InProgressCount(old(rows))
    {
      count := InProgressCount(rows);
      rows := Recovered(rows);
    }
  }

  // ---- what a claim is ----

  ghost predicate Rising(ids: seq<nat>) {
    forall i, j :: 0 <= i < j < |ids| ==> ids[i] < ids[j]
  }

  /** Only claimable rows, in id order, at most `limit`; and a claimable row is left out only when the
      claim is full of lower ids. */
  lemma {:induction false} ClaimTakesTheFirst(rows: Table, locked: set<nat>, limit: nat, n: nat)
    requires n <= |rows|
    ensures var ids := Claimed(rows, locked, limit, n);
            && |ids| <= limit && Rising(ids)
            && (forall k :: k in ids ==> k < n && Claimable(rows, locked, k))
            && (forall k :: 0 <= k < n && Claimable(rows, locked, k) && k !in ids ==>
                  |ids| == limit && forall j :: j in ids ==> j < k)
  {
    if n > 0 {
      ClaimTakesTheFirst(rows, locked, limit, n - 1);
      var prev := Claimed(rows, locked, limit, n - 1);
      assert forall i :: 0 <= i < |prev| ==> prev[i] in prev;
    }
  }

  /** Looking at more rows adds later ids only. */
  lemma {:induction false} ClaimGrows(rows: Table, locked: set<nat>, limit: nat, n: nat, m: nat, k: nat)
    requires n <= m <= |rows| && k < n
    ensures k in Claimed(rows, locked, limit, m) <==> k in Claimed(rows, locked, limit, n)
    decreases m
  {
    if n < m {
      ClaimGrows(rows, locked, limit, n, m - 1, k);
    }
  }

  /** Whether the next row is taken does not depend on what follows it. */
  lemma NextClaimed(rows: Table, locked: set<nat>, limit: nat, n: nat)
    requires 0 < n <= |rows|
    ensures var before, all := Claimed(rows, locked, limit, n - 1), Claimed(rows, locked, limit, |rows|);
            && |Claimed(rows, locked, limit, n)| == |before| + (if n - 1 in all then 1 else 0)
            && (n - 1 in all ==> Claimable(rows, locked, n - 1))
  {
    ClaimGrows(rows, locked, limit, n, |rows|, n - 1);
    ClaimTakesTheFirst(rows, locked, limit, n - 1);
  }

  // ---- the bulk updates, row by row ----

  /** Recovery puts every orphan back with its counter, and touches nothing else. */
  lemma RecoveryIsExact(rows: Table, i: nat)
    requires i < |rows|
    ensures |Recovered(rows)| == |rows|
    ensures forall attempts :: rows[i] == Row(InProgress, attempts) ==> Recovered(rows)[i] == Row(Pending, attempts)
    ensures (rows[i].Row? ==> rows[i].status != InProgress) ==> Recovered(rows)[i] == rows[i]
  {
  }

  lemma {:induction false} RecoveryCounts(rows: Table)
    ensures PendingCount(Recovered(rows)) == PendingCount(rows) + InProgressCount(rows)
  {
    if rows != [] {
      var n := |rows| - 1;
      RecoveryCounts(rows[..n]);
      RecoveryIsExact(rows, n);
      assert Recovered(rows)[..n] == Recovered(rows[..n]);
    }
  }

  /** A claimed row is in progress with its counter; the others are untouched. */
  lemma MarkIsExact(rows: Table, locked: set<nat>, limit: nat, i: nat)
    requires i < |rows|
    ensures var ids := Claimed(rows, locked, limit, |rows|);
            && |Marked(rows, ids)| == |rows|
            && (i in ids ==> rows[i].Row? && rows[i].status == Pending
                             && Marked(rows, ids)[i] == Row(InProgress, rows[i].attempts))
            && (i !in ids ==> Marked(rows, ids)[i] == rows[i])
  {
    ClaimTakesTheFirst(rows, locked, limit, |rows|);
  }
}
