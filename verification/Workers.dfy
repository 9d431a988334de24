/** The three workers' batch and sweep loops and their retry budget (apps/enricher/enricher.py,
    apps/valuator/valuator.py, apps/notifier/notifier.py). */
module Workers {
  import opened Base
  import opened Offers
  import opened Matcher
  import opened Stages
  import opened Queue
  import opened Ledger
  import opened Valuator
  import Enricher
  import Notifier

  datatype Worker = TheEnricher | TheValuator | TheNotifier

  /** What processing one claimed row can come to. */
  datatype Happening =
    /** The row was deleted before the write; `late` if that was noticed only when a failure was to be
        written, which the notifier reports as transient. */
    | Vanished(late: bool)
    /** Nothing could be written: the auction row is gone, or an exception escaped. */
    | Abandoned(escaped: bool)
    /** A terminal status, and whether the pass counts as an attempt. */
    | Finished(status: Status, counts: bool)
    | CountedFailure(permanent: bool)

  predicate MayHappen(w: Worker, h: Happening) {
    match h
    case Vanished(late) => late ==> w == TheNotifier
    case Abandoned(escaped) => escaped || w != TheValuator
    case Finished(status, counts) => (
      match w
      case TheEnricher => (status == Done && counts) || (status == Skipped && !counts)
      case TheValuator => status in {Done, Insufficient, Skipped} && counts
      case TheNotifier => status in {Done, Skipped} && !counts)
    case CountedFailure(permanent) => !permanent || w == TheEnricher
  }

  /** A row after processing: an abandoned one is left as it is found. */
  function Processed(r: StageRow, h: Happening, max: nat): StageRow {
    if r.Gone? then Gone
    else match h
      case Vanished(_) => Gone
      case Abandoned(_) => r
      case Finished(status, counts) => Row(status, if counts then r.attempts + 1 else r.attempts)
      case CountedFailure(permanent) => Retried(r.attempts, permanent, max)
  }

  /** The batch loop's view: an escaped exception is recorded as transient as well. */
  predicate LeavesTransient(r: StageRow, h: Happening, max: nat) {
    h == Abandoned(true) || h == Vanished(true) || (h.CountedFailure? && IsPending(Processed(r, h, max)))
  }

  // ---- the rows of the three stages go through these happenings ----

  function EnricherHappening(o: Offer, auctionGone: bool, wants: seq<WantCriteria>,
                             answer: Enricher.Answer): Happening
  {
    if o.kind == AuctionLot && auctionGone then Abandoned(false)
    else if Enricher.GatedOut(o, wants) then Finished(Skipped, false)
    else if answer.Failure? then CountedFailure(answer.permanent) else Finished(Done, true)
  }

  lemma EnricherRefines(o: Offer, auctionGone: bool, wants: seq<WantCriteria>, answer: Enricher.Answer,
                        yearCap: int, max: nat)
    ensures var h := EnricherHappening(o, auctionGone, wants, answer);
            && MayHappen(TheEnricher, h)
            && EnrichmentRow(Enricher.AfterPass(o, auctionGone, wants, answer, yearCap, max))
               == Processed(EnrichmentRow(o), h, max)
  {
  }

  lemma ValuatorRefines(o: Offer, m: Market, w: Weights, c: Context, before: Matched, raises: bool, max: nat)
      returns (h: Happening)
    ensures MayHappen(TheValuator, h)
    ensures ValuationRow(AfterValuation(o, m, w, c, before, raises, max).row) == Processed(ValuationRow(o), h, max)
  {
    if raises {
      h := CountedFailure(false);
    } else {
      StatusTellsTheVerdict(Tried(o), m, w, true);
      StatusTellsTheVerdict(Tried(o), m, w, false);
      h := Finished(AfterValuation(o, m, w, c, before, raises, max).row.statuses.valuation, true);
    }
  }

  lemma NotifierRefines(o: Offer, m: Option<AuctionTerms>, c: Context, rows: seq<Key>, ts: seq<Notifier.TriggerPost>,
                        p: Notifier.Posting, before: Matched, max: nat) returns (h: Happening)
    ensures MayHappen(TheNotifier, h)
    ensures NotificationRow(Notifier.AfterNotification(o, m, c, rows, ts, p, before, max).row)
            == Processed(NotificationRow(o), h, max)
  {
    var r := NotificationRow(Notifier.AfterNotification(o, m, c, rows, ts, p, before, max).row);
    h := if o.kind == AuctionLot && m.None? then Abandoned(false)
         else if r.attempts > o.attempts.notification then CountedFailure(false) else Finished(r.status, false);
  }

  // ---- one batch ----

  /** A row that this batch has claimed. */
  function Taken(r: StageRow): StageRow {
    WithStatus(r, InProgress)
  }

  /** Each claimed row is processed, in whatever order; no other row is touched. */
  function AfterBatch(rows: Table, ids: seq<nat>, fate: nat -> Happening, max: nat): Table {
    seq(|rows|, i requires 0 <= i < |rows| => if i in ids then Processed(Taken(rows[i]), fate(i), max) else rows[i])
  }

  predicate Leaves(rows: Table, id: nat, fate: nat -> Happening, max: nat) {
    id < |rows| && LeavesTransient(Taken(rows[id]), fate(id), max)
  }

  predicate AnyTransient(rows: Table, ids: seq<nat>, fate: nat -> Happening, max: nat) {
    exists id :: id in ids && Leaves(rows, id, fate, max)
  }

  function Batch(rows: Table, limit: nat): seq<nat> {
    Claimed(rows, {}, limit, |rows|)
  }

  /** Taking one id out of a rising sequence. */
  lemma TakeOut(ids: seq<nat>, j: nat)
    requires Rising(ids) && j < |ids|
    ensures Rising(ids[..j] + ids[j + 1..])
    ensures forall k :: k in ids[..j] + ids[j + 1..] <==> k in ids && k != ids[j]
  {
    var rest := ids[..j] + ids[j + 1..];
    assert forall i :: 0 <= i < |rest| ==> rest[i] == if i < j then ids[i] else ids[i + 1];
    forall k | k in ids && k != ids[j] ensures k in rest {
      var i :| 0 <= i < |ids| && ids[i] == k;
      assert rest[if i < j then i else i - 1] == k;
    }
  }

  method ProcessRow(table: StageTable, id: nat, fate: nat -> Happening, max: nat) returns (transient: bool)
    requires id < |table.rows| && table.rows[id] == Taken(table.rows[id])
    modifies table
    ensures table.rows == old(table.rows)[id := Processed(old(table.rows)[id], fate(id), max)]
    ensures transient == Leaves(old(table.rows), id, fate, max)
  {
    transient := LeavesTransient(table.rows[id], fate(id), max);
    table.rows := table.rows[id := Processed(table.rows[id], fate(id), max)];
  }

  /** The table in the middle of a batch: `todo` is claimed but not processed yet. */
  function PartlyDone(rows: Table, ids: seq<nat>, todo: seq<nat>, fate: nat -> Happening, max: nat): Table {
    seq(|rows|, i requires 0 <= i < |rows| =>
      if i in todo then Taken(rows[i])
      else if i in ids then Processed(Taken(rows[i]), fate(i), max) else rows[i])
  }

  predicate TransientSoFar(rows: Table, ids: seq<nat>, todo: seq<nat>, fate: nat -> Happening, max: nat) {
    exists id :: id in ids && id !in todo && Leaves(rows, id, fate, max)
  }

  lemma NextProcessed(rows: Table, ids: seq<nat>, todo: seq<nat>, j: nat, fate: nat -> Happening, max: nat)
    requires Rising(todo) && j < |todo| && todo[j] < |rows| && todo[j] in ids
    ensures var now, rest := PartlyDone(rows, ids, todo, fate, max), todo[..j] + todo[j + 1..];
            && PartlyDone(rows, ids, rest, fate, max)
               == now[todo[j] := Processed(now[todo[j]], fate(todo[j]), max)]
            && now[todo[j]] == Taken(now[todo[j]])
            && Leaves(now, todo[j], fate, max) == Leaves(rows, todo[j], fate, max)
            && (TransientSoFar(rows, ids, rest, fate, max)
                <==> TransientSoFar(rows, ids, todo, fate, max) || Leaves(rows, todo[j], fate, max))
  {
    TakeOut(todo, j);
    assert todo[j] in todo;
  }

  /** Claims a batch and processes it, the enricher in any order and the others in id order.
      `renotify` reports the self-NOTIFY. */
  method ProcessPending(table: StageTable, w: Worker, limit: nat, fate: nat -> Happening, max: nat)
      returns (n: nat, renotify: bool)
    modifies table
    ensures var ids := Batch(old(table.rows), limit);
            && n == |ids|
            && table.rows == AfterBatch(old(table.rows), ids, fate, max)
            && renotify == AnyTransient(old(table.rows), ids, fate, max)
  {
    ghost var start := table.rows;
    var ids := table.ClaimPendingIds({}, limit);
    ClaimTakesTheFirst(start, {}, limit, |start|);
    n, renotify := |ids|, false;
    var todo: seq<nat> := ids;
    while todo != []
      invariant Rising(todo) && forall i :: 0 <= i < |todo| ==> todo[i] in ids && todo[i] < |start|
      invariant table.rows == PartlyDone(start, ids, todo, fate, max)
      invariant renotify == TransientSoFar(start, ids, todo, fate, max)
      decreases |todo|
    {
      var j :| 0 <= j < |todo| && (w != TheEnricher ==> j == 0);
      TakeOut(todo, j);
      NextProcessed(start, ids, todo, j, fate, max);
      var transient := ProcessRow(table, todo[j], fate, max);
      renotify := renotify || transient;
      todo := todo[..j] + todo[j + 1..];
    }
  }

  // ---- the sweep ends ----

  /** How many more batches a pending row can take part in. */
  function Weight(r: StageRow, max: nat): nat {
    if !IsPending(r) then 0 else if r.attempts + 1 < max then max - r.attempts else 1
  }

  function Work(rows: Table, max: nat): nat {
    if rows == [] then 0 else Work(rows[..|rows| - 1], max) + Weight(rows[|rows| - 1], max)
  }

  lemma ProcessingLightens(r: StageRow, w: Worker, h: Happening, max: nat)
    requires IsPending(r) && MayHappen(w, h)
    ensures Weight(Processed(Taken(r), h, max), max) + 1 <= Weight(r, max)
  {
  }

  ghost predicate AllMayHappen(w: Worker, fate: nat -> Happening) {
    forall id :: MayHappen(w, fate(id))
  }

  /** Every claimed row takes at least one unit of work off the table. */
  lemma {:induction false} BatchLightens(rows: Table, w: Worker, limit: nat, fate: nat -> Happening, max: nat, n: nat)
    requires n <= |rows| && AllMayHappen(w, fate)
    ensures Work(AfterBatch(rows, Batch(rows, limit), fate, max)[..n], max) + |Claimed(rows, {}, limit, n)|
            <= Work(rows[..n], max)
  {
    if n > 0 {
      BatchLightens(rows, w, limit, fate, max, n - 1);
      var ids, after := Batch(rows, limit), AfterBatch(rows, Batch(rows, limit), fate, max);
      assert rows[..n][..n - 1] == rows[..n - 1] && after[..n][..n - 1] == after[..n - 1];
      NextClaimed(rows, {}, limit, n);
      if n - 1 in ids {
        ProcessingLightens(rows[n - 1], w, fate(n - 1), max);
      }
    }
  }

  lemma WholeBatchLightens(rows: Table, w: Worker, limit: nat, fate: nat -> Happening, max: nat)
    requires AllMayHappen(w, fate)
    ensures Work(AfterBatch(rows, Batch(rows, limit), fate, max), max) + |Batch(rows, limit)| <= Work(rows, max)
  {
    BatchLightens(rows, w, limit, fate, max, |rows|);
    var after := AfterBatch(rows, Batch(rows, limit), fate, max);
    assert rows[..|rows|] == rows && after[..|rows|] == after;
  }

  ghost predicate NonePending(rows: Table) {
    forall i :: 0 <= i < |rows| ==> !IsPending(rows[i])
  }

  lemma EmptyBatchMeansNonePending(rows: Table, limit: nat)
    requires limit > 0 && Batch(rows, limit) == []
    ensures NonePending(rows)
  {
    ClaimTakesTheFirst(rows, {}, limit, |rows|);
    forall i | 0 <= i < |rows| ensures !IsPending(rows[i]) {
      assert Claimable(rows, {}, i) <==> IsPending(rows[i]);
    }
  }

  /** What each pass of the environment does to each row. */
  type Fates = nat -> (nat -> Happening)

  ghost predicate AllPassesMayHappen(w: Worker, fates: Fates) {
    forall pass :: AllMayHappen(w, fates(pass))
  }

  /** The table after draining from a given pass on, and how many claims that took. */
  ghost function Drained(rows: Table, w: Worker, limit: nat, fates: Fates, max: nat, pass: nat): (Table, nat)
    requires AllPassesMayHappen(w, fates)
    decreases Work(rows, max)
  {
    var ids := Batch(rows, limit);
    if ids == [] then (rows, 0)
    else
      WholeBatchLightens(rows, w, limit, fates(pass), max);
      var rest := Drained(AfterBatch(rows, ids, fates(pass), max), w, limit, fates, max, pass + 1);
      (rest.0, rest.1 + |ids|)
  }

  /** Startup: recover the orphans, then claim batches until one comes back empty. */
  method CatchupSweep(table: StageTable, w: Worker, limit: nat, fates: Fates, max: nat) returns (recovered: nat)
    requires limit > 0 && AllPassesMayHappen(w, fates)
    modifies table
    ensures recovered == InProgressCount(old(table.rows))
    ensures table.rows == Drained(Recovered(old(table.rows)), w, limit, fates, max, 0).0
    ensures NonePending(table.rows)
  {
    recovered := table.RecoverOrphans();
    ghost var start := table.rows;
    var pass: nat := 0;
    while true
      invariant Drained(start, w, limit, fates, max, 0).0 == Drained(table.rows, w, limit, fates, max, pass).0
      decreases Work(table.rows, max)
    {
      ghost var before := table.rows;
      WholeBatchLightens(before, w, limit, fates(pass), max);
      var n, _ := ProcessPending(table, w, limit, fates(pass), max);
      if n == 0 {
        EmptyBatchChangesNothing(before, fates(pass), max);
        EmptyBatchMeansNonePending(before, limit);
        break;
      }
      pass := pass + 1;
    }
  }

  lemma EmptyBatchChangesNothing(rows: Table, fate: nat -> Happening, max: nat)
    ensures AfterBatch(rows, [], fate, max) == rows
  {
  }

  /** Rows that are not pending stay as they are, and no retry counter goes down. */
  ghost predicate TouchesPendingOnly(rows: Table, after: Table) {
    |after| == |rows| && forall i :: 0 <= i < |rows| ==> TouchedIfPending(rows[i], after[i])
  }

  predicate TouchedIfPending(r: StageRow, s: StageRow) {
    (!IsPending(r) ==> s == r) && (s.Row? ==> r.Row? && r.attempts <= s.attempts)
  }

  lemma BatchTouchesPendingOnly(rows: Table, limit: nat, fate: nat -> Happening, max: nat)
    ensures TouchesPendingOnly(rows, AfterBatch(rows, Batch(rows, limit), fate, max))
  {
    ClaimTakesTheFirst(rows, {}, limit, |rows|);
    var after := AfterBatch(rows, Batch(rows, limit), fate, max);
    forall i: nat | i < |rows| ensures TouchedIfPending(rows[i], after[i]) {
      assert i in Batch(rows, limit) ==> Claimable(rows, {}, i);
    }
  }

  /** A sweep ends with no pending row, claims no more often than the work it found, keeps every row
      that was not pending, and never lowers a retry counter. */
  lemma {:induction false} SweepDrains(rows: Table, w: Worker, limit: nat, fates: Fates, max: nat, pass: nat)
    requires limit > 0 && AllPassesMayHappen(w, fates)
    ensures var d := Drained(rows, w, limit, fates, max, pass);
            NonePending(d.0) && d.1 <= Work(rows, max) && TouchesPendingOnly(rows, d.0)
    decreases Work(rows, max)
  {
    var ids := Batch(rows, limit);
    if ids == [] {
      EmptyBatchMeansNonePending(rows, limit);
    } else {
      WholeBatchLightens(rows, w, limit, fates(pass), max);
      var after := AfterBatch(rows, ids, fates(pass), max);
      BatchTouchesPendingOnly(rows, limit, fates(pass), max);
      SweepDrains(after, w, limit, fates, max, pass + 1);
    }
  }

  /** The row ends as some pass leaves it, which found it with a counter no lower than at the start. */
  ghost predicate EndsProcessed(r: StageRow, end: StageRow, i: nat, fates: Fates, max: nat) {
    r.Row? && exists pass: nat, attempts: nat :: PassEnds(end, pass, attempts, i, fates, max) && r.attempts <= attempts
  }

  ghost predicate PassEnds(end: StageRow, pass: nat, attempts: nat, i: nat, fates: Fates, max: nat) {
    end == Processed(Row(InProgress, attempts), fates(pass)(i), max)
  }

  /** Every row that is pending is processed before the sweep ends. */
  lemma {:induction false} DrainProcessesAll(
      rows: Table, w: Worker, limit: nat, fates: Fates, max: nat, pass: nat, i: nat)
    requires limit > 0 && AllPassesMayHappen(w, fates) && i < |rows| && IsPending(rows[i])
    ensures var d := Drained(rows, w, limit, fates, max, pass).0;
            |d| == |rows| && EndsProcessed(rows[i], d[i], i, fates, max)
    decreases Work(rows, max)
  {
    var ids := Batch(rows, limit);
    SweepDrains(rows, w, limit, fates, max, pass);
    if ids == [] {
      EmptyBatchMeansNonePending(rows, limit);
    } else {
      WholeBatchLightens(rows, w, limit, fates(pass), max);
      var after := AfterBatch(rows, ids, fates(pass), max);
      assert Drained(rows, w, limit, fates, max, pass).0 == Drained(after, w, limit, fates, max, pass + 1).0;
      if IsPending(after[i]) {
        BatchTouchesPendingOnly(rows, limit, fates(pass), max);
        DrainProcessesAll(after, w, limit, fates, max, pass + 1, i);
        StillProcessed(rows[i], after[i], Drained(after, w, limit, fates, max, pass + 1).0[i], i, fates, max);
      } else {
        SweepDrains(after, w, limit, fates, max, pass + 1);
        assert after[i] == Drained(after, w, limit, fates, max, pass + 1).0[i];
        assert PassEnds(after[i], pass, rows[i].attempts, i, fates, max);
      }
    }
  }

  lemma StillProcessed(r: StageRow, s: StageRow, end: StageRow, i: nat, fates: Fates, max: nat)
    requires TouchedIfPending(r, s) && s.Row? && EndsProcessed(s, end, i, fates, max)
    ensures EndsProcessed(r, end, i, fates, max)
  {
    var pass: nat, attempts: nat :| PassEnds(end, pass, attempts, i, fates, max) && s.attempts <= attempts;
    assert PassEnds(end, pass, attempts, i, fates, max) && r.attempts <= attempts;
  }

  /** The whole sweep, orphans included: each row that was pending or in progress ends as some pass leaves
      it; every other row is as it was. */
  lemma SweepProcessesOrphansToo(start: Table, w: Worker, limit: nat, fates: Fates, max: nat, i: nat)
    requires limit > 0 && AllPassesMayHappen(w, fates) && i < |start|
    ensures var end := Drained(Recovered(start), w, limit, fates, max, 0).0;
            && |end| == |start|
            && if start[i].Row? && start[i].status in {Pending, InProgress}
               then EndsProcessed(start[i], end[i], i, fates, max)
               else end[i] == start[i]
  {
    RecoveryIsExact(start, i);
    SweepDrains(Recovered(start), w, limit, fates, max, 0);
    if IsPending(Recovered(start)[i]) {
      DrainProcessesAll(Recovered(start), w, limit, fates, max, 0, i);
    }
  }

  /** So when every pass finishes its rows with one status, all of them end with it. */
  lemma SweepFinishesAll(start: Table, w: Worker, limit: nat, fates: Fates, max: nat, status: Status, i: nat)
    requires limit > 0 && AllPassesMayHappen(w, fates) && i < |start|
    requires forall pass, id :: fates(pass)(id).Finished? && fates(pass)(id).status == status
    requires start[i].Row? && start[i].status in {Pending, InProgress}
    ensures var end := Drained(Recovered(start), w, limit, fates, max, 0).0;
            |end| == |start| && end[i].Row? && end[i].status == status
  {
    SweepProcessesOrphansToo(start, w, limit, fates, max, i);
  }

  // ---- the retry budget of one row over any run ----

  datatype RowEvent =
    | Claims
    | Works(happening: Happening)
    | Recovers
    /** Any other writer: the status may change, the counter does not. */
    | Rewrites(status: Status)

  function AfterEvent(r: StageRow, e: RowEvent, max: nat): StageRow {
    match e
    case Claims => if IsPending(r) then WithStatus(r, InProgress) else r
    case Works(h) => Processed(r, h, max)
    case Recovers => if IsInProgress(r) then WithStatus(r, Pending) else r
    case Rewrites(status) => WithStatus(r, status)
  }

  /** A counted failure that puts the row back for another try. */
  predicate IsRetry(r: StageRow, e: RowEvent, max: nat) {
    r.Row? && e.Works? && e.happening.CountedFailure? && IsPending(AfterEvent(r, e, max))
  }

  ghost predicate RowRun(rows: seq<StageRow>, events: seq<RowEvent>, max: nat) {
    |rows| == |events| + 1 && forall n :: 0 <= n < |events| ==> rows[n + 1] == AfterEvent(rows[n], events[n], max)
  }

  ghost function Retries(rows: seq<StageRow>, events: seq<RowEvent>, max: nat, n: nat): nat
    requires RowRun(rows, events, max) && n <= |events|
  {
    if n == 0 then 0
    else Retries(rows, events, max, n - 1) + (if IsRetry(rows[n - 1], events[n - 1], max) then 1 else 0)
  }

  lemma {:induction false} RetriesAreCounted(rows: seq<StageRow>, events: seq<RowEvent>, max: nat, n: nat)
    requires RowRun(rows, events, max) && n <= |events| && rows[0].Row?
    ensures rows[n].Row? ==> rows[0].attempts + Retries(rows, events, max, n) <= rows[n].attempts
    ensures Retries(rows, events, max, n) > 0 ==> rows[0].attempts + Retries(rows, events, max, n) + 1 <= max
  {
    if n > 0 {
      RetriesAreCounted(rows, events, max, n - 1);
      assert rows[n] == AfterEvent(rows[n - 1], events[n - 1], max);
    }
  }

  /** Over any run of claims, passes, recoveries and outside rewrites, a row is put back by a counted
      failure at most max - 1 times in its life, and once its counter stands at max - 1 every further
      counted failure writes FAILED. */
  lemma LifetimeRetryBudget(rows: seq<StageRow>, events: seq<RowEvent>, max: nat, n: nat)
    requires RowRun(rows, events, max) && n < |events| && rows[0].Row?
    ensures Retries(rows, events, max, n + 1) <= if max > rows[0].attempts then max - rows[0].attempts - 1 else 0
    ensures rows[n].Row? && events[n].Works? && events[n].happening.CountedFailure? && rows[n].attempts + 1 >= max ==>
              rows[n + 1] == Row(Failed, rows[n].attempts + 1)
    ensures rows[n].Row? && rows[n + 1].Row? ==> rows[n].attempts <= rows[n + 1].attempts <= rows[n].attempts + 1
  {
    RetriesAreCounted(rows, events, max, n + 1);
    assert rows[n + 1] == AfterEvent(rows[n], events[n], max);
  }

  // ---- what sends the self-NOTIFY ----

  /** A claimed row makes its batch self-NOTIFY when it is put back, when an exception escaped, or when a failure
      found it gone. */
  lemma TransientIs(r: StageRow, h: Happening, max: nat)
    requires r.Row?
    ensures LeavesTransient(r, h, max)
            <==> h == Abandoned(true) || h == Vanished(true)
                 || (h == CountedFailure(false) && r.attempts + 1 < max)
  {
  }
}
