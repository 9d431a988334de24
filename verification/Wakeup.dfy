/** NOTIFY-driven enrichment: no wakeup is lost (apps/enricher/enricher.py, apps/ingester/ingester.py).
    LISTEN is held throughout, and each transaction is one step. */
module Wakeup {
  import opened Base
  import opened Stages
  import opened Queue
  import opened Workers

  /** The table, the NOTIFYs not yet consumed, and the batch being worked on, if any: the ids still to
      process, and how many of the batch were put back so far. */
  datatype State = State(rows: Table, queued: nat, busy: bool, todo: seq<nat>, putBack: nat, renotify: bool)

  datatype Event =
    /** An ingest transaction inserts a pending row, or re-pends a known one, and sends its NOTIFY. */
    | RowInserted(attempts: nat)
    | RowScraped(id: nat, repended: bool)
    /** Another worker's write.  It makes no row pending: re-routing an auction does, and is left out. */
    | RowWritten(id: nat, row: StageRow)
    | WorkerWakes
    /** The worker finishes the j-th of its remaining rows: the gather runs in any order. */
    | RowProcessed(j: nat, happening: Happening)
    | BatchEnds

  ghost predicate Possible(s: State, e: Event) {
    match e
    case RowInserted(_) => true
    case RowScraped(id, _) => id < |s.rows|
    case RowWritten(id, row) => id < |s.rows| && !IsPending(row)
    case WorkerWakes => !s.busy && s.queued > 0
    case RowProcessed(j, h) => s.busy && j < |s.todo| && s.todo[j] < |s.rows| && MayHappen(TheEnricher, h)
    case BatchEnds => s.busy && s.todo == []
  }

  function After(s: State, e: Event, limit: nat, max: nat): State
    requires e.RowScraped? ==> e.id < |s.rows|
    requires e.RowWritten? ==> e.id < |s.rows|
    requires e.WorkerWakes? ==> s.queued > 0
    requires e.RowProcessed? ==> e.j < |s.todo| && s.todo[e.j] < |s.rows|
  {
    match e
    case RowInserted(attempts) => s.(rows := s.rows + [Row(Pending, attempts)], queued := s.queued + 1)
    case RowScraped(id, repended) =>
      s.(rows := if repended then s.rows[id := WithStatus(s.rows[id], Pending)] else s.rows, queued := s.queued + 1)
    case RowWritten(id, row) => s.(rows := s.rows[id := row])
    case WorkerWakes =>
      var ids := Batch(s.rows, limit);
      State(Marked(s.rows, ids), s.queued - 1, true, ids, 0, false)
    case RowProcessed(j, h) =>
      var id := s.todo[j];
      var row := Processed(s.rows[id], h, max);
      var back := IsPending(row) && !IsPending(s.rows[id]);
      s.(rows := s.rows[id := row], todo := s.todo[..j] + s.todo[j + 1..],
         putBack := s.putBack + (if back then 1 else 0), renotify := s.renotify || LeavesTransient(s.rows[id], h, max))
    case BatchEnds => State(s.rows, if s.renotify then s.queued + 1 else s.queued, false, [], 0, false)
  }

  ghost predicate Step(s: State, e: Event, t: State, limit: nat, max: nat) {
    Possible(s, e) && t == After(s, e, limit, max)
  }

  /** A run starts idle, with nothing pending and no NOTIFY queued, as the catchup sweep leaves it. */
  ghost predicate Run(states: seq<State>, events: seq<Event>, limit: nat, max: nat) {
    && |states| == |events| + 1
    && NonePending(states[0].rows) && !states[0].busy && states[0].queued == 0 && states[0].putBack == 0
    && states[0].todo == [] && !states[0].renotify
    && forall n :: 0 <= n < |events| ==> Step(states[n], events[n], states[n + 1], limit, max)
  }

  // ---- counting pending rows ----

  lemma {:induction false} CountAfterWrite(rows: Table, id: nat, row: StageRow)
    requires id < |rows|
    ensures PendingCount(rows[id := row])
            == PendingCount(rows) - (if IsPending(rows[id]) then 1 else 0) + (if IsPending(row) then 1 else 0)
  {
    var n := |rows| - 1;
    if id == n {
      assert rows[id := row][..n] == rows[..n];
    } else {
      CountAfterWrite(rows[..n], id, row);
      assert rows[id := row][..n] == rows[..n][id := row];
    }
  }

  lemma {:induction false} CountOfNone(rows: Table)
    ensures PendingCount(rows) == 0 <==> NonePending(rows)
  {
    if rows != [] {
      var init := rows[..|rows| - 1];
      CountOfNone(init);
      assert forall i :: 0 <= i < |init| ==> init[i] == rows[i];
    }
  }

  /** A claim takes as many pending rows as it may. */
  lemma {:induction false} ClaimSize(rows: Table, limit: nat, n: nat)
    requires n <= |rows|
    ensures |Claimed(rows, {}, limit, n)| == if PendingCount(rows[..n]) <= limit then PendingCount(rows[..n]) else limit
  {
    if n > 0 {
      ClaimSize(rows, limit, n - 1);
      assert rows[..n][..n - 1] == rows[..n - 1];
    }
  }

  lemma {:induction false} CountAfterClaim(rows: Table, limit: nat, n: nat)
    requires n <= |rows|
    ensures PendingCount(Marked(rows, Batch(rows, limit))[..n])
            == PendingCount(rows[..n]) - |Claimed(rows, {}, limit, n)|
  {
    if n > 0 {
      CountAfterClaim(rows, limit, n - 1);
      NextClaimed(rows, {}, limit, n);
      var marked := Marked(rows, Batch(rows, limit));
      assert rows[..n][..n - 1] == rows[..n - 1] && marked[..n][..n - 1] == marked[..n - 1];
    }
  }

  /** Waking up leaves what did not fit into the batch. */
  lemma CountAfterWaking(rows: Table, limit: nat)
    ensures PendingCount(Marked(rows, Batch(rows, limit)))
            == if PendingCount(rows) <= limit then 0 else PendingCount(rows) - limit
    ensures |Batch(rows, limit)| <= limit
  {
    CountAfterClaim(rows, limit, |rows|);
    ClaimSize(rows, limit, |rows|);
    var marked := Marked(rows, Batch(rows, limit));
    assert rows[..|rows|] == rows && marked[..|rows|] == marked;
  }

  // ---- the invariant ----

  function Times(n: nat, limit: nat): nat { n * limit }

  lemma OneMore(n: nat, limit: nat)
    ensures Times(n + 1, limit) == Times(n, limit) + limit
  {
  }

  /** Every pending row is covered by a queued NOTIFY's batch or by the self-NOTIFY to come. */
  ghost predicate Covered(s: State, limit: nat) {
    && PendingCount(s.rows) <= Times(s.queued, limit) + s.putBack
    && s.putBack + |s.todo| <= limit
    && (s.putBack > 0 ==> s.renotify)
    && (!s.busy ==> s.putBack == 0 && s.todo == [])
  }

  lemma ProcessingKeepsCovered(s: State, j: nat, h: Happening, limit: nat, max: nat)
    requires Covered(s, limit) && Possible(s, RowProcessed(j, h))
    ensures Covered(After(s, RowProcessed(j, h), limit, max), limit)
  {
    CountAfterWrite(s.rows, s.todo[j], After(s, RowProcessed(j, h), limit, max).rows[s.todo[j]]);
  }

  lemma StepKeepsCovered(s: State, e: Event, limit: nat, max: nat)
    requires Covered(s, limit) && Possible(s, e) && limit > 0
    ensures Covered(After(s, e, limit, max), limit)
  {
    match e
    case RowInserted(attempts) =>
      var rows := After(s, e, limit, max).rows;
      assert rows[..|rows| - 1] == s.rows;
      OneMore(s.queued, limit);
    case RowScraped(id, repended) =>
      CountAfterWrite(s.rows, id, WithStatus(s.rows[id], Pending));
      OneMore(s.queued, limit);
    case RowWritten(id, row) => CountAfterWrite(s.rows, id, row);
    case WorkerWakes =>
      CountAfterWaking(s.rows, limit);
      OneMore(s.queued - 1, limit);
    case RowProcessed(j, h) => ProcessingKeepsCovered(s, j, h, limit, max);
    case BatchEnds => OneMore(s.queued, limit);
  }

  lemma {:induction false} EveryRunIsCovered(states: seq<State>, events: seq<Event>, limit: nat, max: nat, n: nat)
    requires Run(states, events, limit, max) && n <= |events| && limit > 0
    ensures Covered(states[n], limit)
  {
    if n == 0 {
      CountOfNone(states[0].rows);
    } else {
      EveryRunIsCovered(states, events, limit, max, n - 1);
      assert Step(states[n - 1], events[n - 1], states[n], limit, max);
      StepKeepsCovered(states[n - 1], events[n - 1], limit, max);
    }
  }

  /** No lost wakeup: pending rows never exceed a batch for each outstanding NOTIFY, the running batch
      counting as one; so an idle worker with no NOTIFY queued leaves nothing pending. */
  lemma NoLostWakeup(states: seq<State>, events: seq<Event>, limit: nat, max: nat, n: nat)
    requires Run(states, events, limit, max) && n <= |events| && limit > 0
    ensures var s := states[n];
            && PendingCount(s.rows) <= Times(s.queued + (if s.busy then 1 else 0), limit)
            && (!s.busy && s.queued == 0 ==> NonePending(s.rows))
  {
    EveryRunIsCovered(states, events, limit, max, n);
    OneMore(states[n].queued, limit);
    CountOfNone(states[n].rows);
  }

  // ---- what one NOTIFY drains ----

  lemma {:induction false} SameCount(a: Table, b: Table)
    requires |a| == |b| && forall i :: 0 <= i < |a| ==> IsPending(a[i]) == IsPending(b[i])
    ensures PendingCount(a) == PendingCount(b)
  {
    if a != [] {
      SameCount(a[..|a| - 1], b[..|b| - 1]);
    }
  }

  /** Processing a claimed row leaves it pending again. */
  predicate IsPutBack(rows: Table, id: nat, fate: nat -> Happening, max: nat) {
    id < |rows| && IsPending(Processed(Taken(rows[id]), fate(id), max))
  }

  /** One batch drains the table exactly when the pending rows fit into it and none of them is put back. */
  lemma OneBatchDrainsIff(rows: Table, limit: nat, fate: nat -> Happening, max: nat)
    ensures NonePending(AfterBatch(rows, Batch(rows, limit), fate, max))
            <==> && PendingCount(rows) <= limit
                 && forall id :: id in Batch(rows, limit) ==> !IsPutBack(rows, id, fate, max)
  {
    var ids := Batch(rows, limit);
    var done, marked := AfterBatch(rows, ids, fate, max), Marked(rows, ids);
    ClaimTakesTheFirst(rows, {}, limit, |rows|);
    if id :| id in ids && IsPutBack(rows, id, fate, max) {
      assert IsPending(done[id]);
    } else {
      forall i: nat | i < |rows| ensures IsPending(done[i]) == IsPending(marked[i]) {
        assert i in ids ==> !IsPutBack(rows, i, fate, max);
      }
      SameCount(done, marked);
      CountAfterWaking(rows, limit);
      CountOfNone(done);
    }
  }

  /** The batches that one NOTIFY starts: another one for as long as a batch ends with a self-NOTIFY.  The
      result is the table before the last of them, and its number. */
  ghost function BeforeLastBatch(rows: Table, w: Worker, limit: nat, fates: Fates, max: nat, pass: nat): (Table, nat)
    requires AllPassesMayHappen(w, fates)
    decreases Work(rows, max)
  {
    var ids := Batch(rows, limit);
    if !AnyTransient(rows, ids, fates(pass), max) then (rows, pass)
    else
      WholeBatchLightens(rows, w, limit, fates(pass), max);
      BeforeLastBatch(AfterBatch(rows, ids, fates(pass), max), w, limit, fates, max, pass + 1)
  }

  ghost function AfterOneNotify(rows: Table, w: Worker, limit: nat, fates: Fates, max: nat): Table
    requires AllPassesMayHappen(w, fates)
  {
    var last := BeforeLastBatch(rows, w, limit, fates, max, 0);
    AfterBatch(last.0, Batch(last.0, limit), fates(last.1), max)
  }

  /** The listener loop, from the moment that one NOTIFY is all there is. */
  method ListenToOne(table: StageTable, w: Worker, limit: nat, fates: Fates, max: nat)
    requires AllPassesMayHappen(w, fates)
    modifies table
    ensures table.rows == AfterOneNotify(old(table.rows), w, limit, fates, max)
  {
    var queued, pass: nat := 1, 0;
    ghost var start := table.rows;
    while queued > 0
      invariant queued <= 1
      invariant queued == 1 ==>
                  BeforeLastBatch(start, w, limit, fates, max, 0)
                  == BeforeLastBatch(table.rows, w, limit, fates, max, pass)
      invariant queued == 0 ==> table.rows == AfterOneNotify(start, w, limit, fates, max)
      decreases Work(table.rows, max), queued
    {
      WholeBatchLightens(table.rows, w, limit, fates(pass), max);
      queued := queued - 1;
      var _, renotify := ProcessPending(table, w, limit, fates(pass), max);
      if renotify {
        queued := queued + 1;
      }
      pass := pass + 1;
    }
  }

  ghost predicate PutsNothingBack(batch: (Table, nat), limit: nat, fates: Fates, max: nat) {
    forall id :: id in Batch(batch.0, limit) ==> !IsPutBack(batch.0, id, fates(batch.1), max)
  }

  lemma UneventfulPutsNothingBack(rows: Table, w: Worker, limit: nat, fates: Fates, max: nat, pass: nat)
    requires AllMayHappen(w, fates(pass)) && !AnyTransient(rows, Batch(rows, limit), fates(pass), max)
    ensures PutsNothingBack((rows, pass), limit, fates, max)
  {
    forall id | id in Batch(rows, limit) ensures !IsPutBack(rows, id, fates(pass), max) {
      assert !Leaves(rows, id, fates(pass), max) && MayHappen(w, fates(pass)(id));
    }
  }

  lemma {:induction false} LastBatchPutsNothingBack(
      rows: Table, w: Worker, limit: nat, fates: Fates, max: nat, pass: nat)
    requires AllPassesMayHappen(w, fates)
    ensures PutsNothingBack(BeforeLastBatch(rows, w, limit, fates, max, pass), limit, fates, max)
    decreases Work(rows, max)
  {
    var ids := Batch(rows, limit);
    assert AllMayHappen(w, fates(pass));
    if AnyTransient(rows, ids, fates(pass), max) {
      WholeBatchLightens(rows, w, limit, fates(pass), max);
      var after := AfterBatch(rows, ids, fates(pass), max);
      LastBatchPutsNothingBack(after, w, limit, fates, max, pass + 1);
      assert BeforeLastBatch(rows, w, limit, fates, max, pass)
             == BeforeLastBatch(after, w, limit, fates, max, pass + 1);
    } else {
      UneventfulPutsNothingBack(rows, w, limit, fates, max, pass);
    }
  }

  /** Whatever happens to the rows, one NOTIFY drains the table exactly when the rows pending before the
      last batch it leads to fit into that batch. */
  lemma OneNotifyDrainsIff(rows: Table, w: Worker, limit: nat, fates: Fates, max: nat)
    requires AllPassesMayHappen(w, fates)
    ensures NonePending(AfterOneNotify(rows, w, limit, fates, max))
            <==> PendingCount(BeforeLastBatch(rows, w, limit, fates, max, 0).0) <= limit
  {
    var last := BeforeLastBatch(rows, w, limit, fates, max, 0);
    LastBatchPutsNothingBack(rows, w, limit, fates, max, 0);
    OneBatchDrainsIff(last.0, limit, fates(last.1), max);
  }

  /** So a NOTIFY whose batch has no transient outcome drains the table exactly when it fits one batch. */
  lemma UneventfulNotifyDrainsOneBatch(rows: Table, w: Worker, limit: nat, fates: Fates, max: nat)
    requires AllPassesMayHappen(w, fates) && !AnyTransient(rows, Batch(rows, limit), fates(0), max)
    ensures NonePending(AfterOneNotify(rows, w, limit, fates, max)) <==> PendingCount(rows) <= limit
  {
    OneNotifyDrainsIff(rows, w, limit, fates, max);
  }
}
