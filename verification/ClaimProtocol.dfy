/** Claiming under crashes: any number of processes of one stage start, try the lock, recover, claim,
    work and die (db/queue.py, shared/singleton.py, the workers' main and sweep).  The lock lives as long as the
    connection of the process that holds it. */
module ClaimProtocol {
  import opened Base
  import opened Stages
  import opened Queue
  import opened Workers

  datatype Phase =
    /** Before the lock attempt. */
    | Starting
    /** Holding the lock.  `batch` is claimed and not processed yet; `left` was claimed by this process
        and left in progress by an abandoned pass. */
    | Working(recovered: bool, batch: set<nat>, left: set<nat>)

  datatype System = System(lock: Option<nat>, live: map<nat, Phase>, rows: Table)

  datatype Event =
    | Started(pid: nat)
    | LockTried(pid: nat)
    | OrphansRecovered(pid: nat)
    | BatchClaimed(pid: nat, locked: set<nat>)
    | RowProcessed(pid: nat, id: nat, happening: Happening)
    /** The process dies or exits; its connection, and with it the lock, goes. */
    | Died(pid: nat)
    /** Other writers: new rows, re-pends and terminal statuses, but never the in-progress marker. */
    | RowAdded(row: StageRow)
    | RowWritten(id: nat, row: StageRow)

  ghost predicate Possible(s: System, e: Event) {
    match e
    case Started(pid) => pid !in s.live
    case LockTried(pid) => pid in s.live && s.live[pid].Starting?
    case OrphansRecovered(pid) => pid in s.live && s.live[pid].Working? && !s.live[pid].recovered
    case BatchClaimed(pid, _) =>
      pid in s.live && s.live[pid].Working? && s.live[pid].recovered && s.live[pid].batch == {}
    case RowProcessed(pid, id, _) =>
      pid in s.live && s.live[pid].Working? && id in s.live[pid].batch && id < |s.rows|
    case Died(pid) => pid in s.live
    case RowAdded(row) => !IsInProgress(row)
    case RowWritten(id, row) => id < |s.rows| && !IsInProgress(row)
  }

  function ProcessedBy(p: Phase, id: nat, after: StageRow): Phase
    requires p.Working?
  {
    p.(batch := p.batch - {id}, left := if IsInProgress(after) then p.left + {id} else p.left)
  }

  ghost function After(s: System, e: Event, limit: nat, max: nat): System
    requires Possible(s, e)
  {
    match e
    case Started(pid) => s.(live := s.live[pid := Starting])
    case LockTried(pid) =>
      if s.lock.None? then s.(lock := Some(pid), live := s.live[pid := Working(false, {}, {})])
      else s.(live := s.live - {pid})
    case OrphansRecovered(pid) => s.(rows := Recovered(s.rows), live := s.live[pid := s.live[pid].(recovered := true)])
    case BatchClaimed(pid, locked) =>
      var ids := Claimed(s.rows, locked, limit, |s.rows|);
      s.(rows := Marked(s.rows, ids), live := s.live[pid := s.live[pid].(batch := set k | k in ids)])
    case RowProcessed(pid, id, h) =>
      var row := Processed(s.rows[id], h, max);
      s.(rows := s.rows[id := row], live := s.live[pid := ProcessedBy(s.live[pid], id, row)])
    case Died(pid) => s.(lock := if s.lock == Some(pid) then None else s.lock, live := s.live - {pid})
    case RowAdded(row) => s.(rows := s.rows + [row])
    case RowWritten(id, row) => s.(rows := s.rows[id := row])
  }

  ghost predicate Step(s: System, e: Event, t: System, limit: nat, max: nat) {
    Possible(s, e) && t == After(s, e, limit, max)
  }

  /** A run starts with no process alive, whatever earlier crashes left in the table. */
  ghost predicate Run(systems: seq<System>, events: seq<Event>, limit: nat, max: nat) {
    && |systems| == |events| + 1
    && systems[0].lock.None? && systems[0].live == map[]
    && forall n :: 0 <= n < |events| ==> Step(systems[n], events[n], systems[n + 1], limit, max)
  }

  // ---- the invariant ----

  predicate Owns(s: System, pid: nat, id: nat) {
    pid in s.live && s.live[pid].Working? && id in s.live[pid].batch
  }

  ghost predicate LockIsOwnership(s: System) {
    && (forall pid :: pid in s.live && s.live[pid].Working? ==> s.lock == Some(pid))
    && (s.lock.Some? ==> s.lock.value in s.live && s.live[s.lock.value].Working?)
    && (s.lock.Some? && !s.live[s.lock.value].recovered ==>
          s.live[s.lock.value].batch == {} && s.live[s.lock.value].left == {})
  }

  /** Once the holder has recovered, the in-progress marker means what it says. */
  ghost predicate MarkerIsOwned(s: System) {
    s.lock.Some? && s.lock.value in s.live && s.live[s.lock.value].Working? && s.live[s.lock.value].recovered ==>
      forall id: nat :: id < |s.rows| && IsInProgress(s.rows[id]) ==>
        id in s.live[s.lock.value].batch + s.live[s.lock.value].left
  }

  lemma StepKeepsLock(s: System, e: Event, limit: nat, max: nat)
    requires LockIsOwnership(s) && Possible(s, e)
    ensures LockIsOwnership(After(s, e, limit, max))
  {
  }

  lemma ClaimKeepsMarker(s: System, e: Event, limit: nat, max: nat)
    requires LockIsOwnership(s) && MarkerIsOwned(s) && Possible(s, e) && e.BatchClaimed?
    ensures MarkerIsOwned(After(s, e, limit, max))
  {
    var ids := Claimed(s.rows, e.locked, limit, |s.rows|);
    var t := After(s, e, limit, max);
    forall id: nat | id < |t.rows| && IsInProgress(t.rows[id])
      ensures id in t.live[e.pid].batch + t.live[e.pid].left
    {
      if id !in ids {
        assert IsInProgress(s.rows[id]);
      }
    }
  }

  lemma StepKeepsMarker(s: System, e: Event, limit: nat, max: nat)
    requires LockIsOwnership(s) && MarkerIsOwned(s) && Possible(s, e)
    ensures MarkerIsOwned(After(s, e, limit, max))
  {
    if e.BatchClaimed? {
      ClaimKeepsMarker(s, e, limit, max);
    }
  }

  lemma {:induction false} EveryRunKeepsOwnership(
      systems: seq<System>, events: seq<Event>, limit: nat, max: nat, n: nat)
    requires Run(systems, events, limit, max) && n <= |events|
    ensures LockIsOwnership(systems[n]) && MarkerIsOwned(systems[n])
  {
    if n > 0 {
      EveryRunKeepsOwnership(systems, events, limit, max, n - 1);
      assert Step(systems[n - 1], events[n - 1], systems[n], limit, max);
      StepKeepsLock(systems[n - 1], events[n - 1], limit, max);
      StepKeepsMarker(systems[n - 1], events[n - 1], limit, max);
    }
  }

  // ---- the main results ----

  /** At most one live process works at any time, so a row is in at most one live batch. */
  lemma OneOwner(systems: seq<System>, events: seq<Event>, limit: nat, max: nat, n: nat, p: nat, q: nat)
    requires Run(systems, events, limit, max) && n <= |events|
    requires p in systems[n].live && systems[n].live[p].Working?
    requires q in systems[n].live && systems[n].live[q].Working?
    ensures p == q
  {
    EveryRunKeepsOwnership(systems, events, limit, max, n);
  }

  /** Recovery resets no row that a live process is working on, and leaves no orphan. */
  lemma RecoveryTouchesNoLiveRow(
      systems: seq<System>, events: seq<Event>, limit: nat, max: nat, n: nat, pid: nat, id: nat)
    requires Run(systems, events, limit, max) && n < |events| && events[n].OrphansRecovered?
    ensures !Owns(systems[n], pid, id)
    ensures id < |systems[n + 1].rows| ==> !IsInProgress(systems[n + 1].rows[id])
  {
    EveryRunKeepsOwnership(systems, events, limit, max, n);
    assert Step(systems[n], events[n], systems[n + 1], limit, max);
  }

  /** A claim takes no row that any live process has in its batch, even one that was re-pended while it
      was being worked on. */
  lemma ClaimTakesNoOwnedRow(
      systems: seq<System>, events: seq<Event>, limit: nat, max: nat, n: nat, pid: nat, id: nat)
    requires Run(systems, events, limit, max) && n < |events| && events[n].BatchClaimed?
    requires id in Claimed(systems[n].rows, events[n].locked, limit, |systems[n].rows|)
    ensures !Owns(systems[n], pid, id)
    ensures Owns(systems[n + 1], events[n].pid, id)
  {
    EveryRunKeepsOwnership(systems, events, limit, max, n);
    assert Step(systems[n], events[n], systems[n + 1], limit, max);
  }

  /** While the worker runs, an in-progress row is one it claimed itself: being worked on, or abandoned
      and waiting for the next start. */
  lemma InProgressMeansClaimedHere(
      systems: seq<System>, events: seq<Event>, limit: nat, max: nat, n: nat, pid: nat, id: nat)
    requires Run(systems, events, limit, max) && n <= |events|
    requires pid in systems[n].live && systems[n].live[pid].Working? && systems[n].live[pid].recovered
    requires id < |systems[n].rows| && IsInProgress(systems[n].rows[id])
    ensures Owns(systems[n], pid, id) || id in systems[n].live[pid].left
  {
    EveryRunKeepsOwnership(systems, events, limit, max, n);
  }
}
