/** The bid poller's cycle: bucket the open lots, poll them, record what was seen
    (apps/bid_poller/poller.py, apps/bid_poller/scheduler.py). */
module BidPoller {
  import opened Base
  import opened Folds
  import opened Offers

  const FAST_BUCKET_CUTOFF_SECONDS := 300
  const FAST_BUCKET_CAP := 20
  const SLOW_BUCKET_CAP := 50
  const BATCH_LIMIT := 200
  const HOUR := 3600
  const MAX_OPEN_PAST_END_SECONDS := 86400
  const MAX_FORCE_CLOSE_AGE_SECONDS := 604800

  function NextPollDelay(end: Option<int>, now: int, status: LotStatus): int {
    if end.None? then HOUR
    else if status in {Closed, Unsold, Sold, ForceClosed} then 24 * HOUR
    else
      var delta := end.value - now;
      if delta <= 600 then 30
      else if delta <= HOUR then 60
      else if delta <= 2 * HOUR then 300
      else if delta <= 24 * HOUR then 900
      else HOUR
  }

  // ---- one observation ----

  datatype Seen = SeenMissing | SeenClosed | SeenOther

  datatype Observation = Observation(bid: Option<real>, end: Option<int>, status: Seen)

  predicate Extends(obs: Observation, auctionEnd: Option<int>) {
    obs.end.Some? && auctionEnd.Some? && obs.end.value > auctionEnd.value
  }

  /** A missing lot settles at the last recorded bid, a closed one at the bid observed with the close. */
  function Settled(b: Bidding, obs: Observation, now: int): Bidding {
    if obs.status == SeenOther || b.lotStatus == Closed then b
    else b.(lotStatus := Closed, closedAt := Some(now),
            finalBid := if obs.status == SeenMissing then b.bid else obs.bid)
  }

  function ObservedBidding(b: Bidding, auctionEnd: Option<int>, obs: Observation, now: int): Bidding {
    var seen := if obs.bid.Some? then b.(bid := obs.bid) else b;
    Settled(if Extends(obs, auctionEnd) then seen.(lotStatus := Extended) else seen, obs, now)
  }

  predicate BidChanged(b: Bidding, obs: Observation) {
    obs.bid.Some? && b.bid != obs.bid
  }

  function AfterObservation(o: Offer, auctionEnd: Option<int>, obs: Observation, now: int): Offer {
    o.(bidding := ObservedBidding(o.bidding, auctionEnd, obs, now),
       statuses := if BidChanged(o.bidding, obs) then o.statuses.(valuation := Pending) else o.statuses)
  }

  method WriteObservation(lot: OfferRow, auctionEnd: Option<int>, obs: Observation, now: int) returns (notified: bool)
    modifies lot
    ensures lot.Value() == AfterObservation(old(lot.Value()), auctionEnd, obs, now)
    ensures notified == BidChanged(old(lot.bidding), obs)
  {
    notified := false;
    if obs.bid.Some? {
      var bidChanged := lot.bidding.bid != obs.bid;
      lot.bidding := lot.bidding.(bid := obs.bid);
      if bidChanged {
        lot.statuses := lot.statuses.(valuation := Pending);
        notified := true;
      }
    }
    if Extends(obs, auctionEnd) {
      lot.bidding := lot.bidding.(lotStatus := Extended);
    }
    if obs.status == SeenMissing {
      if lot.bidding.lotStatus != Closed {
        lot.bidding := lot.bidding.(lotStatus := Closed, closedAt := Some(now), finalBid := lot.bidding.bid);
      }
    } else if obs.status == SeenClosed {
      if lot.bidding.lotStatus != Closed {
        lot.bidding := lot.bidding.(lotStatus := Closed, closedAt := Some(now), finalBid := obs.bid);
      }
    }
  }

  // ---- loading and bucketing ----

  /** One row of the open-lot query: a lot joined with its auction. */
  datatype OpenRow = OpenRow(id: int, bidding: Bidding, auctionEnd: Option<int>, needsRowId: bool)

  function EffectiveEnd(r: OpenRow): Option<int> {
    Coalesce(r.auctionEnd, r.bidding.lotEnd)
  }

  /** Past end by more than `seconds`. */
  predicate PastEnd(r: OpenRow, now: int, seconds: int) {
    EffectiveEnd(r).Some? && now - EffectiveEnd(r).value > seconds
  }

  /** More than a day and at most a week past end. */
  predicate Stale(r: OpenRow, now: int) {
    PastEnd(r, now, MAX_OPEN_PAST_END_SECONDS) && !PastEnd(r, now, MAX_FORCE_CLOSE_AGE_SECONDS)
  }

  predicate CanPoll(r: OpenRow, now: int) {
    !PastEnd(r, now, MAX_OPEN_PAST_END_SECONDS) && !(r.needsRowId && r.bidding.rowId.None?)
  }

  predicate Urgent(r: OpenRow, now: int) {
    NextPollDelay(EffectiveEnd(r), now, r.bidding.lotStatus) <= FAST_BUCKET_CUTOFF_SECONDS
  }

  function Pollable(now: int): OpenRow -> bool { (r: OpenRow) => CanPoll(r, now) }

  function Fast(now: int): OpenRow -> bool { (r: OpenRow) => CanPoll(r, now) && Urgent(r, now) }

  function Slow(now: int): OpenRow -> bool { (r: OpenRow) => CanPoll(r, now) && !Urgent(r, now) }

  function IdOf(): OpenRow -> int { (r: OpenRow) => r.id }

  function Refs(p: OpenRow -> bool, rows: seq<OpenRow>): seq<int> {
    Map(IdOf(), Filter(p, rows))
  }

  function StaleIds(rows: seq<OpenRow>, now: int): set<int> {
    set r | r in rows && Stale(r, now) :: r.id
  }

  /** Ascending by effective end, open-ended rows last. */
  predicate EndsBy(a: OpenRow, b: OpenRow) {
    EffectiveEnd(b).None? || (EffectiveEnd(a).Some? && EffectiveEnd(a).value <= EffectiveEnd(b).value)
  }

  ghost predicate InEndOrder(rows: seq<OpenRow>) {
    forall i, j :: 0 <= i < j < |rows| ==> EndsBy(rows[i], rows[j])
  }

  ghost predicate AllBiddable(rows: seq<OpenRow>) {
    forall i :: 0 <= i < |rows| ==> Biddable(rows[i].bidding.lotStatus)
  }

  /** For an open lot, urgent means a known end at most two hours away. */
  lemma UrgentIsWithinTwoHours(r: OpenRow, now: int)
    requires Biddable(r.bidding.lotStatus)
    ensures Urgent(r, now) <==> EffectiveEnd(r).Some? && EffectiveEnd(r).value - now <= 2 * HOUR
  {
  }

  lemma {:induction false} NoneFilteredAfterSlow(rows: seq<OpenRow>, now: int)
    requires InEndOrder(rows) && AllBiddable(rows) && rows != [] && !Urgent(rows[0], now)
    ensures Filter(Fast(now), rows[1..]) == []
    ensures Filter(Slow(now), rows[1..]) == Filter(Pollable(now), rows[1..])
    decreases |rows|
  {
    if |rows| > 1 {
      assert EndsBy(rows[0], rows[1]);
      var rest := [rows[0]] + rows[2..];
      NoneFilteredAfterSlow(rest, now);
      assert rest[1..] == rows[1..][1..];
    }
  }

  /** On rows in end order, the two buckets together are exactly the pollable rows, in order and once
      each: everything urgent precedes everything that is not. */
  lemma {:induction false} BucketsPartitionTheRows(rows: seq<OpenRow>, now: int)
    requires InEndOrder(rows) && AllBiddable(rows)
    ensures Filter(Fast(now), rows) + Filter(Slow(now), rows) == Filter(Pollable(now), rows)
    ensures Refs(Fast(now), rows) + Refs(Slow(now), rows) == Refs(Pollable(now), rows)
  {
    if rows != [] {
      if !Urgent(rows[0], now) {
        NoneFilteredAfterSlow(rows, now);
      }
      BucketsPartitionTheRows(rows[1..], now);
    }
  }

  // ---- the board over whole cycles ----

  datatype Sighting = Sighting(lot: int, obs: Observation)

  /** The auction lots and the append-only bid history. */
  datatype Board = Board(lots: map<int, Offer>, history: seq<Sighting>)

  function ForceClose(o: Offer, now: int): Offer {
    o.(bidding := o.bidding.(lotStatus := ForceClosed, closedAt := Some(now), finalBid := o.bidding.bid))
  }

  function Swept(b: Board, stale: set<int>, now: int): Board {
    b.(lots := map id | id in b.lots :: if id in stale then ForceClose(b.lots[id], now) else b.lots[id])
  }

  /** What polling one lot returned: nothing when there is no poller or the request failed. */
  type Answers = map<int, Observation>

  function Polled(b: Board, id: int, answers: Answers, ends: map<int, Option<int>>, now: int): Board {
    if id in answers && id in b.lots && id in ends
    then Board(b.lots[id := AfterObservation(b.lots[id], ends[id], answers[id], now)],
               b.history + [Sighting(id, answers[id])])
    else b
  }

  function PolledAll(b: Board, ids: seq<int>, answers: Answers, ends: map<int, Option<int>>, now: int): Board {
    if ids == [] then b
    else Polled(PolledAll(b, ids[..|ids| - 1], answers, ends, now), ids[|ids| - 1], answers, ends, now)
  }

  function Capped(ids: seq<int>, cap: nat): seq<int> {
    if |ids| <= cap then ids else ids[..cap]
  }

  function ToPoll(rows: seq<OpenRow>, now: int): seq<int> {
    Capped(Refs(Fast(now), rows), FAST_BUCKET_CAP) + Capped(Refs(Slow(now), rows), SLOW_BUCKET_CAP)
  }

  function CycleDone(b: Board, rows: seq<OpenRow>, answers: Answers, ends: map<int, Option<int>>, now: int): Board {
    PolledAll(Swept(b, StaleIds(rows, now), now), ToPoll(rows, now), answers, ends, now)
  }

  /** What the open-lot query returns: open lots, each once, in end order, at most a batch. */
  ghost predicate IsOpenQuery(b: Board, rows: seq<OpenRow>) {
    && |rows| <= BATCH_LIMIT
    && InEndOrder(rows)
    && (forall i :: 0 <= i < |rows| ==> rows[i].id in b.lots && rows[i].bidding == b.lots[rows[i].id].bidding)
    && (forall i :: 0 <= i < |rows| ==> Biddable(rows[i].bidding.lotStatus))
    && (forall i, j :: 0 <= i < j < |rows| ==> rows[i].id != rows[j].id)
  }

  class Poller {
    var lots: map<int, Offer>
    var history: seq<Sighting>

    function View(): Board
      reads this
    {
      Board(lots, history)
    }

    /** Buckets the rows and force-closes the stale lots on the way. */
    method LoadOpenLotRefs(rows: seq<OpenRow>, now: int) returns (fast: seq<int>, slow: seq<int>)
      requires IsOpenQuery(View(), rows)
      modifies this`lots
      ensures View() == Swept(old(View()), StaleIds(rows, now), now)
      ensures fast == Refs(Fast(now), rows) && slow == Refs(Slow(now), rows)
    {
      fast, slow := [], [];
      WholeMap(lots);
      for k := 0 to |rows|
        invariant fast == Refs(Fast(now), rows[..k]) && slow == Refs(Slow(now), rows[..k])
        invariant View() == Swept(old(View()), StaleIds(rows[..k], now), now)
      {
        var r := rows[k];
        RefsNext(Fast(now), rows, k);
        RefsNext(Slow(now), rows, k);
        StaleIdsNext(rows, now, k);
        if PastEnd(r, now, MAX_FORCE_CLOSE_AGE_SECONDS) {
          continue;
        }
        if PastEnd(r, now, MAX_OPEN_PAST_END_SECONDS) {
          StaleOnce(rows, now, k);
          lots := lots[r.id := ForceClose(lots[r.id], now)];
          continue;
        }
        if r.needsRowId && r.bidding.rowId.None? {
          continue;
        }
        if NextPollDelay(EffectiveEnd(r), now, r.bidding.lotStatus) <= FAST_BUCKET_CUTOFF_SECONDS {
          fast := fast + [r.id];
        } else {
          slow := slow + [r.id];
        }
      }
      assert rows[..|rows|] == rows;
    }

    method PollOne(id: int, answers: Answers, ends: map<int, Option<int>>, now: int)
      modifies this
      ensures View() == Polled(old(View()), id, answers, ends, now)
    {
      if id in answers && id in lots && id in ends {
        var lot := new OfferRow(lots[id]);
        var _ := WriteObservation(lot, ends[id], answers[id], now);
        history := history + [Sighting(id, answers[id])];
        lots := lots[id := lot.Value()];
      }
    }

    method PollBucket(ids: seq<int>, answers: Answers, ends: map<int, Option<int>>, now: int)
      modifies this
      ensures View() == PolledAll(old(View()), ids, answers, ends, now)
    {
      for k := 0 to |ids|
        invariant View() == PolledAll(old(View()), ids[..k], answers, ends, now)
      {
        PollOne(ids[k], answers, ends, now);
        assert ids[..k + 1][..k] == ids[..k];
      }
      assert ids[..|ids|] == ids;
    }

    /** One pass of the endless loop. */
    method Cycle(rows: seq<OpenRow>, answers: Answers, ends: map<int, Option<int>>, now: int)
      requires IsOpenQuery(View(), rows)
      modifies this
      ensures View() == CycleDone(old(View()), rows, answers, ends, now)
    {
      var fast, slow := LoadOpenLotRefs(rows, now);
      var first, second := Capped(fast, FAST_BUCKET_CAP), Capped(slow, SLOW_BUCKET_CAP);
      PolledInTwo(View(), first, second, answers, ends, now);
      PollBucket(first, answers, ends, now);
      PollBucket(second, answers, ends, now);
    }
  }

  lemma WholeMap(lots: map<int, Offer>)
    ensures lots == map id | id in lots :: if id in StaleIds([], 0) then ForceClose(lots[id], 0) else lots[id]
  {
  }

  lemma RefsNext(p: OpenRow -> bool, rows: seq<OpenRow>, k: nat)
    requires k < |rows|
    ensures Refs(p, rows[..k + 1]) == Refs(p, rows[..k]) + (if p(rows[k]) then [rows[k].id] else [])
  {
    assert rows[..k + 1] == rows[..k] + [rows[k]];
    FilterAppend(p, rows[..k], [rows[k]]);
    assert Filter(p, [rows[k]]) == if p(rows[k]) then [rows[k]] else [];
  }

  lemma StaleIdsNext(rows: seq<OpenRow>, now: int, k: nat)
    requires k < |rows|
    ensures StaleIds(rows[..k + 1], now)
            == StaleIds(rows[..k], now) + (if Stale(rows[k], now) then {rows[k].id} else {})
  {
    assert forall r :: r in rows[..k + 1] <==> r in rows[..k] || r == rows[k];
  }

  lemma StaleOnce(rows: seq<OpenRow>, now: int, k: nat)
    requires k < |rows| && forall i, j :: 0 <= i < j < |rows| ==> rows[i].id != rows[j].id
    ensures rows[k].id !in StaleIds(rows[..k], now)
  {
  }

  lemma {:induction false} PolledInTwo(b: Board, first: seq<int>, second: seq<int>, answers: Answers,
                                       ends: map<int, Option<int>>, now: int)
    ensures PolledAll(b, first + second, answers, ends, now)
            == PolledAll(PolledAll(b, first, answers, ends, now), second, answers, ends, now)
  {
    if second == [] {
      assert first + second == first;
    } else {
      var n := |second| - 1;
      PolledInTwo(b, first, second[..n], answers, ends, now);
      assert (first + second)[..|first + second| - 1] == first + second[..n];
    }
  }

  /** An open lot that ends sooner is never polled later. */
  lemma SoonerEndsArePolledSooner(end: int, later: int, now: int, status: LotStatus)
    requires end <= later && status in {Open, ClosingSoon, Extended}
    ensures NextPollDelay(Some(end), now, status) <= NextPollDelay(Some(later), now, status)
            <= NextPollDelay(None, now, status)
  {
  }
}
