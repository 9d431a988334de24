/** The life of an auction lot over whole poll cycles: what stays settled, and what the row says
    about its bid history (apps/bid_poller/poller.py). */
module LotLifeCycle {
  import opened Base
  import opened Folds
  import opened Offers
  import opened Upserts
  import opened BidPoller

  /** The latest known bid in the history of one lot, and its latest sighting. */
  function LastBid(history: seq<Sighting>, id: int): Option<real> {
    if history == [] then None
    else
      var s := history[|history| - 1];
      if s.lot == id && s.obs.bid.Some? then s.obs.bid else LastBid(history[..|history| - 1], id)
  }

  function LastSeen(history: seq<Sighting>, id: int): Option<Observation> {
    if history == [] then None
    else
      var s := history[|history| - 1];
      if s.lot == id then Some(s.obs) else LastSeen(history[..|history| - 1], id)
  }

  /** What a settled lot was settled at: its last known bid when it was force-closed or went missing, the
      bid observed with the close otherwise.  A lot without a close time was not settled by the poller. */
  ghost predicate SettledRightly(b: Bidding, last: Option<Observation>) {
    && (Biddable(b.lotStatus) ==> b.closedAt.None?)
    && (b.closedAt.Some? ==>
          || (b.lotStatus == ForceClosed && b.finalBid == b.bid)
          || (b.lotStatus == Closed && last.Some? && last.value.status == SeenMissing && b.finalBid == b.bid)
          || (b.lotStatus == Closed && last.Some? && last.value.status == SeenClosed
              && b.finalBid == last.value.bid))
  }

  ghost predicate LotTracked(b: Bidding, history: seq<Sighting>, id: int) {
    b.bid == LastBid(history, id) && SettledRightly(b, LastSeen(history, id))
  }

  ghost predicate Tracked(b: Board) {
    forall id :: id in b.lots ==> LotTracked(b.lots[id].bidding, b.history, id)
  }

  // ---- everything that happens to the board ----

  datatype BoardEvent =
    | Cycled(rows: seq<OpenRow>, answers: Answers, ends: map<int, Option<int>>, now: int)
    | Inserted(id: int, raw: RawLot, parser: string)
    | Rescraped(id: int, raw: RawLot, parser: string)
    /** Any other worker's write to a lot. */
    | Rewritten(id: int, offer: Offer)
    | Distilled(ids: set<int>)

  ghost predicate Possible(b: Board, e: BoardEvent) {
    match e
    case Cycled(rows, _, _, _) => IsOpenQuery(b, rows)
    case Inserted(id, _, _) => id !in b.lots && LastSeen(b.history, id).None?
    case Rescraped(id, _, _) => id in b.lots
    case Rewritten(id, offer) => id in b.lots && offer.bidding == b.lots[id].bidding
    case Distilled(_) => true
  }

  function After(b: Board, e: BoardEvent): Board
    requires e.Rescraped? ==> e.id in b.lots
  {
    match e
    case Cycled(rows, answers, ends, now) => CycleDone(b, rows, answers, ends, now)
    case Inserted(id, raw, parser) => b.(lots := b.lots[id := NewLot(raw, parser)])
    case Rescraped(id, raw, parser) => b.(lots := b.lots[id := RescrapedLot(b.lots[id], raw, parser)])
    case Rewritten(id, offer) => b.(lots := b.lots[id := offer])
    case Distilled(ids) => b.(lots := b.lots - ids)
  }

  /** A run: boards[0] is empty and each event leads from one board to the next. */
  ghost predicate Run(boards: seq<Board>, events: seq<BoardEvent>) {
    && |boards| == |events| + 1
    && boards[0] == Board(map[], [])
    && forall k :: 0 <= k < |events| ==> Step(boards[k], events[k], boards[k + 1])
  }

  ghost predicate Step(b: Board, e: BoardEvent, c: Board) {
    Possible(b, e) && c == After(b, e)
  }

  // ---- one cycle ----

  ghost predicate NoRepeats(s: seq<int>) {
    forall i, j :: 0 <= i < j < |s| ==> s[i] != s[j]
  }

  lemma RefComesFromRow(p: OpenRow -> bool, rows: seq<OpenRow>, id: int)
    requires id in Refs(p, rows)
    ensures exists r :: r in rows && p(r) && r.id == id
  {
    var f := Filter(p, rows);
    var i :| 0 <= i < |f| && f[i].id == id;
    FilterMember(p, rows, f[i]);
  }

  lemma {:induction false} RefsDoNotRepeat(p: OpenRow -> bool, rows: seq<OpenRow>)
    requires forall i, j :: 0 <= i < j < |rows| ==> rows[i].id != rows[j].id
    ensures NoRepeats(Refs(p, rows))
  {
    if rows != [] {
      RefsDoNotRepeat(p, rows[1..]);
      var rest := Refs(p, rows[1..]);
      if rows[0].id in rest {
        RefComesFromRow(p, rows[1..], rows[0].id);
      }
      assert Refs(p, rows) == if p(rows[0]) then [rows[0].id] + rest else rest;
    }
  }

  lemma CappedDoNotRepeat(a: seq<int>, b: seq<int>, m: nat, n: nat)
    requires NoRepeats(a + b)
    ensures NoRepeats(Capped(a, m) + Capped(b, n))
  {
    var s, t := Capped(a, m) + Capped(b, n), a + b;
    forall i, j | 0 <= i < j < |s| ensures s[i] != s[j] {
      var i', j' := if i < |Capped(a, m)| then i else |a| + i - |Capped(a, m)|,
                    if j < |Capped(a, m)| then j else |a| + j - |Capped(a, m)|;
      assert s[i] == t[i'] && s[j] == t[j'] && i' < j';
    }
  }

  /** A cycle polls no lot twice, and only lots whose row can be polled. */
  lemma PolledOnce(b: Board, rows: seq<OpenRow>, now: int)
    requires IsOpenQuery(b, rows)
    ensures NoRepeats(ToPoll(rows, now))
    ensures forall id :: id in ToPoll(rows, now) ==> exists r :: r in rows && CanPoll(r, now) && r.id == id
  {
    BucketsPartitionTheRows(rows, now);
    RefsDoNotRepeat(Pollable(now), rows);
    CappedDoNotRepeat(Refs(Fast(now), rows), Refs(Slow(now), rows), FAST_BUCKET_CAP, SLOW_BUCKET_CAP);
    forall id | id in ToPoll(rows, now) ensures exists r :: r in rows && CanPoll(r, now) && r.id == id {
      assert id in Refs(Fast(now), rows) + Refs(Slow(now), rows);
      RefComesFromRow(Pollable(now), rows, id);
    }
  }

  /** Polled lots are open when polled; nothing else is written. */
  lemma SweepLeavesPolledOpen(b: Board, rows: seq<OpenRow>, now: int, id: int)
    requires IsOpenQuery(b, rows) && id in ToPoll(rows, now)
    ensures id in b.lots && Biddable(b.lots[id].bidding.lotStatus)
    ensures id !in StaleIds(rows, now)
  {
    PolledOnce(b, rows, now);
    var r :| r in rows && CanPoll(r, now) && r.id == id;
    var i :| 0 <= i < |rows| && rows[i] == r;
    forall q | q in rows && q.id == id ensures q == r {
      var j :| 0 <= j < |rows| && rows[j] == q;
    }
  }

  lemma StaleIsOpen(b: Board, rows: seq<OpenRow>, now: int, id: int)
    requires IsOpenQuery(b, rows) && id in StaleIds(rows, now)
    ensures id in b.lots && Biddable(b.lots[id].bidding.lotStatus)
  {
    var q :| q in rows && Stale(q, now) && q.id == id;
    var j :| 0 <= j < |rows| && rows[j] == q;
  }

  lemma {:induction false} PollingLeavesOthers(b: Board, ids: seq<int>, answers: Answers,
                                               ends: map<int, Option<int>>, now: int, id: int)
    requires id !in ids
    ensures var c := PolledAll(b, ids, answers, ends, now);
            && (id in c.lots <==> id in b.lots)
            && (id in b.lots ==> c.lots[id] == b.lots[id])
            && LastBid(c.history, id) == LastBid(b.history, id)
            && LastSeen(c.history, id) == LastSeen(b.history, id)
  {
    if ids != [] {
      var init, last := ids[..|ids| - 1], ids[|ids| - 1];
      PollingLeavesOthers(b, init, answers, ends, now, id);
      var mid := PolledAll(b, init, answers, ends, now);
      if last in answers {
        HistoryGrows(mid.history, Sighting(last, answers[last]), id);
      }
    }
  }

  lemma HistoryGrows(h: seq<Sighting>, s: Sighting, id: int)
    ensures LastBid(h + [s], id) == if s.lot == id && s.obs.bid.Some? then s.obs.bid else LastBid(h, id)
    ensures LastSeen(h + [s], id) == if s.lot == id then Some(s.obs) else LastSeen(h, id)
  {
    assert (h + [s])[..|h|] == h;
  }

  lemma PollKeepsTrack(b: Board, id: int, answers: Answers, ends: map<int, Option<int>>, now: int)
    requires Tracked(b) && id in b.lots && Biddable(b.lots[id].bidding.lotStatus)
    ensures Tracked(Polled(b, id, answers, ends, now))
  {
    if id in answers {
      var s := Sighting(id, answers[id]);
      forall other | other in b.lots
        ensures other != id ==> LotTracked(b.lots[other].bidding, b.history + [s], other)
      {
        HistoryGrows(b.history, s, other);
      }
      HistoryGrows(b.history, s, id);
    }
  }

  lemma {:induction false} PollingKeepsTrack(b: Board, ids: seq<int>, answers: Answers,
                                             ends: map<int, Option<int>>, now: int)
    requires Tracked(b) && NoRepeats(ids)
    requires forall id :: id in ids ==> id in b.lots && Biddable(b.lots[id].bidding.lotStatus)
    ensures Tracked(PolledAll(b, ids, answers, ends, now))
  {
    if ids != [] {
      var init, last := ids[..|ids| - 1], ids[|ids| - 1];
      PollingKeepsTrack(b, init, answers, ends, now);
      PollingLeavesOthers(b, init, answers, ends, now, last);
      assert last in ids;
      PollKeepsTrack(PolledAll(b, init, answers, ends, now), last, answers, ends, now);
    }
  }

  lemma CycleKeepsTrack(b: Board, rows: seq<OpenRow>, answers: Answers, ends: map<int, Option<int>>, now: int)
    requires IsOpenQuery(b, rows) && Tracked(b)
    ensures Tracked(CycleDone(b, rows, answers, ends, now))
  {
    var swept := Swept(b, StaleIds(rows, now), now);
    PolledOnce(b, rows, now);
    forall id | id in ToPoll(rows, now) ensures id in swept.lots && Biddable(swept.lots[id].bidding.lotStatus) {
      SweepLeavesPolledOpen(b, rows, now, id);
    }
    PollingKeepsTrack(swept, ToPoll(rows, now), answers, ends, now);
  }

  // ---- over every run ----

  /** In every reachable board the row's bid is the last known bid of its history, and every close time
      comes with the right final bid. */
  lemma {:induction false} BoardTracksHistory(boards: seq<Board>, events: seq<BoardEvent>, k: nat)
    requires Run(boards, events) && k <= |events|
    ensures Tracked(boards[k])
  {
    if k > 0 {
      BoardTracksHistory(boards, events, k - 1);
      var b, e := boards[k - 1], events[k - 1];
      assert Step(b, e, boards[k]);
      if e.Cycled? {
        CycleKeepsTrack(b, e.rows, e.answers, e.ends, e.now);
      } else if e.Inserted? {
        NeverSeenHasNoBid(b.history, e.id);
      }
    }
  }

  lemma {:induction false} NeverSeenHasNoBid(history: seq<Sighting>, id: int)
    requires LastSeen(history, id).None?
    ensures LastBid(history, id).None?
  {
    if history != [] {
      NeverSeenHasNoBid(history[..|history| - 1], id);
    }
  }

  /** The columns that say how a lot ended. */
  ghost predicate SameOutcome(b: Bidding, c: Bidding) {
    b.lotStatus == c.lotStatus && b.closedAt == c.closedAt && b.finalBid == c.finalBid && b.bid == c.bid
  }

  lemma StepKeepsSettled(b: Board, e: BoardEvent, c: Board, id: int)
    requires Step(b, e, c) && id in b.lots && id in c.lots && !Biddable(b.lots[id].bidding.lotStatus)
    ensures SameOutcome(b.lots[id].bidding, c.lots[id].bidding)
  {
    if e.Cycled? {
      if id in StaleIds(e.rows, e.now) {
        StaleIsOpen(b, e.rows, e.now, id);
      } else if id in ToPoll(e.rows, e.now) {
        SweepLeavesPolledOpen(b, e.rows, e.now, id);
      } else {
        PollingLeavesOthers(Swept(b, StaleIds(e.rows, e.now), e.now),
                            ToPoll(e.rows, e.now), e.answers, e.ends, e.now, id);
      }
    }
  }

  /** Once closed, force-closed, sold or unsold, a lot keeps its status, close time, final bid and bid
      for as long as it stays on the board. */
  lemma {:induction false} SettledLotsStaySettled(
      boards: seq<Board>, events: seq<BoardEvent>, n: nat, m: nat, id: int)
    requires Run(boards, events) && n <= m <= |events|
    requires forall k :: n <= k <= m ==> id in boards[k].lots
    requires !Biddable(boards[n].lots[id].bidding.lotStatus)
    ensures SameOutcome(boards[n].lots[id].bidding, boards[m].lots[id].bidding)
    decreases m
  {
    if n < m {
      SettledLotsStaySettled(boards, events, n, m - 1, id);
      assert Step(boards[m - 1], events[m - 1], boards[m]);
      StepKeepsSettled(boards[m - 1], events[m - 1], boards[m], id);
    }
  }

  /** A lot that leaves the open statuses has a close time from then on. */
  lemma LeavingOpenSetsCloseTime(boards: seq<Board>, events: seq<BoardEvent>, k: nat, id: int)
    requires Run(boards, events) && k < |events|
    requires id in boards[k].lots && id in boards[k + 1].lots && Biddable(boards[k].lots[id].bidding.lotStatus)
    requires !Biddable(boards[k + 1].lots[id].bidding.lotStatus)
    ensures events[k].Cycled?
    ensures boards[k + 1].lots[id].bidding.closedAt == Some(events[k].now)
  {
    var b, e := boards[k], events[k];
    assert Step(b, e, boards[k + 1]);
    if e.Cycled? {
      CycleOutcome(b, e.rows, e.answers, e.ends, e.now, id);
    }
  }

  /** Not every closed lot has a close time: exactly those that were open when they were inserted do. */
  lemma {:induction false} CloseTimeMeansItWasOpen(
      boards: seq<Board>, events: seq<BoardEvent>, n: nat, m: nat, id: int)
    requires Run(boards, events) && 0 < n <= m <= |events|
    requires events[n - 1].Inserted? && events[n - 1].id == id
    requires forall k :: n <= k <= m ==> id in boards[k].lots
    ensures !Biddable(boards[m].lots[id].bidding.lotStatus) ==>
              (boards[m].lots[id].bidding.closedAt.Some? <==> Biddable(boards[n].lots[id].bidding.lotStatus))
    decreases m
  {
    if n == m {
      assert Step(boards[n - 1], events[n - 1], boards[n]);
    } else {
      CloseTimeMeansItWasOpen(boards, events, n, m - 1, id);
      assert Step(boards[m - 1], events[m - 1], boards[m]);
      if !Biddable(boards[m - 1].lots[id].bidding.lotStatus) {
        StepKeepsSettled(boards[m - 1], events[m - 1], boards[m], id);
      } else if !Biddable(boards[m].lots[id].bidding.lotStatus) {
        LeavingOpenSetsCloseTime(boards, events, m - 1, id);
        if !Biddable(boards[n].lots[id].bidding.lotStatus) {
          SettledLotsStaySettled(boards, events, n, m - 1, id);
        }
      }
    }
  }

  /** The one thing a cycle does to a given lot. */
  lemma CycleOutcome(b: Board, rows: seq<OpenRow>, answers: Answers, ends: map<int, Option<int>>, now: int, id: int)
    requires IsOpenQuery(b, rows) && id in b.lots
    ensures var c := CycleDone(b, rows, answers, ends, now);
            && id in c.lots
            && c.lots[id] == if id in StaleIds(rows, now) then ForceClose(b.lots[id], now)
                             else if id in ToPoll(rows, now) && id in answers && id in ends
                             then AfterObservation(b.lots[id], ends[id], answers[id], now)
                             else b.lots[id]
  {
    var swept := Swept(b, StaleIds(rows, now), now);
    if id in ToPoll(rows, now) {
      SweepLeavesPolledOpen(b, rows, now, id);
      PolledOnce(b, rows, now);
      PolledAtOnce(swept, ToPoll(rows, now), answers, ends, now, id);
    } else {
      PollingLeavesOthers(swept, ToPoll(rows, now), answers, ends, now, id);
    }
  }

  lemma {:induction false} PolledAtOnce(b: Board, ids: seq<int>, answers: Answers, ends: map<int, Option<int>>,
                                        now: int, id: int)
    requires NoRepeats(ids) && id in ids && id in b.lots
    ensures var c := PolledAll(b, ids, answers, ends, now);
            && id in c.lots
            && c.lots[id] == if id in answers && id in ends
                             then AfterObservation(b.lots[id], ends[id], answers[id], now) else b.lots[id]
  {
    var init, last := ids[..|ids| - 1], ids[|ids| - 1];
    if id == last {
      PollingLeavesOthers(b, init, answers, ends, now, id);
    } else {
      PolledAtOnce(b, init, answers, ends, now, id);
    }
  }

  /** Force-closed by a cycle are exactly the rows more than a day and at most a week past end. */
  lemma ForceClosedAreTheStale(b: Board, rows: seq<OpenRow>, answers: Answers, ends: map<int, Option<int>>,
                               now: int, i: nat)
    requires IsOpenQuery(b, rows) && i < |rows|
    ensures var c := CycleDone(b, rows, answers, ends, now);
            && rows[i].id in c.lots
            && (c.lots[rows[i].id].bidding.lotStatus == ForceClosed <==> Stale(rows[i], now))
  {
    CycleOutcome(b, rows, answers, ends, now, rows[i].id);
    if rows[i].id in StaleIds(rows, now) {
      var q :| q in rows && Stale(q, now) && q.id == rows[i].id;
      var j :| 0 <= j < |rows| && rows[j] == q;
      assert i == j;
    } else {
      assert rows[i] in rows;
    }
  }

  /** A close stores the bid observed with it, which is the last known bid only if there is one with the
      close or there never was any. */
  lemma CloseStoresTheObservedBid(b: Bidding, auctionEnd: Option<int>, obs: Observation, now: int)
    requires Biddable(b.lotStatus) && obs.status == SeenClosed
    ensures var c := ObservedBidding(b, auctionEnd, obs, now);
            c.finalBid == c.bid <==> obs.bid.Some? || b.bid.None?
  {
  }

  /** Why the load filter matters: written to a closed lot, a single ordinary observation with a late end
      time re-opens it, and nothing else does. */
  lemma LateEndReopens(b: Bidding, auctionEnd: Option<int>, obs: Observation, now: int)
    requires b.lotStatus == Closed
    ensures ObservedBidding(b, auctionEnd, obs, now).lotStatus != Closed
            <==> Extends(obs, auctionEnd) && obs.status == SeenOther
  {
  }

  // ---- a cycle, row by row ----

  function EndOf(r: OpenRow): Option<int> {
    if r.auctionEnd.Some? then r.auctionEnd else r.bidding.lotEnd
  }

  /** At most a day past end, and with the row id that its source needs. */
  predicate Due(r: OpenRow, now: int) {
    (EndOf(r).None? || now - EndOf(r).value <= 86400) && (r.needsRowId ==> r.bidding.rowId.Some?)
  }

  /** Known to end within two hours. */
  predicate Soon(r: OpenRow, now: int) {
    EndOf(r).Some? && EndOf(r).value - now <= 7200
  }

  /** How many due rows of one kind stand before row `i`. */
  function Ahead(rows: seq<OpenRow>, i: nat, soon: bool, now: int): nat
    requires i <= |rows|
  {
    if i == 0 then 0
    else Ahead(rows, i - 1, soon, now) + (if Due(rows[i - 1], now) && Soon(rows[i - 1], now) == soon then 1 else 0)
  }

  /** A bucket has room for its first rows. */
  predicate HasRoom(rows: seq<OpenRow>, i: nat, now: int)
    requires i < |rows|
  {
    if Soon(rows[i], now) then Ahead(rows, i, true, now) < 20 else Ahead(rows, i, false, now) < 50
  }

  lemma BucketOf(r: OpenRow, now: int)
    requires Biddable(r.bidding.lotStatus)
    ensures Fast(now)(r) <==> Due(r, now) && Soon(r, now)
    ensures Slow(now)(r) <==> Due(r, now) && !Soon(r, now)
  {
    UrgentIsWithinTwoHours(r, now);
  }

  lemma {:induction false} AheadIsFiltered(rows: seq<OpenRow>, i: nat, now: int)
    requires i <= |rows| && AllBiddable(rows)
    ensures Ahead(rows, i, true, now) == |Filter(Fast(now), rows[..i])|
    ensures Ahead(rows, i, false, now) == |Filter(Slow(now), rows[..i])|
  {
    if i > 0 {
      AheadIsFiltered(rows, i - 1, now);
      BucketOf(rows[i - 1], now);
      RefsNext(Fast(now), rows, i - 1);
      RefsNext(Slow(now), rows, i - 1);
    }
  }

  /** In a bucket, a row's id stands at the place its predecessors leave it. */
  lemma PlaceInBucket(p: OpenRow -> bool, rows: seq<OpenRow>, i: nat)
    requires i < |rows| && p(rows[i])
    ensures var k := |Filter(p, rows[..i])|; k < |Refs(p, rows)| && Refs(p, rows)[k] == rows[i].id
  {
    assert rows == rows[..i] + rows[i..];
    FilterAppend(p, rows[..i], rows[i..]);
  }

  lemma InCapped(p: OpenRow -> bool, rows: seq<OpenRow>, i: nat, cap: nat)
    requires i < |rows| && forall i, j :: 0 <= i < j < |rows| ==> rows[i].id != rows[j].id
    ensures rows[i].id in Capped(Refs(p, rows), cap) <==> p(rows[i]) && |Filter(p, rows[..i])| < cap
  {
    var refs := Refs(p, rows);
    RefsDoNotRepeat(p, rows);
    if p(rows[i]) {
      PlaceInBucket(p, rows, i);
      var k := |Filter(p, rows[..i])|;
      assert k < cap ==> Capped(refs, cap)[k] == rows[i].id;
      assert forall j :: 0 <= j < |Capped(refs, cap)| ==> Capped(refs, cap)[j] == refs[j];
    } else if rows[i].id in refs {
      RefComesFromRow(p, rows, rows[i].id);
    }
  }

  lemma PolledIff(b: Board, rows: seq<OpenRow>, now: int, i: nat)
    requires IsOpenQuery(b, rows) && i < |rows|
    ensures rows[i].id in ToPoll(rows, now) <==> Due(rows[i], now) && HasRoom(rows, i, now)
  {
    InCapped(Fast(now), rows, i, FAST_BUCKET_CAP);
    InCapped(Slow(now), rows, i, SLOW_BUCKET_CAP);
    BucketOf(rows[i], now);
    AheadIsFiltered(rows, i, now);
  }

  /** What polling adds to the history: one sighting for each polled lot that answered. */
  lemma {:induction false} PollingIsLogged(b: Board, ids: seq<int>, answers: Answers, ends: map<int, Option<int>>,
                                           now: int, id: int)
    requires NoRepeats(ids) && id in b.lots
    ensures var c := PolledAll(b, ids, answers, ends, now);
            && |b.history| <= |c.history| && c.history[..|b.history|] == b.history
            && c.lots.Keys == b.lots.Keys
            && forall obs :: Sighting(id, obs) in c.history[|b.history|..]
                             <==> id in ids && id in answers && id in ends && obs == answers[id]
  {
    if ids != [] {
      var init, last := ids[..|ids| - 1], ids[|ids| - 1];
      PollingIsLogged(b, init, answers, ends, now, id);
      var mid := PolledAll(b, init, answers, ends, now);
      var c := Polled(mid, last, answers, ends, now);
      assert id in ids <==> id in init || id == last;
      if c != mid {
        assert c.history[|b.history|..] == mid.history[|b.history|..] + [Sighting(last, answers[last])];
      } else {
        assert last !in answers || last !in ends || last !in b.lots;
      }
    }
  }

  /** A cycle on each row of the query: it is polled exactly when it is at most a day past end, has the row id
      it needs, and fewer than 20 due rows ending within two hours (fewer than 50 of the others, for a row that
      does not) stand before it.  A polled row that answers is logged and written, a row a day to a week past
      end is force-closed at its last bid, and any other stays as it is. */
  lemma CycleIsExact(b: Board, rows: seq<OpenRow>, answers: Answers, ends: map<int, Option<int>>, now: int, i: nat)
    requires IsOpenQuery(b, rows) && i < |rows|
    ensures var c, id, end := CycleDone(b, rows, answers, ends, now), rows[i].id, EndOf(rows[i]);
            var seen := Due(rows[i], now) && HasRoom(rows, i, now) && id in answers && id in ends;
            && |b.history| <= |c.history| && c.history[..|b.history|] == b.history
            && (forall obs :: Sighting(id, obs) in c.history[|b.history|..] <==> seen && obs == answers[id])
            && id in c.lots && id in b.lots
            && c.lots[id] ==
               if seen then AfterObservation(b.lots[id], ends[id], answers[id], now)
               else if end.Some? && 86400 < now - end.value <= 604800
               then b.lots[id].(bidding := b.lots[id].bidding.(
                      lotStatus := ForceClosed, closedAt := Some(now), finalBid := b.lots[id].bidding.bid))
               else b.lots[id]
  {
    var id := rows[i].id;
    PolledIff(b, rows, now, i);
    PolledOnce(b, rows, now);
    PollingIsLogged(Swept(b, StaleIds(rows, now), now), ToPoll(rows, now), answers, ends, now, id);
    CycleOutcome(b, rows, answers, ends, now, id);
    StaleIffInIds(b, rows, now, i);
  }

  lemma StaleIffInIds(b: Board, rows: seq<OpenRow>, now: int, i: nat)
    requires IsOpenQuery(b, rows) && i < |rows|
    ensures rows[i].id in StaleIds(rows, now) <==> Stale(rows[i], now)
  {
    assert rows[i] in rows;
    forall r | r in rows && r.id == rows[i].id ensures r == rows[i] {
      var j :| 0 <= j < |rows| && rows[j] == r;
    }
  }

  /** What one observation does to an open lot. */
  lemma ObservationIsExact(o: Offer, auctionEnd: Option<int>, obs: Observation, now: int)
    requires o.bidding.lotStatus in {Open, ClosingSoon, Extended}
    ensures var v, b := AfterObservation(o, auctionEnd, obs, now), o.bidding;
            var bid := if obs.bid.Some? then obs.bid else b.bid;
            var late := obs.end.Some? && auctionEnd.Some? && obs.end.value > auctionEnd.value;
            && v.bidding == b.(bid := bid,
                 lotStatus := if obs.status != SeenOther then Closed else if late then Extended else b.lotStatus,
                 closedAt := if obs.status != SeenOther then Some(now) else b.closedAt,
                 finalBid := if obs.status == SeenMissing then bid
                             else if obs.status == SeenClosed then obs.bid else b.finalBid)
            && v == o.(bidding := v.bidding,
                       statuses := if bid != b.bid then o.statuses.(valuation := Pending) else o.statuses)
  {
  }
}
