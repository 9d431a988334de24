/** The valuation as a cache: in every reachable state a row that says it is valued carries the
    appraisal of its present inputs (apps/valuator/valuator.py and every other writer of the inputs).
    Transactions are serial. */
module Freshness {
  import opened Base
  import opened Offers
  import opened Folds
  import opened Comps
  import opened FairValue
  import opened Pricing
  import opened Matcher
  import opened Upserts
  import opened BidPoller
  import opened Ledger
  import opened Enricher
  import opened Vision
  import opened Valuator

  /** What the last completed valuation read: the inputs in the row, the market and the seller. */
  datatype Basis = Basis(inputs: Inputs, market: Market, dealer: bool)

  /** An offer row with the memory of its last completed valuation. */
  datatype Cached = Cached(offer: Offer, last: Option<Basis>)

  /** The row's inputs, flags included, are those the last valuation used, and the appraisal in the row is
      the one they give. */
  ghost predicate UpToDate(c: Cached) {
    && c.last.Some?
    && c.last.value.inputs == InputsOf(c.offer)
    && Appraises(c.offer.appraisal, c.last.value)
  }

  ghost predicate Appraises(a: Option<Appraisal>, b: Basis) {
    && HasRequiredData(b.inputs) && (b.inputs.kind == AuctionLot ==> b.market.terms.Some?)
    && a == Some(Appraise(b.inputs, b.market, b.dealer))
  }

  predicate SaysValued(o: Offer) {
    o.statuses.valuation == Done || o.statuses.valuation == Insufficient
  }

  ghost predicate Fresh(c: Cached) {
    SaysValued(c.offer) ==> UpToDate(c)
  }

  /** Every committed transaction that can touch an offer. */
  datatype Event =
    | BidObserved(auctionEnd: Option<int>, obs: Observation, now: int)
    | StaleSwept(now: int)
    | LotScraped(lot: RawLot, parser: string)
    | ListingScraped(listing: RawListing, parser: string)
    | EnrichmentTried(wants: seq<WantCriteria>, answer: Answer, yearCap: int, max: nat)
    | PhotosViewed(out: VisionOutput)
    | Requeued
    | ValuationClaimed
    | OrphanRecovered
    | ValuationTried(market: Market, weights: Weights, context: Context, matches: Matched, raises: bool, max: nat)
    /** Any write that leaves the inputs, the appraisal and the valuation status alone. */
    | OtherwiseWritten(offer: Offer)

  ghost predicate Possible(o: Offer, e: Event) {
    e.OtherwiseWritten? ==>
      && InputsOf(e.offer) == InputsOf(o) && e.offer.appraisal == o.appraisal
      && e.offer.statuses.valuation == o.statuses.valuation
  }

  function WithValuationStatus(o: Offer, s: Status): Offer {
    o.(statuses := o.statuses.(valuation := s))
  }

  function Written(o: Offer, e: Event): Offer {
    match e
    case BidObserved(auctionEnd, obs, now) => AfterObservation(o, auctionEnd, obs, now)
    case StaleSwept(now) => ForceClose(o, now)
    case LotScraped(raw, parser) => RescrapedLot(o, raw, parser)
    case ListingScraped(raw, parser) => RelistedListing(o, raw, parser)
    case EnrichmentTried(wants, answer, yearCap, max) => AfterEnrichment(o, wants, answer, yearCap, max)
    case PhotosViewed(out) => Viewed(o, out)
    case Requeued => WithValuationStatus(o, Pending)
    case ValuationClaimed => if o.statuses.valuation == Pending then WithValuationStatus(o, InProgress) else o
    case OrphanRecovered => if o.statuses.valuation == InProgress then WithValuationStatus(o, Pending) else o
    case ValuationTried(market, weights, context, matches, raises, max) =>
      AfterValuation(o, market, weights, context, matches, raises, max).row
    case OtherwiseWritten(offer) => offer
  }

  function BasisOf(o: Offer, m: Market): Basis {
    Basis(InputsOf(o), m, IsDealer(o.asking.sellerType))
  }

  /** Only a valuation that ran to its end renews the basis. */
  function After(c: Cached, e: Event): Cached {
    Cached(Written(c.offer, e),
           if e.ValuationTried? && !e.raises && CanValue(c.offer, e.market)
           then Some(BasisOf(c.offer, e.market)) else c.last)
  }

  ghost predicate Step(c: Cached, e: Event, d: Cached) {
    Possible(c.offer, e) && d == After(c, e)
  }

  /** A run starts with an inserted lot or listing, whatever was scraped. */
  ghost predicate Run(rows: seq<Cached>, events: seq<Event>) {
    && |rows| == |events| + 1
    && rows[0].offer.statuses == ALL_PENDING
    && forall n :: 0 <= n < |events| ==> Step(rows[n], events[n], rows[n + 1])
  }

  // ---- every writer of an input re-queues the valuation ----

  /** The inputs are untouched, with the appraisal and the status, or the row is re-queued. */
  ghost predicate Requeues(o: Offer, v: Offer) {
    || (InputsOf(v) == InputsOf(o) && v.appraisal == o.appraisal
        && (SaysValued(v) ==> v.statuses.valuation == o.statuses.valuation))
    || v.statuses.valuation == Pending
  }

  lemma ObservationRequeues(o: Offer, auctionEnd: Option<int>, obs: Observation, now: int)
    ensures Requeues(o, AfterObservation(o, auctionEnd, obs, now))
  {
  }

  lemma ScrapesRequeue(o: Offer, lot: RawLot, listing: RawListing, parser: string)
    ensures Requeues(o, RescrapedLot(o, lot, parser))
    ensures Requeues(o, RelistedListing(o, listing, parser))
  {
  }

  lemma EnrichmentRequeues(o: Offer, wants: seq<WantCriteria>, answer: Answer, yearCap: int, max: nat)
    ensures Requeues(o, AfterEnrichment(o, wants, answer, yearCap, max))
  {
  }

  lemma VisionRequeues(o: Offer, out: VisionOutput)
    ensures Requeues(o, Viewed(o, out))
  {
  }

  /** Every step but a valuation leaves the inputs alone or leaves the row PENDING. */
  lemma WritersRequeue(o: Offer, e: Event)
    requires Possible(o, e) && !e.ValuationTried?
    ensures Requeues(o, Written(o, e))
  {
    match e
    case BidObserved(auctionEnd, obs, now) => ObservationRequeues(o, auctionEnd, obs, now);
    case LotScraped(raw, parser) =>
      ScrapesRequeue(o, raw, RawListing(raw.content, raw.facts, None, Active, None, None), parser);
    case ListingScraped(raw, parser) =>
      ScrapesRequeue(o, RawLot(raw.content, raw.facts, Open, None, None), raw, parser);
    case EnrichmentTried(wants, answer, yearCap, max) => EnrichmentRequeues(o, wants, answer, yearCap, max);
    case PhotosViewed(out) => VisionRequeues(o, out);
    case _ =>
  }

  lemma ValuationIsFresh(c: Cached, e: Event)
    requires e.ValuationTried?
    ensures Fresh(After(c, e))
  {
    var o := Tried(c.offer);
    assert InputsOf(o) == InputsOf(c.offer);
    if !e.raises && CanValue(o, e.market) {
      var v := After(c, e).offer;
      assert v.appraisal == Some(Appraise(InputsOf(o), e.market, IsDealer(o.asking.sellerType)));
      assert InputsOf(v) == InputsOf(o);
    }
  }

  lemma StepKeepsFresh(c: Cached, e: Event)
    requires Fresh(c) && Possible(c.offer, e)
    ensures Fresh(After(c, e))
  {
    if e.ValuationTried? {
      ValuationIsFresh(c, e);
    } else {
      WritersRequeue(c.offer, e);
    }
  }

  /** In every reachable state, DONE or INSUFFICIENT means that the row's price, make, model, year, trim,
      mileage, condition, sparse flag and flags are those the last valuation used, and that the stored
      appraisal is the one they give, whatever happened in between. */
  lemma {:induction false} ValuedMeansFresh(rows: seq<Cached>, events: seq<Event>, n: nat)
    requires Run(rows, events) && n <= |events|
    ensures Fresh(rows[n])
  {
    if n > 0 {
      ValuedMeansFresh(rows, events, n - 1);
      assert Step(rows[n - 1], events[n - 1], rows[n]);
      StepKeepsFresh(rows[n - 1], events[n - 1]);
    }
  }

  // ---- why transactions must be serial ----

  /** The columns of a valuation on top of a row that another transaction has written. */
  function Overlaid(v: Offer, valued: Offer): Offer {
    v.(appraisal := valued.appraisal, statuses := v.statuses.(
         valuation := valued.statuses.valuation, notification := valued.statuses.notification))
  }

  /** A valuation and another transaction that overlap: both read `o`, and the other commits first. */
  function Overlapped(o: Offer, e: Event, m: Market, w: Weights, instant: bool): Offer {
    Overlaid(Written(o, e), Valued(o, m, w, instant))
  }

  lemma OverlaidIsFreshIff(o: Offer, v: Offer, m: Market, w: Weights, instant: bool)
    requires CanValue(o, m)
    ensures var c := Cached(Overlaid(v, Valued(o, m, w, instant)), Some(BasisOf(o, m)));
            SaysValued(c.offer) && (Fresh(c) <==> InputsOf(v) == InputsOf(o))
  {
    assert Appraises(Rated(o, m, w).appraisal, BasisOf(o, m));
    assert InputsOf(Overlaid(v, Valued(o, m, w, instant))) == InputsOf(v);
  }

  /** What the valuation remembers, and what the row has become. */
  function OverlappedCached(o: Offer, e: Event, m: Market, w: Weights, instant: bool): Cached {
    Cached(Overlapped(o, e, m, w, instant), Some(BasisOf(o, m)))
  }

  /** Whatever the other transaction was, the row says that it is valued; it is fresh exactly when the
      other transaction left the inputs alone. */
  lemma OverlapIsHarmlessIfTheInputsStay(o: Offer, e: Event, m: Market, w: Weights, instant: bool)
    requires CanValue(o, m)
    ensures var c := OverlappedCached(o, e, m, w, instant);
            SaysValued(c.offer) && (Fresh(c) <==> InputsOf(Written(o, e)) == InputsOf(o))
  {
    OverlaidIsFreshIff(o, Written(o, e), m, w, instant);
  }

  /** For an observation: exactly when it did not change the bid. */
  lemma OverlapIsHarmlessIfTheBidStays(
      o: Offer, end: Option<int>, obs: Observation, now: int, m: Market, w: Weights, instant: bool)
    requires o.kind == AuctionLot && CanValue(o, m)
    ensures var c := OverlappedCached(o, BidObserved(end, obs, now), m, w, instant);
            SaysValued(c.offer) && (Fresh(c) <==> !BidChanged(o.bidding, obs))
  {
    OverlapIsHarmlessIfTheInputsStay(o, BidObserved(end, obs, now), m, w, instant);
  }

  lemma CostTellsTheBid(x: real, y: real, f: Fees)
    requires NonNegativeRates(f) && AllInCost(x, f) == AllInCost(y, f)
    ensures x == y
  {
    if x < y {
      LowerBidScoresHigher(x, y, f, 1.0);
    } else if y < x {
      LowerBidScoresHigher(y, x, f, 1.0);
    }
  }

  lemma OnlyTheBidPrices(a: Appraisal, p: Option<real>, q: Option<real>, f: Fees)
    requires NonNegativeRates(f) && (a.expected.None? ==> a.low.None?)
    ensures Priced(a, p, p, f) == Priced(a, q, q, f) <==> p == q || a.expected.None?
  {
    if p.Some? && q.Some? && a.expected.Some? && AllInCost(p.value, f) == AllInCost(q.value, f) {
      CostTellsTheBid(p.value, q.value, f);
    }
  }

  /** Its stored figures are those of the present row exactly when the bid did not change, or the comps
      were too few for the bid to matter. */
  lemma OverlapStoresTheWrongFigures(
      o: Offer, end: Option<int>, obs: Observation, now: int, m: Market, w: Weights, instant: bool)
    requires o.kind == AuctionLot && CanValue(o, m) && NonNegativeRates(AuctionFees(m.terms.value, m.landed))
    ensures var v := Overlapped(o, BidObserved(end, obs, now), m, w, instant);
            Appraises(v.appraisal, BasisOf(v, m))
            <==> !BidChanged(o.bidding, obs) || v.statuses.valuation == Insufficient
  {
    var v := Overlapped(o, BidObserved(end, obs, now), m, w, instant);
    var i, j := InputsOf(o), InputsOf(v);
    assert QueryOf(i, m.offerId) == QueryOf(j, m.offerId);
    var fv := FairValueOf(i, m);
    assert fv == FairValueOf(j, m);
    OnlyTheBidPrices(AppraisalOf(fv), o.bidding.bid, v.bidding.bid, AuctionFees(m.terms.value, m.landed));
    VerdictFollowsCompCount(CompSet(m.tables, QueryOf(i, m.offerId), m.now),
                            ConditionOf(i.assessment), i.assessment.sparse);
  }

  // ---- a market where it happens ----

  const TRUCK := Facts(Some("toyota"), Some("tacoma"), None, Some(2015), Some(100_000), None, None, None, None, None)
  const TRUCK_SOLD := HistoricalSale(TRUCK, Some(10_000.0), None, "private", None, false)
  const TRUCK_LOT := Offer(
    AuctionLot, TRUCK, Content(None, None, []), None, UNASSESSED, ALL_PENDING,
    NO_BIDDING.(bid := Some(5_000.0)), NO_ASKING, None, UNMARKED, UNTRIED)
  const NO_TERMS := AuctionTerms(None, None, None, None, None, None, None)

  function FiveSold(): Market {
    Market(Tables(Repeat(TRUCK_SOLD, 5), []), 1, Some(NO_TERMS), 0.0, 0)
  }

  lemma {:induction false} OneCompEach(q: CompQuery, n: nat)
    requires InBand(TRUCK, q)
    ensures |FlatMap(FromSale(q), Repeat(TRUCK_SOLD, n))| == n
  {
    if n > 0 {
      OneCompEach(q, n - 1);
      assert Repeat(TRUCK_SOLD, n)[1..] == Repeat(TRUCK_SOLD, n - 1);
      assert |CompOfSale(TRUCK_SOLD, q)| == 1;
    }
  }

  lemma FiveSoldAreFiveComps()
    ensures CanValue(TRUCK_LOT, FiveSold())
    ensures |CompSet(FiveSold().tables, QueryOf(InputsOf(TRUCK_LOT), 1), 0)| == 5
  {
    var q := QueryOf(InputsOf(TRUCK_LOT), 1);
    assert q.mileageKm as real * 0.7 == 70_000.0 && q.mileageKm as real * 1.3 == 130_000.0;
    OneCompEach(q, 5);
  }

  /** A lot at 5000 with five comps on the market, and a bid of 6000 committed inside its valuation: the row
      says DONE, with the figures of the old bid. */
  lemma OverlapLeavesAStaleRow(w: Weights, instant: bool)
    ensures var obs := Observation(Some(6_000.0), None, SeenOther);
            var c := OverlappedCached(TRUCK_LOT, BidObserved(None, obs, 0), FiveSold(), w, instant);
            && c.offer.statuses.valuation == Done && c.offer.bidding.bid == Some(6_000.0)
            && !Fresh(c) && !Appraises(c.offer.appraisal, BasisOf(c.offer, FiveSold()))
  {
    var m, obs := FiveSold(), Observation(Some(6_000.0), None, SeenOther);
    FiveSoldAreFiveComps();
    StatusTellsTheVerdict(TRUCK_LOT, m, w, instant);
    OverlapIsHarmlessIfTheBidStays(TRUCK_LOT, None, obs, 0, m, w, instant);
    OverlapStoresTheWrongFigures(TRUCK_LOT, None, obs, 0, m, w, instant);
  }
}
