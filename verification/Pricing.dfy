/** All-in cost, deal scores and delivery tier (scoring/score.py, scoring/asking_haircut.py,
    wants/deal.py, wants/delivery.py). */
module Pricing {
  import opened Base
  import opened Reals
  import opened Offers

  /** The auction's fee schedule, after the valuator's defaults. */
  datatype Fees = Fees(
    premiumPct: real, premiumCap: Option<real>, premiumFloor: Option<real>, gst: real, pst: real, landed: real)

  ghost predicate NonNegativeRates(f: Fees) {
    f.premiumPct >= 0.0 && f.gst >= 0.0 && f.pst >= 0.0
  }

  /** Linear premium, clamped by the cap first and the floor second. */
  function PremiumAmount(bid: real, pct: real, cap: Option<real>, floor: Option<real>): real {
    var linear := Times(pct, bid);
    var capped := if cap.Some? && linear > cap.value then cap.value else linear;
    if floor.Some? && capped < floor.value then floor.value else capped
  }

  function AllInCost(bid: real, f: Fees): real {
    Times(1.0 + f.gst + f.pst, bid + PremiumAmount(bid, f.premiumPct, f.premiumCap, f.premiumFloor)) + f.landed
  }

  function PriceDealScore(bid: real, f: Fees, expected: real): real {
    if expected <= 0.0 then 0.0 else (expected - AllInCost(bid, f)) / expected
  }

  const PRIVATE_HAIRCUT := 0.05
  const DEALER_HAIRCUT := 0.03

  /** The asking price less the share a seller of this type usually gives up. */
  function EffectiveAcquisitionPrice(asking: real, dealer: bool): real {
    Times(1.0 - (if dealer then DEALER_HAIRCUT else PRIVATE_HAIRCUT), asking)
  }

  // ---- want-relative deal and delivery ----

  /** Python's `expected or mid`: a zero expected value falls back too. */
  function ReferenceValue(a: Option<Appraisal>): Option<real> {
    if a.None? then None
    else if a.value.expected.Some? && a.value.expected.value != 0.0 then a.value.expected
    else a.value.mid
  }

  /** Fraction below the market reference, when there is one and the price is known. */
  function WantScore(a: Option<Appraisal>, price: Option<real>): Option<real> {
    var reference := ReferenceValue(a);
    if reference.Some? && reference.value > 0.0 && price.Some?
    then Some((reference.value - price.value) / reference.value) else None
  }

  datatype Tier = Instant | Digest

  datatype Delivery = Delivery(threshold: real, closingSeconds: int, now: int)

  function DeliveryTier(score: Option<real>, price: Option<real>, previousAsking: Option<real>,
                        end: Option<int>, d: Delivery): Tier
  {
    if score.None? || score.value >= d.threshold then Instant
    else if previousAsking.Some? && price.Some? && previousAsking.value > price.value then Instant
    else if end.Some? && 0 <= end.value - d.now <= d.closingSeconds then Instant
    else Digest
  }

  // ---- what the figures mean ----

  /** The cap binds from above and the floor from below; the floor wins when the two cross. */
  lemma PremiumIsClamped(bid: real, pct: real, cap: Option<real>, floor: Option<real>)
    ensures var p, linear := PremiumAmount(bid, pct, cap, floor), Times(bid, pct);
            && (floor.Some? ==> p >= floor.value)
            && (cap.Some? && (floor.None? || floor.value <= cap.value) ==> p <= cap.value)
            && ((cap.None? || linear <= cap.value) && (floor.None? || linear >= floor.value) ==> p == linear)
            && (p == linear || (cap.Some? && p == cap.value) || (floor.Some? && p == floor.value))
  {
    Reorder(pct, bid, 0.0);
  }

  /** Without cap and floor the cost is bid * (1 + premium) * (1 + taxes) + landed cost. */
  lemma UncappedCost(bid: real, f: Fees)
    requires f.premiumCap.None? && f.premiumFloor.None?
    ensures AllInCost(bid, f) == Times(Times(bid, 1.0 + f.premiumPct), 1.0 + f.gst + f.pst) + f.landed
  {
    Distribute(bid, 1.0, f.premiumPct);
    Reorder(bid, f.premiumPct, 0.0);
    Reorder(bid + Times(f.premiumPct, bid), 1.0 + f.gst + f.pst, 0.0);
  }

  /** A deal score is the discount from the expected value to the all-in cost. */
  lemma DealScoreIsADiscount(bid: real, f: Fees, expected: real)
    requires expected > 0.0
    ensures Times(1.0 - PriceDealScore(bid, f, expected), expected) == AllInCost(bid, f)
  {
    QuotientTimes(expected - AllInCost(bid, f), expected);
    Distribute(expected, 1.0, -PriceDealScore(bid, f, expected));
    Negated(PriceDealScore(bid, f, expected), expected);
  }

  /** A want score is the discount from the market reference to the price. */
  lemma WantScoreIsADiscount(a: Option<Appraisal>, price: Option<real>)
    requires WantScore(a, price).Some?
    ensures ReferenceValue(a).Some? && price.Some?
    ensures Times(1.0 - WantScore(a, price).value, ReferenceValue(a).value) == price.value
  {
    var r := ReferenceValue(a).value;
    QuotientTimes(r - price.value, r);
    Distribute(r, 1.0, -WantScore(a, price).value);
    Negated(WantScore(a, price).value, r);
  }

  lemma Negated(x: real, y: real)
    ensures Times(-x, y) == -Times(x, y) && Times(1.0, y) == y
  {
  }

  // ---- a lower price is never worse ----

  lemma PremiumGrowsWithBid(low: real, high: real, f: Fees)
    requires low <= high && f.premiumPct >= 0.0
    ensures PremiumAmount(low, f.premiumPct, f.premiumCap, f.premiumFloor)
            <= PremiumAmount(high, f.premiumPct, f.premiumCap, f.premiumFloor)
  {
    Scale(f.premiumPct, low, high);
  }

  lemma QuotientOrder(x: real, y: real, d: real)
    requires d > 0.0 && x < y
    ensures x / d < y / d
  {
    QuotientTimes(x, d);
    QuotientTimes(y, d);
    CancelRight(d, x / d, y / d);
  }

  /** Clamps and all, a lower bid costs strictly less and scores strictly better. */
  lemma LowerBidScoresHigher(low: real, high: real, f: Fees, expected: real)
    requires low < high && NonNegativeRates(f) && expected > 0.0
    ensures AllInCost(low, f) < AllInCost(high, f)
    ensures PriceDealScore(low, f, expected) > PriceDealScore(high, f, expected)
  {
    PremiumGrowsWithBid(low, high, f);
    ScaleStrictly(1.0 + f.gst + f.pst,
                  low + PremiumAmount(low, f.premiumPct, f.premiumCap, f.premiumFloor),
                  high + PremiumAmount(high, f.premiumPct, f.premiumCap, f.premiumFloor));
    QuotientOrder(expected - AllInCost(high, f), expected - AllInCost(low, f), expected);
  }

  lemma LowerPriceKeepsTier(a: Option<Appraisal>, low: real, high: real,
                            previousAsking: Option<real>, end: Option<int>, d: Delivery)
    requires low < high
    ensures WantScore(a, Some(low)).Some? == WantScore(a, Some(high)).Some?
    ensures WantScore(a, Some(high)).Some? ==> WantScore(a, Some(low)).value > WantScore(a, Some(high)).value
    ensures DeliveryTier(WantScore(a, Some(high)), Some(high), previousAsking, end, d) == Instant
            ==> DeliveryTier(WantScore(a, Some(low)), Some(low), previousAsking, end, d) == Instant
  {
    var r := ReferenceValue(a);
    if r.Some? && r.value > 0.0 {
      QuotientOrder(r.value - high, r.value - low, r.value);
    }
  }

  // ---- the branches, one by one ----

  /** Instant: unpriced, a good enough deal, dropped below the previous asking price, or about to close. */
  lemma InstantIsExact(score: Option<real>, price: Option<real>, previousAsking: Option<real>,
                       end: Option<int>, d: Delivery)
    ensures DeliveryTier(score, price, previousAsking, end, d) == Digest
            <==> && score.Some? && score.value < d.threshold
                 && (previousAsking.Some? && price.Some? ==> price.value >= previousAsking.value)
                 && (end.Some? ==> end.value < d.now || d.now + d.closingSeconds < end.value)
  {
  }

  /** A private seller gives up 5 percent of the asking price, a dealer 3. */
  lemma HaircutIs(asking: real)
    ensures EffectiveAcquisitionPrice(asking, false) == asking * 0.95
    ensures EffectiveAcquisitionPrice(asking, true) == asking * 0.97
  {
  }

  /** The expected value is the reference, unless there is none or it is zero: then the middle one is. */
  lemma ReferenceIs(a: Appraisal)
    ensures ReferenceValue(None).None?
    ensures ReferenceValue(Some(a)) == match a.expected case Some(e) => (if e == 0.0 then a.mid else Some(e))
                                                       case None => a.mid
  {
  }

  /** Without a positive expected value there is no deal to score. */
  lemma NothingExpectedScoresZero(bid: real, f: Fees, expected: real)
    requires expected <= 0.0
    ensures PriceDealScore(bid, f, expected) == 0.0
  {
  }
}
