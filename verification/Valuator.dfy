/** Valuing one offer (apps/valuator/valuator.py, with the flag weights of scoring/score.py). */
module Valuator {
  import opened Base
  import opened Reals
  import opened Text
  import opened Offers
  import opened Comps
  import opened FairValue
  import opened Pricing
  import opened Matcher
  import opened Ledger
  import opened Stages

  const DEFAULT_BUYER_PREMIUM_PCT := 0.10
  const DEFAULT_GST_PCT := 0.05
  const DEFAULT_PST_PCT := 0.0
  const SUSPICIOUS_UNDERPRICE_FRACTION := 0.85
  const EXCESSIVE_RED_FLAG_WEIGHT_THRESHOLD := -8

  /** The auction row, as far as pricing reads it. */
  datatype AuctionTerms = AuctionTerms(
    premiumPct: Option<real>, premiumCap: Option<real>, premiumFloor: Option<real>,
    gst: Option<real>, pst: Option<real>, end: Option<int>, province: Option<string>)

  /** Everything outside the offer row that a valuation reads.  `terms` is the auction row, if it exists. */
  datatype Market = Market(tables: Tables, offerId: int, terms: Option<AuctionTerms>, landed: real, now: int)

  /** The columns of the offer that a valuation is recomputed for. */
  datatype Inputs = Inputs(
    kind: Kind, price: Option<real>, make: Option<string>, model: Option<string>, year: Option<int>,
    trim: Option<string>, mileageKm: Option<int>, assessment: Assessment)

  function InputsOf(o: Offer): Inputs {
    Inputs(o.kind, Price(o), o.facts.make, o.facts.model, o.facts.year, o.facts.trim, o.facts.mileageKm, o.assessment)
  }

  // ---- Python truthiness ----

  predicate Named(s: Option<string>) {
    s.Some? && s.value != ""
  }

  function OrDefault(x: Option<real>, fallback: real): real {
    if x.Some? && x.value != 0.0 then x.value else fallback
  }

  predicate HasRequiredData(i: Inputs) {
    Named(i.make) && Named(i.model) && i.year.Some? && i.year.value != 0
  }

  predicate CanValue(o: Offer, m: Market) {
    (o.kind == AuctionLot ==> m.terms.Some?) && HasRequiredData(InputsOf(o))
  }

  // ---- the appraisal ----

  function QueryOf(i: Inputs, offerId: int): CompQuery
    requires HasRequiredData(i)
  {
    CompQuery(i.make.value, i.model.value, i.trim, i.year.value,
              if i.mileageKm.Some? then i.mileageKm.value else 0, offerId)
  }

  function ConditionOf(a: Assessment): string {
    if Named(a.condition) then a.condition.value else "decent"
  }

  function FairValueOf(i: Inputs, m: Market): FairValue
    requires HasRequiredData(i)
  {
    ComputeFairValue(CompSet(m.tables, QueryOf(i, m.offerId), m.now), ConditionOf(i.assessment), i.assessment.sparse)
  }

  function AppraisalOf(f: FairValue): Appraisal {
    if f.range.None? then Appraisal(f.compCount, None, None, None, None, f.confidence, None, None, false)
    else
      var r := f.range.value;
      Appraisal(f.compCount, Some(r.low), Some(r.mid), Some(r.high), Some(r.expected), f.confidence, None, None, false)
  }

  function AuctionFees(t: AuctionTerms, landed: real): Fees {
    Fees(OrDefault(t.premiumPct, DEFAULT_BUYER_PREMIUM_PCT), t.premiumCap, t.premiumFloor,
         OrDefault(t.gst, DEFAULT_GST_PCT), OrDefault(t.pst, DEFAULT_PST_PCT), landed)
  }

  /** Private used-car sales carry no premium and no tax. */
  function ListingFees(landed: real): Fees {
    Fees(0.0, None, None, 0.0, 0.0, landed)
  }

  predicate IsDealer(sellerType: Option<string>) {
    sellerType.Some? && Fold(sellerType.value) == "dealer"
  }

  function EffectiveAsking(asking: Option<real>, dealer: bool): Option<real> {
    if asking.Some? then Some(EffectiveAcquisitionPrice(asking.value, dealer)) else None
  }

  /** Adds the money columns: `price` is the headline price, `bid` what a buyer is taken to pay. */
  function Priced(a: Appraisal, price: Option<real>, bid: Option<real>, f: Fees): Appraisal {
    var scored := bid.Some? && a.expected.Some?;
    a.(allIn := if scored then Some(AllInCost(bid.value, f)) else None,
       dealScore := if scored then Some(PriceDealScore(bid.value, f, a.expected.value)) else None,
       suspicious := a.low.Some? && price.Some? && price.value < Times(a.low.value, SUSPICIOUS_UNDERPRICE_FRACTION))
  }

  /** What a valuation of these inputs writes, given the market and the seller. */
  function Appraise(i: Inputs, m: Market, dealer: bool): Appraisal
    requires HasRequiredData(i) && (i.kind == AuctionLot ==> m.terms.Some?)
  {
    var a := AppraisalOf(FairValueOf(i, m));
    if i.kind == AuctionLot then Priced(a, i.price, i.price, AuctionFees(m.terms.value, m.landed))
    else Priced(a, i.price, EffectiveAsking(i.price, dealer), ListingFees(m.landed))
  }

  // ---- the notification verdict ----

  type Weights = map<string, int>

  /** Unknown flags weigh nothing. */
  function FlagWeight(w: Weights, flags: seq<string>): int {
    if flags == [] then 0 else (if flags[0] in w then w[flags[0]] else 0) + FlagWeight(w, flags[1..])
  }

  function DecideNotification(a: Assessment, w: Weights): Status {
    if a.showstoppers != [] then Skipped
    else if FlagWeight(w, a.redFlags) + FlagWeight(w, a.greenFlags) <= EXCESSIVE_RED_FLAG_WEIGHT_THRESHOLD then Skipped
    else Pending
  }

  function PreviousAsking(o: Offer): Option<real> {
    if o.kind == PrivateListing then o.asking.previous else None
  }

  /** An outstanding match of the offer that must be delivered at once. */
  predicate IsInstant(wants: seq<Want>, m: Matched, k: Key, o: Offer, end: Option<int>, d: Delivery) {
    Outstanding(wants, m, k) && DeliveryTier(m[k].score, Price(o), PreviousAsking(o), end, d) == Instant
  }

  predicate HasUnnotifiedInstantMatch(wants: seq<Want>, m: Matched, lot: int, o: Offer, end: Option<int>, d: Delivery) {
    exists k :: k in m && k.lot == lot && IsInstant(wants, m, k, o, end, d)
  }

  // ---- one valuation ----

  /** Scheduled end and province by channel: the auction's, or the listing's own. */
  function EndOf(t: Option<AuctionTerms>): Option<int> {
    if t.Some? then t.value.end else None
  }

  function ProvinceOf(o: Offer, t: Option<AuctionTerms>): Option<string> {
    if o.kind == PrivateListing then o.asking.province else if t.Some? then t.value.province else None
  }

  function NotValued(o: Offer): Offer {
    o.(statuses := o.statuses.(valuation := Skipped, notification := Skipped))
  }

  /** The row before the want-list has its say. */
  function Rated(o: Offer, m: Market, w: Weights): Offer
    requires CanValue(o, m)
  {
    var a := Appraise(InputsOf(o), m, IsDealer(o.asking.sellerType));
    o.(appraisal := Some(a),
       statuses := if a.confidence == InsufficientComps
                   then o.statuses.(valuation := Insufficient, notification := Skipped)
                   else o.statuses.(valuation := Done, notification := DecideNotification(o.assessment, w)))
  }

  function Valued(o: Offer, m: Market, w: Weights, instant: bool): Offer {
    if !CanValue(o, m) then NotValued(o)
    else if instant then Rated(o, m, w).(statuses := Rated(o, m, w).statuses.(notification := Pending))
    else Rated(o, m, w)
  }

  /** The row and the ledger after one valuation. */
  datatype Outcomes = Outcomes(row: Offer, matches: Matched)

  /** What a want evaluation looks at: the offer's own id, the other offers, the wants, the delivery settings. */
  datatype Context = Context(
    id: int, offers: OfferTable, wants: seq<Want>, delivery: Delivery)

  /** The rated row is shown to every enabled want, then an instant match forces the notification. */
  function ValuedAndMatched(o: Offer, m: Market, w: Weights, c: Context, before: Matched): Outcomes {
    if !CanValue(o, m) then Outcomes(NotValued(o), before)
    else
      var rated := Rated(o, m, w);
      var after := Evaluated(c.offers[c.id := rated], c.wants, before, c.id, ProvinceOf(o, m.terms), |c.wants|);
      var instant := HasUnnotifiedInstantMatch(c.wants, after, c.id, rated, EndOf(m.terms), c.delivery);
      Outcomes(Valued(o, m, w, instant), after)
  }

  method ApplyPricing(lot: OfferRow, t: AuctionTerms, landed: real)
    requires lot.appraisal.Some?
    modifies lot`appraisal
    ensures lot.appraisal == Some(Priced(old(lot.appraisal.value), lot.bidding.bid, lot.bidding.bid,
                                         AuctionFees(t, landed)))
  {
    var f, bid, a := AuctionFees(t, landed), lot.bidding.bid, lot.appraisal.value;
    if bid.Some? && a.expected.Some? {
      a := a.(allIn := Some(AllInCost(bid.value, f)),
              dealScore := Some(PriceDealScore(bid.value, f, a.expected.value)));
    } else {
      a := a.(allIn := None, dealScore := None);
    }
    if a.low.Some? && bid.Some? {
      a := a.(suspicious := bid.value < Times(a.low.value, SUSPICIOUS_UNDERPRICE_FRACTION));
    } else {
      a := a.(suspicious := false);
    }
    lot.appraisal := Some(a);
  }

  method ApplyListingPricing(lot: OfferRow, landed: real)
    requires lot.appraisal.Some?
    modifies lot`appraisal
    ensures lot.appraisal == Some(Priced(old(lot.appraisal.value), lot.asking.price,
                                         EffectiveAsking(lot.asking.price, IsDealer(lot.asking.sellerType)),
                                         ListingFees(landed)))
  {
    var f, asking, a := ListingFees(landed), lot.asking.price, lot.appraisal.value;
    if asking.Some? && a.expected.Some? {
      var effective := EffectiveAcquisitionPrice(asking.value, IsDealer(lot.asking.sellerType));
      a := a.(allIn := Some(AllInCost(effective, f)),
              dealScore := Some(PriceDealScore(effective, f, a.expected.value)));
    } else {
      a := a.(allIn := None, dealScore := None);
    }
    if a.low.Some? && asking.Some? {
      a := a.(suspicious := asking.value < Times(a.low.value, SUSPICIOUS_UNDERPRICE_FRACTION));
    } else {
      a := a.(suspicious := false);
    }
    lot.appraisal := Some(a);
  }

  /** Writes the appraisal and the statuses that follow from it. */
  method Rate(lot: OfferRow, m: Market, w: Weights)
    requires CanValue(lot.Value(), m)
    modifies lot
    ensures lot.Value() == Rated(old(lot.Value()), m, w)
  {
    var inputs := InputsOf(lot.Value());
    var comps := BuildCompSet(m.tables, QueryOf(inputs, m.offerId), m.now);
    var fv := ComputeFairValue(comps, ConditionOf(lot.assessment), lot.assessment.sparse);
    lot.appraisal := Some(AppraisalOf(fv));
    if lot.kind == AuctionLot {
      ApplyPricing(lot, m.terms.value, m.landed);
    } else {
      ApplyListingPricing(lot, m.landed);
    }
    if fv.confidence == InsufficientComps {
      lot.statuses := lot.statuses.(valuation := Insufficient, notification := Skipped);
    } else {
      lot.statuses := lot.statuses.(valuation := Done, notification := DecideNotification(lot.assessment, w));
    }
  }

  method ValueOne(lot: OfferRow, m: Market, w: Weights, c: Context, ledger: WantLedger)
    modifies lot, ledger
    ensures Outcomes(lot.Value(), ledger.matches) == ValuedAndMatched(old(lot.Value()), m, w, c, old(ledger.matches))
  {
    if !CanValue(lot.Value(), m) {
      lot.statuses := lot.statuses.(valuation := Skipped, notification := Skipped);
      return;
    }
    Rate(lot, m, w);
    var rated := lot.Value();
    var _ := ledger.EvaluateLotAgainstWants(c.offers[c.id := rated], c.wants, c.id, ProvinceOf(rated, m.terms));
    if HasUnnotifiedInstantMatch(c.wants, ledger.matches, c.id, rated, EndOf(m.terms), c.delivery) {
      lot.statuses := lot.statuses.(notification := Pending);
    }
  }

  function Tried(o: Offer): Offer {
    o.(attempts := o.attempts.(valuation := o.attempts.valuation + 1))
  }

  /** One claimed row.  A failing transaction is rolled back, and a second one counts the attempt. */
  function AfterValuation(o: Offer, m: Market, w: Weights, c: Context, before: Matched, raises: bool,
                          max: nat): Outcomes
  {
    if raises then Outcomes(WithValuation(o, Retried(o.attempts.valuation, false, max)), before)
    else ValuedAndMatched(Tried(o), m, w, c, before)
  }

  /** The first transaction counts the attempt and values the row.  When it raises, at whatever point,
      row and ledger are rolled back and a second transaction counts the attempt again.  A row may be
      gone before the first, or between the two. */
  method ProcessOne(lot: OfferRow?, m: Market, w: Weights, c: Context, ledger: WantLedger,
                    raises: bool, stillThere: bool, max: nat)
      returns (outcome: Outcome, notified: bool)
    modifies lot, ledger
    ensures lot == null || (raises && !stillThere) ==>
              && outcome == IsMissing && !notified && ledger.matches == old(ledger.matches)
              && (lot != null ==> lot.Value() == old(lot.Value()))
    ensures lot != null && (raises ==> stillThere) ==>
              && Outcomes(lot.Value(), ledger.matches)
                 == AfterValuation(old(lot.Value()), m, w, c, old(ledger.matches), raises, max)
              && outcome == (if !raises then IsDone
                             else if lot.statuses.valuation == Failed then IsFailed else IsTransient)
              && notified == (!raises && lot.statuses.notification == Pending)
  {
    if lot == null {
      return IsMissing, false;
    }
    var rowBefore, ledgerBefore := lot.Value(), ledger.matches;
    lot.attempts := lot.attempts.(valuation := lot.attempts.valuation + 1);
    ValueOne(lot, m, w, c, ledger);
    if !raises {
      return IsDone, lot.statuses.notification == Pending;
    }
    lot.Restore(rowBefore);
    ledger.matches := ledgerBefore;
    if !stillThere {
      return IsMissing, false;
    }
    outcome := Recount(lot, max);
    notified := false;
  }

  method Recount(lot: OfferRow, max: nat) returns (outcome: Outcome)
    modifies lot
    ensures lot.Value() == WithValuation(old(lot.Value()), Retried(old(lot.attempts.valuation), false, max))
    ensures outcome == if lot.statuses.valuation == Failed then IsFailed else IsTransient
  {
    lot.attempts := lot.attempts.(valuation := lot.attempts.valuation + 1);
    if lot.attempts.valuation >= max {
      lot.statuses := lot.statuses.(valuation := Failed);
      return IsFailed;
    }
    lot.statuses := lot.statuses.(valuation := Pending);
    outcome := IsTransient;
  }

  /** Every pass that writes the row raises the counter by exactly one: the attempt counted by a failing
      transaction is lost with it, and the recount makes up for just that. */
  lemma EveryPassCountsOnce(o: Offer, m: Market, w: Weights, c: Context, before: Matched, raises: bool, max: nat)
    ensures var r := AfterValuation(o, m, w, c, before, raises, max);
            && r.row.attempts == o.attempts.(valuation := o.attempts.valuation + 1)
            && (raises ==> r.matches == before && InputsOf(r.row) == InputsOf(o) && r.row.appraisal == o.appraisal)
  {
  }

  // ---- what a valuation says ----

  /** The status column tells how many comps there were; an instant match is alerted whatever the deal
      filter said, and without one neither thin comps, showstoppers nor heavy red flags alert. */
  lemma StatusTellsTheVerdict(o: Offer, m: Market, w: Weights, instant: bool)
    ensures var v := Valued(o, m, w, instant).statuses;
            if !CanValue(o, m) then v.valuation == Skipped && v.notification == Skipped
            else
              && (v.valuation == Insufficient
                  <==> |CompSet(m.tables, QueryOf(InputsOf(o), m.offerId), m.now)| < INSUFFICIENT_COMPS_THRESHOLD)
              && (v.valuation != Insufficient ==> v.valuation == Done)
              && (v.notification == Pending <==>
                    || instant
                    || (&& v.valuation == Done && o.assessment.showstoppers == []
                        && FlagWeight(w, o.assessment.redFlags) + FlagWeight(w, o.assessment.greenFlags)
                           > EXCESSIVE_RED_FLAG_WEIGHT_THRESHOLD))
  {
    if CanValue(o, m) {
      VerdictFollowsCompCount(CompSet(m.tables, QueryOf(InputsOf(o), m.offerId), m.now),
                              ConditionOf(o.assessment), o.assessment.sparse);
    }
  }

  /** Two valuations of one auction lot that differ in the bid alone: same value range, and the lower
      bid has the strictly lower all-in cost and the strictly higher stored deal score. */
  lemma LowerBidStoresHigherScore(low: Offer, high: Offer, m: Market, w: Weights, instant: bool)
    requires low.kind == AuctionLot && high == low.(bidding := low.bidding.(bid := high.bidding.bid))
    requires low.bidding.bid.Some? && high.bidding.bid.Some? && low.bidding.bid.value < high.bidding.bid.value
    requires CanValue(low, m) && NonNegativeRates(AuctionFees(m.terms.value, m.landed))
    ensures var x, y := Valued(low, m, w, instant), Valued(high, m, w, instant);
            && x.statuses.valuation == y.statuses.valuation
            && x.appraisal.Some? && y.appraisal.Some?
            && LowerCostHigherScore(x.appraisal.value, y.appraisal.value)
  {
    var i, j := InputsOf(low), InputsOf(high);
    assert QueryOf(i, m.offerId) == QueryOf(j, m.offerId);
    var fv := FairValueOf(i, m);
    assert fv == FairValueOf(j, m);
    if fv.range.Some? && fv.range.value.expected > 0.0 {
      LowerBidScoresHigher(low.bidding.bid.value, high.bidding.bid.value, AuctionFees(m.terms.value, m.landed),
                           fv.range.value.expected);
    }
  }

  /** The same range; and, when there is a positive expected value, the cost is lower and the score higher. */
  ghost predicate LowerCostHigherScore(a: Appraisal, b: Appraisal) {
    && a.low == b.low && a.mid == b.mid && a.high == b.high && a.expected == b.expected
    && (a.expected.Some? && a.expected.value > 0.0 ==>
          && a.allIn.Some? && b.allIn.Some? && a.allIn.value < b.allIn.value
          && a.dealScore.Some? && b.dealScore.Some? && a.dealScore.value > b.dealScore.value)
  }

  // ---- the row and the ledger together ----

  /** The notifier is called for the row in exactly two cases: the ledger as it stands after the evaluation
      holds an un-notified, undismissed, instant match of an enabled want; or the valuation is done, without
      showstoppers and above the flag threshold. */
  lemma NotificationFollowsTheLedger(o: Offer, m: Market, w: Weights, c: Context, before: Matched)
    requires CanValue(o, m)
    ensures var r := ValuedAndMatched(o, m, w, c, before);
            var previous := if o.kind == PrivateListing then o.asking.previous else None;
            var end := if m.terms.Some? then m.terms.value.end else None;
            r.row.statuses.notification == Pending
            <==> || (exists k :: && k in r.matches && k.lot == c.id && r.matches[k].notifiedAt.None?
                                 && !r.matches[k].dismissed && k.search < |c.wants| && c.wants[k.search].enabled
                                 && DeliveryTier(r.matches[k].score, Price(r.row), previous, end, c.delivery)
                                    == Instant)
                 || (&& r.row.statuses.valuation == Done && o.assessment.showstoppers == []
                     && FlagWeight(w, o.assessment.redFlags) + FlagWeight(w, o.assessment.greenFlags) > -8)
  {
    var r := ValuedAndMatched(o, m, w, c, before);
    var instant := HasUnnotifiedInstantMatch(c.wants, r.matches, c.id, Rated(o, m, w), EndOf(m.terms), c.delivery);
    assert r.row == Valued(o, m, w, instant);
    StatusTellsTheVerdict(o, m, w, instant);
    assert Price(r.row) == Price(o) == Price(Rated(o, m, w));
    if instant {
      var k :| k in r.matches && k.lot == c.id
               && IsInstant(c.wants, r.matches, k, Rated(o, m, w), EndOf(m.terms), c.delivery);
      assert r.matches[k].notifiedAt.None?;
    } else {
      assert forall k :: k in r.matches && k.lot == c.id ==>
               !IsInstant(c.wants, r.matches, k, Rated(o, m, w), EndOf(m.terms), c.delivery);
    }
  }

  /** And that ledger holds, for each enabled want that accepts the row as valued, a match with the score of
      the new valuation. */
  lemma LedgerFollowsTheValuation(o: Offer, m: Market, w: Weights, c: Context, before: Matched, k: Key)
    requires CanValue(o, m)
    ensures var r, rated := ValuedAndMatched(o, m, w, c, before), Rated(o, m, w);
            var province := if o.kind == PrivateListing then o.asking.province
                            else if m.terms.Some? then m.terms.value.province else None;
            EvaluatedAt(c.offers[c.id := rated], before, r.matches, k,
                        && k.lot == c.id && k.search < |c.wants| && c.wants[k.search].enabled
                        && c.wants[k.search].criteria.Some?
                        && Matches(rated, c.wants[k.search].criteria.value, province, Price(o)),
                        WantScore(r.row.appraisal, Price(o)))
  {
    var rated := Rated(o, m, w);
    EvaluationIsExact(c.offers[c.id := rated], c.wants, before, c.id, ProvinceOf(o, m.terms), |c.wants|, k);
  }

  // ---- the appraisal, column by column ----

  lemma FeesAreDefaulted(t: AuctionTerms, landed: real)
    ensures AuctionFees(t, landed) == Fees(
              if t.premiumPct.None? || t.premiumPct == Some(0.0) then 0.1 else t.premiumPct.value,
              t.premiumCap, t.premiumFloor,
              if t.gst.None? || t.gst == Some(0.0) then 0.05 else t.gst.value,
              if t.pst.None? then 0.0 else t.pst.value, landed)
  {
  }

  /** The range comes from the comps of the row's own band, with a missing mileage taken as 0 and a missing
      condition as "decent"; a price below 85 percent of the low value is suspicious; the money columns are
      filled exactly when there are a price and a range. */
  lemma AppraisalIsExact(o: Offer, m: Market, w: Weights, instant: bool)
    requires CanValue(o, m)
    ensures var a, price := Valued(o, m, w, instant).appraisal, Price(o);
            var comps := CompSet(m.tables, CompQuery(
              o.facts.make.value, o.facts.model.value, o.facts.trim, o.facts.year.value,
              if o.facts.mileageKm.Some? then o.facts.mileageKm.value else 0, m.offerId), m.now);
            var word := if o.assessment.condition.None? || o.assessment.condition.value == "" then "decent"
                        else o.assessment.condition.value;
            var f := ComputeFairValue(comps, word, o.assessment.sparse);
            && a.Some? && a.value.compCount == f.compCount && a.value.confidence == f.confidence
            && StoresRange(a.value, f.range)
            && (a.value.suspicious <==> f.range.Some? && price.Some? && price.value < f.range.value.low * 0.85)
            && (a.value.allIn.Some? <==> f.range.Some? && price.Some?)
            && (a.value.dealScore.Some? <==> f.range.Some? && price.Some?)
            && (f.range.Some? && price.Some? ==>
                  var bid := if o.kind == AuctionLot then price.value
                             else EffectiveAcquisitionPrice(price.value, IsDealer(o.asking.sellerType));
                  var fees := if o.kind == AuctionLot then AuctionFees(m.terms.value, m.landed)
                              else Fees(0.0, None, None, 0.0, 0.0, m.landed);
                  && a.value.allIn.value == AllInCost(bid, fees)
                  && a.value.dealScore.value == PriceDealScore(bid, fees, f.range.value.expected))
  {
    SuspiciousIs(AppraisalOf(FairValueOf(InputsOf(o), m)).low);
  }

  lemma SuspiciousIs(low: Option<real>)
    ensures low.Some? ==> Times(low.value, SUSPICIOUS_UNDERPRICE_FRACTION) == low.value * 0.85
  {
  }

  ghost predicate StoresRange(a: Appraisal, r: Option<Range>) {
    if r.None? then a.low.None? && a.mid.None? && a.high.None? && a.expected.None?
    else a.low == Some(r.value.low) && a.mid == Some(r.value.mid) && a.high == Some(r.value.high)
         && a.expected == Some(r.value.expected)
  }

  // ---- small readings ----

  /** A valuation needs make, model, a year other than zero, and for a lot its auction row. */
  lemma CanValueIs(o: Offer, m: Market)
    ensures CanValue(o, m)
            <==> && o.facts.make.Some? && o.facts.make != Some("") && o.facts.model.Some? && o.facts.model != Some("")
                 && o.facts.year.Some? && o.facts.year != Some(0) && (o.kind == AuctionLot ==> m.terms.Some?)
  {
  }

  lemma DealerIs(sellerType: Option<string>)
    ensures IsDealer(sellerType) <==> sellerType.Some? && Lower(Strip(sellerType.value)) == "dealer"
  {
  }

  /** Flag weights add up; an unknown flag weighs nothing. */
  lemma {:induction false} FlagWeightsAddUp(w: Weights, a: seq<string>, b: seq<string>)
    ensures FlagWeight(w, a + b) == FlagWeight(w, a) + FlagWeight(w, b)
    ensures forall f :: FlagWeight(w, [f]) == if f in w then w[f] else 0
  {
    if a == [] {
      assert a + b == b;
    } else {
      assert (a + b)[1..] == a[1..] + b;
      FlagWeightsAddUp(w, a[1..], b);
    }
  }
}
