/** Does an offer satisfy a want, and could a raw offer (wants/criteria.py, wants/matcher.py). */
module Matcher {
  import opened Base
  import opened Text
  import opened Offers
  import opened Pricing

  datatype ModelSpec = ModelSpec(
    make: string, model: string, yearMin: Option<int>, yearMax: Option<int>, trims: seq<string>)

  /** Empty lists mean "any".  A want is identified by its model specs, or else by the flat lists. */
  datatype WantCriteria = WantCriteria(
    modelSpecs: seq<ModelSpec>, makes: seq<string>, models: seq<string>, trims: seq<string>,
    transmissions: seq<string>, drivetrains: seq<string>, yearMin: Option<int>, yearMax: Option<int>,
    priceCeiling: Option<real>, maxMileageKm: Option<int>, provinces: seq<string>,
    conditionMin: Option<string>, hideShowstoppers: bool)

  const CONDITION_ORDER: seq<string> := ["bad", "poor", "decent", "good", "great"]

  function Rank(condition: string): int
    requires condition in CONDITION_ORDER
  {
    if condition == "bad" then 0 else if condition == "poor" then 1
    else if condition == "decent" then 2 else if condition == "good" then 3 else 4
  }

  predicate InSet(value: Option<string>, allowed: seq<string>, lenientUnknown: bool) {
    var needle := if value.None? then "" else Fold(value.value);
    if allowed == [] then true
    else if needle == "" || needle == "unknown" then lenientUnknown
    else exists i :: 0 <= i < |allowed| && needle == Fold(allowed[i])
  }

  predicate YearInRange(year: Option<int>, min: Option<int>, max: Option<int>) {
    if min.None? && max.None? then true
    else year.Some? && (min.None? || year.value >= min.value) && (max.None? || year.value <= max.value)
  }

  predicate SpecMatches(f: Facts, s: ModelSpec) {
    && InSet(f.make, [s.make], false)
    && InSet(f.model, [s.model], false)
    && YearInRange(f.year, s.yearMin, s.yearMax)
    && InSet(f.trim, s.trims, true)
  }

  predicate IdentityOk(f: Facts, c: WantCriteria) {
    if c.modelSpecs != [] then exists i :: 0 <= i < |c.modelSpecs| && SpecMatches(f, c.modelSpecs[i])
    else
      && InSet(f.make, c.makes, false)
      && InSet(f.model, c.models, false)
      && InSet(f.trim, c.trims, true)
      && YearInRange(f.year, c.yearMin, c.yearMax)
  }

  /** The source upper-cases both sides; folding compares the same letters. */
  predicate ProvinceOk(province: Option<string>, provinces: seq<string>) {
    if provinces == [] then true
    else province.Some? && Strip(province.value) != ""
         && exists i :: 0 <= i < |provinces| && Fold(province.value) == Fold(provinces[i])
  }

  /** No floor, an unrated offer or a rating inferred from a sparse listing passes. */
  predicate ConditionOk(a: Assessment, floor: Option<string>) {
    if floor.None? || a.sparse || a.condition.None? || a.condition.value !in CONDITION_ORDER then true
    else floor.value in CONDITION_ORDER && Rank(a.condition.value) >= Rank(floor.value)
  }

  predicate PriceAtMost(price: Option<real>, ceiling: Option<real>) {
    ceiling.None? || price.None? || price.value <= ceiling.value
  }

  predicate Matches(o: Offer, c: WantCriteria, province: Option<string>, price: Option<real>) {
    && !(c.hideShowstoppers && o.assessment.showstoppers != [])
    && IdentityOk(o.facts, c)
    && InSet(o.facts.transmission, c.transmissions, true)
    && InSet(o.facts.drivetrain, c.drivetrains, true)
    && PriceAtMost(price, c.priceCeiling)
    && (c.maxMileageKm.None? || o.facts.mileageKm.None? || o.facts.mileageKm.value <= c.maxMileageKm.value)
    && ProvinceOk(province, c.provinces)
    && ConditionOk(o.assessment, c.conditionMin)
  }

  // ---- the gate on raw offers ----

  /** The scraped fields the gate sees. */
  datatype RawFields = RawFields(make: Option<string>, model: Option<string>, year: Option<int>, title: Option<string>)

  function OrEmpty(s: Option<string>): string {
    if s.Some? then s.value else ""
  }

  function Hay(raw: RawFields): string {
    Lower(OrEmpty(raw.make) + " " + OrEmpty(raw.model) + " " + OrEmpty(raw.title))
  }

  predicate YearOk(year: Option<int>, min: Option<int>, max: Option<int>) {
    year.None? || (!(min.Some? && year.value < min.value) && !(max.Some? && year.value > max.value))
  }

  predicate AnyTermIn(terms: seq<string>, hay: string) {
    exists i :: 0 <= i < |terms| && Strip(terms[i]) != "" && Contains(hay, Fold(terms[i]))
  }

  predicate CoarseSpec(s: ModelSpec, year: Option<int>, hay: string) {
    AnyTermIn([s.make], hay) && AnyTermIn([s.model], hay) && YearOk(year, s.yearMin, s.yearMax)
  }

  predicate CoarseMatch(c: WantCriteria, year: Option<int>, hay: string) {
    if c.modelSpecs != [] then exists i :: 0 <= i < |c.modelSpecs| && CoarseSpec(c.modelSpecs[i], year, hay)
    else
      && (c.makes == [] || AnyTermIn(c.makes, hay))
      && (c.models == [] || AnyTermIn(c.models, hay))
      && YearOk(year, c.yearMin, c.yearMax)
  }

  predicate CouldMatchAnyWant(raw: RawFields, wants: seq<WantCriteria>) {
    exists i :: 0 <= i < |wants| && CoarseMatch(wants[i], raw.year, Hay(raw))
  }

  // ---- gate soundness ----

  /** A fact the enricher settled on can be read off the raw text, up to case and outer blanks. */
  ghost predicate Mentioned(fact: Option<string>, raw: RawFields) {
    fact.Some? ==> Contains(Hay(raw), Fold(fact.value))
  }

  lemma HayHolds(raw: RawFields)
    ensures Contains(Hay(raw), Lower(OrEmpty(raw.make)))
    ensures Contains(Hay(raw), Lower(OrEmpty(raw.model)))
    ensures Contains(Hay(raw), Lower(OrEmpty(raw.title)))
  {
    var mk, md, t := OrEmpty(raw.make), OrEmpty(raw.model), OrEmpty(raw.title);
    var all := mk + " " + md + " " + t;
    assert all == "" + mk + (" " + md + " " + t) == (mk + " ") + md + (" " + t) == (mk + " " + md + " ") + t + "";
    LowerOfPart("", mk, " " + md + " " + t);
    LowerOfPart(mk + " ", md, " " + t);
    LowerOfPart(mk + " " + md + " ", t, "");
  }

  /** A field scraped as such is mentioned; so is one that only the title spells out. */
  lemma ScrapedOrTitledIsMentioned(fact: string, raw: RawFields)
    requires raw.make == Some(fact) || raw.model == Some(fact)
             || (raw.title.Some? && Contains(Lower(raw.title.value), Fold(fact)))
    ensures Mentioned(Some(fact), raw)
  {
    HayHolds(raw);
    FoldIsPart(fact);
    if raw.make == Some(fact) || raw.model == Some(fact) {
      PartOfPart(Hay(raw), Lower(fact), Fold(fact));
    } else {
      PartOfPart(Hay(raw), Lower(raw.title.value), Fold(fact));
    }
  }

  lemma MemberIsTermIn(value: Option<string>, allowed: seq<string>, raw: RawFields)
    requires allowed != [] && InSet(value, allowed, false) && Mentioned(value, raw)
    ensures AnyTermIn(allowed, Hay(raw))
  {
    var i :| 0 <= i < |allowed| && Fold(value.value) == Fold(allowed[i]);
    assert |Strip(allowed[i])| == |Fold(allowed[i])|;
  }

  /** The raw text mentions what the want identifies vehicles by. */
  ghost predicate MentionsIdentity(f: Facts, c: WantCriteria, raw: RawFields) {
    && (c.modelSpecs != [] || c.makes != [] ==> Mentioned(f.make, raw))
    && (c.modelSpecs != [] || c.models != [] ==> Mentioned(f.model, raw))
  }

  lemma AcceptedWantIsCoarselyMatched(f: Facts, c: WantCriteria, raw: RawFields)
    requires IdentityOk(f, c) && MentionsIdentity(f, c, raw)
    requires raw.year.None? || raw.year == f.year
    ensures CoarseMatch(c, raw.year, Hay(raw))
  {
    if c.modelSpecs != [] {
      var i :| 0 <= i < |c.modelSpecs| && SpecMatches(f, c.modelSpecs[i]);
      MemberIsTermIn(f.make, [c.modelSpecs[i].make], raw);
      MemberIsTermIn(f.model, [c.modelSpecs[i].model], raw);
      assert CoarseSpec(c.modelSpecs[i], raw.year, Hay(raw));
    } else {
      if c.makes != [] {
        MemberIsTermIn(f.make, c.makes, raw);
      }
      if c.models != [] {
        MemberIsTermIn(f.model, c.models, raw);
      }
    }
  }

  /** Every offer that some want accepts after enrichment was kept by the gate before it, as long as the
      raw text mentions the make and model the want asks for and the raw year is absent or right. */
  lemma GateKeepsEveryMatch(o: Offer, wants: seq<WantCriteria>, k: nat, raw: RawFields,
                            province: Option<string>, price: Option<real>)
    requires k < |wants| && Matches(o, wants[k], province, price)
    requires MentionsIdentity(o.facts, wants[k], raw)
    requires raw.year.None? || raw.year == o.facts.year
    ensures CouldMatchAnyWant(raw, wants)
  {
    AcceptedWantIsCoarselyMatched(o.facts, wants[k], raw);
  }

  /** An offer that some want accepts passes the gate on its own scraped fields, whatever its title. */
  lemma AcceptedOfferPassesTheGate(o: Offer, wants: seq<WantCriteria>, k: nat, title: Option<string>,
                                   province: Option<string>, price: Option<real>)
    requires k < |wants| && Matches(o, wants[k], province, price)
    ensures CouldMatchAnyWant(RawFields(o.facts.make, o.facts.model, o.facts.year, title), wants)
  {
    var raw := RawFields(o.facts.make, o.facts.model, o.facts.year, title);
    if o.facts.make.Some? {
      ScrapedOrTitledIsMentioned(o.facts.make.value, raw);
    }
    if o.facts.model.Some? {
      ScrapedOrTitledIsMentioned(o.facts.model.value, raw);
    }
    GateKeepsEveryMatch(o, wants, k, raw, province, price);
  }

  /** Make and model only in the title, no year scraped: still kept. */
  lemma GateKeepsTitleOnlyMatch(o: Offer, wants: seq<WantCriteria>, k: nat, title: string,
                                province: Option<string>, price: Option<real>)
    requires k < |wants| && Matches(o, wants[k], province, price)
    requires o.facts.make.Some? && Contains(Lower(title), Fold(o.facts.make.value))
    requires o.facts.model.Some? && Contains(Lower(title), Fold(o.facts.model.value))
    ensures CouldMatchAnyWant(RawFields(None, None, None, Some(title)), wants)
  {
    var raw := RawFields(None, None, None, Some(title));
    ScrapedOrTitledIsMentioned(o.facts.make.value, raw);
    ScrapedOrTitledIsMentioned(o.facts.model.value, raw);
    GateKeepsEveryMatch(o, wants, k, raw, province, price);
  }

  // ---- prices ----

  /** A lower price keeps every match, raises the want score when there is one, and keeps an
      instant alert instant. */
  lemma LowerPriceIsNeverWorse(o: Offer, c: WantCriteria, province: Option<string>, low: real, high: real,
                               previousAsking: Option<real>, end: Option<int>, d: Delivery)
    requires low < high && Matches(o, c, province, Some(high))
    ensures Matches(o, c, province, Some(low))
    ensures var s, t := WantScore(o.appraisal, Some(low)), WantScore(o.appraisal, Some(high));
            && s.Some? == t.Some? && (t.Some? ==> s.value > t.value)
            && (DeliveryTier(t, Some(high), previousAsking, end, d) == Instant
                ==> DeliveryTier(s, Some(low), previousAsking, end, d) == Instant)
  {
    LowerPriceKeepsTier(o.appraisal, low, high, previousAsking, end, d);
  }

  // ---- a want, criterion by criterion ----

  const ANYTHING := WantCriteria([], [], [], [], [], [], None, None, None, None, [], None, false)

  function IdentityOf(c: WantCriteria): WantCriteria {
    ANYTHING.(modelSpecs := c.modelSpecs, makes := c.makes, models := c.models, trims := c.trims,
              yearMin := c.yearMin, yearMax := c.yearMax)
  }

  /** A want accepts what each of its criteria, as a want of its own, accepts. */
  lemma WantIsItsCriteria(o: Offer, c: WantCriteria, province: Option<string>, price: Option<real>)
    ensures Matches(o, ANYTHING, province, price)
    ensures Matches(o, c, province, price)
            <==> && Matches(o, IdentityOf(c), province, price)
                 && Matches(o, ANYTHING.(transmissions := c.transmissions), province, price)
                 && Matches(o, ANYTHING.(drivetrains := c.drivetrains), province, price)
                 && Matches(o, ANYTHING.(priceCeiling := c.priceCeiling), province, price)
                 && Matches(o, ANYTHING.(maxMileageKm := c.maxMileageKm), province, price)
                 && Matches(o, ANYTHING.(provinces := c.provinces), province, price)
                 && Matches(o, ANYTHING.(conditionMin := c.conditionMin), province, price)
                 && Matches(o, ANYTHING.(hideShowstoppers := c.hideShowstoppers), province, price)
  {
  }

  /** Said, and not "unknown". */
  predicate IsKnown(s: Option<string>) {
    s.Some? && Fold(s.value) != "" && Fold(s.value) != "unknown"
  }

  predicate OneOf(s: Option<string>, allowed: seq<string>) {
    s.Some? && exists i :: 0 <= i < |allowed| && Fold(s.value) == Fold(allowed[i])
  }

  /** Ceilings are lenient about what is not known. */
  lemma CeilingsAre(o: Offer, province: Option<string>, price: Option<real>, most: real, km: int)
    ensures Matches(o, ANYTHING.(priceCeiling := Some(most)), province, price)
            <==> (price.Some? ==> price.value <= most)
    ensures Matches(o, ANYTHING.(maxMileageKm := Some(km)), province, price)
            <==> (o.facts.mileageKm.Some? ==> o.facts.mileageKm.value <= km)
    ensures Matches(o, ANYTHING.(hideShowstoppers := true), province, price) <==> o.assessment.showstoppers == []
  {
  }

  /** A province must be known and listed; a transmission or drivetrain is listed or not known. */
  lemma ListsAre(o: Offer, province: Option<string>, price: Option<real>, allowed: seq<string>)
    requires allowed != []
    ensures Matches(o, ANYTHING.(provinces := allowed), province, price)
            <==> province.Some? && Fold(province.value) != "" && OneOf(province, allowed)
    ensures Matches(o, ANYTHING.(transmissions := allowed), province, price)
            <==> (IsKnown(o.facts.transmission) ==> OneOf(o.facts.transmission, allowed))
    ensures Matches(o, ANYTHING.(drivetrains := allowed), province, price)
            <==> (IsKnown(o.facts.drivetrain) ==> OneOf(o.facts.drivetrain, allowed))
  {
    if province.Some? {
      assert |Fold(province.value)| == |Strip(province.value)|;
    }
  }

  /** A condition floor holds for ratings at or above it, and for offers not rated with confidence. */
  lemma ConditionFloorIs(o: Offer, province: Option<string>, price: Option<real>, floor: string)
    requires floor in {"bad", "poor", "decent", "good", "great"}
    ensures var word := o.assessment.condition;
            Matches(o, ANYTHING.(conditionMin := Some(floor)), province, price)
            <==> || o.assessment.sparse || word.None?
                 || (!(word == Some("bad") && floor != "bad")
                     && !(word == Some("poor") && floor in {"decent", "good", "great"})
                     && !(word == Some("decent") && floor in {"good", "great"})
                     && !(word == Some("good") && floor == "great"))
  {
  }

  /** The vehicle: any of the model specs, or else the flat lists.  Make, model and year must be known where
      they are asked for; a trim is listed or not known. */
  lemma IdentityIs(o: Offer, c: WantCriteria, province: Option<string>, price: Option<real>)
    ensures var f := o.facts;
            Matches(o, IdentityOf(c), province, price)
            <==> if c.modelSpecs != []
                 then exists i :: 0 <= i < |c.modelSpecs| && var s := c.modelSpecs[i];
                        && IsKnown(f.make) && Fold(f.make.value) == Fold(s.make)
                        && IsKnown(f.model) && Fold(f.model.value) == Fold(s.model)
                        && YearIs(f.year, s.yearMin, s.yearMax)
                        && (s.trims != [] && IsKnown(f.trim) ==> OneOf(f.trim, s.trims))
                 else
                   && (c.makes != [] ==> IsKnown(f.make) && OneOf(f.make, c.makes))
                   && (c.models != [] ==> IsKnown(f.model) && OneOf(f.model, c.models))
                   && (c.trims != [] && IsKnown(f.trim) ==> OneOf(f.trim, c.trims))
                   && YearIs(f.year, c.yearMin, c.yearMax)
  {
    if c.modelSpecs != [] {
      forall i | 0 <= i < |c.modelSpecs|
        ensures var s, f := c.modelSpecs[i], o.facts;
                SpecMatches(f, s)
                <==> && IsKnown(f.make) && Fold(f.make.value) == Fold(s.make)
                     && IsKnown(f.model) && Fold(f.model.value) == Fold(s.model)
                     && YearIs(f.year, s.yearMin, s.yearMax)
                     && (s.trims != [] && IsKnown(f.trim) ==> OneOf(f.trim, s.trims))
      {
        SpecIs(o.facts, c.modelSpecs[i]);
      }
    }
  }

  lemma SpecIs(f: Facts, s: ModelSpec)
    ensures SpecMatches(f, s)
            <==> && IsKnown(f.make) && Fold(f.make.value) == Fold(s.make)
                 && IsKnown(f.model) && Fold(f.model.value) == Fold(s.model)
                 && YearIs(f.year, s.yearMin, s.yearMax)
                 && (s.trims != [] && IsKnown(f.trim) ==> OneOf(f.trim, s.trims))
  {
    assert [s.make][0] == s.make && [s.model][0] == s.model;
  }

  predicate YearIs(year: Option<int>, min: Option<int>, max: Option<int>) {
    && (min.Some? || max.Some? ==> year.Some?)
    && (min.Some? && year.Some? ==> min.value <= year.value)
    && (max.Some? && year.Some? ==> year.value <= max.value)
  }

  // ---- what the gate keeps and drops ----

  /** Some word of the list, blank ones aside, occurs in the text. */
  predicate MentionsOne(terms: seq<string>, hay: string) {
    exists i :: 0 <= i < |terms| && Fold(terms[i]) != "" && Contains(hay, Fold(terms[i]))
  }

  predicate YearFits(year: Option<int>, min: Option<int>, max: Option<int>) {
    year.Some? ==> (min.Some? ==> min.value <= year.value) && (max.Some? ==> year.value <= max.value)
  }

  /** The gate keeps a raw offer exactly when, for some want, its lower-cased make, model and title mention a
      make and a model that the want asks for and its year, if known, fits; everything else is dropped. */
  lemma GateIsExact(raw: RawFields, wants: seq<WantCriteria>)
    ensures var hay := Lower((if raw.make.Some? then raw.make.value else "") + " "
                             + (if raw.model.Some? then raw.model.value else "") + " "
                             + (if raw.title.Some? then raw.title.value else ""));
            CouldMatchAnyWant(raw, wants)
            <==> exists k :: 0 <= k < |wants| && KeptFor(wants[k], raw.year, hay)
  {
    forall k | 0 <= k < |wants|
      ensures CoarseMatch(wants[k], raw.year, Hay(raw)) <==> KeptFor(wants[k], raw.year, Hay(raw))
    {
      KeptForIs(wants[k], raw.year, Hay(raw));
    }
  }

  predicate KeptFor(c: WantCriteria, year: Option<int>, hay: string) {
    if c.modelSpecs != []
    then exists i :: 0 <= i < |c.modelSpecs| && var s := c.modelSpecs[i];
           MentionsOne([s.make], hay) && MentionsOne([s.model], hay) && YearFits(year, s.yearMin, s.yearMax)
    else (c.makes != [] ==> MentionsOne(c.makes, hay)) && (c.models != [] ==> MentionsOne(c.models, hay))
         && YearFits(year, c.yearMin, c.yearMax)
  }

  lemma TermsAre(terms: seq<string>, hay: string)
    ensures AnyTermIn(terms, hay) <==> MentionsOne(terms, hay)
  {
    forall i | 0 <= i < |terms| ensures Strip(terms[i]) != "" <==> Fold(terms[i]) != "" {
      assert |Fold(terms[i])| == |Strip(terms[i])|;
    }
  }

  lemma KeptForIs(c: WantCriteria, year: Option<int>, hay: string)
    ensures CoarseMatch(c, year, hay) <==> KeptFor(c, year, hay)
  {
    TermsAre(c.makes, hay);
    TermsAre(c.models, hay);
    forall i | 0 <= i < |c.modelSpecs|
      ensures var s := c.modelSpecs[i];
              CoarseSpec(s, year, hay)
              <==> MentionsOne([s.make], hay) && MentionsOne([s.model], hay) && YearFits(year, s.yearMin, s.yearMax)
    {
      TermsAre([c.modelSpecs[i].make], hay);
      TermsAre([c.modelSpecs[i].model], hay);
    }
  }
}
