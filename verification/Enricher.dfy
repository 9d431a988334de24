/** Writing an enrichment back to the offer (apps/enricher/enricher.py).  The language model's answer
    is an arbitrary value of its schema. */
module Enricher {
  import opened Base
  import opened Text
  import opened Offers
  import opened Matcher
  import opened Stages

  const SPARSE_LISTING_CONFIDENCE_THRESHOLD := 0.5
  const YEAR_MIN := 1900
  const MILEAGE_KM_MIN := 0
  const MILEAGE_KM_MAX := 1_500_000

  datatype NormalizedVehicle = NormalizedVehicle(
    year: Option<int>, make: Option<string>, model: Option<string>, trim: Option<string>,
    transmission: string, drivetrain: string, mileageKm: Option<int>, vin: Option<string>, engine: Option<string>)

  datatype EnrichmentOutput = EnrichmentOutput(
    vehicle: NormalizedVehicle, titleStatus: string, condition: string, confidence: real,
    redFlags: seq<string>, greenFlags: seq<string>, showstoppers: seq<string>)

  /** What came back: an answer with the canonical model spelling, or a classified failure. */
  datatype Answer = Answered(out: EnrichmentOutput, canonical: Option<string>) | Failure(permanent: bool)

  /** Python's `new or old`, where the empty string and zero are falsy too. */
  function StringOr(newer: Option<string>, known: Option<string>): Option<string> {
    if newer.Some? && newer.value != "" then newer else known
  }

  function NumberOr(newer: Option<int>, known: Option<int>): Option<int> {
    if newer.Some? && newer.value != 0 then newer else known
  }

  predicate InRange(x: Option<int>, lo: int, hi: int) {
    x.None? || lo <= x.value <= hi
  }

  function KnownOr(newer: string, known: Option<string>): Option<string> {
    if newer != "unknown" then Some(newer) else known
  }

  /** Free text that says nothing. */
  predicate IsUnknownStr(s: Option<string>) {
    s.Some? && Fold(s.value) in {"unknown", "n/a", ""}
  }

  function EnrichedFacts(f: Facts, out: EnrichmentOutput, canonical: Option<string>, yearCap: int): Facts {
    var nv := out.vehicle;
    Facts(StringOr(nv.make, f.make), StringOr(canonical, StringOr(nv.model, f.model)), StringOr(nv.trim, f.trim),
          if InRange(nv.year, YEAR_MIN, yearCap) then NumberOr(nv.year, f.year) else f.year,
          if InRange(nv.mileageKm, MILEAGE_KM_MIN, MILEAGE_KM_MAX) then NumberOr(nv.mileageKm, f.mileageKm)
          else f.mileageKm,
          StringOr(nv.vin, f.vin), KnownOr(nv.transmission, f.transmission), KnownOr(nv.drivetrain, f.drivetrain),
          if IsUnknownStr(nv.engine) then f.engine else StringOr(nv.engine, f.engine),
          if out.titleStatus != "UNKNOWN" then Some(out.titleStatus) else f.titleStatus)
  }

  function Assessed(out: EnrichmentOutput): Assessment {
    var sparse := out.confidence < SPARSE_LISTING_CONFIDENCE_THRESHOLD;
    Assessment(Some(if sparse then "decent" else out.condition), sparse, out.redFlags, out.greenFlags, out.showstoppers)
  }

  function Enriched(o: Offer, out: EnrichmentOutput, canonical: Option<string>, yearCap: int): Offer {
    o.(facts := EnrichedFacts(o.facts, out, canonical, yearCap), assessment := Assessed(out),
       statuses := o.statuses.(enrichment := Done, valuation := Pending))
  }

  method ApplyFacts(lot: OfferRow, out: EnrichmentOutput, canonical: Option<string>, yearCap: int)
    modifies lot`facts
    ensures lot.facts == EnrichedFacts(old(lot.facts), out, canonical, yearCap)
  {
    var nv := out.vehicle;
    ApplyNumbers(lot, nv, yearCap);
    ApplyGated(lot, out);
    lot.facts := lot.facts.(make := StringOr(nv.make, lot.facts.make));
    lot.facts := lot.facts.(model := StringOr(canonical, StringOr(nv.model, lot.facts.model)));
    lot.facts := lot.facts.(trim := StringOr(nv.trim, lot.facts.trim));
    lot.facts := lot.facts.(vin := StringOr(nv.vin, lot.facts.vin));
  }

  /** Columns that a low-confidence answer must not blank out. */
  method ApplyGated(lot: OfferRow, out: EnrichmentOutput)
    modifies lot`facts
    ensures lot.facts == old(lot.facts).(
              transmission := KnownOr(out.vehicle.transmission, old(lot.facts.transmission)),
              drivetrain := KnownOr(out.vehicle.drivetrain, old(lot.facts.drivetrain)),
              engine := if IsUnknownStr(out.vehicle.engine) then old(lot.facts.engine)
                        else StringOr(out.vehicle.engine, old(lot.facts.engine)),
              titleStatus := if out.titleStatus != "UNKNOWN" then Some(out.titleStatus) else old(lot.facts.titleStatus))
  {
    if !IsUnknownStr(out.vehicle.engine) {
      lot.facts := lot.facts.(engine := StringOr(out.vehicle.engine, lot.facts.engine));
    }
    if out.vehicle.transmission != "unknown" {
      lot.facts := lot.facts.(transmission := Some(out.vehicle.transmission));
    }
    if out.vehicle.drivetrain != "unknown" {
      lot.facts := lot.facts.(drivetrain := Some(out.vehicle.drivetrain));
    }
    if out.titleStatus != "UNKNOWN" {
      lot.facts := lot.facts.(titleStatus := Some(out.titleStatus));
    }
  }

  method ApplyNumbers(lot: OfferRow, nv: NormalizedVehicle, yearCap: int)
    modifies lot`facts
    ensures lot.facts == old(lot.facts).(
              year := if InRange(nv.year, YEAR_MIN, yearCap) then NumberOr(nv.year, old(lot.facts.year))
                      else old(lot.facts.year),
              mileageKm := if InRange(nv.mileageKm, MILEAGE_KM_MIN, MILEAGE_KM_MAX)
                           then NumberOr(nv.mileageKm, old(lot.facts.mileageKm)) else old(lot.facts.mileageKm))
  {
    if !(nv.year.Some? && !(YEAR_MIN <= nv.year.value <= yearCap)) {
      lot.facts := lot.facts.(year := NumberOr(nv.year, lot.facts.year));
    }
    if !(nv.mileageKm.Some? && !(MILEAGE_KM_MIN <= nv.mileageKm.value <= MILEAGE_KM_MAX)) {
      lot.facts := lot.facts.(mileageKm := NumberOr(nv.mileageKm, lot.facts.mileageKm));
    }
  }

  method ApplyToLot(lot: OfferRow, out: EnrichmentOutput, canonical: Option<string>, yearCap: int)
    modifies lot
    ensures lot.Value() == Enriched(old(lot.Value()), out, canonical, yearCap)
  {
    ApplyFacts(lot, out, canonical, yearCap);
    if out.confidence < SPARSE_LISTING_CONFIDENCE_THRESHOLD {
      lot.assessment := lot.assessment.(condition := Some("decent"), sparse := true);
    } else {
      lot.assessment := lot.assessment.(condition := Some(out.condition), sparse := false);
    }
    lot.assessment := lot.assessment.(
      redFlags := out.redFlags, greenFlags := out.greenFlags, showstoppers := out.showstoppers);
    lot.statuses := lot.statuses.(enrichment := Done);
    lot.statuses := lot.statuses.(valuation := Pending);
  }

  // ---- one claimed row ----

  function SnapshotOf(o: Offer): RawFields {
    RawFields(o.facts.make, o.facts.model, o.facts.year, Some(OrEmpty(o.content.title)))
  }

  /** With wants to serve, an offer that could match none of them is not sent to the model. */
  predicate GatedOut(o: Offer, wants: seq<WantCriteria>) {
    wants != [] && !CouldMatchAnyWant(SnapshotOf(o), wants)
  }

  function AfterEnrichment(o: Offer, wants: seq<WantCriteria>, answer: Answer, yearCap: int, max: nat): Offer {
    if GatedOut(o, wants)
    then o.(statuses := o.statuses.(enrichment := Skipped, valuation := Skipped, notification := Skipped))
    else match answer
      case Failure(permanent) => WithEnrichment(o, Retried(o.attempts.enrichment, permanent, max))
      case Answered(out, canonical) =>
        Enriched(o.(attempts := o.attempts.(enrichment := o.attempts.enrichment + 1)), out, canonical, yearCap)
  }

  /** A lot whose auction row is gone is left as it is. */
  function AfterPass(o: Offer, auctionGone: bool, wants: seq<WantCriteria>, answer: Answer,
                     yearCap: int, max: nat): Offer
  {
    if o.kind == AuctionLot && auctionGone then o else AfterEnrichment(o, wants, answer, yearCap, max)
  }

  /** The row may be gone at the load, or at the write (`stillThere` is false).  `notified` reports the
      NOTIFY to the valuator. */
  method ProcessOne(lot: OfferRow?, auctionGone: bool, stillThere: bool, wants: seq<WantCriteria>, answer: Answer,
                    yearCap: int, max: nat) returns (outcome: Outcome, notified: bool)
    modifies lot
    ensures lot == null || !stillThere ==> outcome == IsMissing && (lot != null ==> lot.Value() == old(lot.Value()))
    ensures lot != null && stillThere ==>
              && lot.Value() == AfterPass(old(lot.Value()), auctionGone, wants, answer, yearCap, max)
              && outcome == if lot.kind == AuctionLot && auctionGone then IsMissing
                            else if GatedOut(old(lot.Value()), wants) then IsSkipped
                            else if answer.Answered? then IsDone
                            else if lot.statuses.enrichment == Failed then IsFailed else IsTransient
    ensures notified == (outcome == IsDone)
  {
    notified := false;
    if lot == null || (lot.kind == AuctionLot && auctionGone) {
      return IsMissing, false;
    }
    if wants != [] && !CouldMatchAnyWant(SnapshotOf(lot.Value()), wants) {
      if !stillThere {
        return IsMissing, false;
      }
      lot.statuses := lot.statuses.(enrichment := Skipped, valuation := Skipped, notification := Skipped);
      return IsSkipped, false;
    }
    if !stillThere {
      return IsMissing, false;
    }
    lot.attempts := lot.attempts.(enrichment := lot.attempts.enrichment + 1);
    match answer
    case Failure(permanent) =>
      if permanent || lot.attempts.enrichment >= max {
        lot.statuses := lot.statuses.(enrichment := Failed);
        return IsFailed, false;
      }
      lot.statuses := lot.statuses.(enrichment := Pending);
      outcome := IsTransient;
    case Answered(out, canonical) =>
      ApplyToLot(lot, out, canonical, yearCap);
      return IsDone, true;
  }

  /** The gate never drops an offer that some want accepts as it stands. */
  lemma MatchIsNeverGatedOut(o: Offer, wants: seq<WantCriteria>, k: nat, province: Option<string>, price: Option<real>)
    requires k < |wants| && Matches(o, wants[k], province, price)
    ensures !GatedOut(o, wants)
  {
    AcceptedOfferPassesTheGate(o, wants, k, Some(OrEmpty(o.content.title)), province, price);
  }

  /** Enrichment never erases what was known, lets no implausible year or mileage in, and takes every
      answer that says something. */
  lemma EnrichmentKeepsKnownFacts(o: Offer, out: EnrichmentOutput, canonical: Option<string>, yearCap: int)
    ensures var f, g := o.facts, Enriched(o, out, canonical, yearCap).facts;
            && (f.make.Some? ==> g.make.Some?) && (f.model.Some? ==> g.model.Some?) && (f.trim.Some? ==> g.trim.Some?)
            && (f.year.Some? ==> g.year.Some?) && (f.mileageKm.Some? ==> g.mileageKm.Some?)
            && (f.vin.Some? ==> g.vin.Some?)
            && (f.transmission.Some? ==> g.transmission.Some?) && (f.drivetrain.Some? ==> g.drivetrain.Some?)
            && (f.engine.Some? ==> g.engine.Some?) && (f.titleStatus.Some? ==> g.titleStatus.Some?)
            && (g.year != f.year ==> g.year.Some? && YEAR_MIN <= g.year.value <= yearCap)
            && (g.mileageKm != f.mileageKm ==> g.mileageKm.Some? && 0 < g.mileageKm.value <= MILEAGE_KM_MAX)
    ensures var nv, g := out.vehicle, Enriched(o, out, canonical, yearCap).facts;
            && (nv.make.Some? && nv.make.value != "" ==> g.make == nv.make)
            && (nv.trim.Some? && nv.trim.value != "" ==> g.trim == nv.trim)
            && (canonical.Some? && canonical.value != "" ==> g.model == canonical)
            && (nv.vin.Some? && nv.vin.value != "" ==> g.vin == nv.vin)
            && (nv.year.Some? && YEAR_MIN <= nv.year.value <= yearCap ==> g.year == nv.year)
            && (nv.mileageKm.Some? && 0 < nv.mileageKm.value <= MILEAGE_KM_MAX ==> g.mileageKm == nv.mileageKm)
  {
  }

  /** The assessment is the answer's: a condition given with a confidence below one half is stored as a
      "decent" inferred from a sparse listing. */
  lemma AssessmentIsExact(o: Offer, out: EnrichmentOutput, canonical: Option<string>, yearCap: int)
    ensures var a := Enriched(o, out, canonical, yearCap).assessment;
            && a.condition == Some(if out.confidence < 0.5 then "decent" else out.condition)
            && (a.sparse <==> out.confidence < 0.5)
            && a.redFlags == out.redFlags && a.greenFlags == out.greenFlags && a.showstoppers == out.showstoppers
  {
  }

  /** Answers that say "unknown" leave the stored word; any other replaces it. */
  lemma GatedColumnsAreExact(o: Offer, out: EnrichmentOutput, canonical: Option<string>, yearCap: int)
    ensures var f, g, nv := o.facts, Enriched(o, out, canonical, yearCap).facts, out.vehicle;
            && g.transmission == (if nv.transmission == "unknown" then f.transmission else Some(nv.transmission))
            && g.drivetrain == (if nv.drivetrain == "unknown" then f.drivetrain else Some(nv.drivetrain))
            && g.titleStatus == (if out.titleStatus == "UNKNOWN" then f.titleStatus else Some(out.titleStatus))
            && g.engine == (if nv.engine.None? || Fold(nv.engine.value) in {"", "n/a", "unknown"} then f.engine
                            else nv.engine)
  {
    assert Fold("") == "";
  }

  /** One pass: what is skipped, counted, retried and handed on. */
  lemma PassIsExact(o: Offer, auctionGone: bool, wants: seq<WantCriteria>, answer: Answer, yearCap: int, max: nat)
    ensures var v, tried := AfterPass(o, auctionGone, wants, answer, yearCap, max), o.attempts.enrichment + 1;
            var gated := wants != [] && !CouldMatchAnyWant(
              RawFields(o.facts.make, o.facts.model, o.facts.year,
                        Some(if o.content.title.Some? then o.content.title.value else "")), wants);
            if o.kind == AuctionLot && auctionGone then v == o
            else if gated
            then v == o.(statuses := Statuses(Skipped, Skipped, o.statuses.vision, Skipped))
            else
              && v.attempts == o.attempts.(enrichment := tried)
              && v.statuses.vision == o.statuses.vision && v.statuses.notification == o.statuses.notification
              && (answer.Answered? ==> v.statuses.enrichment == Done && v.statuses.valuation == Pending)
              && (answer.Failure? ==>
                    && v.statuses.enrichment == (if answer.permanent || tried >= max then Failed else Pending)
                    && v.statuses.valuation == o.statuses.valuation
                    && v.facts == o.facts && v.assessment == o.assessment)
  {
  }
}
