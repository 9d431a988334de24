/** The photo pass and its pessimistic override (apps/vision_batcher/batcher.py). */
module Vision {
  import opened Base
  import opened Offers
  import opened Matcher

  const PESSIMISM_CONFIDENCE_THRESHOLD := 0.7
  const PESSIMISM_BUCKET_DIFF_MIN := 2
  const OVERSELLS := "description_oversells_condition"

  datatype VisionOutput = VisionOutput(condition: string, confidence: real)

  /** The schema admits the five condition words only. */
  predicate InSchema(out: VisionOutput) {
    out.condition in CONDITION_ORDER && 0.0 <= out.confidence <= 1.0
  }

  function RankOrMiddle(condition: string): int {
    if condition in CONDITION_ORDER then Rank(condition) else 2
  }

  function BucketDiff(a: Option<string>, b: Option<string>): (d: nat)
    ensures d <= 4
  {
    if a.None? || b.None? then 0
    else
      var d := RankOrMiddle(a.value) - RankOrMiddle(b.value);
      if d < 0 then -d else d
  }

  /** The passes disagree enough, and the photos are trusted enough, to compare ranks. */
  predicate Disagrees(a: Assessment, out: VisionOutput) {
    out.confidence > PESSIMISM_CONFIDENCE_THRESHOLD
    && BucketDiff(Some(out.condition), a.condition) >= PESSIMISM_BUCKET_DIFF_MIN
  }

  /** The stored condition word has no rank: the write is abandoned with a key error. */
  predicate Unrankable(a: Assessment, out: VisionOutput) {
    Disagrees(a, out) && a.condition.value != "" && a.condition.value !in CONDITION_ORDER
  }

  predicate Overrides(a: Assessment, out: VisionOutput) {
    Disagrees(a, out) && !Unrankable(a, out)
    && RankOrMiddle(out.condition) < RankOrMiddle(a.condition.value)
  }

  function Flagged(flags: seq<string>): seq<string> {
    if OVERSELLS in flags then flags else flags + [OVERSELLS]
  }

  function Overridden(a: Assessment, out: VisionOutput): Assessment {
    a.(condition := Some(out.condition), sparse := false, redFlags := Flagged(a.redFlags))
  }

  /** The row after the write transaction; an abandoned write leaves it as it was. */
  function Viewed(o: Offer, out: VisionOutput): Offer {
    if Unrankable(o.assessment, out) then o
    else if Overrides(o.assessment, out)
    then o.(assessment := Overridden(o.assessment, out), statuses := o.statuses.(vision := Done, valuation := Pending))
    else o.(statuses := o.statuses.(vision := Done))
  }

  method ApplyVision(lot: OfferRow, out: VisionOutput) returns (raised: bool, overrideFired: bool)
    requires InSchema(out)
    modifies lot
    ensures raised == Unrankable(old(lot.assessment), out)
    ensures overrideFired == Overrides(old(lot.assessment), out)
    ensures lot.Value() == Viewed(old(lot.Value()), out)
  {
    raised, overrideFired := false, false;
    if out.confidence > PESSIMISM_CONFIDENCE_THRESHOLD
       && BucketDiff(Some(out.condition), lot.assessment.condition) >= PESSIMISM_BUCKET_DIFF_MIN {
      var described := if lot.assessment.condition.value != "" then lot.assessment.condition.value else "decent";
      if described !in CONDITION_ORDER {
        return true, false;
      }
      if Rank(out.condition) < Rank(described) {
        lot.assessment := lot.assessment.(condition := Some(out.condition));
        lot.assessment := lot.assessment.(sparse := false);
        if OVERSELLS !in lot.assessment.redFlags {
          lot.assessment := lot.assessment.(redFlags := lot.assessment.redFlags + [OVERSELLS]);
        }
        lot.statuses := lot.statuses.(valuation := Pending);
        overrideFired := true;
      }
    }
    lot.statuses := lot.statuses.(vision := Done);
  }

  /** The override only ever lowers a condition, by at least two ranks, and applying the same photos
      again changes nothing but the re-queued valuation: the flag is not doubled. */
  lemma OverrideIsOneSidedAndIdempotent(o: Offer, out: VisionOutput)
    requires InSchema(out) && o.assessment.condition.Some? && o.assessment.condition.value in CONDITION_ORDER
    ensures var v := Viewed(o, out);
            && v.assessment.condition.Some? && v.assessment.condition.value in CONDITION_ORDER
            && (v.assessment != o.assessment ==>
                  && Rank(v.assessment.condition.value) + 2 <= Rank(o.assessment.condition.value)
                  && OVERSELLS in v.assessment.redFlags && v.statuses.valuation == Pending)
            && Viewed(v, out) == v
  {
  }

  /** The photos override the description exactly when they are trusted by more than 0.7 and rank at least two
      words lower; then the row takes their word, loses the sparse mark, gets the flag and is re-valued. */
  lemma OverrideIsExact(o: Offer, out: VisionOutput)
    requires InSchema(out) && o.assessment.condition.Some? && o.assessment.condition.value in CONDITION_ORDER
    ensures var v, a := Viewed(o, out), o.assessment;
            && v.statuses.vision == Done
            && if out.confidence > 0.7 && Rank(out.condition) + 2 <= Rank(a.condition.value)
               then
                 && v.statuses.valuation == Pending
                 && v.assessment == Assessment(Some(out.condition), false,
                      if "description_oversells_condition" in a.redFlags then a.redFlags
                      else a.redFlags + ["description_oversells_condition"], a.greenFlags, a.showstoppers)
               else v.statuses.valuation == o.statuses.valuation && v.assessment == a
  {
  }

  /** An offer without a condition is never overridden; a stored word without a rank abandons the write exactly
      when the photos, trusted by more than 0.7, are two ranks from the middle. */
  lemma UnratedIsExact(o: Offer, out: VisionOutput)
    requires InSchema(out) && (o.assessment.condition.Some? ==> o.assessment.condition.value !in CONDITION_ORDER)
    ensures var v, word := Viewed(o, out), o.assessment.condition;
            if word.None? then v == o.(statuses := o.statuses.(vision := Done))
            else if word.value != "" && out.confidence > 0.7 && out.condition in {"bad", "great"} then v == o
            else v.statuses.vision == Done
                 && (v.assessment != o.assessment <==>
                       word.value == "" && out.confidence > 0.7 && out.condition == "bad")
  {
  }
}
