/** One vehicle, one live alert: VIN dedup over whole runs (wants/repo.py, wants/service.py). */
module OneAlert {
  import opened Base
  import opened Offers
  import opened Pricing
  import opened Upserts
  import opened Matcher
  import opened Ledger
  import opened Enricher
  import opened FireOnce

  /** A non-dismissed match whose offer is still live. */
  predicate Alive(w: World, k: Key) {
    k in w.matches && !w.matches[k].dismissed && k.lot in w.offers && Live(w.offers[k.lot])
  }

  /** Two matches of one want that show the same vehicle. */
  predicate SameVehicle(offers: OfferTable, k: Key, j: Key) {
    k.search == j.search && VinOf(offers, k.lot).Some? && VinOf(offers, k.lot) == VinOf(offers, j.lot)
  }

  ghost predicate OneLiveAlert(w: World) {
    forall k, j :: Alive(w, k) && Alive(w, j) && SameVehicle(w.offers, k, j) ==> k == j
  }

  ghost predicate MatchesHaveOffers(w: World) {
    forall k :: k in w.matches ==> k.lot in w.offers
  }

  /** VINs stay as they are, and no offer that has stopped being live comes back. */
  ghost predicate Steady(w: World, v: World) {
    forall lot :: lot in w.offers ==>
      lot in v.offers && VinOf(v.offers, lot) == VinOf(w.offers, lot) && (Live(v.offers[lot]) ==> Live(w.offers[lot]))
  }

  // ---- a new match of a vehicle that is already covered starts dismissed ----

  lemma UpsertKeepsOne(w: World, k: Key, score: Option<real>)
    requires OneLiveAlert(w) && k.lot in w.offers
    ensures OneLiveAlert(w.(matches := Upserted(w.offers, w.matches, k, score)))
  {
    var v := w.(matches := Upserted(w.offers, w.matches, k, score));
    forall x, y | Alive(v, x) && Alive(v, y) && SameVehicle(v.offers, x, y) ensures x == y {
      if k in w.matches || (x != k && y != k) {
        assert Alive(w, x) && Alive(w, y) && SameVehicle(w.offers, x, y);
      } else if x != y {
        var other := if x == k then y else x;
        assert Covers(w.offers, w.matches, other, k);
      }
    }
  }

  lemma {:induction false} EvaluationKeepsOne(w: World, lot: int, province: Option<string>, n: nat)
    requires OneLiveAlert(w) && lot in w.offers && n <= |w.wants|
    ensures OneLiveAlert(w.(matches := Evaluated(w.offers, w.wants, w.matches, lot, province, n)))
  {
    if n > 0 {
      EvaluationKeepsOne(w, lot, province, n - 1);
      var mid := w.(matches := Evaluated(w.offers, w.wants, w.matches, lot, province, n - 1));
      var o := w.offers[lot];
      UpsertKeepsOne(mid, Key(n - 1, lot), WantScore(o.appraisal, Price(o)));
    }
  }

  lemma {:induction false} BackfillKeepsOne(w: World, want: nat, c: WantCriteria, rows: seq<Candidate>)
    requires OneLiveAlert(w) && forall i :: 0 <= i < |rows| ==> rows[i].lot in w.offers
    ensures OneLiveAlert(w.(matches := Backfilled(w.offers, want, c, w.matches, rows)))
  {
    if rows != [] {
      var init, last := rows[..|rows| - 1], rows[|rows| - 1];
      BackfillKeepsOne(w, want, c, init);
      var mid := w.(matches := Backfilled(w.offers, want, c, w.matches, init));
      var o := w.offers[last.lot];
      UpsertKeepsOne(mid, Key(want, last.lot), WantScore(o.appraisal, Price(o)));
    }
  }

  // ---- writes to offers ----

  /** What an event stores as the offer `lot`. */
  ghost function Rewritten(w: World, e: Event): Offer
    requires Possible(w, e) && (e.OfferWritten? || e.ListingSeen?)
  {
    if e.OfferWritten? then e.offer else RelistedListing(w.offers[e.lot], e.raw, e.parser)
  }

  /** The offer `lot`, rewritten to `v`, is live and has a non-dismissed match whose vehicle another live
      match of the same want already covers: the query that a new match would be checked with. */
  predicate Doubles(w: World, lot: int, v: Offer) {
    Live(v) && exists k :: k in w.matches && k.lot == lot && !w.matches[k].dismissed
                           && VinAlreadyMatched(w.offers[lot := v], w.matches, k)
  }

  ghost predicate Harmless(w: World, e: Event)
    requires Possible(w, e)
  {
    (e.OfferWritten? || e.ListingSeen?) ==> !Doubles(w, e.lot, Rewritten(w, e))
  }

  lemma DoublingBreaksOne(w: World, e: Event)
    requires Possible(w, e) && (e.OfferWritten? || e.ListingSeen?) && Doubles(w, e.lot, Rewritten(w, e))
    ensures !OneLiveAlert(After(w, e))
  {
    var lot, v := e.lot, After(w, e);
    var k :| k in w.matches && k.lot == lot && !w.matches[k].dismissed
             && VinAlreadyMatched(w.offers[lot := Rewritten(w, e)], w.matches, k);
    var other :| other in w.matches && Covers(w.offers[lot := Rewritten(w, e)], w.matches, other, k);
    assert Alive(v, k) && Alive(v, other) && SameVehicle(v.offers, k, other);
  }

  lemma HarmlessWriteKeepsOne(w: World, e: Event)
    requires OneLiveAlert(w) && Possible(w, e) && (e.OfferWritten? || e.ListingSeen?) && Harmless(w, e)
    ensures OneLiveAlert(After(w, e))
  {
    var lot, v := e.lot, After(w, e);
    forall x, y | Alive(v, x) && Alive(v, y) && SameVehicle(v.offers, x, y) ensures x == y {
      if x != y {
        if x.lot != lot && y.lot != lot {
          assert Alive(w, x) && Alive(w, y) && SameVehicle(w.offers, x, y);
        } else {
          var here, there := if x.lot == lot then x else y, if x.lot == lot then y else x;
          assert x.lot != y.lot;
          assert Covers(w.offers[lot := Rewritten(w, e)], w.matches, there, here);
        }
      }
    }
  }

  /** No match becomes alive: what is alive after the step was alive before it, for the same vehicle. */
  ghost predicate NothingComesAlive(w: World, v: World) {
    forall k :: Alive(v, k) ==> Alive(w, k) && VinOf(v.offers, k.lot) == VinOf(w.offers, k.lot)
  }

  lemma NothingNewKeepsOne(w: World, v: World)
    requires OneLiveAlert(w) && NothingComesAlive(w, v)
    ensures OneLiveAlert(v)
  {
    forall x, y | Alive(v, x) && Alive(v, y) && SameVehicle(v.offers, x, y) ensures x == y {
      assert Alive(w, x) && Alive(w, y) && SameVehicle(w.offers, x, y);
    }
  }

  lemma OtherStepsKeepOne(w: World, e: Event)
    requires OneLiveAlert(w) && MatchesHaveOffers(w) && Possible(w, e)
    requires e.OfferInserted? || e.OfferNotified? || e.DigestRun? || e.MatchDismissed? || e.WantsEdited?
    ensures OneLiveAlert(After(w, e))
  {
    NothingNewKeepsOne(w, After(w, e));
  }

  /** The exact condition for one step. */
  lemma StepKeepsOneIffHarmless(w: World, e: Event)
    requires OneLiveAlert(w) && MatchesHaveOffers(w) && Possible(w, e)
    ensures OneLiveAlert(After(w, e)) <==> Harmless(w, e)
  {
    match e
    case OfferEvaluated(lot, province) => EvaluationKeepsOne(w, lot, province, |w.wants|);
    case WantBackfilled(want, candidates) =>
      if w.wants[want].criteria.Some? {
        BackfillKeepsOne(w, want, w.wants[want].criteria.value, candidates);
      }
    case OfferWritten(_, _) => WriteKeepsOneIffHarmless(w, e);
    case ListingSeen(_, _, _) => WriteKeepsOneIffHarmless(w, e);
    case _ => OtherStepsKeepOne(w, e);
  }

  lemma WriteKeepsOneIffHarmless(w: World, e: Event)
    requires OneLiveAlert(w) && Possible(w, e) && (e.OfferWritten? || e.ListingSeen?)
    ensures OneLiveAlert(After(w, e)) <==> Harmless(w, e)
  {
    if Harmless(w, e) {
      HarmlessWriteKeepsOne(w, e);
    } else {
      DoublingBreaksOne(w, e);
    }
  }

  // ---- over every run ----

  ghost predicate HarmlessStep(w: World, e: Event) {
    Possible(w, e) && Harmless(w, e)
  }

  lemma NextKeepsOneIffHarmless(worlds: seq<World>, events: seq<Event>, n: nat)
    requires Run(worlds, events) && n < |events| && OneLiveAlert(worlds[n])
    ensures OneLiveAlert(worlds[n + 1]) <==> HarmlessStep(worlds[n], events[n])
  {
    var w, e := worlds[n], events[n];
    assert Step(w, e, worlds[n + 1]);
    EveryRunIsSound(worlds, events, n);
    assert forall k :: k in w.matches ==> MatchSound(w, k);
    StepKeepsOneIffHarmless(w, e);
  }

  ghost predicate OneUpTo(worlds: seq<World>, n: nat)
    requires n < |worlds|
  {
    forall i :: 0 <= i <= n ==> OneLiveAlert(worlds[i])
  }

  ghost predicate HarmlessUpTo(worlds: seq<World>, events: seq<Event>, n: nat)
    requires n <= |worlds| && n <= |events|
  {
    forall i :: 0 <= i < n ==> HarmlessStep(worlds[i], events[i])
  }

  /** Over any run, each want has at all times at most one non-dismissed match with a live offer for each
      VIN, exactly when no write to an offer doubles a covered vehicle. */
  lemma {:induction false} OneLiveAlertIffHarmless(worlds: seq<World>, events: seq<Event>, n: nat)
    requires Run(worlds, events) && n <= |events|
    ensures OneUpTo(worlds, n) <==> HarmlessUpTo(worlds, events, n)
  {
    if n > 0 {
      OneLiveAlertIffHarmless(worlds, events, n - 1);
      if OneUpTo(worlds, n - 1) {
        NextKeepsOneIffHarmless(worlds, events, n - 1);
      }
    }
  }

  lemma SteadyIsHarmless(w: World, e: Event)
    requires OneLiveAlert(w) && MatchesHaveOffers(w) && Possible(w, e) && Steady(w, After(w, e))
    ensures Harmless(w, e)
  {
    if (e.OfferWritten? || e.ListingSeen?) && Doubles(w, e.lot, Rewritten(w, e)) {
      DoublingBreaksOne(w, e);
      NothingNewKeepsOne(w, After(w, e));
    }
  }

  /** In particular, when stored VINs never change and offers that stopped being live never return: one
      vehicle, one live alert, after any evaluations, backfills, dismissals, deliveries and updates. */
  lemma {:induction false} OneVehicleOneLiveAlert(worlds: seq<World>, events: seq<Event>, n: nat)
    requires Run(worlds, events) && n <= |events|
    requires forall i :: 0 <= i < n ==> Steady(worlds[i], worlds[i + 1])
    ensures OneLiveAlert(worlds[n])
  {
    if n > 0 {
      var w, e := worlds[n - 1], events[n - 1];
      OneVehicleOneLiveAlert(worlds, events, n - 1);
      EveryRunIsSound(worlds, events, n - 1);
      assert forall k :: k in w.matches ==> MatchSound(w, k);
      assert Step(w, e, worlds[n]);
      SteadyIsHarmless(w, e);
      StepKeepsOneIffHarmless(w, e);
    }
  }

  // ---- the two writes that can double a vehicle ----

  /** A relisting breaks the property exactly when it brings back a listing whose vehicle has been matched,
      alive, through another offer meanwhile. */
  lemma RelistingKeepsOneIff(w: World, lot: int, raw: RawListing, parser: string)
    requires OneLiveAlert(w) && lot in w.offers && w.offers[lot].kind == PrivateListing
    ensures OneLiveAlert(After(w, ListingSeen(lot, raw, parser)))
            <==> !(&& raw.status == Active && !Live(w.offers[lot])
                   && exists k :: k in w.matches && k.lot == lot && !w.matches[k].dismissed
                                  && VinAlreadyMatched(w.offers, w.matches, k))
  {
    var e := ListingSeen(lot, raw, parser);
    WriteKeepsOneIffHarmless(w, e);
    SameVehicleElsewhere(w, lot, Rewritten(w, e));
  }

  /** A write that keeps the VIN changes nothing for the vehicles that other offers cover. */
  lemma SameVehicleElsewhere(w: World, lot: int, v: Offer)
    requires lot in w.offers && VinOf(w.offers[lot := v], lot) == VinOf(w.offers, lot) && OneLiveAlert(w)
    ensures forall k :: k in w.matches && k.lot == lot ==>
              (VinAlreadyMatched(w.offers[lot := v], w.matches, k) <==> VinAlreadyMatched(w.offers, w.matches, k))
    ensures Live(w.offers[lot]) ==> !Doubles(w, lot, v)
  {
    forall k, other | k in w.matches && k.lot == lot && other in w.matches
      ensures Covers(w.offers[lot := v], w.matches, other, k) <==> Covers(w.offers, w.matches, other, k)
    {
    }
    if Live(w.offers[lot]) && Doubles(w, lot, v) {
      var k :| k in w.matches && k.lot == lot && !w.matches[k].dismissed
               && VinAlreadyMatched(w.offers[lot := v], w.matches, k);
      var other :| other in w.matches && Covers(w.offers[lot := v], w.matches, other, k);
      assert Covers(w.offers, w.matches, other, k);
      assert Alive(w, k) && Alive(w, other) && SameVehicle(w.offers, k, other) && k != other;
    }
  }

  /** An enrichment breaks it exactly when the VIN it writes makes a live offer's match a copy of another. */
  lemma EnrichmentKeepsOneIff(w: World, lot: int, wants: seq<WantCriteria>, answer: Answer, yearCap: int, max: nat)
    requires OneLiveAlert(w) && lot in w.offers
    ensures var v := AfterEnrichment(w.offers[lot], wants, answer, yearCap, max);
            OneLiveAlert(After(w, OfferWritten(lot, v)))
            <==> !(&& VinOf(w.offers[lot := v], lot) != VinOf(w.offers, lot) && Live(w.offers[lot])
                   && exists k :: k in w.matches && k.lot == lot && !w.matches[k].dismissed
                                  && VinAlreadyMatched(w.offers[lot := v], w.matches, k))
  {
    var v := AfterEnrichment(w.offers[lot], wants, answer, yearCap, max);
    WriteKeepsOneIffHarmless(w, OfferWritten(lot, v));
    if VinOf(w.offers[lot := v], lot) == VinOf(w.offers, lot) {
      SameVehicleElsewhere(w, lot, v);
    }
  }
}
