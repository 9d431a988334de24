/** Two runs from the empty database that end with two live alerts for one vehicle: a listing that comes
    back to the market (db/upserts.py), and a VIN that is written late (apps/enricher/enricher.py). */
module TwoAlerts {
  import opened Base
  import opened Offers
  import opened Upserts
  import opened Matcher
  import opened Ledger
  import opened Enricher
  import opened FireOnce
  import opened OneAlert

  const WANT := Want("anything", true, Some(ANYTHING))

  function Scraped(vin: Option<string>, status: ListingStatus): RawListing {
    RawListing(RawContent(None, None, []), Facts(None, None, None, None, None, vin, None, None, None, None),
               None, status, None, None)
  }

  function Listing(vin: Option<string>): Offer {
    NewListing(Scraped(vin, Active), "v1")
  }

  /** One more step of a run. */
  lemma Next(worlds: seq<World>, events: seq<Event>, e: Event) returns (longer: seq<World>, more: seq<Event>)
    requires Run(worlds, events) && Possible(worlds[|events|], e)
    ensures Run(longer, more) && more == events + [e]
    ensures longer[|more|] == After(worlds[|events|], e)
  {
    longer, more := worlds + [After(worlds[|events|], e)], events + [e];
    forall n | 0 <= n < |more| ensures Step(longer[n], more[n], longer[n + 1]) {
      if n < |events| {
        assert Step(worlds[n], events[n], worlds[n + 1]);
      }
    }
  }

  /** Inserting a listing and evaluating it against the one want, which accepts everything. */
  lemma Arrival(worlds: seq<World>, events: seq<Event>, lot: int, vin: Option<string>)
      returns (longer: seq<World>, more: seq<Event>)
    requires Run(worlds, events)
    requires var w := worlds[|events|]; w.wants == [WANT] && lot !in w.offers && Key(0, lot) !in w.matches
    ensures Run(longer, more)
    ensures var w, v := worlds[|events|], longer[|more|];
            && v.wants == [WANT] && v.offers == w.offers[lot := Listing(vin)]
            && v.matches == w.matches[
                 Key(0, lot) := WantMatch(None, None, VinAlreadyMatched(v.offers, w.matches, Key(0, lot)))]
  {
    longer, more := Next(worlds, events, OfferInserted(lot, Listing(vin)));
    var w := longer[|more|];
    EverythingIsMatched(w, lot, vin);
    longer, more := Next(longer, more, OfferEvaluated(lot, None));
  }

  lemma EverythingIsMatched(w: World, lot: int, vin: Option<string>)
    requires w.wants == [WANT] && lot in w.offers && w.offers[lot] == Listing(vin) && Key(0, lot) !in w.matches
    ensures Evaluated(w.offers, w.wants, w.matches, lot, None, 1)
            == w.matches[Key(0, lot) := WantMatch(None, None, VinAlreadyMatched(w.offers, w.matches, Key(0, lot)))]
  {
    assert Accepts(WANT, Listing(vin), None);
    assert Evaluated(w.offers, w.wants, w.matches, lot, None, 0) == w.matches;
  }

  lemma FirstArrival() returns (worlds: seq<World>, events: seq<Event>)
    ensures Run(worlds, events)
    ensures var w := worlds[|events|];
            && w.wants == [WANT] && w.offers == map[1 := Listing(Some("vin"))]
            && w.matches == map[Key(0, 1) := WantMatch(None, None, false)]
  {
    worlds, events := [World(map[], [], map[], [])], [];
    worlds, events := Next(worlds, events, WantsEdited([WANT]));
    worlds, events := Arrival(worlds, events, 1, Some("vin"));
  }

  /** A listing sells, a copy of the vehicle is matched, and the first listing is seen again. */
  lemma RelistingRevivesACopy() returns (worlds: seq<World>, events: seq<Event>)
    ensures Run(worlds, events) && !OneLiveAlert(worlds[|events|])
    ensures events != [] && events[|events| - 1].ListingSeen?
  {
    worlds, events := FirstArrival();
    worlds, events := Next(worlds, events, ListingSeen(1, Scraped(Some("vin"), Removed), "v1"));
    assert VinOf(worlds[|events|].offers, 1) == VinOf(map[1 := Listing(Some("vin"))], 1);
    worlds, events := Arrival(worlds, events, 2, Some("vin"));
    var w, e := worlds[|events|], ListingSeen(1, Scraped(Some("vin"), Active), "v1");
    assert Covers(w.offers[1 := Rewritten(w, e)], w.matches, Key(0, 2), Key(0, 1));
    DoublingBreaksOne(w, e);
    worlds, events := Next(worlds, events, e);
  }

  /** The enricher reads this VIN, and nothing else, off a listing. */
  function VinRead(): Answer {
    Answered(EnrichmentOutput(NormalizedVehicle(None, None, None, None, "unknown", "unknown", None, Some("vin"), None),
                              "UNKNOWN", "decent", 1.0, [], [], []), None)
  }

  /** A copy of a matched vehicle is listed without its VIN, matched, and then enriched. */
  lemma LateVinMakesACopy() returns (worlds: seq<World>, events: seq<Event>)
    ensures Run(worlds, events) && !OneLiveAlert(worlds[|events|])
    ensures events != []
    ensures events[|events| - 1] == OfferWritten(2, AfterEnrichment(Listing(None), [ANYTHING], VinRead(), 2027, 3))
  {
    worlds, events := FirstArrival();
    worlds, events := Arrival(worlds, events, 2, None);
    MatchIsNeverGatedOut(Listing(None), [ANYTHING], 0, None, None);
    var w, e := worlds[|events|], OfferWritten(2, AfterEnrichment(Listing(None), [ANYTHING], VinRead(), 2027, 3));
    assert Covers(w.offers[2 := Rewritten(w, e)], w.matches, Key(0, 1), Key(0, 2));
    DoublingBreaksOne(w, e);
    worlds, events := Next(worlds, events, e);
  }
}
