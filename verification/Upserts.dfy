/** Find-or-insert writes of scraped offers, the content cascade and a listing's price history
    (db/upserts.py). */
module Upserts {
  import opened Base
  import opened Offers
  import opened Ledger

  datatype RawLot = RawLot(
    content: RawContent, facts: Facts, lotStatus: LotStatus, lotEnd: Option<int>, rowId: Option<int>)

  datatype RawListing = RawListing(
    content: RawContent, facts: Facts, asking: Option<real>, status: ListingStatus,
    province: Option<string>, sellerType: Option<string>)

  datatype RawContent = RawContent(title: Option<string>, description: Option<string>, photos: seq<string>)

  const UNASSESSED := Assessment(None, false, [], [], [])
  const ALL_PENDING := Statuses(Pending, Pending, Pending, Pending)
  const NO_BIDDING := Bidding(None, Open, None, None, None, None)
  const NO_ASKING := Asking(None, None, None, 0, Active, None, None, None)
  const UNMARKED := UserMark(None, false)
  const UNTRIED := Attempts(0, 0, 0)

  function Refreshed(known: Content, raw: RawContent): Content {
    Content(Coalesce(raw.title, known.title), Coalesce(raw.description, known.description), raw.photos)
  }

  /** The columns whose change invalidates every downstream worker's output. */
  predicate ContentChanged(before: Offer, after: Offer) {
    || before.content != after.content || before.parserVersion != after.parserVersion
    || before.facts.year != after.facts.year || before.facts.make != after.facts.make
    || before.facts.model != after.facts.model || before.facts.vin != after.facts.vin
    || before.facts.mileageKm != after.facts.mileageKm
  }

  function Cascade(before: Offer, after: Offer): Offer {
    if !ContentChanged(before, after) then after
    else after.(statuses := Statuses(
      Pending, Pending, if after.statuses.vision == Skipped then Skipped else Pending, Pending))
  }

  method ApplyContentCascade(offer: OfferRow, before: Offer)
    modifies offer`statuses
    ensures offer.Value() == Cascade(before, old(offer.Value()))
  {
    if !ContentChanged(before, offer.Value()) {
      return;
    }
    offer.statuses := offer.statuses.(enrichment := Pending, valuation := Pending);
    if offer.statuses.vision != Skipped {
      offer.statuses := offer.statuses.(vision := Pending);
    }
    offer.statuses := offer.statuses.(notification := Pending);
  }

  // ---- auction lots ----

  function NewLot(raw: RawLot, parser: string): Offer {
    Offer(AuctionLot, raw.facts, Content(raw.content.title, raw.content.description, raw.content.photos),
          Some(parser), UNASSESSED, ALL_PENDING,
          NO_BIDDING.(lotStatus := raw.lotStatus, lotEnd := raw.lotEnd, rowId := raw.rowId),
          NO_ASKING, None, UNMARKED, UNTRIED)
  }

  /** Vehicle facts are written on insert only; the lot status belongs to the bid poller. */
  function RescrapedLot(o: Offer, raw: RawLot, parser: string): Offer {
    Cascade(o, o.(content := Refreshed(o.content, raw.content), parserVersion := Some(parser),
                  bidding := o.bidding.(rowId := raw.rowId, lotEnd := Coalesce(raw.lotEnd, o.bidding.lotEnd))))
  }

  method UpsertLotWithStatusCascade(existing: OfferRow?, raw: RawLot, parser: string) returns (lot: OfferRow)
    modifies existing
    ensures existing == null ==> fresh(lot) && lot.Value() == NewLot(raw, parser)
    ensures existing != null ==> lot == existing && lot.Value() == RescrapedLot(old(existing.Value()), raw, parser)
  {
    if existing == null {
      lot := new OfferRow(NewLot(raw, parser));
      return;
    }
    lot := existing;
    var before := lot.Value();
    lot.parserVersion := Some(parser);
    lot.bidding := lot.bidding.(rowId := raw.rowId);
    if raw.lotEnd.Some? {
      lot.bidding := lot.bidding.(lotEnd := raw.lotEnd);
    }
    RefreshContent(lot, raw.content);
    ApplyContentCascade(lot, before);
  }

  method RefreshContent(offer: OfferRow, raw: RawContent)
    modifies offer`content
    ensures offer.content == Refreshed(old(offer.content), raw)
  {
    if raw.title.Some? {
      offer.content := offer.content.(title := raw.title);
    }
    if raw.description.Some? {
      offer.content := offer.content.(description := raw.description);
    }
    offer.content := offer.content.(photos := raw.photos);
  }

  // ---- private listings ----

  function NewListing(raw: RawListing, parser: string): Offer {
    Offer(PrivateListing, raw.facts, Content(raw.content.title, raw.content.description, raw.content.photos),
          Some(parser), UNASSESSED, ALL_PENDING, NO_BIDDING,
          Asking(raw.asking, None, raw.asking, 0, raw.status, raw.province, raw.sellerType, None),
          None, UNMARKED, UNTRIED)
  }

  predicate PriceDropped(before: Option<real>, after: Option<real>) {
    before.Some? && after.Some? && after.value < before.value
  }

  /** A changed price remembers its predecessor, and a drop is counted. */
  function Repriced(a: Asking, price: Option<real>): Asking {
    if price.None? || price == a.price then a
    else
      var dropped := PriceDropped(a.price, price);
      a.(price := price, previous := a.price, drops := a.drops + (if dropped then 1 else 0),
         original := if dropped && a.original.None? then a.price else a.original)
  }

  function RelistedAsking(a: Asking, raw: RawListing): Asking {
    Repriced(a, raw.asking).(
      status := raw.status, province := Coalesce(raw.province, a.province),
      sellerType := Coalesce(raw.sellerType, a.sellerType))
  }

  function RelistedListing(o: Offer, raw: RawListing, parser: string): Offer {
    var after := Cascade(o, o.(content := Refreshed(o.content, raw.content), parserVersion := Some(parser),
                               asking := RelistedAsking(o.asking, raw)));
    if after.asking.price == o.asking.price then after
    else after.(statuses := after.statuses.(valuation := Pending))
  }

  method RefreshAsking(listing: OfferRow, raw: RawListing)
    modifies listing`asking
    ensures listing.asking == old(listing.asking).(
              price := Coalesce(raw.asking, old(listing.asking.price)), status := raw.status,
              province := Coalesce(raw.province, old(listing.asking.province)),
              sellerType := Coalesce(raw.sellerType, old(listing.asking.sellerType)))
  {
    if raw.asking.Some? {
      listing.asking := listing.asking.(price := raw.asking);
    }
    if raw.sellerType.Some? {
      listing.asking := listing.asking.(sellerType := raw.sellerType);
    }
    if raw.province.Some? {
      listing.asking := listing.asking.(province := raw.province);
    }
    listing.asking := listing.asking.(status := raw.status);
  }

  /** Books the change away from `before`, re-queues the valuation, and on a drop clears the fire-once
      stamps of the listing's active matches. */
  method RecordPriceChange(listing: OfferRow, id: int, ledger: WantLedger, before: Option<real>)
    requires listing.asking.price != before
    modifies listing`asking, listing`statuses, ledger
    ensures listing.statuses == old(listing.statuses).(valuation := Pending)
    ensures var dropped := PriceDropped(before, old(listing.asking.price));
            && listing.asking == old(listing.asking).(
                 previous := before, drops := old(listing.asking.drops) + (if dropped then 1 else 0),
                 original := if dropped && old(listing.asking.original).None? then before
                             else old(listing.asking.original))
            && ledger.matches == (if dropped then Reopened(old(ledger.matches), id) else old(ledger.matches))
  {
    listing.asking := listing.asking.(previous := before);
    if listing.statuses.valuation != Pending {
      listing.statuses := listing.statuses.(valuation := Pending);
    }
    if before.Some? && listing.asking.price.Some? && listing.asking.price.value < before.value {
      listing.asking := listing.asking.(drops := listing.asking.drops + 1);
      if listing.asking.original.None? {
        listing.asking := listing.asking.(original := before);
      }
      ledger.ReopenOnDrop(id);
    }
  }

  /** The asking price a sighting stores is below the one before it. */
  predicate Drops(o: Offer, raw: RawListing) {
    PriceDropped(o.asking.price, Coalesce(raw.asking, o.asking.price))
  }

  /** Finds or inserts the listing with row id `id`. */
  method UpsertPrivateListing(existing: OfferRow?, id: int, ledger: WantLedger, raw: RawListing, parser: string)
      returns (listing: OfferRow)
    modifies existing, ledger
    ensures existing == null ==>
              fresh(listing) && listing.Value() == NewListing(raw, parser) && ledger.matches == old(ledger.matches)
    ensures existing != null ==>
              && listing == existing
              && listing.Value() == RelistedListing(old(existing.Value()), raw, parser)
              && ledger.matches == (if Drops(old(existing.Value()), raw) then Reopened(old(ledger.matches), id)
                                    else old(ledger.matches))
  {
    if existing == null {
      listing := new OfferRow(NewListing(raw, parser));
      return;
    }
    listing := existing;
    var before := listing.Value();
    listing.parserVersion := Some(parser);
    RefreshContent(listing, raw.content);
    RefreshAsking(listing, raw);
    ApplyContentCascade(listing, before);
    if listing.asking.price != before.asking.price {
      RecordPriceChange(listing, id, ledger, before.asking.price);
    }
  }

  // ---- what a further sighting re-queues and keeps ----

  /** The record says something new about the offer: another title, description or parser, other photos. */
  predicate SaysSomethingNew(o: Offer, raw: RawContent, parser: string) {
    || (raw.title.Some? && raw.title != o.content.title)
    || (raw.description.Some? && raw.description != o.content.description)
    || raw.photos != o.content.photos
    || o.parserVersion != Some(parser)
  }

  /** All stages, a vision pass that was skipped excepted. */
  predicate StartsOver(o: Offer, v: Offer) {
    && v.statuses.enrichment == Pending && v.statuses.valuation == Pending && v.statuses.notification == Pending
    && v.statuses.vision == if o.statuses.vision == Skipped then Skipped else Pending
  }

  /** A rescraped lot starts over exactly when the record says something new, and otherwise keeps its statuses. */
  lemma RescrapeRequeuesExactly(o: Offer, raw: RawLot, parser: string)
    ensures var v := RescrapedLot(o, raw, parser);
            if SaysSomethingNew(o, raw.content, parser) then StartsOver(o, v) else v.statuses == o.statuses
  {
  }

  /** So does a listing, whose valuation is also re-queued when its price has changed. */
  lemma RelistingRequeuesExactly(o: Offer, raw: RawListing, parser: string)
    ensures var v := RelistedListing(o, raw, parser);
            if SaysSomethingNew(o, raw.content, parser) then StartsOver(o, v)
            else v.statuses == if raw.asking.Some? && raw.asking != o.asking.price
                               then o.statuses.(valuation := Pending) else o.statuses
  {
  }

  /** What the record does not carry stays; vehicle facts, bids, the lot status and everything that the workers
      wrote stay in any case. */
  lemma RescrapeKeeps(o: Offer, raw: RawLot, parser: string)
    ensures var v := RescrapedLot(o, raw, parser);
            && v == o.(content := v.content, parserVersion := Some(parser), bidding := v.bidding,
                       statuses := v.statuses)
            && v.bidding == o.bidding.(rowId := raw.rowId,
                                       lotEnd := if raw.lotEnd.Some? then raw.lotEnd else o.bidding.lotEnd)
            && TakesContent(o.content, raw.content, v.content)
  {
  }

  lemma RelistingKeeps(o: Offer, raw: RawListing, parser: string)
    ensures var v := RelistedListing(o, raw, parser);
            && v == o.(content := v.content, parserVersion := Some(parser), asking := v.asking, statuses := v.statuses)
            && TakesContent(o.content, raw.content, v.content)
            && v.asking.status == raw.status && v.asking.disappearedAt == o.asking.disappearedAt
            && v.asking.price == (if raw.asking.Some? then raw.asking else o.asking.price)
            && v.asking.province == (if raw.province.Some? then raw.province else o.asking.province)
            && v.asking.sellerType == (if raw.sellerType.Some? then raw.sellerType else o.asking.sellerType)
  {
  }

  predicate TakesContent(known: Content, raw: RawContent, now: Content) {
    && now.title == (if raw.title.Some? then raw.title else known.title)
    && now.description == (if raw.description.Some? then raw.description else known.description)
    && now.photos == raw.photos
  }

  /** A new offer waits for every stage, with the scraped columns and nothing else. */
  lemma NewOffersAreExact(lot: RawLot, listing: RawListing, parser: string)
    ensures var v := NewLot(lot, parser);
            && v.kind == AuctionLot && v.facts == lot.facts && v.parserVersion == Some(parser)
            && v.content == Content(lot.content.title, lot.content.description, lot.content.photos)
            && v.bidding == Bidding(None, lot.lotStatus, None, None, lot.lotEnd, lot.rowId)
            && v.statuses == Statuses(Pending, Pending, Pending, Pending) && v.attempts == Attempts(0, 0, 0)
            && v.appraisal.None? && v.assessment.condition.None? && v.mark == UserMark(None, false)
    ensures var v := NewListing(listing, parser);
            && v.kind == PrivateListing && v.facts == listing.facts && v.parserVersion == Some(parser)
            && v.content == Content(listing.content.title, listing.content.description, listing.content.photos)
            && v.asking == Asking(listing.asking, None, listing.asking, 0, listing.status, listing.province,
                                  listing.sellerType, None)
            && v.statuses == Statuses(Pending, Pending, Pending, Pending) && v.attempts == Attempts(0, 0, 0)
            && v.appraisal.None? && v.assessment.condition.None? && v.mark == UserMark(None, false)
  {
  }

  // ---- the price history of one listing ----

  /** The listing after an insert and any number of further sightings. */
  function Sightings(raws: seq<RawListing>, parser: string): Offer
    requires raws != []
  {
    if |raws| == 1 then NewListing(raws[0], parser)
    else RelistedListing(Sightings(raws[..|raws| - 1], parser), raws[|raws| - 1], parser)
  }

  /** The asking prices actually seen, oldest first. */
  function KnownPrices(raws: seq<RawListing>): seq<real> {
    if raws == [] then []
    else
      var last := raws[|raws| - 1].asking;
      if last.Some? then KnownPrices(raws[..|raws| - 1]) + [last.value] else KnownPrices(raws[..|raws| - 1])
  }

  function StrictDecreases(p: seq<real>): nat {
    if |p| < 2 then 0
    else StrictDecreases(p[..|p| - 1]) + (if p[|p| - 1] < p[|p| - 2] then 1 else 0)
  }

  /** The price that stood before the latest change, and before the first drop. */
  function BeforeLastChange(p: seq<real>): Option<real> {
    if |p| < 2 then None
    else if p[|p| - 1] != p[|p| - 2] then Some(p[|p| - 2])
    else BeforeLastChange(p[..|p| - 1])
  }

  function BeforeFirstDrop(p: seq<real>): Option<real> {
    if |p| < 2 then None
    else if BeforeFirstDrop(p[..|p| - 1]).Some? then BeforeFirstDrop(p[..|p| - 1])
    else if p[|p| - 1] < p[|p| - 2] then Some(p[|p| - 2]) else None
  }

  /** The stored economics, read off the prices seen: the current price is the last one, the drop
      count is the number of strict decreases, the original is the inserted price or else the price
      before the first drop, and the previous price is the one before the last change. */
  ghost predicate Records(a: Asking, inserted: Option<real>, p: seq<real>) {
    && a.price == (if p == [] then None else Some(p[|p| - 1]))
    && a.drops == StrictDecreases(p)
    && a.original == (if inserted.Some? then inserted else BeforeFirstDrop(p))
    && a.previous == BeforeLastChange(p)
  }

  lemma RepricingExtendsTheRecord(a: Asking, inserted: Option<real>, p: seq<real>, price: real)
    requires Records(a, inserted, p)
    ensures Records(Repriced(a, Some(price)), inserted, p + [price])
  {
    var q := p + [price];
    assert q[..|q| - 1] == p;
  }

  lemma {:induction false} PriceHistoryIsExact(raws: seq<RawListing>, parser: string)
    requires raws != []
    ensures Records(Sightings(raws, parser).asking, raws[0].asking, KnownPrices(raws))
  {
    var init, last := raws[..|raws| - 1], raws[|raws| - 1];
    if |raws| == 1 {
      assert KnownPrices(init) == [];
    } else {
      PriceHistoryIsExact(init, parser);
      if last.asking.Some? {
        RepricingExtendsTheRecord(Sightings(init, parser).asking, raws[0].asking, KnownPrices(init), last.asking.value);
      }
      assert Sightings(raws, parser).asking == RelistedAsking(Sightings(init, parser).asking, last);
    }
  }

  lemma {:induction false} DecreaseHasABefore(p: seq<real>)
    ensures StrictDecreases(p) > 0 <==> BeforeFirstDrop(p).Some?
    ensures BeforeLastChange(p).Some? ==> p != [] && BeforeLastChange(p).value != p[|p| - 1]
  {
    if |p| >= 2 {
      DecreaseHasABefore(p[..|p| - 1]);
    }
  }

  /** Consequences a buyer reads off the row: a first known price stays the original, a positive
      drop count has an original, and a known previous price differs from the current one. */
  lemma PriceHistoryFacts(raws: seq<RawListing>, parser: string)
    requires raws != []
    ensures var a := Sightings(raws, parser).asking;
            && (raws[0].asking.Some? ==> a.original == raws[0].asking)
            && (a.drops > 0 ==> a.original.Some?)
            && (a.previous.Some? ==> a.price.Some? && a.previous != a.price)
  {
    PriceHistoryIsExact(raws, parser);
    DecreaseHasABefore(KnownPrices(raws));
  }
}
