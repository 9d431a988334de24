/** Construction of the comp set from the three stored sources (scoring/comps.py). */
module Comps {
  import opened Base
  import opened Folds
  import opened Text
  import opened Offers

  datatype SaleSource = FromHistory | FromAuctionLots | FromPrivateListings

  datatype ComparableSale = ComparableSale(
    price: real, saleChannel: string, year: Option<int>, mileageKm: Option<int>, source: SaleSource)

  /** A distilled sale, with the columns comps are built from. */
  datatype HistoricalSale = HistoricalSale(
    facts: Facts, listedPrice: Option<real>, priceWithPremium: Option<real>, saleChannel: string,
    disappearedAt: Option<int>, purchased: bool)

  datatype StoredOffer = StoredOffer(id: int, offer: Offer, auctionId: int)

  datatype Tables = Tables(sales: seq<HistoricalSale>, offers: seq<StoredOffer>)

  datatype CompQuery = CompQuery(
    make: string, model: string, trim: Option<string>, year: int, mileageKm: int, excludeId: int)

  const DAY := 86400
  const RECENT_AUCTION_LOTS_DAYS := 14
  const RECENT_PRIVATE_LISTING_DAYS := 60
  const YEAR_WINDOW := 1

  /** Python's int(): towards zero. */
  function Truncate(x: real): int {
    if x >= 0.0 then x.Floor else -((-x).Floor)
  }

  predicate SameText(a: Option<string>, b: string) {
    a.Some? && Lower(a.value) == Lower(b)
  }

  predicate Within(x: Option<int>, lo: int, hi: int) {
    x.Some? && lo <= x.value <= hi
  }

  /** The make/model/year/mileage band, with the generous trim filter. */
  predicate InBand(f: Facts, q: CompQuery) {
    && SameText(f.make, q.make)
    && SameText(f.model, q.model)
    && Within(f.year, q.year - YEAR_WINDOW, q.year + YEAR_WINDOW)
    && Within(f.mileageKm, Truncate(q.mileageKm as real * 0.7), Truncate(q.mileageKm as real * 1.3))
    && (q.trim.None? || q.trim.value == "" || f.trim.None? || SameText(f.trim, q.trim.value))
  }

  /** The price with premium when there is a non-zero one, else the listed price. */
  function SalePrice(h: HistoricalSale): Option<real> {
    if h.priceWithPremium.Some? && h.priceWithPremium.value != 0.0 then h.priceWithPremium else h.listedPrice
  }

  function CompOfSale(h: HistoricalSale, q: CompQuery): seq<ComparableSale> {
    if InBand(h.facts, q) && SalePrice(h).Some?
    then [ComparableSale(SalePrice(h).value, h.saleChannel, h.facts.year, h.facts.mileageKm, FromHistory)]
    else []
  }

  predicate SinceDays(t: Option<int>, now: int, days: int) {
    t.Some? && t.value >= now - days * DAY
  }

  function CompOfLot(o: Offer, q: CompQuery, now: int): seq<ComparableSale> {
    if o.kind == AuctionLot && InBand(o.facts, q) && o.bidding.lotStatus in {Closed, ForceClosed}
       && SinceDays(o.bidding.closedAt, now, RECENT_AUCTION_LOTS_DAYS) && o.bidding.finalBid.Some?
    then [ComparableSale(o.bidding.finalBid.value, "auction_estate", o.facts.year, o.facts.mileageKm, FromAuctionLots)]
    else []
  }

  function CompOfListing(s: StoredOffer, q: CompQuery, now: int): seq<ComparableSale> {
    var o := s.offer;
    if o.kind == PrivateListing && s.id != q.excludeId && InBand(o.facts, q) && o.asking.status in {SoldOff, Removed}
       && SinceDays(o.asking.disappearedAt, now, RECENT_PRIVATE_LISTING_DAYS) && o.asking.price.Some?
    then [ComparableSale(o.asking.price.value, "private", o.facts.year, o.facts.mileageKm, FromPrivateListings)]
    else []
  }

  function FromSale(q: CompQuery): HistoricalSale -> seq<ComparableSale> {
    (h: HistoricalSale) => CompOfSale(h, q)
  }

  function FromLot(q: CompQuery, now: int): StoredOffer -> seq<ComparableSale> {
    (s: StoredOffer) => CompOfLot(s.offer, q, now)
  }

  function FromListing(q: CompQuery, now: int): StoredOffer -> seq<ComparableSale> {
    (s: StoredOffer) => CompOfListing(s, q, now)
  }

  function CompSet(t: Tables, q: CompQuery, now: int): seq<ComparableSale> {
    FlatMap(FromSale(q), t.sales) + FlatMap(FromLot(q, now), t.offers) + FlatMap(FromListing(q, now), t.offers)
  }

  method Collect<T>(f: T -> seq<ComparableSale>, rows: seq<T>) returns (comps: seq<ComparableSale>)
    ensures comps == FlatMap(f, rows)
  {
    comps := [];
    for i := 0 to |rows|
      invariant comps == FlatMap(f, rows[..i])
    {
      FlatMapNext(f, rows, i);
      comps := comps + f(rows[i]);
    }
    assert rows[..|rows|] == rows;
  }

  method BuildCompSet(t: Tables, q: CompQuery, now: int) returns (comps: seq<ComparableSale>)
    ensures comps == CompSet(t, q, now)
  {
    var fromSales := Collect(FromSale(q), t.sales);
    var fromLots := Collect(FromLot(q, now), t.offers);
    var fromListings := Collect(FromListing(q, now), t.offers);
    comps := fromSales + fromLots + fromListings;
  }

  // ---- the three sources, row by row ----

  /** Same make and model but for letter case, at most a year apart, mileage within 30 percent (whole
      kilometres towards zero), and not of another trim. */
  lemma BandIsExact(f: Facts, q: CompQuery)
    requires q.mileageKm >= 0
    ensures InBand(f, q)
            <==> && f.make.Some? && Lower(f.make.value) == Lower(q.make)
                 && f.model.Some? && Lower(f.model.value) == Lower(q.model)
                 && f.year.Some? && q.year - 1 <= f.year.value <= q.year + 1
                 && f.mileageKm.Some?
                 && (q.mileageKm * 7) / 10 <= f.mileageKm.value <= (q.mileageKm * 13) / 10
                 && (q.trim.Some? && q.trim.value != "" && f.trim.Some? ==> Lower(f.trim.value) == Lower(q.trim.value))
  {
    WholeTenths(q.mileageKm, 7);
    WholeTenths(q.mileageKm, 13);
    assert q.mileageKm as real * 0.7 == q.mileageKm as real * 7.0 / 10.0;
    assert q.mileageKm as real * 1.3 == q.mileageKm as real * 13.0 / 10.0;
  }

  lemma WholeTenths(n: int, k: int)
    requires n >= 0 && k >= 0
    ensures var x := n as real * k as real / 10.0; x >= 0.0 && x.Floor == (n * k) / 10
  {
    var m := n * k;
    assert n as real * k as real == m as real;
    assert m as real / 10.0 == (m / 10) as real + (m % 10) as real / 10.0;
  }

  /** A past sale in the band is one comp, at its price with premium if there is a non-zero one, else at its
      listed price, in the channel it was sold through. */
  lemma SaleCompIsExact(h: HistoricalSale, q: CompQuery)
    ensures var price := if h.priceWithPremium.Some? && h.priceWithPremium != Some(0.0) then h.priceWithPremium
                         else h.listedPrice;
            CompOfSale(h, q)
            == if InBand(h.facts, q) && price.Some?
               then [ComparableSale(price.value, h.saleChannel, h.facts.year, h.facts.mileageKm, FromHistory)] else []
  {
  }

  /** A lot in the band that closed or was force-closed in the last 14 days with a final bid is one comp. */
  lemma LotCompIsExact(o: Offer, q: CompQuery, now: int)
    ensures var b := o.bidding;
            CompOfLot(o, q, now)
            == if o.kind == AuctionLot && InBand(o.facts, q) && (b.lotStatus == Closed || b.lotStatus == ForceClosed)
                  && b.closedAt.Some? && now - b.closedAt.value <= 1_209_600 && b.finalBid.Some?
               then [ComparableSale(b.finalBid.value, "auction_estate", o.facts.year, o.facts.mileageKm,
                                    FromAuctionLots)]
               else []
  {
  }

  /** A listing in the band that sold or disappeared in the last 60 days is one comp at its last asking price,
      except for itself. */
  lemma ListingCompIsExact(s: StoredOffer, q: CompQuery, now: int)
    ensures var o, a := s.offer, s.offer.asking;
            CompOfListing(s, q, now)
            == if o.kind == PrivateListing && s.id != q.excludeId && InBand(o.facts, q)
                  && (a.status == SoldOff || a.status == Removed) && a.disappearedAt.Some?
                  && now - a.disappearedAt.value <= 5_184_000 && a.price.Some?
               then [ComparableSale(a.price.value, "private", o.facts.year, o.facts.mileageKm, FromPrivateListings)]
               else []
  {
  }

  lemma {:induction false} FlatMapMember<T>(f: T -> seq<ComparableSale>, rows: seq<T>, c: ComparableSale)
    ensures c in FlatMap(f, rows) <==> exists i :: 0 <= i < |rows| && c in f(rows[i])
  {
    if rows != [] {
      FlatMapMember(f, rows[1..], c);
      assert forall i :: 0 < i < |rows| ==> rows[i] == rows[1..][i - 1];
    }
  }

  /** The comp set holds what its sources contribute and nothing else. */
  lemma CompSetIsExact(t: Tables, q: CompQuery, now: int, c: ComparableSale)
    ensures c in CompSet(t, q, now)
            <==> || (exists i :: 0 <= i < |t.sales| && c in CompOfSale(t.sales[i], q))
                 || (exists i :: 0 <= i < |t.offers| && c in CompOfLot(t.offers[i].offer, q, now))
                 || (exists i :: 0 <= i < |t.offers| && c in CompOfListing(t.offers[i], q, now))
  {
    FlatMapMember(FromSale(q), t.sales, c);
    FlatMapMember(FromLot(q, now), t.offers, c);
    FlatMapMember(FromListing(q, now), t.offers, c);
    assert forall i :: 0 <= i < |t.sales| ==> FromSale(q)(t.sales[i]) == CompOfSale(t.sales[i], q);
    assert forall i :: 0 <= i < |t.offers| ==> FromLot(q, now)(t.offers[i]) == CompOfLot(t.offers[i].offer, q, now);
    assert forall i :: 0 <= i < |t.offers| ==> FromListing(q, now)(t.offers[i]) == CompOfListing(t.offers[i], q, now);
  }
}
