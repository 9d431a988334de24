/** The nightly distiller: closed lots become historical sales (apps/auction_distiller/distiller.py),
    without losing or doubling a comparable sale. */
module Distiller {
  import opened Base
  import opened Reals
  import opened Folds
  import opened Offers
  import opened Comps

  const DISTILL_AGE_DAYS := 14
  const KEEP_NOTIFIED_DAYS := 90

  datatype AuctionRow = AuctionRow(premiumPct: Option<real>, subtype: string)

  function SaleOf(o: Offer, auction: AuctionRow): HistoricalSale {
    var bid := o.bidding.finalBid;
    HistoricalSale(
      o.facts, bid,
      if bid.Some? && auction.premiumPct.Some? then Some(Times(bid.value, 1.0 + auction.premiumPct.value)) else None,
      "auction_" + auction.subtype, o.bidding.closedAt, o.mark.purchased)
  }

  predicate OlderThan(t: int, now: int, days: int) {
    t <= now - days * DAY
  }

  predicate Watched(o: Offer) {
    o.mark.action.Some? && o.mark.action.value in {Interested, Maybe}
  }

  predicate Eligible(o: Offer, now: int) {
    && o.kind == AuctionLot
    && o.bidding.lotStatus in {Closed, Sold, Unsold, ForceClosed}
    && o.bidding.closedAt.Some?
    && OlderThan(o.bidding.closedAt.value, now, DISTILL_AGE_DAYS)
    && !o.mark.purchased
    && (!Watched(o) || OlderThan(o.bidding.closedAt.value, now, KEEP_NOTIFIED_DAYS))
  }

  function IsEligible(now: int): StoredOffer -> bool { (s: StoredOffer) => Eligible(s.offer, now) }

  /** One night: the auction rows there are, and the lots whose transaction will raise. */
  datatype Night = Night(auctions: map<int, AuctionRow>, failing: set<int>, now: int)

  /** An eligible lot is moved unless its auction row is missing or its transaction fails. */
  predicate Moves(s: StoredOffer, n: Night) {
    Eligible(s.offer, n.now) && s.auctionId in n.auctions && s.id !in n.failing
  }

  function IsMoved(n: Night): StoredOffer -> bool { (s: StoredOffer) => Moves(s, n) }

  function IsKept(n: Night): StoredOffer -> bool { (s: StoredOffer) => !Moves(s, n) }

  function NotIn(ids: set<int>): StoredOffer -> bool { (s: StoredOffer) => s.id !in ids }

  /** The table with the given ids deleted. */
  function Without(offers: seq<StoredOffer>, ids: set<int>): seq<StoredOffer> {
    Filter(NotIn(ids), offers)
  }

  function Ids(offers: seq<StoredOffer>): set<int> {
    set s | s in offers :: s.id
  }

  ghost predicate DistinctIds(offers: seq<StoredOffer>) {
    forall i, j :: 0 <= i < j < |offers| ==> offers[i].id != offers[j].id
  }

  predicate AuctionsPresent(offers: seq<StoredOffer>, auctions: map<int, AuctionRow>) {
    forall i :: 0 <= i < |offers| ==> offers[i].auctionId in auctions
  }

  function SalesOf(offers: seq<StoredOffer>, auctions: map<int, AuctionRow>): seq<HistoricalSale>
    requires AuctionsPresent(offers, auctions)
  {
    if offers == [] then []
    else
      var last := offers[|offers| - 1];
      SalesOf(offers[..|offers| - 1], auctions) + [SaleOf(last.offer, auctions[last.auctionId])]
  }

  function Moved(offers: seq<StoredOffer>, n: Night): (r: seq<StoredOffer>)
    ensures AuctionsPresent(r, n.auctions)
  {
    FilterHolds(IsMoved(n), offers);
    Filter(IsMoved(n), offers)
  }

  /** The tables in the morning. */
  function Distilled(t: Tables, n: Night): Tables {
    Tables(t.sales + SalesOf(Moved(t.offers, n), n.auctions), Filter(IsKept(n), t.offers))
  }

  datatype Counts = Counts(distilled: nat, missing: nat, failed: nat)

  class Archive {
    var sales: seq<HistoricalSale>
    var offers: seq<StoredOffer>

    constructor (t: Tables)
      ensures View() == t
    {
      sales, offers := t.sales, t.offers;
    }

    function View(): Tables
      reads this
    {
      Tables(sales, offers)
    }

    /** One lot's transaction: the sale appears exactly when the lot goes. */
    method DistillLot(lot: StoredOffer, auction: AuctionRow)
      modifies this
      ensures sales == old(sales) + [SaleOf(lot.offer, auction)]
      ensures offers == Without(old(offers), {lot.id})
    {
      sales := sales + [SaleOf(lot.offer, auction)];
      offers := Without(offers, {lot.id});
    }

    /** The nightly run over the eligible lots. */
    method Run(n: Night) returns (counts: Counts)
      requires DistinctIds(offers)
      modifies this
      ensures View() == Distilled(old(View()), n)
      ensures counts.distilled == |Moved(old(offers), n)|
      ensures counts.distilled + counts.missing + counts.failed == |Filter(IsEligible(n.now), old(offers))|
    {
      var candidates := Filter(IsEligible(n.now), offers);
      counts := Counts(0, 0, 0);
      WithoutNothing(offers);
      FilterHolds(IsEligible(n.now), offers);
      for k := 0 to |candidates|
        invariant sales == old(sales) + SalesOf(Moved(candidates[..k], n), n.auctions)
        invariant offers == Without(old(offers), Ids(Moved(candidates[..k], n)))
        invariant counts.distilled == |Moved(candidates[..k], n)|
        invariant counts.distilled + counts.missing + counts.failed == k
      {
        var lot := candidates[k];
        assert IsEligible(n.now)(lot);
        NextCandidate(old(offers), candidates, k, n);
        if lot.auctionId !in n.auctions {
          counts := counts.(missing := counts.missing + 1);
        } else if lot.id in n.failing {
          counts := counts.(failed := counts.failed + 1);
        } else {
          DistillLot(lot, n.auctions[lot.auctionId]);
          counts := counts.(distilled := counts.distilled + 1);
        }
      }
      assert candidates[..|candidates|] == candidates;
      FilterTwice(IsEligible(n.now), IsMoved(n), IsMoved(n), old(offers));
      OnlyTheMovedGo(old(offers), n);
    }
  }

  lemma {:induction false} FilterHolds<T>(p: T -> bool, s: seq<T>)
    ensures forall i :: 0 <= i < |Filter(p, s)| ==> p(Filter(p, s)[i])
  {
    if s != [] {
      FilterHolds(p, s[1..]);
    }
  }

  lemma NextCandidate(offers: seq<StoredOffer>, candidates: seq<StoredOffer>, k: nat, n: Night)
    requires k < |candidates| && Eligible(candidates[k].offer, n.now)
    ensures var before, after := Moved(candidates[..k], n), Moved(candidates[..k + 1], n);
            if Moves(candidates[k], n)
            then && after == before + [candidates[k]]
                 && SalesOf(after, n.auctions)
                    == SalesOf(before, n.auctions) + [SaleOf(candidates[k].offer, n.auctions[candidates[k].auctionId])]
                 && Without(offers, Ids(after)) == Without(Without(offers, Ids(before)), {candidates[k].id})
            else after == before
  {
    var lot, before := candidates[k], Moved(candidates[..k], n);
    assert candidates[..k + 1] == candidates[..k] + [lot];
    FilterAppend(IsMoved(n), candidates[..k], [lot]);
    assert Filter(IsMoved(n), [lot]) == if Moves(lot, n) then [lot] else [];
    if Moves(lot, n) {
      assert (before + [lot])[..|before|] == before;
      assert Ids(before + [lot]) == Ids(before) + {lot.id} by {
        assert forall s :: s in before + [lot] <==> s in before || s == lot;
      }
      FilterTwice(NotIn(Ids(before)), NotIn({lot.id}), NotIn(Ids(before) + {lot.id}), offers);
    }
  }

  lemma WithoutNothing(offers: seq<StoredOffer>)
    ensures Without(offers, Ids([])) == offers
  {
    KeptWhole(NotIn(Ids([])), offers);
  }

  lemma {:induction false} KeptWhole(p: StoredOffer -> bool, s: seq<StoredOffer>)
    requires forall i :: 0 <= i < |s| ==> p(s[i])
    ensures Filter(p, s) == s
  {
    if s != [] {
      KeptWhole(p, s[1..]);
    }
  }

  /** With distinct ids, deleting the moved ids deletes the moved rows and nothing else. */
  lemma OnlyTheMovedGo(offers: seq<StoredOffer>, n: Night)
    requires DistinctIds(offers)
    ensures Without(offers, Ids(Moved(offers, n))) == Filter(IsKept(n), offers)
  {
    var moved := Moved(offers, n);
    forall i | 0 <= i < |offers| ensures offers[i].id in Ids(moved) <==> Moves(offers[i], n) {
      FilterMember(IsMoved(n), offers, offers[i]);
      if offers[i].id in Ids(moved) {
        var s :| s in moved && s.id == offers[i].id;
        FilterMember(IsMoved(n), offers, s);
        var j :| 0 <= j < |offers| && offers[j] == s;
        assert j == i;
      }
    }
    FilterCongruent(NotIn(Ids(moved)), IsKept(n), offers);
  }

  // ---- conservation ----

  /** What one stored offer adds to the auction comps in the morning: its sale if it was moved, else itself
      if it is recent enough. */
  function ContributionOf(s: StoredOffer, n: Night, q: CompQuery): seq<ComparableSale> {
    if Moves(s, n) then CompOfSale(SaleOf(s.offer, n.auctions[s.auctionId]), q) else CompOfLot(s.offer, q, n.now)
  }

  function Contribution(n: Night, q: CompQuery): StoredOffer -> seq<ComparableSale> {
    (s: StoredOffer) => ContributionOf(s, n, q)
  }

  lemma {:induction false} SalesContribute(moved: seq<StoredOffer>, n: Night, q: CompQuery)
    requires AuctionsPresent(moved, n.auctions) && forall i :: 0 <= i < |moved| ==> Moves(moved[i], n)
    ensures FlatMap(FromSale(q), SalesOf(moved, n.auctions)) == FlatMap(Contribution(n, q), moved)
  {
    if moved != [] {
      var init, last := moved[..|moved| - 1], moved[|moved| - 1];
      SalesContribute(init, n, q);
      FlatMapAppend(FromSale(q), SalesOf(init, n.auctions), [SaleOf(last.offer, n.auctions[last.auctionId])]);
      FlatMapAppend(Contribution(n, q), init, [last]);
      assert moved == init + [last];
    }
  }

  /** After any night, failures and missing rows included, the comp set of the same moment is the earlier
      sales, the listings, and each stored lot's contribution exactly once. */
  lemma NoCompLostOrDoubled(before: Tables, n: Night, q: CompQuery)
    ensures multiset(CompSet(Distilled(before, n), q, n.now))
            == multiset(FlatMap(FromSale(q), before.sales))
               + multiset(FlatMap(Contribution(n, q), before.offers))
               + multiset(FlatMap(FromListing(q, n.now), before.offers))
  {
    var moved, rest := Moved(before.offers, n), Filter(IsKept(n), before.offers);
    FilterHolds(IsMoved(n), before.offers);
    FlatMapAppend(FromSale(q), before.sales, SalesOf(moved, n.auctions));
    SalesContribute(moved, n, q);
    FlatMapPartition(IsMoved(n), IsKept(n), Contribution(n, q), FromLot(q, n.now), Contribution(n, q), before.offers);
    FlatMapFiltered(FromListing(q, n.now), IsKept(n), before.offers);
    MultisetOfFour(FlatMap(FromSale(q), before.sales), FlatMap(Contribution(n, q), moved),
                   FlatMap(FromLot(q, n.now), rest), FlatMap(FromListing(q, n.now), before.offers));
  }

  lemma MultisetOfFour(a: seq<ComparableSale>, b: seq<ComparableSale>, c: seq<ComparableSale>, d: seq<ComparableSale>)
    ensures multiset((a + b) + c + d) == multiset(a) + (multiset(b) + multiset(c)) + multiset(d)
  {
  }

  /** What a settled lot with a final bid and matching facts contributes: one comp if it was moved or is
      recent, none otherwise; so exactly one in a night that does not fail it, while it is unpurchased and
      unwatched. */
  lemma SettledLotContributes(s: StoredOffer, n: Night, q: CompQuery)
    requires s.offer.kind == AuctionLot && s.offer.bidding.lotStatus in {Closed, ForceClosed}
    requires s.offer.bidding.finalBid.Some? && s.offer.bidding.closedAt.Some? && InBand(s.offer.facts, q)
    ensures var t := s.offer.bidding.closedAt.value;
            |ContributionOf(s, n, q)| == if Moves(s, n) || t >= n.now - RECENT_AUCTION_LOTS_DAYS * DAY then 1 else 0
    ensures s.auctionId in n.auctions && s.id !in n.failing && !Watched(s.offer) && !s.offer.mark.purchased ==>
              |ContributionOf(s, n, q)| == 1
  {
  }

  /** A lot is distilled two weeks after it ended; one that is watched, after 90 days; one that was bought,
      never. */
  lemma EligibleIsExact(o: Offer, now: int)
    ensures Eligible(o, now)
            <==> && o.kind == AuctionLot && o.bidding.lotStatus !in {Open, ClosingSoon, Extended}
                 && o.bidding.closedAt.Some? && !o.mark.purchased
                 && now - o.bidding.closedAt.value
                    >= (if o.mark.action == Some(Interested) || o.mark.action == Some(Maybe) then 7_776_000
                        else 1_209_600)
  {
    var status := o.bidding.lotStatus;
    assert status.Open? || status.ClosingSoon? || status.Extended?
           || status.Closed? || status.Unsold? || status.Sold? || status.ForceClosed?;
    assert DISTILL_AGE_DAYS * DAY == 1_209_600 && KEEP_NOTIFIED_DAYS * DAY == 7_776_000;
  }

  /** As a comp, a distilled lot costs its final bid plus the auction's premium, when that is known and not
      nothing, else its final bid, in the channel of its auction. */
  lemma DistilledCompIs(s: StoredOffer, n: Night, q: CompQuery)
    requires Moves(s, n)
    ensures var o, auction := s.offer, n.auctions[s.auctionId];
            var bid, pct := o.bidding.finalBid, auction.premiumPct;
            ContributionOf(s, n, q)
            == if InBand(o.facts, q) && bid.Some?
               then [ComparableSale(
                       if pct.Some? && Times(bid.value, 1.0 + pct.value) != 0.0 then Times(bid.value, 1.0 + pct.value)
                       else bid.value,
                       "auction_" + auction.subtype, o.facts.year, o.facts.mileageKm, FromHistory)]
               else []
    ensures var sale := SaleOf(s.offer, n.auctions[s.auctionId]);
            && sale.facts == s.offer.facts && sale.listedPrice == s.offer.bidding.finalBid
            && sale.disappearedAt == s.offer.bidding.closedAt && sale.purchased == s.offer.mark.purchased
  {
  }
}
