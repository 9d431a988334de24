/** The want-list pull of the listing sources, the wakeups it sends, and the disappearance pass after it
    (apps/ingester/ingester.py). */
module Ingester {
  import opened Base
  import opened Folds
  import opened Offers
  import opened Ledger
  import opened Upserts
  import opened Comps

  /** One search result: the source's listing id and what was scraped. */
  datatype Found = Found(ref: string, raw: RawListing)

  /** A listing is unique by source and the source's id. */
  datatype ListingKey = ListingKey(source: string, ref: string)

  type Listings = map<ListingKey, Offer>

  datatype Wake = WakeEnricher(listing: ListingKey) | WakeValuator(listing: ListingKey)

  /** What a source's pull returned, want by want; `raised` if it broke off after these pages. */
  datatype SourcePull = SourcePull(source: string, version: string, pages: seq<seq<Found>>, raised: bool)

  /** The stored listings and matches, the NOTIFYs sent, and the ids seen in this run of a source. */
  datatype Pull = Pull(listings: Listings, matches: Matched, wakes: seq<Wake>, seen: set<string>)

  /** The row id of a listing. */
  type RowIds = ListingKey -> int

  function Stored(listings: Listings, key: ListingKey, raw: RawListing, parser: string): Offer {
    if key in listings then RelistedListing(listings[key], raw, parser) else NewListing(raw, parser)
  }

  /** A fresh or changed listing is enriched first; a changed price alone is re-valued. */
  function WakesFor(key: ListingKey, o: Offer): seq<Wake> {
    if o.statuses.enrichment == Pending then [WakeEnricher(key)]
    else if o.statuses.valuation == Pending then [WakeValuator(key)] else []
  }

  function Sighted(p: Pull, f: Found, source: string, parser: string, ids: RowIds): Pull {
    if f.ref in p.seen then p
    else
      var key := ListingKey(source, f.ref);
      var stored := Stored(p.listings, key, f.raw, parser);
      Pull(p.listings[key := stored],
           if key in p.listings && Drops(p.listings[key], f.raw) then Reopened(p.matches, ids(key)) else p.matches,
           p.wakes + WakesFor(key, stored), p.seen + {f.ref})
  }

  function Pulled(p: Pull, found: seq<Found>, source: string, parser: string, ids: RowIds): Pull {
    if found == [] then p
    else Sighted(Pulled(p, found[..|found| - 1], source, parser, ids), found[|found| - 1], source, parser, ids)
  }

  function Page(): seq<Found> -> seq<Found> { (page: seq<Found>) => page }

  /** The results of all wants, one want after the other. */
  function AllFound(pages: seq<seq<Found>>): seq<Found> {
    FlatMap(Page(), pages)
  }

  /** Skipped when nothing was seen. */
  function Reconciled(listings: Listings, source: string, seen: set<string>, now: int): Listings {
    if seen == {} then listings
    else map key | key in listings ::
           if key.source == source && listings[key].asking.status == Active && key.ref !in seen
           then listings[key].(asking := listings[key].asking.(status := Removed, disappearedAt := Some(now)))
           else listings[key]
  }

  /** The database after some sources, and how many listings they returned. */
  datatype Night = Night(listings: Listings, matches: Matched, wakes: seq<Wake>, total: nat)

  /** A source that raised keeps what it stored, is not reconciled and not counted. */
  function AfterSource(n: Night, s: SourcePull, ids: RowIds, now: int): Night {
    var p := Pulled(Pull(n.listings, n.matches, n.wakes, {}), AllFound(s.pages), s.source, s.version, ids);
    Night(if s.raised then p.listings else Reconciled(p.listings, s.source, p.seen, now), p.matches, p.wakes,
          if s.raised then n.total else n.total + |p.seen|)
  }

  function AfterSources(n: Night, sources: seq<SourcePull>, ids: RowIds, now: int): Night {
    if sources == [] then n
    else AfterSource(AfterSources(n, sources[..|sources| - 1], ids, now), sources[|sources| - 1], ids, now)
  }

  class ListingStore {
    var listings: Listings
    var wakes: seq<Wake>
    const ledger: WantLedger
    const ids: RowIds

    constructor (ledger: WantLedger, ids: RowIds)
      ensures listings == map[] && wakes == [] && this.ledger == ledger && this.ids == ids
    {
      listings, wakes, this.ledger, this.ids := map[], [], ledger, ids;
    }

    function View(seen: set<string>): Pull
      reads this, ledger
    {
      Pull(listings, ledger.matches, wakes, seen)
    }

    method See(f: Found, source: string, parser: string, seen: set<string>)
      requires f.ref !in seen
      modifies this, ledger
      ensures View(seen + {f.ref}) == Sighted(old(View(seen)), f, source, parser, ids)
    {
      var key := ListingKey(source, f.ref);
      var existing: OfferRow? := null;
      if key in listings {
        existing := new OfferRow(listings[key]);
      }
      var row := UpsertPrivateListing(existing, ids(key), ledger, f.raw, parser);
      listings := listings[key := row.Value()];
      if row.statuses.enrichment == Pending {
        wakes := wakes + [WakeEnricher(key)];
      } else if row.statuses.valuation == Pending {
        wakes := wakes + [WakeValuator(key)];
      }
    }

    method PullPage(page: seq<Found>, before: set<string>, source: string, parser: string) returns (seen: set<string>)
      modifies this, ledger
      ensures View(seen) == Pulled(old(View(before)), page, source, parser, ids)
    {
      seen := before;
      for n := 0 to |page|
        invariant View(seen) == Pulled(old(View(before)), page[..n], source, parser, ids)
      {
        assert page[..n + 1][..n] == page[..n];
        if page[n].ref in seen {
          continue;
        }
        See(page[n], source, parser, seen);
        seen := seen + {page[n].ref};
      }
      assert page[..|page|] == page;
    }

    method PullSource(s: SourcePull) returns (seen: set<string>)
      modifies this, ledger
      ensures View(seen) == Pulled(old(View({})), AllFound(s.pages), s.source, s.version, ids)
    {
      seen := {};
      for n := 0 to |s.pages|
        invariant View(seen) == Pulled(old(View({})), AllFound(s.pages[..n]), s.source, s.version, ids)
      {
        FlatMapNext(Page(), s.pages, n);
        PulledInTwo(old(View({})), AllFound(s.pages[..n]), s.pages[n], s.source, s.version, ids);
        seen := PullPage(s.pages[n], seen, s.source, s.version);
      }
      assert s.pages[..|s.pages|] == s.pages;
    }

    /** Each source on its own; no wants, no pull. */
    method RunListingPull(wanted: bool, sources: seq<SourcePull>, now: int) returns (total: nat)
      modifies this, ledger
      ensures Night(listings, ledger.matches, wakes, total)
              == AfterSources(old(Night(listings, ledger.matches, wakes, 0)), if wanted then sources else [], ids, now)
    {
      total := 0;
      if sources == [] || !wanted {
        return;
      }
      for n := 0 to |sources|
        invariant Night(listings, ledger.matches, wakes, total)
                  == AfterSources(old(Night(listings, ledger.matches, wakes, 0)), sources[..n], ids, now)
      {
        assert sources[..n + 1][..n] == sources[..n];
        var seen := PullSource(sources[n]);
        if sources[n].raised {
          continue;
        }
        total := total + |seen|;
        if seen != {} {
          listings := Reconciled(listings, sources[n].source, seen, now);
        }
      }
      assert sources[..|sources|] == sources;
    }
  }

  lemma {:induction false} PulledInTwo(
      p: Pull, a: seq<Found>, b: seq<Found>, source: string, parser: string, ids: RowIds)
    ensures Pulled(p, a + b, source, parser, ids)
            == Pulled(Pulled(p, a, source, parser, ids), b, source, parser, ids)
  {
    if b == [] {
      assert a + b == a;
    } else {
      PulledInTwo(p, a, b[..|b| - 1], source, parser, ids);
      assert (a + b)[..|a + b| - 1] == a + b[..|b| - 1];
    }
  }

  // ---- what a pull leaves behind ----

  /** The first result for a listing id. */
  function First(found: seq<Found>, ref: string): Option<RawListing> {
    if found == [] then None else if found[0].ref == ref then Some(found[0].raw) else First(found[1..], ref)
  }

  lemma {:induction false} FirstOfMore(found: seq<Found>, last: Found, ref: string)
    ensures First(found + [last], ref)
            == if First(found, ref).Some? then First(found, ref) else if last.ref == ref then Some(last.raw) else None
  {
    if found != [] {
      FirstOfMore(found[1..], last, ref);
      assert (found + [last])[1..] == found[1..] + [last];
    }
  }

  /** The first result for a listing, if this source returned any. */
  function FirstFor(found: seq<Found>, source: string, key: ListingKey): Option<RawListing> {
    if key.source == source then First(found, key.ref) else None
  }

  /** Each listing that turned up, for however many wants, is stored once, with its first result, and the
      stage it waits for is woken; no other listing is touched. */
  lemma {:induction false} EachSightingIsStoredOnce(
      p: Pull, found: seq<Found>, source: string, parser: string, ids: RowIds, key: ListingKey)
    requires p.seen == {}
    ensures var v, first := Pulled(p, found, source, parser, ids), FirstFor(found, source, key);
            && (key.source == source ==> (key.ref in v.seen <==> first.Some?))
            && (first.Some? ==> key in v.listings
                                && v.listings[key] == (if key in p.listings
                                                       then RelistedListing(p.listings[key], first.value, parser)
                                                       else NewListing(first.value, parser))
                                && forall wake :: wake in WakesFor(key, v.listings[key]) ==> wake in v.wakes)
            && (first.None? ==> (key in v.listings <==> key in p.listings)
                                && (key in p.listings ==> v.listings[key] == p.listings[key]))
  {
    if found != [] {
      var init, last := found[..|found| - 1], found[|found| - 1];
      EachSightingIsStoredOnce(p, init, source, parser, ids, key);
      EachSightingIsStoredOnce(p, init, source, parser, ids, ListingKey(source, last.ref));
      FirstOfMore(init, last, key.ref);
      FirstOfMore(init, last, last.ref);
      assert found == init + [last];
    }
  }

  /** An active listing that drops out of a successful pull of its source is closed at that moment, with its
      last asking price as exactly one comp for any other vehicle whose band it fits. */
  lemma DisappearedBecomesAComp(p: Pull, found: seq<Found>, source: string, parser: string, ids: RowIds, now: int,
                                ref: string, id: int, auctionId: int, q: CompQuery)
    requires p.seen == {} && ListingKey(source, ref) in p.listings
    requires var o := p.listings[ListingKey(source, ref)]; o.kind == PrivateListing && o.asking.status == Active
    requires found != [] && First(found, ref).None?
    ensures var o, v := p.listings[ListingKey(source, ref)], Pulled(p, found, source, parser, ids);
            var after := Reconciled(v.listings, source, v.seen, now);
            && ListingKey(source, ref) in after
            && var gone := after[ListingKey(source, ref)];
            && gone == o.(asking := o.asking.(status := Removed, disappearedAt := Some(now)))
            && CompOfListing(StoredOffer(id, gone, auctionId), q, now)
               == if id != q.excludeId && InBand(o.facts, q) && o.asking.price.Some?
                  then [ComparableSale(o.asking.price.value, "private", o.facts.year, o.facts.mileageKm,
                                       FromPrivateListings)]
                  else []
  {
    EachSightingIsStoredOnce(p, found, source, parser, ids, ListingKey(source, ref));
    EachSightingIsStoredOnce(p, found, source, parser, ids, ListingKey(source, found[0].ref));
  }

  /** After a successful pull the source's active listings are those seen in it as active; the listings of
      other sources are as they were. */
  lemma ActiveMeansSeen(p: Pull, found: seq<Found>, source: string, parser: string, ids: RowIds, now: int,
                        key: ListingKey)
    requires p.seen == {} && found != []
    ensures var v := Pulled(p, found, source, parser, ids);
            var after := Reconciled(v.listings, source, v.seen, now);
            if key.source == source
            then key in after && after[key].asking.status == Active
                 <==> First(found, key.ref).Some? && First(found, key.ref).value.status == Active
            else (key in after <==> key in p.listings) && (key in after ==> after[key] == p.listings[key])
  {
    EachSightingIsStoredOnce(p, found, source, parser, ids, key);
    EachSightingIsStoredOnce(p, found, source, parser, ids, ListingKey(source, found[0].ref));
    if FirstFor(found, source, key).Some? {
      StoredTakesTheScrapedStatus(p.listings, key, First(found, key.ref).value, parser);
    }
  }

  lemma StoredTakesTheScrapedStatus(listings: Listings, key: ListingKey, raw: RawListing, parser: string)
    ensures Stored(listings, key, raw, parser).asking.status == raw.status
  {
  }

  // ---- wakeups, and pulls that break off ----

  /** A listing that turned up wakes the enricher if it waits for enrichment, else the valuator if it waits for
      valuation. */
  lemma SightingsAreWoken(p: Pull, found: seq<Found>, source: string, parser: string, ids: RowIds, ref: string)
    requires p.seen == {} && First(found, ref).Some?
    ensures var v, key := Pulled(p, found, source, parser, ids), ListingKey(source, ref);
            && key in v.listings
            && var s := v.listings[key].statuses;
            && (s.enrichment == Pending ==> WakeEnricher(key) in v.wakes)
            && (s.enrichment != Pending && s.valuation == Pending ==> WakeValuator(key) in v.wakes)
  {
    var key := ListingKey(source, ref);
    EachSightingIsStoredOnce(p, found, source, parser, ids, key);
    var o := Pulled(p, found, source, parser, ids).listings[key];
    if o.statuses.enrichment == Pending {
      assert WakeEnricher(key) in WakesFor(key, o);
    } else if o.statuses.valuation == Pending {
      assert WakeValuator(key) in WakesFor(key, o);
    }
  }

  /** The re-opened matches are those of the listings that turned up at a lower price. */
  lemma {:induction false} PullReopensExactly(
      p: Pull, found: seq<Found>, source: string, parser: string, ids: RowIds, k: Key)
    requires p.seen == {} && k in p.matches
    requires forall x, y: ListingKey :: ids(x) == ids(y) ==> x == y
    ensures var v := Pulled(p, found, source, parser, ids);
            && k in v.matches && v.matches[k].score == p.matches[k].score
            && v.matches[k].dismissed == p.matches[k].dismissed
            && (v.matches[k].notifiedAt == p.matches[k].notifiedAt || v.matches[k].notifiedAt.None?)
            && (v.matches[k].notifiedAt != p.matches[k].notifiedAt ==>
                  !p.matches[k].dismissed && exists ref :: Lowered(p, found, source, ids, ref, k.lot))
            && (forall ref :: Lowered(p, found, source, ids, ref, k.lot) && !p.matches[k].dismissed ==>
                  v.matches[k].notifiedAt.None?)
  {
    if found != [] {
      var init, last := found[..|found| - 1], found[|found| - 1];
      assert found == init + [last];
      PullReopensExactly(p, init, source, parser, ids, k);
      LoweredNext(p, init, last, source, parser, ids, k.lot);
    }
  }

  /** The listing `ref` with row id `lot` was stored before, and its first result asks less. */
  predicate Lowered(p: Pull, found: seq<Found>, source: string, ids: RowIds, ref: string, lot: int) {
    var key, first := ListingKey(source, ref), First(found, ref);
    && ids(key) == lot && key in p.listings && first.Some? && first.value.asking.Some?
    && p.listings[key].asking.price.Some? && first.value.asking.value < p.listings[key].asking.price.value
  }

  lemma LoweredNext(p: Pull, init: seq<Found>, last: Found, source: string, parser: string, ids: RowIds, lot: int)
    requires p.seen == {}
    ensures var mid, key := Pulled(p, init, source, parser, ids), ListingKey(source, last.ref);
            && (last.ref in mid.seen <==> First(init, last.ref).Some?)
            && (last.ref !in mid.seen ==> (key in mid.listings <==> key in p.listings)
                                          && (key in p.listings ==> mid.listings[key] == p.listings[key]))
    ensures forall ref :: Lowered(p, init + [last], source, ids, ref, lot)
                          <==> Lowered(p, init, source, ids, ref, lot)
                               || (ref == last.ref && First(init, ref).None?
                                   && Lowered(p, [last], source, ids, ref, lot))
  {
    EachSightingIsStoredOnce(p, init, source, parser, ids, ListingKey(source, last.ref));
    forall ref ensures First(init + [last], ref)
                       == if First(init, ref).Some? then First(init, ref)
                          else if last.ref == ref then Some(last.raw) else None {
      FirstOfMore(init, last, ref);
    }
  }

  /** A source that raised closes no listing and adds nothing to the total; one that did not adds the number of
      listings it returned. */
  lemma RaisedPullsCloseNothing(n: Night, s: SourcePull, ids: RowIds, now: int, key: ListingKey)
    requires s.raised && key in n.listings && key.source == s.source && First(AllFound(s.pages), key.ref).None?
    ensures var v := AfterSource(n, s, ids, now);
            v.total == n.total && key in v.listings && v.listings[key] == n.listings[key]
  {
    EachSightingIsStoredOnce(Pull(n.listings, n.matches, n.wakes, {}), AllFound(s.pages), s.source, s.version,
                             ids, key);
  }

  lemma {:induction false} SeenAreTheFound(p: Pull, found: seq<Found>, source: string, parser: string, ids: RowIds)
    ensures Pulled(p, found, source, parser, ids).seen == p.seen + (set f | f in found :: f.ref)
  {
    if found != [] {
      var init, last := found[..|found| - 1], found[|found| - 1];
      assert found == init + [last];
      SeenAreTheFound(p, init, source, parser, ids);
      assert (set f | f in found :: f.ref) == (set f | f in init :: f.ref) + {last.ref};
    }
  }

  lemma TotalCountsTheFound(n: Night, s: SourcePull, ids: RowIds, now: int)
    ensures AfterSource(n, s, ids, now).total
            == n.total + if s.raised then 0 else |set f | f in AllFound(s.pages) :: f.ref|
  {
    var p := Pull(n.listings, n.matches, n.wakes, {});
    SeenAreTheFound(p, AllFound(s.pages), s.source, s.version, ids);
    assert {} + (set f | f in AllFound(s.pages) :: f.ref) == set f | f in AllFound(s.pages) :: f.ref;
  }
}
