/** The want-match ledger over whole runs: every alert fires once, and only a price drop re-opens it
    (apps/notifier/notifier.py, apps/digest/digest.py, db/upserts.py, wants/repo.py).
    Each transaction is one step; a post and its stamp are one step too. */
module FireOnce {
  import opened Base
  import opened Folds
  import opened Offers
  import opened Pricing
  import opened Upserts
  import opened Ledger
  import opened Valuator
  import opened Notifier
  import opened Digest

  /** The record of what reached Discord, and of which price drops happened. */
  datatype Entry = Delivered(key: Key) | Reopening(lot: int)

  datatype World = World(offers: OfferTable, wants: seq<Want>, matches: Matched, log: seq<Entry>)

  datatype Event =
    | OfferInserted(lot: int, offer: Offer)
    /** Any write to an offer by a worker that leaves its drop count alone. */
    | OfferWritten(lot: int, offer: Offer)
    | ListingSeen(lot: int, raw: RawListing, parser: string)
    | OfferEvaluated(lot: int, province: Option<string>)
    | WantBackfilled(want: nat, candidates: seq<Candidate>)
    | OfferNotified(terms: Option<AuctionTerms>, context: Context, rows: seq<Key>, ts: seq<TriggerPost>,
                    posting: Posting, max: nat)
    | DigestRun(digest: seq<DigestRow>, configured: bool, accepted: bool, now: int)
    | MatchDismissed(key: Key)
    | WantsEdited(wants: seq<Want>)

  ghost predicate Possible(w: World, e: Event) {
    match e
    case OfferInserted(lot, offer) => lot !in w.offers && offer.asking.drops == 0
    case OfferWritten(lot, offer) => lot in w.offers && offer.asking.drops == w.offers[lot].asking.drops
    case ListingSeen(lot, _, _) => lot in w.offers
    case OfferEvaluated(lot, _) => lot in w.offers
    case WantBackfilled(want, rows) =>
      want < |w.wants| && forall i :: 0 <= i < |rows| ==> rows[i].lot in w.offers
    case OfferNotified(_, c, rows, _, _, _) =>
      c.wants == w.wants && c.id in w.offers && IsAlertQuery(w.wants, w.matches, c.id, rows)
    case DigestRun(rows, _, _, _) => IsDigestQuery(w.wants, w.matches, rows)
    case MatchDismissed(_) => true
    case WantsEdited(_) => true
  }

  /** The keys an event delivers. */
  function DeliveredBy(w: World, e: Event): seq<Key>
    requires e.OfferNotified? ==> e.context.id in w.offers
  {
    match e
    case OfferNotified(terms, c, rows, _, p, _) =>
      var o := w.offers[c.id];
      if o.kind == AuctionLot && terms.None? then []
      else StampedKeys(FlatMap(Alerting(o, c, terms), rows), p)
    case DigestRun(rows, configured, accepted, _) => if configured && accepted then Keys(rows) else []
    case _ => []
  }

  function Entries(keys: seq<Key>): seq<Entry> {
    Map((k: Key) => Delivered(k), keys)
  }

  ghost function After(w: World, e: Event): World
    requires Possible(w, e)
  {
    match e
    case OfferInserted(lot, offer) => w.(offers := w.offers[lot := offer])
    case OfferWritten(lot, offer) => w.(offers := w.offers[lot := offer])
    case ListingSeen(lot, raw, parser) =>
      var next := w.(offers := w.offers[lot := RelistedListing(w.offers[lot], raw, parser)]);
      if Drops(w.offers[lot], raw)
      then next.(matches := Reopened(w.matches, lot), log := w.log + [Reopening(lot)]) else next
    case OfferEvaluated(lot, province) =>
      w.(matches := Evaluated(w.offers, w.wants, w.matches, lot, province, |w.wants|))
    case WantBackfilled(want, rows) =>
      if w.wants[want].criteria.None? then w
      else w.(matches := Backfilled(w.offers, want, w.wants[want].criteria.value, w.matches, rows))
    case OfferNotified(terms, c, rows, ts, p, max) =>
      var r := AfterNotification(w.offers[c.id], terms, c, rows, ts, p, w.matches, max);
      w.(offers := w.offers[c.id := r.row], matches := r.matches, log := w.log + Entries(DeliveredBy(w, e)))
    case DigestRun(rows, configured, accepted, now) =>
      w.(matches := Stamped(w.matches, DeliveredBy(w, e), now), log := w.log + Entries(DeliveredBy(w, e)))
    case MatchDismissed(key) => w.(matches := Dismissed(w.matches, key))
    case WantsEdited(wants) => w.(wants := wants)
  }

  ghost predicate Step(w: World, e: Event, v: World) {
    Possible(w, e) && v == After(w, e)
  }

  /** A run from the empty database. */
  ghost predicate Run(worlds: seq<World>, events: seq<Event>) {
    && |worlds| == |events| + 1
    && worlds[0] == World(map[], [], map[], [])
    && forall n :: 0 <= n < |events| ==> Step(worlds[n], events[n], worlds[n + 1])
  }

  // ---- counting the log ----

  ghost function Deliveries(log: seq<Entry>, k: Key): nat {
    multiset(log)[Delivered(k)]
  }

  ghost function Reopenings(log: seq<Entry>, lot: int): nat {
    multiset(log)[Reopening(lot)]
  }

  /** The i-th entry delivers `k`, and no drop of its offer came later. */
  ghost predicate DeliveredAt(log: seq<Entry>, k: Key, i: nat) {
    i < |log| && log[i] == Delivered(k) && Reopening(k.lot) !in log[i..]
  }

  ghost predicate DeliveredSinceDrop(log: seq<Entry>, k: Key) {
    exists i: nat :: DeliveredAt(log, k, i)
  }

  lemma {:induction false} EntriesCount(keys: seq<Key>, k: Key, lot: int)
    requires NoRepeats(keys)
    ensures Deliveries(Entries(keys), k) == if k in keys then 1 else 0
    ensures Reopenings(Entries(keys), lot) == 0
  {
    if keys != [] {
      EntriesCount(keys[1..], k, lot);
      assert Entries(keys) == [Delivered(keys[0])] + Entries(keys[1..]);
    }
  }

  lemma DeliveryRecorded(log: seq<Entry>, keys: seq<Key>, k: Key)
    requires k in keys || DeliveredSinceDrop(log, k)
    ensures DeliveredSinceDrop(log + Entries(keys), k)
  {
    var longer := log + Entries(keys);
    if k in keys {
      var j :| 0 <= j < |keys| && keys[j] == k;
      assert longer[|log| + j..] == Entries(keys)[j..];
      assert DeliveredAt(longer, k, |log| + j);
    } else {
      var i: nat :| DeliveredAt(log, k, i);
      assert longer[i..] == log[i..] + Entries(keys);
      assert DeliveredAt(longer, k, i);
    }
  }

  lemma OtherDropIsIrrelevant(log: seq<Entry>, lot: int, k: Key)
    requires k.lot != lot && DeliveredSinceDrop(log, k)
    ensures DeliveredSinceDrop(log + [Reopening(lot)], k)
  {
    var i: nat :| DeliveredAt(log, k, i);
    assert (log + [Reopening(lot)])[i..] == log[i..] + [Reopening(lot)];
    assert DeliveredAt(log + [Reopening(lot)], k, i);
  }

  /** And back: what stands as delivered after the entries was among them or stood before. */
  lemma DeliveryWasRecorded(log: seq<Entry>, keys: seq<Key>, k: Key)
    requires DeliveredSinceDrop(log + Entries(keys), k)
    ensures k in keys || DeliveredSinceDrop(log, k)
  {
    var longer := log + Entries(keys);
    var i: nat :| DeliveredAt(longer, k, i);
    if i < |log| {
      assert longer[i..] == log[i..] + Entries(keys);
      assert DeliveredAt(log, k, i);
    }
  }

  lemma DropClosesDelivery(log: seq<Entry>, lot: int, k: Key)
    requires DeliveredSinceDrop(log + [Reopening(lot)], k)
    ensures k.lot != lot && DeliveredSinceDrop(log, k)
  {
    var longer := log + [Reopening(lot)];
    var i: nat :| DeliveredAt(longer, k, i);
    assert i < |log| && longer[i..] == log[i..] + [Reopening(lot)];
    assert DeliveredAt(log, k, i);
  }

  lemma StandingIsCounted(log: seq<Entry>, k: Key)
    ensures DeliveredSinceDrop(log, k) ==> Deliveries(log, k) > 0
  {
    if i: nat :| DeliveredAt(log, k, i) {
      assert log[i] in multiset(log);
    }
  }

  // ---- the invariant ----

  ghost predicate MatchSound(w: World, k: Key)
    requires k in w.matches
  {
    && k.lot in w.offers
    && Deliveries(w.log, k) <= w.offers[k.lot].asking.drops + (if w.matches[k].notifiedAt.Some? then 1 else 0)
    && (w.matches[k].notifiedAt.Some? ==> Deliveries(w.log, k) > 0)
    && (w.matches[k].notifiedAt.Some? && !w.matches[k].dismissed ==> DeliveredSinceDrop(w.log, k))
    && (DeliveredSinceDrop(w.log, k) ==> w.matches[k].notifiedAt.Some?)
  }

  ghost predicate Sound(w: World) {
    && (forall k :: k in w.matches ==> MatchSound(w, k))
    && (forall k :: k !in w.matches ==> Deliveries(w.log, k) == 0)
    && (forall lot :: Reopenings(w.log, lot) == if lot in w.offers then w.offers[lot].asking.drops else 0)
  }

  lemma DropIsCounted(o: Offer, raw: RawListing, parser: string)
    ensures RelistedListing(o, raw, parser).asking.drops == o.asking.drops + (if Drops(o, raw) then 1 else 0)
  {
  }

  lemma SeenKeepsMatch(w: World, e: Event, k: Key)
    requires Possible(w, e) && e.ListingSeen? && k in w.matches && MatchSound(w, k)
    ensures k in After(w, e).matches && MatchSound(After(w, e), k)
  {
    DropIsCounted(w.offers[e.lot], e.raw, e.parser);
    if Drops(w.offers[e.lot], e.raw) {
      if k.lot != e.lot && DeliveredSinceDrop(w.log, k) {
        OtherDropIsIrrelevant(w.log, e.lot, k);
      }
      if DeliveredSinceDrop(w.log + [Reopening(e.lot)], k) {
        DropClosesDelivery(w.log, e.lot, k);
      }
    }
  }

  lemma SeenKeepsSound(w: World, e: Event)
    requires Sound(w) && Possible(w, e) && e.ListingSeen?
    ensures Sound(After(w, e))
  {
    DropIsCounted(w.offers[e.lot], e.raw, e.parser);
    forall k | k in w.matches ensures k in After(w, e).matches && MatchSound(After(w, e), k) {
      SeenKeepsMatch(w, e, k);
    }
  }

  lemma DeliveryKeepsSound(w: World, v: World, keys: seq<Key>, now: int)
    requires Sound(w) && NoRepeats(keys)
    requires forall k :: k in keys ==> k in w.matches && w.matches[k].notifiedAt.None?
    requires v.matches == Stamped(w.matches, keys, now) && v.log == w.log + Entries(keys)
    requires v.offers.Keys == w.offers.Keys
    requires forall lot :: lot in w.offers ==> v.offers[lot].asking.drops == w.offers[lot].asking.drops
    ensures Sound(v)
  {
    forall k ensures if k in v.matches then MatchSound(v, k) else Deliveries(v.log, k) == 0 {
      EntriesCount(keys, k, 0);
      if k in v.matches {
        assert MatchSound(w, k);
        if k in keys || DeliveredSinceDrop(w.log, k) {
          DeliveryRecorded(w.log, keys, k);
        }
        if DeliveredSinceDrop(v.log, k) {
          DeliveryWasRecorded(w.log, keys, k);
        }
      }
    }
    forall lot ensures Reopenings(v.log, lot) == Reopenings(w.log, lot) {
      EntriesCount(keys, Key(0, 0), lot);
    }
  }

  /** Writing matches un-notified, or keeping their stamps, keeps the books. */
  ghost predicate OnlyRescored(w: World, m: Matched) {
    && (forall k :: k in w.matches ==>
          k in m && m[k].notifiedAt == w.matches[k].notifiedAt && m[k].dismissed == w.matches[k].dismissed)
    && (forall k :: k in m && k !in w.matches ==> k.lot in w.offers && m[k].notifiedAt.None?)
  }

  lemma RescoringKeepsSound(w: World, m: Matched)
    requires Sound(w) && OnlyRescored(w, m)
    ensures Sound(w.(matches := m))
  {
    forall k | k in m ensures MatchSound(w.(matches := m), k) {
      if k in w.matches {
        assert MatchSound(w, k);
      } else {
        StandingIsCounted(w.log, k);
      }
    }
  }

  lemma UpsertOnlyRescores(w: World, m: Matched, k: Key, score: Option<real>)
    requires OnlyRescored(w, m) && k.lot in w.offers
    ensures OnlyRescored(w, Upserted(w.offers, m, k, score))
  {
  }

  lemma {:induction false} EvaluationOnlyRescores(w: World, lot: int, province: Option<string>, n: nat)
    requires lot in w.offers && n <= |w.wants|
    ensures OnlyRescored(w, Evaluated(w.offers, w.wants, w.matches, lot, province, n))
  {
    if n > 0 {
      EvaluationOnlyRescores(w, lot, province, n - 1);
      var o, prev := w.offers[lot], Evaluated(w.offers, w.wants, w.matches, lot, province, n - 1);
      UpsertOnlyRescores(w, prev, Key(n - 1, lot), WantScore(o.appraisal, Price(o)));
    }
  }

  lemma {:induction false} BackfillOnlyRescores(w: World, want: nat, rows: seq<Candidate>)
    requires want < |w.wants| && w.wants[want].criteria.Some?
    requires forall i :: 0 <= i < |rows| ==> rows[i].lot in w.offers
    ensures OnlyRescored(w, Backfilled(w.offers, want, w.wants[want].criteria.value, w.matches, rows))
  {
    if rows != [] {
      BackfillOnlyRescores(w, want, rows[..|rows| - 1]);
      var last := rows[|rows| - 1];
      var o, prev := w.offers[last.lot],
                     Backfilled(w.offers, want, w.wants[want].criteria.value, w.matches, rows[..|rows| - 1]);
      UpsertOnlyRescores(w, prev, Key(want, last.lot), WantScore(o.appraisal, Price(o)));
    }
  }

  /** What an event delivers was outstanding, each match once. */
  lemma DeliveriesAreOutstanding(w: World, e: Event)
    requires Possible(w, e)
    ensures NoRepeats(DeliveredBy(w, e))
    ensures forall k :: k in DeliveredBy(w, e) ==> Outstanding(w.wants, w.matches, k)
  {
    if e.OfferNotified? {
      StampedOnce(w.offers[e.context.id], e.context, e.terms, e.rows, e.posting);
    }
  }

  lemma NotificationKeepsSound(w: World, e: Event)
    requires Sound(w) && Possible(w, e) && e.OfferNotified?
    ensures Sound(After(w, e))
  {
    DeliveriesAreOutstanding(w, e);
    StampNothing(w.matches, e.posting.now);
    DeliveryKeepsSound(w, After(w, e), DeliveredBy(w, e), e.posting.now);
  }

  lemma OtherStepsKeepSound(w: World, e: Event)
    requires Sound(w) && Possible(w, e)
    requires e.OfferInserted? || e.OfferWritten? || e.MatchDismissed? || e.WantsEdited?
    ensures Sound(After(w, e))
  {
    var v := After(w, e);
    forall k | k in v.matches ensures MatchSound(v, k) {
      assert MatchSound(w, k);
    }
  }

  lemma StepKeepsSound(w: World, e: Event)
    requires Sound(w) && Possible(w, e)
    ensures Sound(After(w, e))
  {
    match e
    case ListingSeen(_, _, _) => SeenKeepsSound(w, e);
    case OfferNotified(_, _, _, _, _, _) => NotificationKeepsSound(w, e);
    case DigestRun(_, _, _, now) =>
      DeliveriesAreOutstanding(w, e);
      DeliveryKeepsSound(w, After(w, e), DeliveredBy(w, e), now);
    case OfferEvaluated(lot, province) =>
      EvaluationOnlyRescores(w, lot, province, |w.wants|);
      RescoringKeepsSound(w, After(w, e).matches);
    case WantBackfilled(want, rows) =>
      if w.wants[want].criteria.Some? {
        BackfillOnlyRescores(w, want, rows);
        RescoringKeepsSound(w, After(w, e).matches);
      }
    case _ => OtherStepsKeepSound(w, e);
  }

  lemma {:induction false} EveryRunIsSound(worlds: seq<World>, events: seq<Event>, n: nat)
    requires Run(worlds, events) && n <= |events|
    ensures Sound(worlds[n])
  {
    if n > 0 {
      EveryRunIsSound(worlds, events, n - 1);
      assert Step(worlds[n - 1], events[n - 1], worlds[n]);
      StepKeepsSound(worlds[n - 1], events[n - 1]);
    }
  }

  // ---- the main results ----

  /** Over every run, a match is delivered at most once more often than its offer's price dropped, and
      not more often than it dropped while the stamp is open; a stamp is present only after a delivery,
      on a match that was not dismissed only after one since the last drop, and it stands after every such one. */
  lemma FiresOncePerDrop(worlds: seq<World>, events: seq<Event>, n: nat, k: Key)
    requires Run(worlds, events) && n <= |events|
    ensures var w := worlds[n];
            if k !in w.matches then Deliveries(w.log, k) == 0
            else
              && k.lot in w.offers
              && w.offers[k.lot].asking.drops == Reopenings(w.log, k.lot)
              && Deliveries(w.log, k) <= w.offers[k.lot].asking.drops + (if w.matches[k].notifiedAt.Some? then 1 else 0)
              && (w.matches[k].notifiedAt.Some? ==> Deliveries(w.log, k) > 0)
              && (w.matches[k].notifiedAt.Some? && !w.matches[k].dismissed ==> DeliveredSinceDrop(w.log, k))
              && (DeliveredSinceDrop(w.log, k) ==> w.matches[k].notifiedAt.Some?)
  {
    EveryRunIsSound(worlds, events, n);
    if k in worlds[n].matches {
      assert MatchSound(worlds[n], k);
    }
  }

  /** A step that delivers a match delivers it once, stamps it, and finds it un-notified, not dismissed
      and its want enabled; every other step leaves its count alone. */
  lemma DeliversOnlyWhatIsDue(worlds: seq<World>, events: seq<Event>, n: nat, k: Key)
    requires Run(worlds, events) && n < |events|
    ensures var w, v := worlds[n], worlds[n + 1];
            && Deliveries(v.log, k) - Deliveries(w.log, k) in {0, 1}
            && (Deliveries(v.log, k) != Deliveries(w.log, k) ==>
                  && k in w.matches && w.matches[k].notifiedAt.None? && !w.matches[k].dismissed
                  && k.search < |w.wants| && w.wants[k.search].enabled
                  && k in v.matches && v.matches[k].notifiedAt.Some?)
  {
    var w, e := worlds[n], events[n];
    assert Step(w, e, worlds[n + 1]);
    DeliveriesAreOutstanding(w, e);
    EntriesCount(DeliveredBy(w, e), k, 0);
  }

  /** A step that delivers a match finds it undelivered since its offer's last drop. */
  lemma DeliversOnlyOnceSinceADrop(worlds: seq<World>, events: seq<Event>, n: nat, k: Key)
    requires Run(worlds, events) && n < |events|
    ensures Deliveries(worlds[n + 1].log, k) != Deliveries(worlds[n].log, k) ==>
              !DeliveredSinceDrop(worlds[n].log, k) && DeliveredSinceDrop(worlds[n + 1].log, k)
  {
    var w, e := worlds[n], events[n];
    assert Step(w, e, worlds[n + 1]);
    EveryRunIsSound(worlds, events, n);
    DeliveriesAreOutstanding(w, e);
    EntriesCount(DeliveredBy(w, e), k, 0);
    if k in DeliveredBy(w, e) {
      DeliveryRecorded(w.log, DeliveredBy(w, e), k);
      assert MatchSound(w, k);
    }
  }

  /** Between any two deliveries of one match stands a price drop of its offer. */
  ghost predicate Alternates(log: seq<Entry>) {
    forall k, i, j :: 0 <= i < j < |log| && log[i] == Delivered(k) && log[j] == Delivered(k) ==>
      Reopening(k.lot) in log[i..j]
  }

  lemma LoggedOnce(log: seq<Entry>, keys: seq<Key>, k: Key, j: nat)
    requires NoRepeats(keys) && |log| <= j < |log| + |keys| && (log + Entries(keys))[j] == Delivered(k)
    ensures k in keys && forall i :: |log| <= i < j ==> (log + Entries(keys))[i] != Delivered(k)
  {
    assert keys[j - |log|] == k;
    forall i | |log| <= i < j ensures (log + Entries(keys))[i] != Delivered(k) {
      assert (log + Entries(keys))[i] == Delivered(keys[i - |log|]);
    }
  }

  lemma DeliveriesKeepAlternating(log: seq<Entry>, keys: seq<Key>)
    requires Alternates(log) && NoRepeats(keys)
    requires forall k :: k in keys ==> !DeliveredSinceDrop(log, k)
    ensures Alternates(log + Entries(keys))
  {
    var longer := log + Entries(keys);
    forall k, i, j | 0 <= i < j < |longer| && longer[i] == Delivered(k) && longer[j] == Delivered(k)
      ensures Reopening(k.lot) in longer[i..j]
    {
      if j < |log| {
        assert longer[i..j] == log[i..j];
      } else {
        LoggedOnce(log, keys, k, j);
        assert DeliveredAt(log, k, i) ==> DeliveredSinceDrop(log, k);
        assert longer[i..j] == log[i..] + longer[|log|..j];
      }
    }
  }

  lemma DropKeepsAlternating(log: seq<Entry>, lot: int)
    requires Alternates(log)
    ensures Alternates(log + [Reopening(lot)])
  {
    var longer := log + [Reopening(lot)];
    forall k, i, j | 0 <= i < j < |longer| && longer[i] == Delivered(k) && longer[j] == Delivered(k)
      ensures Reopening(k.lot) in longer[i..j]
    {
      assert longer[i..j] == log[i..j];
    }
  }

  lemma StepKeepsAlternating(w: World, e: Event)
    requires Sound(w) && Alternates(w.log) && Possible(w, e)
    ensures Alternates(After(w, e).log)
  {
    if e.ListingSeen? {
      DropKeepsAlternating(w.log, e.lot);
    } else if e.OfferNotified? || e.DigestRun? {
      DeliveriesAreOutstanding(w, e);
      forall k | k in DeliveredBy(w, e) ensures !DeliveredSinceDrop(w.log, k) {
        assert MatchSound(w, k);
      }
      DeliveriesKeepAlternating(w.log, DeliveredBy(w, e));
    }
  }

  /** Every alert fires once, and only a price drop re-opens it: over every run, between any two deliveries
      of one match its offer's price dropped. */
  lemma {:induction false} BetweenDeliveriesThePriceDropped(worlds: seq<World>, events: seq<Event>, n: nat)
    requires Run(worlds, events) && n <= |events|
    ensures Alternates(worlds[n].log)
  {
    if n > 0 {
      BetweenDeliveriesThePriceDropped(worlds, events, n - 1);
      EveryRunIsSound(worlds, events, n - 1);
      assert Step(worlds[n - 1], events[n - 1], worlds[n]);
      StepKeepsAlternating(worlds[n - 1], events[n - 1]);
    }
  }
}
