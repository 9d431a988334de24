/** Delivering instant want alerts and deciding a notification's outcome (apps/notifier/notifier.py).
    A Discord post is an arbitrary yes or no. */
module Notifier {
  import opened Base
  import opened Folds
  import opened Offers
  import opened Pricing
  import opened Matcher
  import opened Stages
  import opened Ledger
  import opened Valuator

  datatype WantAlert = WantAlert(key: Key, tier: Tier)

  ghost predicate NoRepeats(keys: seq<Key>) {
    forall i, j :: 0 <= i < j < |keys| ==> keys[i] != keys[j]
  }

  /** What the alert query returns: the offer's outstanding matches, each once, in any order. */
  ghost predicate IsAlertQuery(wants: seq<Want>, m: Matched, lot: int, rows: seq<Key>) {
    NoRepeats(rows) && forall k :: k in rows <==> Outstanding(wants, m, k) && k.lot == lot
  }

  /** The tier of an offer's alerts, scored afresh. */
  function AlertTier(o: Offer, c: Context, t: Option<AuctionTerms>): Tier {
    DeliveryTier(WantScore(o.appraisal, Price(o)), Price(o), PreviousAsking(o), EndOf(t), c.delivery)
  }

  /** At most one alert for a match: none when the config is invalid or no longer accepts the offer. */
  function AlertOf(o: Offer, c: Context, t: Option<AuctionTerms>, k: Key): seq<WantAlert> {
    if k.search < |c.wants| && Accepts(c.wants[k.search], o, ProvinceOf(o, t))
    then [WantAlert(k, AlertTier(o, c, t))]
    else []
  }

  function Alerting(o: Offer, c: Context, t: Option<AuctionTerms>): Key -> seq<WantAlert> {
    (k: Key) => AlertOf(o, c, t, k)
  }

  method LoadWantAlerts(o: Offer, c: Context, t: Option<AuctionTerms>, rows: seq<Key>) returns (alerts: seq<WantAlert>)
    ensures alerts == FlatMap(Alerting(o, c, t), rows)
  {
    alerts := [];
    for n := 0 to |rows|
      invariant alerts == FlatMap(Alerting(o, c, t), rows[..n])
    {
      FlatMapNext(Alerting(o, c, t), rows, n);
      alerts := alerts + AlertOf(o, c, t, rows[n]);
    }
    assert rows[..|rows|] == rows;
  }

  /** The conditions of one pass over Discord: `accepted` are the matches whose post succeeds if made. */
  datatype Posting = Posting(quiet: bool, configured: bool, accepted: set<Key>, now: int)

  predicate Sendable(a: WantAlert, p: Posting) {
    a.tier == Instant && !p.quiet && p.configured
  }

  function Stamping(p: Posting): WantAlert -> seq<Key> {
    (a: WantAlert) => if Sendable(a, p) && a.key in p.accepted then [a.key] else []
  }

  function StampedKeys(alerts: seq<WantAlert>, p: Posting): seq<Key> {
    FlatMap(Stamping(p), alerts)
  }

  predicate AnySent(alerts: seq<WantAlert>, p: Posting) {
    exists i :: 0 <= i < |alerts| && Sendable(alerts[i], p)
  }

  predicate AnyRefused(alerts: seq<WantAlert>, p: Posting) {
    exists i :: 0 <= i < |alerts| && Sendable(alerts[i], p) && alerts[i].key !in p.accepted
  }

  method PostWantAlerts(alerts: seq<WantAlert>, p: Posting)
      returns (attempted: bool, succeeded: bool, failed: bool, stamped: seq<Key>)
    ensures stamped == StampedKeys(alerts, p) && succeeded == (stamped != [])
    ensures attempted == AnySent(alerts, p) && failed == AnyRefused(alerts, p)
  {
    attempted, succeeded, failed, stamped := false, false, false, [];
    for n := 0 to |alerts|
      invariant stamped == StampedKeys(alerts[..n], p) && succeeded == (stamped != [])
      invariant attempted == AnySent(alerts[..n], p) && failed == AnyRefused(alerts[..n], p)
    {
      var alert := alerts[n];
      FlatMapNext(Stamping(p), alerts, n);
      AnyNext(alerts, p, n);
      if alert.tier != Instant || p.quiet {
        continue;
      }
      if !p.configured {
        continue;
      }
      attempted := true;
      if alert.key in p.accepted {
        succeeded := true;
        stamped := stamped + [alert.key];
      } else {
        failed := true;
      }
    }
    assert alerts[..|alerts|] == alerts;
  }

  lemma AnyNext(alerts: seq<WantAlert>, p: Posting, n: nat)
    requires n < |alerts|
    ensures AnySent(alerts[..n + 1], p) <==> AnySent(alerts[..n], p) || Sendable(alerts[n], p)
    ensures AnyRefused(alerts[..n + 1], p)
            <==> AnyRefused(alerts[..n], p) || (Sendable(alerts[n], p) && alerts[n].key !in p.accepted)
  {
    var s, t := alerts[..n], alerts[..n + 1];
    assert t == s + [alerts[n]] && t[n] == alerts[n];
    assert forall i :: 0 <= i < n ==> t[i] == s[i];
  }

  // ---- one claimed row ----

  /** An auction trigger's post (closing soon, lot extended): is its channel set up, is it accepted. */
  datatype TriggerPost = TriggerPost(configured: bool, accepted: bool)

  predicate AnyTriggerSent(ts: seq<TriggerPost>) {
    exists i :: 0 <= i < |ts| && ts[i].configured
  }

  predicate AnyTriggerDelivered(ts: seq<TriggerPost>) {
    exists i :: 0 <= i < |ts| && ts[i].configured && ts[i].accepted
  }

  /** Missing channels are no delivery failure: they end the row without using up an attempt. */
  function NotifiedRow(attempts: nat, nothing: bool, attempted: bool, succeeded: bool, wantFailed: bool,
                       max: nat): StageRow
  {
    if nothing then Row(Skipped, attempts)
    else if succeeded then (if wantFailed then Retried(attempts, false, max) else Row(Done, attempts))
    else if !attempted then Row(Skipped, attempts)
    else Retried(attempts, false, max)
  }

  function NotifiedAs(o: Offer, alerts: seq<WantAlert>, ts: seq<TriggerPost>, p: Posting, max: nat): StageRow {
    NotifiedRow(o.attempts.notification, ts == [] && alerts == [],
                AnyTriggerSent(ts) || AnySent(alerts, p),
                AnyTriggerDelivered(ts) || StampedKeys(alerts, p) != [], AnyRefused(alerts, p), max)
  }

  /** A lot whose auction row is gone is left where it is. */
  function AfterNotification(o: Offer, t: Option<AuctionTerms>, c: Context, rows: seq<Key>, ts: seq<TriggerPost>,
                             p: Posting, before: Matched, max: nat): Outcomes
  {
    if o.kind == AuctionLot && t.None? then Outcomes(o, before)
    else
      var alerts := FlatMap(Alerting(o, c, t), rows);
      Outcomes(WithNotification(o, NotifiedAs(o, alerts, ts, p, max)), Stamped(before, StampedKeys(alerts, p), p.now))
  }

  method PostTriggers(ts: seq<TriggerPost>) returns (attempted: bool, succeeded: bool)
    ensures attempted == AnyTriggerSent(ts) && succeeded == AnyTriggerDelivered(ts)
  {
    attempted, succeeded := false, false;
    for n := 0 to |ts|
      invariant attempted == exists i :: 0 <= i < n && ts[i].configured
      invariant succeeded == exists i :: 0 <= i < n && ts[i].configured && ts[i].accepted
    {
      if ts[n].configured {
        attempted := true;
        if ts[n].accepted {
          succeeded := true;
        }
      }
    }
  }

  method DecideOutcome(lot: OfferRow, nothing: bool, attempted: bool, succeeded: bool, wantFailed: bool, max: nat)
      returns (outcome: Outcome)
    modifies lot
    ensures lot.Value() == WithNotification(old(lot.Value()), NotifiedRow(
              old(lot.attempts.notification), nothing, attempted, succeeded, wantFailed, max))
    ensures outcome == OutcomeOf(lot.statuses.notification)
  {
    if nothing {
      lot.statuses := lot.statuses.(notification := Skipped);
      return IsSkipped;
    }
    if succeeded {
      if !wantFailed {
        lot.statuses := lot.statuses.(notification := Done);
        return IsDone;
      }
    } else if !attempted {
      lot.statuses := lot.statuses.(notification := Skipped);
      return IsSkipped;
    }
    lot.attempts := lot.attempts.(notification := lot.attempts.notification + 1);
    if lot.attempts.notification >= max {
      lot.statuses := lot.statuses.(notification := Failed);
      return IsFailed;
    }
    lot.statuses := lot.statuses.(notification := Pending);
    outcome := IsTransient;
  }

  function OutcomeOf(written: Status): Outcome {
    match written
    case Done => IsDone case Skipped => IsSkipped case Failed => IsFailed case _ => IsTransient
  }

  /** The row may be gone at the load.  Gone only at the write (`stillThere` is false), its stamps are still
      written, and a pass without a success reports a transient outcome. */
  method ProcessOne(lot: OfferRow?, t: Option<AuctionTerms>, c: Context, ledger: WantLedger, rows: seq<Key>,
                    ts: seq<TriggerPost>, p: Posting, stillThere: bool, max: nat) returns (outcome: Outcome)
    requires IsAlertQuery(c.wants, ledger.matches, c.id, rows)
    modifies lot, ledger
    ensures lot == null ==> outcome == IsMissing && ledger.matches == old(ledger.matches)
    ensures lot != null ==>
              var r := AfterNotification(old(lot.Value()), t, c, rows, ts, p, old(ledger.matches), max);
              && ledger.matches == r.matches
              && lot.Value() == (if stillThere then r.row else old(lot.Value()))
              && outcome == if lot.kind == AuctionLot && t.None? then IsMissing
                            else if stillThere then OutcomeOf(r.row.statuses.notification)
                            else VanishedOutcome(old(lot.Value()), t, c, rows, ts, p)
  {
    if lot == null || (lot.kind == AuctionLot && t.None?) {
      return IsMissing;
    }
    var alerts := LoadWantAlerts(lot.Value(), c, t, rows);
    var attempted, succeeded := PostTriggers(ts);
    var wAttempted, wSucceeded, wFailed, stamped := PostWantAlerts(alerts, p);
    StampNothing(ledger.matches, p.now);
    if stamped != [] {
      ledger.Stamp(stamped, p.now);
    }
    if stillThere {
      outcome := DecideOutcome(lot, ts == [] && alerts == [], attempted || wAttempted, succeeded || wSucceeded,
                               wFailed, max);
    } else {
      outcome := if ts == [] && alerts == [] then IsSkipped
                 else if succeeded || wSucceeded then IsDone else IsTransient;
    }
  }

  function VanishedOutcome(o: Offer, t: Option<AuctionTerms>, c: Context, rows: seq<Key>, ts: seq<TriggerPost>,
                           p: Posting): Outcome
  {
    VanishedWith(FlatMap(Alerting(o, c, t), rows), ts, p)
  }

  function VanishedWith(alerts: seq<WantAlert>, ts: seq<TriggerPost>, p: Posting): Outcome {
    if ts == [] && alerts == [] then IsSkipped
    else if AnyTriggerDelivered(ts) || StampedKeys(alerts, p) != [] then IsDone else IsTransient
  }

  lemma StampNothing(m: Matched, now: int)
    ensures Stamped(m, [], now) == m
  {
  }

  // ---- who gets an alert ----

  lemma {:induction false} StampedAlert(alerts: seq<WantAlert>, p: Posting, k: Key)
    ensures k in StampedKeys(alerts, p)
            <==> exists i :: 0 <= i < |alerts| && alerts[i].key == k && Sendable(alerts[i], p) && k in p.accepted
  {
    if alerts != [] {
      StampedAlert(alerts[1..], p, k);
      assert forall i :: 0 < i < |alerts| ==> alerts[i] == alerts[1..][i - 1];
    }
  }

  lemma {:induction false} AlertedRow(o: Offer, c: Context, t: Option<AuctionTerms>, rows: seq<Key>, a: WantAlert)
    ensures a in FlatMap(Alerting(o, c, t), rows) <==> a.key in rows && a in AlertOf(o, c, t, a.key)
  {
    if rows != [] {
      AlertedRow(o, c, t, rows[1..], a);
    }
  }

  /** A match is stamped exactly when it was outstanding, its want still accepts the offer, it is
      instant, it is not quiet time, the channel exists and the post was accepted. */
  lemma StampedExactlyTheDelivered(o: Offer, c: Context, t: Option<AuctionTerms>, m: Matched, rows: seq<Key>,
                                   p: Posting, k: Key)
    requires IsAlertQuery(c.wants, m, c.id, rows)
    ensures k in StampedKeys(FlatMap(Alerting(o, c, t), rows), p)
            <==> && k in m && k.lot == c.id && m[k].notifiedAt.None? && !m[k].dismissed
                 && k.search < |c.wants| && c.wants[k.search].enabled && c.wants[k.search].criteria.Some?
                 && Matches(o, c.wants[k.search].criteria.value, ProvinceOf(o, t), Price(o))
                 && DeliveryTier(WantScore(o.appraisal, Price(o)), Price(o),
                                 if o.kind == PrivateListing then o.asking.previous else None,
                                 if t.Some? then t.value.end else None, c.delivery) == Instant
                 && !p.quiet && p.configured && k in p.accepted
  {
    var alerts := FlatMap(Alerting(o, c, t), rows);
    StampedAlert(alerts, p, k);
    if k.search < |c.wants| {
      var a := WantAlert(k, AlertTier(o, c, t));
      AlertedRow(o, c, t, rows, a);
    }
    forall i | 0 <= i < |alerts| ensures alerts[i].key in rows && alerts[i] in AlertOf(o, c, t, alerts[i].key) {
      AlertedRow(o, c, t, rows, alerts[i]);
    }
  }

  lemma {:induction false} KeysPicked(h: Key -> seq<Key>, rows: seq<Key>)
    requires NoRepeats(rows) && forall i :: 0 <= i < |rows| ==> h(rows[i]) == [] || h(rows[i]) == [rows[i]]
    ensures NoRepeats(FlatMap(h, rows)) && forall k :: k in FlatMap(h, rows) ==> k in rows
  {
    if rows != [] {
      KeysPicked(h, rows[1..]);
      var rest := FlatMap(h, rows[1..]);
      assert rows[0] !in rest;
      assert FlatMap(h, rows) == h(rows[0]) + rest;
    }
  }

  /** No key is stamped, and so no alert delivered, twice in one pass. */
  lemma StampedOnce(o: Offer, c: Context, t: Option<AuctionTerms>, rows: seq<Key>, p: Posting)
    requires NoRepeats(rows)
    ensures NoRepeats(StampedKeys(FlatMap(Alerting(o, c, t), rows), p))
    ensures forall k :: k in StampedKeys(FlatMap(Alerting(o, c, t), rows), p) ==> k in rows
  {
    var h := (k: Key) => FlatMap(Stamping(p), AlertOf(o, c, t, k));
    FlatMapTwice(Alerting(o, c, t), Stamping(p), h, rows);
    KeysPicked(h, rows);
  }

  lemma DeliveredIsStamped(alerts: seq<WantAlert>, p: Posting)
    ensures StampedKeys(alerts, p) != []
            <==> exists i :: 0 <= i < |alerts| && Sendable(alerts[i], p) && alerts[i].key in p.accepted
  {
    var keys := StampedKeys(alerts, p);
    if keys != [] {
      StampedAlert(alerts, p, keys[0]);
    }
    if i :| 0 <= i < |alerts| && Sendable(alerts[i], p) && alerts[i].key in p.accepted {
      StampedAlert(alerts, p, alerts[i].key);
    }
  }

  /** The row in every case.  A want alert is sent when it is instant, it is not quiet time and the channel
      exists; a trigger's post when its channel exists.  Nothing sent: skipped, no attempt counted.  Something
      delivered and no want post refused: done.  Else the attempt counts and the row is retried. */
  lemma OutcomeIsExact(o: Offer, alerts: seq<WantAlert>, ts: seq<TriggerPost>, p: Posting, max: nat)
    ensures var r, tried := NotifiedAs(o, alerts, ts, p, max), o.attempts.notification;
            var sent := || (exists i :: 0 <= i < |ts| && ts[i].configured)
                        || (exists i :: 0 <= i < |alerts| && alerts[i].tier == Instant && !p.quiet && p.configured);
            var delivered := || (exists i :: 0 <= i < |ts| && ts[i].configured && ts[i].accepted)
                             || (exists i :: && 0 <= i < |alerts| && alerts[i].tier == Instant && !p.quiet
                                             && p.configured && alerts[i].key in p.accepted);
            var refused := exists i :: && 0 <= i < |alerts| && alerts[i].tier == Instant && !p.quiet
                                       && p.configured && alerts[i].key !in p.accepted;
            r == if !sent then Row(Skipped, tried)
                 else if delivered && !refused then Row(Done, tried)
                 else Row(if tried + 1 >= max then Failed else Pending, tried + 1)
  {
    DeliveredIsStamped(alerts, p);
    assert AnySent(alerts, p)
           <==> exists i :: 0 <= i < |alerts| && alerts[i].tier == Instant && !p.quiet && p.configured by {
      assert forall i :: 0 <= i < |alerts| ==>
               (Sendable(alerts[i], p) <==> alerts[i].tier == Instant && !p.quiet && p.configured);
    }
  }

  /** A row that vanished before the write reports what became of its posts. */
  lemma VanishedIsExact(alerts: seq<WantAlert>, ts: seq<TriggerPost>, p: Posting)
    ensures var delivered := || (exists i :: 0 <= i < |ts| && ts[i].configured && ts[i].accepted)
                             || (exists i :: && 0 <= i < |alerts| && alerts[i].tier == Instant && !p.quiet
                                             && p.configured && alerts[i].key in p.accepted);
            VanishedWith(alerts, ts, p)
            == if delivered then IsDone else if ts == [] && alerts == [] then IsSkipped else IsTransient
  {
    DeliveredIsStamped(alerts, p);
  }
}
