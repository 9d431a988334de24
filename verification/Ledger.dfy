/** The want-match ledger and the loops that fill it (wants/repo.py, wants/service.py, and the
    ledger statement of db/upserts.py). */
module Ledger {
  import opened Base
  import opened Folds
  import opened Text
  import opened Offers
  import opened Pricing
  import opened Matcher

  /** A want; its id is its place in the list.  Criteria are missing when the stored config is invalid. */
  datatype Want = Want(name: string, enabled: bool, criteria: Option<WantCriteria>)

  datatype Key = Key(search: nat, lot: int)

  datatype WantMatch = WantMatch(score: Option<real>, notifiedAt: Option<int>, dismissed: bool)

  type Matched = map<Key, WantMatch>

  type OfferTable = map<int, Offer>

  // ---- one match ----

  /** The VIN by which copies of one vehicle are recognised, letter case aside. */
  function VinOf(offers: OfferTable, lot: int): Option<string> {
    if lot in offers && offers[lot].facts.vin.Some? && offers[lot].facts.vin.value != ""
    then Some(Lower(offers[lot].facts.vin.value)) else None
  }

  /** A non-dismissed match of the same want covers the vehicle through another offer that is still live. */
  predicate Covers(offers: OfferTable, m: Matched, other: Key, k: Key) {
    && other in m && other.search == k.search && other.lot != k.lot && !m[other].dismissed
    && VinOf(offers, other.lot).Some? && VinOf(offers, other.lot) == VinOf(offers, k.lot)
    && Live(offers[other.lot])
  }

  predicate VinAlreadyMatched(offers: OfferTable, m: Matched, k: Key) {
    exists other :: other in m && Covers(offers, m, other, k)
  }

  /** A known match is only re-scored; a new one starts un-notified, and dismissed if it is a copy. */
  function Upserted(offers: OfferTable, m: Matched, k: Key, score: Option<real>): Matched {
    if k in m then m[k := m[k].(score := score)]
    else m[k := WantMatch(score, None, VinAlreadyMatched(offers, m, k))]
  }

  /** An offer's price drop re-opens its matches, dismissed ones excepted. */
  function Reopened(m: Matched, lot: int): Matched {
    map k | k in m :: if k.lot == lot && !m[k].dismissed then m[k].(notifiedAt := None) else m[k]
  }

  function Stamped(m: Matched, keys: seq<Key>, now: int): Matched {
    map k | k in m :: if k in keys then m[k].(notifiedAt := Some(now)) else m[k]
  }

  function Dismissed(m: Matched, k: Key): Matched {
    if k in m then m[k := m[k].(dismissed := true)] else m
  }

  /** Waiting for delivery: un-notified, not dismissed, and the want is enabled. */
  predicate Outstanding(wants: seq<Want>, m: Matched, k: Key) {
    k in m && m[k].notifiedAt.None? && !m[k].dismissed && k.search < |wants| && wants[k.search].enabled
  }

  // ---- evaluating and backfilling ----

  predicate Accepts(w: Want, o: Offer, province: Option<string>) {
    w.criteria.Some? && Matches(o, w.criteria.value, province, Price(o))
  }

  /** The ledger after one want has looked at the offer. */
  function EvaluatedBy(offers: OfferTable, want: Want, m: Matched, k: Key, province: Option<string>): Matched
    requires k.lot in offers
  {
    var o := offers[k.lot];
    if want.enabled && Accepts(want, o, province) then Upserted(offers, m, k, WantScore(o.appraisal, Price(o))) else m
  }

  /** The ledger after the first `n` wants have looked at the offer. */
  function Evaluated(offers: OfferTable, wants: seq<Want>, m: Matched, lot: int, province: Option<string>,
                     n: nat): Matched
    requires lot in offers && n <= |wants|
  {
    if n == 0 then m
    else EvaluatedBy(offers, wants[n - 1], Evaluated(offers, wants, m, lot, province, n - 1), Key(n - 1, lot), province)
  }

  /** An offer the backfill query returned, with the province it is matched on. */
  datatype Candidate = Candidate(lot: int, province: Option<string>)

  ghost predicate AreCandidates(offers: OfferTable, rows: seq<Candidate>, kind: Kind) {
    && |rows| <= BACKFILL_LIMIT
    && forall i :: 0 <= i < |rows| ==>
         && rows[i].lot in offers
         && var o := offers[rows[i].lot];
         && o.kind == kind && Live(o) && o.statuses.valuation == Done && o.facts.make.Some?
  }

  const BACKFILL_LIMIT := 500

  function BackfilledRow(offers: OfferTable, w: nat, c: WantCriteria, m: Matched, row: Candidate): Matched
    requires row.lot in offers
  {
    var o := offers[row.lot];
    if Matches(o, c, row.province, Price(o))
    then Upserted(offers, m, Key(w, row.lot), WantScore(o.appraisal, Price(o))) else m
  }

  function Backfilled(offers: OfferTable, w: nat, c: WantCriteria, m: Matched, rows: seq<Candidate>): Matched
    requires forall i :: 0 <= i < |rows| ==> rows[i].lot in offers
  {
    if rows == [] then m
    else BackfilledRow(offers, w, c, Backfilled(offers, w, c, m, rows[..|rows| - 1]), rows[|rows| - 1])
  }

  /** How many rows ended in a findable match, judged when the row was written. */
  function Findable(offers: OfferTable, w: nat, c: WantCriteria, m: Matched, rows: seq<Candidate>): nat
    requires forall i :: 0 <= i < |rows| ==> rows[i].lot in offers
  {
    if rows == [] then 0
    else
      var last := rows[|rows| - 1];
      var o, k := offers[last.lot], Key(w, last.lot);
      var after := Backfilled(offers, w, c, m, rows);
      Findable(offers, w, c, m, rows[..|rows| - 1])
      + (if Matches(o, c, last.province, Price(o)) && k in after && !after[k].dismissed then 1 else 0)
  }

  class WantLedger {
    var matches: Matched

    method UpsertWantMatch(offers: OfferTable, k: Key, score: Option<real>) returns (created: bool)
      modifies this
      ensures matches == Upserted(offers, old(matches), k, score)
      ensures created == (k !in old(matches))
    {
      if k in matches {
        matches := matches[k := matches[k].(score := score)];
        return false;
      }
      var copy := VinAlreadyMatched(offers, matches, k);
      matches := matches[k := WantMatch(score, None, copy)];
      created := true;
    }

    method EvaluateWant(offers: OfferTable, want: Want, k: Key, province: Option<string>) returns (created: seq<Key>)
      requires k.lot in offers
      modifies this
      ensures matches == EvaluatedBy(offers, want, old(matches), k, province)
      ensures matches.Keys == old(matches.Keys) + (set x | x in created)
      ensures forall x :: x in created ==> x !in old(matches)
    {
      created := [];
      if want.enabled && Accepts(want, offers[k.lot], province) {
        var score := WantScore(offers[k.lot].appraisal, Price(offers[k.lot]));
        var wasNew := UpsertWantMatch(offers, k, score);
        if wasNew {
          created := [k];
        }
      }
    }

    method EvaluateLotAgainstWants(offers: OfferTable, wants: seq<Want>, lot: int, province: Option<string>)
        returns (created: seq<Key>)
      requires lot in offers
      modifies this
      ensures matches == Evaluated(offers, wants, old(matches), lot, province, |wants|)
      ensures matches.Keys == old(matches.Keys) + (set x | x in created)
      ensures forall x :: x in created ==> x !in old(matches)
    {
      created := [];
      for n := 0 to |wants|
        invariant matches == Evaluated(offers, wants, old(matches), lot, province, n)
        invariant matches.Keys == old(matches.Keys) + (set x | x in created)
        invariant forall x :: x in created ==> x !in old(matches)
      {
        var added := EvaluateWant(offers, wants[n], Key(n, lot), province);
        created := created + added;
      }
    }

    method BackfillRows(offers: OfferTable, w: nat, c: WantCriteria, rows: seq<Candidate>) returns (count: nat)
      requires forall i :: 0 <= i < |rows| ==> rows[i].lot in offers
      modifies this
      ensures matches == Backfilled(offers, w, c, old(matches), rows)
      ensures count == Findable(offers, w, c, old(matches), rows)
    {
      count := 0;
      for n := 0 to |rows|
        invariant matches == Backfilled(offers, w, c, old(matches), rows[..n])
        invariant count == Findable(offers, w, c, old(matches), rows[..n])
      {
        var o, k := offers[rows[n].lot], Key(w, rows[n].lot);
        assert rows[..n + 1][..n] == rows[..n];
        if Matches(o, c, rows[n].province, Price(o)) {
          var _ := UpsertWantMatch(offers, k, WantScore(o.appraisal, Price(o)));
          if !matches[k].dismissed {
            count := count + 1;
          }
        }
      }
      assert rows[..|rows|] == rows;
    }

    /** Auction lots first, then private listings; a want with an invalid config is left alone. */
    method BackfillWant(offers: OfferTable, w: nat, want: Want, lots: seq<Candidate>, listings: seq<Candidate>)
        returns (count: nat)
      requires AreCandidates(offers, lots, AuctionLot) && AreCandidates(offers, listings, PrivateListing)
      modifies this
      ensures want.criteria.None? ==> matches == old(matches) && count == 0
      ensures want.criteria.Some? ==>
                && matches == Backfilled(offers, w, want.criteria.value, old(matches), lots + listings)
                && count == Findable(offers, w, want.criteria.value, old(matches), lots + listings)
    {
      if want.criteria.None? {
        return 0;
      }
      BackfillInTwo(offers, w, want.criteria.value, matches, lots, listings);
      var first := BackfillRows(offers, w, want.criteria.value, lots);
      var second := BackfillRows(offers, w, want.criteria.value, listings);
      count := first + second;
    }

    method ReopenOnDrop(lot: int)
      modifies this
      ensures matches == Reopened(old(matches), lot)
    {
      matches := map k | k in matches :: if k.lot == lot && !matches[k].dismissed
                                         then matches[k].(notifiedAt := None) else matches[k];
    }

    method Stamp(keys: seq<Key>, now: int)
      modifies this
      ensures matches == Stamped(old(matches), keys, now)
    {
      matches := map k | k in matches :: if k in keys then matches[k].(notifiedAt := Some(now)) else matches[k];
    }
  }

  lemma {:induction false} BackfillInTwo(offers: OfferTable, w: nat, c: WantCriteria, m: Matched,
                                         a: seq<Candidate>, b: seq<Candidate>)
    requires forall i :: 0 <= i < |a| ==> a[i].lot in offers
    requires forall i :: 0 <= i < |b| ==> b[i].lot in offers
    ensures Backfilled(offers, w, c, m, a + b) == Backfilled(offers, w, c, Backfilled(offers, w, c, m, a), b)
    ensures Findable(offers, w, c, m, a + b)
            == Findable(offers, w, c, m, a) + Findable(offers, w, c, Backfilled(offers, w, c, m, a), b)
  {
    if b == [] {
      assert a + b == a;
    } else {
      var n := |b| - 1;
      BackfillInTwo(offers, w, c, m, a, b[..n]);
      assert (a + b)[..|a + b| - 1] == a + b[..n];
    }
  }

  // ---- what the writes do, key by key ----

  /** Two offers are recognised as one vehicle when both have a VIN, the same but for letter case. */
  lemma VinsCompareCaseless(offers: OfferTable, a: int, b: int)
    requires a in offers && b in offers
    ensures VinOf(offers, a).Some? && VinOf(offers, a) == VinOf(offers, b)
            <==> && offers[a].facts.vin.Some? && offers[a].facts.vin.value != ""
                 && offers[b].facts.vin.Some? && offers[b].facts.vin.value != ""
                 && Lower(offers[a].facts.vin.value) == Lower(offers[b].facts.vin.value)
  {
  }

  /** A copy is found among the want's matches that are not dismissed, of other offers that are open lots or
      active listings. */
  lemma CopiesAre(offers: OfferTable, m: Matched, k: Key)
    ensures VinAlreadyMatched(offers, m, k)
            <==> exists j :: && j in m && j.search == k.search && j.lot != k.lot && !m[j].dismissed && j.lot in offers
                             && VinOf(offers, j.lot).Some? && VinOf(offers, j.lot) == VinOf(offers, k.lot)
                             && if offers[j.lot].kind == AuctionLot
                                then offers[j.lot].bidding.lotStatus in {Open, ClosingSoon, Extended}
                                else offers[j.lot].asking.status == Active
  {
    if j :| j in m && Covers(offers, m, j, k) {
      assert j in m && j.search == k.search;
    }
  }

  /** The want of a key accepts the offer. */
  predicate Evaluates(offers: OfferTable, wants: seq<Want>, lot: int, province: Option<string>, n: nat, k: Key)
    requires lot in offers && n <= |wants|
  {
    && k.lot == lot && k.search < n && wants[k.search].enabled && wants[k.search].criteria.Some?
    && Matches(offers[lot], wants[k.search].criteria.value, province, Price(offers[lot]))
  }

  /** One match of the ledger after the wants have looked: scored afresh if its want accepts the offer, with
      its stamp and dismissal kept; new un-notified, and dismissed exactly if it is a copy. */
  ghost predicate EvaluatedAt(offers: OfferTable, before: Matched, after: Matched, k: Key, seen: bool,
                              score: Option<real>)
  {
    && (k in after <==> k in before || seen)
    && (k in before ==> after[k] == if seen then before[k].(score := score) else before[k])
    && (seen && k !in before ==> after[k] == WantMatch(score, None, VinAlreadyMatched(offers, before, k)))
  }

  /** A VIN lookup reads the matches of one want only. */
  lemma LookupReadsOneWant(offers: OfferTable, m: Matched, m': Matched, k: Key)
    requires forall j: Key :: j.search == k.search ==>
               (j in m <==> j in m') && (j in m ==> m[j].dismissed == m'[j].dismissed)
    ensures VinAlreadyMatched(offers, m, k) == VinAlreadyMatched(offers, m', k)
  {
    if j :| j in m && Covers(offers, m, j, k) {
      assert Covers(offers, m', j, k);
    }
    if j :| j in m' && Covers(offers, m', j, k) {
      assert Covers(offers, m, j, k);
    }
  }

  ghost predicate EvaluationAt(
      offers: OfferTable, wants: seq<Want>, m: Matched, lot: int, province: Option<string>, n: nat, k: Key)
    requires lot in offers && n <= |wants|
  {
    EvaluatedAt(offers, m, Evaluated(offers, wants, m, lot, province, n), k,
                Evaluates(offers, wants, lot, province, n, k), WantScore(offers[lot].appraisal, Price(offers[lot])))
  }

  lemma NextWantIsExact(
      offers: OfferTable, wants: seq<Want>, m: Matched, lot: int, province: Option<string>, p: nat, k: Key)
    requires lot in offers && p < |wants|
    requires forall j :: EvaluationAt(offers, wants, m, lot, province, p, j)
    ensures EvaluationAt(offers, wants, m, lot, province, p + 1, k)
  {
    var prev, key := Evaluated(offers, wants, m, lot, province, p), Key(p, lot);
    var score := WantScore(offers[lot].appraisal, Price(offers[lot]));
    var accepted := wants[p].enabled && Accepts(wants[p], offers[lot], province);
    forall j: Key | j.search == p ensures (j in m <==> j in prev) && (j in m ==> m[j].dismissed == prev[j].dismissed) {
      assert EvaluationAt(offers, wants, m, lot, province, p, j);
    }
    LookupReadsOneWant(offers, m, prev, key);
    assert EvaluationAt(offers, wants, m, lot, province, p, k);
    var after := if accepted then Upserted(offers, prev, key, score) else prev;
    OneWantIsExact(offers, m, prev, key, k, Evaluates(offers, wants, lot, province, p, k), accepted, score);
    assert after == Evaluated(offers, wants, m, lot, province, p + 1);
    EvaluatesNext(offers, wants, lot, province, p, k);
  }

  lemma EvaluatesNext(offers: OfferTable, wants: seq<Want>, lot: int, province: Option<string>, p: nat, k: Key)
    requires lot in offers && p < |wants|
    ensures Evaluates(offers, wants, lot, province, p + 1, k)
            <==> Evaluates(offers, wants, lot, province, p, k)
                 || (k == Key(p, lot) && wants[p].enabled && Accepts(wants[p], offers[lot], province))
  {
  }

  lemma OneWantIsExact(offers: OfferTable, m: Matched, prev: Matched, key: Key, k: Key, seen: bool, accepted: bool,
                       score: Option<real>)
    requires EvaluatedAt(offers, m, prev, k, seen, score) && (k == key ==> !seen)
    requires VinAlreadyMatched(offers, prev, key) == VinAlreadyMatched(offers, m, key)
    ensures EvaluatedAt(offers, m, if accepted then Upserted(offers, prev, key, score) else prev, k,
                        seen || (k == key && accepted), score)
  {
  }

  /** Evaluating an offer writes exactly the matches of the enabled wants that accept it. */
  lemma {:induction false} EvaluationIsExact(
      offers: OfferTable, wants: seq<Want>, m: Matched, lot: int, province: Option<string>, n: nat, k: Key)
    requires lot in offers && n <= |wants|
    ensures EvaluationAt(offers, wants, m, lot, province, n, k)
  {
    if n > 0 {
      var p := n - 1;
      forall j ensures EvaluationAt(offers, wants, m, lot, province, p, j) {
        EvaluationIsExact(offers, wants, m, lot, province, p, j);
      }
      NextWantIsExact(offers, wants, m, lot, province, p, k);
    }
  }

  /** A price drop clears the stamps of the offer's matches that are not dismissed; a dismissal changes one
      match. */
  lemma LedgerWritesAreExact(m: Matched, lot: int, k: Key, keys: seq<Key>, now: int, j: Key)
    requires j in m
    ensures j in Reopened(m, lot) && j in Stamped(m, keys, now) && j in Dismissed(m, k)
    ensures Reopened(m, lot)[j]
            == WantMatch(m[j].score, if j.lot == lot && !m[j].dismissed then None else m[j].notifiedAt, m[j].dismissed)
    ensures Stamped(m, keys, now)[j]
            == WantMatch(m[j].score, if j in keys then Some(now) else m[j].notifiedAt, m[j].dismissed)
    ensures Dismissed(m, k)[j] == WantMatch(m[j].score, m[j].notifiedAt, m[j].dismissed || j == k)
  {
  }

  // ---- backfilling ----

  /** The want accepts some row of the offer. */
  predicate Finds(offers: OfferTable, c: WantCriteria, rows: seq<Candidate>, lot: int) {
    Any(Finding(offers, c, lot), rows)
  }

  function Finding(offers: OfferTable, c: WantCriteria, lot: int): Candidate -> bool {
    (row: Candidate) => FindsIn(offers, c, row, lot)
  }

  predicate FindsIn(offers: OfferTable, c: WantCriteria, row: Candidate, lot: int) {
    row.lot == lot && lot in offers && Matches(offers[lot], c, row.province, Price(offers[lot]))
  }

  /** An accepted offer's match is there with its score; old stamps and dismissals are kept; nothing else is
      written. */
  predicate BackfilledAt(m: Matched, after: Matched, k: Key, found: bool, score: Option<real>) {
    && (k in after <==> k in m || found)
    && (k in m ==> after[k] == if found then m[k].(score := score) else m[k])
    && (found && k !in m ==> after[k].notifiedAt.None? && after[k].score == score)
  }

  function ScoreOf(offers: OfferTable, lot: int): Option<real> {
    if lot in offers then WantScore(offers[lot].appraisal, Price(offers[lot])) else None
  }

  lemma NextRowIsExact(offers: OfferTable, w: nat, c: WantCriteria, m: Matched, mid: Matched, last: Candidate, k: Key,
                       found: bool)
    requires last.lot in offers && BackfilledAt(m, mid, k, found, ScoreOf(offers, k.lot))
    ensures BackfilledAt(m, BackfilledRow(offers, w, c, mid, last), k,
                         found || (k.search == w && FindsIn(offers, c, last, k.lot)),
                         ScoreOf(offers, k.lot))
  {
  }

  lemma FindsNext(offers: OfferTable, c: WantCriteria, rows: seq<Candidate>, lot: int)
    requires rows != []
    ensures Finds(offers, c, rows, lot)
            <==> Finds(offers, c, rows[..|rows| - 1], lot) || FindsIn(offers, c, rows[|rows| - 1], lot)
  {
    AnyOfLast(Finding(offers, c, lot), rows);
  }

  /** A backfill writes exactly the matches of the offers that the want accepts. */
  lemma {:induction false} BackfillIsExact(
      offers: OfferTable, w: nat, c: WantCriteria, m: Matched, rows: seq<Candidate>, k: Key)
    requires forall i :: 0 <= i < |rows| ==> rows[i].lot in offers
    ensures BackfilledAt(m, Backfilled(offers, w, c, m, rows), k, k.search == w && Finds(offers, c, rows, k.lot),
                         ScoreOf(offers, k.lot))
  {
    if rows != [] {
      var init, last := rows[..|rows| - 1], rows[|rows| - 1];
      BackfillIsExact(offers, w, c, m, init, k);
      NextRowIsExact(offers, w, c, m, Backfilled(offers, w, c, m, init), last, k,
                     k.search == w && Finds(offers, c, init, k.lot));
      FindsNext(offers, c, rows, k.lot);
    }
  }

  /** Later rows leave a written match's dismissal alone. */
  lemma DismissalStands(offers: OfferTable, w: nat, c: WantCriteria, m: Matched, last: Candidate, k: Key)
    requires last.lot in offers && k in m
    ensures k in BackfilledRow(offers, w, c, m, last)
    ensures BackfilledRow(offers, w, c, m, last)[k].dismissed == m[k].dismissed
  {
  }

  function CountFindable(offers: OfferTable, w: nat, c: WantCriteria, after: Matched, rows: seq<Candidate>): nat {
    if rows == [] then 0
    else
      var last := rows[|rows| - 1];
      CountFindable(offers, w, c, after, rows[..|rows| - 1])
      + (if && last.lot in offers && Matches(offers[last.lot], c, last.province, Price(offers[last.lot]))
            && Key(w, last.lot) in after && !after[Key(w, last.lot)].dismissed then 1 else 0)
  }

  lemma {:induction false} CountStands(
      offers: OfferTable, w: nat, c: WantCriteria, mid: Matched, rows: seq<Candidate>, last: Candidate)
    requires last.lot in offers && forall i :: 0 <= i < |rows| ==> rows[i].lot in offers
    requires forall i :: && 0 <= i < |rows|
                         && Matches(offers[rows[i].lot], c, rows[i].province, Price(offers[rows[i].lot])) ==>
               Key(w, rows[i].lot) in mid
    ensures CountFindable(offers, w, c, BackfilledRow(offers, w, c, mid, last), rows)
            == CountFindable(offers, w, c, mid, rows)
  {
    if rows != [] {
      var n := |rows| - 1;
      CountStands(offers, w, c, mid, rows[..n], last);
      if Key(w, rows[n].lot) in mid {
        DismissalStands(offers, w, c, mid, last, Key(w, rows[n].lot));
      }
    }
  }

  /** The backfill's count: the accepted rows whose match, when all is done, is not dismissed. */
  lemma {:induction false} FindableIsExact(
      offers: OfferTable, w: nat, c: WantCriteria, m: Matched, rows: seq<Candidate>)
    requires forall i :: 0 <= i < |rows| ==> rows[i].lot in offers
    ensures Findable(offers, w, c, m, rows) == CountFindable(offers, w, c, Backfilled(offers, w, c, m, rows), rows)
  {
    if rows != [] {
      var init, last := rows[..|rows| - 1], rows[|rows| - 1];
      FindableIsExact(offers, w, c, m, init);
      var mid := Backfilled(offers, w, c, m, init);
      forall i | 0 <= i < |init| && Matches(offers[init[i].lot], c, init[i].province, Price(offers[init[i].lot]))
        ensures Key(w, init[i].lot) in mid
      {
        BackfillIsExact(offers, w, c, m, init, Key(w, init[i].lot));
        assert Finding(offers, c, init[i].lot)(init[i]);
      }
      CountStands(offers, w, c, mid, init, last);
    }
  }
}
