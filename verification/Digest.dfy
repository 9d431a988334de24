/** The nightly digest: every outstanding match, grouped by want name, delivered at once
    (apps/digest/digest.py). */
module Digest {
  import opened Folds
  import opened Ledger
  import opened Notifier

  datatype DigestRow = DigestRow(key: Key, want: string)

  datatype Group = Group(want: string, rows: seq<DigestRow>)

  /** What the digest query returns: the outstanding matches, each once, with equal want names adjacent. */
  ghost predicate IsDigestQuery(wants: seq<Want>, m: Matched, rows: seq<DigestRow>) {
    && NoRepeats(Keys(rows))
    && (forall k :: k in Keys(rows) <==> Outstanding(wants, m, k))
    && (forall i :: 0 <= i < |rows| ==> rows[i].key.search < |wants| && rows[i].want == wants[rows[i].key.search].name)
    && Adjacent(rows)
  }

  ghost predicate Adjacent(rows: seq<DigestRow>) {
    forall i, j, k :: 0 <= i < j < k < |rows| && rows[i].want == rows[k].want ==> rows[j].want == rows[k].want
  }

  function KeyOf(): DigestRow -> Key { (r: DigestRow) => r.key }

  function Keys(rows: seq<DigestRow>): seq<Key> {
    Map(KeyOf(), rows)
  }

  /** Python's `grouped.setdefault(name, []).append(row)` on an insertion-ordered dictionary. */
  function Added(groups: seq<Group>, row: DigestRow): seq<Group> {
    if groups == [] then [Group(row.want, [row])]
    else if groups[0].want == row.want then [groups[0].(rows := groups[0].rows + [row])] + groups[1..]
    else [groups[0]] + Added(groups[1..], row)
  }

  function Grouped(rows: seq<DigestRow>): seq<Group> {
    if rows == [] then [] else Added(Grouped(rows[..|rows| - 1]), rows[|rows| - 1])
  }

  method BuildDigest(rows: seq<DigestRow>) returns (ids: seq<Key>, groups: seq<Group>)
    ensures ids == Keys(rows) && groups == Grouped(rows)
  {
    ids, groups := [], [];
    for n := 0 to |rows|
      invariant ids == Keys(rows[..n]) && groups == Grouped(rows[..n])
    {
      assert rows[..n + 1][..n] == rows[..n];
      ids := ids + [rows[n].key];
      groups := Added(groups, rows[n]);
    }
    assert rows[..|rows|] == rows;
  }

  /** Posts, then stamps; nothing is stamped unless the post went through. */
  method Run(wants: seq<Want>, ledger: WantLedger, rows: seq<DigestRow>, configured: bool, accepted: bool, now: int)
      returns (delivered: seq<Key>)
    requires IsDigestQuery(wants, ledger.matches, rows)
    modifies ledger
    ensures delivered == if configured && accepted then Keys(rows) else []
    ensures ledger.matches == Stamped(old(ledger.matches), delivered, now)
  {
    StampNothing(ledger.matches, now);
    if !configured {
      return [];
    }
    var ids, _ := BuildDigest(rows);
    if ids == [] || !accepted {
      return [];
    }
    ledger.Stamp(ids, now);
    delivered := ids;
  }

  // ---- what the digest shows ----

  function Rows(): Group -> seq<DigestRow> { (g: Group) => g.rows }

  function Named(name: string): DigestRow -> bool { (r: DigestRow) => r.want == name }

  ghost predicate Distinct(groups: seq<Group>) {
    forall i, j :: 0 <= i < j < |groups| ==> groups[i].want != groups[j].want
  }

  /** The rows listed under a name; none when there is no such group. */
  function Under(groups: seq<Group>, name: string): seq<DigestRow> {
    if groups == [] then [] else if groups[0].want == name then groups[0].rows else Under(groups[1..], name)
  }

  lemma {:induction false} AddedUnder(groups: seq<Group>, row: DigestRow, name: string)
    ensures Under(Added(groups, row), name) == Under(groups, name) + (if row.want == name then [row] else [])
  {
    if groups != [] && groups[0].want != row.want {
      AddedUnder(groups[1..], row, name);
    }
  }

  lemma {:induction false} AddedNames(groups: seq<Group>, row: DigestRow)
    requires Distinct(groups)
    ensures Distinct(Added(groups, row))
    ensures forall i :: 0 <= i < |Added(groups, row)| ==>
              || Added(groups, row)[i].want == row.want
              || exists j :: 0 <= j < |groups| && groups[j].want == Added(groups, row)[i].want
  {
    if groups != [] {
      AddedNames(groups[1..], row);
    }
  }

  /** Each want name heads one group, and under it stand exactly the rows of that name, in order. */
  lemma {:induction false} GroupsHoldTheirRows(rows: seq<DigestRow>, name: string)
    ensures Distinct(Grouped(rows))
    ensures Under(Grouped(rows), name) == Filter(Named(name), rows)
  {
    if rows != [] {
      var init, last := rows[..|rows| - 1], rows[|rows| - 1];
      GroupsHoldTheirRows(init, name);
      AddedNames(Grouped(init), last);
      AddedUnder(Grouped(init), last, name);
      assert rows == init + [last];
      FilterAppend(Named(name), init, [last]);
      assert Filter(Named(name), [last]) == if last.want == name then [last] else [];
    }
  }

  lemma {:induction false} AddedToLast(groups: seq<Group>, row: DigestRow)
    requires Distinct(groups)
    requires forall i :: 0 <= i < |groups| - 1 ==> groups[i].want != row.want
    ensures FlatMap(Rows(), Added(groups, row)) == FlatMap(Rows(), groups) + [row]
    ensures Added(groups, row) != [] && Added(groups, row)[|Added(groups, row)| - 1].want == row.want
  {
    if groups != [] && groups[0].want != row.want {
      AddedToLast(groups[1..], row);
    } else if groups != [] {
      assert groups[1..] == [];
    }
  }

  lemma {:induction false} NameSeenBefore(rows: seq<DigestRow>, i: nat)
    requires i < |Grouped(rows)|
    ensures exists k :: 0 <= k < |rows| && rows[k].want == Grouped(rows)[i].want
  {
    var init, last := rows[..|rows| - 1], rows[|rows| - 1];
    GroupsHoldTheirRows(init, "");
    AddedNames(Grouped(init), last);
    if Grouped(rows)[i].want != last.want {
      var j :| 0 <= j < |Grouped(init)| && Grouped(init)[j].want == Grouped(rows)[i].want;
      NameSeenBefore(init, j);
      var k :| 0 <= k < |init| && init[k].want == Grouped(init)[j].want;
      assert rows[k].want == Grouped(rows)[i].want;
    }
  }

  /** A row's name, if seen before, was seen just before. */
  lemma NameIsLastOrNew(init: seq<DigestRow>, last: DigestRow, i: nat)
    requires Adjacent(init + [last]) && i < |Grouped(init)| - 1
    requires init != [] && Grouped(init)[|Grouped(init)| - 1].want == init[|init| - 1].want
    ensures Grouped(init)[i].want != last.want
  {
    GroupsHoldTheirRows(init, "");
    NameSeenBefore(init, i);
    var k :| 0 <= k < |init| && init[k].want == Grouped(init)[i].want;
    var rows, n := init + [last], |init|;
    assert rows[k] == init[k] && rows[n - 1] == init[n - 1] && rows[n] == last;
  }

  lemma NextRowGoesLast(init: seq<DigestRow>, last: DigestRow)
    requires Adjacent(init + [last])
    requires init != [] ==>
               Grouped(init) != [] && Grouped(init)[|Grouped(init)| - 1].want == init[|init| - 1].want
    ensures var groups := Added(Grouped(init), last);
            && FlatMap(Rows(), groups) == FlatMap(Rows(), Grouped(init)) + [last]
            && groups != [] && groups[|groups| - 1].want == last.want
  {
    GroupsHoldTheirRows(init, "");
    forall i | 0 <= i < |Grouped(init)| - 1 ensures Grouped(init)[i].want != last.want {
      NameIsLastOrNew(init, last, i);
    }
    AddedToLast(Grouped(init), last);
  }

  /** Read from top to bottom, the digest is the query result: grouping neither drops, doubles nor
      reorders a row. */
  lemma {:induction false} DigestReadsAsQueried(rows: seq<DigestRow>)
    requires Adjacent(rows)
    ensures FlatMap(Rows(), Grouped(rows)) == rows
    ensures rows != [] ==> Grouped(rows) != [] && Grouped(rows)[|Grouped(rows)| - 1].want == rows[|rows| - 1].want
  {
    if rows != [] {
      var init, last := rows[..|rows| - 1], rows[|rows| - 1];
      assert rows == init + [last];
      DigestReadsAsQueried(init);
      NextRowGoesLast(init, last);
    }
  }

  /** After a delivered digest nothing is outstanding. */
  lemma DigestLeavesNothingOutstanding(wants: seq<Want>, m: Matched, rows: seq<DigestRow>, now: int, k: Key)
    requires IsDigestQuery(wants, m, rows)
    ensures !Outstanding(wants, Stamped(m, Keys(rows), now), k)
  {
    assert k in Keys(rows) <==> Outstanding(wants, m, k);
  }
}
