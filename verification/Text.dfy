/** The string operations matching is built on: trimming, case folding and substring search.
    Letters outside ASCII fold to themselves. */
module Text {

  predicate IsSpace(c: char) {
    c in {' ', '\t', '\n', '\r'}
  }

  function LowerChar(c: char): char {
    if 'A' <= c <= 'Z' then c - 'A' + 'a' else c
  }

  function Lower(s: string): (r: string)
    ensures |r| == |s| && forall i :: 0 <= i < |s| ==> r[i] == LowerChar(s[i])
  {
    seq(|s|, i requires 0 <= i < |s| => LowerChar(s[i]))
  }

  function StripLeft(s: string): string {
    if s != "" && IsSpace(s[0]) then StripLeft(s[1..]) else s
  }

  function StripRight(s: string): string {
    if s != "" && IsSpace(s[|s| - 1]) then StripRight(s[..|s| - 1]) else s
  }

  function Strip(s: string): string {
    StripRight(StripLeft(s))
  }

  /** value.strip().lower() */
  function Fold(s: string): string {
    Lower(Strip(s))
  }

  predicate OccursAt(hay: string, i: int, needle: string) {
    0 <= i <= |hay| - |needle| && hay[i..i + |needle|] == needle
  }

  predicate Contains(hay: string, needle: string) {
    exists i :: 0 <= i <= |hay| - |needle| && OccursAt(hay, i, needle)
  }

  lemma {:induction false} StripLeftIsSuffix(s: string) returns (i: nat)
    ensures i <= |s| && StripLeft(s) == s[i..]
  {
    if s != "" && IsSpace(s[0]) {
      i := StripLeftIsSuffix(s[1..]);
      i := i + 1;
    } else {
      i := 0;
    }
  }

  lemma {:induction false} StripRightIsPrefix(s: string) returns (j: nat)
    ensures j <= |s| && StripRight(s) == s[..j]
  {
    if s != "" && IsSpace(s[|s| - 1]) {
      j := StripRightIsPrefix(s[..|s| - 1]);
    } else {
      j := |s|;
    }
  }

  /** The folded text of a value is part of its lower-cased text. */
  lemma FoldIsPart(s: string)
    ensures Contains(Lower(s), Fold(s))
  {
    var i := StripLeftIsSuffix(s);
    var j := StripRightIsPrefix(s[i..]);
    assert Strip(s) == s[i..i + j];
    assert OccursAt(Lower(s), i, Fold(s));
  }

  lemma PartOfPart(hay: string, middle: string, needle: string)
    requires Contains(hay, middle) && Contains(middle, needle)
    ensures Contains(hay, needle)
  {
    var i :| 0 <= i <= |hay| - |middle| && OccursAt(hay, i, middle);
    var j :| 0 <= j <= |middle| - |needle| && OccursAt(middle, j, needle);
    assert middle == hay[i..i + |middle|] && needle == middle[j..j + |needle|];
    forall k | 0 <= k < |needle| ensures hay[i + j + k] == needle[k] {
      assert needle[k] == middle[j + k] == hay[i + (j + k)];
    }
    assert OccursAt(hay, i + j, needle);
  }

  lemma PartOfConcatenation(before: string, s: string, after: string)
    ensures Contains(before + s + after, s)
  {
    assert OccursAt(before + s + after, |before|, s);
  }

  /** Lower-casing a text lower-cases every part of it where it stands. */
  lemma LowerOfPart(before: string, s: string, after: string)
    ensures Contains(Lower(before + s + after), Lower(s))
  {
    assert Lower(before + s + after) == Lower(before) + Lower(s) + Lower(after);
    PartOfConcatenation(Lower(before), Lower(s), Lower(after));
  }

  // ---- what folding forgets ----

  lemma {:induction false} StripLeftOfLower(s: string)
    ensures StripLeft(Lower(s)) == Lower(StripLeft(s))
  {
    if s != "" && IsSpace(s[0]) {
      StripLeftOfLower(s[1..]);
      assert Lower(s)[1..] == Lower(s[1..]);
    }
  }

  lemma {:induction false} StripRightOfLower(s: string)
    ensures StripRight(Lower(s)) == Lower(StripRight(s))
  {
    if s != "" && IsSpace(s[|s| - 1]) {
      StripRightOfLower(s[..|s| - 1]);
      assert Lower(s)[..|s| - 1] == Lower(s[..|s| - 1]);
    }
  }

  lemma LowerTwice(s: string)
    ensures Lower(Lower(s)) == Lower(s)
  {
  }

  lemma {:induction false} StripLeftThenBlank(s: string, c: char)
    requires IsSpace(c)
    ensures StripRight(StripLeft(s + [c])) == StripRight(StripLeft(s))
  {
    if s == "" {
      assert s + [c] == [c] && [c][1..] == "";
      assert StripLeft([c]) == "";
    } else if IsSpace(s[0]) {
      assert (s + [c])[1..] == s[1..] + [c];
      StripLeftThenBlank(s[1..], c);
    } else {
      assert (s + [c])[..|s|] == s;
    }
  }

  /** Letter case and outer blanks make no difference. */
  lemma CaseAndBlanksDoNotMatter(s: string, c: char)
    requires IsSpace(c)
    ensures Fold(Lower(s)) == Fold(s) && Fold([c] + s) == Fold(s) && Fold(s + [c]) == Fold(s)
  {
    StripLeftOfLower(s);
    StripRightOfLower(StripLeft(s));
    LowerTwice(Strip(s));
    assert ([c] + s)[1..] == s;
    StripLeftThenBlank(s, c);
  }

  /** Lower-casing replaces the 26 capitals, and nothing else. */
  lemma LowerIs(s: string, i: nat)
    requires i < |s|
    ensures Lower(s)[i] == if 65 <= s[i] as int <= 90 then (s[i] as int + 32) as char else s[i]
  {
  }

  lemma BlanksAre(c: char)
    ensures IsSpace(c) <==> c == ' ' || c == '\t' || c == '\n' || c == '\r'
  {
  }

  /** A substring is what stands between two other pieces. */
  lemma ContainsIs(a: string, needle: string, b: string)
    ensures Contains(a + needle + b, needle)
    ensures forall hay :: Contains(hay, needle) ==> exists x, y :: hay == x + needle + y
  {
    assert OccursAt(a + needle + b, |a|, needle);
    forall hay | Contains(hay, needle) ensures exists x, y :: hay == x + needle + y {
      var i :| 0 <= i <= |hay| - |needle| && OccursAt(hay, i, needle);
      assert hay == hay[..i] + needle + hay[i + |needle|..];
    }
  }
}
