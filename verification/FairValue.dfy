/** Fair-value range and expected value (scoring/fair_value.py), in exact reals.
    The z-score test |m - mean| / sd <= 2 is compared in squares. */
module FairValue {
  import opened Base
  import opened Folds
  import opened Reals
  import opened Channels
  import opened Comps

  const INSUFFICIENT_COMPS_THRESHOLD := 5
  const HIGH_CONFIDENCE_MIN_COMPS := 10
  const MIN_COMPS_FOR_OUTLIER_TRIM := 4

  datatype Range = Range(low: real, mid: real, high: real, expected: real)

  datatype FairValue = FairValue(range: Option<Range>, compCount: nat, confidence: Bucket)

  function HasMileage(): ComparableSale -> bool { (c: ComparableSale) => c.mileageKm.Some? }

  function MileageOf(): ComparableSale -> real {
    (c: ComparableSale) => if c.mileageKm.Some? then c.mileageKm.value as real else 0.0
  }

  function Miles(comps: seq<ComparableSale>): seq<real> {
    Map(MileageOf(), Filter(HasMileage(), comps))
  }

  function Mean(miles: seq<real>): real
    requires miles != []
  {
    Sum(miles) / |miles| as real
  }

  function Deviations(mean: real, s: seq<real>): seq<real> {
    Map((x: real) => x - mean, s)
  }

  function Square(): real -> real { (x: real) => Times(x, x) }

  function Squares(s: seq<real>): seq<real> {
    Map(Square(), s)
  }

  function Variance(miles: seq<real>): real
    requires miles != []
  {
    Sum(Squares(Deviations(Mean(miles), miles))) / |miles| as real
  }

  /** Squared distance from the mean above `k`. */
  function Beyond(mean: real, k: real): real -> bool {
    (x: real) => Times(x - mean, x - mean) > k
  }

  /** Unknown mileage, or within two standard deviations. */
  function Kept(mean: real, variance: real): ComparableSale -> bool {
    (c: ComparableSale) => c.mileageKm.None? || !Beyond(mean, 4.0 * variance)(c.mileageKm.value as real)
  }

  function TrimMileageOutliers(comps: seq<ComparableSale>): seq<ComparableSale> {
    var miles := Miles(comps);
    if |comps| < MIN_COMPS_FOR_OUTLIER_TRIM || miles == [] then comps
    else if Variance(miles) == 0.0 then comps
    else Filter(Kept(Mean(miles), Variance(miles)), comps)
  }

  function PrivatePrice(c: ComparableSale): real { NormalizeToPrivate(c.price, c.saleChannel) }

  function Normalized(): ComparableSale -> real { (c: ComparableSale) => PrivatePrice(c) }

  /** The i-th inter-decile cut point of Python's statistics.quantiles(n=10). */
  function Decile(x: seq<real>, i: int): real
    requires |x| >= 10 && 1 <= i <= 9
  {
    var j := i * (|x| + 1) / 10;
    var d := (i * (|x| + 1) - 10 * j) as real;
    (Times(10.0 - d, x[j - 1]) + Times(d, x[j])) / 10.0
  }

  function Median(x: seq<real>): real
    requires x != []
  {
    var n := |x|;
    if n % 2 == 1 then x[n / 2] else (x[n / 2 - 1] + x[n / 2]) / 2.0
  }

  function AtPosition(low: real, mid: real, high: real, position: real): Range {
    Range(low, mid, high, low + Times(position, high - low))
  }

  /** Deciles when there are enough prices, else the observed extremes. */
  function Low(x: seq<real>): real
    requires x != []
  {
    if |x| >= HIGH_CONFIDENCE_MIN_COMPS then Decile(x, 1) else x[0]
  }

  function High(x: seq<real>): real
    requires x != []
  {
    if |x| >= HIGH_CONFIDENCE_MIN_COMPS then Decile(x, 9) else x[|x| - 1]
  }

  function RangeOf(x: seq<real>, position: real): Range
    requires x != []
  {
    AtPosition(Low(x), Median(x), High(x), position)
  }

  function ComputeFairValue(comps: seq<ComparableSale>, condition: string, sparse: bool): FairValue {
    var trimmed := TrimMileageOutliers(comps);
    if |trimmed| < INSUFFICIENT_COMPS_THRESHOLD then FairValue(None, |trimmed|, InsufficientComps)
    else
      var prices := Sorted(Map(Normalized(), trimmed));
      SortedIsAscendingPermutation(Map(Normalized(), trimmed));
      FairValue(Some(RangeOf(prices, ConditionPosition(condition, sparse))), |trimmed|,
                if |trimmed| >= HIGH_CONFIDENCE_MIN_COMPS then HighConfidence else Medium)
  }

  // ---- how many comps the trim can drop ----

  /** Every dropped comp has a known mileage, so drops can be counted on the mileages alone. */
  lemma {:induction false} DropsAreOutlyingMiles(mean: real, variance: real, comps: seq<ComparableSale>)
    ensures |Filter(Kept(mean, variance), comps)| + |Filter(Beyond(mean, 4.0 * variance), Miles(comps))| == |comps|
    ensures |Miles(comps)| <= |comps|
  {
    if comps != [] {
      DropsAreOutlyingMiles(mean, variance, comps[1..]);
      if comps[0].mileageKm.Some? {
        assert Miles(comps) == [comps[0].mileageKm.value as real] + Miles(comps[1..]);
      } else {
        assert Miles(comps) == Miles(comps[1..]);
      }
    }
  }

  lemma {:induction false} SquaresNonNegative(d: seq<real>)
    ensures Sum(Squares(d)) >= 0.0
  {
    if d != [] {
      SquaresNonNegative(d[1..]);
      assert Squares(d)[1..] == Squares(d[1..]);
      SquareNonNegative(d[0]);
    }
  }

  lemma {:induction false} DeviationsBoundDrops(mean: real, k: real, s: seq<real>, drops: real)
    requires drops == |Filter(Beyond(mean, k), s)| as real
    ensures Sum(Squares(Deviations(mean, s))) >= Times(k, drops)
    ensures drops > 0.0 ==> Sum(Squares(Deviations(mean, s))) > Times(k, drops)
  {
    if s != [] {
      assert Squares(Deviations(mean, s))[1..] == Squares(Deviations(mean, s[1..]));
      if Beyond(mean, k)(s[0]) {
        DeviationsBoundDrops(mean, k, s[1..], drops - 1.0);
        Distribute(k, drops - 1.0, 1.0);
      } else {
        DeviationsBoundDrops(mean, k, s[1..], drops);
        SquareNonNegative(s[0] - mean);
      }
    }
  }

  lemma VarianceTimesCount(miles: seq<real>)
    requires miles != []
    ensures Sum(Squares(Deviations(Mean(miles), miles))) == Times(Variance(miles), |miles| as real)
    ensures Variance(miles) >= 0.0
  {
    var total, n := Sum(Squares(Deviations(Mean(miles), miles))), |miles| as real;
    QuotientTimes(total, n);
    SquaresNonNegative(Deviations(Mean(miles), miles));
  }

  /** Chebyshev at two standard deviations, counted: fewer than a quarter are that far out. */
  lemma FewerThanAQuarterBeyond(mean: real, v: real, s: seq<real>, n: real)
    requires s != [] && n == |s| as real && v > 0.0
    requires Sum(Squares(Deviations(mean, s))) == Times(v, n)
    ensures 4 * |Filter(Beyond(mean, 4.0 * v), s)| < |s|
  {
    var drops := |Filter(Beyond(mean, 4.0 * v), s)| as real;
    DeviationsBoundDrops(mean, 4.0 * v, s, drops);
    if drops > 0.0 {
      assert Times(4.0 * v, drops) == Times(v, 4.0 * drops);
      CancelStrictly(v, 4.0 * drops, n);
    }
  }

  lemma {:induction false} SumOfDeviations(mean: real, s: seq<real>, n: real)
    requires n == |s| as real
    ensures Sum(Deviations(mean, s)) == Sum(s) - Times(mean, n)
  {
    if s != [] {
      SumOfDeviations(mean, s[1..], n - 1.0);
      assert Deviations(mean, s)[1..] == Deviations(mean, s[1..]);
      Distribute(mean, n - 1.0, 1.0);
    }
  }

  lemma DeviationsCancel(miles: seq<real>)
    requires miles != []
    ensures Sum(Deviations(Mean(miles), miles)) == 0.0
  {
    SumOfDeviations(Mean(miles), miles, |miles| as real);
    QuotientTimes(Sum(miles), |miles| as real);
  }

  lemma {:induction false} CauchySchwarz(d: seq<real>, n: real)
    requires n == |d| as real
    ensures Times(Sum(d), Sum(d)) <= Times(n, Sum(Squares(d)))
  {
    if d != [] {
      CauchySchwarz(d[1..], n - 1.0);
      SquaresNonNegative(d[1..]);
      assert Squares(d)[1..] == Squares(d[1..]);
      CauchySchwarzStep(n - 1.0, Sum(d[1..]), Sum(Squares(d[1..])), d[0]);
    }
  }

  lemma CauchySchwarzStep(k: real, t: real, q: real, y: real)
    requires k >= 0.0 && (k == 0.0 ==> t == 0.0)
    requires q >= 0.0 && Times(t, t) <= Times(k, q)
    ensures Times(y + t, y + t) <= Times(k + 1.0, Times(y, y) + q)
  {
    if k > 0.0 {
      CrossTerm(k, t, q, y);
    }
    SquareOfSum(y, t);
    Distribute(k + 1.0, Times(y, y), q);
    Distribute(Times(y, y), k, 1.0);
    Distribute(q, k, 1.0);
  }

  lemma SquareOfSum(y: real, t: real)
    ensures Times(y + t, y + t) == Times(y, y) + 2.0 * Times(t, y) + Times(t, t)
  {
  }

  lemma CrossTerm(k: real, t: real, q: real, y: real)
    requires k > 0.0 && Times(t, t) <= Times(k, q)
    ensures 2.0 * Times(t, y) <= q + Times(k, Times(y, y))
  {
    var z := -Times(k, y);
    SquareNonNegative(z + t);
    SquareOfSum(z, t);
    assert Times(z, z) == Times(k, Times(k, Times(y, y)));
    assert 2.0 * Times(t, z) == -Times(k, 2.0 * Times(t, y));
    Distribute(k, q, Times(k, Times(y, y)));
    Cancel(k, 2.0 * Times(t, y), q + Times(k, Times(y, y)));
  }

  /** Samuelson's inequality, for deviations that cancel: each is as large as the rest together,
      so Cauchy-Schwarz on the rest bounds it. */
  lemma FarthestDeviation(d: seq<real>, i: nat, v: real, n: real)
    requires i < |d| && n == |d| as real && Sum(d) == 0.0 && Sum(Squares(d)) == Times(v, n)
    ensures Times(d[i], d[i]) <= Times(v, n - 1.0)
  {
    var rest := d[..i] + d[i + 1..];
    SumWithout(d, i);
    SumWithout(Squares(d), i);
    assert Squares(d)[..i] + Squares(d)[i + 1..] == Squares(rest);
    CauchySchwarz(rest, n - 1.0);
    SamuelsonStep(n, d[i], Sum(rest), Sum(Squares(rest)), v);
  }

  lemma SamuelsonStep(n: real, y: real, t: real, q: real, v: real)
    requires n >= 1.0 && y + t == 0.0
    requires Times(t, t) <= Times(n - 1.0, q) && Times(y, y) + q == Times(v, n)
    ensures Times(y, y) <= Times(v, n - 1.0)
  {
    assert t == -y;
    var square := y * y;
    assert square <= (n - 1.0) * (v * n - square);
    assert (n - 1.0) * (v * n - square) == n * (v * (n - 1.0)) - n * square + square;
    Cancel(n, square, v * (n - 1.0));
  }

  lemma NotBeyondOfFive(mean: real, v: real, s: seq<real>, n: real, i: nat)
    requires i < |s| <= 5 && n == |s| as real && v >= 0.0
    requires Sum(Deviations(mean, s)) == 0.0 && Sum(Squares(Deviations(mean, s))) == Times(v, n)
    ensures !Beyond(mean, 4.0 * v)(s[i])
  {
    FarthestDeviation(Deviations(mean, s), i, v, n);
    Scale(v, n - 1.0, 4.0);
  }

  lemma NoneBeyondOfFive(mean: real, v: real, s: seq<real>, n: real)
    requires 0 < |s| <= 5 && n == |s| as real && v >= 0.0
    requires Sum(Deviations(mean, s)) == 0.0 && Sum(Squares(Deviations(mean, s))) == Times(v, n)
    ensures Filter(Beyond(mean, 4.0 * v), s) == []
  {
    forall i | 0 <= i < |s| ensures !Beyond(mean, 4.0 * v)(s[i]) {
      NotBeyondOfFive(mean, v, s, n, i);
    }
    NothingFiltered(Beyond(mean, 4.0 * v), s);
  }

  lemma {:induction false} NothingFiltered<T>(p: T -> bool, s: seq<T>)
    requires forall i :: 0 <= i < |s| ==> !p(s[i])
    ensures Filter(p, s) == []
  {
    if s != [] {
      NothingFiltered(p, s[1..]);
    }
  }

  /** What the trim keeps: everything when at most five mileages are known, and always more than
      the whole set less a quarter of the known ones. */
  lemma TrimKeepsMost(comps: seq<ComparableSale>)
    ensures |Miles(comps)| <= |comps|
    ensures |TrimMileageOutliers(comps)| <= |comps|
    ensures |Miles(comps)| <= 5 ==> |TrimMileageOutliers(comps)| == |comps|
    ensures Miles(comps) != [] ==> 4 * (|comps| - |TrimMileageOutliers(comps)|) < |Miles(comps)|
  {
    var miles := Miles(comps);
    DropsAreOutlyingMiles(0.0, 0.0, comps);
    if miles != [] && Variance(miles) != 0.0 {
      DropsAreOutlyingMiles(Mean(miles), Variance(miles), comps);
      VarianceTimesCount(miles);
      FewerThanAQuarterBeyond(Mean(miles), Variance(miles), miles, |miles| as real);
      if |miles| <= 5 {
        DeviationsCancel(miles);
        NoneBeyondOfFive(Mean(miles), Variance(miles), miles, |miles| as real);
      }
    }
  }

  /** The trim never turns a valuable set into an insufficient one, and twelve comps are
      always enough for HIGH. */
  lemma VerdictFollowsCompCount(comps: seq<ComparableSale>, condition: string, sparse: bool)
    ensures var f := ComputeFairValue(comps, condition, sparse);
            && (f.confidence == InsufficientComps <==> |comps| < INSUFFICIENT_COMPS_THRESHOLD)
            && (f.range.None? <==> |comps| < INSUFFICIENT_COMPS_THRESHOLD)
            && (|comps| >= 12 ==> f.confidence == HighConfidence)
            && (f.confidence == HighConfidence ==> |comps| >= HIGH_CONFIDENCE_MIN_COMPS)
  {
    TrimKeepsMost(comps);
  }

  /** The trim drops exactly the known mileages more than two standard deviations from the mean. */
  lemma TrimDropsTheFarOnes(comps: seq<ComparableSale>, c: ComparableSale)
    requires |comps| >= MIN_COMPS_FOR_OUTLIER_TRIM && Miles(comps) != [] && Variance(Miles(comps)) != 0.0
    ensures c in TrimMileageOutliers(comps)
            <==> c in comps && (c.mileageKm.Some? ==>
                   var away := c.mileageKm.value as real - Mean(Miles(comps));
                   Times(away, away) <= 4.0 * Variance(Miles(comps)))
  {
    FilterMember(Kept(Mean(Miles(comps)), Variance(Miles(comps))), comps, c);
  }

  // ---- twelve is the exact bound ----

  function Repeat<T>(x: T, n: nat): seq<T> { seq(n, _ => x) }

  lemma {:induction false} SumOfRepeated(x: real, n: nat, count: real)
    requires count == n as real
    ensures Sum(Repeat(x, n)) == Times(count, x)
  {
    if n > 0 {
      SumOfRepeated(x, n - 1, count - 1.0);
      assert Repeat(x, n)[1..] == Repeat(x, n - 1);
      Distribute(x, count - 1.0, 1.0);
    }
  }

  lemma {:induction false} FilterOfRepeated<T>(p: T -> bool, x: T, n: nat)
    ensures Filter(p, Repeat(x, n)) == if p(x) then Repeat(x, n) else []
  {
    if n > 0 {
      FilterOfRepeated(p, x, n - 1);
      assert Repeat(x, n)[1..] == Repeat(x, n - 1);
      assert Repeat(x, n) == [x] + Repeat(x, n - 1);
    }
  }

  const NEW_CAR := ComparableSale(10000.0, "private", Some(2015), Some(0), FromHistory)
  const OLD_CAR := ComparableSale(9000.0, "private", Some(2015), Some(110), FromHistory)

  lemma SumOfNineAndTwo(x: real, y: real)
    ensures Sum(Repeat(x, 9) + Repeat(y, 2)) == 9.0 * x + 2.0 * y
  {
    SumAppend(Repeat(x, 9), Repeat(y, 2));
    SumOfRepeated(x, 9, 9.0);
    SumOfRepeated(y, 2, 2.0);
  }

  lemma SquaresOfNineAndTwo(x: real, y: real, mean: real)
    ensures Squares(Deviations(mean, Repeat(x, 9) + Repeat(y, 2)))
            == Repeat(Times(x - mean, x - mean), 9) + Repeat(Times(y - mean, y - mean), 2)
  {
  }

  lemma MomentsOfEleven()
    ensures var miles := Repeat(0.0, 9) + Repeat(110.0, 2); Mean(miles) == 20.0 && Variance(miles) == 1800.0
  {
    SumOfNineAndTwo(0.0, 110.0);
    SquaresOfNineAndTwo(0.0, 110.0, 20.0);
    SumOfNineAndTwo(Times(0.0 - 20.0, 0.0 - 20.0), Times(110.0 - 20.0, 110.0 - 20.0));
  }

  function ElevenComps(): seq<ComparableSale> {
    Repeat(NEW_CAR, 9) + Repeat(OLD_CAR, 2)
  }

  lemma MilesOfEleven()
    ensures Miles(ElevenComps()) == Repeat(0.0, 9) + Repeat(110.0, 2)
  {
    FilterAppend(HasMileage(), Repeat(NEW_CAR, 9), Repeat(OLD_CAR, 2));
    FilterOfRepeated(HasMileage(), NEW_CAR, 9);
    FilterOfRepeated(HasMileage(), OLD_CAR, 2);
  }

  lemma KeptIfNear(mean: real, variance: real, c: ComparableSale, miles: real)
    requires c.mileageKm.Some? && c.mileageKm.value as real == miles
    ensures Kept(mean, variance)(c) <==> Times(miles - mean, miles - mean) <= 4.0 * variance
  {
  }

  lemma KeptOfEleven()
    ensures Filter(Kept(20.0, 1800.0), ElevenComps()) == Repeat(NEW_CAR, 9)
  {
    var kept := Kept(20.0, 1800.0);
    assert Times(0.0 - 20.0, 0.0 - 20.0) == 400.0 && Times(110.0 - 20.0, 110.0 - 20.0) == 8100.0;
    KeptIfNear(20.0, 1800.0, NEW_CAR, 0.0);
    KeptIfNear(20.0, 1800.0, OLD_CAR, 110.0);
    FilterOfTwoKinds(kept, NEW_CAR, 9, OLD_CAR, 2);
  }

  lemma FilterOfTwoKinds(p: ComparableSale -> bool, x: ComparableSale, m: nat, y: ComparableSale, n: nat)
    requires p(x) && !p(y)
    ensures Filter(p, Repeat(x, m) + Repeat(y, n)) == Repeat(x, m)
  {
    FilterAppend(p, Repeat(x, m), Repeat(y, n));
    FilterOfRepeated(p, x, m);
    FilterOfRepeated(p, y, n);
  }

  lemma TrimIsFilter(comps: seq<ComparableSale>, miles: seq<real>, mean: real, variance: real)
    requires |comps| >= MIN_COMPS_FOR_OUTLIER_TRIM && miles != [] && miles == Miles(comps)
    requires Mean(miles) == mean && Variance(miles) == variance && variance != 0.0
    ensures TrimMileageOutliers(comps) == Filter(Kept(mean, variance), comps)
  {
  }

  lemma NineOfElevenAreKept()
    ensures |TrimMileageOutliers(ElevenComps())| == 9
  {
    MilesOfEleven();
    MomentsOfEleven();
    KeptOfEleven();
    TrimIsFilter(ElevenComps(), Repeat(0.0, 9) + Repeat(110.0, 2), 20.0, 1800.0);
  }

  /** Eleven comps need not give HIGH: two of these are trimmed. */
  lemma ElevenMayBeMedium(condition: string, sparse: bool)
    ensures |ElevenComps()| == 11 && ComputeFairValue(ElevenComps(), condition, sparse).confidence == Medium
  {
    NineOfElevenAreKept();
  }

  // ---- the range ----

  /** The value at a fractional rank (1 is the smallest), straight lines drawn between neighbours. */
  function AtRank(x: seq<real>, rank: real): real
    requires 1.0 <= rank && rank.Floor < |x|
  {
    x[rank.Floor - 1] + Times(rank - rank.Floor as real, x[rank.Floor] - x[rank.Floor - 1])
  }

  lemma TenthsAsRank(m: int)
    ensures var rank := m as real / 10.0;
            rank.Floor == m / 10 && rank - rank.Floor as real == (m - 10 * (m / 10)) as real / 10.0
  {
    var j, d := m / 10, m % 10;
    assert m as real / 10.0 == j as real + d as real / 10.0;
  }

  lemma BlendIsStep(d: real, p: real, q: real)
    ensures (Times(10.0 - d, p) + Times(d, q)) / 10.0 == p + Times(d / 10.0, q - p)
  {
    assert (10.0 - d) * p + d * q == 10.0 * p + d * (q - p);
  }

  /** The i-th decile is the value at rank i (n + 1) / 10. */
  lemma DecileIsARank(x: seq<real>, i: int)
    requires |x| >= 10 && 1 <= i <= 9
    ensures var rank := (i * (|x| + 1)) as real / 10.0;
            1.0 <= rank && rank.Floor < |x| && Decile(x, i) == AtRank(x, rank)
  {
    var m := i * (|x| + 1);
    assert 10 <= m && m / 10 < |x|;
    TenthsAsRank(m);
    BlendIsStep((m - 10 * (m / 10)) as real, x[m / 10 - 1], x[m / 10]);
  }

  lemma HalvesAsRank(m: int)
    ensures var rank := m as real / 2.0;
            rank.Floor == m / 2 && rank - rank.Floor as real == if m % 2 == 0 then 0.0 else 0.5
  {
    assert m as real / 2.0 == (m / 2) as real + (m % 2) as real / 2.0;
  }

  lemma HalfStep(p: real, q: real)
    ensures p + Times(0.5, q - p) == (p + q) / 2.0 && p + Times(0.0, q - p) == p
  {
  }

  /** The median is the value at rank (n + 1) / 2. */
  lemma MedianIsARank(x: seq<real>)
    requires |x| >= 2
    ensures var rank := (|x| + 1) as real / 2.0;
            1.0 <= rank && rank.Floor < |x| && Median(x) == AtRank(x, rank)
  {
    HalvesAsRank(|x| + 1);
    HalfStep(x[(|x| + 1) / 2 - 1], x[(|x| + 1) / 2]);
  }

  ghost predicate RangeReadsRanksOf(r: Range, x: seq<real>)
    requires |x| >= 5
  {
    var n := |x|;
    && 1.0 <= (n + 1) as real / 2.0 && ((n + 1) as real / 2.0).Floor < n
    && r.mid == AtRank(x, (n + 1) as real / 2.0)
    && if n < 10 then r.low == x[0] && r.high == x[n - 1]
       else
         && 1.0 <= (1 * (n + 1)) as real / 10.0 && ((1 * (n + 1)) as real / 10.0).Floor < n
         && 1.0 <= (9 * (n + 1)) as real / 10.0 && ((9 * (n + 1)) as real / 10.0).Floor < n
         && r.low == AtRank(x, (1 * (n + 1)) as real / 10.0)
         && r.high == AtRank(x, (9 * (n + 1)) as real / 10.0)
  }

  /** With ten or more prices, low, mid and high are read at ranks (n + 1) / 10, (n + 1) / 2 and
      9 (n + 1) / 10; with fewer, low and high are the ends. */
  lemma RangeReadsRanks(x: seq<real>, position: real)
    requires |x| >= INSUFFICIENT_COMPS_THRESHOLD
    ensures RangeReadsRanksOf(RangeOf(x, position), x)
  {
    MedianIsARank(x);
    if |x| >= 10 {
      DecileIsARank(x, 1);
      DecileIsARank(x, 9);
    }
  }

  lemma DecileBetween(x: seq<real>, i: int, lo: int, hi: int)
    requires |x| >= 10 && 1 <= i <= 9 && Ascending(x)
    requires 0 <= lo <= i * (|x| + 1) / 10 - 1 && i * (|x| + 1) / 10 <= hi < |x|
    ensures x[lo] <= Decile(x, i) <= x[hi]
  {
    var j := i * (|x| + 1) / 10;
    var d := (i * (|x| + 1) - 10 * j) as real;
    assert x[lo] <= x[j - 1] <= x[j] <= x[hi];
    Blend(10.0 - d, d, x[j - 1], x[j], x[lo], x[hi]);
  }

  lemma MedianBetween(x: seq<real>, lo: int, hi: int)
    requires Ascending(x) && 0 <= lo <= (|x| - 1) / 2 && |x| / 2 <= hi < |x|
    ensures x[lo] <= Median(x) <= x[hi]
  {
    assert x[lo] <= x[(|x| - 1) / 2] <= x[|x| / 2] <= x[hi];
  }

  /** The spread of either form: within the observed prices and around the median. */
  lemma EndsOrdered(x: seq<real>)
    requires x != [] && Ascending(x)
    ensures x[0] <= Low(x) <= Median(x) <= High(x) <= x[|x| - 1]
  {
    var n := |x|;
    if n >= HIGH_CONFIDENCE_MIN_COMPS {
      var m := 1 * (n + 1) / 10;
      var h := 9 * (n + 1) / 10 - 1;
      assert 0 <= m <= (n - 1) / 2 && n / 2 <= h <= n - 2;
      DecileBetween(x, 1, 0, m);
      DecileBetween(x, 9, h, n - 1);
      MedianBetween(x, m, h);
    } else {
      MedianBetween(x, 0, n - 1);
    }
  }

  lemma AtPositionOrdered(low: real, mid: real, high: real, position: real)
    requires low <= high && 0.0 <= position <= 1.0
    ensures low <= AtPosition(low, mid, high, position).expected <= high
  {
    Fraction(position, high - low);
  }

  lemma AtLaterPosition(low: real, mid: real, high: real, p: real, q: real)
    requires low <= high && p < q
    ensures var e, f := AtPosition(low, mid, high, p).expected, AtPosition(low, mid, high, q).expected;
            e <= f && (low < high ==> e < f)
  {
    LargerFraction(p, q, high - low);
  }

  lemma TrimSelects(comps: seq<ComparableSale>, c: ComparableSale)
    requires c in TrimMileageOutliers(comps)
    ensures c in comps
  {
    if TrimMileageOutliers(comps) != comps {
      FilterMember(Kept(Mean(Miles(comps)), Variance(Miles(comps))), comps, c);
    }
  }

  /** The sorted private-party prices the range is read from. */
  function PricesUsed(comps: seq<ComparableSale>): seq<real> {
    Sorted(Map(Normalized(), TrimMileageOutliers(comps)))
  }

  /** Each of them is the private-party price of one of the comps. */
  lemma PriceUsedIsSomeComp(comps: seq<ComparableSale>, k: nat) returns (c: ComparableSale)
    requires k < |PricesUsed(comps)|
    ensures c in comps && PrivatePrice(c) == PricesUsed(comps)[k]
  {
    var prices := Map(Normalized(), TrimMileageOutliers(comps));
    SortedIsAscendingPermutation(prices);
    assert Sorted(prices)[k] in multiset(Sorted(prices));
    assert Sorted(prices)[k] in prices;
    var i :| 0 <= i < |prices| && prices[i] == Sorted(prices)[k];
    c := TrimMileageOutliers(comps)[i];
    TrimSelects(comps, c);
  }

  lemma EndComps(comps: seq<ComparableSale>) returns (c: ComparableSale, d: ComparableSale)
    requires PricesUsed(comps) != []
    ensures c in comps && PrivatePrice(c) == PricesUsed(comps)[0]
    ensures d in comps && PrivatePrice(d) == PricesUsed(comps)[|PricesUsed(comps)| - 1]
  {
    c := PriceUsedIsSomeComp(comps, 0);
    d := PriceUsedIsSomeComp(comps, |PricesUsed(comps)| - 1);
  }

  lemma RangeOfOrdered(x: seq<real>, position: real)
    requires x != [] && Ascending(x) && 0.0 <= position <= 1.0
    ensures var r := RangeOf(x, position);
            && x[0] <= r.low <= r.mid <= r.high <= x[|x| - 1]
            && r.low <= r.expected <= r.high
  {
    EndsOrdered(x);
    AtPositionOrdered(Low(x), Median(x), High(x), position);
  }

  /** least <= low <= mid <= high <= greatest, and low <= expected <= high. */
  ghost predicate Spans(f: FairValue, least: real, greatest: real) {
    && f.range.Some?
    && var r := f.range.value;
    && least <= r.low <= r.mid <= r.high <= greatest
    && r.low <= r.expected <= r.high
  }

  lemma RangeWithinPrices(comps: seq<ComparableSale>, condition: string, sparse: bool)
    requires |comps| >= INSUFFICIENT_COMPS_THRESHOLD
    ensures var x := PricesUsed(comps);
            x != [] && Spans(ComputeFairValue(comps, condition, sparse), x[0], x[|x| - 1])
  {
    VerdictFollowsCompCount(comps, condition, sparse);
    SortedIsAscendingPermutation(Map(Normalized(), TrimMileageOutliers(comps)));
    RangeOfOrdered(PricesUsed(comps), ConditionPosition(condition, sparse));
  }

  /** smallest <= low <= mid <= high <= largest private-party price, and low <= expected <= high. */
  lemma FairValueIsOrdered(comps: seq<ComparableSale>, condition: string, sparse: bool)
      returns (cheapest: ComparableSale, dearest: ComparableSale)
    requires |comps| >= INSUFFICIENT_COMPS_THRESHOLD
    ensures cheapest in comps && dearest in comps
    ensures Spans(ComputeFairValue(comps, condition, sparse), PrivatePrice(cheapest), PrivatePrice(dearest))
  {
    RangeWithinPrices(comps, condition, sparse);
    cheapest, dearest := EndComps(comps);
  }

  ghost function Expected(comps: seq<ComparableSale>, condition: string, sparse: bool): real
    requires |comps| >= INSUFFICIENT_COMPS_THRESHOLD
  {
    VerdictFollowsCompCount(comps, condition, sparse);
    ComputeFairValue(comps, condition, sparse).range.value.expected
  }

  /** A better condition never lowers the expected value, and the coerced "decent" sits strictly
      between "poor" and a confident "decent" unless the range is a single point. */
  lemma ExpectedFollowsCondition(comps: seq<ComparableSale>)
    requires |comps| >= INSUFFICIENT_COMPS_THRESHOLD
    ensures Expected(comps, "bad", false) <= Expected(comps, "poor", false)
            <= Expected(comps, "decent", true) <= Expected(comps, "decent", false)
            <= Expected(comps, "good", false) <= Expected(comps, "great", false)
    ensures var f := ComputeFairValue(comps, "bad", false);
            && f.range.Some?
            && Expected(comps, "bad", false) == f.range.value.low
            && Expected(comps, "great", false) == f.range.value.high
            && (f.range.value.low < f.range.value.high ==>
                  Expected(comps, "poor", false) < Expected(comps, "decent", true)
                  < Expected(comps, "decent", false))
  {
    VerdictFollowsCompCount(comps, "bad", false);
    var prices := Map(Normalized(), TrimMileageOutliers(comps));
    SortedIsAscendingPermutation(prices);
    var x := Sorted(prices);
    EndsOrdered(x);
    AtLaterPosition(Low(x), Median(x), High(x), 0.0, 0.25);
    AtLaterPosition(Low(x), Median(x), High(x), 0.25, 0.35);
    AtLaterPosition(Low(x), Median(x), High(x), 0.35, 0.5);
    AtLaterPosition(Low(x), Median(x), High(x), 0.5, 0.75);
    AtLaterPosition(Low(x), Median(x), High(x), 0.75, 1.0);
  }

  // ---- prices in, values out ----

  /** The same cars through the same channels, at prices nowhere lower. */
  ghost predicate PricesRaised(a: seq<ComparableSale>, b: seq<ComparableSale>) {
    |a| == |b| && forall i :: 0 <= i < |a| ==>
      a[i].mileageKm == b[i].mileageKm && a[i].saleChannel == b[i].saleChannel && a[i].price <= b[i].price
  }

  lemma {:induction false} FilterAligned(p: ComparableSale -> bool, a: seq<ComparableSale>, b: seq<ComparableSale>)
    requires PricesRaised(a, b)
    requires forall i :: 0 <= i < |a| ==> p(a[i]) == p(b[i])
    ensures PricesRaised(Filter(p, a), Filter(p, b))
  {
    if a != [] {
      FilterAligned(p, a[1..], b[1..]);
    }
  }

  lemma TrimAligned(a: seq<ComparableSale>, b: seq<ComparableSale>)
    requires PricesRaised(a, b)
    ensures PricesRaised(TrimMileageOutliers(a), TrimMileageOutliers(b))
  {
    FilterAligned(HasMileage(), a, b);
    var miles := Miles(a);
    assert miles == Miles(b);
    if miles != [] {
      FilterAligned(Kept(Mean(miles), Variance(miles)), a, b);
    }
  }

  lemma DecileMonotone(x: seq<real>, y: seq<real>, i: int)
    requires |x| >= 10 && 1 <= i <= 9 && Below(x, y)
    ensures Decile(x, i) <= Decile(y, i)
  {
    var j := i * (|x| + 1) / 10;
    var d := (i * (|x| + 1) - 10 * j) as real;
    BlendMonotone(10.0 - d, d, x[j - 1], x[j], y[j - 1], y[j]);
  }

  lemma EndsMonotone(x: seq<real>, y: seq<real>)
    requires x != [] && Below(x, y)
    ensures Low(x) <= Low(y) && Median(x) <= Median(y) && High(x) <= High(y)
  {
    if |x| >= HIGH_CONFIDENCE_MIN_COMPS {
      DecileMonotone(x, y, 1);
      DecileMonotone(x, y, 9);
    }
  }

  lemma AtPositionMonotone(low: real, mid: real, high: real, low': real, mid': real, high': real, position: real)
    requires low <= low' && mid <= mid' && high <= high' && 0.0 <= position <= 1.0
    ensures NowhereLower(AtPosition(low, mid, high, position), AtPosition(low', mid', high', position))
  {
    InterpolateMonotone(position, low, high, low', high');
  }

  ghost predicate NowhereLower(r: Range, s: Range) {
    r.low <= s.low && r.mid <= s.mid && r.high <= s.high && r.expected <= s.expected
  }

  /** Raising any comp prices pointwise never lowers any of the four values, and never
      changes the count or the confidence. */
  lemma RaisingPricesNeverLowersValue(
      a: seq<ComparableSale>, b: seq<ComparableSale>, condition: string, sparse: bool)
    requires PricesRaised(a, b)
    ensures var f, g := ComputeFairValue(a, condition, sparse), ComputeFairValue(b, condition, sparse);
            && f.compCount == g.compCount && f.confidence == g.confidence
            && f.range.Some? == g.range.Some?
            && (f.range.Some? ==> NowhereLower(f.range.value, g.range.value))
  {
    TrimAligned(a, b);
    var ta, tb := TrimMileageOutliers(a), TrimMileageOutliers(b);
    if |ta| >= INSUFFICIENT_COMPS_THRESHOLD {
      var pa, pb := Map(Normalized(), ta), Map(Normalized(), tb);
      forall i | 0 <= i < |pa| ensures pa[i] <= pb[i] {
        assert ta[i].price <= tb[i].price && ta[i].saleChannel == tb[i].saleChannel;
        Scale(Multiplier(ta[i].saleChannel), ta[i].price, tb[i].price);
      }
      SortDominance(pa, pb);
      SortedIsAscendingPermutation(pa);
      var x, y := Sorted(pa), Sorted(pb);
      EndsMonotone(x, y);
      AtPositionMonotone(Low(x), Median(x), High(x), Low(y), Median(y), High(y),
                         ConditionPosition(condition, sparse));
    }
  }

  lemma MomentsPermuted(a: seq<real>, b: seq<real>, mean: real)
    requires multiset(a) == multiset(b)
    ensures Sum(Squares(Deviations(mean, a))) == Sum(Squares(Deviations(mean, b)))
  {
    var f, g := (x: real) => x - mean, (x: real) => x * x;
    MapPermuted(f, a, b);
    assert Map(f, a) == Deviations(mean, a) && Map(f, b) == Deviations(mean, b);
    MapPermuted(g, Deviations(mean, a), Deviations(mean, b));
    assert Map(g, Deviations(mean, a)) == Squares(Deviations(mean, a));
    assert Map(g, Deviations(mean, b)) == Squares(Deviations(mean, b));
    SumPermuted(Squares(Deviations(mean, a)), Squares(Deviations(mean, b)));
  }

  /** The order in which comps were fetched changes nothing. */
  lemma OrderOfCompsIsIrrelevant(
      a: seq<ComparableSale>, b: seq<ComparableSale>, condition: string, sparse: bool)
    requires multiset(a) == multiset(b)
    ensures ComputeFairValue(a, condition, sparse) == ComputeFairValue(b, condition, sparse)
  {
    assert |multiset(a)| == |a| && |multiset(b)| == |b|;
    FilterPermuted(HasMileage(), a, b);
    MapPermuted(MileageOf(), Filter(HasMileage(), a), Filter(HasMileage(), b));
    var ma, mb := Miles(a), Miles(b);
    assert |multiset(ma)| == |ma| && |multiset(mb)| == |mb|;
    if ma != [] {
      SumPermuted(ma, mb);
      MomentsPermuted(ma, mb, Mean(ma));
      FilterPermuted(Kept(Mean(ma), Variance(ma)), a, b);
    }
    var ta, tb := TrimMileageOutliers(a), TrimMileageOutliers(b);
    assert multiset(ta) == multiset(tb);
    assert |multiset(ta)| == |ta| && |multiset(tb)| == |tb|;
    MapPermuted(Normalized(), ta, tb);
    SortedPermuted(Map(Normalized(), ta), Map(Normalized(), tb));
  }

  // ---- the channels, and the value as a whole ----

  /** The comp as a private sale would have shown it. */
  function AsPrivate(c: ComparableSale): ComparableSale {
    c.(saleChannel := "private",
       price := if c.saleChannel == "dealer" then c.price * 0.92
                else if c.saleChannel == "auction_estate" then c.price * 1.2
                else if c.saleChannel == "auction_govt" then c.price * 1.15
                else if c.saleChannel == "auction_commercial" then c.price * 1.1
                else if c.saleChannel == "auction_salvage" then c.price * 0.5
                else c.price)
  }

  function ToPrivate(): ComparableSale -> ComparableSale { (c: ComparableSale) => AsPrivate(c) }

  function AskedPrivately(): ComparableSale -> real { (c: ComparableSale) => AsPrivate(c).price }

  lemma PrivatePriceIs(c: ComparableSale)
    ensures PrivatePrice(c) == AsPrivate(c).price && PrivatePrice(AsPrivate(c)) == AsPrivate(c).price
  {
  }

  lemma {:induction false} FilterOfPrivate(p: ComparableSale -> bool, s: seq<ComparableSale>)
    requires forall i :: 0 <= i < |s| ==> p(AsPrivate(s[i])) == p(s[i])
    ensures Filter(p, Map(ToPrivate(), s)) == Map(ToPrivate(), Filter(p, s))
  {
    if s != [] {
      assert Map(ToPrivate(), s)[1..] == Map(ToPrivate(), s[1..]);
      FilterOfPrivate(p, s[1..]);
    }
  }

  lemma TrimOfPrivate(comps: seq<ComparableSale>)
    ensures TrimMileageOutliers(Map(ToPrivate(), comps)) == Map(ToPrivate(), TrimMileageOutliers(comps))
  {
    FilterOfPrivate(HasMileage(), comps);
    var miles := Miles(comps);
    assert Miles(Map(ToPrivate(), comps)) == miles;
    if miles != [] {
      FilterOfPrivate(Kept(Mean(miles), Variance(miles)), comps);
    }
  }

  lemma NormalizedOfPrivate(comps: seq<ComparableSale>)
    ensures Map(Normalized(), Map(ToPrivate(), comps)) == Map(AskedPrivately(), comps)
    ensures Map(Normalized(), comps) == Map(AskedPrivately(), comps)
  {
    forall i | 0 <= i < |comps|
      ensures Normalized()(AsPrivate(comps[i])) == AskedPrivately()(comps[i]) == Normalized()(comps[i])
    {
      PrivatePriceIs(comps[i]);
    }
  }

  /** The channel of a comp matters through its multiplier alone: stating every comp as a private sale
      changes no value. */
  lemma ChannelsAreMultipliers(comps: seq<ComparableSale>, condition: string, sparse: bool)
    ensures ComputeFairValue(Map(ToPrivate(), comps), condition, sparse) == ComputeFairValue(comps, condition, sparse)
  {
    TrimOfPrivate(comps);
    NormalizedOfPrivate(TrimMileageOutliers(comps));
  }

  lemma PricesAreUnique(comps: seq<ComparableSale>, x: seq<real>)
    requires Ascending(x) && multiset(x) == multiset(Map(AskedPrivately(), TrimMileageOutliers(comps)))
    ensures x == PricesUsed(comps) && |x| == |TrimMileageOutliers(comps)|
  {
    var prices := Map(AskedPrivately(), TrimMileageOutliers(comps));
    NormalizedOfPrivate(TrimMileageOutliers(comps));
    SortedIsAscendingPermutation(prices);
    AscendingIsUnique(x, Sorted(prices));
  }

  lemma RangeIsReadOffPrices(comps: seq<ComparableSale>, condition: string, sparse: bool)
    requires |comps| >= INSUFFICIENT_COMPS_THRESHOLD
    ensures var f, x := ComputeFairValue(comps, condition, sparse), PricesUsed(comps);
            && |x| == |TrimMileageOutliers(comps)| >= 5
            && f == FairValue(Some(RangeOf(x, ConditionPosition(condition, sparse))), |x|,
                              if |x| >= 10 then HighConfidence else Medium)
  {
    VerdictFollowsCompCount(comps, condition, sparse);
    SortedIsAscendingPermutation(Map(Normalized(), TrimMileageOutliers(comps)));
  }

  /** Where each condition stands between low and high. */
  function PositionFor(condition: string, sparse: bool): real {
    if condition == "bad" then 0.0 else if condition == "poor" then 0.25
    else if condition == "decent" then (if sparse then 0.35 else 0.5)
    else if condition == "good" then 0.75 else if condition == "great" then 1.0 else 0.5
  }

  lemma PositionIs(condition: string, sparse: bool)
    ensures ConditionPosition(condition, sparse) == PositionFor(condition, sparse)
  {
  }

  /** Count, confidence, range and expected value, read off ascending prices. */
  ghost predicate ReadsOff(f: FairValue, x: seq<real>, position: real)
    requires |x| >= 5
  {
    && f.range.Some? && f.compCount == |x| && (f.confidence == if |x| >= 10 then HighConfidence else Medium)
    && RangeReadsRanksOf(f.range.value, x)
    && f.range.value.expected == f.range.value.low + Times(position, f.range.value.high - f.range.value.low)
  }

  lemma RangeReadsOff(x: seq<real>, position: real, n: nat, confidence: Bucket)
    requires |x| >= 5 && n == |x| && (confidence == if n >= 10 then HighConfidence else Medium)
    ensures ReadsOff(FairValue(Some(RangeOf(x, position)), n, confidence), x, position)
  {
    RangeReadsRanks(x, position);
  }

  /** The whole computation against a reference.  Let `x` be the ascending private-party prices of the comps
      the trim kept.  From ten on, low, mid and high are the values at ranks (n + 1) / 10, (n + 1) / 2 and
      9 (n + 1) / 10; below ten, low and high are the ends.  The expected value stands between low and high
      at the position of the condition. */
  lemma FairValueIsReadOffPrices(comps: seq<ComparableSale>, x: seq<real>, condition: string, sparse: bool)
    requires |comps| >= 5
    requires Ascending(x) && multiset(x) == multiset(Map(AskedPrivately(), TrimMileageOutliers(comps)))
    ensures |x| >= 5 && ReadsOff(ComputeFairValue(comps, condition, sparse), x, PositionFor(condition, sparse))
  {
    PricesAreUnique(comps, x);
    RangeIsReadOffPrices(comps, condition, sparse);
    PositionIs(condition, sparse);
    RangeReadsOff(x, PositionFor(condition, sparse), |x|, if |x| >= 10 then HighConfidence else Medium);
  }
}
