/** Regular contact timing (internal/explain/cadence.go, Beaconish). Times are whole nanoseconds, gaps are
    minutes as exact reals. */
module Cadence {

  const MINUTE: int := 60_000_000_000

  // ---- ascending lists of times ----

  function Front(s: seq<int>): (r: seq<int>)
    requires s != []
    ensures s == r + [s[|s| - 1]]
  {
    s[..|s| - 1]
  }

  function Last(s: seq<int>): int
    requires s != []
  {
    s[|s| - 1]
  }

  predicate Ascending(s: seq<int>) {
    |s| >= 2 ==> Last(Front(s)) <= Last(s) && Ascending(Front(s))
  }

  predicate Climbing(s: seq<int>) {
    |s| >= 2 ==> Last(Front(s)) < Last(s) && Climbing(Front(s))
  }

  lemma Snoc(s: seq<int>, x: int)
    ensures Front(s + [x]) == s && Last(s + [x]) == x
  {
  }

  lemma AscendingSnoc(s: seq<int>, x: int)
    requires Ascending(s) && (s != [] ==> Last(s) <= x)
    ensures Ascending(s + [x]) && Last(s + [x]) == x
    ensures multiset(s + [x]) == multiset(s) + multiset{x}
  {
    Snoc(s, x);
  }

  lemma AscendingFront(s: seq<int>)
    requires Ascending(s) && s != []
    ensures Ascending(Front(s)) && (Front(s) != [] ==> Last(Front(s)) <= Last(s))
    ensures multiset(s) == multiset(Front(s)) + multiset{Last(s)}
  {
    assert s == Front(s) + [Last(s)];
  }

  function Insert(x: int, s: seq<int>): (r: seq<int>)
    requires Ascending(s)
    ensures Ascending(r) && r != []
    ensures Last(r) == if s == [] || Last(s) <= x then x else Last(s)
    ensures multiset(r) == multiset(s) + multiset{x}
  {
    hide Ascending, Last;
    if s == [] || Last(s) <= x then
      AscendingSnoc(s, x);
      s + [x]
    else
      AscendingFront(s);
      var r := Insert(x, Front(s));
      AscendingSnoc(r, Last(s));
      r + [Last(s)]
  }

  /** The library sort. */
  function Sort(s: seq<int>): (r: seq<int>)
    ensures Ascending(r) && multiset(r) == multiset(s)
  {
    if s == [] then [] else Insert(Last(s), Sort(Front(s)))
  }

  function Times(s: seq<int>): set<int> {
    set t <- s
  }

  lemma TimesSnoc(s: seq<int>, x: int)
    ensures Times(s + [x]) == Times(s) + {x}
  {
  }

  lemma SortTimes(s: seq<int>)
    ensures Times(Sort(s)) == Times(s) && |Sort(s)| == |s|
  {
    forall t ensures t in Sort(s) <==> t in s {
      assert t in multiset(Sort(s)) <==> t in multiset(s);
    }
    assert |multiset(Sort(s))| == |multiset(s)|;
  }

  /** The distinct times of an ascending list. */
  function Distinct(s: seq<int>): (r: seq<int>)
    requires Ascending(s)
    ensures Climbing(r)
    ensures s != [] ==> r != [] && Last(r) == Last(s)
    ensures |r| <= |s|
  {
    if |s| < 2 then s
    else
      var r := Distinct(Front(s));
      if Last(Front(s)) == Last(s) then r
      else
        Snoc(r, Last(s));
        r + [Last(s)]
  }

  lemma {:induction false} DistinctTimes(s: seq<int>)
    requires Ascending(s)
    ensures Times(Distinct(s)) == Times(s)
  {
    if |s| >= 2 {
      DistinctTimes(Front(s));
      TimesSnoc(Front(s), Last(s));
      TimesSnoc(Distinct(Front(s)), Last(s));
    }
  }

  lemma {:induction false} LastIsMax(s: seq<int>, t: int)
    requires Climbing(s) && t in Times(s)
    ensures t <= Last(s)
  {
    TimesSnoc(Front(s), Last(s));
    if t in Times(Front(s)) {
      LastIsMax(Front(s), t);
    }
  }

  lemma FrontTimes(s: seq<int>)
    requires Climbing(s) && s != []
    ensures Times(Front(s)) == Times(s) - {Last(s)}
  {
    TimesSnoc(Front(s), Last(s));
    if Last(s) in Times(Front(s)) {
      LastIsMax(Front(s), Last(s));
    }
  }

  lemma EmptyTimes(s: seq<int>)
    ensures Times(s) == {} <==> s == []
  {
    assert s != [] ==> Last(s) in Times(s);
  }

  lemma {:induction false} TimesSize(s: seq<int>)
    requires Climbing(s)
    ensures |Times(s)| == |s|
  {
    if s != [] {
      TimesSize(Front(s));
      FrontTimes(s);
    }
  }

  /** A set of times has only one climbing list. */
  lemma {:induction false} ClimbingUnique(a: seq<int>, b: seq<int>)
    requires Climbing(a) && Climbing(b) && Times(a) == Times(b)
    ensures a == b
  {
    hide Times, Climbing, Last;
    EmptyTimes(a);
    EmptyTimes(b);
    if a != [] {
      LastTime(a);
      LastTime(b);
      LastIsMax(b, Last(a));
      LastIsMax(a, Last(b));
      FrontTimes(a);
      FrontTimes(b);
      FrontClimbs(a);
      FrontClimbs(b);
      ClimbingUnique(Front(a), Front(b));
      FrontAndLast(a);
      FrontAndLast(b);
    }
  }

  lemma LastTime(s: seq<int>)
    requires s != []
    ensures Last(s) in Times(s)
  {
  }

  lemma FrontClimbs(s: seq<int>)
    requires Climbing(s) && s != []
    ensures Climbing(Front(s))
  {
  }

  lemma FrontAndLast(s: seq<int>)
    requires s != []
    ensures s == Front(s) + [Last(s)]
  {
  }

  // ---- gaps and their spread ----

  function Minutes(d: int): (r: real)
    ensures r > 0.0 <==> d > 0
    ensures r >= 2.0 <==> d >= 2 * MINUTE
  {
    d as real / 60_000_000_000.0
  }

  /** Differences of neighbours. */
  function Gaps(s: seq<int>): (g: seq<real>)
    ensures |g| == if s == [] then 0 else |s| - 1
  {
    if |s| < 2 then [] else Gaps(Front(s)) + [Minutes(Last(s) - Last(Front(s)))]
  }

  function Sum(g: seq<real>): real {
    if g == [] then 0.0 else Sum(g[..|g| - 1]) + g[|g| - 1]
  }

  function Mean(g: seq<real>): real
    requires g != []
  {
    Sum(g) / |g| as real
  }

  function Squares(g: seq<real>, m: real): real {
    if g == [] then 0.0 else Squares(g[..|g| - 1], m) + (g[|g| - 1] - m) * (g[|g| - 1] - m)
  }

  function Variance(g: seq<real>): real
    requires g != []
  {
    Squares(g, Mean(g)) / |g| as real
  }

  /** Average of two minutes or more, and a standard deviation below a quarter of it. */
  predicate Regular(g: seq<real>) {
    |g| >= 5 && Mean(g) >= 2.0 && Variance(g) < (Mean(g) / 4.0) * (Mean(g) / 4.0)
  }

  lemma Positive(x: real, y: real)
    requires y > 0.0
    ensures x > 0.0 <==> x * y > 0.0
  {
    if x <= 0.0 {
      assert -x * y >= 0.0;
    }
  }

  lemma Product(a: real, b: real)
    requires a >= 0.0 && b > 0.0
    ensures a < b <==> a * a < b * b
  {
    assert b * b - a * a == (b - a) * (b + a);
    Positive(b - a, b + a);
  }

  /** The quotient test of the source (square root of the variance, over the mean, below 0.25) is the same
      test without a root. */
  lemma QuotientTest(g: seq<real>, root: real)
    requires |g| >= 5 && Mean(g) >= 2.0 && root >= 0.0 && root * root == Variance(g)
    ensures root / Mean(g) < 0.25 <==> Regular(g)
  {
    var m := Mean(g);
    assert root / m < 0.25 <==> root < m / 4.0 by {
      assert root / m * m == root;
      if root / m < 0.25 {
        assert root / m * m < 0.25 * m;
      } else {
        assert root / m * m >= 0.25 * m;
      }
    }
    Product(root, m / 4.0);
  }

  /** What the function answers, stated on the distinct times alone. */
  function Judge(minutes: seq<int>): bool {
    Regular(Gaps(Distinct(Sort(minutes))))
  }

  datatype Beacon = Beacon(contacts: nat, avgGap: real, variance: real)

  /** Positive differences of neighbours, collected in a loop: the gaps of the distinct times. */
  method PositiveGaps(ms: seq<int>) returns (gaps: seq<real>)
    requires Ascending(ms) && ms != []
    ensures gaps == Gaps(Distinct(ms))
  {
    hide Ascending, Distinct, Gaps;
    gaps := [];
    PrefixAscends(ms, 1);
    OneTime(ms[0]);
    assert ms[..1] == [ms[0]];
    for i := 1 to |ms|
      invariant Ascending(ms[..i]) && gaps == Gaps(Distinct(ms[..i]))
    {
      var g := Minutes(ms[i] - ms[i - 1]);
      PrefixAscends(ms, i + 1);
      GapStep(ms[..i], ms[i], ms[..i + 1]);
      if g > 0.0 {
        gaps := gaps + [g];
      }
    }
    assert ms[..|ms|] == ms;
  }

  lemma OneTime(t: int)
    ensures Ascending([t]) && Gaps(Distinct([t])) == []
  {
  }

  lemma GapStep(s: seq<int>, t: int, s': seq<int>)
    requires s != [] && s' == s + [t] && Ascending(s) && Ascending(s')
    ensures Gaps(Distinct(s')) == Gaps(Distinct(s)) + if t > Last(s) then [Minutes(t - Last(s))] else []
  {
    hide Minutes;
    Snoc(s, t);
    Snoc(Distinct(s), t);
  }

  lemma {:induction false} PrefixAscends(s: seq<int>, n: nat)
    requires Ascending(s) && n <= |s|
    ensures Ascending(s[..n])
    ensures 1 < n ==> s[n - 2] <= s[n - 1]
    decreases |s| - n
  {
    if n < |s| {
      PrefixAscends(s, n + 1);
      assert Front(s[..n + 1]) == s[..n];
    } else {
      assert s[..n] == s;
    }
  }

  method SumOf(gaps: seq<real>) returns (sum: real)
    ensures sum == Sum(gaps)
  {
    sum := 0.0;
    for i := 0 to |gaps|
      invariant sum == Sum(gaps[..i])
    {
      assert gaps[..i + 1][..i] == gaps[..i];
      sum := sum + gaps[i];
    }
    assert gaps[..|gaps|] == gaps;
  }

  method SquaresOf(gaps: seq<real>, mean: real) returns (sq: real)
    ensures sq == Squares(gaps, mean)
  {
    sq := 0.0;
    for i := 0 to |gaps|
      invariant sq == Squares(gaps[..i], mean)
    {
      assert gaps[..i + 1][..i] == gaps[..i];
      sq := sq + (gaps[i] - mean) * (gaps[i] - mean);
    }
    assert gaps[..|gaps|] == gaps;
  }

  /** Beaconish: needs six contacts and five positive gaps; the average and the spread come from loops. */
  method Beaconish(minutes: seq<int>) returns (b: Beacon, flagged: bool)
    ensures flagged <==> Judge(minutes)
    ensures b.contacts == |minutes|
    ensures var g := Gaps(Distinct(Sort(minutes)));
            if |g| >= 5 then b.avgGap == Mean(g) && b.variance == Variance(g) else b.avgGap == 0.0 && b.variance == 0.0
  {
    hide Sort, Distinct, Gaps, Sum, Squares;
    SortTimes(minutes);
    if |minutes| < 6 {
      return Beacon(|minutes|, 0.0, 0.0), false;
    }
    var ms := Sort(minutes);
    var gaps := PositiveGaps(ms);
    if |gaps| < 5 {
      return Beacon(|ms|, 0.0, 0.0), false;
    }
    var sum := SumOf(gaps);
    var mean := sum / |gaps| as real;
    var sq := SquaresOf(gaps, mean);
    var variance := sq / |gaps| as real;
    return Beacon(|ms|, mean, variance), mean >= 2.0 && variance < (mean / 4.0) * (mean / 4.0);
  }

  // ---- what the verdict depends on ----

  lemma DistinctOf(minutes: seq<int>, list: seq<int>)
    requires Climbing(list) && Times(list) == Times(minutes)
    ensures Distinct(Sort(minutes)) == list
  {
    SortTimes(minutes);
    DistinctTimes(Sort(minutes));
    ClimbingUnique(Distinct(Sort(minutes)), list);
  }

  lemma ListOf(minutes: seq<int>)
    ensures var list := Distinct(Sort(minutes)); Climbing(list) && Times(list) == Times(minutes)
  {
    SortTimes(minutes);
    DistinctTimes(Sort(minutes));
  }

  /** Only on the set of times: order and repetition do not matter. */
  lemma VerdictOfSet(a: seq<int>, b: seq<int>)
    requires Times(a) == Times(b)
    ensures Judge(a) == Judge(b)
  {
    hide Sort, Distinct, Regular, Climbing;
    ListOf(b);
    DistinctOf(a, Distinct(Sort(b)));
  }

  /** Six contacts mean six distinct ones. */
  lemma FlaggedNeedsSix(minutes: seq<int>)
    requires Judge(minutes)
    ensures |Times(minutes)| >= 6
  {
    ListOf(minutes);
    TimesSize(Distinct(Sort(minutes)));
  }

  function Shifted(s: seq<int>, d: int): (r: seq<int>)
    ensures |r| == |s|
  {
    if s == [] then [] else Shifted(Front(s), d) + [Last(s) + d]
  }

  lemma {:induction false} ShiftedTimes(s: seq<int>, d: int, t: int)
    ensures t in Times(Shifted(s, d)) <==> t - d in Times(s)
  {
    if s != [] {
      ShiftedTimes(Front(s), d, t);
      TimesSnoc(Front(s), Last(s));
      TimesSnoc(Shifted(Front(s), d), Last(s) + d);
    }
  }

  lemma {:induction false} ShiftedGaps(s: seq<int>, d: int)
    requires Climbing(s)
    ensures Climbing(Shifted(s, d)) && Gaps(Shifted(s, d)) == Gaps(s)
    ensures s != [] ==> Last(Shifted(s, d)) == Last(s) + d
  {
    if s != [] {
      ShiftedGaps(Front(s), d);
      Snoc(Shifted(Front(s), d), Last(s) + d);
    }
  }

  /** Not on when it all happened. */
  lemma VerdictShifts(a: seq<int>, d: int)
    ensures Judge(Shifted(a, d)) == Judge(a)
  {
    hide Sort, Distinct, Regular, Climbing, Shifted;
    ListOf(a);
    var list := Distinct(Sort(a));
    ShiftedGaps(list, d);
    forall t ensures t in Times(Shifted(list, d)) <==> t in Times(Shifted(a, d)) {
      ShiftedTimes(list, d, t);
      ShiftedTimes(a, d, t);
    }
    DistinctOf(Shifted(a, d), Shifted(list, d));
  }

  /** The average gap is the whole span over the number of gaps. */
  lemma {:induction false} GapsTelescope(s: seq<int>)
    requires s != []
    ensures Sum(Gaps(s)) == Minutes(Last(s) - s[0])
  {
    hide Minutes;
    if |s| == 1 {
      MinutesAdd(0, 0);
    } else {
      GapsTelescope(Front(s));
      var g := Gaps(s);
      assert g[..|g| - 1] == Gaps(Front(s));
      MinutesAdd(Last(Front(s)) - s[0], Last(s) - Last(Front(s)));
      assert Front(s)[0] == s[0];
    }
  }

  lemma MinutesAdd(a: int, b: int)
    ensures Minutes(a + b) == Minutes(a) + Minutes(b)
  {
    var u := 60_000_000_000.0;
    assert (a + b) as real == a as real + b as real;
    assert (a as real + b as real) / u == a as real / u + b as real / u;
  }

  lemma {:induction false} SumOfEqual(g: seq<real>, x: real)
    requires forall i | 0 <= i < |g| :: g[i] == x
    ensures Sum(g) == |g| as real * x && Squares(g, x) == 0.0
  {
    if g != [] {
      SumOfEqual(g[..|g| - 1], x);
      assert (|g| as real - 1.0) * x + x == |g| as real * x;
    }
  }

  /** Each time p after the one before. */
  ghost predicate Periodic(list: seq<int>, p: int) {
    p > 0 && forall i | 0 < i < |list| :: list[i] - list[i - 1] == p
  }

  lemma {:induction false} PeriodicGaps(list: seq<int>, p: int)
    requires Periodic(list, p)
    ensures Climbing(list) && forall i | 0 <= i < |Gaps(list)| :: Gaps(list)[i] == Minutes(p)
  {
    hide Minutes;
    if |list| >= 2 {
      var s := Front(list);
      forall i | 0 < i < |s| ensures s[i] - s[i - 1] == p {
        assert list[i] - list[i - 1] == p;
      }
      PeriodicGaps(s, p);
      assert Last(list) - Last(s) == p;
    }
  }

  lemma EqualGapsRegular(g: seq<real>, x: real)
    requires |g| >= 5 && x > 0.0 && forall i | 0 <= i < |g| :: g[i] == x
    ensures Regular(g) <==> x >= 2.0
  {
    SumOfEqual(g, x);
    var n := |g| as real;
    assert Mean(g) == x by { assert n * x / n == x; }
    assert Variance(g) == 0.0 by { assert 0.0 / n == 0.0; }
    Positive(x / 4.0, x / 4.0);
  }

  /** Strictly periodic contacts, in any order and with any repetition, are flagged exactly when there are
      at least six distinct ones and the period is at least two minutes. */
  lemma PeriodicFlaggedIff(minutes: seq<int>, list: seq<int>, p: int)
    requires Periodic(list, p) && Times(list) == Times(minutes)
    ensures Judge(minutes) <==> |list| >= 6 && p >= 2 * MINUTE
  {
    hide Sort, Distinct, Climbing, Gaps;
    PeriodicGaps(list, p);
    DistinctOf(minutes, list);
    if |list| >= 6 {
      hide Regular;
      EqualGapsRegular(Gaps(list), Minutes(p));
    }
  }

  /** Every gap within a quarter of the average, none at it: flagged, given enough contacts and a long
      enough average. */
  lemma SteadyIsFlagged(minutes: seq<int>)
    requires var g := Gaps(Distinct(Sort(minutes)));
             |g| >= 5 && Mean(g) >= 2.0 && forall i | 0 <= i < |g| :: -Mean(g) / 4.0 < g[i] - Mean(g) < Mean(g) / 4.0
    ensures Judge(minutes)
  {
    hide Sort, Distinct, Climbing, Gaps, Sum, Squares;
    var g := Gaps(Distinct(Sort(minutes)));
    var m := Mean(g);
    SquaresBelow(g, m, m / 4.0);
    QuotientBelow(Squares(g, m), |g| as real, m / 4.0 * (m / 4.0));
  }

  lemma QuotientBelow(x: real, n: real, q: real)
    requires n > 0.0 && x < n * q
    ensures x / n < q
  {
    assert x / n * n == x;
    Positive(q - x / n, n);
    assert (q - x / n) * n == n * q - x;
  }

  lemma {:induction false} SquaresBelow(g: seq<real>, m: real, b: real)
    requires b > 0.0 && forall i | 0 <= i < |g| :: -b < g[i] - m < b
    ensures if g == [] then Squares(g, m) == 0.0 else Squares(g, m) < |g| as real * (b * b)
  {
    if g != [] {
      var x := g[|g| - 1] - m;
      SquaresBelow(g[..|g| - 1], m, b);
      Product(if x < 0.0 then -x else x, b);
      assert (|g| as real - 1.0) * (b * b) + b * b == |g| as real * (b * b);
    }
  }
}
