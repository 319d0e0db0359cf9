/** Version order (agent-core/src/version.rs) and the automatic updates that follow it
    (pmacct-agent/src/update.rs, the update branch of runner.rs). */
module Version {
  import opened Options
  import opened Text
  import Findings

  const U64: nat := 0x1_0000_0000_0000_0000

  // ---- parsing ----

  function StripV(s: string): (r: string)
    ensures |r| <= |s| && s[|s| - |r|..] == r
    ensures forall i | 0 <= i < |s| - |r| :: s[i] == 'v'
    ensures r != [] ==> r[0] != 'v'
  {
    if s != [] && s[0] == 'v' then StripV(s[1..]) else s
  }

  predicate IsSeparator(c: char) {
    c in ".-+"
  }

  predicate Separated(s: string) {
    forall i | 0 <= i < |s| :: !IsSeparator(s[i])
  }

  /** The pieces between separators; never none. */
  function Split(s: string): (r: seq<string>)
    ensures r != []
    ensures forall p <- r :: Separated(p)
  {
    if s == [] then [""]
    else
      var rest := Split(s[1..]);
      assert rest[0] in rest && forall p <- rest[1..] :: p in rest;
      if IsSeparator(s[0]) then [""] + rest else [[s[0]] + rest[0]] + rest[1..]
  }

  predicate AllDigits(s: string) {
    forall i | 0 <= i < |s| :: '0' <= s[i] <= '9'
  }

  function Decimal(s: string): nat
    requires AllDigits(s)
  {
    if s == [] then 0 else Decimal(s[..|s| - 1]) * 10 + (s[|s| - 1] as int - '0' as int)
  }

  /** A piece as a 64-bit number; words, empty pieces and numbers too large count as 0. */
  function Number(piece: string): (n: nat)
    ensures n < U64
  {
    if piece != [] && AllDigits(piece) && Decimal(piece) < U64 then Decimal(piece) else 0
  }

  function Parse(v: string): (r: seq<nat>)
    ensures r != []
  {
    var pieces := Split(StripV(TrimSpace(v)));
    seq(|pieces|, i requires 0 <= i < |pieces| => Number(pieces[i]))
  }

  /** A text without dots, hyphens and plus signs is one piece; any of the three ends a piece. */
  lemma {:induction false} SplitIs(p: string, c: char, s: string)
    requires c == '.' || c == '-' || c == '+'
    requires forall i | 0 <= i < |p| :: p[i] != '.' && p[i] != '-' && p[i] != '+'
    ensures Split(p) == [p] && Split(p + [c] + s) == [p] + Split(s)
  {
    Separators(c);
    if p == [] {
      assert p + [c] + s == [c] + s && ([c] + s)[1..] == s;
    } else {
      Separators(p[0]);
      SplitIs(p[1..], c, s);
      assert p == [p[0]] + p[1..];
      assert (p + [c] + s)[1..] == p[1..] + [c] + s;
    }
  }

  lemma Separators(c: char)
    ensures IsSeparator(c) <==> c == '.' || c == '-' || c == '+'
  {
    var all := ".-+";
    assert all[0] == '.' && all[1] == '-' && all[2] == '+';
  }

  /** A piece counts as the number it spells if that fits 64 bits, and as 0 if it spells none. */
  lemma NumberIs(n: nat, word: string)
    ensures Number(Findings.Itoa(n)) == if n <= 0xFFFF_FFFF_FFFF_FFFF then n else 0
    ensures word == "" || (exists i | 0 <= i < |word| :: !(48 <= word[i] as int <= 57)) ==> Number(word) == 0
  {
    DecimalItoa(n);
  }

  // ---- the order ----

  /** A part of a parsed version; missing parts are 0. */
  function At(a: seq<nat>, i: nat): nat {
    if i < |a| then a[i] else 0
  }

  ghost predicate AgreeBelow(a: seq<nat>, b: seq<nat>, k: nat) {
    forall i: nat | i < k :: At(a, i) == At(b, i)
  }

  /** The first differing part decides. */
  ghost predicate Above(a: seq<nat>, b: seq<nat>) {
    exists k: nat :: At(a, k) > At(b, k) && AgreeBelow(a, b, k)
  }

  function Zeros(n: nat): (z: seq<nat>)
    ensures |z| == n && forall i | 0 <= i < n :: z[i] == 0
  {
    seq(n, _ => 0)
  }

  function Padded(a: seq<nat>, n: nat): seq<nat>
    requires |a| <= n
  {
    a + Zeros(n - |a|)
  }

  /** Equal after padding the shorter one with zeros. */
  predicate Tied(a: seq<nat>, b: seq<nat>) {
    var n := if |a| < |b| then |b| else |a|;
    Padded(a, n) == Padded(b, n)
  }

  lemma TiedMeansSameParts(a: seq<nat>, b: seq<nat>)
    ensures Tied(a, b) <==> forall i: nat :: At(a, i) == At(b, i)
  {
    var n := if |a| < |b| then |b| else |a|;
    assert forall i | 0 <= i < n :: Padded(a, n)[i] == At(a, i) && Padded(b, n)[i] == At(b, i);
    if Tied(a, b) {
      forall i: nat ensures At(a, i) == At(b, i) {
        if i < n {
          assert Padded(a, n)[i] == Padded(b, n)[i];
        }
      }
    }
  }

  lemma DecidedAt(a: seq<nat>, b: seq<nat>, k: nat)
    requires AgreeBelow(a, b, k) && At(a, k) != At(b, k)
    ensures Above(a, b) <==> At(a, k) > At(b, k)
  {
  }

  lemma AllAgree(a: seq<nat>, b: seq<nat>, n: nat)
    requires |a| <= n && |b| <= n && AgreeBelow(a, b, n)
    ensures !Above(a, b)
  {
  }

  /** `newer`: an indexed loop over the longer of the two, leaving at the first difference. */
  method Newer(candidate: string, current: string) returns (r: bool)
    ensures r <==> Above(Parse(candidate), Parse(current))
  {
    hide Parse;
    hide Above;
    var a, b := Parse(candidate), Parse(current);
    var n := if |a| < |b| then |b| else |a|;
    for i := 0 to n
      invariant AgreeBelow(a, b, i)
    {
      var x, y := At(a, i), At(b, i);
      if x != y {
        DecidedAt(a, b, i);
        return x > y;
      }
    }
    AllAgree(a, b, n);
    return false;
  }

  /** Every two versions are newer, older or tied, never two of these: ties are exactly equality after
      zero padding. */
  lemma Trichotomy(a: seq<nat>, b: seq<nat>)
    ensures Above(a, b) || Above(b, a) || Tied(a, b)
    ensures !(Above(a, b) && Above(b, a)) && !(Above(a, b) && Tied(a, b))
  {
    TiedMeansSameParts(a, b);
    if !Tied(a, b) {
      var i: nat :| At(a, i) != At(b, i);
      var k := FirstDifference(a, b, i);
      assert AgreeBelow(b, a, k);
    }
  }

  lemma {:induction false} FirstDifference(a: seq<nat>, b: seq<nat>, i: nat) returns (k: nat)
    requires At(a, i) != At(b, i)
    ensures At(a, k) != At(b, k) && AgreeBelow(a, b, k)
  {
    k := 0;
    while At(a, k) == At(b, k)
      invariant k <= i && AgreeBelow(a, b, k)
      decreases i - k
    {
      k := k + 1;
    }
  }

  lemma AboveTransitive(a: seq<nat>, b: seq<nat>, c: seq<nat>)
    requires Above(a, b) && Above(b, c)
    ensures Above(a, c)
  {
    var i: nat :| At(a, i) > At(b, i) && AgreeBelow(a, b, i);
    var j: nat :| At(b, j) > At(c, j) && AgreeBelow(b, c, j);
    var k := if i < j then i else j;
    assert At(a, k) > At(c, k) && AgreeBelow(a, c, k);
  }

  /** A strict weak order: what is not above stays not above through a third version, so ties are
      interchangeable. */
  lemma NegativelyTransitive(a: seq<nat>, b: seq<nat>, c: seq<nat>)
    requires Above(a, c)
    ensures Above(a, b) || Above(b, c)
  {
    Trichotomy(a, b);
    Trichotomy(b, c);
    if Above(b, a) {
      AboveTransitive(b, a, c);
    } else if Tied(a, b) {
      TiedMeansSameParts(a, b);
      var k: nat :| At(a, k) > At(c, k) && AgreeBelow(a, c, k);
      assert At(b, k) > At(c, k) && AgreeBelow(b, c, k);
    }
  }

  // ---- dotted versions read back ----

  function Dotted(ns: seq<nat>): string
    requires ns != []
  {
    if |ns| == 1 then Findings.Itoa(ns[0]) else Findings.Itoa(ns[0]) + "." + Dotted(ns[1..])
  }

  lemma {:induction false} DecimalItoa(n: nat)
    ensures AllDigits(Findings.Itoa(n)) && Decimal(Findings.Itoa(n)) == n
  {
    var s := Findings.Itoa(n);
    if n >= 10 {
      DecimalItoa(n / 10);
      assert s[..|s| - 1] == Findings.Itoa(n / 10);
    } else {
      assert s[..0] == [];
    }
  }

  lemma {:induction false} SplitPiece(p: string)
    requires Separated(p)
    ensures Split(p) == [p]
  {
    if p != [] {
      SplitPiece(p[1..]);
      assert p == [p[0]] + p[1..];
    }
  }

  lemma {:induction false} SplitAtDot(p: string, s: string)
    requires Separated(p)
    ensures Split(p + "." + s) == [p] + Split(s)
  {
    if p == [] {
      assert p + "." + s == "." + s && ("." + s)[1..] == s;
    } else {
      SplitAtDot(p[1..], s);
      assert p == [p[0]] + p[1..];
      assert (p + "." + s)[1..] == p[1..] + "." + s;
    }
  }

  lemma ItoaSeparated(n: nat)
    ensures Separated(Findings.Itoa(n))
  {
    var s := Findings.Itoa(n);
    forall i | 0 <= i < |s| ensures !IsSeparator(s[i]) {
      assert s[i] in s;
    }
  }

  lemma {:induction false} SplitDotted(ns: seq<nat>)
    requires ns != []
    ensures |Split(Dotted(ns))| == |ns|
    ensures forall i | 0 <= i < |ns| :: Split(Dotted(ns))[i] == Findings.Itoa(ns[i])
  {
    hide Findings.Itoa;
    ItoaSeparated(ns[0]);
    if |ns| == 1 {
      SplitPiece(Findings.Itoa(ns[0]));
    } else {
      SplitAtDot(Findings.Itoa(ns[0]), Dotted(ns[1..]));
      SplitDotted(ns[1..]);
      assert forall i | 1 <= i < |ns| :: ns[i] == ns[1..][i - 1];
    }
  }

  lemma {:induction false} DottedEnds(ns: seq<nat>)
    requires ns != []
    ensures var t := Dotted(ns); t != [] && '0' <= t[0] <= '9' && '0' <= t[|t| - 1] <= '9'
  {
    var d := Findings.Itoa(ns[0]);
    assert d[0] in d && d[|d| - 1] in d;
    if |ns| > 1 {
      DottedEnds(ns[1..]);
    }
  }

  lemma NumbersReadBack(ns: seq<nat>)
    requires ns != [] && forall n <- ns :: n < U64
    ensures |Split(Dotted(ns))| == |ns|
    ensures forall i | 0 <= i < |ns| :: Number(Split(Dotted(ns))[i]) == ns[i]
  {
    hide Split;
    hide Dotted;
    SplitDotted(ns);
    forall i | 0 <= i < |ns| ensures Number(Split(Dotted(ns))[i]) == ns[i] {
      assert ns[i] in ns;
      DecimalItoa(ns[i]);
    }
  }

  lemma Stripped(t: string, prefixed: bool)
    requires t != [] && '0' <= t[0] <= '9' && '0' <= t[|t| - 1] <= '9'
    ensures StripV(TrimSpace((if prefixed then "v" else "") + t)) == t
  {
    var v := (if prefixed then "v" else "") + t;
    assert v[|v| - 1] == t[|t| - 1];
    assert v[0] == if prefixed then 'v' else t[0];
    assert TrimSpace(v) == v;
    assert StripV(t) == t;
    if prefixed {
      assert v[1..] == t;
    } else {
      assert v == t;
    }
  }

  /** A version written as dotted numbers, with or without a leading v, parses to those numbers; so among
      such versions the order is the order of the numbers. */
  lemma ParseDotted(ns: seq<nat>, prefixed: bool)
    requires ns != [] && forall n <- ns :: n < U64
    ensures Parse((if prefixed then "v" else "") + Dotted(ns)) == ns
  {
    hide Split;
    hide Number;
    hide Dotted;
    DottedEnds(ns);
    Stripped(Dotted(ns), prefixed);
    NumbersReadBack(ns);
  }

  // ---- automatic updates ----

  /** What the server announces, and the version really compiled into the binary it serves. */
  datatype Build = Build(ourTarget: bool, announced: string, actual: string)

  predicate Contains(text: string, sub: string) {
    sub <= text || (text != [] && Contains(text[1..], sub))
  }

  lemma {:induction false} ContainsIff(text: string, sub: string)
    ensures Contains(text, sub) <==> exists i | 0 <= i <= |text| :: sub <= text[i..]
  {
    assert text[0..] == text;
    if text != [] {
      ContainsIff(text[1..], sub);
      if i :| 0 <= i <= |text| && sub <= text[i..] {
        assert i > 0 ==> text[1..][i - 1..] == text[i..];
      }
      if i :| 0 <= i <= |text[1..]| && sub <= text[1..][i..] {
        assert text[1..][i..] == text[i + 1..];
      }
    }
  }

  /** The line a binary prints about itself. */
  function Printed(actual: string): string {
    "pmacct-agent " + actual + "\n"
  }

  /** `wanted`. */
  ghost predicate Wanted(b: Build, running: string) {
    b.ourTarget && Above(Parse(b.announced), Parse(running))
  }

  /** The self-test before a swap: the printed line contains the announced version. */
  predicate SelfTest(b: Build) {
    Contains(Printed(b.actual), b.announced)
  }

  /** Whatever is running, installing a build that passed every test moves the version up, if and only if
      the binary is not older than what was announced. */
  lemma InstallAdvancesIff(b: Build)
    requires b.ourTarget
    ensures !Above(Parse(b.announced), Parse(b.actual))
            <==> forall running: string :: Wanted(b, running) ==> Above(Parse(b.actual), Parse(running))
  {
    if !Above(Parse(b.announced), Parse(b.actual)) {
      forall running: string | Wanted(b, running) ensures Above(Parse(b.actual), Parse(running)) {
        NegativelyTransitive(Parse(b.announced), Parse(b.actual), Parse(running));
      }
    } else {
      assert Wanted(b, b.actual);
      Trichotomy(Parse(b.actual), Parse(b.actual));
    }
  }

  lemma TruthfulBuildsAdvance(b: Build)
    requires b.announced == b.actual
    ensures !Above(Parse(b.announced), Parse(b.actual))
  {
    Trichotomy(Parse(b.actual), Parse(b.actual));
  }

  /** The self-test does not ensure that: it looks for the announced text anywhere in the line. A server
      announcing 2.0 for a build of 1.2.0 makes that build replace itself again and again. */
  lemma SelfTestIsNotEnough()
    ensures var b := Build(true, "2.0", "1.2.0"); SelfTest(b) && Wanted(b, b.actual)
  {
    hide Parse;
    SelfTestFinds("pmacct-agent 1.", "2.0", "\n");
    assert Printed("1.2.0") == "pmacct-agent 1." + "2.0" + "\n";
    var two: seq<nat>, one: seq<nat> := [2, 0], [1, 2, 0];
    assert "2.0" == Dotted(two) by { DottedTwo(2, 0); }
    assert "1.2.0" == Dotted(one) by { DottedThree(1, 2, 0); }
    assert "" + "2.0" == "2.0" && "" + "1.2.0" == "1.2.0";
    ParseDotted(two, false);
    ParseDotted(one, false);
    assert At(two, 0) > At(one, 0) && AgreeBelow(two, one, 0);
  }

  lemma {:induction false} SelfTestFinds(before: string, sub: string, after: string)
    ensures Contains(before + sub + after, sub)
  {
    if before != [] {
      assert (before + sub + after)[1..] == before[1..] + sub + after;
      SelfTestFinds(before[1..], sub, after);
    } else {
      assert before + sub + after == sub + after;
    }
  }

  lemma DottedTwo(a: nat, b: nat)
    ensures Dotted([a, b]) == Findings.Itoa(a) + "." + Findings.Itoa(b)
  {
    assert [a, b][1..] == [b];
  }

  lemma DottedThree(a: nat, b: nat, c: nat)
    ensures Dotted([a, b, c]) == Findings.Itoa(a) + "." + (Findings.Itoa(b) + "." + Findings.Itoa(c))
  {
    DottedTwo(b, c);
    assert [a, b, c][1..] == [b, c];
  }

  const RETRY_AFTER: int := 3600

  /** One acknowledged upload that carries a build. `fetched`: the download, checksum and swap succeed. */
  datatype Offer = Offer(at: int, build: Build, serverAllows: bool, localAllows: bool, fetched: bool)

  /** The hourly retry limit, then `wanted`. */
  ghost predicate Tries(version: string, lastTry: Option<int>, o: Offer) {
    (lastTry == None || o.at - lastTry.value > RETRY_AFTER) && Wanted(o.build, version)
  }

  predicate Passes(o: Offer) {
    o.serverAllows && o.localAllows && o.fetched && SelfTest(o.build)
  }

  /** The builds an agent that runs `version` installs by itself out of a series of offers. */
  ghost function Taken(version: string, lastTry: Option<int>, offers: seq<Offer>): seq<Build>
    decreases |offers|
  {
    if offers == [] then []
    else if !Tries(version, lastTry, offers[0]) then Taken(version, lastTry, offers[1..])
    else if Passes(offers[0]) then [offers[0].build] + Taken(offers[0].build.actual, None, offers[1..])
    else Taken(version, Some(offers[0].at), offers[1..])
  }

  /** The attempts it makes meanwhile, and whether they installed. */
  ghost function Tried(version: string, lastTry: Option<int>, offers: seq<Offer>): seq<(int, bool)>
    decreases |offers|
  {
    if offers == [] then []
    else if !Tries(version, lastTry, offers[0]) then Tried(version, lastTry, offers[1..])
    else if Passes(offers[0]) then [(offers[0].at, true)] + Tried(offers[0].build.actual, None, offers[1..])
    else [(offers[0].at, false)] + Tried(version, Some(offers[0].at), offers[1..])
  }

  /** What runs after some builds were installed, starting from `first`. */
  function Running(first: string, builds: seq<Build>): string {
    if builds == [] then first else builds[|builds| - 1].actual
  }

  /** Each build was announced as newer than what ran before it, and passed the self-test. */
  ghost predicate Chained(first: string, builds: seq<Build>) {
    forall i | 0 <= i < |builds| :: Wanted(builds[i], Running(first, builds[..i])) && SelfTest(builds[i])
  }

  lemma ChainedStep(first: string, builds: seq<Build>, b: Build)
    requires Chained(first, builds) && Wanted(b, Running(first, builds)) && SelfTest(b)
    ensures Chained(first, builds + [b])
  {
    hide Wanted, SelfTest, Running;
    var longer := builds + [b];
    forall i | 0 <= i < |longer| ensures Wanted(longer[i], Running(first, longer[..i])) && SelfTest(longer[i]) {
      assert longer[..i] == builds[..i];
      assert builds[..|builds|] == builds;
    }
  }

  class Installed {
    var version: string
    var lastTry: Option<int> // last_update_try, forgotten when the service restarts
    ghost const first: string
    ghost var builds: seq<Build> // installed by the agent itself, oldest first
    ghost var tries: seq<(int, bool)> // update attempts and whether they installed

    /** Attempts that follow a failed one wait more than an hour. */
    ghost predicate Spaced()
      reads this
    {
      && (forall i | 0 < i < |tries| :: !tries[i - 1].1 ==> tries[i].0 - tries[i - 1].0 > RETRY_AFTER)
      && (lastTry == if tries != [] && !tries[|tries| - 1].1 then Some(tries[|tries| - 1].0) else None)
    }

    ghost predicate Valid()
      reads this
    {
      version == Running(first, builds) && Chained(first, builds) && Spaced()
    }

    constructor (version: string)
      ensures Valid() && this.version == version && first == version && builds == [] && tries == []
    {
      this.version, lastTry, first, builds, tries := version, None, version, [], [];
    }

    /** The update branch of the run loop with `maybe_auto` and `apply`. */
    method Consider(o: Offer) returns (installed: bool)
      requires Valid()
      modifies this
      ensures Valid()
      ensures installed <==> Tries(old(version), old(lastTry), o) && Passes(o)
      ensures installed <==> && (old(lastTry).Some? ==> o.at - old(lastTry).value > 3600)
                             && o.build.ourTarget && Above(Parse(o.build.announced), Parse(old(version)))
                             && o.serverAllows && o.localAllows && o.fetched
                             && Contains("pmacct-agent " + o.build.actual + "\n", o.build.announced)
      ensures version == if installed then o.build.actual else old(version)
      ensures builds == if installed then old(builds) + [o.build] else old(builds)
      ensures lastTry == if installed then None else if Tries(old(version), old(lastTry), o) then Some(o.at) else old(lastTry)
      ensures tries == if Tries(old(version), old(lastTry), o) then old(tries) + [(o.at, installed)] else old(tries)
    {
      hide Parse;
      hide Above;
      hide Contains;
      hide Chained;
      if lastTry.Some? && o.at - lastTry.value <= RETRY_AFTER {
        return false;
      }
      var newer := Newer(o.build.announced, version);
      if !(o.build.ourTarget && newer) {
        return false;
      }
      installed := o.serverAllows && o.localAllows && o.fetched && SelfTest(o.build);
      tries := tries + [(o.at, installed)];
      if installed {
        ChainedStep(first, builds, o.build);
        version, lastTry := o.build.actual, None;
        builds := builds + [o.build];
      } else {
        lastTry := Some(o.at);
      }
    }
  }

  /** Between the lo-th and the hi-th install each version that ran is above all before it. */
  ghost predicate Climbs(first: string, builds: seq<Build>, lo: nat, hi: nat)
    requires lo <= hi <= |builds|
  {
    forall i, j | lo <= i < j <= hi :: Above(Parse(Running(first, builds[..j])), Parse(Running(first, builds[..i])))
  }

  /** None of those builds is older than what was announced for it. */
  ghost predicate Honest(builds: seq<Build>, lo: nat, hi: nat)
    requires lo <= hi <= |builds|
  {
    forall i | lo <= i < hi :: !Above(Parse(builds[i].announced), Parse(builds[i].actual))
  }

  lemma Advances(b: Build, running: string)
    requires Wanted(b, running) && !Above(Parse(b.announced), Parse(b.actual))
    ensures Above(Parse(b.actual), Parse(running))
  {
    InstallAdvancesIff(b);
  }

  /** Over a stretch of installs none of which is older than announced, the versions strictly climb. */
  lemma {:induction false} HonestStretchClimbs(first: string, builds: seq<Build>, lo: nat, hi: nat)
    requires Chained(first, builds) && lo <= hi <= |builds| && Honest(builds, lo, hi)
    ensures Climbs(first, builds, lo, hi)
  {
    hide Parse, Above, SelfTest, Wanted, Running;
    if lo < hi {
      HonestStretchClimbs(first, builds, lo, hi - 1);
      Advances(builds[hi - 1], Running(first, builds[..hi - 1]));
      RunningNext(first, builds, hi);
      forall i | lo <= i < hi - 1 ensures Above(Parse(Running(first, builds[..hi])), Parse(Running(first, builds[..i]))) {
        AboveTransitive(Parse(Running(first, builds[..hi])), Parse(Running(first, builds[..hi - 1])), Parse(Running(first, builds[..i])));
      }
    }
  }

  lemma RunningNext(first: string, builds: seq<Build>, n: nat)
    requires 0 < n <= |builds|
    ensures Running(first, builds[..n]) == builds[n - 1].actual
  {
  }

  /** So no version, nor a tie of one, runs twice. */
  lemma ClimbingNeverRepeats(first: string, builds: seq<Build>, lo: nat, hi: nat, i: nat, j: nat)
    requires lo <= i < j <= hi <= |builds| && Climbs(first, builds, lo, hi)
    ensures var v, w := Running(first, builds[..i]), Running(first, builds[..j]); v != w && !Tied(Parse(v), Parse(w))
  {
    hide Parse, Running;
    var v, w := Parse(Running(first, builds[..i])), Parse(Running(first, builds[..j]));
    Trichotomy(w, v);
    TiedMeansSameParts(v, w);
    TiedMeansSameParts(w, v);
  }

  /** Any series of offers, truthful or not. The agent makes exactly the attempts `Tried` names and installs
      exactly the builds `Taken` names, each announced as newer than what ran and self-tested; failed attempts
      are more than an hour apart; over every stretch of installs without a build older than announced the
      versions strictly climb, so none comes back. */
  method Run(agent: Installed, offers: seq<Offer>)
    requires agent.Valid()
    modifies agent
    ensures agent.Valid() && agent.Spaced() && Chained(agent.first, agent.builds)
    ensures agent.builds == old(agent.builds) + Taken(old(agent.version), old(agent.lastTry), offers)
    ensures agent.tries == old(agent.tries) + Tried(old(agent.version), old(agent.lastTry), offers)
    ensures forall lo: nat, hi: nat | lo <= hi <= |agent.builds| && Honest(agent.builds, lo, hi) ::
              Climbs(agent.first, agent.builds, lo, hi)
  {
    hide *;
    assert offers[0..] == offers;
    for i := 0 to |offers|
      invariant agent.Valid()
      invariant agent.builds + Taken(agent.version, agent.lastTry, offers[i..])
                == old(agent.builds) + Taken(old(agent.version), old(agent.lastTry), offers)
      invariant agent.tries + Tried(agent.version, agent.lastTry, offers[i..])
                == old(agent.tries) + Tried(old(agent.version), old(agent.lastTry), offers)
    {
      TakenStep(agent.version, agent.lastTry, offers, i);
      ghost var builds, tries := agent.builds, agent.tries;
      ghost var tried := Tries(agent.version, agent.lastTry, offers[i]);
      var installed := agent.Consider(offers[i]);
      ghost var more, rest := Taken(agent.version, agent.lastTry, offers[i + 1..]), Tried(agent.version, agent.lastTry, offers[i + 1..]);
      if installed {
        Regroup(builds, offers[i].build, more);
      }
      if tried {
        Regroup(tries, (offers[i].at, installed), rest);
      }
    }
    RunEnds(agent, offers);
  }

  lemma Regroup<T>(a: seq<T>, x: T, b: seq<T>)
    ensures a + ([x] + b) == a + [x] + b
  {
  }

  lemma TakenStep(version: string, lastTry: Option<int>, offers: seq<Offer>, i: nat)
    requires i < |offers|
    ensures Taken(version, lastTry, offers[i..])
            == if !Tries(version, lastTry, offers[i]) then Taken(version, lastTry, offers[i + 1..])
               else if Passes(offers[i]) then [offers[i].build] + Taken(offers[i].build.actual, None, offers[i + 1..])
               else Taken(version, Some(offers[i].at), offers[i + 1..])
    ensures Tried(version, lastTry, offers[i..])
            == if !Tries(version, lastTry, offers[i]) then Tried(version, lastTry, offers[i + 1..])
               else if Passes(offers[i]) then [(offers[i].at, true)] + Tried(offers[i].build.actual, None, offers[i + 1..])
               else [(offers[i].at, false)] + Tried(version, Some(offers[i].at), offers[i + 1..])
  {
    hide Tries, Passes;
    assert offers[i..][1..] == offers[i + 1..];
  }

  lemma RunEnds(agent: Installed, offers: seq<Offer>)
    requires agent.Valid()
    ensures agent.Spaced() && Chained(agent.first, agent.builds)
    ensures Taken(agent.version, agent.lastTry, offers[|offers|..]) == [] && Tried(agent.version, agent.lastTry, offers[|offers|..]) == []
    ensures forall lo: nat, hi: nat | lo <= hi <= |agent.builds| && Honest(agent.builds, lo, hi) ::
              Climbs(agent.first, agent.builds, lo, hi)
  {
    hide Chained, Climbs, Honest, Running, Parse, Above;
    forall lo: nat, hi: nat | lo <= hi <= |agent.builds| && Honest(agent.builds, lo, hi)
      ensures Climbs(agent.first, agent.builds, lo, hi)
    {
      HonestStretchClimbs(agent.first, agent.builds, lo, hi);
    }
  }

  /** An older build announced as newer is installed at every one of its offers. */
  lemma {:induction false} ReinstalledEveryTime(offers: seq<Offer>)
    requires forall o <- offers :: o.build == Build(true, "2.0", "1.2.0") && o.serverAllows && o.localAllows && o.fetched
    ensures |Taken("1.2.0", None, offers)| == |offers|
  {
    hide Wanted, SelfTest;
    if offers != [] {
      SelfTestIsNotEnough();
      assert offers[0] in offers;
      ReinstalledEveryTime(offers[1..]);
    }
  }
}
