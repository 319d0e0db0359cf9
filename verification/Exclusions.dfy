/** The trusted list: normalising a pattern and matching addresses and names against the compiled list
    (internal/db/exclusions.go), and the browser's copy of the matcher (lib/exclusions.svelte.ts). */
module Exclusions {
  import opened Address
  import opened Numbers
  import opened Options
  import opened Text

  // ---- prefixes ----

  function Shr(x: nat, n: nat): nat {
    if n == 0 then x else Shr(x / 2, n - 1)
  }

  function Shl(x: nat, n: nat): nat
    decreases n
  {
    if n == 0 then x else Shl(2 * x, n - 1)
  }

  lemma {:induction false} ShrIsDivision(x: nat, n: nat)
    ensures Shr(x, n) * Pow2(n) <= x < Shr(x, n) * Pow2(n) + Pow2(n)
  {
    if n > 0 {
      ShrIsDivision(x / 2, n - 1);
      Doubled(Shr(x / 2, n - 1), Pow2(n - 1), x);
    }
  }

  lemma Doubled(q: nat, p: nat, x: nat)
    requires q * p <= x / 2 < q * p + p
    ensures q * (2 * p) <= x < q * (2 * p) + 2 * p
  {
    assert q * (2 * p) == 2 * (q * p);
  }

  lemma {:induction false} NatProduct(d: nat, p: nat)
    ensures d * p >= 0
  {
    if d > 0 {
      NatProduct(d - 1, p);
      assert d * p == (d - 1) * p + p;
    }
  }

  lemma MulMono(x: int, y: int, p: int)
    requires p >= 1
    ensures x < y ==> x * p + p <= y * p
  {
    if x < y {
      var d: nat := y - x - 1;
      NatProduct(d, p);
      assert (x + 1 + d) * p == x * p + p + d * p;
    }
  }

  lemma BlockUnique(a: int, q: int, r: int, p: int)
    requires p >= 1 && q * p <= a < q * p + p && r * p <= a < r * p + p
    ensures q == r
  {
    MulMono(q, r, p);
    MulMono(r, q, p);
  }

  /** Two numbers shift to the same value exactly when one lies in the aligned block of the other. */
  lemma SameBlock(a: nat, b: nat, n: nat)
    ensures Shr(a, n) == Shr(b, n) <==> Shr(b, n) * Pow2(n) <= a < Shr(b, n) * Pow2(n) + Pow2(n)
  {
    ShrIsDivision(a, n);
    if Shr(b, n) * Pow2(n) <= a < Shr(b, n) * Pow2(n) + Pow2(n) {
      BlockUnique(a, Shr(a, n), Shr(b, n), Pow2(n));
    }
  }

  lemma {:induction false} ShlIsMultiplication(x: nat, n: nat)
    ensures Shl(x, n) == x * Pow2(n)
    decreases n
  {
    if n > 0 {
      ShlIsMultiplication(2 * x, n - 1);
      assert (2 * x) * Pow2(n - 1) == x * (2 * Pow2(n - 1));
    }
  }

  lemma ShlInjective(a: nat, b: nat, n: nat)
    ensures Shl(a, n) == Shl(b, n) <==> a == b
  {
    ShlIsMultiplication(a, n);
    ShlIsMultiplication(b, n);
    if a < b {
      assert a * Pow2(n) < b * Pow2(n);
    } else if b < a {
      assert b * Pow2(n) < a * Pow2(n);
    }
  }

  /** netip.Prefix. `bits` beyond the address's width make it invalid. */
  datatype Prefix = Prefix(addr: Addr, bits: nat)
  {
    predicate Valid() {
      bits <= Width(addr)
    }
  }

  function Width(a: Addr): nat {
    if a.V4? then 32 else 128
  }

  function Num(a: Addr): nat {
    match a
    case V4(n) => n
    case V6(n) => n
  }

  /** netip.Prefix.Contains: same family, same leading bits. */
  predicate Contains(p: Prefix, a: Addr)
    requires p.Valid()
  {
    p.addr.V4? == a.V4? && Shr(Num(a), Width(a) - p.bits) == Shr(Num(p.addr), Width(a) - p.bits)
  }

  lemma ShlShrBound(x: nat, n: nat)
    ensures Shl(Shr(x, n), n) <= x && Shr(Shl(Shr(x, n), n), n) == Shr(x, n)
  {
    ShlIsMultiplication(Shr(x, n), n);
    ShrIsDivision(x, n);
    SameBlock(Shl(Shr(x, n), n), x, n);
  }

  /** How many addresses share the leading bits of a prefix. */
  function BlockSize(p: Prefix): (n: nat)
    requires p.Valid()
    ensures n >= 1
  {
    Pow2((if p.addr.V4? then 32 else 128) - p.bits)
  }

  lemma ShrIsQuotient(x: nat, n: nat)
    ensures Shr(x, n) == x / Pow2(n)
  {
    ShrIsDivision(x, n);
    var q, p := x / Pow2(n), Pow2(n);
    assert x == p * q + x % p;
    assert q * p == p * q;
    BlockUnique(x, Shr(x, n), q, p);
  }

  /** A prefix contains the addresses of its family in the aligned block around its own. */
  lemma ContainsIff(p: Prefix, a: Addr)
    requires p.Valid()
    ensures Contains(p, a)
            <==> match (p.addr, a)
                 case (V4(m), V4(n)) => n / BlockSize(p) == m / BlockSize(p)
                 case (V6(m), V6(n)) => n / BlockSize(p) == m / BlockSize(p)
                 case _ => false
  {
    ShrIsQuotient(Num(p.addr), Width(p.addr) - p.bits);
    ShrIsQuotient(Num(a), Width(p.addr) - p.bits);
    hide Shr, Pow2;
  }

  /** Masking leaves the first address of the block. */
  lemma MaskedIsFirst(p: Prefix)
    requires p.Valid()
    ensures var first := Num(Masked(p).addr);
            first % BlockSize(p) == 0 && first <= Num(p.addr) < first + BlockSize(p)
  {
    var s := Width(p.addr) - p.bits;
    ShrIsDivision(Num(p.addr), s);
    ShlIsMultiplication(Shr(Num(p.addr), s), s);
    TimesMod(Shr(Num(p.addr), s), Pow2(s));
    hide Shr, Pow2, Shl;
  }

  lemma TimesMod(q: nat, p: nat)
    requires p >= 1
    ensures q * p % p == 0
  {
    DivModStep(q, 0, p);
  }

  /** The prefix with its host bits cleared. */
  function Masked(p: Prefix): (m: Prefix)
    requires p.Valid()
    ensures m.Valid() && m.bits == p.bits && m.addr.V4? == p.addr.V4?
  {
    var s := Width(p.addr) - p.bits;
    ShlShrBound(Num(p.addr), s);
    var n := Shl(Shr(Num(p.addr), s), s);
    Prefix(if p.addr.V4? then V4(n) else V6(n), p.bits)
  }

  /** Masking a network never changes which addresses it covers. */
  lemma MaskingKeepsCoverage(p: Prefix, a: Addr)
    requires p.Valid()
    ensures Contains(Masked(p), a) <==> Contains(p, a)
  {
    ShlShrBound(Num(p.addr), Width(p.addr) - p.bits);
  }

  // ---- patterns ----

  /** What is stored in alert_exclusions. `Unusable` is the text "invalid Prefix", which no later parse
      accepts. */
  datatype Pattern = Ip(a: Addr) | Cidr(p: Prefix) | Unusable | Name(glob: string)
  {
    predicate Valid() {
      Cidr? ==> p.Valid()
    }
  }

  /** User input, by what netip makes of it. */
  datatype Input = AddressText(a: Addr) | PrefixText(p: Prefix) | OtherText(s: string)

  predicate NameChar(c: char) {
    'a' <= c <= 'z' || '0' <= c <= '9' || c == '*' || c == '.' || c == '_' || c == '-'
  }

  predicate NamePattern(s: string) {
    && s != [] && NameChar(s[0]) && s[0] !in "._-"
    && (forall c <- s :: NameChar(c))
    && (exists c <- s :: c !in "*.")
  }

  function TrimDot(s: string): string {
    if s != [] && s[|s| - 1] == '.' then s[..|s| - 1] else s
  }

  /** NormalizeExclusion on trimmed input. */
  function NormalizeExclusion(input: Input): Option<Pattern> {
    match input
    case AddressText(a) => Some(Ip(Unmap(a)))
    case PrefixText(p) =>
      var q := Prefix(Unmap(p.addr), p.bits);
      if !q.Valid() then Some(Unusable)
      else if q.bits == Width(q.addr) then Some(Ip(Masked(q).addr))
      else Some(Cidr(Masked(q)))
    case OtherText(s) =>
      var p := ToLower(TrimDot(s));
      if NamePattern(p) then Some(Name(p)) else None
  }

  /** An address is stored without its mapping, a network of one address as that address, and any other network
      by its first address. A mapped network keeps its length and so is unusable beyond 32 bits. */
  lemma StoredAddresses(a: Addr, p: Prefix)
    requires p.Valid()
    ensures NormalizeExclusion(AddressText(a)) == Some(Ip(if a.V6? && a.v6 / 0x1_0000_0000 == 0xFFFF then V4(a.v6 % 0x1_0000_0000) else a))
    ensures var norm, q := NormalizeExclusion(PrefixText(p)), Prefix(Unmap(p.addr), p.bits);
            if q.addr.V4? && p.bits > 32 then norm == Some(Unusable)
            else if p.bits == (if q.addr.V4? then 32 else 128) then norm == Some(Ip(q.addr))
            else norm.Some? && norm.value.Cidr?
                 && var stored := norm.value.p;
                    && stored.bits == p.bits && stored.addr.V4? == q.addr.V4? && Num(stored.addr) % BlockSize(q) == 0
                    && Num(stored.addr) <= Num(q.addr) < Num(stored.addr) + BlockSize(q)
  {
    var q := Prefix(Unmap(p.addr), p.bits);
    if q.Valid() {
      MaskedIsFirst(q);
      assert p.bits == Width(q.addr) ==> BlockSize(q) == 1;
    }
    hide Masked, BlockSize;
  }

  /** Any other text is stored in lower case, without one dot at its end, if that is a name pattern: its characters
      are letters, digits, stars, dots, underscores and hyphens, the first is one of the first three, and not all
      are stars and dots. */
  lemma StoredNames(s: string)
    ensures var p := ToLower(if s != "" && s[|s| - 1] == '.' then s[..|s| - 1] else s);
            NormalizeExclusion(OtherText(s))
            == if p != "" && p[0] !in "._-" && (exists c <- p :: c != '*' && c != '.')
                  && (forall c <- p :: 97 <= c as int <= 122 || 48 <= c as int <= 57 || c in "*._-")
               then Some(Name(p)) else None
  {
    var p := ToLower(TrimDot(s));
    forall c: char ensures NameChar(c) <==> 97 <= c as int <= 122 || 48 <= c as int <= 57 || c in "*._-" {
      NameChars(c);
    }
    assert p != "" ==> p[0] in p;
    hide ToLower, NameChar;
  }

  lemma NameChars(c: char)
    ensures NameChar(c) <==> 97 <= c as int <= 122 || 48 <= c as int <= 57 || c in "*._-"
  {
    var others := "*._-";
    assert others[0] == '*' && others[1] == '.' && others[2] == '_' && others[3] == '-';
  }

  /** Which unmapped addresses a stored pattern covers by address. */
  predicate CoversAddr(p: Pattern, a: Addr)
    requires p.Valid()
  {
    match p
    case Ip(b) => a == b
    case Cidr(q) => Contains(q, a)
    case Unusable => false
    case Name(_) => false
  }

  /** Which hosts a network means as it is written: an IPv4 host also by its mapped form. Hosts are unmapped
      addresses. */
  predicate MeansHost(p: Prefix, a: Addr)
    requires p.Valid()
  {
    Contains(p, a) || (a.V4? && Contains(p, V6(MAPPED_BASE + a.v4)))
  }

  /** The network lies apart from the IPv4-mapped block ::ffff:0:0/96. */
  predicate ApartFromMapped(p: Prefix)
    requires p.Valid()
  {
    p.addr.V4? || if p.bits >= 96 then !Is4In6(p.addr) else !Contains(p, V6(MAPPED_BASE))
  }

  /** A network keeps its coverage when it is normalised, host by host, if and only if it lies apart from the
      mapped block: one inside that block covers nothing afterwards, and one around it loses its IPv4 hosts. */
  lemma NormalizeKeepsCoverageIff(p: Prefix)
    requires p.Valid()
    ensures (forall a: Addr :: !Is4In6(a) ==> (CoversAddr(NormalizeExclusion(PrefixText(p)).value, a) <==> MeansHost(p, a)))
            <==> ApartFromMapped(p)
  {
    var norm := NormalizeExclusion(PrefixText(p)).value;
    if ApartFromMapped(p) {
      forall a: Addr | !Is4In6(a) ensures CoversAddr(norm, a) <==> MeansHost(p, a) {
        ApartKeeps(p, a);
      }
    } else {
      var a := LostHost(p);
      assert !(CoversAddr(norm, a) <==> MeansHost(p, a));
    }
  }

  lemma ApartKeeps(p: Prefix, a: Addr)
    requires p.Valid() && ApartFromMapped(p) && !Is4In6(a)
    ensures CoversAddr(NormalizeExclusion(PrefixText(p)).value, a) <==> MeansHost(p, a)
  {
    if Is4In6(p.addr) {
      MappedPrefixContainsBase(p);
    }
    MaskingKeepsCoverage(p, a);
    if p.bits == Width(p.addr) {
      assert Shr(Num(p.addr), 0) == Num(p.addr) && Shr(Num(a), 0) == Num(a);
      assert Masked(p).addr == p.addr;
    }
    if a.V4? && p.addr.V6? {
      ApartContainsNoMapped(p, V6(MAPPED_BASE + a.v4));
    }
  }

  /** Below bit 32 mapped addresses differ, from there on they agree. */
  lemma MappedAgree(x: U128, y: U128, n: nat)
    requires Is4In6(V6(x)) && Is4In6(V6(y)) && n >= 32
    ensures Shr(x, n) == Shr(y, n)
  {
    Top16(x);
    Top16(y);
    ShrSplit(x, 32, n - 32);
    ShrSplit(y, 32, n - 32);
  }

  lemma MappedPrefixContainsBase(p: Prefix)
    requires p.Valid() && Is4In6(p.addr) && p.bits < 96
    ensures Contains(p, V6(MAPPED_BASE))
  {
    MappedAgree(p.addr.v6, MAPPED_BASE, 128 - p.bits);
  }

  lemma ApartContainsNoMapped(p: Prefix, a: Addr)
    requires p.Valid() && p.addr.V6? && ApartFromMapped(p) && Is4In6(a)
    ensures !Contains(p, a)
  {
    if p.bits >= 96 {
      MappedBlock(a.v6, p.addr.v6, 128 - p.bits);
    } else {
      MappedAgree(a.v6, MAPPED_BASE, 128 - p.bits);
    }
  }

  /** A host that a network touching the mapped block means, and does not cover once normalised. */
  lemma LostHost(p: Prefix) returns (a: Addr)
    requires p.Valid() && !ApartFromMapped(p)
    ensures !Is4In6(a) && MeansHost(p, a) && !CoversAddr(NormalizeExclusion(PrefixText(p)).value, a)
  {
    if p.bits >= 96 {
      a := V4(p.addr.v6 - MAPPED_BASE);
      assert Contains(p, p.addr);
    } else if Is4In6(p.addr) {
      a := BelowMapped(p);
    } else {
      a := V4(0);
    }
  }

  /** Up to 32 shifts keep a mapped and an unmapped number apart. */
  lemma MappedBlock(x: U128, y: U128, n: nat)
    requires n <= 32 && Is4In6(V6(x)) && !Is4In6(V6(y))
    ensures Shr(x, n) != Shr(y, n)
  {
    ShrSplit(x, n, 32 - n);
    ShrSplit(y, n, 32 - n);
    Top16(x);
    Top16(y);
  }

  /** Bits 32 and up of a number, by its value. */
  lemma Top16(x: U128)
    ensures Is4In6(V6(x)) <==> Shr(x, 32) == 0xFFFF
    ensures 0xFFFE_0000_0000 <= x < 0xFFFF_0000_0000 ==> Shr(x, 32) == 0xFFFE
  {
    ShrIsDivision(x, 32);
    Pow2Is32();
    var q := Shr(x, 32);
    assert q * Pow2(32) == q * 0x1_0000_0000;
  }

  lemma Pow2Is32()
    ensures Pow2(32) == 0x1_0000_0000 && Pow2(33) == 0x2_0000_0000
  {
    assert Pow2(4) == 16;
    assert Pow2(8) == 256;
    assert Pow2(12) == 4096;
    assert Pow2(16) == 65536;
    assert Pow2(20) == 0x10_0000;
    assert Pow2(24) == 0x100_0000;
    assert Pow2(28) == 0x1000_0000;
  }

  lemma {:induction false} ShrSplit(x: nat, m: nat, n: nat)
    ensures Shr(x, m + n) == Shr(Shr(x, m), n)
  {
    if m > 0 {
      ShrSplit(x / 2, m - 1, n);
    }
  }

  /** A prefix shorter than 96 bits around a mapped address also covers the unmapped ::fffe:x:y below it. */
  lemma BelowMapped(p: Prefix) returns (a: Addr)
    requires p.Valid() && Is4In6(p.addr) && p.bits < 96
    ensures a.V6? && !Is4In6(a) && Contains(p, a)
  {
    var y := p.addr.v6 - 0x1_0000_0000;
    a := V6(y);
    var n := 128 - p.bits;
    Top16(p.addr.v6);
    Top16(y);
    var qx, qy := Shr(p.addr.v6, 32), Shr(y, 32);
    assert qx == 0xFFFF && qy == 0xFFFE;
    assert Shr(qx, 1) == 0x7FFF == Shr(qy, 1);
    ShrSplit(p.addr.v6, 32, 1);
    ShrSplit(y, 32, 1);
    ShrSplit(p.addr.v6, 33, n - 33);
    ShrSplit(y, 33, n - 33);
  }

  // ---- names ----

  /** A glob against a name: '*' stands for any run of characters other than a newline. */
  predicate GlobMatch(g: string, s: string)
    decreases |g| + |s|
  {
    if g == [] then s == []
    else if g[0] == '*' then GlobMatch(g[1..], s) || (s != [] && s[0] != '\n' && GlobMatch(g, s[1..]))
    else s != [] && s[0] == g[0] && GlobMatch(g[1..], s[1..])
  }

  function Stars(g: string): nat {
    if g == "" then 0 else Stars(g[1..]) + if g[0] == '*' then 1 else 0
  }

  /** A pattern with its stars replaced by runs of characters. */
  function Filled(g: string, runs: seq<string>): string
    requires |runs| == Stars(g)
  {
    if g == "" then ""
    else if g[0] == '*' then runs[0] + Filled(g[1..], runs[1..])
    else [g[0]] + Filled(g[1..], runs)
  }

  ghost predicate OneLine(runs: seq<string>) {
    forall r <- runs :: '\n' !in r
  }

  /** A glob matches the texts it becomes when runs of characters stand for its stars. */
  lemma {:induction false} GlobMatchIff(g: string, s: string)
    ensures GlobMatch(g, s) <==> exists runs: seq<string> :: |runs| == Stars(g) && OneLine(runs) && Filled(g, runs) == s
    decreases |g| + |s|
  {
    if GlobMatch(g, s) {
      var _ := RunsOf(g, s);
    }
    if runs: seq<string> :| |runs| == Stars(g) && OneLine(runs) && Filled(g, runs) == s {
      FilledMatches(g, runs);
    }
  }

  lemma {:induction false} RunsOf(g: string, s: string) returns (runs: seq<string>)
    requires GlobMatch(g, s)
    ensures |runs| == Stars(g) && OneLine(runs) && Filled(g, runs) == s
    decreases |g| + |s|
  {
    if g == "" {
      runs := [];
    } else if g[0] != '*' {
      runs := RunsOf(g[1..], s[1..]);
      assert s == [s[0]] + s[1..];
    } else if GlobMatch(g[1..], s) {
      var rest := RunsOf(g[1..], s);
      runs := [""] + rest;
      assert runs[1..] == rest;
    } else {
      var rest := RunsOf(g, s[1..]);
      runs := [[s[0]] + rest[0]] + rest[1..];
      assert runs[1..] == rest[1..];
      assert s == [s[0]] + (rest[0] + Filled(g[1..], rest[1..]));
      assert rest[0] in rest && forall r <- rest[1..] :: r in rest;
    }
  }

  lemma {:induction false} FilledMatches(g: string, runs: seq<string>)
    requires |runs| == Stars(g) && OneLine(runs)
    ensures GlobMatch(g, Filled(g, runs))
    decreases |g| + |Filled(g, runs)|
  {
    var s := Filled(g, runs);
    if g == "" {
    } else if g[0] != '*' {
      FilledMatches(g[1..], runs);
      assert s[1..] == Filled(g[1..], runs);
    } else if runs[0] == "" {
      FilledMatches(g[1..], runs[1..]);
      assert s == Filled(g[1..], runs[1..]);
    } else {
      var runs' := [runs[0][1..]] + runs[1..];
      assert runs'[1..] == runs[1..] && s[1..] == Filled(g, runs') && s[0] == runs[0][0];
      assert runs[0] in runs && forall r <- runs[1..] :: r in runs;
      FilledMatches(g, runs');
    }
  }

  function CleanName(n: string): string {
    ToLower(TrimDot(TrimSpace(n)))
  }

  predicate CoversName(p: Pattern, n: string) {
    p.Name? && CleanName(n) != "" && GlobMatch(p.glob, CleanName(n))
  }

  /** A name is matched without white space around it, without one dot at its end and in lower case, and never
      when nothing is left. */
  lemma CoversNameIff(g: string, n: string, m: string, k: nat)
    requires Trimmed(n, m, k)
    ensures var clean := ToLower(if m != "" && m[|m| - 1] == '.' then m[..|m| - 1] else m);
            CoversName(Name(g), n)
            <==> clean != "" && exists runs: seq<string> :: |runs| == Stars(g) && OneLine(runs) && Filled(g, runs) == clean
  {
    hide GlobMatch, ToLower, Trimmed, OneLine;
    var j := TrimSpaceCuts(n);
    TrimmedUnique(n, TrimSpace(n), j, m, k);
    GlobMatchIff(g, CleanName(n));
  }

  // ---- the compiled set ----

  ghost predicate AllValid(list: seq<Pattern>) {
    forall i | 0 <= i < |list| :: list[i].Valid()
  }

  /** Some pattern of the list covers the address, or one of the names known for it. `addr` is what
      parsing the text gave. */
  ghost predicate CoveredAddr(list: seq<Pattern>, addr: Option<Addr>)
    requires AllValid(list)
  {
    addr.Some? && exists p <- list :: CoversAddr(p, Unmap(addr.value))
  }

  ghost predicate CoveredName(list: seq<Pattern>, names: seq<string>) {
    exists p <- list, n <- names :: CoversName(p, n)
  }

  ghost predicate Covered(list: seq<Pattern>, addr: Option<Addr>, names: seq<string>)
    requires AllValid(list)
  {
    CoveredAddr(list, addr) || CoveredName(list, names)
  }

  class ExclusionSet {
    var ips: set<Addr>
    var cidrs: seq<Prefix>
    var names: seq<string>
    ghost const list: seq<Pattern>

    /** The three compiled parts hold exactly the usable patterns of the list. */
    ghost predicate Valid()
      reads this
    {
      && AllValid(list)
      && (forall a :: a in ips <==> Ip(a) in list)
      && (forall q :: q in cidrs <==> Cidr(q) in list)
      && (forall g :: g in names <==> Name(g) in list)
    }

    /** NewExclusionSet. */
    constructor (list: seq<Pattern>)
      requires AllValid(list)
      ensures Valid() && this.list == list
    {
      ips, cidrs, names := {}, [], [];
      this.list := list;
      new;
      for i := 0 to |list|
        invariant forall a :: a in ips <==> Ip(a) in list[..i]
        invariant forall q :: q in cidrs <==> Cidr(q) in list[..i]
        invariant forall g :: g in names <==> Name(g) in list[..i]
      {
        assert list[..i + 1] == list[..i] + [list[i]];
        match list[i]
        case Ip(a) => ips := ips + {a};
        case Cidr(q) => cidrs := cidrs + [q];
        case Unusable =>
        case Name(g) => names := names + [g];
      }
      assert list[..|list|] == list;
    }

    lemma GlobsCompiled()
      requires Valid()
      ensures forall p <- list :: p.Name? ==> p.glob in names
    {
      forall p | p in list && p.Name? ensures p.glob in names {
        assert p == Name(p.glob);
      }
    }

    method IsEmpty() returns (b: bool)
      requires Valid()
      ensures b <==> forall p <- list :: p == Unusable
    {
      b := ips == {} && cidrs == [] && names == [];
      if !b {
        if ips != {} {
          var a :| a in ips;
          assert Ip(a) in list;
        } else if cidrs != [] {
          assert cidrs[0] in cidrs && Cidr(cidrs[0]) in list;
        } else {
          assert names[0] in names && Name(names[0]) in list;
        }
      }
    }

    /** MatchIP: the pattern covering an address, exact addresses first. */
    method MatchIP(addr: Option<Addr>) returns (r: Option<Pattern>)
      requires Valid()
      ensures r.Some? <==> CoveredAddr(list, addr)
      ensures r.Some? ==> r.value in list && CoversAddr(r.value, Unmap(addr.value))
      ensures r.Some? && Ip(Unmap(addr.value)) in list ==> r.value.Ip?
    {
      if addr == None {
        return None;
      }
      var a := Unmap(addr.value);
      if a in ips {
        assert CoversAddr(Ip(a), a);
        return Some(Ip(a));
      }
      for i := 0 to |cidrs|
        invariant forall j | 0 <= j < i :: Cidr(cidrs[j]) in list && !Contains(cidrs[j], a)
      {
        assert cidrs[i] in cidrs && Cidr(cidrs[i]) in list;
        if Contains(cidrs[i], a) {
          assert CoversAddr(Cidr(cidrs[i]), a);
          return Some(Cidr(cidrs[i]));
        }
      }
      forall p | p in list ensures !CoversAddr(p, a) {
        if p.Cidr? {
          assert p.p in cidrs;
        }
      }
      return None;
    }

    /** Match: the address, then every name known for it. */
    method Match(addr: Option<Addr>, known: seq<string>) returns (r: Option<Pattern>)
      requires Valid()
      ensures r.Some? <==> Covered(list, addr, known)
      ensures r.Some? ==> r.value in list
    {
      r := MatchIP(addr);
      if r.Some? || names == [] {
        GlobsCompiled();
        return;
      }
      for i := 0 to |known|
        invariant forall p <- list, m | 0 <= m < i :: !CoversName(p, known[m])
      {
        var n := CleanName(known[i]);
        if n != "" {
          for j := 0 to |names|
            invariant forall m | 0 <= m < j :: !GlobMatch(names[m], n)
          {
            if GlobMatch(names[j], n) {
              assert names[j] in names;
              assert CoversName(Name(names[j]), known[i]);
              return Some(Name(names[j]));
            }
          }
          GlobsCompiled();
        }
      }
      return None;
    }
  }

  // ---- the browser ----

  /** ipInCidr's last line: shifting both numbers by width - bits; BigInt shifts left when that is
      negative. */
  predicate ShiftTest(a: nat, n: nat, width: nat, bits: int) {
    var shift := width - bits;
    if shift >= 0 then Shr(a, shift) == Shr(n, shift) else Shl(a, -shift) == Shl(n, -shift)
  }

  /** The shift test is membership in the block [base, base + 2^(width - bits)) around the network, and
      plain equality when the prefix is longer than the address. */
  lemma ShiftTestIsMembership(a: nat, n: nat, width: nat, bits: int)
    ensures bits <= width ==>
              var base := Shr(n, width - bits) * Pow2(width - bits);
              ShiftTest(a, n, width, bits) <==> base <= a < base + Pow2(width - bits)
    ensures bits > width ==> (ShiftTest(a, n, width, bits) <==> a == n)
  {
    if bits <= width {
      SameBlock(a, n, width - bits);
    } else {
      ShlInjective(a, n, bits - width);
    }
  }

  /** How an address is written: as the server prints it, or otherwise, IPv6 possibly with a dotted tail. */
  datatype Spelling = Canonical | Otherwise(dotted: bool)

  /** ipToBits: no number for an IPv6 text with a dotted tail, which is also how the server prints mapped
      addresses. */
  function Bits(a: Addr, sp: Spelling): Option<nat> {
    if a.V6? && (if sp == Canonical then Is4In6(a) else sp.dotted) then None else Some(Num(a))
  }

  predicate IpInCidr(a: Addr, sp: Spelling, p: Prefix) {
    var x, n := Bits(a, sp), Bits(p.addr, Canonical);
    x.Some? && n.Some? && p.addr.V6? == a.V6? && ShiftTest(x.value, n.value, if p.addr.V6? then 128 else 32, p.bits)
  }

  /** A pattern the browser takes to cover an address text: the same text, or a network around its number. */
  predicate BrowserCovers(p: Pattern, a: Addr, sp: Spelling)
    requires p.Valid()
  {
    match p
    case Ip(b) => a == b && sp == Canonical
    case Cidr(q) => Bits(a, sp).Some? && !Is4In6(q.addr) && Contains(q, a)
    case _ => false
  }

  /** matchIP over the cached items, in list order: exact addresses compare as texts. */
  method BrowserMatchIP(list: seq<Pattern>, a: Addr, sp: Spelling) returns (r: Option<Pattern>)
    requires AllValid(list)
    ensures r == None ==> forall p <- list :: !BrowserCovers(p, a, sp)
    ensures r.Some? ==> exists i | 0 <= i < |list| ::
                          r.value == list[i] && BrowserCovers(list[i], a, sp) && forall j | 0 <= j < i :: !BrowserCovers(list[j], a, sp)
  {
    for i := 0 to |list|
      invariant forall j | 0 <= j < i :: !BrowserCovers(list[j], a, sp)
    {
      assert list[i] in list;
      if list[i].Ip? && list[i].a == a && sp == Canonical {
        return Some(list[i]);
      }
      if list[i].Cidr? && IpInCidr(a, sp, list[i].p) {
        return Some(list[i]);
      }
    }
    return None;
  }

  /** Patterns about IPv4-mapped addresses. */
  predicate Mapped(p: Pattern) {
    (p.Ip? && Is4In6(p.a)) || (p.Cidr? && Is4In6(p.p.addr))
  }

  /** No stored pattern is one. */
  lemma NormalizedIsUnmapped(input: Input)
    ensures NormalizeExclusion(input).Some? ==> NormalizeExclusion(input).value.Valid() && !Mapped(NormalizeExclusion(input).value)
  {
    if input.PrefixText? {
      var q := Prefix(Unmap(input.p.addr), input.p.bits);
      if q.Valid() && q.addr.V6? {
        MaskedStaysUnmapped(q);
      }
    }
  }

  lemma MaskedStaysUnmapped(q: Prefix)
    requires q.Valid() && q.addr.V6? && !Is4In6(q.addr)
    ensures !Is4In6(Masked(q).addr)
  {
    var x, y, n := q.addr.v6, Masked(q).addr.v6, 128 - q.bits;
    ShlShrBound(x, n);
    Top16(x);
    Top16(y);
    if n <= 32 {
      ShrSplit(x, n, 32 - n);
      ShrSplit(y, n, 32 - n);
    } else {
      ShlIsMultiplication(Shr(x, n), n);
      EvenAbove(Shr(x, n), y, n);
    }
  }

  /** Bit 32 of a number whose low n bits are clear, n being more than 32, is clear. */
  lemma EvenAbove(q: nat, y: nat, n: nat)
    requires n > 32 && y == q * Pow2(n)
    ensures Shr(y, 32) % 2 == 0
  {
    hide Pow2, Shr;
    PowSplit(n - 33, 33);
    ShrIsDivision(y, 32);
    Pow2Is32();
    TimesTwice(q, Pow2(n - 33), Pow2(32));
    EvenBlock(y, Shr(y, 32), q * Pow2(n - 33), Pow2(32));
  }

  lemma EvenBlock(y: nat, s: nat, h: nat, p: nat)
    requires p >= 1 && s * p <= y < s * p + p && y == 2 * h * p
    ensures s % 2 == 0
  {
    BlockUnique(y, s, 2 * h, p);
  }

  lemma TimesTwice(q: nat, a: nat, b: nat)
    ensures q * (a * (2 * b)) == 2 * (q * a) * b
  {
    assert a * (2 * b) == 2 * (a * b);
    assert q * (2 * (a * b)) == 2 * (q * (a * b));
    assert q * (a * b) == (q * a) * b;
    assert 2 * ((q * a) * b) == (2 * (q * a)) * b;
  }

  lemma {:induction false} PowSplit(m: nat, n: nat)
    ensures Pow2(m + n) == Pow2(m) * Pow2(n)
  {
    if m > 0 {
      PowSplit(m - 1, n);
      assert 2 * (Pow2(m - 1) * Pow2(n)) == (2 * Pow2(m - 1)) * Pow2(n);
    }
  }

  /** For an address as the server prints it and stored patterns, the browser shows exactly the trusted
      addresses that are not written in IPv4-mapped form. */
  lemma BrowserAgreesIff(list: seq<Pattern>, a: Addr)
    requires AllValid(list) && forall p <- list :: !Mapped(p)
    ensures (exists p <- list :: BrowserCovers(p, a, Canonical)) <==> CoveredAddr(list, Some(a)) && !Is4In6(a)
  {
    hide Contains;
    if CoveredAddr(list, Some(a)) && !Is4In6(a) {
      var p :| p in list && CoversAddr(p, Unmap(a));
      assert BrowserCovers(p, a, Canonical);
    }
    if p :| p in list && BrowserCovers(p, a, Canonical) {
      assert CoversAddr(p, Unmap(a));
    }
  }

  /** So on a mapped address the two differ whenever the plain IPv4 address is trusted, however it is
      written. */
  lemma BrowserDiffersOnMapped(a: U32, sp: Spelling)
    ensures var m := V6(MAPPED_BASE + a);
            && CoveredAddr([Ip(V4(a))], Some(m))
            && !exists p <- [Ip(V4(a))] :: BrowserCovers(p, m, sp)
  {
    assert CoversAddr(Ip(V4(a)), Unmap(V6(MAPPED_BASE + a)));
    assert Ip(V4(a)) in [Ip(V4(a))];
  }

  /** The number whose digits in base b are the groups, most significant first. */
  function BigEndian(gs: seq<nat>, b: nat): nat {
    if gs == [] then 0 else BigEndian(gs[..|gs| - 1], b) * b + gs[|gs| - 1]
  }

  /** Digit i of v in base b, counted from the right. */
  function DigitAt(v: nat, b: nat, i: nat): nat
    requires b > 0
    decreases i
  {
    if i == 0 then v % b else DigitAt(v / b, b, i - 1)
  }

  lemma DivModStep(q: nat, r: nat, b: nat)
    requires r < b
    ensures (q * b + r) / b == q && (q * b + r) % b == r
  {
    var v := q * b + r;
    assert v == b * (v / b) + v % b;
    MulMono(q, v / b, b);
    MulMono(v / b, q, b);
  }

  lemma {:induction false} GroupsReadBack(gs: seq<nat>, b: nat, i: nat)
    requires b > 0 && forall j | 0 <= j < |gs| :: gs[j] < b
    ensures DigitAt(BigEndian(gs, b), b, i) == if i < |gs| then gs[|gs| - 1 - i] else 0
    decreases i
  {
    if gs == [] {
      if i > 0 {
        GroupsReadBack(gs, b, i - 1);
      }
    } else {
      var front, last := gs[..|gs| - 1], gs[|gs| - 1];
      DivModStep(BigEndian(front, b), last, b);
      if i > 0 {
        GroupsReadBack(front, b, i - 1);
      }
    }
  }

  /** The groups of an address with `n` of them, the gap filled with zeros. */
  function Groups(head: seq<nat>, tail: seq<nat>, n: nat): (gs: seq<nat>)
    requires |head| + |tail| <= n
    ensures |gs| == n
  {
    head + seq(n - |head| - |tail|, _ => 0) + tail
  }

  /** ipToBits, once the text is split: the groups before and after "::" for IPv6 (base 65536), or the
      four parts of a dotted quad (base 256, no gap). */
  method IpToBits(head: seq<nat>, tail: seq<nat>, gap: bool, v6: bool) returns (v: Option<nat>)
    requires !gap ==> tail == []
    requires !v6 ==> !gap
    ensures v.Some? <==>
              && (if !v6 then |head| == 4 else if gap then |head| + |tail| <= 8 else |head| == 8)
              && (forall g <- head :: g < if v6 then 65536 else 256)
              && (forall g <- tail :: g < if v6 then 65536 else 256)
    ensures v.Some? ==> v.value == if v6 then BigEndian(Groups(head, tail, 8), 65536) else BigEndian(Groups(head, tail, 4), 256)
  {
    var b, n := if v6 then 65536 else 256, if v6 then 8 else 4;
    if v6 {
      if |head| + |tail| > 8 || (!gap && |head| != 8) {
        return None;
      }
    } else if |head| != 4 {
      return None;
    }
    var groups := Groups(head, tail, n);
    var acc := 0;
    for i := 0 to n
      invariant forall j | 0 <= j < i :: groups[j] < b
      invariant acc == BigEndian(groups[..i], b)
    {
      if groups[i] >= b {
        GroupsFrom(head, tail, n, i);
        return None;
      }
      assert groups[..i + 1][..i] == groups[..i];
      acc := acc * b + groups[i];
    }
    assert groups[..n] == groups;
    AllGroups(head, tail, n);
    return Some(acc);
  }

  lemma GroupsFrom(head: seq<nat>, tail: seq<nat>, n: nat, i: nat)
    requires |head| + |tail| <= n && i < n
    ensures Groups(head, tail, n)[i] == 0 || Groups(head, tail, n)[i] in head || Groups(head, tail, n)[i] in tail
  {
  }

  lemma AllGroups(head: seq<nat>, tail: seq<nat>, n: nat)
    requires |head| + |tail| <= n
    ensures forall g | g in head || g in tail :: exists i | 0 <= i < n :: Groups(head, tail, n)[i] == g
  {
    var gs := Groups(head, tail, n);
    forall g | g in head || g in tail ensures exists i | 0 <= i < n :: gs[i] == g {
      if g in head {
        var j :| 0 <= j < |head| && head[j] == g;
        assert gs[j] == g;
      } else {
        var j :| 0 <= j < |tail| && tail[j] == g;
        assert gs[n - |tail| + j] == g;
      }
    }
  }
}
