/** Findings, severities and the text that identifies a finding (internal/db/alerts.go). */
module Findings {
  import opened Numbers

  datatype Finding = Finding(rule: string, severity: string, host: string, peer: string, port: int, title: string, details: string, key: string)

  const SEV_INFO := "info"
  const SEV_WARNING := "warning"
  const SEV_CRITICAL := "critical"

  function SeverityRank(s: string): (r: nat)
    ensures r <= 3
  {
    if s == SEV_CRITICAL then 3
    else if s == SEV_WARNING then 2
    else if s == SEV_INFO then 1
    else 0
  }

  /** Critical ranks above warning, warning above info, and info above every other text. */
  lemma SeverityOrder(s: string)
    ensures SeverityRank(s) == 3 <==> s == "critical"
    ensures SeverityRank(s) == 2 <==> s == "warning"
    ensures SeverityRank(s) == 1 <==> s == "info"
  {
  }

  /** What the upsert writes over severity `cur` when a finding of severity `new'` arrives. */
  function Escalated(cur: string, new': string): string {
    if new' == SEV_CRITICAL || (new' == SEV_WARNING && cur == SEV_INFO) then new' else cur
  }

  /** "Severity only escalates": the stored severity is the higher of the two by rank, except when the
      stored one is unknown and an info or warning finding arrives. */
  lemma EscalatedIsMaxIff(cur: string, new': string)
    ensures SeverityRank(Escalated(cur, new')) == Max(SeverityRank(cur), SeverityRank(new'))
            <==> !(SeverityRank(cur) == 0 && (new' == SEV_INFO || new' == SEV_WARNING))
  {
  }

  lemma EscalatedRank(cur: string, new': string)
    ensures var c, n := SeverityRank(cur), SeverityRank(new');
            SeverityRank(Escalated(cur, new')) == if n == 3 || (n == 2 && c == 1) then n else c
  {
  }

  // ---- the dedupe key ----

  function Digit(d: nat): char
    requires d < 10
  {
    "0123456789"[d]
  }

  /** Decimal text of a number. */
  function Itoa(n: nat): (s: string)
    ensures s != []
    ensures forall c <- s :: '0' <= c <= '9'
  {
    if n < 10 then [Digit(n)] else Itoa(n / 10) + [Digit(n % 10)]
  }

  lemma {:induction false} ItoaInjective(m: nat, n: nat)
    requires Itoa(m) == Itoa(n)
    ensures m == n
  {
    var s, t := Itoa(m), Itoa(n);
    assert s[|s| - 1] == Digit(m % 10) && t[|t| - 1] == Digit(n % 10);
    if m >= 10 && n >= 10 {
      assert s[..|s| - 1] == Itoa(m / 10) && t[..|t| - 1] == Itoa(n / 10);
      ItoaInjective(m / 10, n / 10);
    }
  }

  function Join(parts: seq<string>): string {
    if parts == [] then ""
    else if |parts| == 1 then parts[0]
    else parts[0] + "|" + Join(parts[1..])
  }

  function Parts(f: Finding): seq<string> {
    [f.rule, f.host, f.peer] + (if f.port > 0 then [Itoa(f.port)] else []) + if f.key != "" then [f.key] else []
  }

  function DedupeKey(f: Finding): string {
    Join(Parts(f))
  }

  /** What follows rule, host and peer in the key. */
  function Suffix(f: Finding): string {
    (if f.port > 0 then "|" + Itoa(f.port) else "") + if f.key != "" then "|" + f.key else ""
  }

  lemma DedupeKeyShape(f: Finding)
    ensures DedupeKey(f) == f.rule + "|" + (f.host + "|" + (f.peer + Suffix(f)))
  {
    var parts := Parts(f);
    var rest := parts[3..];
    assert parts[1..][1..] == parts[2..] && parts[2..][1..] == rest;
    if f.port > 0 && f.key != "" {
      assert rest == [Itoa(f.port), f.key] && rest[1..] == [f.key];
      assert Join(rest[1..]) == f.key;
      assert Join(rest) == Itoa(f.port) + "|" + f.key;
      assert Join(parts[2..]) == f.peer + "|" + (Itoa(f.port) + "|" + f.key);
    } else if f.port > 0 {
      assert rest == [Itoa(f.port)];
      assert Join(parts[2..]) == f.peer + "|" + Itoa(f.port);
    } else if f.key != "" {
      assert rest == [f.key];
      assert Join(parts[2..]) == f.peer + "|" + f.key;
    } else {
      assert rest == [];
      assert Join(parts[2..]) == f.peer;
    }
    assert Join(parts[2..]) == f.peer + Suffix(f);
    assert Join(parts[1..]) == f.host + "|" + Join(parts[2..]);
  }

  predicate BarFree(s: string) {
    '|' !in s
  }

  /** Two texts that agree up to their first bar agree before it and after it. */
  lemma {:induction false} FirstBar(a: string, b: string, x: string, y: string)
    requires BarFree(a) && BarFree(b) && a + x == b + y
    requires (x == "" || x[0] == '|') && (y == "" || y[0] == '|')
    ensures a == b && x == y
  {
    assert a != [] ==> (a + x)[0] == a[0] && a[0] in a;
    assert b != [] ==> (b + y)[0] == b[0] && b[0] in b;
    if a == [] || b == [] {
      assert a + x == x || b + y == y;
      assert a == b == [];
    } else {
      assert (a + x)[1..] == a[1..] + x && (b + y)[1..] == b[1..] + y;
      FirstBar(a[1..], b[1..], x, y);
      assert a == [a[0]] + a[1..] && b == [b[0]] + b[1..];
    }
  }

  /** A finding without a port whose key spells the other finding's port (and key). */
  predicate Imitates(g: Finding, f: Finding) {
    && f.port > 0 && g.port <= 0
    && g.key == Itoa(f.port) + if f.key != "" then "|" + f.key else ""
  }

  function PortOf(f: Finding): int {
    if f.port > 0 then f.port else 0
  }

  /** The part of the suffix the discriminator adds. */
  function KeyTail(f: Finding): (t: string)
    ensures t == "" || t[0] == '|'
    ensures t == "" <==> f.key == ""
    ensures t != "" ==> t[1..] == f.key
  {
    if f.key != "" then "|" + f.key else ""
  }

  lemma KeyTailInjective(f: Finding, g: Finding)
    ensures KeyTail(f) == KeyTail(g) <==> f.key == g.key
  {
  }

  lemma PortedSuffix(f: Finding)
    requires f.port > 0
    ensures Suffix(f) == "|" + (Itoa(f.port) + KeyTail(f)) && Suffix(f)[1..] == Itoa(f.port) + KeyTail(f)
  {
  }

  lemma SuffixTwoPorts(f: Finding, g: Finding)
    requires f.port > 0 && g.port > 0
    ensures Suffix(f) == Suffix(g) <==> f.port == g.port && f.key == g.key
  {
    PortedSuffix(f);
    PortedSuffix(g);
    if Suffix(f) == Suffix(g) {
      FirstBar(Itoa(f.port), Itoa(g.port), KeyTail(f), KeyTail(g));
      ItoaInjective(f.port, g.port);
      KeyTailInjective(f, g);
    }
  }

  lemma SuffixOnePort(f: Finding, g: Finding)
    requires f.port > 0 && g.port <= 0
    ensures Suffix(f) == Suffix(g) <==> Imitates(g, f)
  {
    PortedSuffix(f);
    assert Suffix(g) == KeyTail(g);
    assert KeyTail(g) != "" ==> KeyTail(g) == "|" + g.key;
  }

  lemma SuffixIff(f: Finding, g: Finding)
    ensures Suffix(f) == Suffix(g) <==> (PortOf(f) == PortOf(g) && f.key == g.key) || Imitates(f, g) || Imitates(g, f)
  {
    if f.port > 0 && g.port > 0 {
      SuffixTwoPorts(f, g);
    } else if f.port > 0 {
      SuffixOnePort(f, g);
    } else if g.port > 0 {
      SuffixOnePort(g, f);
    } else {
      assert Suffix(f) == KeyTail(f) && Suffix(g) == KeyTail(g);
      KeyTailInjective(f, g);
    }
  }

  /** When two findings are the same case: the key separates rule, host, peer, port and discriminator,
      except that a discriminator can spell out a port. */
  lemma DedupeKeyIff(f: Finding, g: Finding)
    requires BarFree(f.rule) && BarFree(f.host) && BarFree(f.peer)
    requires BarFree(g.rule) && BarFree(g.host) && BarFree(g.peer)
    ensures DedupeKey(f) == DedupeKey(g)
            <==> f.rule == g.rule && f.host == g.host && f.peer == g.peer
                 && ((PortOf(f) == PortOf(g) && f.key == g.key) || Imitates(f, g) || Imitates(g, f))
  {
    DedupeKeyShape(f);
    DedupeKeyShape(g);
    SuffixIff(f, g);
    var fp, gp := f.peer + Suffix(f), g.peer + Suffix(g);
    if DedupeKey(f) == DedupeKey(g) {
      assert DedupeKey(f) == f.rule + ("|" + (f.host + ("|" + fp)));
      assert DedupeKey(g) == g.rule + ("|" + (g.host + ("|" + gp)));
      FirstBar(f.rule, g.rule, "|" + (f.host + ("|" + fp)), "|" + (g.host + ("|" + gp)));
      assert f.host + ("|" + fp) == ("|" + (f.host + ("|" + fp)))[1..] == ("|" + (g.host + ("|" + gp)))[1..];
      assert g.host + ("|" + gp) == ("|" + (g.host + ("|" + gp)))[1..];
      FirstBar(f.host, g.host, "|" + fp, "|" + gp);
      assert fp == ("|" + fp)[1..] == ("|" + gp)[1..] == gp;
      FirstBar(f.peer, g.peer, Suffix(f), Suffix(g));
    }
  }

  /** Two findings that differ only in how they say 443 share a key: a custom query can return either. */
  lemma PortsCollide(f: Finding)
    requires f.port == 443 && f.key == ""
    ensures DedupeKey(f) == DedupeKey(f.(port := 0, key := "443"))
  {
    var g := f.(port := 0, key := "443");
    ItoaTwice(443);
    assert Itoa(443) == "443";
    assert Parts(f) == Parts(g);
  }

  lemma ItoaTwice(n: nat)
    requires n >= 100 && n < 1000
    ensures Itoa(n) == [Digit(n / 100), Digit(n / 10 % 10), Digit(n % 10)]
  {
    assert Itoa(n / 10) == Itoa(n / 100) + [Digit(n / 10 % 10)] && n / 10 / 10 == n / 100;
  }
}
