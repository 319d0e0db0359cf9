/** What the trusted list covers: texts, findings and stored alerts (internal/rules/exclusions.go,
    internal/db/exclusions.go). Findings carry texts as they came; the table prints addresses its own way, and
    names are known by that spelling. */
module Trust {
  import opened Address
  import opened Alerts
  import opened Exclusions
  import opened Findings
  import opened Options
  import opened Selection

  /** What parsing an address text gives, what the address columns make of it, and the names known for an
      address by the text the columns print. */
  datatype World = World(parse: map<string, Addr>, inet: Inets, names: map<string, seq<string>>)
  {
    function AddrOf(t: string): Option<Addr> {
      if t in parse then Some(parse[t]) else None
    }

    function NamesOf(t: string): seq<string> {
      if t in names then names[t] else []
    }

    /** The text the table prints for a stored text. */
    function Shown(t: string): string {
      Column(inet, t).text
    }

    /** The empty text is no address; what the columns print reads back as itself, and as the address the
        original text parsed to, if it parsed; names are known by printed texts. */
    ghost predicate Valid() {
      && "" !in parse && "" !in inet
      && (forall t <- inet :: inet[t].text in inet && inet[inet[t].text].text == inet[t].text)
      && (forall t <- inet :: t in parse ==> AddrOf(inet[t].text) == AddrOf(t))
      && (forall t <- names :: t in inet && inet[t].text == t)
    }
  }

  // ---- coverage ----

  ghost predicate CoveredText(ps: seq<Pattern>, w: World, t: string)
    requires AllValid(ps)
  {
    Covered(ps, w.AddrOf(t), w.NamesOf(t))
  }

  ghost predicate CoveredPair(ps: seq<Pattern>, w: World, host: string, peer: string)
    requires AllValid(ps)
  {
    CoveredText(ps, w, host) || CoveredText(ps, w, peer)
  }

  /** As the filter sees a finding: by its own texts. */
  ghost predicate CoveredFinding(ps: seq<Pattern>, w: World, f: Finding)
    requires AllValid(ps)
  {
    CoveredPair(ps, w, f.host, f.peer)
  }

  /** As the table will show it. */
  ghost predicate CoveredOnceStored(ps: seq<Pattern>, w: World, f: Finding)
    requires AllValid(ps)
  {
    CoveredPair(ps, w, w.Shown(f.host), w.Shown(f.peer))
  }

  ghost predicate CoveredRow(ps: seq<Pattern>, w: World, a: Alert)
    requires AllValid(ps)
  {
    CoveredPair(ps, w, a.host.text, a.peer.text)
  }

  /** The live alerts the list covers: what the guarantee says there are none of. */
  ghost function CoveredLive(ps: seq<Pattern>, w: World, rows: Rows): set<nat>
    requires AllValid(ps)
  {
    set i | i in rows && Live(rows[i]) && CoveredRow(ps, w, rows[i])
  }

  /** A pattern covers a text by the address it parses to, without its IPv4 mapping, or by one of the names known
      for exactly that text. */
  ghost predicate PatternCovers(p: Pattern, w: World, t: string)
    requires p.Valid()
  {
    (t in w.parse && CoversAddr(p, Unmap(w.parse[t]))) || (t in w.names && exists n <- w.names[t] :: CoversName(p, n))
  }

  /** Findings and rows alike are covered when some pattern covers their host or their peer: the one by the text
      it came with, the other by the text the table prints. */
  lemma CoverageIff(ps: seq<Pattern>, w: World, f: Finding, a: Alert)
    requires AllValid(ps)
    ensures CoveredFinding(ps, w, f) <==> exists p <- ps :: PatternCovers(p, w, f.host) || PatternCovers(p, w, f.peer)
    ensures CoveredRow(ps, w, a) <==> exists p <- ps :: PatternCovers(p, w, a.host.text) || PatternCovers(p, w, a.peer.text)
  {
    PairIff(ps, w, f.host, f.peer);
    PairIff(ps, w, a.host.text, a.peer.text);
    hide PatternCovers, CoveredPair;
  }

  lemma PairIff(ps: seq<Pattern>, w: World, host: string, peer: string)
    requires AllValid(ps)
    ensures CoveredPair(ps, w, host, peer) <==> exists p <- ps :: PatternCovers(p, w, host) || PatternCovers(p, w, peer)
  {
    TextIff(ps, w, host);
    TextIff(ps, w, peer);
    hide PatternCovers, CoveredText;
  }

  lemma TextIff(ps: seq<Pattern>, w: World, t: string)
    requires AllValid(ps)
    ensures CoveredText(ps, w, t) <==> exists p <- ps :: PatternCovers(p, w, t)
  {
    hide CoversAddr, CoversName;
    if CoveredText(ps, w, t) {
      if CoveredAddr(ps, w.AddrOf(t)) {
        var p :| p in ps && CoversAddr(p, Unmap(w.parse[t]));
        assert PatternCovers(p, w, t);
      } else {
        var p, n :| p in ps && n in w.NamesOf(t) && CoversName(p, n);
        assert PatternCovers(p, w, t);
      }
    }
  }

  /** The live alerts on the trusted list, one by one. */
  lemma CoveredLiveIff(ps: seq<Pattern>, w: World, rows: Rows, i: nat)
    requires AllValid(ps)
    ensures i in CoveredLive(ps, w, rows)
            <==> i in rows && rows[i].state != Resolved
                 && exists p <- ps :: PatternCovers(p, w, rows[i].host.text) || PatternCovers(p, w, rows[i].peer.text)
  {
    if i in rows {
      PairIff(ps, w, rows[i].host.text, rows[i].peer.text);
      hide PatternCovers, CoveredPair;
    }
  }

  // ---- two spellings of one address ----

  /** Storing a text never takes it off the list, and it leaves it as it is if and only if the text is already
      what the table prints, or the printed text is not covered, or the text parses and its address is covered:
      what is left is coverage by a name, and texts only the table can read. */
  lemma SpellingMatters(ps: seq<Pattern>, w: World, t: string)
    requires AllValid(ps) && w.Valid() && t in w.inet
    ensures CoveredText(ps, w, t) ==> CoveredText(ps, w, w.Shown(t))
    ensures (CoveredText(ps, w, t) <==> CoveredText(ps, w, w.Shown(t)))
            <==> w.Shown(t) == t || !CoveredText(ps, w, w.Shown(t)) || (t in w.parse && CoveredAddr(ps, w.AddrOf(t)))
  {
    assert t in w.names ==> w.Shown(t) == t;
    assert !CoveredName(ps, []);
    hide CoveredAddr, CoveredName;
  }

  /** The finding's texts are those the table prints, or empty. */
  predicate Spelled(w: World, f: Finding) {
    w.Shown(f.host) == f.host && w.Shown(f.peer) == f.peer
  }

  /** No name pattern covers the printed texts, and the texts parse if they are not empty. */
  ghost predicate Nameless(ps: seq<Pattern>, w: World, f: Finding) {
    && (f.host == "" || f.host in w.parse) && (f.peer == "" || f.peer in w.parse)
    && !CoveredName(ps, w.NamesOf(w.Shown(f.host))) && !CoveredName(ps, w.NamesOf(w.Shown(f.peer)))
  }

  /** For such findings the filter and the table agree. */
  lemma PlainFindingsAgree(ps: seq<Pattern>, w: World, f: Finding)
    requires AllValid(ps) && w.Valid() && Accepted(w.inet, f) && (Spelled(w, f) || Nameless(ps, w, f))
    ensures CoveredFinding(ps, w, f) <==> CoveredOnceStored(ps, w, f)
  {
    hide CoveredAddr, CoveredName;
    if !Spelled(w, f) {
      PlainTextAgrees(ps, w, f.host);
      PlainTextAgrees(ps, w, f.peer);
    }
  }

  lemma PlainTextAgrees(ps: seq<Pattern>, w: World, t: string)
    requires AllValid(ps) && w.Valid() && (t == "" || (t in w.inet && t in w.parse)) && !CoveredName(ps, w.NamesOf(w.Shown(t)))
    ensures CoveredText(ps, w, t) <==> CoveredText(ps, w, w.Shown(t))
  {
    if t != "" {
      SpellingMatters(ps, w, t);
      hide CoveredAddr, CoveredName;
    }
  }

  // ---- the filter ----

  ghost function Uncovered(ps: seq<Pattern>, w: World, fs: seq<Finding>): (r: seq<Finding>)
    requires AllValid(ps)
    ensures forall f <- r :: f in fs && !CoveredFinding(ps, w, f)
  {
    if fs == [] then []
    else
      var rest := Uncovered(ps, w, fs[..|fs| - 1]);
      var f := fs[|fs| - 1];
      if CoveredFinding(ps, w, f) then rest else rest + [f]
  }

  /** What the filter lets pass. */
  ghost function Passes(ps: seq<Pattern>, w: World): Finding -> bool
    requires AllValid(ps)
  {
    (f: Finding) => !CoveredFinding(ps, w, f)
  }

  /** The filter drops the covered findings and nothing else: every other finding is kept, as often as it was
      found and in the order it was found. */
  lemma {:induction false} UncoveredAreKept(ps: seq<Pattern>, w: World, fs: seq<Finding>)
    requires AllValid(ps)
    ensures KeptOf(Uncovered(ps, w, fs), fs, Passes(ps, w))
  {
    hide CoveredFinding, KeptOf;
    if fs == [] {
      KeptNone(Passes(ps, w));
    } else {
      var n := |fs| - 1;
      UncoveredAreKept(ps, w, fs[..n]);
      KeptMore(Uncovered(ps, w, fs[..n]), fs[..n], fs[n], Passes(ps, w));
      assert fs == fs[..n] + [fs[n]];
    }
  }

  ghost predicate HasNames(ps: seq<Pattern>) {
    exists p <- ps :: p.Name?
  }

  predicate Readable(w: World, f: Finding) {
    (f.host == "" || f.host in w.inet) && (f.peer == "" || f.peer in w.inet)
  }

  /** applyExclusions: nothing when the name lookup fails, which one unreadable address is enough for. */
  ghost function Admitted(ps: seq<Pattern>, w: World, fs: seq<Finding>): Option<seq<Finding>>
    requires AllValid(ps)
  {
    if HasNames(ps) && exists f <- fs :: !Readable(w, f) then None else Some(Uncovered(ps, w, fs))
  }

  /** Nothing is let through when a name pattern exists and some finding carries a text that is no address;
      otherwise what passes is what the filter keeps. */
  lemma AdmittedIs(ps: seq<Pattern>, w: World, fs: seq<Finding>)
    requires AllValid(ps)
    ensures Admitted(ps, w, fs) == None
            <==> (exists g :: Name(g) in ps) && exists f <- fs :: (f.host != "" && f.host !in w.inet) || (f.peer != "" && f.peer !in w.inet)
    ensures Admitted(ps, w, fs).Some? ==> KeptOf(Admitted(ps, w, fs).value, fs, Passes(ps, w))
  {
    UncoveredAreKept(ps, w, fs);
    hide KeptOf, Uncovered;
    assert HasNames(ps) <==> exists g :: Name(g) in ps by {
      if p :| p in ps && p.Name? {
        assert Name(p.glob) in ps;
      }
    }
  }

  lemma NothingCovered(ps: seq<Pattern>, w: World, f: Finding)
    requires AllValid(ps) && forall p <- ps :: p == Unusable
    ensures !CoveredFinding(ps, w, f)
  {
  }

  /** A list without a usable pattern lets every finding pass. */
  lemma {:induction false} NothingUncovered(ps: seq<Pattern>, w: World, fs: seq<Finding>)
    requires AllValid(ps) && forall p <- ps :: p == Unusable
    ensures Uncovered(ps, w, fs) == fs && !HasNames(ps)
  {
    hide CoveredFinding;
    if fs != [] {
      NothingUncovered(ps, w, fs[..|fs| - 1]);
      NothingCovered(ps, w, fs[|fs| - 1]);
      assert fs == fs[..|fs| - 1] + [fs[|fs| - 1]];
    }
  }

  // ---- changing the list ----

  function Without(ps: seq<Pattern>, p: Pattern): (r: seq<Pattern>)
    ensures forall q <- r :: q in ps && q != p
  {
    if ps == [] then []
    else
      var rest, q := Without(ps[..|ps| - 1], p), ps[|ps| - 1];
      if q == p then rest else rest + [q]
  }

  /** The list keeps every other pattern, in its order. */
  lemma {:induction false} WithoutKeeps(ps: seq<Pattern>, p: Pattern)
    ensures KeptOf(Without(ps, p), ps, (q: Pattern) => q != p)
  {
    hide KeptOf;
    var other := (q: Pattern) => q != p;
    if ps == [] {
      KeptNone(other);
    } else {
      var n := |ps| - 1;
      WithoutKeeps(ps[..n], p);
      KeptMore(Without(ps[..n], p), ps[..n], ps[n], other);
      assert ps == ps[..n] + [ps[n]];
    }
  }

  lemma WithoutValid(ps: seq<Pattern>, p: Pattern)
    requires AllValid(ps)
    ensures AllValid(Without(ps, p))
  {
    forall i | 0 <= i < |Without(ps, p)| ensures Without(ps, p)[i].Valid() {
      assert Without(ps, p)[i] in ps;
    }
  }

  /** A pattern is added at the end, once. */
  function With(ps: seq<Pattern>, p: Pattern): (r: seq<Pattern>)
    ensures p in ps ==> r == ps
    ensures p !in ps ==> r == ps + [p]
  {
    if p in ps then ps else ps + [p]
  }

  lemma WithValid(ps: seq<Pattern>, p: Pattern)
    requires AllValid(ps) && p.Valid()
    ensures AllValid(With(ps, p))
  {
  }

  lemma CoveredAppend(ps: seq<Pattern>, p: Pattern, w: World, t: string)
    requires AllValid(ps) && p.Valid()
    ensures AllValid(ps + [p])
    ensures CoveredText(ps + [p], w, t) <==> CoveredText(ps, w, t) || CoveredText([p], w, t)
  {
    var all := ps + [p];
    forall q ensures q in all <==> q in ps || q in [p] {
    }
  }

  lemma CoveredSubset(ps: seq<Pattern>, qs: seq<Pattern>, w: World, t: string)
    requires AllValid(ps) && AllValid(qs) && forall p <- ps :: p in qs
    ensures CoveredText(ps, w, t) ==> CoveredText(qs, w, t)
  {
  }

  lemma CoveredWith(ps: seq<Pattern>, p: Pattern, w: World, t: string)
    requires AllValid(ps) && p.Valid()
    ensures AllValid(With(ps, p))
    ensures CoveredText(With(ps, p), w, t) <==> CoveredText(ps, w, t) || CoveredText([p], w, t)
  {
    CoveredAppend(ps, p, w, t);
    if p in ps {
      CoveredSubset([p], ps, w, t);
    }
  }

  /** A list with one more pattern, over the table in which what it covers has been resolved. */
  lemma AddedList(ps: seq<Pattern>, p: Pattern, w: World, rows: Rows, now: int)
    requires AllValid(ps) && p.Valid()
    ensures AllValid(With(ps, p))
    ensures CoveredLive(With(ps, p), w, ResolveIn(rows, CoveredLive([p], w, rows), now)) == CoveredLive(ps, w, rows) - CoveredLive([p], w, rows)
  {
    hide CoveredText, With;
    WithValid(ps, p);
    forall i | i in rows ensures CoveredRow(With(ps, p), w, rows[i]) <==> CoveredRow(ps, w, rows[i]) || CoveredRow([p], w, rows[i]) {
      CoveredWith(ps, p, w, rows[i].host.text);
      CoveredWith(ps, p, w, rows[i].peer.text);
    }
    hide CoveredRow;
  }

  /** A shorter list covers no more. */
  lemma ShorterList(ps: seq<Pattern>, p: Pattern, w: World, rows: Rows)
    requires AllValid(ps)
    ensures AllValid(Without(ps, p)) && CoveredLive(Without(ps, p), w, rows) <= CoveredLive(ps, w, rows)
  {
    WithoutValid(ps, p);
    hide CoveredText;
    forall i | i in rows ensures CoveredRow(Without(ps, p), w, rows[i]) ==> CoveredRow(ps, w, rows[i]) {
      CoveredSubset(Without(ps, p), ps, w, rows[i].host.text);
      CoveredSubset(Without(ps, p), ps, w, rows[i].peer.text);
    }
    hide CoveredRow;
  }
}
