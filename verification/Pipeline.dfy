/** The alert pipeline: rule and IDS findings are filtered by exemptions and the trusted list, folded into
    the alerts table and handed to the notifier (internal/rules/rules.go, internal/rules/exclusions.go),
    while the API changes alert states and the trusted list (internal/api/api.go, internal/db). Every method
    leaves the state its step function names. */
module Pipeline {
  import opened Alerts
  import opened Exclusions
  import opened Findings
  import opened Moments
  import opened Notify
  import opened Options
  import opened Selection
  import opened Trust

  /** What a run stored, and which alerts it raises. `ids` are the rows its findings went into. */
  datatype Raised = Raised(notes: seq<Note>, ids: seq<nat>, ok: bool)

  /** What RunRule and RaiseIDS return: an error of the name lookup stores nothing. */
  ghost function RaisedBy(c: Setup, s: Moment, event: Event, t: Ticks): Raised
    requires AllValid(s.patterns)
  {
    var kept := Kept(s.patterns, c.world, event);
    if kept == None then Raised([], [], false)
    else
      var r := StoreFold(c, s.(clock := s.clock + t.toNow), kept.value);
      Raised(r.notes, r.ids, r.ok)
  }

  class Engine {
    const store: AlertStore
    const dispatcher: Dispatcher
    const world: World
    const renotifyAfter: int
    var patterns: seq<Pattern>
    var clock: int
    ghost var sent: map<nat, seq<int>>

    ghost predicate Valid()
      reads this, store, dispatcher
    {
      store.Valid() && dispatcher.Valid() && AllValid(patterns) && world.Valid() && world.inet == store.inet
    }

    ghost function Config(): Setup
      reads dispatcher
    {
      Setup(world, renotifyAfter, dispatcher.MinRank(), dispatcher.channels, dispatcher.digest, dispatcher.quiet)
    }

    ghost function Now(): Moment
      reads this, store, dispatcher
    {
      Moment(patterns, store.rows, store.nextId, clock, store.ledger.raised, dispatcher.State(), sent)
    }

    constructor (store: AlertStore, dispatcher: Dispatcher, world: World, renotifyAfter: int)
      requires store.Valid() && dispatcher.Valid() && world.Valid() && world.inet == store.inet
      ensures Valid() && patterns == [] && clock == 0 && sent == map[]
      ensures this.store == store && this.dispatcher == dispatcher && this.world == world && this.renotifyAfter == renotifyAfter
    {
      this.store, this.dispatcher, this.world, this.renotifyAfter := store, dispatcher, world, renotifyAfter;
      patterns, clock, sent := [], 0, map[];
    }

    // ---- findings in ----

    /** applyExclusions: collects the addresses, looks their names up if any name pattern exists, and
        drops every finding whose host or peer is covered. */
    method ApplyExclusions(findings: seq<Finding>) returns (out: Option<seq<Finding>>)
      requires AllValid(patterns) && world.Valid()
      ensures out == Admitted(patterns, world, findings)
      ensures out.Some? ==> KeptOf(out.value, findings, Passes(patterns, world))
      ensures out == None ==> exists f <- findings :: (f.host != "" && f.host !in world.inet) || (f.peer != "" && f.peer !in world.inet)
    {
      hide KeptOf, Passes;
      AdmittedIs(patterns, world, findings);
      if findings == [] {
        return Some(findings);
      }
      var set_ := new ExclusionSet(patterns);
      var empty := set_.IsEmpty();
      if empty {
        NothingUncovered(patterns, world, findings);
        return Some(findings);
      }
      var answers: map<string, seq<string>> := map[];
      GlobsOfList(set_);
      if set_.names != [] {
        var found := NamesOfFindings(findings);
        if found == None {
          return None;
        }
        answers := found.value;
      }
      var kept := KeepUncovered(set_, findings, answers);
      return Some(kept);
    }

    /** The loop that skips covered findings. */
    method KeepUncovered(s: ExclusionSet, findings: seq<Finding>, answers: map<string, seq<string>>) returns (kept: seq<Finding>)
      requires s.Valid() && AllValid(s.list)
      requires s.names != [] ==> forall f <- findings :: Answers(answers, f.host) && Answers(answers, f.peer)
      ensures kept == Uncovered(s.list, world, findings)
      ensures KeptOf(kept, findings, Passes(s.list, world))
    {
      hide KeptOf, Passes, CoveredFinding, Answers;
      UncoveredAreKept(s.list, world, findings);
      kept := [];
      for i := 0 to |findings|
        invariant kept == Uncovered(s.list, world, findings[..i])
      {
        assert findings[..i + 1][..i] == findings[..i];
        var covered := FindingCovered(s, findings[i], answers);
        if !covered {
          kept := kept + [findings[i]];
        }
      }
      assert findings[..|findings|] == findings;
    }

    lemma GlobsOfList(s: ExclusionSet)
      requires s.Valid()
      ensures s.names != [] <==> HasNames(s.list)
    {
      s.GlobsCompiled();
      if s.names != [] {
        assert s.names[0] in s.names && Name(s.names[0]) in s.list;
      }
    }

    /** The names behind all addresses of the findings, or an error when one of their texts is no address. */
    method NamesOfFindings(findings: seq<Finding>) returns (r: Option<map<string, seq<string>>>)
      requires world.Valid()
      ensures r == None <==> exists f <- findings :: !Readable(world, f)
      ensures r.Some? ==> forall f <- findings :: Answers(r.value, f.host) && Answers(r.value, f.peer)
    {
      var known := AddressesOf(findings);
      r := NamesForIPs(known);
      forall f | f in findings ensures (f.host == "" || f.host in known) && (f.peer == "" || f.peer in known) {
        var j :| 0 <= j < |findings| && findings[j] == f;
      }
      if r == None {
        ghost var t :| t in known && t !in world.inet;
        ghost var j :| 0 <= j < |findings| && (t == findings[j].host || t == findings[j].peer);
        assert findings[j] in findings && !Readable(world, findings[j]);
      } else {
        AnswersServe(findings, known, r.value);
      }
    }

    method AddressesOf(findings: seq<Finding>) returns (known: set<string>)
      ensures forall t :: t in known <==> t != "" && exists j | 0 <= j < |findings| :: t == findings[j].host || t == findings[j].peer
    {
      known := {};
      for i := 0 to |findings|
        invariant forall t :: t in known <==> t != "" && exists j | 0 <= j < i :: t == findings[j].host || t == findings[j].peer
      {
        if findings[i].host != "" {
          known := known + {findings[i].host};
        }
        if findings[i].peer != "" {
          known := known + {findings[i].peer};
        }
      }
    }

    /** NamesForIPs: the names of each address, by the text the database prints; an error when one text is no
        address. */
    method NamesForIPs(ips: set<string>) returns (r: Option<map<string, seq<string>>>)
      ensures r == None <==> exists t <- ips :: t !in world.inet
      ensures r.Some? ==> forall n :: n in r.value <==> n in world.names && exists t <- ips :: world.Shown(t) == n
      ensures r.Some? ==> forall n <- r.value :: r.value[n] == world.names[n]
    {
      if t :| t in ips && t !in world.inet {
        return None;
      }
      return Some(map n | n in (set t <- ips :: world.Shown(t)) && n in world.names :: world.names[n]);
    }

    /** The answers say of a text's names what there is to say. */
    ghost predicate Answers(answers: map<string, seq<string>>, t: string) {
      (if t in answers then answers[t] else []) == world.NamesOf(t)
    }

    /** Names are looked up by the finding's own text, and found if the database prints it like that. */
    lemma AnswersServe(findings: seq<Finding>, known: set<string>, answers: map<string, seq<string>>)
      requires world.Valid()
      requires forall t :: t in known <==> t != "" && exists j | 0 <= j < |findings| :: t == findings[j].host || t == findings[j].peer
      requires forall n :: n in answers <==> n in world.names && exists t <- known :: world.Shown(t) == n
      requires forall n <- answers :: answers[n] == world.names[n]
      ensures forall f <- findings :: Answers(answers, f.host) && Answers(answers, f.peer)
    {
      forall f | f in findings ensures Answers(answers, f.host) && Answers(answers, f.peer) {
        var j :| 0 <= j < |findings| && findings[j] == f;
        assert f.host != "" ==> f.host in known;
        assert f.peer != "" ==> f.peer in known;
      }
    }

    method FindingCovered(s: ExclusionSet, f: Finding, answers: map<string, seq<string>>) returns (covered: bool)
      requires s.Valid() && AllValid(s.list) && (s.names != [] ==> Answers(answers, f.host) && Answers(answers, f.peer))
      ensures covered <==> CoveredFinding(s.list, world, f)
    {
      NamesOnlyMatterWithPatterns(s, f.host, answers);
      NamesOnlyMatterWithPatterns(s, f.peer, answers);
      var byHost := s.Match(world.AddrOf(f.host), if f.host in answers then answers[f.host] else []);
      if byHost.Some? {
        return true;
      }
      var byPeer := s.Match(world.AddrOf(f.peer), if f.peer in answers then answers[f.peer] else []);
      return byPeer.Some?;
    }

    lemma NamesOnlyMatterWithPatterns(s: ExclusionSet, t: string, answers: map<string, seq<string>>)
      requires s.Valid() && AllValid(s.list) && (s.names != [] ==> Answers(answers, t))
      ensures Covered(s.list, world.AddrOf(t), if t in answers then answers[t] else []) <==> CoveredText(s.list, world, t)
    {
      s.GlobsCompiled();
    }

    method Evaluate(rule: string, severity: string, ruleTitle: string, exempt: set<string>, found: seq<Finding>)
      returns (kept: Option<seq<Finding>>)
      requires AllValid(patterns) && world.Valid()
      ensures kept == Admitted(patterns, world, Evaluated(rule, severity, ruleTitle, exempt, found))
    {
      var complete: seq<Finding> := [];
      for i := 0 to |found|
        invariant complete == Evaluated(rule, severity, ruleTitle, exempt, found[..i])
      {
        assert found[..i + 1][..i] == found[..i];
        if found[i].host in exempt || found[i].peer in exempt {
          continue;
        }
        complete := complete + [Completed(rule, severity, ruleTitle, found[i])];
      }
      assert found[..|found|] == found;
      kept := ApplyExclusions(complete);
    }

    /** One finding is folded; its row is raised when new, never sent, or sent long enough ago, with the
        severity it has now. */
    method StoreAndCollect(f: Finding, r: Raised, ghost fold: Fold) returns (r': Raised)
      requires Valid() && r.ok && fold == Fold(store.rows, store.nextId, r.ids, r.notes, true)
      modifies store
      ensures Valid()
      ensures FoldOne(world.inet, fold, f, clock, renotifyAfter) == Fold(store.rows, store.nextId, r'.ids, r'.notes, r'.ok)
      ensures store.ledger.raised == old(store.ledger).raised + if r'.ok then [f] else []
      ensures |r'.ids| == |r.ids| + if r'.ok then 1 else 0
      ensures r'.ok <==> !Fails(world.inet, old(store.rows), f)
      ensures if r'.ok
              then && r'.ids[..|r.ids|] == r.ids && |r'.ids| == |r.ids| + 1
                   && var id := r'.ids[|r.ids|];
                      && id in store.rows && store.rows.Keys == old(store.rows).Keys + {id} && store.rows[id].lastSeen == clock
                      && store.rows[id].dedupeKey == DedupeKey(f)
                      && r'.notes == r.notes + if id !in old(store.rows) || store.rows[id].notifiedAt == None
                                                  || clock - store.rows[id].notifiedAt.value > renotifyAfter
                                               then [Note(id, store.rows[id].severity)] else []
              else r' == r.(ok := false) && store.rows == old(store.rows)
    {
      hide Inv, Accepted, LiveOf, Overflows;
      var upserted := store.UpsertAlert(f, clock);
      match upserted
      case Refused => return r.(ok := false);
      case CountOverflow => return r.(ok := false);
      case Stored(id, inserted) =>
        r' := r.(ids := r.ids + [id]);
        if Raises(store.rows[id], inserted, clock, renotifyAfter) {
          r' := r'.(notes := r.notes + [Note(id, store.rows[id].severity)]);
        }
    }

    /** The loop of RunRule. */
    method StoreAll(findings: seq<Finding>) returns (r: Raised)
      requires Valid()
      modifies store
      ensures Valid()
      ensures Now() == StoredAll(Config(), old(Now()), findings)
      ensures var fold := StoreFold(Config(), old(Now()), findings); r == Raised(fold.notes, fold.ids, fold.ok)
    {
      hide Inv, FoldOne, Accepted;
      r := Raised([], [], true);
      ghost var rows, next := store.rows, store.nextId;
      for i := 0 to |findings|
        invariant Valid() && r.ok && |r.ids| == i
        invariant FoldAll(world.inet, rows, next, findings[..i], clock, renotifyAfter) == Fold(store.rows, store.nextId, r.ids, r.notes, true)
        invariant store.ledger.raised == old(store.ledger).raised + findings[..i]
      {
        assert findings[..i + 1][..i] == findings[..i] && findings[..i + 1] == findings[..i] + [findings[i]];
        ghost var fold := FoldAll(world.inet, rows, next, findings[..i], clock, renotifyAfter);
        r := StoreAndCollect(findings[i], r, fold);
        if !r.ok {
          FoldStopped(world.inet, rows, next, findings, i + 1, clock, renotifyAfter);
          FailedFold(world.inet, fold, findings[i], clock, renotifyAfter);
          return;
        }
      }
      assert findings[..|findings|] == findings;
    }

    /** Hands raised alerts to the dispatcher and records a successful delivery. */
    method Announce(notes: seq<Note>, t: Ticks)
      requires Valid() && |t.accepts| == dispatcher.channels
      modifies this`clock, this`sent, store`rows, dispatcher
      ensures Valid() && Config() == old(Config())
      ensures Now() == Announced(Config(), old(Now()), notes, t)
      ensures clock == old(clock) + t.toDelivery
    {
      hide Inv, AfterNotify, NotifyIn, SentAfter;
      var batch, ok := dispatcher.Notify(notes, t.hour, t.flushHour, t.accepts);
      clock := clock + t.toDelivery;
      Record(batch, ok);
    }

    method Record(batch: seq<Note>, ok: bool)
      requires Valid()
      modifies this`sent, store`rows
      ensures Valid()
      ensures store.rows == if ok then NotifyIn(old(store.rows), Ids(batch), clock) else old(store.rows)
      ensures sent == if ok then SentAfter(old(sent), Ids(batch), clock) else old(sent)
    {
      if ok {
        store.MarkNotified(Ids(batch), clock);
        sent := SentAfter(sent, Ids(batch), clock);
      }
    }

    /** Findings that passed every filter: folded, then announced unless a store error stopped the run. */
    method Process(kept: seq<Finding>, t: Ticks) returns (r: Raised)
      requires Valid() && |t.accepts| == dispatcher.channels
      modifies this`clock, this`sent, store, dispatcher
      ensures Valid() && Config() == old(Config())
      ensures Now() == Processed(Config(), old(Now()), kept, t)
      ensures var fold := StoreFold(Config(), old(Now()).(clock := old(clock) + t.toNow), kept); r == Raised(fold.notes, fold.ids, fold.ok)
      ensures clock == old(clock) + t.toNow + if r.ok && r.notes != [] then t.toDelivery else 0
    {
      hide Inv, FoldAll, AfterNotify, Announced;
      clock := clock + t.toNow;
      r := StoreAll(kept);
      if r.ok && r.notes != [] {
        Announce(r.notes, t);
      }
    }

    /** RunRule: evaluate (exemptions, defaults, trusted list), then fold and announce. */
    method RunRule(rule: string, severity: string, ruleTitle: string, exempt: set<string>, found: seq<Finding>, t: Ticks)
      returns (r: Raised)
      requires Valid() && |t.accepts| == dispatcher.channels
      modifies this`clock, this`sent, store, dispatcher
      ensures Valid() && Config() == old(Config())
      ensures Now() == After(Config(), old(Now()), RuleRun(rule, severity, ruleTitle, exempt, found), t)
      ensures r == RaisedBy(Config(), old(Now()), RuleRun(rule, severity, ruleTitle, exempt, found), t)
    {
      hide Inv, Processed, StoreFold, Admitted, Evaluated;
      var kept := Evaluate(rule, severity, ruleTitle, exempt, found);
      if kept == None {
        return Raised([], [], false);
      }
      r := Process(kept.value, t);
    }

    /** RaiseIDS: one finding, through the same filters. `skip` is the enabled and severity gate. */
    method RaiseIDS(f: Finding, skip: bool, exempt: set<string>, t: Ticks) returns (r: Raised)
      requires Valid() && |t.accepts| == dispatcher.channels
      modifies this`clock, this`sent, store, dispatcher
      ensures Valid() && Config() == old(Config())
      ensures Now() == After(Config(), old(Now()), IdsEvent(f, skip, exempt), t)
      ensures r == RaisedBy(Config(), old(Now()), IdsEvent(f, skip, exempt), t)
    {
      hide Inv, Processed, StoreFold, Admitted;
      var kept: Option<seq<Finding>> := Some([]);
      if !(skip || f.host in exempt || f.peer in exempt) {
        kept := ApplyExclusions([f.(rule := "ids")]);
        if kept == None {
          return Raised([], [], false);
        }
      }
      r := Process(kept.value, t);
    }

    /** The dispatcher's own timer. */
    method FlushTick(t: Ticks)
      requires Valid() && |t.accepts| == dispatcher.channels
      modifies this`clock, this`sent, store`rows, dispatcher
      ensures Valid() && Config() == old(Config())
      ensures Now() == After(Config(), old(Now()), Event.Timer, t)
      ensures clock == old(clock) + t.toNow && dispatcher.pending == if InQuietHours(dispatcher.quiet, t.flushHour) then old(dispatcher.pending) else []
    {
      hide Inv, AfterFlush, NotifyIn, SentAfter;
      clock := clock + t.toNow;
      var batch, ok := dispatcher.Flush(t.flushHour, t.accepts);
      Record(batch, ok);
    }

    // ---- the trusted list ----

    /** The ids a pattern covers among the live alerts. */
    method SelectCovered(p: Pattern) returns (ids: set<nat>)
      requires p.Valid()
      ensures ids == CoveredLive([p], world, store.rows)
    {
      var set_ := new ExclusionSet([p]);
      var empty := set_.IsEmpty();
      if empty {
        UnusableCoversNothing(p);
        return {};
      }
      ids := {};
      var left := store.rows.Keys;
      while left != {}
        invariant set_.Valid() && set_.list == [p]
        invariant left <= store.rows.Keys && ids <= store.rows.Keys - left
        invariant forall i <- store.rows.Keys - left :: i in ids <==> i in CoveredLive([p], world, store.rows)
        decreases |left|
      {
        var i :| i in left;
        var a := store.rows[i];
        if Live(a) {
          var byHost := set_.Match(world.AddrOf(a.host.text), world.NamesOf(a.host.text));
          var byPeer := set_.Match(world.AddrOf(a.peer.text), world.NamesOf(a.peer.text));
          if byHost.Some? || byPeer.Some? {
            ids := ids + {i};
          }
        }
        left := left - {i};
      }
      assert ids == CoveredLive([p], world, store.rows);
    }

    lemma UnusableCoversNothing(p: Pattern)
      requires p == Unusable
      ensures forall t: string :: !CoveredText([p], world, t)
    {
    }

    /** ResolveExcludedAlerts for one pattern: exactly the live alerts it covers are resolved. */
    method ResolveExcluded(p: Pattern) returns (n: nat)
      requires Valid() && p.Valid()
      modifies store`rows
      ensures Valid()
      ensures store.rows == ResolveIn(old(store.rows), CoveredLive([p], world, old(store.rows)), clock)
      ensures n == |CoveredLive([p], world, old(store.rows))|
    {
      var ids := SelectCovered(p);
      n := |ids|;
      store.ResolveSet(ids, clock);
    }

    /** addExclusion: stores the normalised pattern and resolves what it covers. */
    method AddExclusion(input: Input, t: Ticks) returns (p: Option<Pattern>)
      requires Valid()
      modifies this`patterns, this`clock, store`rows
      ensures Valid() && p == NormalizeExclusion(input)
      ensures Now() == After(Config(), old(Now()), AddPattern(input), t)
      ensures p == None ==> Now() == old(Now())
      ensures p.Some? ==> clock == old(clock) + t.toNow && patterns == old(patterns) + if p.value in old(patterns) then [] else [p.value]
    {
      hide Inv, ResolveIn, CoveredLive;
      NormalizedIsUnmapped(input);
      p := NormalizeExclusion(input);
      if p == None {
        return;
      }
      clock := clock + t.toNow;
      WithValid(patterns, p.value);
      if p.value !in patterns {
        patterns := patterns + [p.value];
      }
      var _ := ResolveExcluded(p.value);
    }

    /** DeleteExclusion. */
    method DeleteExclusion(p: Pattern, t: Ticks)
      requires Valid()
      modifies this`patterns
      ensures Valid() && Now() == After(Config(), old(Now()), DropPattern(p), t)
      ensures KeptOf(patterns, old(patterns), (q: Pattern) => q != p)
    {
      hide KeptOf;
      WithoutKeeps(patterns, p);
      WithoutValid(patterns, p);
      patterns := Without(patterns, p);
    }

    // ---- the operator ----

    /** A request of the API or a maintenance job: one statement on the table. */
    method Operate(op: Op, t: Ticks)
      requires Valid()
      modifies this`clock, store
      ensures Valid() && Now() == After(Config(), old(Now()), Operator(op), t)
      ensures clock == old(clock) + t.toNow
      ensures !op.Upsert? && !op.Notified? && !op.ResolveThese? ==>
                store.rows == RowsAfter(world.inet, old(store.rows), old(store.nextId), op, clock)
    {
      hide Inv, RowsAfter;
      clock := clock + t.toNow;
      if ByOperator(op) {
        Perform(store, op, clock);
      }
    }
  }

  /** Once a fold has stopped, the findings behind are not stored. */
  lemma {:induction false} FoldStopped(inet: Inets, rows: Rows, nextId: nat, fs: seq<Finding>, n: nat, now: int, gap: int)
    requires n <= |fs| && !FoldAll(inet, rows, nextId, fs[..n], now, gap).ok
    ensures FoldAll(inet, rows, nextId, fs, now, gap) == FoldAll(inet, rows, nextId, fs[..n], now, gap)
    decreases |fs|
  {
    if n == |fs| {
      assert fs[..n] == fs;
    } else {
      assert fs[..|fs| - 1][..n] == fs[..n];
      FoldStopped(inet, rows, nextId, fs[..|fs| - 1], n, now, gap);
    }
  }

  lemma FailedFold(inet: Inets, r: Fold, f: Finding, now: int, gap: int)
    requires r.ok && !FoldOne(inet, r, f, now, gap).ok
    ensures FoldOne(inet, r, f, now, gap) == r.(ok := false)
  {
  }

  method Handle(e: Engine, event: Event, t: Ticks)
    requires e.Valid() && |t.accepts| == e.dispatcher.channels
    modifies e, e.store, e.dispatcher
    ensures e.Valid() && e.Config() == old(e.Config())
    ensures e.Now() == After(e.Config(), old(e.Now()), event, t)
  {
    hide Inv, After;
    match event
    case RuleRun(rule, severity, title, exempt, found) => var _ := e.RunRule(rule, severity, title, exempt, found, t);
    case IdsEvent(f, skip, exempt) => var _ := e.RaiseIDS(f, skip, exempt, t);
    case Timer => e.FlushTick(t);
    case AddPattern(input) => var _ := e.AddExclusion(input, t);
    case DropPattern(p) => e.DeleteExclusion(p, t);
    case Operator(op) => e.Operate(op, t);
  }

  /** Any sequence of operations, one after another, leads exactly where the step function leads. */
  method Run(e: Engine, events: seq<(Event, Ticks)>)
    requires e.Valid()
    requires forall i | 0 <= i < |events| :: |events[i].1.accepts| == e.dispatcher.channels
    modifies e, e.store, e.dispatcher
    ensures e.Valid() && e.Config() == old(e.Config())
    ensures e.Now() == AfterAll(e.Config(), old(e.Now()), events)
  {
    hide Inv, After;
    for n := 0 to |events|
      invariant e.Valid() && e.Config() == old(e.Config())
      invariant e.Now() == AfterAll(e.Config(), old(e.Now()), events[..n])
    {
      assert events[..n + 1][..n] == events[..n];
      Handle(e, events[n].0, events[n].1);
    }
    assert events[..|events|] == events;
  }
}
