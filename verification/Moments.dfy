/** The alert pipeline as a step function: what each operation of the engine (internal/rules/rules.go), of the
    API and of the maintenance jobs does to the trusted list, the alerts table, the notification queue and the
    record of deliveries. */
module Moments {
  import opened Alerts
  import opened Exclusions
  import opened Findings
  import opened Notify
  import opened Options
  import opened Selection
  import opened Trust

  /** What stays the same: the world, the renotify interval and the dispatcher's settings. */
  datatype Setup = Setup(world: World, gap: int, min: nat, channels: nat, digest: int, quiet: Quiet)

  datatype Moment = Moment(patterns: seq<Pattern>, rows: Rows, nextId: nat, clock: int, raised: seq<Finding>, queue: Queue,
                           sent: map<nat, seq<int>>)

  /** Clock readings during one operation: how far the clock moves before the upserts and then before the
      delivery, the local hours read on the way, and which channels accept. */
  datatype Ticks = Ticks(toNow: nat, toDelivery: nat, hour: int, flushHour: int, accepts: seq<bool>)

  /** Everything that happens to the pipeline. */
  datatype Event = RuleRun(rule: string, severity: string, title: string, exempt: set<string>, found: seq<Finding>)
                 | IdsEvent(f: Finding, skip: bool, exemptIds: set<string>)
                 | Timer
                 | AddPattern(input: Input)
                 | DropPattern(p: Pattern)
                 | Operator(op: Op)

  /** What the API and the maintenance jobs may ask of the table. */
  predicate ByOperator(op: Op) {
    !op.Upsert? && !op.Notified? && !op.ResolveThese?
  }

  // ---- findings in ----

  /** The finding as evaluate completes it. */
  function Completed(rule: string, severity: string, ruleTitle: string, f: Finding): Finding {
    f.(rule := rule,
       severity := if f.severity == "" then severity else f.severity,
       title := if f.title == "" then DefaultTitle(ruleTitle, f) else f.title)
  }

  function DefaultTitle(ruleTitle: string, f: Finding): string {
    var who := if f.host == "" then f.peer else if f.peer != "" then f.host + " \U{2192} " + f.peer else f.host;
    ruleTitle + ": " + who + if f.port > 0 then ":" + Itoa(f.port) else ""
  }

  function Evaluated(rule: string, severity: string, ruleTitle: string, exempt: set<string>, found: seq<Finding>): seq<Finding> {
    if found == [] then []
    else
      var rest := Evaluated(rule, severity, ruleTitle, exempt, found[..|found| - 1]);
      var f := found[|found| - 1];
      if f.host in exempt || f.peer in exempt then rest else rest + [Completed(rule, severity, ruleTitle, f)]
  }

  /** Neither end is exempt. */
  ghost function NotExempt(exempt: set<string>): Finding -> bool {
    (f: Finding) => f.host !in exempt && f.peer !in exempt
  }

  /** A completed finding has the rule's name, severity and title of its own or the rule's, and is otherwise what
      the query found. */
  ghost predicate CompletedFrom(g: Finding, f: Finding, rule: string, severity: string, ruleTitle: string) {
    && g.rule == rule && g.host == f.host && g.peer == f.peer && g.port == f.port && g.details == f.details && g.key == f.key
    && g.severity == (if f.severity != "" then f.severity else severity)
    && (f.title != "" ==> g.title == f.title)
    && (f.title == "" ==>
          g.title == ruleTitle + ": "
                     + (if f.host != "" && f.peer != "" then f.host + " \U{2192} " + f.peer else f.host + f.peer)
                     + (if f.port > 0 then ":" + Itoa(f.port) else ""))
  }

  ghost predicate AllCompleted(gs: seq<Finding>, fs: seq<Finding>, rule: string, severity: string, ruleTitle: string) {
    |gs| == |fs| && forall i | 0 <= i < |gs| :: CompletedFrom(gs[i], fs[i], rule, severity, ruleTitle)
  }

  lemma CompletedIs(f: Finding, rule: string, severity: string, ruleTitle: string)
    ensures CompletedFrom(Completed(rule, severity, ruleTitle, f), f, rule, severity, ruleTitle)
  {
    if f.host == "" || f.peer == "" {
      assert f.host + f.peer == if f.host == "" then f.peer else f.host;
    }
    assert DefaultTitle(ruleTitle, f)
        == ruleTitle + ": " + (if f.host != "" && f.peer != "" then f.host + " \U{2192} " + f.peer else f.host + f.peer)
           + (if f.port > 0 then ":" + Itoa(f.port) else "");
  }

  /** Evaluating a rule completes what its query found on hosts that are not exempt: all of it, in order. */
  lemma {:induction false} EvaluatedFrom(rule: string, severity: string, ruleTitle: string, exempt: set<string>, found: seq<Finding>)
    returns (counted: seq<Finding>)
    ensures KeptOf(counted, found, NotExempt(exempt))
    ensures AllCompleted(Evaluated(rule, severity, ruleTitle, exempt, found), counted, rule, severity, ruleTitle)
  {
    hide KeptOf, CompletedFrom, Completed;
    if found == [] {
      counted := [];
      KeptNone(NotExempt(exempt));
    } else {
      var n := |found| - 1;
      counted := EvaluatedFrom(rule, severity, ruleTitle, exempt, found[..n]);
      KeptMore(counted, found[..n], found[n], NotExempt(exempt));
      CompletedIs(found[n], rule, severity, ruleTitle);
      assert found == found[..n] + [found[n]];
      counted := if NotExempt(exempt)(found[n]) then counted + [found[n]] else counted;
    }
  }

  /** The findings an event lets through to the table, unless looking up names fails. */
  ghost function Kept(ps: seq<Pattern>, w: World, event: Event): Option<seq<Finding>>
    requires AllValid(ps)
  {
    match event
    case RuleRun(rule, severity, title, exempt, found) => Admitted(ps, w, Evaluated(rule, severity, title, exempt, found))
    case IdsEvent(f, skip, exempt) =>
      if skip || f.host in exempt || f.peer in exempt then Some([]) else Admitted(ps, w, [f.(rule := "ids")])
    case _ => Some([])
  }

  /** What a rule run lets through: of the findings on hosts that are not exempt, completed, those the trusted list
      does not cover, all of them and in order. */
  lemma RunLetsThrough(ps: seq<Pattern>, w: World, event: Event) returns (counted: seq<Finding>, complete: seq<Finding>)
    requires AllValid(ps) && event.RuleRun?
    ensures KeptOf(counted, event.found, NotExempt(event.exempt))
    ensures AllCompleted(complete, counted, event.rule, event.severity, event.title)
    ensures Kept(ps, w, event).Some? ==> KeptOf(Kept(ps, w, event).value, complete, Passes(ps, w))
  {
    counted := EvaluatedFrom(event.rule, event.severity, event.title, event.exempt, event.found);
    complete := Evaluated(event.rule, event.severity, event.title, event.exempt, event.found);
    AdmittedIs(ps, w, complete);
    hide KeptOf, Evaluated, AllCompleted, Passes, Admitted;
  }

  /** An IDS finding is let through, under the rule's name, unless it is switched off, exempt or covered. */
  lemma IdsLetsThrough(ps: seq<Pattern>, w: World, event: Event)
    requires AllValid(ps) && event.IdsEvent? && Kept(ps, w, event).Some?
    ensures Kept(ps, w, event).value
            == if event.skip || event.f.host in event.exemptIds || event.f.peer in event.exemptIds || CoveredFinding(ps, w, event.f) then []
               else [event.f.(rule := "ids")]
  {
    hide CoveredText;
    var g := event.f.(rule := "ids");
    assert [g][..0] == [];
    assert Uncovered(ps, w, [g][..0]) == [];
    assert Uncovered(ps, w, [g]) == if CoveredFinding(ps, w, event.f) then [] else [g];
  }

  /** When RunRule and RaiseIDS hand an alert on. */
  predicate Raises(a: Alert, inserted: bool, now: int, gap: int) {
    inserted || a.notifiedAt == None || now - a.notifiedAt.value > gap
  }

  /** Folding findings one by one up to the first store error: the table, the rows they went into, and the
      alerts to hand on, each with the severity its row had then. */
  datatype Fold = Fold(rows: Rows, nextId: nat, ids: seq<nat>, notes: seq<Note>, ok: bool)

  ghost function FoldOne(inet: Inets, r: Fold, f: Finding, now: int, gap: int): Fold {
    if !r.ok || Fails(inet, r.rows, f) then r.(ok := false)
    else
      var id, rows := HomeOf(r.rows, r.nextId, f), UpsertIn(inet, r.rows, r.nextId, f, now);
      Fold(rows, r.nextId + (if Opens(r.rows, f) then 1 else 0), r.ids + [id],
           r.notes + (if Raises(rows[id], Opens(r.rows, f), now, gap) then [Note(id, rows[id].severity)] else []), true)
  }

  ghost function FoldAll(inet: Inets, rows: Rows, nextId: nat, fs: seq<Finding>, now: int, gap: int): (r: Fold)
    ensures |r.ids| <= |fs| && (r.ok <==> |r.ids| == |fs|)
  {
    if fs == [] then Fold(rows, nextId, [], [], true)
    else FoldOne(inet, FoldAll(inet, rows, nextId, fs[..|fs| - 1], now, gap), fs[|fs| - 1], now, gap)
  }

  /** Findings that passed every filter are folded. */
  ghost function StoreFold(c: Setup, s: Moment, kept: seq<Finding>): Fold {
    FoldAll(c.world.inet, s.rows, s.nextId, kept, s.clock, c.gap)
  }

  ghost function StoredAll(c: Setup, s: Moment, kept: seq<Finding>): Moment {
    var r := StoreFold(c, s, kept);
    s.(rows := r.rows, nextId := r.nextId, raised := s.raised + kept[..|r.ids|])
  }

  // ---- deliveries ----

  function SentAfter(sent: map<nat, seq<int>>, ids: set<nat>, t: int): (r: map<nat, seq<int>>)
    ensures r.Keys == sent.Keys + ids
    ensures forall i <- ids :: i in sent ==> r[i] == sent[i] + [t]
    ensures forall i <- ids :: i !in sent ==> r[i] == [t]
    ensures forall i <- sent :: i !in ids ==> r[i] == sent[i]
  {
    map i | i in sent.Keys + ids :: (if i in sent then sent[i] else []) + if i in ids then [t] else []
  }

  /** A batch some channel took is recorded for exactly its rows. */
  function Recorded(s: Moment, batch: seq<Note>, accepts: seq<bool>): Moment {
    if batch != [] && true in accepts
    then s.(rows := NotifyIn(s.rows, Ids(batch), s.clock), sent := SentAfter(s.sent, Ids(batch), s.clock))
    else s
  }

  /** What notifying about these alerts does to the queue, and the batch it takes. */
  function Announcement(c: Setup, s: Moment, notes: seq<Note>, t: Ticks): (Queue, seq<Note>) {
    AfterNotify(s.queue, notes, c.min, c.channels, c.digest, c.quiet, t.hour, t.flushHour)
  }

  function Announced(c: Setup, s: Moment, notes: seq<Note>, t: Ticks): Moment {
    var (queue, batch) := Announcement(c, s, notes, t);
    Recorded(s.(queue := queue, clock := s.clock + t.toDelivery), batch, t.accepts)
  }

  /** Folded, then announced unless a store error stopped the run or there is nothing to announce. */
  ghost function Processed(c: Setup, s: Moment, kept: seq<Finding>, t: Ticks): Moment {
    var now := s.(clock := s.clock + t.toNow);
    var r, after := StoreFold(c, now, kept), StoredAll(c, now, kept);
    if r.ok && r.notes != [] then Announced(c, after, r.notes, t) else after
  }

  /** A run that meets no store error hands on every alert it raised: those of at least the minimum severity join
      the queue in the order raised. One that does hands on none. */
  lemma RaisedAreQueued(c: Setup, s: Moment, kept: seq<Finding>, t: Ticks) returns (keep: seq<Note>)
    requires c.channels > 0
    ensures var r := StoreFold(c, s.(clock := s.clock + t.toNow), kept);
            && KeptOf(keep, if r.ok then r.notes else [], AtLeast(c.min))
            && Processed(c, s, kept, t).queue.passed == s.queue.passed + keep
  {
    hide KeptOf, FoldAll, AfterNotify, AtLeast, NotifyIn, SentAfter;
    var r := StoreFold(c, s.(clock := s.clock + t.toNow), kept);
    if r.ok && r.notes != [] {
      keep := NotifyQueues(s.queue, r.notes, c.min, c.channels, c.digest, c.quiet, t.hour, t.flushHour);
    } else {
      keep := [];
      KeptNone(AtLeast(c.min));
    }
  }

  /** The dispatcher's own timer. */
  function Ticked(c: Setup, s: Moment, t: Ticks): Moment {
    var (queue, batch) := AfterFlush(s.queue, c.quiet, t.flushHour);
    Recorded(s.(queue := queue, clock := s.clock + t.toNow), batch, t.accepts)
  }

  // ---- the list and the operator ----

  /** addExclusion: the normalised pattern joins the list, and what it covers is resolved. */
  ghost function Added(c: Setup, s: Moment, input: Input, t: Ticks): Moment {
    var p := NormalizeExclusion(input);
    NormalizedIsUnmapped(input);
    if p == None then s
    else
      var now := s.clock + t.toNow;
      s.(patterns := With(s.patterns, p.value), clock := now, rows := ResolveIn(s.rows, CoveredLive([p.value], c.world, s.rows), now))
  }

  ghost function Operated(c: Setup, s: Moment, op: Op, t: Ticks): Moment {
    var now := s.clock + t.toNow;
    s.(clock := now, rows := if ByOperator(op) then RowsAfter(c.world.inet, s.rows, s.nextId, op, now) else s.rows)
  }

  /** One operation of the pipeline. */
  ghost function After(c: Setup, s: Moment, event: Event, t: Ticks): (s': Moment)
    requires AllValid(s.patterns)
    ensures AllValid(s'.patterns)
  {
    match event
    case AddPattern(input) => Added(c, s, input, t)
    case DropPattern(p) =>
      WithoutValid(s.patterns, p);
      s.(patterns := Without(s.patterns, p))
    case Operator(op) => Operated(c, s, op, t)
    case Timer => Ticked(c, s, t)
    case _ =>
      var kept := Kept(s.patterns, c.world, event);
      if kept == None then s else Processed(c, s, kept.value, t)
  }

  /** A history of operations, one after another. */
  ghost function AfterAll(c: Setup, s: Moment, events: seq<(Event, Ticks)>): (s': Moment)
    requires AllValid(s.patterns)
    ensures AllValid(s'.patterns)
  {
    if events == [] then s
    else After(c, AfterAll(c, s, events[..|events| - 1]), events[|events| - 1].0, events[|events| - 1].1)
  }
}
