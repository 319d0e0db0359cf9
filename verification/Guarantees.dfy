/** What the alert pipeline keeps over whole histories: which alerts come to be live on a trusted address, how
    far apart deliveries of one alert are, and which severity an alert shows. */
module Guarantees {
  import opened Alerts
  import opened Exclusions
  import opened Findings
  import opened Moments
  import opened Notify
  import opened Options
  import opened Pipeline
  import opened Trust

  ghost predicate IdsBelow(rows: Rows, nextId: nat) {
    forall i <- rows :: i < nextId
  }

  // ---- what folding findings does ----

  /** Whether a row that a finding was just folded into is raised, seen from the table before the run: it is
      new, was never sent, or was sent long enough ago. */
  predicate RaisedSince(before: Rows, id: nat, now: int, gap: int) {
    id !in before || before[id].notifiedAt == None || now - before[id].notifiedAt.value > gap
  }

  /** The rows raised by a run that folded its findings into `ids`, one by one. */
  function RaisedIds(before: Rows, ids: seq<nat>, now: int, gap: int): seq<nat> {
    if ids == [] then []
    else
      RaisedIds(before, ids[..|ids| - 1], now, gap)
      + if RaisedSince(before, ids[|ids| - 1], now, gap) then [ids[|ids| - 1]] else []
  }

  function NoteIds(notes: seq<Note>): (r: seq<nat>)
    ensures |r| == |notes|
  {
    seq(|notes|, i requires 0 <= i < |notes| => notes[i].id)
  }

  /** Between two tables no delivery was recorded: rows keep what they knew of theirs, new ones know of none. */
  ghost predicate SameDeliveries(before: Rows, rows: Rows) {
    && (forall i <- before :: i in rows && rows[i].notifiedAt == before[i].notifiedAt)
    && (forall i <- rows :: i !in before ==> rows[i].notifiedAt == None)
  }

  /** The stored findings sit in live rows of their keys. */
  ghost predicate FoldedInto(rows: Rows, findings: seq<Finding>, ids: seq<nat>) {
    && |ids| <= |findings|
    && forall i | 0 <= i < |ids| :: ids[i] in rows && Live(rows[ids[i]]) && rows[ids[i]].dedupeKey == DedupeKey(findings[i])
  }

  /** One upsert touches one live row, of the finding's key, and says nothing about deliveries. */
  lemma UpsertRow(inet: Inets, rows: Rows, nextId: nat, f: Finding, now: int)
    requires IdsBelow(rows, nextId)
    ensures var id, rows' := HomeOf(rows, nextId, f), UpsertIn(inet, rows, nextId, f, now);
            && rows'.Keys == rows.Keys + {id} && (Opens(rows, f) <==> id !in rows) && id <= nextId && (id == nextId <==> Opens(rows, f))
            && Live(rows'[id]) && rows'[id].dedupeKey == DedupeKey(f)
            && rows'[id].notifiedAt == (if id in rows then rows[id].notifiedAt else None)
            && forall i <- rows | i != id :: rows'[i] == rows[i]
  {
    hide DedupeKey, Escalated;
  }

  lemma OneFolded(inet: Inets, before: Rows, r: Fold, fs: seq<Finding>, f: Finding, now: int, gap: int)
    requires r.ok && |r.ids| == |fs| && IdsBelow(r.rows, r.nextId) && SameDeliveries(before, r.rows) && FoldedInto(r.rows, fs, r.ids)
    requires !Fails(inet, r.rows, f)
    ensures var r', id := FoldOne(inet, r, f, now, gap), HomeOf(r.rows, r.nextId, f);
            && IdsBelow(r'.rows, r'.nextId) && SameDeliveries(before, r'.rows) && FoldedInto(r'.rows, fs + [f], r'.ids)
            && r'.ok && r'.ids == r.ids + [id]
            && NoteIds(r'.notes) == NoteIds(r.notes) + if RaisedSince(before, id, now, gap) then [id] else []
  {
    UpsertRow(inet, r.rows, r.nextId, f, now);
    var id, rows' := HomeOf(r.rows, r.nextId, f), UpsertIn(inet, r.rows, r.nextId, f, now);
    NoteIdsMore(r.notes, Note(id, rows'[id].severity));
    hide DedupeKey, Fails, HomeOf, UpsertIn, Opens, NoteIds;
  }

  lemma NoteIdsMore(notes: seq<Note>, n: Note)
    ensures NoteIds(notes + [n]) == NoteIds(notes) + [n.id]
  {
  }

  /** A run folds its findings into live rows of their keys, and asking each row just written whether to raise
      it is asking the table before the run. */
  lemma {:induction false} RunFoldsAndRaises(inet: Inets, rows: Rows, nextId: nat, fs: seq<Finding>, now: int, gap: int)
    requires IdsBelow(rows, nextId)
    ensures var r := FoldAll(inet, rows, nextId, fs, now, gap);
            && IdsBelow(r.rows, r.nextId) && SameDeliveries(rows, r.rows) && FoldedInto(r.rows, fs, r.ids)
            && NoteIds(r.notes) == RaisedIds(rows, r.ids, now, gap)
  {
    hide IdsBelow, SameDeliveries, RaisedSince, Fails, NoteIds, FoldedInto;
    if fs == [] {
      NothingDelivered(rows, fs);
    } else {
      hide FoldOne;
      var front, f := fs[..|fs| - 1], fs[|fs| - 1];
      RunFoldsAndRaises(inet, rows, nextId, front, now, gap);
      var r := FoldAll(inet, rows, nextId, front, now, gap);
      assert front + [f] == fs;
      if r.ok && !Fails(inet, r.rows, f) {
        OneFolded(inet, rows, r, front, f, now, gap);
        RaisedIdsMore(rows, r.ids, HomeOf(r.rows, r.nextId, f), now, gap);
      } else {
        StoppedFold(inet, r, f, now, gap);
        FoldedFront(r.rows, fs, r.ids);
      }
    }
  }

  lemma RaisedIdsMore(before: Rows, ids: seq<nat>, id: nat, now: int, gap: int)
    ensures RaisedIds(before, ids + [id], now, gap) == RaisedIds(before, ids, now, gap) + if RaisedSince(before, id, now, gap) then [id] else []
  {
    assert (ids + [id])[..|ids|] == ids;
  }

  lemma NothingDelivered(rows: Rows, fs: seq<Finding>)
    ensures SameDeliveries(rows, rows) && FoldedInto(rows, fs, []) && NoteIds([]) == []
  {
  }

  lemma StoppedFold(inet: Inets, r: Fold, f: Finding, now: int, gap: int)
    requires !r.ok || Fails(inet, r.rows, f)
    ensures FoldOne(inet, r, f, now, gap) == r.(ok := false)
  {
  }

  lemma FoldedFront(rows: Rows, fs: seq<Finding>, ids: seq<nat>)
    requires fs != [] && FoldedInto(rows, fs[..|fs| - 1], ids)
    ensures FoldedInto(rows, fs, ids)
  {
    hide DedupeKey;
  }

  // ---- live alerts on trusted addresses ----

  ghost function Exposed(c: Setup, s: Moment): set<nat>
    requires AllValid(s.patterns)
  {
    CoveredLive(s.patterns, c.world, s.rows)
  }

  /** A finding lets its row in when it opens one and is covered as the table shows it. */
  ghost function LetInOne(ps: seq<Pattern>, w: World, r: Fold, f: Finding): set<nat>
    requires AllValid(ps)
  {
    if r.ok && !Fails(w.inet, r.rows, f) && Opens(r.rows, f) && CoveredOnceStored(ps, w, f) then {r.nextId} else {}
  }

  ghost function LetInAll(ps: seq<Pattern>, w: World, rows: Rows, nextId: nat, fs: seq<Finding>, now: int, gap: int): set<nat>
    requires AllValid(ps)
  {
    if fs == [] then {}
    else
      var front := fs[..|fs| - 1];
      LetInAll(ps, w, rows, nextId, front, now, gap) + LetInOne(ps, w, FoldAll(w.inet, rows, nextId, front, now, gap), fs[|fs| - 1])
  }

  /** The alerts an operation makes live on a trusted address: those its findings open although the table shows
      them covered, or the one it reopens, if that is covered. */
  ghost function LetIn(c: Setup, s: Moment, event: Event, t: Ticks): set<nat>
    requires AllValid(s.patterns)
  {
    match event
    case Operator(Reopen(id)) => if Reopens(s.rows, id) && CoveredRow(s.patterns, c.world, s.rows[id]) then {id} else {}
    case _ =>
      var kept := Kept(s.patterns, c.world, event);
      if kept == None then {} else LetInAll(s.patterns, c.world, s.rows, s.nextId, kept.value, s.clock + t.toNow, c.gap)
  }

  /** Storing a finding exposes its row exactly when it opens one and the table shows it covered. */
  lemma UpsertExposes(ps: seq<Pattern>, w: World, r: Fold, f: Finding, now: int, gap: int)
    requires AllValid(ps) && IdsBelow(r.rows, r.nextId)
    ensures var r' := FoldOne(w.inet, r, f, now, gap);
            IdsBelow(r'.rows, r'.nextId) && CoveredLive(ps, w, r'.rows) == CoveredLive(ps, w, r.rows) + LetInOne(ps, w, r, f)
  {
    hide CoveredPair, Accepted, DedupeKey, Escalated, Overflows;
    if r.ok && !Fails(w.inet, r.rows, f) {
      var id := HomeOf(r.rows, r.nextId, f);
      var rows' := UpsertIn(w.inet, r.rows, r.nextId, f, now);
      assert Live(rows'[id]) && CoveredRow(ps, w, rows'[id]) <==> if Opens(r.rows, f) then CoveredOnceStored(ps, w, f) else CoveredRow(ps, w, r.rows[id]);
    }
  }

  lemma {:induction false} FoldExposes(ps: seq<Pattern>, w: World, rows: Rows, nextId: nat, fs: seq<Finding>, now: int, gap: int)
    requires AllValid(ps) && IdsBelow(rows, nextId)
    ensures var r := FoldAll(w.inet, rows, nextId, fs, now, gap);
            && IdsBelow(r.rows, r.nextId)
            && CoveredLive(ps, w, r.rows) == CoveredLive(ps, w, rows) + LetInAll(ps, w, rows, nextId, fs, now, gap)
  {
    hide CoveredLive, FoldOne, LetInOne, IdsBelow;
    if fs != [] {
      var front := fs[..|fs| - 1];
      FoldExposes(ps, w, rows, nextId, front, now, gap);
      UpsertExposes(ps, w, FoldAll(w.inet, rows, nextId, front, now, gap), fs[|fs| - 1], now, gap);
    }
  }

  lemma RecordingExposesNothing(ps: seq<Pattern>, w: World, s: Moment, batch: seq<Note>, accepts: seq<bool>)
    requires AllValid(ps)
    ensures var s' := Recorded(s, batch, accepts);
            && s'.patterns == s.patterns && s'.nextId == s.nextId && s'.rows.Keys == s.rows.Keys
            && CoveredLive(ps, w, s'.rows) == CoveredLive(ps, w, s.rows)
  {
    hide CoveredPair;
  }

  lemma ProcessExposes(c: Setup, s: Moment, kept: seq<Finding>, t: Ticks)
    requires AllValid(s.patterns) && IdsBelow(s.rows, s.nextId)
    ensures var s' := Processed(c, s, kept, t);
            && s'.patterns == s.patterns && IdsBelow(s'.rows, s'.nextId)
            && Exposed(c, s') == Exposed(c, s) + LetInAll(s.patterns, c.world, s.rows, s.nextId, kept, s.clock + t.toNow, c.gap)
  {
    hide FoldAll, LetInAll, CoveredLive, AfterNotify, Recorded;
    var now := s.(clock := s.clock + t.toNow);
    FoldExposes(s.patterns, c.world, s.rows, s.nextId, kept, now.clock, c.gap);
    var r, stored := StoreFold(c, now, kept), StoredAll(c, now, kept);
    if r.ok && r.notes != [] {
      var (queue, batch) := Announcement(c, stored, r.notes, t);
      RecordingExposesNothing(s.patterns, c.world, stored.(queue := queue, clock := stored.clock + t.toDelivery), batch, t.accepts);
    }
  }

  /** A step of the table that resolves, deletes or restates rows exposes nothing. */
  ghost predicate Tamer(rows: Rows, rows': Rows) {
    forall i <- rows' ::
      && i in rows && (Live(rows'[i]) ==> Live(rows[i]))
      && rows'[i].host == rows[i].host && rows'[i].peer == rows[i].peer && rows'[i].notifiedAt == rows[i].notifiedAt
  }

  lemma TamerExposes(ps: seq<Pattern>, w: World, rows: Rows, rows': Rows)
    requires AllValid(ps) && Tamer(rows, rows')
    ensures CoveredLive(ps, w, rows') <= CoveredLive(ps, w, rows)
  {
    hide CoveredPair;
  }

  lemma OperatorTamer(inet: Inets, rows: Rows, nextId: nat, op: Op, now: int)
    requires ByOperator(op) && !op.Reopen?
    ensures Tamer(rows, RowsAfter(inet, rows, nextId, op, now))
  {
    hide LiveMatching, ResolvedMatching, Stale, Expired;
  }

  lemma ReopenExposes(ps: seq<Pattern>, w: World, rows: Rows, id: nat, now: int)
    requires AllValid(ps) && Reopens(rows, id)
    ensures CoveredLive(ps, w, rows[id := Reopened(rows[id], now)]) == CoveredLive(ps, w, rows) + if CoveredRow(ps, w, rows[id]) then {id} else {}
  {
    hide CoveredPair;
    assert CoveredRow(ps, w, Reopened(rows[id], now)) <==> CoveredRow(ps, w, rows[id]);
  }

  lemma OperatorExposes(c: Setup, s: Moment, op: Op, t: Ticks)
    requires AllValid(s.patterns) && IdsBelow(s.rows, s.nextId)
    ensures var s' := Operated(c, s, op, t);
            && IdsBelow(s'.rows, s'.nextId) && s'.patterns == s.patterns
            && LetIn(c, s, Operator(op), t) <= Exposed(c, s') <= Exposed(c, s) + LetIn(c, s, Operator(op), t)
  {
    hide CoveredPair, CoveredLive, CoveredRow, LetInAll;
    var now := s.clock + t.toNow;
    if op.Reopen? {
      if Reopens(s.rows, op.id) {
        ReopenExposes(s.patterns, c.world, s.rows, op.id, now);
      }
    } else {
      NothingToLetIn(c, s, now);
      if ByOperator(op) {
        OperatorTamer(c.world.inet, s.rows, s.nextId, op, now);
        TamerExposes(s.patterns, c.world, s.rows, RowsAfter(c.world.inet, s.rows, s.nextId, op, now));
        hide RowsAfter;
      }
    }
  }

  /** What any operation exposes: nothing but what it lets in, and that it does expose. */
  lemma EventExposes(c: Setup, s: Moment, event: Event, t: Ticks)
    requires AllValid(s.patterns) && IdsBelow(s.rows, s.nextId)
    ensures var s' := After(c, s, event, t);
            IdsBelow(s'.rows, s'.nextId) && LetIn(c, s, event, t) <= Exposed(c, s') <= Exposed(c, s) + LetIn(c, s, event, t)
  {
    hide CoveredLive, Processed, Operated, LetInAll, Recorded, AfterFlush, CoveredRow;
    NothingToLetIn(c, s, s.clock + t.toNow);
    match event
    case AddPattern(input) =>
      NormalizedIsUnmapped(input);
      var p := NormalizeExclusion(input);
      if p.Some? {
        AddedList(s.patterns, p.value, c.world, s.rows, s.clock + t.toNow);
      }
    case DropPattern(p) => ShorterList(s.patterns, p, c.world, s.rows);
    case Operator(op) => OperatorExposes(c, s, op, t);
    case Timer =>
      var (queue, batch) := AfterFlush(s.queue, c.quiet, t.flushHour);
      RecordingExposesNothing(s.patterns, c.world, s.(queue := queue, clock := s.clock + t.toNow), batch, t.accepts);
    case _ =>
      var kept := Kept(s.patterns, c.world, event);
      if kept.Some? {
        ProcessExposes(c, s, kept.value, t);
      }
  }

  lemma {:induction false} IdsBelowAfter(c: Setup, s: Moment, events: seq<(Event, Ticks)>)
    requires AllValid(s.patterns) && IdsBelow(s.rows, s.nextId)
    ensures IdsBelow(AfterAll(c, s, events).rows, AfterAll(c, s, events).nextId)
  {
    hide After, IdsBelow, Exposed, LetIn;
    if events != [] {
      IdsBelowAfter(c, s, events[..|events| - 1]);
      EventExposes(c, AfterAll(c, s, events[..|events| - 1]), events[|events| - 1].0, events[|events| - 1].1);
    }
  }

  ghost function LetInAt(c: Setup, s: Moment, events: seq<(Event, Ticks)>, k: nat): set<nat>
    requires AllValid(s.patterns) && k < |events|
  {
    LetIn(c, AfterAll(c, s, events[..k]), events[k].0, events[k].1)
  }

  ghost predicate SafeUpTo(c: Setup, s: Moment, events: seq<(Event, Ticks)>, n: nat)
    requires AllValid(s.patterns) && n <= |events|
  {
    forall k | 0 <= k <= n :: Exposed(c, AfterAll(c, s, events[..k])) == {}
  }

  ghost predicate NothingLetIn(c: Setup, s: Moment, events: seq<(Event, Ticks)>, n: nat)
    requires AllValid(s.patterns) && n <= |events|
  {
    forall k | 0 <= k < n :: LetInAt(c, s, events, k) == {}
  }

  /** Over any history, no alert is ever live on a trusted address if and only if no operation lets one in. */
  lemma {:induction false} GuaranteeIff(c: Setup, s: Moment, events: seq<(Event, Ticks)>, n: nat)
    requires AllValid(s.patterns) && IdsBelow(s.rows, s.nextId) && Exposed(c, s) == {} && n <= |events|
    ensures SafeUpTo(c, s, events, n) <==> NothingLetIn(c, s, events, n)
  {
    hide After, LetIn, Exposed, IdsBelow;
    if n == 0 {
      assert events[..0] == [];
    } else {
      GuaranteeIff(c, s, events, n - 1);
      IdsBelowAfter(c, s, events[..n - 1]);
      EventExposes(c, AfterAll(c, s, events[..n - 1]), events[n - 1].0, events[n - 1].1);
      assert events[..n][..n - 1] == events[..n - 1] && events[..n][n - 1] == events[n - 1];
      assert AfterAll(c, s, events[..n]) == After(c, AfterAll(c, s, events[..n - 1]), events[n - 1].0, events[n - 1].1);
      assert SafeUpTo(c, s, events, n) <==> SafeUpTo(c, s, events, n - 1) && Exposed(c, AfterAll(c, s, events[..n])) == {};
      assert NothingLetIn(c, s, events, n) <==> NothingLetIn(c, s, events, n - 1) && LetInAt(c, s, events, n - 1) == {};
    }
  }

  // ---- when nothing is let in ----

  lemma {:induction false} PlainFindingsStayOut(ps: seq<Pattern>, w: World, rows: Rows, nextId: nat, fs: seq<Finding>, now: int, gap: int)
    requires AllValid(ps) && w.Valid()
    requires forall f <- fs :: !CoveredFinding(ps, w, f) && (Accepted(w.inet, f) ==> Spelled(w, f) || Nameless(ps, w, f))
    ensures LetInAll(ps, w, rows, nextId, fs, now, gap) == {}
  {
    hide CoveredFinding, CoveredOnceStored, FoldAll, Opens, Spelled, Nameless, Accepted;
    if fs != [] {
      var f := fs[|fs| - 1];
      assert f in fs;
      PlainFindingsStayOut(ps, w, rows, nextId, fs[..|fs| - 1], now, gap);
      if Accepted(w.inet, f) {
        PlainFindingsAgree(ps, w, f);
      }
    }
  }

  /** A run lets nothing in when every finding it stores is spelled as the table prints it, or parses and is
      covered by no name: the filter then saw what the table will show. */
  lemma PlainRunsLetNothingIn(c: Setup, s: Moment, event: Event, t: Ticks)
    requires AllValid(s.patterns) && c.world.Valid() && (event.RuleRun? || event.IdsEvent?)
    requires var kept := Kept(s.patterns, c.world, event);
             kept.Some? ==> forall f <- kept.value :: Accepted(c.world.inet, f) ==> Spelled(c.world, f) || Nameless(s.patterns, c.world, f)
    ensures LetIn(c, s, event, t) == {}
  {
    hide CoveredFinding, Spelled, Nameless, Accepted, LetInAll, Evaluated;
    var kept := Kept(s.patterns, c.world, event);
    if kept.Some? {
      PlainFindingsStayOut(s.patterns, c.world, s.rows, s.nextId, kept.value, s.clock + t.toNow, c.gap);
    }
  }

  /** An operation that is no reopen and whose findings are all spelled as the table prints addresses. */
  ghost predicate WellSpelled(w: World, event: Event) {
    match event
    case RuleRun(_, _, _, _, found) => forall f <- found :: Spelled(w, f)
    case IdsEvent(f, _, _) => Spelled(w, f)
    case Operator(op) => !op.Reopen?
    case _ => true
  }

  lemma {:induction false} EvaluatedSpelled(w: World, rule: string, severity: string, title: string, exempt: set<string>, found: seq<Finding>)
    requires forall f <- found :: Spelled(w, f)
    ensures forall f <- Evaluated(rule, severity, title, exempt, found) :: Spelled(w, f)
  {
    if found != [] {
      EvaluatedSpelled(w, rule, severity, title, exempt, found[..|found| - 1]);
      assert found[|found| - 1] in found;
    }
  }

  lemma WellSpelledLetsNothingIn(c: Setup, s: Moment, event: Event, t: Ticks)
    requires AllValid(s.patterns) && c.world.Valid() && WellSpelled(c.world, event)
    ensures LetIn(c, s, event, t) == {}
  {
    hide CoveredFinding, Nameless, Accepted, LetInAll, Evaluated, FoldAll;
    match event
    case RuleRun(rule, severity, title, exempt, found) =>
      EvaluatedSpelled(c.world, rule, severity, title, exempt, found);
      hide Spelled;
      PlainRunsLetNothingIn(c, s, event, t);
    case IdsEvent(f, skip, exempt) =>
      assert Spelled(c.world, f.(rule := "ids"));
      hide Spelled;
      PlainRunsLetNothingIn(c, s, event, t);
    case _ =>
      assert LetInAll(s.patterns, c.world, s.rows, s.nextId, [], s.clock + t.toNow, c.gap) == {} by { NothingToLetIn(c, s, s.clock + t.toNow); }
  }

  lemma NothingToLetIn(c: Setup, s: Moment, now: int)
    requires AllValid(s.patterns)
    ensures LetInAll(s.patterns, c.world, s.rows, s.nextId, [], now, c.gap) == {}
  {
  }

  /** So with such operations alone no alert is ever live on a trusted address. */
  lemma WellSpelledHistoriesAreSafe(c: Setup, s: Moment, events: seq<(Event, Ticks)>)
    requires AllValid(s.patterns) && c.world.Valid() && IdsBelow(s.rows, s.nextId) && Exposed(c, s) == {}
    requires forall k | 0 <= k < |events| :: WellSpelled(c.world, events[k].0)
    ensures SafeUpTo(c, s, events, |events|)
  {
    hide LetIn, WellSpelled, Exposed, IdsBelow, AfterAll, SafeUpTo;
    forall k | 0 <= k < |events| ensures LetInAt(c, s, events, k) == {} {
      WellSpelledLetsNothingIn(c, AfterAll(c, s, events[..k]), events[k].0, events[k].1);
    }
    GuaranteeIff(c, s, events, |events|);
  }

  // ---- deliveries ----

  ghost predicate Apart(times: seq<int>, gap: int) {
    forall i | 0 < i < |times| :: times[i] - times[i - 1] > gap
  }

  ghost predicate Delivered(times: seq<int>, gap: int, clock: int) {
    times != [] && Apart(times, gap) && times[|times| - 1] <= clock
  }

  function LastSent(sent: map<nat, seq<int>>, i: nat): Option<int> {
    if i in sent && sent[i] != [] then Some(sent[i][|sent[i]| - 1]) else None
  }

  /** The times of the successful deliveries of each row, with what the row remembers of them. */
  ghost predicate Spaced(rows: Rows, sent: map<nat, seq<int>>, nextId: nat, gap: int, clock: int) {
    && (forall i <- sent :: i < nextId && Delivered(sent[i], gap, clock))
    && (forall i <- rows :: rows[i].notifiedAt == LastSent(sent, i))
  }

  /** Every raised alert may be sent now without coming too close to its last delivery. */
  ghost predicate Sendable(notes: seq<Note>, rows: Rows, nextId: nat, gap: int, now: int) {
    forall n <- notes :: n.id in rows && n.id < nextId && (rows[n.id].notifiedAt == None || now - rows[n.id].notifiedAt.value > gap)
  }

  lemma DeliveredAgain(sent: map<nat, seq<int>>, i: nat, gap: int, clock: int, now: int, t: int)
    requires i in sent ==> Delivered(sent[i], gap, clock)
    requires now <= t && (LastSent(sent, i) == None || now - LastSent(sent, i).value > gap)
    ensures Delivered((if i in sent then sent[i] else []) + [t], gap, t)
  {
  }

  lemma DeliveredLater(times: seq<int>, gap: int, clock: int, t: int)
    requires Delivered(times, gap, clock) && clock <= t
    ensures Delivered(times, gap, t)
  {
  }

  lemma SpacedDelivery(rows: Rows, sent: map<nat, seq<int>>, nextId: nat, gap: int, clock: int, ids: set<nat>, now: int, t: int)
    requires Spaced(rows, sent, nextId, gap, clock) && clock <= now <= t
    requires forall i <- ids :: i in rows && i < nextId && (rows[i].notifiedAt == None || now - rows[i].notifiedAt.value > gap)
    ensures Spaced(NotifyIn(rows, ids, t), SentAfter(sent, ids, t), nextId, gap, t)
  {
    hide Delivered;
    var sent' := SentAfter(sent, ids, t);
    forall i | i in sent' ensures i < nextId && Delivered(sent'[i], gap, t) {
      if i in ids {
        DeliveredAgain(sent, i, gap, clock, now, t);
      } else {
        assert sent'[i] == sent[i];
        DeliveredLater(sent[i], gap, clock, t);
      }
    }
    forall i | i in rows ensures NotifyIn(rows, ids, t)[i].notifiedAt == LastSent(sent', i) {
      if i in ids {
        assert sent'[i][|sent'[i]| - 1] == t;
      } else if i in sent {
        assert sent'[i] == sent[i];
      }
    }
  }

  lemma SpacedTamer(rows: Rows, rows': Rows, sent: map<nat, seq<int>>, nextId: nat, gap: int, c: int, c': int)
    requires Tamer(rows, rows') && c <= c' && Spaced(rows, sent, nextId, gap, c)
    ensures Spaced(rows', sent, nextId, gap, c')
  {
    hide LastSent;
  }

  lemma UpsertSpaces(inet: Inets, r: Fold, f: Finding, now: int, sent: map<nat, seq<int>>, gap: int)
    requires IdsBelow(r.rows, r.nextId) && Spaced(r.rows, sent, r.nextId, gap, now) && Sendable(r.notes, r.rows, r.nextId, gap, now)
    ensures var r' := FoldOne(inet, r, f, now, gap); Spaced(r'.rows, sent, r'.nextId, gap, now) && Sendable(r'.notes, r'.rows, r'.nextId, gap, now)
  {
    hide DedupeKey, Escalated, Accepted, Overflows;
  }

  lemma {:induction false} FoldSpaces(w: World, rows: Rows, nextId: nat, fs: seq<Finding>, now: int, sent: map<nat, seq<int>>, gap: int)
    requires IdsBelow(rows, nextId) && Spaced(rows, sent, nextId, gap, now)
    ensures var r := FoldAll(w.inet, rows, nextId, fs, now, gap); Spaced(r.rows, sent, r.nextId, gap, now) && Sendable(r.notes, r.rows, r.nextId, gap, now)
  {
    hide FoldOne, IdsBelow, Spaced;
    if fs != [] {
      var front := fs[..|fs| - 1];
      FoldSpaces(w, rows, nextId, front, now, sent, gap);
      assert AllValid([]);
      FoldExposes([], w, rows, nextId, front, now, gap);
      UpsertSpaces(w.inet, FoldAll(w.inet, rows, nextId, front, now, gap), fs[|fs| - 1], now, sent, gap);
    }
  }

  /** Immediate mode without quiet hours. */
  predicate Immediate(c: Setup) {
    c.digest == 0 && c.quiet == NoQuiet
  }

  ghost predicate SpacedAt(c: Setup, s: Moment) {
    s.queue.pending == [] && Spaced(s.rows, s.sent, s.nextId, c.gap, s.clock)
  }

  lemma AnnouncedSpaced(c: Setup, s: Moment, notes: seq<Note>, t: Ticks)
    requires Immediate(c) && SpacedAt(c, s) && Sendable(notes, s.rows, s.nextId, c.gap, s.clock)
    ensures SpacedAt(c, Announced(c, s, notes, t))
  {
    var (queue, batch) := Announcement(c, s, notes, t);
    var later := s.(queue := queue, clock := s.clock + t.toDelivery);
    hide AfterNotify, Spaced, Tamer;
    assert Tamer(s.rows, s.rows) by { TamerSelf(s.rows); }
    SpacedTamer(s.rows, s.rows, s.sent, s.nextId, c.gap, s.clock, later.clock);
    if batch != [] && true in t.accepts {
      SpacedDelivery(s.rows, s.sent, s.nextId, c.gap, s.clock, Ids(batch), s.clock, later.clock);
    }
  }

  lemma TamerSelf(rows: Rows)
    ensures Tamer(rows, rows)
  {
  }

  lemma SpacedReopen(rows: Rows, id: nat, now: int, sent: map<nat, seq<int>>, nextId: nat, gap: int, c: int)
    requires id in rows && Spaced(rows, sent, nextId, gap, c)
    ensures Spaced(rows[id := Reopened(rows[id], now)], sent, nextId, gap, c)
  {
    hide LastSent, Delivered;
  }

  lemma OperatorSpaced(c: Setup, s: Moment, op: Op, t: Ticks)
    requires SpacedAt(c, s)
    ensures SpacedAt(c, Operated(c, s, op, t))
  {
    hide Spaced, Tamer;
    var now := s.clock + t.toNow;
    TamerSelf(s.rows);
    SpacedTamer(s.rows, s.rows, s.sent, s.nextId, c.gap, s.clock, now);
    if op.Reopen? {
      if Reopens(s.rows, op.id) {
        SpacedReopen(s.rows, op.id, now, s.sent, s.nextId, c.gap, now);
      }
    } else if ByOperator(op) {
      OperatorTamer(c.world.inet, s.rows, s.nextId, op, now);
      SpacedTamer(s.rows, RowsAfter(c.world.inet, s.rows, s.nextId, op, now), s.sent, s.nextId, c.gap, s.clock, now);
      hide RowsAfter;
    }
  }

  lemma ResolveTamer(rows: Rows, ids: set<nat>, now: int)
    ensures Tamer(rows, ResolveIn(rows, ids, now))
  {
  }

  /** In immediate mode without quiet hours every operation keeps the deliveries of each row apart. */
  lemma SpacedStep(c: Setup, s: Moment, event: Event, t: Ticks)
    requires AllValid(s.patterns) && IdsBelow(s.rows, s.nextId) && Immediate(c) && SpacedAt(c, s)
    ensures SpacedAt(c, After(c, s, event, t))
  {
    hide Spaced, Tamer, FoldAll, Announced, Operated, CoveredLive, ResolveIn;
    TamerSelf(s.rows);
    SpacedTamer(s.rows, s.rows, s.sent, s.nextId, c.gap, s.clock, s.clock + t.toNow);
    match event
    case AddPattern(input) =>
      NormalizedIsUnmapped(input);
      var p := NormalizeExclusion(input);
      if p.Some? {
        var ids := CoveredLive([p.value], c.world, s.rows);
        ResolveTamer(s.rows, ids, s.clock + t.toNow);
        SpacedTamer(s.rows, ResolveIn(s.rows, ids, s.clock + t.toNow), s.sent, s.nextId, c.gap, s.clock, s.clock + t.toNow);
      }
    case DropPattern(_) =>
    case Operator(op) => OperatorSpaced(c, s, op, t);
    case Timer =>
    case _ =>
      var kept := Kept(s.patterns, c.world, event);
      if kept.Some? {
        var now := s.(clock := s.clock + t.toNow);
        FoldSpaces(c.world, s.rows, s.nextId, kept.value, now.clock, s.sent, c.gap);
        var r, stored := StoreFold(c, now, kept.value), StoredAll(c, now, kept.value);
        if r.ok && r.notes != [] {
          AnnouncedSpaced(c, stored, r.notes, t);
        }
      }
  }

  /** Over any history, then, no delivery of a row comes within the renotify interval of the one before. */
  lemma {:induction false} SpacedHistory(c: Setup, s: Moment, events: seq<(Event, Ticks)>)
    requires AllValid(s.patterns) && IdsBelow(s.rows, s.nextId) && Immediate(c) && SpacedAt(c, s)
    ensures SpacedAt(c, AfterAll(c, s, events))
    ensures forall i <- AfterAll(c, s, events).sent :: Apart(AfterAll(c, s, events).sent[i], c.gap)
  {
    hide After, IdsBelow, LastSent;
    if events != [] {
      hide Spaced, SpacedAt;
      SpacedHistory(c, s, events[..|events| - 1]);
      IdsBelowAfter(c, s, events[..|events| - 1]);
      SpacedStep(c, AfterAll(c, s, events[..|events| - 1]), events[|events| - 1].0, events[|events| - 1].1);
      SpacedMeansApart(c, AfterAll(c, s, events));
    }
  }

  lemma SpacedMeansApart(c: Setup, s: Moment)
    requires SpacedAt(c, s)
    ensures forall i <- s.sent :: Apart(s.sent[i], c.gap)
  {
    hide LastSent;
  }

  /** The record of deliveries: an operation takes at most one batch, and exactly what some channel accepted of
      it is appended, for each of its rows at that time; nothing recorded is ever changed. */
  ghost predicate DeliveriesGrow(s: Moment, s': Moment, accepts: seq<bool>) {
    if s'.queue.taken == s.queue.taken then s'.sent == s.sent
    else
      && |s'.queue.taken| == |s.queue.taken| + 1 && s.queue.taken <= s'.queue.taken
      && s'.sent == if true in accepts then SentAfter(s.sent, Ids(s'.queue.taken[|s.queue.taken|]), s'.clock) else s.sent
  }

  lemma DeliveriesRecorded(c: Setup, s: Moment, event: Event, t: Ticks)
    requires AllValid(s.patterns)
    ensures DeliveriesGrow(s, After(c, s, event, t), t.accepts)
  {
    hide FoldAll, SentAfter, NotifyIn, RowsAfter, CoveredLive, Kept, Passing, Flat, InQuietHours;
  }

  /** Older record is a prefix of the newer one. */
  ghost predicate RecordKept(sent: map<nat, seq<int>>, sent': map<nat, seq<int>>) {
    forall i <- sent :: i in sent' && sent[i] <= sent'[i]
  }

  lemma {:induction false} RecordNeverShrinks(c: Setup, s: Moment, events: seq<(Event, Ticks)>)
    requires AllValid(s.patterns)
    ensures RecordKept(s.sent, AfterAll(c, s, events).sent)
  {
    hide After;
    if events != [] {
      var before := AfterAll(c, s, events[..|events| - 1]);
      RecordNeverShrinks(c, s, events[..|events| - 1]);
      DeliveriesRecorded(c, before, events[|events| - 1].0, events[|events| - 1].1);
    }
  }

  // ---- severities ----

  /** Rules have a known severity and so have findings that bring their own; IDS findings always do. */
  ghost predicate Proper(event: Event) {
    match event
    case RuleRun(_, severity, _, _, found) => SeverityRank(severity) > 0 && forall f <- found :: f.severity == "" || SeverityRank(f.severity) > 0
    case IdsEvent(f, _, _) => SeverityRank(f.severity) > 0
    case _ => true
  }

  ghost predicate AllKnown(fs: seq<Finding>) {
    forall f <- fs :: SeverityRank(f.severity) > 0
  }

  lemma {:induction false} EvaluatedKnown(rule: string, severity: string, title: string, exempt: set<string>, found: seq<Finding>)
    requires SeverityRank(severity) > 0 && forall f <- found :: f.severity == "" || SeverityRank(f.severity) > 0
    ensures AllKnown(Evaluated(rule, severity, title, exempt, found))
  {
    hide SeverityRank;
    if found != [] {
      EvaluatedKnown(rule, severity, title, exempt, found[..|found| - 1]);
      assert found[|found| - 1] in found;
    }
  }

  lemma KeptKnown(ps: seq<Pattern>, w: World, event: Event)
    requires AllValid(ps) && Proper(event)
    ensures Kept(ps, w, event).Some? ==> AllKnown(Kept(ps, w, event).value)
  {
    hide SeverityRank, Evaluated, CoveredFinding;
    if event.RuleRun? {
      EvaluatedKnown(event.rule, event.severity, event.title, event.exempt, event.found);
    }
  }

  lemma {:induction false} RaisedStayKnown(c: Setup, s: Moment, events: seq<(Event, Ticks)>)
    requires AllValid(s.patterns) && AllKnown(s.raised) && forall k | 0 <= k < |events| :: Proper(events[k].0)
    ensures AllKnown(AfterAll(c, s, events).raised)
  {
    hide SeverityRank, Proper, Kept, FoldAll, AfterNotify, AfterFlush, Operated, Added;
    if events != [] {
      var before, event := AfterAll(c, s, events[..|events| - 1]), events[|events| - 1].0;
      RaisedStayKnown(c, s, events[..|events| - 1]);
      KeptKnown(before.patterns, c.world, event);
      OperatedRaises(c, before, event, events[|events| - 1].1);
    }
  }

  lemma OperatedRaises(c: Setup, s: Moment, event: Event, t: Ticks)
    requires AllValid(s.patterns)
    ensures event.Operator? ==> Operated(c, s, event.op, t).raised == s.raised
    ensures event.AddPattern? ==> Added(c, s, event.input, t).raised == s.raised
  {
  }

  // ---- all together ----

  /** Any sequence of operations, one after another, from a state in which no alert is live on a trusted
      address. That stays so throughout if and only if no operation lets an alert in; in immediate mode
      deliveries of one row stay more than the renotify interval apart, and the record they are read from
      only grows; and while every event brings known severities every row, deleted or not, shows the highest
      severity folded into it. */
  method RunGuarded(e: Engine, events: seq<(Event, Ticks)>)
    requires e.Valid() && Exposed(e.Config(), e.Now()) == {}
    requires forall i | 0 <= i < |events| :: |events[i].1.accepts| == e.dispatcher.channels
    modifies e, e.store, e.dispatcher
    ensures e.Valid() && e.Config() == old(e.Config()) && e.Now() == AfterAll(e.Config(), old(e.Now()), events)
    ensures SafeUpTo(e.Config(), old(e.Now()), events, |events|) <==> NothingLetIn(e.Config(), old(e.Now()), events, |events|)
    ensures (forall k | 0 <= k < |events| :: WellSpelled(e.world, events[k].0)) ==> SafeUpTo(e.Config(), old(e.Now()), events, |events|)
    ensures Immediate(e.Config()) && old(SpacedAt(e.Config(), e.Now())) ==> forall i <- e.sent :: Apart(e.sent[i], e.renotifyAfter)
    ensures RecordKept(old(e.sent), e.sent)
    ensures AllKnown(old(e.store.ledger.raised)) && (forall k | 0 <= k < |events| :: Proper(events[k].0)) ==>
              var l := e.store.ledger;
              forall i: nat | i < |l.folded| ::
                (i in e.store.rows || i in l.gone) && SeverityRank(RowAt(e.store.rows, l, i).severity) == MaxRank(l.folded[i])
  {
    hide Inv, After, SafeUpTo, NothingLetIn, WellSpelled, Immediate, SpacedAt, RecordKept, Proper, SeverityRank, MaxRank, Exposed, RowAt, Apart;
    ghost var c, s := e.Config(), e.Now();
    InvIds(e.store.rows, e.store.ledger);
    Pipeline.Run(e, events);
    GuaranteeIff(c, s, events, |events|);
    if forall k | 0 <= k < |events| :: WellSpelled(e.world, events[k].0) {
      WellSpelledHistoriesAreSafe(c, s, events);
    }
    if Immediate(c) && SpacedAt(c, s) {
      SpacedHistory(c, s, events);
    }
    RecordNeverShrinks(c, s, events);
    if AllKnown(s.raised) && forall k | 0 <= k < |events| :: Proper(events[k].0) {
      RaisedStayKnown(c, s, events);
      KnownSeveritiesShow(e.store.rows, e.store.ledger);
    }
  }
}
