/** Rule runs and IDS events that overlap with each other and with changes of the trusted list. A run reads
    the list once (rules.go evaluate, applyExclusions), then stores its findings one upsert at a time, and hands
    on what it raised when all are stored (RunRule); the API may change the list in between. */
module Overlap {
  import opened Address
  import opened Alerts
  import opened Exclusions
  import opened Findings
  import opened Guarantees
  import opened Moments
  import opened Notify
  import opened Options
  import opened Pipeline
  import opened Text
  import opened Trust

  /** A run that has begun: what it has still to store, and what it raised so far. */
  datatype Job = Job(left: seq<Finding>, raised: Raised)

  /** A run begins by filtering what it found; later it stores its next finding; when none is left it hands
      its alerts on; whole operations happen before, between and after. */
  datatype Move = BeginRun(run: Event)
                | StoreNext(job: nat, wait: nat)
                | Finish(job: nat, t: Ticks)
                | Whole(event: Event, t: Ticks)

  datatype Scene = Scene(now: Moment, jobs: seq<Job>)

  const DONE := Job([], Raised([], [], false))

  predicate Storing(s: Scene, m: Move) {
    m.StoreNext? && m.job < |s.jobs| && s.jobs[m.job].left != []
  }

  predicate Finishing(s: Scene, m: Move) {
    m.Finish? && m.job < |s.jobs| && s.jobs[m.job].left == [] && s.jobs[m.job].raised.ok
  }

  ghost function FoldOf(s: Scene, job: Job): Fold {
    Fold(s.now.rows, s.now.nextId, job.raised.ids, job.raised.notes, true)
  }

  /** The next finding of a run is stored; a run stops at its first store error. */
  ghost function StoredNext(c: Setup, s: Scene, m: Move): Scene
    requires Storing(s, m)
  {
    var job, f, now := s.jobs[m.job], s.jobs[m.job].left[0], s.now.clock + m.wait;
    var r := FoldOne(c.world.inet, FoldOf(s, job), f, now, c.gap);
    Scene(s.now.(rows := r.rows, nextId := r.nextId, clock := now, raised := s.now.raised + if r.ok then [f] else []),
          s.jobs[m.job := if r.ok then Job(job.left[1..], Raised(r.notes, r.ids, true)) else DONE])
  }

  ghost function Finished(c: Setup, s: Scene, m: Move): Scene
    requires Finishing(s, m)
  {
    var notes := s.jobs[m.job].raised.notes;
    Scene(if notes != [] then Announced(c, s.now, notes, m.t) else s.now, s.jobs[m.job := DONE])
  }

  ghost function JobOf(kept: Option<seq<Finding>>): Job {
    if kept == None then DONE else Job(kept.value, Raised([], [], true))
  }

  /** What one move does. */
  ghost function Moved(c: Setup, s: Scene, m: Move): (s': Scene)
    requires AllValid(s.now.patterns)
    ensures AllValid(s'.now.patterns)
  {
    match m
    case BeginRun(run) => s.(jobs := s.jobs + [JobOf(Kept(s.now.patterns, c.world, run))])
    case StoreNext(_, _) => if Storing(s, m) then StoredNext(c, s, m) else s
    case Finish(_, _) => if Finishing(s, m) then Finished(c, s, m) else s
    case Whole(event, t) => s.(now := After(c, s.now, event, t))
  }

  ghost function MovedAll(c: Setup, s: Scene, moves: seq<Move>): (s': Scene)
    requires AllValid(s.now.patterns)
    ensures AllValid(s'.now.patterns)
  {
    if moves == [] then s else Moved(c, MovedAll(c, s, moves[..|moves| - 1]), moves[|moves| - 1])
  }

  // ---- the engine ----

  method Begin(e: Engine, run: Event) returns (kept: Option<seq<Finding>>)
    requires e.Valid()
    ensures kept == Kept(e.patterns, e.world, run)
  {
    match run
    case RuleRun(rule, severity, title, exempt, found) =>
      kept := e.Evaluate(rule, severity, title, exempt, found);
    case IdsEvent(f, skip, exempt) =>
      kept := Some([]);
      if !(skip || f.host in exempt || f.peer in exempt) {
        kept := e.ApplyExclusions([f.(rule := "ids")]);
      }
    case _ => kept := Some([]);
  }

  predicate Answered(m: Move, channels: nat) {
    (m.Finish? || m.Whole?) ==> |m.t.accepts| == channels
  }

  method Carry(e: Engine, jobs: seq<Job>, m: Move) returns (jobs': seq<Job>)
    requires e.Valid() && Answered(m, e.dispatcher.channels)
    requires forall j <- jobs :: j.raised.ok || j.left == []
    modifies e, e.store, e.dispatcher
    ensures e.Valid() && e.Config() == old(e.Config()) && forall j <- jobs' :: j.raised.ok || j.left == []
    ensures Scene(e.Now(), jobs') == Moved(e.Config(), Scene(old(e.Now()), jobs), m)
  {
    hide Inv, After, Announced, FoldOne, Admitted, Evaluated;
    jobs' := jobs;
    match m
    case BeginRun(run) =>
      var kept := Begin(e, run);
      jobs' := jobs + [if kept == None then DONE else Job(kept.value, Raised([], [], true))];
    case Whole(event, t) => Handle(e, event, t);
    case Finish(job, t) =>
      if job < |jobs| && jobs[job].left == [] && jobs[job].raised.ok {
        if jobs[job].raised.notes != [] {
          e.Announce(jobs[job].raised.notes, t);
        }
        jobs' := jobs[job := DONE];
      }
    case StoreNext(job, wait) =>
      if job < |jobs| && jobs[job].left != [] {
        assert jobs[job] in jobs;
        e.clock := e.clock + wait;
        var raised := e.StoreAndCollect(jobs[job].left[0], jobs[job].raised,
                                        FoldOf(Scene(old(e.Now()), jobs), jobs[job]));
        jobs' := jobs[job := if raised.ok then Job(jobs[job].left[1..], raised) else DONE];
      }
  }

  /** Any interleaving of moves leads exactly where the step function leads. */
  method Run(e: Engine, moves: seq<Move>) returns (jobs: seq<Job>)
    requires e.Valid() && forall n | 0 <= n < |moves| :: Answered(moves[n], e.dispatcher.channels)
    modifies e, e.store, e.dispatcher
    ensures e.Valid() && e.Config() == old(e.Config())
    ensures Scene(e.Now(), jobs) == MovedAll(e.Config(), Scene(old(e.Now()), []), moves)
  {
    hide Inv, Moved;
    jobs := [];
    for n := 0 to |moves|
      invariant e.Valid() && e.Config() == old(e.Config()) && forall j <- jobs :: j.raised.ok || j.left == []
      invariant Scene(e.Now(), jobs) == MovedAll(e.Config(), Scene(old(e.Now()), []), moves[..n])
    {
      assert moves[..n + 1][..n] == moves[..n];
      jobs := Carry(e, jobs, moves[n]);
    }
    assert moves[..|moves|] == moves;
  }

  // ---- nothing in between ----

  /** n stores of one run, the first after a pause. */
  function Stores(job: nat, wait: nat, n: nat): seq<Move> {
    if n == 0 then [] else Stores(job, wait, n - 1) + [StoreNext(job, if n == 1 then wait else 0)]
  }

  /** After k of its findings were stored, the table is the fold over them, and the others are left. */
  ghost predicate StoredSome(c: Setup, s: Scene, s': Scene, job: nat, fs: seq<Finding>, k: nat, now: int)
    requires job < |s.jobs| && k <= |fs|
  {
    var r := FoldAll(c.world.inet, s.now.rows, s.now.nextId, fs[..k], now, c.gap);
    && s'.now == s.now.(rows := r.rows, nextId := r.nextId, clock := if k == 0 then s.now.clock else now, raised := s.now.raised + fs[..|r.ids|])
    && s'.jobs == s.jobs[job := if r.ok then Job(fs[k..], Raised(r.notes, r.ids, true)) else DONE]
  }

  lemma {:induction false} StoresFold(c: Setup, s: Scene, job: nat, fs: seq<Finding>, k: nat, wait: nat)
    requires AllValid(s.now.patterns) && job < |s.jobs| && s.jobs[job] == Job(fs, Raised([], [], true)) && k <= |fs|
    ensures StoredSome(c, s, MovedAll(c, s, Stores(job, wait, k)), job, fs, k, s.now.clock + wait)
  {
    hide Moved;
    if k == 0 {
      assert fs[..0] == [] && fs[0..] == fs;
      assert s.now.raised + fs[..0] == s.now.raised;
      assert s.jobs[job := s.jobs[job]] == s.jobs;
    } else {
      hide StoredSome;
      StoresFold(c, s, job, fs, k - 1, wait);
      var moves := Stores(job, wait, k);
      assert moves[..|moves| - 1] == Stores(job, wait, k - 1);
      StoresOneMore(c, s, MovedAll(c, s, Stores(job, wait, k - 1)), job, fs, k - 1, wait);
    }
  }

  lemma StoresOneMore(c: Setup, s: Scene, s': Scene, job: nat, fs: seq<Finding>, k: nat, wait: nat)
    requires AllValid(s'.now.patterns) && job < |s.jobs| && s.jobs[job] == Job(fs, Raised([], [], true)) && k < |fs|
    requires StoredSome(c, s, s', job, fs, k, s.now.clock + wait)
    ensures StoredSome(c, s, Moved(c, s', StoreNext(job, if k == 0 then wait else 0)), job, fs, k + 1, s.now.clock + wait)
  {
    hide FoldOne, FoldAll;
    var now := s.now.clock + wait;
    var r := FoldAll(c.world.inet, s.now.rows, s.now.nextId, fs[..k], now, c.gap);
    FoldAllMore(c.world.inet, s.now.rows, s.now.nextId, fs, k, now, c.gap);
    assert fs[k..][1..] == fs[k + 1..];
    FoldOneLength(c.world.inet, r, fs[k], now, c.gap);
    if r.ok {
      assert fs[..k + 1] == fs[..k] + [fs[k]];
      assert s.now.raised + fs[..k] + [fs[k]] == s.now.raised + fs[..k + 1];
    }
  }

  lemma FoldAllMore(inet: Inets, rows: Rows, nextId: nat, fs: seq<Finding>, k: nat, now: int, gap: int)
    requires k < |fs|
    ensures FoldAll(inet, rows, nextId, fs[..k + 1], now, gap) == FoldOne(inet, FoldAll(inet, rows, nextId, fs[..k], now, gap), fs[k], now, gap)
  {
    hide FoldOne;
    assert fs[..k + 1][..k] == fs[..k] && fs[..k + 1][k] == fs[k];
  }

  lemma FoldOneLength(inet: Inets, r: Fold, f: Finding, now: int, gap: int)
    ensures var r' := FoldOne(inet, r, f, now, gap);
            if r'.ok then r.ok && |r'.ids| == |r.ids| + 1 else r' == r.(ok := false)
  {
  }

  /** A run whose stores nothing disturbs is the whole run of the step function, delivery included. */
  lemma UndisturbedRun(c: Setup, s: Scene, run: Event, t: Ticks)
    requires AllValid(s.now.patterns) && (run.RuleRun? || run.IdsEvent?)
    requires var kept := Kept(s.now.patterns, c.world, run); kept.Some? && kept.value != []
    ensures var n := |Kept(s.now.patterns, c.world, run).value|;
            MovedAll(c, s, [BeginRun(run)] + Stores(|s.jobs|, t.toNow, n) + [Finish(|s.jobs|, t)])
            == Scene(After(c, s.now, run, t), s.jobs + [DONE])
  {
    hide Kept, FoldAll, Announced, StoredSome, After, Finished;
    var fs, job := Kept(s.now.patterns, c.world, run).value, |s.jobs|;
    var begun := s.(jobs := s.jobs + [Job(fs, Raised([], [], true))]);
    var stores := Stores(job, t.toNow, |fs|);
    var moves := [BeginRun(run)] + stores + [Finish(job, t)];
    assert moves[..|moves| - 1] == [BeginRun(run)] + stores;
    MovedAppend(c, s, [BeginRun(run)], stores);
    assert [BeginRun(run)][..0] == [];
    assert MovedAll(c, s, [BeginRun(run)]) == begun;
    StoresFold(c, begun, job, fs, |fs|, t.toNow);
    FinishedRun(c, s, begun, MovedAll(c, begun, stores), run, t);
  }

  lemma FinishedRun(c: Setup, s: Scene, begun: Scene, stored: Scene, run: Event, t: Ticks)
    requires AllValid(s.now.patterns) && AllValid(stored.now.patterns) && (run.RuleRun? || run.IdsEvent?)
    requires var kept := Kept(s.now.patterns, c.world, run); kept.Some? && kept.value != []
    requires var fs := Kept(s.now.patterns, c.world, run).value;
             && begun == s.(jobs := s.jobs + [Job(fs, Raised([], [], true))])
             && StoredSome(c, begun, stored, |s.jobs|, fs, |fs|, s.now.clock + t.toNow)
    ensures Moved(c, stored, Finish(|s.jobs|, t)) == Scene(After(c, s.now, run, t), s.jobs + [DONE])
  {
    hide Kept, FoldAll, Announced;
    var fs := Kept(s.now.patterns, c.world, run).value;
    assert fs[..|fs|] == fs && fs[|fs|..] == [];
    assert stored.jobs[|s.jobs| := DONE] == s.jobs + [DONE];
    assert Processed(c, s.now, fs, t) == Moved(c, stored, Finish(|s.jobs|, t)).now;
  }

  lemma {:induction false} MovedAppend(c: Setup, s: Scene, a: seq<Move>, b: seq<Move>)
    requires AllValid(s.now.patterns)
    ensures MovedAll(c, s, a + b) == MovedAll(c, MovedAll(c, s, a), b)
  {
    hide Moved;
    if b == [] {
      assert a + b == a;
    } else {
      assert (a + b)[..|a + b| - 1] == a + b[..|b| - 1];
      MovedAppend(c, s, a, b[..|b| - 1]);
    }
  }

  // ---- the guarantee ----

  /** The alerts a move makes live on a trusted address: for a store, the one it opens, if the table shows it
      covered by the list as it is now, whatever list the run was filtered with. */
  ghost function MoveLetsIn(c: Setup, s: Scene, m: Move): set<nat>
    requires AllValid(s.now.patterns)
  {
    if Storing(s, m) then LetInOne(s.now.patterns, c.world, FoldOf(s, s.jobs[m.job]), s.jobs[m.job].left[0])
    else if m.Whole? then LetIn(c, s.now, m.event, m.t)
    else {}
  }

  lemma MoveExposes(c: Setup, s: Scene, m: Move)
    requires AllValid(s.now.patterns) && IdsBelow(s.now.rows, s.now.nextId)
    ensures var s' := Moved(c, s, m);
            && IdsBelow(s'.now.rows, s'.now.nextId)
            && MoveLetsIn(c, s, m) <= Exposed(c, s'.now) <= Exposed(c, s.now) + MoveLetsIn(c, s, m)
  {
    hide CoveredLive, FoldOne, LetInOne, LetIn, After, AfterNotify, Recorded, Kept, IdsBelow;
    match m
    case BeginRun(_) =>
    case Whole(event, t) => EventExposes(c, s.now, event, t);
    case StoreNext(job, wait) =>
      if Storing(s, m) {
        UpsertExposes(s.now.patterns, c.world, FoldOf(s, s.jobs[job]), s.jobs[job].left[0], s.now.clock + wait, c.gap);
      }
    case Finish(job, t) =>
      if Finishing(s, m) {
        var (queue, batch) := Announcement(c, s.now, s.jobs[job].raised.notes, t);
        var later := s.now.(queue := queue, clock := s.now.clock + t.toDelivery);
        RecordingExposesNothing(s.now.patterns, c.world, later, batch, t.accepts);
        SameKeysBelow(later, batch, t.accepts);
      }
  }

  lemma SameKeysBelow(s: Moment, batch: seq<Note>, accepts: seq<bool>)
    requires IdsBelow(s.rows, s.nextId)
    ensures IdsBelow(Recorded(s, batch, accepts).rows, Recorded(s, batch, accepts).nextId)
  {
  }

  lemma {:induction false} MovesKeepIds(c: Setup, s: Scene, moves: seq<Move>)
    requires AllValid(s.now.patterns) && IdsBelow(s.now.rows, s.now.nextId)
    ensures IdsBelow(MovedAll(c, s, moves).now.rows, MovedAll(c, s, moves).now.nextId)
  {
    hide Moved, IdsBelow, Exposed, MoveLetsIn;
    if moves != [] {
      MovesKeepIds(c, s, moves[..|moves| - 1]);
      MoveExposes(c, MovedAll(c, s, moves[..|moves| - 1]), moves[|moves| - 1]);
    }
  }

  ghost function LetInBy(c: Setup, s: Scene, moves: seq<Move>, k: nat): set<nat>
    requires AllValid(s.now.patterns) && k < |moves|
  {
    MoveLetsIn(c, MovedAll(c, s, moves[..k]), moves[k])
  }

  ghost predicate SafeThrough(c: Setup, s: Scene, moves: seq<Move>, n: nat)
    requires AllValid(s.now.patterns) && n <= |moves|
  {
    forall k | 0 <= k <= n :: Exposed(c, MovedAll(c, s, moves[..k]).now) == {}
  }

  ghost predicate NoneLetsIn(c: Setup, s: Scene, moves: seq<Move>, n: nat)
    requires AllValid(s.now.patterns) && n <= |moves|
  {
    forall k | 0 <= k < n :: LetInBy(c, s, moves, k) == {}
  }

  /** Over any interleaving no alert is ever live on a trusted address if and only if no move lets one in. */
  lemma {:induction false} GuaranteeIff(c: Setup, s: Scene, moves: seq<Move>, n: nat)
    requires AllValid(s.now.patterns) && IdsBelow(s.now.rows, s.now.nextId) && Exposed(c, s.now) == {} && n <= |moves|
    ensures SafeThrough(c, s, moves, n) <==> NoneLetsIn(c, s, moves, n)
  {
    hide Moved, MoveLetsIn, Exposed, IdsBelow;
    if n == 0 {
      assert moves[..0] == [];
    } else {
      GuaranteeIff(c, s, moves, n - 1);
      MovesKeepIds(c, s, moves[..n - 1]);
      MoveExposes(c, MovedAll(c, s, moves[..n - 1]), moves[n - 1]);
      assert moves[..n][..n - 1] == moves[..n - 1] && moves[..n][n - 1] == moves[n - 1];
      assert MovedAll(c, s, moves[..n]) == Moved(c, MovedAll(c, s, moves[..n - 1]), moves[n - 1]);
      assert SafeThrough(c, s, moves, n) <==> SafeThrough(c, s, moves, n - 1) && Exposed(c, MovedAll(c, s, moves[..n]).now) == {};
      assert NoneLetsIn(c, s, moves, n) <==> NoneLetsIn(c, s, moves, n - 1) && LetInBy(c, s, moves, n - 1) == {};
    }
  }

  /** An alert exposed in the end was exposed in the beginning, or let in by one of the moves. */
  lemma {:induction false} ExposedWasLetIn(c: Setup, s: Scene, moves: seq<Move>, n: nat, i: nat)
    requires AllValid(s.now.patterns) && IdsBelow(s.now.rows, s.now.nextId) && n <= |moves|
    requires i in Exposed(c, MovedAll(c, s, moves[..n]).now)
    ensures i in Exposed(c, s.now) || exists k | 0 <= k < n :: i in LetInBy(c, s, moves, k)
  {
    hide Moved, MoveLetsIn, Exposed, IdsBelow;
    if n == 0 {
      assert moves[..0] == [];
    } else {
      MovesKeepIds(c, s, moves[..n - 1]);
      MoveExposes(c, MovedAll(c, s, moves[..n - 1]), moves[n - 1]);
      assert moves[..n][..n - 1] == moves[..n - 1] && moves[..n][n - 1] == moves[n - 1];
      if i in LetInBy(c, s, moves, n - 1) {
      } else {
        ExposedWasLetIn(c, s, moves, n - 1, i);
      }
    }
  }

  /** Overlapping runs on an engine: no alert is ever live on a trusted address if and only if no finding is
      stored that opens an alert which the table then shows covered, by the list as it stands at that store,
      and no covered alert is reopened. */
  method RunOverlapping(e: Engine, moves: seq<Move>) returns (jobs: seq<Job>)
    requires e.Valid() && Exposed(e.Config(), e.Now()) == {}
    requires forall n | 0 <= n < |moves| :: Answered(moves[n], e.dispatcher.channels)
    modifies e, e.store, e.dispatcher
    ensures e.Valid() && e.Config() == old(e.Config())
    ensures Scene(e.Now(), jobs) == MovedAll(e.Config(), Scene(old(e.Now()), []), moves)
    ensures SafeThrough(e.Config(), Scene(old(e.Now()), []), moves, |moves|) <==> NoneLetsIn(e.Config(), Scene(old(e.Now()), []), moves, |moves|)
    ensures forall i <- Exposed(e.Config(), e.Now()) ::
              exists k | 0 <= k < |moves| :: i in LetInBy(e.Config(), Scene(old(e.Now()), []), moves, k)
  {
    hide Inv, Moved, SafeThrough, NoneLetsIn, Exposed, LetInBy;
    ghost var c, s := e.Config(), Scene(e.Now(), []);
    InvIds(e.store.rows, e.store.ledger);
    jobs := Run(e, moves);
    GuaranteeIff(c, s, moves, |moves|);
    assert moves[..|moves|] == moves;
    forall i | i in Exposed(c, e.Now()) ensures exists k | 0 <= k < |moves| :: i in LetInBy(c, s, moves, k) {
      ExposedWasLetIn(c, s, moves, |moves|, i);
    }
  }

  lemma CoveredRowIsExposed(ps: seq<Pattern>, w: World, rows: Rows, i: nat)
    requires AllValid(ps) && i in rows && Live(rows[i])
    ensures CoveredRow(ps, w, rows[i]) ==> i in CoveredLive(ps, w, rows)
  {
    hide CoveredPair;
  }

  /** While the guarantee holds, a finding the table will show covered always opens an alert, unless a text
      contains the separator of the dedupe key. */
  lemma CoveredFindingOpens(ps: seq<Pattern>, w: World, rows: Rows, l: Ledger, f: Finding)
    requires AllValid(ps) && Inv(rows, l) && w.inet == l.inet && CoveredLive(ps, w, rows) == {} && CoveredOnceStored(ps, w, f)
    requires BarFree(f.rule) && BarFree(f.host) && BarFree(f.peer)
    requires forall i: nat | i < |l.folded| && l.folded[i] != [] ::
               BarFree(l.folded[i][0].rule) && BarFree(l.folded[i][0].host) && BarFree(l.folded[i][0].peer)
    ensures Opens(rows, f)
  {
    hide CoveredPair, DedupeKey, BarFree, Folded, FoldedCount, KeyCount, LiveUnique;
    var i := LiveOf(rows, DedupeKey(f));
    if i.Some? {
      CoveredRowIsExposed(ps, w, rows, i.value);
      assert Backed(l.inet, rows[i.value], l.folded[i.value]);
      DedupeKeyIff(l.folded[i.value][0], f);
    }
  }

  // ---- runs that break it ----

  lemma OneAdmitted(w: World, rule: string, severity: string, title: string, f: Finding)
    ensures Kept([], w, RuleRun(rule, severity, title, {}, [f])) == Some([Completed(rule, severity, title, f)])
  {
    var g := Completed(rule, severity, title, f);
    assert [f][..0] == [] && [g][..0] == [];
    assert Evaluated(rule, severity, title, {}, [f][..0]) == [];
    assert Evaluated(rule, severity, title, {}, [f]) == [g];
    NothingUncovered([], w, [g]);
  }

  lemma OwnAddressCovers(w: World, host: string, peer: string)
    requires w.Valid() && host in w.inet && host in w.parse
    ensures AllValid([Ip(Unmap(w.parse[host]))]) && CoveredPair([Ip(Unmap(w.parse[host]))], w, w.Shown(host), peer)
  {
    var p := Ip(Unmap(w.parse[host]));
    assert CoversAddr(p, Unmap(w.parse[host])) && p in [p];
    assert CoveredAddr([p], w.AddrOf(w.Shown(host)));
  }

  lemma StoredAfterwards(c: Setup, s: Scene, f: Finding)
    requires c.world.Valid() && f.host in c.world.inet && f.host in c.world.parse && Accepted(c.world.inet, f)
    requires s.now.patterns == [Ip(Unmap(c.world.parse[f.host]))] && s.now.rows == map[] && s.jobs == [Job([f], Raised([], [], true))]
    ensures AllValid(s.now.patterns) && MoveLetsIn(c, s, StoreNext(0, 0)) == {s.now.nextId}
  {
    OwnAddressCovers(c.world, f.host, c.world.Shown(f.peer));
    hide CoveredPair;
  }

  lemma ListedMeanwhile(c: Setup, s: Scene, a: Addr, t: Ticks)
    requires s.now.patterns == [] && s.now.rows == map[]
    ensures var s' := Moved(c, s, Whole(AddPattern(AddressText(a)), t));
            s'.now.patterns == [Ip(Unmap(a))] && s'.now.rows == map[] && s'.now.nextId == s.now.nextId && s'.jobs == s.jobs
  {
    hide CoveredLive;
  }

  lemma ThreeMoves(c: Setup, s: Scene, a: Move, b: Move, d: Move)
    requires AllValid(s.now.patterns)
    ensures MovedAll(c, s, [a]) == Moved(c, s, a)
    ensures MovedAll(c, s, [a, b]) == Moved(c, Moved(c, s, a), b)
    ensures MovedAll(c, s, [a, b, d]) == Moved(c, Moved(c, Moved(c, s, a), b), d)
  {
    hide Moved;
    assert [a][..0] == [] && [a, b][..1] == [a] && [a, b, d][..2] == [a, b];
    assert MovedAll(c, s, [a]) == Moved(c, s, a);
    assert MovedAll(c, s, [a, b]) == Moved(c, MovedAll(c, s, [a]), b);
    assert MovedAll(c, s, [a, b, d]) == Moved(c, MovedAll(c, s, [a, b]), d);
  }

  /** A run that breaks the guarantee: a rule run filters a finding against the list as it is, its host is
      put on the list, and then the finding is stored. */
  method StaleListLetsTrustedIn(e: Engine, rule: string, severity: string, title: string, f: Finding, t: Ticks)
    requires e.Valid() && e.patterns == [] && e.store.rows == map[] && f.host in e.world.inet && f.host in e.world.parse
    requires Accepted(e.world.inet, f) && |t.accepts| == e.dispatcher.channels
    modifies e, e.store, e.dispatcher
    ensures e.Valid() && e.Config() == old(e.Config())
    ensures old(e.store.nextId) in Exposed(e.Config(), e.Now())
  {
    hide Inv, CoveredPair, MoveLetsIn, Moved, Completed, Exposed, Kept;
    ghost var c, s := e.Config(), Scene(e.Now(), []);
    var first, second := BeginRun(RuleRun(rule, severity, title, {}, [f])), Whole(AddPattern(AddressText(e.world.parse[f.host])), t);
    var third := StoreNext(0, 0);
    var _ := Run(e, [first, second, third]);
    ThreeMoves(c, s, first, second, third);
    OneAdmitted(c.world, rule, severity, title, f);
    Begun(c, s, rule, severity, title, f);
    ListedMeanwhile(c, Moved(c, s, first), c.world.parse[f.host], t);
    CompletedAccepted(c.world, rule, severity, title, f);
    StoredAfterwards(c, Moved(c, Moved(c, s, first), second), Completed(rule, severity, title, f));
    MoveExposes(c, Moved(c, Moved(c, s, first), second), third);
  }

  lemma Begun(c: Setup, s: Scene, rule: string, severity: string, title: string, f: Finding)
    requires s.now.patterns == [] && s.jobs == [] && Kept([], c.world, RuleRun(rule, severity, title, {}, [f])) == Some([Completed(rule, severity, title, f)])
    ensures Moved(c, s, BeginRun(RuleRun(rule, severity, title, {}, [f])))
            == s.(jobs := [Job([Completed(rule, severity, title, f)], Raised([], [], true))])
  {
    hide Completed, Kept;
  }

  lemma CompletedAccepted(w: World, rule: string, severity: string, title: string, f: Finding)
    ensures Completed(rule, severity, title, f).host == f.host
    ensures Accepted(w.inet, f) ==> Accepted(w.inet, Completed(rule, severity, title, f))
  {
  }

  // ---- one alert that is spelled differently ----

  /** A name pattern covers an address by the text the database prints, and the finding spells it otherwise. */
  ghost predicate Misspelled(w: World, g: string, f: Finding) {
    && f.host in w.inet && w.Shown(f.host) != f.host && f.peer == "" && f.rule == "ids" && f.port <= 0
    && exists n <- w.NamesOf(w.Shown(f.host)) :: CoversName(Name(g), n)
  }

  lemma MisspelledIsCovered(w: World, g: string, f: Finding)
    requires Misspelled(w, g, f)
    ensures AllValid([Name(g)]) && CoveredOnceStored([Name(g)], w, f)
  {
    hide CoversName, CoveredAddr;
    var n :| n in w.NamesOf(w.Shown(f.host)) && CoversName(Name(g), n);
    assert Name(g) in [Name(g)];
    assert CoveredName([Name(g)], w.NamesOf(w.Shown(f.host)));
  }

  lemma NamelessTextPasses(w: World, g: string, t: string)
    requires w.NamesOf(t) == []
    ensures AllValid([Name(g)]) && !CoveredText([Name(g)], w, t)
  {
    hide CoversName;
  }

  lemma MisspelledIsAdmitted(w: World, g: string, f: Finding)
    requires w.Valid() && Misspelled(w, g, f)
    ensures AllValid([Name(g)]) && Accepted(w.inet, f)
    ensures Kept([Name(g)], w, IdsEvent(f, false, {})) == Some([f])
  {
    NamelessTextPasses(w, g, f.host);
    NamelessTextPasses(w, g, "");
    hide CoveredText, CoversName, Admitted;
    assert f.(rule := "ids") == f;
    AdmittedIs([Name(g)], w, [f]);
    IdsLetsThrough([Name(g)], w, IdsEvent(f, false, {}));
  }

  lemma MisspelledOpens(c: Setup, s: Moment, f: Finding, t: Ticks)
    requires AllValid(s.patterns) && s.rows == map[] && Kept(s.patterns, c.world, IdsEvent(f, false, {})) == Some([f])
    requires Accepted(c.world.inet, f) && CoveredOnceStored(s.patterns, c.world, f)
    ensures s.nextId in LetIn(c, s, IdsEvent(f, false, {}), t)
  {
    hide CoveredOnceStored, Kept, Accepted;
    assert [f][..0] == [];
    assert FoldAll(c.world.inet, s.rows, s.nextId, [f][..0], s.clock + t.toNow, c.gap) == Fold(map[], s.nextId, [], [], true);
  }

  /** One operation that lets a trusted address in, with nothing overlapping: the list trusts a name, and an IDS
      alert spells the address it is known for in another way than the database prints it. */
  method MisspelledAlertGetsIn(e: Engine, g: string, f: Finding, t: Ticks)
    requires e.Valid() && e.patterns == [Name(g)] && e.store.rows == map[] && Misspelled(e.world, g, f)
    requires |t.accepts| == e.dispatcher.channels
    modifies e, e.store, e.dispatcher
    ensures e.Valid() && e.Config() == old(e.Config())
    ensures old(e.store.nextId) in Exposed(e.Config(), e.Now())
  {
    hide Inv, CoveredOnceStored, Exposed, Misspelled, Kept, LetIn, After;
    ghost var c, s := e.Config(), e.Now();
    var _ := e.RaiseIDS(f, false, {}, t);
    MisspelledIsAdmitted(c.world, g, f);
    MisspelledIsCovered(c.world, g, f);
    MisspelledOpens(c, s, f, t);
    EventExposes(c, s, IdsEvent(f, false, {}), t);
  }

  const LONG := "0::1"
  const SHORT := "::1"

  /** One address, which the database prints shorter than it came, and a name known for it. */
  function OneName(): World {
    World(map[LONG := V6(1), SHORT := V6(1)], map[LONG := Inet(SHORT, 128), SHORT := Inet(SHORT, 128)], map[SHORT := ["a"]])
  }

  /** Such worlds exist. */
  lemma MisspelledExists()
    ensures OneName().Valid() && Misspelled(OneName(), "a", Finding("ids", SEV_CRITICAL, LONG, "", 0, "", "", "1"))
    ensures NormalizeExclusion(OtherText("a")) == Some(Name("a"))
  {
    var w, t := OneName(), "a";
    assert |LONG| == 4 && |SHORT| == 3;
    LetterA();
    assert t in w.NamesOf(SHORT) && CoversName(Name(t), t);
    hide CoversName, NormalizeExclusion;
  }

  lemma LetterA()
    ensures CoversName(Name("a"), "a") && NormalizeExclusion(OtherText("a")) == Some(Name("a"))
  {
    var t := "a";
    assert TrimSpace(t) == t && TrimDot(t) == t && ToLower(t) == t;
    assert GlobMatch(t[1..], t[1..]) && GlobMatch(t, t);
    assert t[0] in t && t[0] !in "*.";
    assert NamePattern(t);
  }
}
