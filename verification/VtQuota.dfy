/** The two VirusTotal lanes (internal/scheduler/scheduler.go, RunVTOnce and runFilesVT): they share one
    daily and one monthly budget, counted in the database (internal/db/queries.go, identity.go), behind
    one mutex, and retry failures with exponential backoff. */
module VtQuota {
  import opened Numbers
  import opened Options
  import opened Sets

  const DAY: int := 86400
  const HALF_HOUR: int := 1800

  datatype Lane = IpLane | FileLane
  datatype Key = Key(lane: Lane, text: string)
  datatype Status = Pending | Ok | Unknown | Failed

  /** vt_status, vt_attempts, vt_lookup_at of one ip_info or file_intel row. */
  datatype Rec = Rec(status: Status, attempts: nat, lookupAt: Option<int>)
  type Records = map<Key, Rec>

  /** Midnight, UTC. */
  function DayStart(t: int): (s: int)
    ensures s <= t < s + 86400 && s % 86400 == 0
  {
    t - t % DAY
  }

  /** Rows looked up at or after a moment. */
  function LookedUp(rs: Records, since: int): set<Key> {
    set k | k in rs && rs[k].lookupAt.Some? && rs[k].lookupAt.value >= since
  }

  function Used(rs: Records, since: int): nat {
    |LookedUp(rs, since)|
  }

  lemma UsedLater(rs: Records, a: int, b: int)
    requires a <= b
    ensures Used(rs, b) <= Used(rs, a)
  {
    var late, all := LookedUp(rs, b), LookedUp(rs, a);
    SubsetSize(late, all);
  }

  lemma UsedPut(rs: Records, k: Key, r: Rec, since: int)
    ensures Used(rs[k := r], since) <= Used(rs, since) + 1
  {
    var after, before := LookedUp(rs[k := r], since), LookedUp(rs, since);
    var rest := after - {k};
    SubsetSize(rest, before);
    SubsetSize(after, rest + {k});
  }

  // ---- candidates and backoff ----

  /** Thirty minutes, doubled per attempt up to six times. */
  function Backoff(attempts: nat): int {
    HALF_HOUR * Pow2(if attempts < 6 then attempts else 6)
  }

  /** VTCandidates and FileVTCandidates: never looked up, due for a refresh, or failed long enough ago. */
  predicate Candidate(rs: Records, k: Key, now: int, refreshAfter: int) {
    || k !in rs
    || rs[k].lookupAt == None
    || ((rs[k].status == Ok || (rs[k].status == Unknown && k.lane == FileLane)) && rs[k].lookupAt.value < now - refreshAfter)
    || (rs[k].status == Failed && rs[k].lookupAt.value < now - Backoff(rs[k].attempts))
  }

  /** A key never looked up is a candidate. One that was looked up successfully, or a file nobody knows, is one again
      when it is due for a refresh, a failed one when its backoff is over: half an hour, an hour, and so on up to
      32 hours, by the number of attempts. No other key is. */
  lemma CandidateIff(rs: Records, k: Key, now: int, refreshAfter: int)
    ensures k !in rs || rs[k].lookupAt == None ==> Candidate(rs, k, now, refreshAfter)
    ensures k in rs && rs[k].lookupAt.Some? ==>
              var since, n := now - rs[k].lookupAt.value, rs[k].attempts;
              Candidate(rs, k, now, refreshAfter) <==>
              match rs[k].status
              case Ok => since > refreshAfter
              case Unknown => since > refreshAfter && k.lane == FileLane
              case Pending => false
              case Failed => since > 1800 * (if n == 0 then 1 else if n == 1 then 2 else if n == 2 then 4 else if n == 3 then 8
                                             else if n == 4 then 16 else if n == 5 then 32 else 64)
  {
    assert Pow2(3) == 8 && Pow2(4) == 16 && Pow2(5) == 32 && Pow2(6) == 64;
  }

  /** UpsertVT and UpsertFileVT, as far as the schedule goes. */
  function Upserted(rs: Records, k: Key, status: Status, now: int): Rec {
    Rec(status, if k in rs then rs[k].attempts + 1 else 1, Some(now))
  }

  ghost predicate Distinct(ks: seq<Key>) {
    forall i, j | 0 <= i < j < |ks| :: ks[i] != ks[j]
  }

  // ---- histories ----

  datatype Past = Past(at: int, status: Status)

  function PastOf(hist: map<Key, seq<Past>>, k: Key): seq<Past> {
    if k in hist then hist[k] else []
  }

  /** Times of the lookups of one key, the first attempt being number 1. */
  ghost predicate BackedOff(times: seq<Past>) {
    forall i | 0 < i < |times| :: times[i - 1].status == Failed ==> times[i].at - times[i - 1].at > Backoff(i)
  }

  ghost predicate AllFailed(times: seq<Past>) {
    forall i | 0 <= i < |times| :: times[i].status == Failed
  }

  /** The retry bound: for a key that always fails, lookup n (2 to 7) comes more than 30 * (2^n - 2)
      minutes after the first. */
  lemma {:induction false} RetryBound(times: seq<Past>, n: nat)
    requires BackedOff(times) && AllFailed(times) && 2 <= n <= 7 && n <= |times|
    ensures times[n - 1].at - times[0].at > HALF_HOUR * (Pow2(n) - 2)
  {
    assert times[n - 1].at - times[n - 2].at > Backoff(n - 1);
    if n > 2 {
      RetryBound(times, n - 1);
    } else {
      assert Pow2(1) == 2;
    }
  }

  /** From the seventh lookup on, consecutive lookups are more than 1920 minutes apart. */
  lemma RetryPlateau(times: seq<Past>, n: nat)
    requires BackedOff(times) && AllFailed(times) && 7 <= n <= |times| && n >= 2
    ensures times[n - 1].at - times[n - 2].at > 1920 * 60
  {
    assert Pow2(6) == 64 by { assert Pow2(3) == 8; }
    assert times[n - 1].at - times[n - 2].at > Backoff(n - 1);
  }

  // ---- the lanes ----

  /** What the provider answers to one call. */
  datatype Outcome = QuotaExceeded | Answer(status: Status)

  /** One call to the provider, and whether its result reached the database. */
  datatype Call = Call(key: Key, at: int, stored: bool)

  function CallsSince(log: seq<Call>, since: int): nat {
    if log == [] then 0 else CallsSince(log[..|log| - 1], since) + if log[|log| - 1].at >= since then 1 else 0
  }

  /** Keys whose result was stored since a moment. */
  function StoredSince(log: seq<Call>, since: int): set<Key> {
    set c | c in log && c.stored && c.at >= since :: c.key
  }

  /** Calls since a moment that left no row of their own: refused or failed to store, or for a key already
      stored since then. */
  function Invisible(log: seq<Call>, since: int): nat {
    if log == [] then 0
    else
      var front, c := log[..|log| - 1], log[|log| - 1];
      Invisible(front, since) + if c.at >= since && (!c.stored || c.key in StoredSince(front, since)) then 1 else 0
  }

  lemma {:induction false} CallsAreSeenOrInvisible(log: seq<Call>, since: int)
    ensures CallsSince(log, since) == |StoredSince(log, since)| + Invisible(log, since)
  {
    if log != [] {
      var front, c := log[..|log| - 1], log[|log| - 1];
      CallsAreSeenOrInvisible(front, since);
      assert log == front + [c];
      if c.stored && c.at >= since {
        assert StoredSince(log, since) == StoredSince(front, since) + {c.key};
      } else {
        assert StoredSince(log, since) == StoredSince(front, since);
      }
    }
  }

  /** A key's row agrees with its history; keys not yet looked up carry no attempt. */
  ghost predicate Recorded(rs: Records, hist: map<Key, seq<Past>>, k: Key) {
    var past := PastOf(hist, k);
    && BackedOff(past)
    && (past == [] ==> k !in rs || (rs[k].attempts == 0 && rs[k].lookupAt == None))
    && (past != [] ==>
          && k in rs && rs[k].attempts == |past|
          && rs[k].status == past[|past| - 1].status && rs[k].lookupAt == Some(past[|past| - 1].at))
  }

  /** The stored calls of the log are in the rows, and what the rows say was looked up is in the log. */
  ghost predicate Logged(rs: Records, log: seq<Call>, now: int) {
    && (forall c <- log :: c.at <= now && (c.stored ==> c.key in rs && rs[c.key].lookupAt.Some? && rs[c.key].lookupAt.value >= c.at))
    && (forall k <- rs :: rs[k].lookupAt.Some? ==> Call(k, rs[k].lookupAt.value, true) in log)
  }

  class VtLanes {
    const dailyQuota: int
    const monthlyQuota: int // 0 or less: no monthly quota
    const ipBatch: nat
    const fileBatch: nat
    const ipRefresh: int
    const fileRefresh: int
    const monthStart: int -> int
    var records: Records
    var now: int
    var holder: Option<Lane> // vtQuota, the mutex
    var todo: seq<Key>
    ghost var selectedAt: int
    ghost var hist: map<Key, seq<Past>>
    ghost var log: seq<Call>

    ghost predicate Calendar()
    {
      forall s: int, t: int :: s <= t ==> monthStart(s) <= monthStart(t)
    }

    /** Both counters, plus what the running pass may still use up, stay within their quotas. */
    ghost predicate WithinQuota()
      reads this
    {
      && Used(records, DayStart(now)) + |todo| <= dailyQuota
      && (monthlyQuota > 0 ==> Used(records, monthStart(now)) + |todo| <= monthlyQuota)
    }

    function RefreshOf(lane: Lane): (r: int)
      ensures lane == IpLane ==> r == ipRefresh
      ensures lane == FileLane ==> r == fileRefresh
    {
      if lane == IpLane then ipRefresh else fileRefresh
    }

    ghost predicate Valid()
      reads this
    {
      && Calendar() && WithinQuota() && Logged(records, log, now)
      && (holder == None ==> todo == [])
      && selectedAt <= now
      && Distinct(todo)
      && (holder.Some? ==> forall k <- todo :: k.lane == holder.value && Candidate(records, k, selectedAt, RefreshOf(k.lane)))
      && (forall k: Key :: Recorded(records, hist, k))
    }

    /** Starts with rows that were never looked up. */
    constructor (daily: int, monthly: int, ipBatch: nat, fileBatch: nat, ipRefresh: int, fileRefresh: int, monthStart: int -> int,
                 rows: Records, now: int)
      requires daily >= 0 && forall s: int, t: int :: s <= t ==> monthStart(s) <= monthStart(t)
      requires forall k <- rows :: rows[k].attempts == 0 && rows[k].lookupAt == None
      ensures Valid() && records == rows && holder == None && hist == map[] && log == []
      ensures dailyQuota == daily && monthlyQuota == monthly && this.monthStart == monthStart && this.now == now
      ensures this.ipBatch == ipBatch && this.fileBatch == fileBatch && this.ipRefresh == ipRefresh && this.fileRefresh == fileRefresh
    {
      dailyQuota, monthlyQuota, this.ipBatch, this.fileBatch := daily, monthly, ipBatch, fileBatch;
      this.ipRefresh, this.fileRefresh, this.monthStart := ipRefresh, fileRefresh, monthStart;
      records, this.now, holder, todo := rows, now, None, [];
      selectedAt, hist, log := now, map[], [];
      new;
      assert LookedUp(records, DayStart(now)) == {} && LookedUp(records, monthStart(now)) == {};
    }

    /** Time passes, possibly across midnight or the end of the month. */
    method Tick(d: nat)
      requires Valid()
      modifies this`now
      ensures Valid() && now == old(now) + d
    {
      UsedLater(records, DayStart(now), DayStart(now + d));
      UsedLater(records, monthStart(now), monthStart(now + d));
      now := now + d;
    }

    /** What is left of both quotas, as a pass computes it. */
    function Budget(): (b: int)
      reads this
      ensures b <= dailyQuota - Used(records, DayStart(now))
      ensures monthlyQuota > 0 ==> b <= monthlyQuota - Used(records, monthStart(now))
      ensures b == dailyQuota - Used(records, DayStart(now)) || (monthlyQuota > 0 && b == monthlyQuota - Used(records, monthStart(now)))
    {
      var daily := dailyQuota - Used(records, DayStart(now));
      var monthly := monthlyQuota - Used(records, monthStart(now));
      if monthlyQuota > 0 && monthly < daily then monthly else daily
    }

    /** The candidates of one lane among some keys, each once, in order. */
    method Choose(lane: Lane, keys: seq<Key>) returns (r: seq<Key>)
      ensures Distinct(r)
      ensures forall k <- r :: k in keys && k.lane == lane && Candidate(records, k, now, RefreshOf(lane))
      ensures forall k <- keys :: k.lane == lane && Candidate(records, k, now, RefreshOf(lane)) ==> k in r
    {
      r := [];
      for i := 0 to |keys|
        invariant Distinct(r)
        invariant forall k <- r :: k in keys && k.lane == lane && Candidate(records, k, now, RefreshOf(lane))
        invariant forall j | 0 <= j < i :: keys[j].lane == lane && Candidate(records, keys[j], now, RefreshOf(lane)) ==> keys[j] in r
      {
        if keys[i].lane == lane && keys[i] !in r && Candidate(records, keys[i], now, RefreshOf(lane)) {
          r := r + [keys[i]];
        }
      }
    }

    /** How many candidates a pass takes: min(batch, what is left of both quotas, what there is). */
    function Chosen(lane: Lane, budget: int, candidates: nat): (n: nat)
      ensures n <= candidates && (n > 0 ==> n <= budget) && n <= if lane == IpLane then ipBatch else fileBatch
      ensures n == candidates || n >= budget || n == if lane == IpLane then ipBatch else fileBatch
    {
      var batch := if lane == IpLane then ipBatch else fileBatch;
      if budget <= 0 then 0
      else if batch <= budget && batch <= candidates then batch
      else if budget <= candidates then budget
      else candidates
    }

    /** A pass takes the mutex, reads the counters and picks its candidates. `ranked` is the candidate
        query's answer in its order; a pass that finds the mutex taken waits. */
    method Begin(lane: Lane, ranked: seq<Key>) returns (entered: bool)
      requires Valid() && Distinct(ranked)
      requires forall k <- ranked :: k.lane == lane && Candidate(records, k, now, RefreshOf(lane))
      modifies this`holder, this`todo, this`selectedAt
      ensures Valid()
      ensures entered <==> old(holder) == None
      ensures !entered ==> holder == old(holder) && todo == old(todo)
      ensures entered ==> todo == ranked[..Chosen(lane, old(Budget()), |ranked|)] && holder == if todo == [] then None else Some(lane)
    {
      if holder.Some? {
        return false;
      }
      entered := true;
      var budget := Budget();
      if budget <= 0 {
        return;
      }
      var limit := if lane == IpLane then ipBatch else fileBatch;
      if limit > budget {
        limit := budget;
      }
      if limit > |ranked| { // the candidate query's LIMIT
        limit := |ranked|;
      }
      if limit == 0 {
        return;
      }
      holder, todo, selectedAt := Some(lane), ranked[..limit], now;
    }

    /** The running pass's next lookup. A refused call leaves the key's row alone and ends the pass. */
    method Lookup(outcome: Outcome, storeOk: bool)
      requires Valid() && todo != []
      modifies this`records, this`holder, this`todo, this`hist, this`log
      ensures Valid() && (holder == None || holder == old(holder))
      ensures log == old(log) + [Call(old(todo)[0], now, outcome.Answer? && storeOk)]
      ensures |todo| < |old(todo)|
      ensures outcome == QuotaExceeded ==> records == old(records) && todo == [] && holder == None
      ensures outcome.Answer? ==> todo == old(todo)[1..] && (holder == None <==> todo == [])
      ensures records == if outcome.Answer? && storeOk
                         then old(records)[old(todo)[0] := Upserted(old(records), old(todo)[0], outcome.status, now)] else old(records)
      ensures hist == if outcome.Answer? && storeOk
                      then old(hist)[old(todo)[0] := PastOf(old(hist), old(todo)[0]) + [Past(now, outcome.status)]] else old(hist)
    {
      hide Candidate;
      hide Recorded;
      hide Logged;
      var k := todo[0];
      assert todo[0] in todo;
      var stored := outcome.Answer? && storeOk;
      if stored {
        Save(k, outcome.status);
      } else {
        LoggedStep(records, log, k, Failed, now, false);
      }
      log := log + [Call(k, now, stored)];
      if outcome == QuotaExceeded || |todo| == 1 {
        holder, todo := None, [];
      } else {
        todo := todo[1..];
      }
    }

    /** The result of the lookup in front is written to its row. */
    method Save(k: Key, status: Status)
      requires Valid() && todo != [] && k == todo[0]
      modifies this`records, this`hist
      ensures records == old(records)[k := Upserted(old(records), k, status, now)]
      ensures hist == old(hist)[k := PastOf(old(hist), k) + [Past(now, status)]]
      ensures Used(records, DayStart(now)) <= Used(old(records), DayStart(now)) + 1
      ensures Used(records, monthStart(now)) <= Used(old(records), monthStart(now)) + 1
      ensures Logged(records, log + [Call(k, now, true)], now)
      ensures forall q <- todo[1..] :: q.lane == holder.value && Candidate(records, q, selectedAt, RefreshOf(q.lane))
      ensures Distinct(todo[1..])
      ensures forall q: Key :: Recorded(records, hist, q)
    {
      assert k in todo;
      var r := Upserted(records, k, status, now);
      UsedPut(records, k, r, DayStart(now));
      UsedPut(records, k, r, monthStart(now));
      LoggedStep(records, log, k, status, now, true);
      StillCandidates(records, todo, r, selectedAt, RefreshOf(holder.value));
      assert Recorded(records, hist, k);
      BackoffKept(PastOf(hist, k), records, k, selectedAt, RefreshOf(k.lane), now, status);
      ghost var hist' := hist[k := PastOf(hist, k) + [Past(now, status)]];
      RecordedStep(records, hist, k, status, now, records[k := r], hist');
      hide Recorded;
      hide Candidate;
      hide Logged;
      assert forall q <- todo[1..] :: q in todo;
      records := records[k := r];
      hist := hist';
    }

    /** The pass is cancelled. */
    method Cancel()
      requires Valid()
      modifies this`holder, this`todo
      ensures Valid() && holder == None && todo == []
    {
      holder, todo := None, [];
    }

    /** RunVTOnce and runFilesVT, undisturbed: at most min(batch, daily left, monthly left) calls, spread
        over any pauses, stopping at the first refusal or when cancelled. */
    method RunPass(lane: Lane, ranked: seq<Key>, answers: seq<(Outcome, bool, nat)>) returns (attempted: nat)
      requires Valid() && holder == None && Distinct(ranked)
      requires forall k <- ranked :: k.lane == lane && Candidate(records, k, now, RefreshOf(lane))
      modifies this
      ensures Valid() && holder == None
      ensures |log| == |old(log)| + attempted && old(log) <= log
      ensures attempted == Attempts(answers, Chosen(lane, old(Budget()), |ranked|))
      ensures forall i | 0 <= i < attempted :: i < |ranked| && log[|old(log)| + i].key == ranked[i]
    {
      hide Candidate, Recorded, Logged, Distinct, Attempts, Upserted, PastOf, VtLanes.Valid, VtLanes.Chosen, VtLanes.Budget, VtLanes.WithinQuota;
      var _ := Begin(lane, ranked);
      NoAttempts(answers);
      ghost var chosen := todo;
      attempted := 0;
      assert answers[0..] == answers;
      while todo != [] && attempted < |answers|
        invariant Valid() && old(log) <= log && |log| == |old(log)| + attempted
        invariant attempted + |todo| <= |chosen| && (todo != [] ==> todo == chosen[attempted..])
        invariant attempted <= |answers| && Attempts(answers, |chosen|) == attempted + Attempts(answers[attempted..], |todo|)
        invariant forall i | 0 <= i < attempted :: log[|old(log)| + i].key == chosen[i]
        decreases |todo|
      {
        var (outcome, storeOk, pause) := answers[attempted];
        AttemptsStep(answers, attempted, |todo|);
        Lookup(outcome, storeOk);
        attempted := attempted + 1;
        Tick(pause);
      }
      AttemptsEnd(answers, attempted, |todo|);
      Cancel();
    }
  }

  /** Calls a pass with n candidates makes: one after another up to the first refusal, or until it is
      cancelled, which is where the answers end. */
  function Attempts(answers: seq<(Outcome, bool, nat)>, n: nat): (r: nat)
    ensures r <= n && r <= |answers|
    ensures forall i | 0 <= i < r - 1 :: answers[i].0.Answer?
    ensures r < n && r < |answers| ==> r > 0 && answers[r - 1].0.QuotaExceeded?
  {
    if n == 0 || answers == [] then 0
    else if answers[0].0.QuotaExceeded? then 1
    else 1 + Attempts(answers[1..], n - 1)
  }

  lemma NoAttempts(answers: seq<(Outcome, bool, nat)>)
    ensures Attempts(answers, 0) == 0
  {
  }

  lemma AttemptsStep(answers: seq<(Outcome, bool, nat)>, k: nat, n: nat)
    requires k < |answers| && n > 0
    ensures Attempts(answers[k..], n) == if answers[k].0.QuotaExceeded? then 1 else 1 + Attempts(answers[k + 1..], n - 1)
    ensures Attempts(answers[k + 1..], 0) == 0
  {
    assert answers[k..][1..] == answers[k + 1..];
  }

  lemma AttemptsEnd(answers: seq<(Outcome, bool, nat)>, k: nat, n: nat)
    requires k <= |answers| && (n == 0 || k == |answers|)
    ensures Attempts(answers[k..], n) == 0
  {
  }

  lemma RecordedStep(rs: Records, hist: map<Key, seq<Past>>, k: Key, status: Status, now: int, rs': Records, hist': map<Key, seq<Past>>)
    requires forall q: Key :: Recorded(rs, hist, q)
    requires BackedOff(PastOf(hist, k) + [Past(now, status)])
    requires rs' == rs[k := Upserted(rs, k, status, now)] && hist' == hist[k := PastOf(hist, k) + [Past(now, status)]]
    ensures forall q: Key :: Recorded(rs', hist', q)
  {
    hide BackedOff;
    forall q: Key ensures Recorded(rs', hist', q) {
      assert Recorded(rs, hist, q);
    }
  }

  lemma LoggedStep(rs: Records, log: seq<Call>, k: Key, status: Status, now: int, stored: bool)
    requires Logged(rs, log, now)
    ensures Logged(if stored then rs[k := Upserted(rs, k, status, now)] else rs, log + [Call(k, now, stored)], now)
  {
  }

  /** The candidates behind the one just looked up are still candidates. */
  lemma StillCandidates(rs: Records, todo: seq<Key>, r: Rec, at: int, refreshAfter: int)
    requires todo != [] && Distinct(todo) && forall k <- todo :: Candidate(rs, k, at, refreshAfter)
    ensures forall k <- todo[1..] :: Candidate(rs[todo[0] := r], k, at, refreshAfter)
    ensures Distinct(todo[1..])
  {
    hide Backoff;
    forall k | k in todo[1..] ensures Candidate(rs[todo[0] := r], k, at, refreshAfter) {
      assert k in todo;
      assert k != todo[0];
    }
  }

  /** A lookup that follows a failed one comes later than the backoff. */
  lemma BackoffKept(past: seq<Past>, rs: Records, k: Key, selectedAt: int, refreshAfter: int, now: int, status: Status)
    requires BackedOff(past) && Candidate(rs, k, selectedAt, refreshAfter) && selectedAt <= now
    requires past != [] ==>
               k in rs && rs[k].attempts == |past| && rs[k].status == past[|past| - 1].status && rs[k].lookupAt == Some(past[|past| - 1].at)
    ensures BackedOff(past + [Past(now, status)])
  {
    hide Backoff;
  }

  /** The rows counted since a moment are those of the keys stored since then. */
  lemma StoredAreUsed(rs: Records, log: seq<Call>, now: int, since: int)
    requires Logged(rs, log, now)
    ensures |StoredSince(log, since)| == Used(rs, since)
  {
    assert StoredSince(log, since) == LookedUp(rs, since);
  }

  /** What the two lanes and the clock do, in any order. */
  datatype Event = BeginPass(lane: Lane, ranked: seq<Key>)
                 | NextLookup(outcome: Outcome, storeOk: bool)
                 | CancelPass
                 | TimePasses(d: nat)

  /** Any interleaving of the two lanes, across midnights and month ends: the counters never exceed the
      quotas, the calls really made in a day or a month exceed its quota by no more than the calls the
      counter cannot see, and every key's lookups keep the backoff. Steps that are not possible when their turn
      comes, such as a lookup without a running pass, wait. */
  method Run(v: VtLanes, events: seq<Event>)
    requires v.Valid()
    modifies v
    ensures v.Valid()
    ensures Used(v.records, DayStart(v.now)) <= v.dailyQuota
    ensures v.monthlyQuota > 0 ==> Used(v.records, v.monthStart(v.now)) <= v.monthlyQuota
    ensures CallsSince(v.log, DayStart(v.now)) == Used(v.records, DayStart(v.now)) + Invisible(v.log, DayStart(v.now))
    ensures CallsSince(v.log, v.monthStart(v.now)) == Used(v.records, v.monthStart(v.now)) + Invisible(v.log, v.monthStart(v.now))
    ensures CallsSince(v.log, DayStart(v.now)) <= v.dailyQuota + Invisible(v.log, DayStart(v.now))
    ensures v.monthlyQuota > 0 ==>
              CallsSince(v.log, v.monthStart(v.now)) <= v.monthlyQuota + Invisible(v.log, v.monthStart(v.now))
    ensures old(v.log) <= v.log && forall k: Key :: PastOf(old(v.hist), k) <= PastOf(v.hist, k)
    ensures forall k: Key :: BackedOff(PastOf(v.hist, k))
  {
    for i := 0 to |events|
      invariant v.Valid() && old(v.log) <= v.log && forall k: Key :: PastOf(old(v.hist), k) <= PastOf(v.hist, k)
    {
      match events[i]
      case BeginPass(lane, ranked) =>
        var picked := v.Choose(lane, ranked);
        var _ := v.Begin(lane, picked);
      case NextLookup(outcome, storeOk) =>
        if v.todo != [] {
          v.Lookup(outcome, storeOk);
        }
      case CancelPass => v.Cancel();
      case TimePasses(d) => v.Tick(d);
    }
    CallsAreSeenOrInvisible(v.log, DayStart(v.now));
    StoredAreUsed(v.records, v.log, v.now, DayStart(v.now));
    CallsAreSeenOrInvisible(v.log, v.monthStart(v.now));
    StoredAreUsed(v.records, v.log, v.now, v.monthStart(v.now));
    forall k: Key ensures BackedOff(PastOf(v.hist, k)) {
      assert Recorded(v.records, v.hist, k);
    }
  }

  lemma {:induction false} AllSince(log: seq<Call>, since: int)
    requires forall c <- log :: c.at >= since
    ensures CallsSince(log, since) == |log|
  {
    if log != [] {
      AllSince(log[..|log| - 1], since);
    }
  }

  /** The excess is real and has no bound: with both quotas at one, n passes in which the answer cannot be
      stored make n calls, all for the same key and at the same moment, and both counters still read zero. */
  method CallsPastQuota(n: nat) returns (v: VtLanes)
    ensures fresh(v) && v.Valid() && v.dailyQuota == 1 && v.monthlyQuota == 1
    ensures CallsSince(v.log, DayStart(v.now)) == n && CallsSince(v.log, v.monthStart(v.now)) == n
    ensures Used(v.records, DayStart(v.now)) == 0 && Used(v.records, v.monthStart(v.now)) == 0
    ensures forall c <- v.log :: c == Call(Key(IpLane, ""), v.now, false)
  {
    hide VtLanes.Valid;
    v := new VtLanes(1, 1, 1, 1, 0, 0, _ => 0, map[], 0);
    var k := Key(IpLane, "");
    assert LookedUp(map[], 0) == {};
    for i := 0 to n
      invariant fresh(v) && v.Valid() && v.holder == None && v.records == map[] && v.now == 0
      invariant |v.log| == i && forall c <- v.log :: c == Call(k, 0, false)
    {
      var _ := v.Begin(IpLane, [k]);
      assert v.todo == [k] by { assert |[k]| == 1 && v.Budget() == 1; }
      v.Lookup(Answer(Ok), false);
    }
    AllSince(v.log, 0);
  }
}
