/** Brute-force protection (internal/auth/auth.go, Login and maybeLock; internal/db/auth.go): a gate that
    counts recent failures per address, and temporary blocks that never touch what an administrator
    entered. Logins may overlap: a request passes the gate first and records its outcome later. */
module Login {
  import opened Address
  import opened Options
  import opened Sets
  import Exclusions

  // ---- attempts ----

  datatype Outcome = LockedOut | BadCredentials | Disabled | Success

  /** One outcome of a login. `stored`: its row reached login_attempts; errors there are ignored. */
  datatype Attempt = Attempt(request: nat, ip: Option<Addr>, at: int, outcome: Outcome, stored: bool)

  /** Reached the password check and failed. */
  predicate CheckFailed(a: Attempt) {
    a.outcome == BadCredentials || a.outcome == Disabled
  }

  function FailuresSince(log: seq<Attempt>, ip: Addr, since: int): set<nat> {
    set i: nat | i < |log| && log[i].stored && log[i].ip == Some(ip) && log[i].outcome != Success && log[i].at > since
  }

  /** RecentFailures: rows strictly younger than the window, locked-out ones included. */
  function RecentFailures(log: seq<Attempt>, ip: Addr, now: int, window: int): nat {
    |FailuresSince(log, ip, now - window)|
  }

  /** What counts: every stored outcome but a success, of the address itself, strictly younger than the window. A
      refusal at the gate counts like a failed check. */
  lemma RecentFailuresCount(log: seq<Attempt>, a: Attempt, ip: Addr, now: int, window: int)
    ensures RecentFailures([], ip, now, window) == 0
    ensures RecentFailures(log + [a], ip, now, window) == RecentFailures(log, ip, now, window)
            + if a.stored && a.ip == Some(ip) && a.outcome in {LockedOut, BadCredentials, Disabled} && now - a.at < window then 1 else 0
  {
    assert FailuresSince([], ip, now - window) == {};
    var s, s' := FailuresSince(log, ip, now - window), FailuresSince(log + [a], ip, now - window);
    forall i: nat ensures i in s' <==> i in s || (i == |log| && i in s') {
      assert i < |log| ==> (log + [a])[i] == log[i];
    }
    assert s' == if |log| in s' then s + {|log|} else s;
  }

  /** Failed checks of an address later than a and no later than a + window. */
  function FailedChecks(log: seq<Attempt>, ip: Addr, a: int, window: int): set<nat> {
    set i: nat | i < |log| && CheckFailed(log[i]) && log[i].ip == Some(ip) && a < log[i].at <= a + window
  }

  /** Those among them whose row was lost. */
  function LostChecks(log: seq<Attempt>, ip: Addr, a: int, window: int): set<nat> {
    set i <- FailedChecks(log, ip, a, window) | !log[i].stored
  }

  // ---- overlapping requests ----

  /** What held when a request reached the gate: how many attempts were on record, and which requests of
      the same address were between the gate and their outcome, itself included. */
  datatype Gate = Gate(ip: Option<Addr>, at: int, seen: nat, flying: set<nat>, passed: bool)

  ghost predicate Recorded(log: seq<Attempt>, gates: seq<Gate>, now: int) {
    && (forall i | 0 <= i < |log| ::
          var a := log[i];
          && a.request < |gates| && a.at <= now
          && gates[a.request].ip == a.ip && gates[a.request].seen <= i && gates[a.request].at <= a.at
          && (CheckFailed(a) ==> gates[a.request].passed))
    && (forall i, j | 0 <= i < j < |log| :: log[i].request != log[j].request)
    && (forall g <- gates :: g.at <= now)
  }

  /** Every request that passed the gate had seen fewer failures than the limit. */
  ghost predicate Gated(log: seq<Attempt>, gates: seq<Gate>, window: int, limit: int) {
    forall t | 0 <= t < |gates| ::
      && gates[t].seen <= |log|
      && (gates[t].passed && gates[t].ip.Some? ==> RecentFailures(log[..gates[t].seen], gates[t].ip.value, gates[t].at, window) < limit)
  }

  /** A check recorded after some gate, of a request that came no later, was in flight at that gate. */
  ghost predicate Overlapped(log: seq<Attempt>, gates: seq<Gate>) {
    forall t, i | 0 <= t < |gates| && 0 <= i < |log| ::
      gates[t].seen <= i && log[i].request <= t && CheckFailed(log[i]) && log[i].ip == gates[t].ip ==> log[i].request in gates[t].flying
  }

  ghost predicate Flying(log: seq<Attempt>, gates: seq<Gate>, inFlight: map<nat, Option<Addr>>) {
    && (forall r <- inFlight :: r < |gates| && gates[r].ip == inFlight[r] && gates[r].passed && gates[r].seen <= |log|)
    && (forall r <- inFlight, i | 0 <= i < |log| :: log[i].request != r)
    && (forall r <- inFlight, t | r <= t < |gates| :: gates[t].ip == inFlight[r] ==> r in gates[t].flying)
  }

  ghost predicate Sound(log: seq<Attempt>, gates: seq<Gate>, inFlight: map<nat, Option<Addr>>, now: int, window: int, limit: int) {
    && Recorded(log, gates, now) && Gated(log, gates, window, limit)
    && Overlapped(log, gates) && Flying(log, gates, inFlight)
  }

  function SameAddress(inFlight: map<nat, Option<Addr>>, ip: Option<Addr>): set<nat> {
    set r <- inFlight | inFlight[r] == ip
  }

  /** The history entry of a request that reaches the gate now. */
  function Arrival(log: seq<Attempt>, gates: seq<Gate>, inFlight: map<nat, Option<Addr>>, now: int, ip: Option<Addr>, passed: bool): Gate {
    Gate(ip, now, |log|, SameAddress(inFlight, ip) + {|gates|}, passed)
  }

  lemma EnterStep(log: seq<Attempt>, gates: seq<Gate>, inFlight: map<nat, Option<Addr>>, now: int, window: int, limit: int,
                  ip: Option<Addr>, passed: bool)
    requires Sound(log, gates, inFlight, now, window, limit)
    requires passed && ip.Some? ==> RecentFailures(log, ip.value, now, window) < limit
    ensures var gates' := gates + [Arrival(log, gates, inFlight, now, ip, passed)];
            Sound(log, gates', if passed then inFlight[|gates| := ip] else inFlight, now, window, limit)
    ensures |gates| !in inFlight && forall i | 0 <= i < |log| :: log[i].request != |gates|
  {
    var g := Arrival(log, gates, inFlight, now, ip, passed);
    assert Recorded(log, gates + [g], now) by { hide RecentFailures, Gated, Overlapped, Flying; }
    assert Overlapped(log, gates + [g]) by { hide RecentFailures, Gated, Flying; }
    assert Flying(log, gates + [g], if passed then inFlight[|gates| := ip] else inFlight) by { hide RecentFailures, Gated, Overlapped; }
    hide RecentFailures, Overlapped, Flying;
    EnterGated(log, gates, window, limit, g);
  }

  lemma EnterGated(log: seq<Attempt>, gates: seq<Gate>, window: int, limit: int, g: Gate)
    requires Gated(log, gates, window, limit) && g.seen == |log|
    requires g.passed && g.ip.Some? ==> RecentFailures(log, g.ip.value, g.at, window) < limit
    ensures Gated(log, gates + [g], window, limit)
  {
    hide RecentFailures;
    assert log[..|log|] == log;
  }

  /** A request whose outcome is decided leaves the flight, and may be recorded. */
  lemma LeaveStep(log: seq<Attempt>, gates: seq<Gate>, inFlight: map<nat, Option<Addr>>, now: int, window: int, limit: int, request: nat)
    requires Sound(log, gates, inFlight, now, window, limit) && request in inFlight
    ensures Sound(log, gates, inFlight - {request}, now, window, limit)
    ensures request < |gates| && gates[request].passed && gates[request].ip == inFlight[request]
    ensures forall i | 0 <= i < |log| :: log[i].request != request
    ensures forall t | request <= t < |gates| :: gates[t].ip == gates[request].ip ==> request in gates[t].flying
  {
    hide RecentFailures, Recorded, Gated, Overlapped;
  }

  lemma RecordStep(log: seq<Attempt>, gates: seq<Gate>, inFlight: map<nat, Option<Addr>>, now: int, window: int, limit: int, a: Attempt)
    requires Sound(log, gates, inFlight, now, window, limit)
    requires a.request < |gates| && a.request !in inFlight && a.at == now && a.ip == gates[a.request].ip
    requires forall i | 0 <= i < |log| :: log[i].request != a.request
    requires CheckFailed(a) ==> gates[a.request].passed
    requires CheckFailed(a) ==> forall t | a.request <= t < |gates| :: gates[t].ip == a.ip ==> a.request in gates[t].flying
    ensures Sound(log + [a], gates, inFlight, now, window, limit)
  {
    assert gates[a.request] in gates;
    assert Gated(log + [a], gates, window, limit) by {
      hide RecentFailures;
      forall t | 0 <= t < |gates| ensures (log + [a])[..gates[t].seen] == log[..gates[t].seen] {
      }
    }
    assert Recorded(log + [a], gates, now);
    assert Overlapped(log + [a], gates);
    assert Flying(log + [a], gates, inFlight);
  }

  /** At most c requests of an address were ever in flight at once. */
  ghost predicate AtMostInFlight(gates: seq<Gate>, ip: Addr, c: nat) {
    forall t | 0 <= t < |gates| :: gates[t].ip == Some(ip) ==> |gates[t].flying| <= c
  }

  lemma {:induction false} LatestRequest(log: seq<Attempt>, s: set<nat>) returns (m: nat)
    requires s != {} && forall i <- s :: i < |log|
    ensures m in s && forall i <- s :: log[i].request <= log[m].request
  {
    var x :| x in s;
    if s == {x} {
      m := x;
    } else {
      var rest := s - {x};
      assert s == rest + {x};
      var y := LatestRequest(log, rest);
      m := if log[y].request < log[x].request then x else y;
    }
  }

  lemma {:induction false} RequestsSize(log: seq<Attempt>, s: set<nat>, into: set<nat>)
    requires forall i <- s :: i < |log| && log[i].request in into
    requires forall i <- s, j <- s | i != j :: log[i].request != log[j].request
    ensures |s| <= |into|
  {
    if s != {} {
      var x :| x in s;
      var r := log[x].request;
      RequestsSize(log, s - {x}, into - {r});
    }
  }

  lemma UnionSize<T>(all: set<T>, a: set<T>, b: set<T>, c: set<T>)
    requires all <= a + b + c
    ensures |all| <= |a| + |b| + |c|
  {
    SubsetSize(all, a + b + c);
  }

  /** Seen from the gate of request t, every failed check of a window that t's own failure falls in was
      counted there, was lost, or was recorded later. */
  lemma SeenLostOrLate(log: seq<Attempt>, gates: seq<Gate>, now: int, window: int, ip: Addr, a: int, m: nat)
    requires Recorded(log, gates, now) && m in FailedChecks(log, ip, a, window) && m < |log| && log[m].request < |gates|
    requires gates[log[m].request].seen <= |log|
    ensures var g := gates[log[m].request];
            FailedChecks(log, ip, a, window)
            <= FailuresSince(log[..g.seen], ip, g.at - window) + LostChecks(log, ip, a, window) + Late(log, ip, a, window, g.seen)
  {
    var g := gates[log[m].request];
    assert g.at - window <= log[m].at - window <= a;
  }

  lemma FailedChecksInLog(log: seq<Attempt>, ip: Addr, a: int, window: int)
    ensures forall i <- FailedChecks(log, ip, a, window) :: i < |log|
  {
  }

  lemma GateSaw(log: seq<Attempt>, gates: seq<Gate>, now: int, window: int, limit: int, ip: Addr, a: int, m: nat)
    requires Recorded(log, gates, now) && Gated(log, gates, window, limit) && m in FailedChecks(log, ip, a, window)
    ensures m < |log| && log[m].request < |gates|
    ensures var g := gates[log[m].request];
            g.ip == Some(ip) && g.seen <= |log| && |FailuresSince(log[..g.seen], ip, g.at - window)| < limit
  {
  }

  function Late(log: seq<Attempt>, ip: Addr, a: int, window: int, seen: nat): set<nat> {
    set i <- FailedChecks(log, ip, a, window) | i >= seen
  }

  lemma LateOverlapped(log: seq<Attempt>, gates: seq<Gate>, now: int, window: int, ip: Addr, a: int, m: nat)
    requires Recorded(log, gates, now) && Overlapped(log, gates) && m in FailedChecks(log, ip, a, window)
    requires m < |log| && log[m].request < |gates|
    requires forall i <- FailedChecks(log, ip, a, window) :: i < |log|
    requires forall i <- FailedChecks(log, ip, a, window) :: log[i].request <= log[m].request
    ensures |Late(log, ip, a, window, gates[log[m].request].seen)| <= |gates[log[m].request].flying|
  {
    RequestsSize(log, Late(log, ip, a, window, gates[log[m].request].seen), gates[log[m].request].flying);
  }

  /** The window bound: with at most c overlapping requests of an address, any window of the configured
      length holds at most limit + c - 1 failed checks, plus those whose row was lost; none at all when the
      limit is not positive. */
  lemma WindowBound(log: seq<Attempt>, gates: seq<Gate>, now: int, window: int, limit: int, ip: Addr, a: int, c: nat)
    requires Recorded(log, gates, now) && Gated(log, gates, window, limit) && Overlapped(log, gates)
    requires AtMostInFlight(gates, ip, c)
    ensures Bounded(log, ip, a, window, limit, c)
  {
    hide FailuresSince;
    hide FailedChecks;
    hide LostChecks;
    hide Recorded;
    hide Gated;
    hide Overlapped;
    hide Late;
    var all := FailedChecks(log, ip, a, window);
    if all != {} {
      FailedChecksInLog(log, ip, a, window);
      var m := LatestRequest(log, all);
      GateSaw(log, gates, now, window, limit, ip, a, m);
      var g := gates[log[m].request];
      SeenLostOrLate(log, gates, now, window, ip, a, m);
      LateOverlapped(log, gates, now, window, ip, a, m);
      UnionSize(all, FailuresSince(log[..g.seen], ip, g.at - window), LostChecks(log, ip, a, window), Late(log, ip, a, window, g.seen));
    }
  }

  /** The window bound as a predicate on a log. */
  ghost predicate Bounded(log: seq<Attempt>, ip: Addr, a: int, window: int, limit: int, c: nat) {
    if limit <= 0 then FailedChecks(log, ip, a, window) == {}
    else c > 0 ==> |FailedChecks(log, ip, a, window)| <= limit + c - 1 + |LostChecks(log, ip, a, window)|
  }

  // ---- addresses and access rules ----

  type Net = p: Exclusions.Prefix | p.Valid() witness Exclusions.Prefix(V4(0), 0)

  /** One ip_access row: allow or deny, entered by an administrator or by a lockout. */
  datatype Rule = Rule(allow: bool, auto: bool, expires: Option<int>)
  type Access = map<Net, Rule>

  /** What an administrator enters for a network. */
  datatype Entry = Entry(allow: bool, expires: Option<int>)

  function Host(ip: Addr): Net {
    Exclusions.Prefix(ip, Exclusions.Width(ip))
  }

  predicate Allowed(access: Access, ip: Addr) {
    exists n <- access :: access[n].allow && Exclusions.Contains(n, ip)
  }

  /** CheckIPAccess, the automatic half. */
  predicate DeniedAuto(access: Access, ip: Addr, now: int) {
    exists n <- access :: !access[n].allow && access[n].auto && Exclusions.Contains(n, ip)
                          && (access[n].expires == None || access[n].expires.value > now)
  }

  /** The AutoBlock statement. */
  function AutoBlocked(access: Access, ip: Addr, now: int, lockout: int): Access {
    if Allowed(access, ip) then access
    else if Host(ip) !in access then access[Host(ip) := Rule(false, true, Some(now + lockout))]
    else if access[Host(ip)].auto then access[Host(ip) := access[Host(ip)].(expires := Some(now + lockout))]
    else access
  }

  /** A lockout changes nothing under an allow rule or over an administrator's own entry; otherwise the address's
      entry denies it from now on for the lockout's length. */
  lemma AutoBlockIs(access: Access, ip: Addr, now: int, lockout: int)
    ensures var after := AutoBlocked(access, ip, now, lockout);
            if (exists n <- access :: access[n].allow && Exclusions.Contains(n, ip)) || (Host(ip) in access && !access[Host(ip)].auto)
            then after == access
            else && after.Keys == access.Keys + {Host(ip)} && (forall n <- access :: n != Host(ip) ==> after[n] == access[n])
                 && after[Host(ip)].expires == Some(now + lockout) && after[Host(ip)].auto && !after[Host(ip)].allow
    ensures Host(ip).addr == ip && forall b :: Exclusions.Contains(Host(ip), b) <==> b == ip
  {
    HostCovers(ip, Host(ip));
    forall b ensures Exclusions.Contains(Host(ip), b) <==> b == ip {
      HostCovers(b, Host(ip));
    }
  }

  /** Every automatic entry denies a single address, for a time. */
  ghost predicate AutoShape(access: Access) {
    forall n <- access | access[n].auto :: !access[n].allow && n == Host(n.addr) && access[n].expires.Some?
  }

  /** Everything an administrator entered is as before, and only addresses under no allow rule were added. */
  ghost predicate ManualKept(before: Access, after: Access) {
    && (forall n <- before | !before[n].auto :: n in after && after[n] == before[n])
    && (forall n <- after :: n in before || (after[n].auto && !after[n].allow && n == Host(n.addr) && !Allowed(before, n.addr)))
    && (forall n <- before | before[n].auto :: n in after && after[n].auto && after[n].allow == before[n].allow)
  }

  lemma AutoBlockKeepsManual(access: Access, ip: Addr, now: int, lockout: int)
    ensures ManualKept(access, AutoBlocked(access, ip, now, lockout))
    ensures AutoShape(access) ==> AutoShape(AutoBlocked(access, ip, now, lockout))
  {
  }

  lemma ManualKeptSame(access: Access)
    ensures ManualKept(access, access)
  {
  }

  lemma AllowedKept(a: Access, b: Access, ip: Addr)
    requires ManualKept(a, b) && Allowed(a, ip) && AutoShape(a)
    ensures Allowed(b, ip)
  {
    var q :| q in a && a[q].allow && Exclusions.Contains(q, ip);
    assert q in b && b[q].allow;
  }

  lemma ManualKeptTransitive(a: Access, b: Access, c: Access)
    requires ManualKept(a, b) && ManualKept(b, c) && AutoShape(a)
    ensures ManualKept(a, c)
  {
    forall n | n in c && n !in a ensures !Allowed(a, n.addr) && c[n].auto && !c[n].allow && n == Host(n.addr) {
      if n !in b {
        if Allowed(a, n.addr) {
          AllowedKept(a, b, n.addr);
        }
      }
    }
  }

  lemma HostCovers(ip: Addr, n: Net)
    requires n == Host(n.addr)
    ensures Exclusions.Contains(n, ip) <==> n == Host(ip)
  {
  }

  /** A lockout denies its address until it runs out, unless an allow rule covers the address or an
      administrator's own entry stands in its place; then nothing changes. */
  lemma AutoBlockDenies(access: Access, ip: Addr, now: int, lockout: int, later: int)
    requires AutoShape(access)
    ensures DeniedAuto(AutoBlocked(access, ip, now, lockout), ip, later)
            <==> if !Allowed(access, ip) && (Host(ip) in access ==> access[Host(ip)].auto)
                 then later < now + lockout else DeniedAuto(access, ip, later)
  {
    var after := AutoBlocked(access, ip, now, lockout);
    AutoBlockKeepsManual(access, ip, now, lockout);
    HostCovers(ip, Host(ip));
    if !Allowed(access, ip) && (Host(ip) in access ==> access[Host(ip)].auto) {
      assert Host(ip) in after && after[Host(ip)].expires == Some(now + lockout);
      if DeniedAuto(after, ip, later) {
        var n :| n in after && !after[n].allow && after[n].auto && Exclusions.Contains(n, ip)
                 && (after[n].expires == None || after[n].expires.value > later);
        HostCovers(ip, n);
      }
    }
  }

  // ---- the service ----

  datatype Verdict = Through | Refused | Unavailable

  /** What a request that passed the gate finds: the user query fails, wrong name or password, a disabled
      account, a session that cannot be stored, or success. */
  datatype Answer = LookupError | WrongPassword | DisabledUser | SessionError | RightPassword

  datatype Limits = Limits(window: int, limit: int, lockout: int)

  /** The service at one moment. */
  datatype Desk = Desk(attempts: seq<Attempt>, access: Access, now: int, inFlight: map<nat, Option<Addr>>, gates: seq<Gate>)

  function VerdictOf(c: Limits, d: Desk, ip: Option<Addr>, dbOk: bool): Verdict {
    if ip == None then Through
    else if !dbOk then Unavailable
    else if RecentFailures(d.attempts, ip.value, d.now, c.window) >= c.limit then Refused else Through
  }

  /** A request has reached the gate. */
  function Entered(c: Limits, d: Desk, ip: Option<Addr>, dbOk: bool, stored: bool, blockOk: bool): Desk {
    var v, request := VerdictOf(c, d, ip, dbOk), |d.gates|;
    Desk(d.attempts + (if v == Refused then [Attempt(request, ip, d.now, LockedOut, stored)] else []),
         if v == Refused && blockOk && ip.Some? then AutoBlocked(d.access, ip.value, d.now, c.lockout) else d.access,
         d.now,
         if v == Through then d.inFlight[request := ip] else d.inFlight,
         d.gates + [Arrival(d.attempts, d.gates, d.inFlight, d.now, ip, v == Through)])
  }

  /** What a decided request leaves on record, if anything. */
  function OutcomeOf(answer: Answer): Option<Outcome> {
    match answer
    case WrongPassword => Some(BadCredentials)
    case DisabledUser => Some(Disabled)
    case RightPassword => Some(Success)
    case _ => None
  }

  /** A request in flight has been decided. */
  function Decided(c: Limits, d: Desk, request: nat, answer: Answer, stored: bool, countOk: bool, blockOk: bool): Desk
    requires request in d.inFlight
  {
    var ip, outcome := d.inFlight[request], OutcomeOf(answer);
    var attempts := d.attempts + if outcome.Some? then [Attempt(request, ip, d.now, outcome.value, stored)] else [];
    var blocks := answer == WrongPassword && ip.Some? && countOk && RecentFailures(attempts, ip.value, d.now, c.window) >= c.limit && blockOk;
    d.(attempts := attempts, inFlight := d.inFlight - {request},
       access := if blocks then AutoBlocked(d.access, ip.value, d.now, c.lockout) else d.access)
  }

  class Service {
    const window: int
    const limit: int
    const lockout: int
    var attempts: seq<Attempt>
    var access: Access
    var now: int
    var requests: nat
    var inFlight: map<nat, Option<Addr>> // requests between the gate and their outcome
    ghost var gates: seq<Gate>

    ghost predicate Valid()
      reads this
    {
      Sound(attempts, gates, inFlight, now, window, limit) && AutoShape(access) && requests == |gates|
    }

    constructor (window: int, limit: int, lockout: int, access: Access, now: int)
      requires AutoShape(access)
      ensures Valid() && attempts == [] && gates == [] && inFlight == map[]
      ensures this.window == window && this.limit == limit && this.lockout == lockout && this.access == access && this.now == now
    {
      this.window, this.limit, this.lockout, this.access, this.now := window, limit, lockout, access, now;
      attempts, gates, inFlight, requests := [], [], map[], 0;
    }

    method Tick(d: nat)
      requires Valid()
      modifies this`now
      ensures Valid() && now == old(now) + d
    {
      now := now + d;
    }

    function Config(): Limits {
      Limits(window, limit, lockout)
    }

    ghost function State(): Desk
      reads this
    {
      Desk(attempts, access, now, inFlight, gates)
    }

    /** An administrator sets or removes an entry (UpsertIPRule with source manual, DeleteIPRule). */
    method SetRule(n: Net, rule: Option<Entry>)
      requires Valid()
      modifies this`access
      ensures Valid()
      ensures access == if rule.Some? then old(access)[n := Rule(rule.value.allow, false, rule.value.expires)] else old(access) - {n}
    {
      access := if rule.Some? then access[n := Rule(rule.value.allow, false, rule.value.expires)] else access - {n};
    }

    /** The first half of Login, up to the password check. */
    method Enter(ip: Option<Addr>, dbOk: bool, stored: bool, blockOk: bool) returns (v: Verdict, request: nat)
      requires Valid()
      modifies this`attempts, this`access, this`inFlight, this`gates, this`requests
      ensures Valid() && request == |old(gates)|
      ensures v == VerdictOf(Config(), old(State()), ip, dbOk)
      ensures State() == Entered(Config(), old(State()), ip, dbOk, stored, blockOk)
      ensures v == Refused <==> ip.Some? && dbOk && RecentFailures(old(attempts), ip.value, now, window) >= limit
      ensures v == Unavailable <==> ip.Some? && !dbOk
      ensures attempts == old(attempts) + if v == Refused then [Attempt(request, ip, now, LockedOut, stored)] else []
      ensures inFlight == if v == Through then old(inFlight)[request := ip] else old(inFlight)
      ensures access == if v == Refused && blockOk then AutoBlocked(old(access), ip.value, now, lockout) else old(access)
      ensures ManualKept(old(access), access)
    {
      hide Sound;
      hide RecentFailures;
      hide AutoBlocked;
      hide AutoShape;
      hide ManualKept;
      ManualKeptSame(access);
      request := requests;
      requests := requests + 1;
      v := Through;
      if ip.Some? {
        if !dbOk {
          v := Unavailable;
        } else {
          var fails := RecentFailures(attempts, ip.value, now, window);
          if fails >= limit {
            v := Refused;
          }
        }
      }
      EnterStep(attempts, gates, inFlight, now, window, limit, ip, v == Through);
      gates := gates + [Arrival(attempts, gates, inFlight, now, ip, v == Through)];
      if v == Through {
        inFlight := inFlight[request := ip];
      } else if v == Refused {
        if blockOk {
          AutoBlockKeepsManual(access, ip.value, now, lockout);
          access := AutoBlocked(access, ip.value, now, lockout);
        }
        RecordStep(attempts, gates, inFlight, now, window, limit, Attempt(request, ip, now, LockedOut, stored));
        attempts := attempts + [Attempt(request, ip, now, LockedOut, stored)];
      }
    }

    /** The second half: the password check and what is written afterwards, maybeLock included. */
    method Finish(request: nat, answer: Answer, stored: bool, countOk: bool, blockOk: bool)
      requires Valid() && request in inFlight
      modifies this`attempts, this`access, this`inFlight
      ensures Valid() && State() == Decided(Config(), old(State()), request, answer, stored, countOk, blockOk)
      ensures inFlight == old(inFlight) - {request} && old(attempts) <= attempts
      ensures attempts == old(attempts) <==> answer == LookupError || answer == SessionError
      ensures attempts != old(attempts) ==>
                && |attempts| == |old(attempts)| + 1
                && var a := attempts[|old(attempts)|];
                   && a.request == request && a.ip == old(inFlight)[request] && a.at == now && a.stored == stored
                   && (CheckFailed(a) <==> answer == WrongPassword || answer == DisabledUser)
                   && (a.outcome == Success <==> answer == RightPassword)
                   && (a.outcome == BadCredentials <==> answer == WrongPassword) && (a.outcome == Disabled <==> answer == DisabledUser)
      ensures var ip := old(inFlight)[request];
              access == if answer == WrongPassword && ip.Some? && countOk && blockOk && RecentFailures(attempts, ip.value, now, window) >= limit
                        then AutoBlocked(old(access), ip.value, now, lockout) else old(access)
      ensures ManualKept(old(access), access)
    {
      hide RecentFailures;
      hide AutoBlocked;
      hide AutoShape;
      hide ManualKept;
      ManualKeptSame(access);
      hide Sound;
      LeaveStep(attempts, gates, inFlight, now, window, limit, request);
      var ip := inFlight[request];
      inFlight := inFlight - {request};
      match answer {
        case LookupError =>
        case SessionError =>
        case WrongPassword => Record(Attempt(request, ip, now, BadCredentials, stored));
        case DisabledUser => Record(Attempt(request, ip, now, Disabled, stored));
        case RightPassword => Record(Attempt(request, ip, now, Success, stored));
      }
      if answer == WrongPassword && ip.Some? && countOk {
        var fails := RecentFailures(attempts, ip.value, now, window);
        if fails >= limit && blockOk {
          AutoBlockKeepsManual(access, ip.value, now, lockout);
          access := AutoBlocked(access, ip.value, now, lockout);
        }
      }
    }

    /** RecordAttempt. */
    method Record(a: Attempt)
      requires Valid() && a.request < |gates| && a.request !in inFlight && a.at == now && a.ip == gates[a.request].ip
      requires gates[a.request].passed
      requires forall i | 0 <= i < |attempts| :: attempts[i].request != a.request
      requires forall t | a.request <= t < |gates| :: gates[t].ip == a.ip ==> a.request in gates[t].flying
      modifies this`attempts
      ensures Valid() && attempts == old(attempts) + [a]
    {
      hide Sound;
      RecordStep(attempts, gates, inFlight, now, window, limit, a);
      attempts := attempts + [a];
    }
  }

  // ---- runs ----

  datatype Event = Arrive(ip: Option<Addr>, dbOk: bool, stored: bool, blockOk: bool)
                 | Leave(request: nat, answer: Answer, stored: bool, countOk: bool, blockOk: bool)
                 | Pass(d: nat)
                 | Edit(n: Net, rule: Option<Entry>)

  function AfterEvent(c: Limits, d: Desk, e: Event): Desk {
    match e
    case Arrive(ip, dbOk, stored, blockOk) => Entered(c, d, ip, dbOk, stored, blockOk)
    case Leave(request, answer, stored, countOk, blockOk) =>
      if request in d.inFlight then Decided(c, d, request, answer, stored, countOk, blockOk) else d
    case Pass(t) => d.(now := d.now + t)
    case Edit(n, rule) => d.(access := if rule.Some? then d.access[n := Rule(rule.value.allow, false, rule.value.expires)] else d.access - {n})
  }

  function AfterEvents(c: Limits, d: Desk, events: seq<Event>): Desk {
    if events == [] then d else AfterEvent(c, AfterEvents(c, d, events[..|events| - 1]), events[|events| - 1])
  }

  /** An edit sets or removes the entry of its network and no other, by hand and never by lockout; time passes
      and changes nothing else. */
  lemma EditsAndTime(c: Limits, d: Desk, n: Net, e: Entry, t: nat)
    ensures var set_ := AfterEvent(c, d, Edit(n, Some(e)));
            && set_.access.Keys == d.access.Keys + {n} && set_.access[n] == Rule(e.allow, false, e.expires)
            && (forall m <- d.access :: m != n ==> set_.access[m] == d.access[m]) && set_ == d.(access := set_.access)
    ensures var gone := AfterEvent(c, d, Edit(n, None));
            && gone.access.Keys == d.access.Keys - {n} && (forall m <- gone.access :: gone.access[m] == d.access[m])
            && gone == d.(access := gone.access)
    ensures AfterEvent(c, d, Pass(t)) == d.(now := t + d.now)
  {
  }

  lemma EveryWindow(d: Desk, window: int, limit: int)
    requires Sound(d.attempts, d.gates, d.inFlight, d.now, window, limit)
    ensures forall ip: Addr, a: int, c: nat :: AtMostInFlight(d.gates, ip, c) ==> Bounded(d.attempts, ip, a, window, limit, c)
  {
    hide Recorded, Gated, Overlapped, Flying, AtMostInFlight, Bounded;
    forall ip: Addr, a: int, c: nat | AtMostInFlight(d.gates, ip, c) ensures Bounded(d.attempts, ip, a, window, limit, c) {
      WindowBound(d.attempts, d.gates, d.now, window, limit, ip, a, c);
    }
  }

  /** What is on record, and what reached the gate, stays there. */
  lemma {:induction false} RecordOnlyGrows(c: Limits, d: Desk, events: seq<Event>)
    ensures d.attempts <= AfterEvents(c, d, events).attempts && d.gates <= AfterEvents(c, d, events).gates
  {
    hide RecentFailures, AutoBlocked, Arrival;
    if events != [] {
      RecordOnlyGrows(c, d, events[..|events| - 1]);
    }
  }

  /** Any interleaving of logins, time and edits of the access list leads exactly where its events lead: for
      every address, every window of the configured length, and every degree of overlap that was not exceeded,
      the bound holds. */
  method Run(s: Service, events: seq<Event>)
    requires s.Valid()
    modifies s
    ensures s.Valid() && s.State() == AfterEvents(s.Config(), old(s.State()), events)
    ensures old(s.attempts) <= s.attempts && old(s.gates) <= s.gates
    ensures forall ip: Addr, a: int, c: nat :: AtMostInFlight(s.gates, ip, c) ==> Bounded(s.attempts, ip, a, s.window, s.limit, c)
  {
    hide Entered, Decided, Sound;
    for i := 0 to |events|
      invariant s.Valid() && s.State() == AfterEvents(s.Config(), old(s.State()), events[..i])
    {
      assert events[..i + 1][..i] == events[..i];
      match events[i]
      case Arrive(ip, dbOk, stored, blockOk) => var _, _ := s.Enter(ip, dbOk, stored, blockOk);
      case Leave(request, answer, stored, countOk, blockOk) =>
        if request in s.inFlight {
          s.Finish(request, answer, stored, countOk, blockOk);
        }
      case Pass(d) => s.Tick(d);
      case Edit(n, rule) => s.SetRule(n, rule);
    }
    assert events[..|events|] == events;
    RecordOnlyGrows(s.Config(), old(s.State()), events);
    EveryWindow(s.State(), s.window, s.limit);
  }

  /** One whole login: the pause before it, the pause at the password check, and what it meets. */
  datatype Try = Try(ip: Option<Addr>, before: nat, during: nat, answer: Answer, dbOk: bool, stored: bool, countOk: bool, blockOk: bool)

  function AfterTry(c: Limits, d: Desk, t: Try): Desk {
    var at := d.(now := d.now + t.before);
    var inside := Entered(c, at, t.ip, t.dbOk, t.stored, t.blockOk);
    if VerdictOf(c, at, t.ip, t.dbOk) == Through
    then Decided(c, inside.(now := inside.now + t.during), |d.gates|, t.answer, t.stored, t.countOk, t.blockOk)
    else inside
  }

  function AfterTries(c: Limits, d: Desk, tries: seq<Try>): Desk {
    if tries == [] then d else AfterTry(c, AfterTries(c, d, tries[..|tries| - 1]), tries[|tries| - 1])
  }

  /** No request overlaps another. */
  ghost predicate Alone(s: Service)
    reads s
  {
    s.inFlight == map[] && forall ip: Addr :: AtMostInFlight(s.gates, ip, 1)
  }

  /** Login, undisturbed: it is refused exactly when the address has `limit` or more failures on record
      within the window. */
  method LoginAlone(s: Service, t: Try) returns (v: Verdict)
    requires s.Valid() && Alone(s)
    modifies s
    ensures s.Valid() && Alone(s) && s.now >= old(s.now)
    ensures s.State() == AfterTry(s.Config(), old(s.State()), t)
    ensures v == Refused <==> t.ip.Some? && t.dbOk && RecentFailures(old(s.attempts), t.ip.value, old(s.now) + t.before, s.window) >= s.limit
    ensures v == Unavailable <==> t.ip.Some? && !t.dbOk
    ensures ManualKept(old(s.access), s.access)
  {
    hide ManualKept, Recorded, Gated, Overlapped, Flying, RecentFailures, AutoBlocked, AtMostInFlight;
    s.Tick(t.before);
    ghost var access, gates, attempts := s.access, s.gates, s.attempts;
    var request;
    v, request := s.Enter(t.ip, t.dbOk, t.stored, t.blockOk);
    OneMoreAlone(gates, Arrival(s.attempts[..|attempts|], gates, map[], s.now, t.ip, v == Through), |gates|);
    assert s.gates == gates + [s.gates[|gates|]];
    if v == Through {
      s.Tick(t.during);
      ManualKeptTransitive(access, s.access, s.access) by { ManualKeptSame(s.access); }
      s.Finish(request, t.answer, t.stored, t.countOk, t.blockOk);
    }
    assert s.inFlight == map[];
  }

  lemma OneMoreAlone(gates: seq<Gate>, g: Gate, n: nat)
    requires (forall ip: Addr :: AtMostInFlight(gates, ip, 1)) && g.flying == {n}
    ensures forall ip: Addr :: AtMostInFlight(gates + [g], ip, 1)
  {
    forall ip: Addr ensures AtMostInFlight(gates + [g], ip, 1) {
      assert AtMostInFlight(gates, ip, 1);
    }
  }

  /** Logins one after another: any window of the configured length holds at most `limit` failed checks of an
      address (plus lost rows), nothing an administrator entered changes, and no address under an allow
      rule is added to the list. */
  method RunAlone(s: Service, tries: seq<Try>)
    requires s.Valid() && Alone(s)
    modifies s
    ensures s.Valid() && Alone(s) && s.State() == AfterTries(s.Config(), old(s.State()), tries)
    ensures old(s.attempts) <= s.attempts && |s.gates| == old(|s.gates|) + |tries|
    ensures forall ip: Addr, a: int :: Bounded(s.attempts, ip, a, s.window, s.limit, 1)
    ensures ManualKept(old(s.access), s.access)
  {
    hide ManualKept, Recorded, Gated, Overlapped, Flying, AtMostInFlight, AfterTry;
    ManualKeptSame(s.access);
    for i := 0 to |tries|
      invariant s.Valid() && Alone(s) && ManualKept(old(s.access), s.access)
      invariant s.State() == AfterTries(s.Config(), old(s.State()), tries[..i])
      invariant old(s.attempts) <= s.attempts && |s.gates| == old(|s.gates|) + i
    {
      assert tries[..i + 1][..i] == tries[..i];
      ghost var access, d := s.access, s.State();
      var _ := LoginAlone(s, tries[i]);
      TryGrows(s.Config(), d, tries[i]);
      ManualKeptTransitive(old(s.access), access, s.access);
    }
    assert tries[..|tries|] == tries;
    forall ip: Addr, a: int ensures Bounded(s.attempts, ip, a, s.window, s.limit, 1) {
      WindowBound(s.attempts, s.gates, s.now, s.window, s.limit, ip, a, 1);
    }
  }

  lemma TryGrows(c: Limits, d: Desk, t: Try)
    ensures d.attempts <= AfterTry(c, d, t).attempts && |AfterTry(c, d, t).gates| == |d.gates| + 1
  {
    hide RecentFailures, AutoBlocked, Arrival;
  }

  /** A whole login that is let through and fails the password check adds exactly that to the record. */
  lemma FailedTry(c: Limits, d: Desk, t: Try)
    requires t.answer == WrongPassword && VerdictOf(c, d.(now := d.now + t.before), t.ip, t.dbOk) == Through
    ensures AfterTry(c, d, t).attempts == d.attempts + [Attempt(|d.gates|, t.ip, d.now + t.before + t.during, BadCredentials, t.stored)]
    ensures AfterTry(c, d, t).now == d.now + t.before + t.during
  {
    hide RecentFailures, AutoBlocked, Arrival;
  }

  /** Failed checks of one address, all at one moment or at another. */
  ghost predicate AllFailedAt(log: seq<Attempt>, ip: Addr, t: int) {
    forall a <- log :: a.ip == Some(ip) && a.outcome == BadCredentials && a.stored && a.at == t
  }

  /** The window is open at its old end: a closed window can hold twice the limit, even without overlap. */
  method TwiceInClosedWindow(window: nat, limit: nat, ip: Addr) returns (s: Service)
    requires window > 0
    ensures s.Valid() && Alone(s) && s.window == window && s.limit == limit && |s.attempts| == 2 * limit
    ensures AllFailedAt(s.attempts[..limit], ip, 0) && AllFailedAt(s.attempts[limit..], ip, window)
  {
    s := new Service(window, limit, 0, map[], 0);
    assert Alone(s);
    FailMany(s, ip, limit, []);
    s.Tick(window);
    FailMany(s, ip, limit, s.attempts);
  }

  /** One failed check, now. */
  method FailOnce(s: Service, ip: Addr)
    requires s.Valid() && Alone(s) && RecentFailures(s.attempts, ip, s.now, s.window) < s.limit && s.window > 0
    modifies s
    ensures s.Valid() && Alone(s) && s.now == old(s.now)
    ensures s.attempts == old(s.attempts) + [Attempt(|old(s.gates)|, Some(ip), s.now, BadCredentials, true)]
    ensures RecentFailures(s.attempts, ip, s.now, s.window) == RecentFailures(old(s.attempts), ip, s.now, s.window) + 1
  {
    hide ManualKept, Sound, AfterTry, Alone, FailuresSince;
    ghost var d := s.State();
    var _ := LoginAlone(s, Try(Some(ip), 0, 0, WrongPassword, true, true, true, true));
    FailedTry(s.Config(), d, Try(Some(ip), 0, 0, WrongPassword, true, true, true, true));
    OneMore(d.attempts, s.attempts[|d.attempts|], ip, s.now - s.window);
  }

  /** As many failed checks as the limit allows, all now, when the log so far is too old to count. */
  method FailMany(s: Service, ip: Addr, n: nat, ghost before: seq<Attempt>)
    requires s.Valid() && Alone(s) && s.attempts == before && n <= s.limit && s.window > 0
    requires forall a <- before :: a.at <= s.now - s.window
    modifies s
    ensures s.Valid() && Alone(s) && s.now == old(s.now) && |s.attempts| == |before| + n
    ensures before <= s.attempts && AllFailedAt(s.attempts[|before|..], ip, s.now)
  {
    assert FailuresSince(before, ip, s.now - s.window) == {};
    hide Service.Valid, Alone, FailuresSince, AllFailedAt;
    assert AllFailedAt(s.attempts[|before|..], ip, s.now) by { NoneFailed(ip, s.now); assert s.attempts[|before|..] == []; }
    assert RecentFailures(s.attempts, ip, s.now, s.window) == 0;
    hide RecentFailures;
    for i := 0 to n
      invariant s.Valid() && Alone(s) && s.now == old(s.now) && |s.attempts| == |before| + i
      invariant before <= s.attempts && AllFailedAt(s.attempts[|before|..], ip, s.now)
      invariant RecentFailures(s.attempts, ip, s.now, s.window) == i
    {
      ghost var was := s.attempts;
      FailOnce(s, ip);
      OneMoreFailed(before, was, s.attempts[|was|], ip, s.now);
    }
  }

  lemma NoneFailed(ip: Addr, t: int)
    ensures AllFailedAt([], ip, t)
  {
  }

  lemma OneMoreFailed(before: seq<Attempt>, log: seq<Attempt>, a: Attempt, ip: Addr, t: int)
    requires before <= log && AllFailedAt(log[|before|..], ip, t)
    requires a.ip == Some(ip) && a.outcome == BadCredentials && a.stored && a.at == t
    ensures before <= log + [a] && AllFailedAt((log + [a])[|before|..], ip, t)
  {
    assert (log + [a])[|before|..] == log[|before|..] + [a];
  }

  lemma OneMore(log: seq<Attempt>, a: Attempt, ip: Addr, since: int)
    requires a.stored && a.ip == Some(ip) && a.outcome != Success && a.at > since
    ensures |FailuresSince(log + [a], ip, since)| == |FailuresSince(log, ip, since)| + 1
  {
    var s, s' := FailuresSince(log, ip, since), FailuresSince(log + [a], ip, since);
    forall i: nat ensures i in s' <==> i in s || i == |log| {
      assert i < |log| ==> (log + [a])[i] == log[i];
    }
    assert s' == s + {|log|};
  }
}
