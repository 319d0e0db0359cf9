/** The hourly per-host rollup (internal/db/rollups.go, RollupHours; internal/scheduler/scheduler.go): every run
    recomputes the two hours before it and replaces what it finds, while rows keep arriving. */
module Hours {
  import opened Address
  import opened Numbers
  import opened Options
  import opened Rollups

  datatype HourKey = HourKey(host: Addr, hour: int)
  datatype HourRow = HourRow(bytesIn: nat, bytesOut: nat, packets: nat, flows: nat, peers: set<Addr>, ports: set<nat>)
  type HourTable = map<HourKey, HourRow>

  const EMPTY_ROW: HourRow := HourRow(0, 0, 0, 0, {}, {})

  function Outgoing(r: HourRow, f: Flow): HourRow {
    HourRow(r.bytesIn, r.bytesOut + f.bytes, r.packets + f.packets, r.flows + 1, r.peers + {f.dst}, r.ports + {Min(f.portSrc, f.portDst)})
  }

  function Incoming(r: HourRow, f: Flow): HourRow {
    HourRow(r.bytesIn + f.bytes, r.bytesOut, r.packets + f.packets, r.flows + 1, r.peers + {f.src}, r.ports + {Min(f.portSrc, f.portDst)})
  }

  /** A flow counts once for each of its ends that is local. */
  function AddSides(r: HourRow, f: Flow, local: Locals, k: HourKey): HourRow {
    var r1 := if local(f.src) && f.src == k.host && HourOf(f.stamp) == k.hour then Outgoing(r, f) else r;
    if local(f.dst) && f.dst == k.host && HourOf(f.stamp) == k.hour then Incoming(r1, f) else r1
  }

  /** The one-shot aggregation of one host's hour over the rows stamped in [from, to). */
  function HourAgg(acct: seq<Flow>, local: Locals, from: int, to: int, k: HourKey): HourRow {
    if acct == [] then EMPTY_ROW
    else
      var f, rest := acct[|acct| - 1], HourAgg(acct[..|acct| - 1], local, from, to, k);
      if from <= f.stamp < to then AddSides(rest, f, local, k) else rest
  }

  // ---- what an hour shows ----

  /** A row of the window, stamped in the hour. */
  predicate InHour(f: Flow, from: int, to: int, hour: int) {
    from <= f.stamp < to && hour <= f.stamp < hour + 3600
  }

  datatype Quantity = OfBytes | OfPackets | OfFlows

  function Quantify(f: Flow, q: Quantity): nat {
    match q
    case OfBytes => f.bytes
    case OfPackets => f.packets
    case OfFlows => 1
  }

  /** What left a host in an hour. */
  function SentBy(acct: seq<Flow>, from: int, to: int, k: HourKey, q: Quantity): nat {
    if acct == [] then 0
    else
      var f, rest := acct[|acct| - 1], SentBy(acct[..|acct| - 1], from, to, k, q);
      if InHour(f, from, to, k.hour) && f.src == k.host then rest + Quantify(f, q) else rest
  }

  /** What reached it. */
  function ReceivedBy(acct: seq<Flow>, from: int, to: int, k: HourKey, q: Quantity): nat {
    if acct == [] then 0
    else
      var f, rest := acct[|acct| - 1], ReceivedBy(acct[..|acct| - 1], from, to, k, q);
      if InHour(f, from, to, k.hour) && f.dst == k.host then rest + Quantify(f, q) else rest
  }

  /** A local host's hour shows the bytes it sent as going out, those it received as coming in, and flows and
      packets of both; a host that is not local has no hour. */
  lemma {:induction false} HourSums(acct: seq<Flow>, local: Locals, from: int, to: int, k: HourKey)
    requires k.hour % 3600 == 0
    ensures var r := HourAgg(acct, local, from, to, k);
            if !local(k.host) then r == HourRow(0, 0, 0, 0, {}, {})
            else
              && r.bytesOut == SentBy(acct, from, to, k, OfBytes) && r.bytesIn == ReceivedBy(acct, from, to, k, OfBytes)
              && r.packets == SentBy(acct, from, to, k, OfPackets) + ReceivedBy(acct, from, to, k, OfPackets)
              && r.flows == SentBy(acct, from, to, k, OfFlows) + ReceivedBy(acct, from, to, k, OfFlows)
  {
    hide HourOf;
    if acct != [] {
      HourSums(acct[..|acct| - 1], local, from, to, k);
      HourOfIs(acct[|acct| - 1].stamp, k.hour);
    }
  }

  /** Some flow of the hour has the host at one end and p at the other. */
  ghost predicate PeerSeen(acct: seq<Flow>, from: int, to: int, k: HourKey, p: Addr) {
    exists f <- acct :: InHour(f, from, to, k.hour) && ((f.src == k.host && f.dst == p) || (f.dst == k.host && f.src == p))
  }

  /** n is the lower port of some flow of the hour at whose end the host is. */
  ghost predicate PortSeen(acct: seq<Flow>, from: int, to: int, k: HourKey, n: nat) {
    exists f <- acct :: InHour(f, from, to, k.hour) && (f.src == k.host || f.dst == k.host)
                        && n == if f.portSrc < f.portDst then f.portSrc else f.portDst
  }

  lemma SeenMore(front: seq<Flow>, f: Flow, from: int, to: int, k: HourKey)
    ensures forall p :: PeerSeen(front + [f], from, to, k, p)
                        <==> PeerSeen(front, from, to, k, p) || PeerSeen([f], from, to, k, p)
    ensures forall n :: PortSeen(front + [f], from, to, k, n)
                        <==> PortSeen(front, from, to, k, n) || PortSeen([f], from, to, k, n)
  {
    assert forall g :: g in front + [f] <==> g in front || g in [f];
  }

  /** A local host's peers in an hour are the other ends of its flows, and its ports the lower port of each. */
  lemma {:induction false} HourEnds(acct: seq<Flow>, local: Locals, from: int, to: int, k: HourKey)
    requires k.hour % 3600 == 0 && local(k.host)
    ensures forall p :: p in HourAgg(acct, local, from, to, k).peers <==> PeerSeen(acct, from, to, k, p)
    ensures forall n :: n in HourAgg(acct, local, from, to, k).ports <==> PortSeen(acct, from, to, k, n)
  {
    hide HourOf;
    if acct != [] {
      var front, f := acct[..|acct| - 1], acct[|acct| - 1];
      HourEnds(front, local, from, to, k);
      HourOfIs(f.stamp, k.hour);
      SeenMore(front, f, from, to, k);
      assert acct == front + [f];
      OneSeen(f, from, to, k);
      hide PeerSeen, PortSeen;
    }
  }

  lemma OneSeen(f: Flow, from: int, to: int, k: HourKey)
    ensures forall p :: PeerSeen([f], from, to, k, p)
                        <==> InHour(f, from, to, k.hour) && ((f.src == k.host && f.dst == p) || (f.dst == k.host && f.src == p))
    ensures forall n :: PortSeen([f], from, to, k, n)
                        <==> InHour(f, from, to, k.hour) && (f.src == k.host || f.dst == k.host) && n == Min(f.portSrc, f.portDst)
  {
    assert f in [f];
  }

  function Lookup(t: HourTable, k: HourKey): Option<HourRow> {
    if k in t then Some(t[k]) else None
  }

  function Grouped(t: HourTable, k: HourKey): HourRow {
    if k in t then t[k] else EMPTY_ROW
  }

  /** One flow's sides, grouped. */
  function GroupFlow(t: HourTable, f: Flow, local: Locals): HourTable {
    var ks, kd := HourKey(f.src, HourOf(f.stamp)), HourKey(f.dst, HourOf(f.stamp));
    var t1 := if local(f.src) then t[ks := Outgoing(Grouped(t, ks), f)] else t;
    if local(f.dst) then t1[kd := Incoming(Grouped(t1, kd), f)] else t1
  }

  lemma GroupFlowIs(t: HourTable, f: Flow, local: Locals, k: HourKey)
    ensures Grouped(GroupFlow(t, f, local), k) == AddSides(Grouped(t, k), f, local, k)
  {
  }

  class HourRollup {
    var hours: HourTable

    constructor ()
      ensures hours == map[]
    {
      hours := map[];
    }

    /** RollupHours: every host and hour with traffic in the window, which is widened to start on an hour,
        is replaced; a host and hour without any keeps what it had. */
    method RollupHours(acct: seq<Flow>, local: Locals, from: int, to: int)
      modifies this
      ensures forall k: HourKey :: Lookup(hours, k) == Replaced(Lookup(old(hours), k), HourAgg(acct, local, HourOf(from), to, k))
    {
      var start := HourOf(from);
      var agg: HourTable := map[];
      for i := 0 to |acct|
        invariant hours == old(hours)
        invariant forall k: HourKey :: Grouped(agg, k) == HourAgg(acct[..i], local, start, to, k)
        invariant forall k <- agg :: agg[k].flows > 0
      {
        var f := acct[i];
        assert acct[..i + 1][..i] == acct[..i];
        if start <= f.stamp < to {
          forall k: HourKey ensures Grouped(GroupFlow(agg, f, local), k) == AddSides(Grouped(agg, k), f, local, k) {
            GroupFlowIs(agg, f, local, k);
          }
          agg := GroupFlow(agg, f, local);
        }
      }
      assert acct[..|acct|] == acct;
      hours := hours + agg;
    }
  }

  function Replaced(before: Option<HourRow>, agg: HourRow): Option<HourRow> {
    if agg.flows > 0 then Some(agg) else before
  }

  // ---- what one window says about an hour ----

  /** A flow that counts for a host and hour. */
  predicate Counts(f: Flow, local: Locals, k: HourKey) {
    HourOf(f.stamp) == k.hour && ((local(f.src) && f.src == k.host) || (local(f.dst) && f.dst == k.host))
  }

  lemma SidesGrow(r: HourRow, f: Flow, local: Locals, k: HourKey)
    ensures if Counts(f, local, k) then AddSides(r, f, local, k).flows > r.flows else AddSides(r, f, local, k) == r
  {
  }

  /** A window sees of an hour what lies in both. */
  lemma {:induction false} HourAggClip(acct: seq<Flow>, local: Locals, from: int, to: int, k: HourKey)
    requires k.hour % HOUR == 0
    ensures HourAgg(acct, local, from, to, k) == HourAgg(acct, local, Max(from, k.hour), Min(to, k.hour + HOUR), k)
  {
    hide AddSides, HourOf;
    if acct != [] {
      var n := |acct| - 1;
      HourAggClip(acct[..n], local, from, to, k);
      SidesGrow(HourAgg(acct[..n], local, from, to, k), acct[n], local, k);
      HourOfIs(acct[n].stamp, k.hour);
    }
  }

  lemma HourOfIs(t: int, hour: int)
    requires hour % HOUR == 0
    ensures HourOf(t) == hour <==> hour <= t < hour + HOUR
  {
  }

  lemma {:induction false} EmptyAgg(acct: seq<Flow>, local: Locals, from: int, to: int, k: HourKey)
    requires from >= to
    ensures HourAgg(acct, local, from, to, k) == EMPTY_ROW
  {
    if acct != [] {
      EmptyAgg(acct[..|acct| - 1], local, from, to, k);
    }
  }

  /** More rows and a longer window never show less. */
  lemma {:induction false} HourAggMonotone(a: seq<Flow>, b: seq<Flow>, local: Locals, from: int, to: int, to': int, k: HourKey)
    requires a <= b && to <= to'
    ensures HourAgg(a, local, from, to, k).flows <= HourAgg(b, local, from, to', k).flows
    decreases |b|
  {
    hide AddSides;
    if b != [] {
      var n := |b| - 1;
      SidesGrow(HourAgg(b[..n], local, from, to', k), b[n], local, k);
      if |a| == |b| {
        assert a == b;
        HourAggMonotone(a[..n], b[..n], local, from, to, to', k);
        SidesGrowBoth(HourAgg(a[..n], local, from, to, k), HourAgg(b[..n], local, from, to', k), b[n], local, k);
      } else {
        assert a <= b[..n];
        HourAggMonotone(a, b[..n], local, from, to, to', k);
      }
    }
  }

  lemma SidesGrowBoth(r: HourRow, q: HourRow, f: Flow, local: Locals, k: HourKey)
    requires r.flows <= q.flows
    ensures AddSides(r, f, local, k).flows <= AddSides(q, f, local, k).flows
  {
  }

  /** Later rows change a host's hour exactly when one of them counts for it. */
  lemma {:induction false} LaterRowsChangeIff(a: seq<Flow>, b: seq<Flow>, local: Locals, k: HourKey)
    requires a <= b && k.hour % HOUR == 0
    ensures HourAgg(b, local, k.hour, k.hour + HOUR, k) == HourAgg(a, local, k.hour, k.hour + HOUR, k)
            <==> forall n | |a| <= n < |b| :: !Counts(b[n], local, k)
    decreases |b|
  {
    hide AddSides, HourOf;
    if |a| < |b| {
      var n := |b| - 1;
      assert a <= b[..n];
      LaterRowsChangeIff(a, b[..n], local, k);
      HourAggMonotone(a, b[..n], local, k.hour, k.hour + HOUR, k.hour + HOUR, k);
      SidesGrow(HourAgg(b[..n], local, k.hour, k.hour + HOUR, k), b[n], local, k);
      HourOfIs(b[n].stamp, k.hour);
      assert b == b[..n] + [b[n]];
    } else {
      assert a == b;
    }
  }

  // ---- runs over growing accounts ----

  /** One run of the job: when, and the accounting rows there were. */
  datatype Pass = Pass(now: int, acct: seq<Flow>)

  /** What a host's hour holds after some runs, each over the two hours before it. */
  function AfterRuns(init: Option<HourRow>, local: Locals, runs: seq<Pass>, k: HourKey): Option<HourRow> {
    if runs == [] then init
    else
      var p, before := runs[|runs| - 1], AfterRuns(init, local, runs[..|runs| - 1], k);
      Replaced(before, HourAgg(p.acct, local, HourOf(p.now - 2 * HOUR), p.now, k))
  }

  /** Runs come one after another, and rows only arrive. */
  ghost predicate Rising(runs: seq<Pass>) {
    forall i, j | 0 <= i < j < |runs| :: runs[i].now <= runs[j].now && runs[i].acct <= runs[j].acct
  }

  /** A run sees some of an hour, or all of it. */
  predicate Sees(now: int, hour: int) {
    hour < now < hour + 3 * HOUR
  }

  predicate Completes(now: int, hour: int) {
    hour + HOUR <= now < hour + 3 * HOUR
  }

  /** What a run that sees the hour finds of it. */
  function Found(p: Pass, local: Locals, k: HourKey): HourRow {
    HourAgg(p.acct, local, k.hour, Min(p.now, k.hour + HOUR), k)
  }

  lemma RunFinds(p: Pass, local: Locals, k: HourKey)
    requires k.hour % HOUR == 0
    ensures HourAgg(p.acct, local, HourOf(p.now - 2 * HOUR), p.now, k) == if Sees(p.now, k.hour) then Found(p, local, k) else EMPTY_ROW
  {
    hide HourAgg;
    HourAggClip(p.acct, local, HourOf(p.now - 2 * HOUR), p.now, k);
    if !Sees(p.now, k.hour) {
      EmptyAgg(p.acct, local, Max(HourOf(p.now - 2 * HOUR), k.hour), Min(p.now, k.hour + HOUR), k);
    }
  }

  /** A run completes an hour exactly when its window contains it. */
  lemma CompletesIff(now: int, hour: int)
    requires hour % HOUR == 0
    ensures Completes(now, hour) <==> HourOf(now - 2 * HOUR) <= hour && hour + HOUR <= now
  {
  }

  /** Runs that find nothing write nothing. */
  lemma {:induction false} NothingFound(init: Option<HourRow>, local: Locals, runs: seq<Pass>, k: HourKey)
    requires k.hour % HOUR == 0
    requires forall i | 0 <= i < |runs| && Sees(runs[i].now, k.hour) :: Found(runs[i], local, k).flows == 0
    ensures AfterRuns(init, local, runs, k) == init
  {
    hide HourAgg, HourOf, Found;
    if runs != [] {
      RunFinds(runs[|runs| - 1], local, k);
      NothingFound(init, local, runs[..|runs| - 1], k);
    }
  }

  /** The hour shows what the last run that saw it found, complete or in part, whatever earlier runs had
      found and whatever later ones do. */
  lemma {:induction false} HourShowsLastRun(init: Option<HourRow>, local: Locals, runs: seq<Pass>, k: HourKey, i: nat)
    requires k.hour % HOUR == 0 && Rising(runs)
    requires i < |runs| && Sees(runs[i].now, k.hour) && forall j | i < j < |runs| :: !Sees(runs[j].now, k.hour)
    ensures AfterRuns(init, local, runs, k) == Replaced(init, Found(runs[i], local, k))
  {
    hide HourAgg, HourOf;
    var n := |runs| - 1;
    RunFinds(runs[n], local, k);
    if i < n {
      HourShowsLastRun(init, local, runs[..n], k, i);
    } else {
      forall j | 0 <= j < n ensures Found(runs[j], local, k).flows <= Found(runs[n], local, k).flows {
        HourAggMonotone(runs[j].acct, runs[n].acct, local, k.hour, Min(runs[j].now, k.hour + HOUR), Min(runs[n].now, k.hour + HOUR), k);
      }
      if Found(runs[n], local, k).flows == 0 {
        NothingFound(init, local, runs[..n], k);
      }
    }
  }

  /** An hour no run saw is simply missing. */
  lemma MissedHourIsUntouched(init: Option<HourRow>, local: Locals, runs: seq<Pass>, k: HourKey)
    requires k.hour % HOUR == 0
    requires forall i | 0 <= i < |runs| :: !Sees(runs[i].now, k.hour)
    ensures AfterRuns(init, local, runs, k) == init
  {
    NothingFound(init, local, runs, k);
  }

  /** Once a run completed an hour, the last run that saw it did too. */
  lemma LastRunCompletes(runs: seq<Pass>, hour: int, c: nat, i: nat)
    requires Rising(runs) && c < |runs| && i < |runs| && Completes(runs[c].now, hour)
    requires Sees(runs[i].now, hour) && forall j | i < j < |runs| :: !Sees(runs[j].now, hour)
    ensures c <= i && Completes(runs[i].now, hour)
  {
  }

  /** A completed hour agrees with the one-shot aggregation over any later state of the accounts if and only
      if no row that arrived after the last run that saw the hour counts for it: the two hours of overlap
      are the time rows have to arrive. */
  lemma CompletedHourIsExactIff(local: Locals, runs: seq<Pass>, k: HourKey, c: nat, i: nat, acct: seq<Flow>)
    requires k.hour % HOUR == 0 && Rising(runs) && c < |runs| && Completes(runs[c].now, k.hour)
    requires i < |runs| && Sees(runs[i].now, k.hour) && forall j | i < j < |runs| :: !Sees(runs[j].now, k.hour)
    requires runs[i].acct <= acct
    ensures AfterRuns(None, local, runs, k) == Replaced(None, HourAgg(acct, local, k.hour, k.hour + HOUR, k))
            <==> forall n | |runs[i].acct| <= n < |acct| :: !Counts(acct[n], local, k)
  {
    hide HourAgg, HourOf, AfterRuns;
    LastRunCompletes(runs, k.hour, c, i);
    HourShowsLastRun(None, local, runs, k, i);
    LaterRowsChangeIff(runs[i].acct, acct, local, k);
    HourAggMonotone(runs[i].acct, acct, local, k.hour, k.hour + HOUR, k.hour + HOUR, k);
    NoFlowsNoRow(runs[i].acct, local, k.hour, k.hour + HOUR, k);
    NoFlowsNoRow(acct, local, k.hour, k.hour + HOUR, k);
  }

  lemma {:induction false} NoFlowsNoRow(acct: seq<Flow>, local: Locals, from: int, to: int, k: HourKey)
    ensures HourAgg(acct, local, from, to, k).flows == 0 ==> HourAgg(acct, local, from, to, k) == EMPTY_ROW
  {
    hide AddSides;
    if acct != [] {
      var n := |acct| - 1;
      NoFlowsNoRow(acct[..n], local, from, to, k);
      SidesGrow(HourAgg(acct[..n], local, from, to, k), acct[n], local, k);
    }
  }

  /** The job, run after run. */
  method RunHours(r: HourRollup, local: Locals, runs: seq<Pass>)
    modifies r
    ensures forall k: HourKey :: Lookup(r.hours, k) == AfterRuns(Lookup(old(r.hours), k), local, runs, k)
  {
    hide HourAgg, HourOf;
    for i := 0 to |runs|
      invariant forall k: HourKey :: Lookup(r.hours, k) == AfterRuns(Lookup(old(r.hours), k), local, runs[..i], k)
    {
      assert runs[..i + 1][..i] == runs[..i];
      r.RollupHours(runs[i].acct, local, runs[i].now - 2 * HOUR, runs[i].now);
    }
    assert runs[..|runs|] == runs;
  }

  /** Runs no more than two hours apart complete every hour between the first run and one hour before the
      last. */
  lemma {:induction false} RegularRunsComplete(runs: seq<Pass>, hour: int)
    requires |runs| > 0 && Rising(runs) && forall i | 0 < i < |runs| :: runs[i].now - runs[i - 1].now <= 2 * HOUR
    requires runs[0].now < hour + 3 * HOUR && hour + HOUR <= runs[|runs| - 1].now
    ensures exists i | 0 <= i < |runs| :: Completes(runs[i].now, hour)
  {
    var n := |runs| - 1;
    if !Completes(runs[n].now, hour) {
      assert runs[n - 1].now >= hour + HOUR;
      RegularRunsComplete(runs[..n], hour);
      var i :| 0 <= i < n && Completes(runs[..n][i].now, hour);
      assert Completes(runs[i].now, hour);
    }
  }
}
