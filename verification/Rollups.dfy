/** The additive per-peer rollup behind a stored cursor (internal/db/rollups.go, RollupPeerDays) and the job
    that drives it (internal/scheduler/scheduler.go, RunRollupsOnce). */
module Rollups {
  import opened Address
  import opened Numbers
  import opened Options
  import opened Selection

  const HOUR: int := 3600
  const DAY: int := 86400
  const LAG: int := 180        // three minutes, for late accounting rows
  const CHUNK: int := 21600    // six hours
  const BACKFILL: int := 691200 // eight days

  /** One row of the accounting table. */
  datatype Flow = Flow(src: Addr, dst: Addr, bytes: nat, packets: nat, stamp: int, portSrc: nat, portDst: nat)

  /** Which addresses are local. */
  type Locals = Addr -> bool

  function DayOf(t: int): int {
    t / DAY
  }

  function HourOf(t: int): (h: int)
    ensures h <= t < h + HOUR && h % HOUR == 0
  {
    t - t % HOUR
  }

  // ---- the per-peer daily rollup ----

  datatype PeerKey = PeerKey(host: Addr, peer: Addr, day: int)
  datatype Totals = Totals(bytes: nat, flows: nat)
  type PeerTable = map<PeerKey, Totals>

  /** What is being added up. */
  datatype Measure = Bytes | Flows

  function Amount(f: Flow, m: Measure): nat {
    if m.Bytes? then f.bytes else 1
  }

  /** The key a flow is folded under: exactly one end is local. */
  function KeyOf(f: Flow, local: Locals): Option<PeerKey> {
    if local(f.src) && !local(f.dst) then Some(PeerKey(f.src, f.dst, DayOf(f.stamp)))
    else if local(f.dst) && !local(f.src) then Some(PeerKey(f.dst, f.src, DayOf(f.stamp)))
    else None
  }

  function Share(f: Flow, local: Locals, k: PeerKey, m: Measure): nat {
    if KeyOf(f, local) == Some(k) then Amount(f, m) else 0
  }

  /** The one-shot aggregation of the rows stamped in [from, to). */
  function OneShot(acct: seq<Flow>, local: Locals, from: int, to: int, k: PeerKey, m: Measure): nat {
    if acct == [] then 0
    else
      var f := acct[|acct| - 1];
      OneShot(acct[..|acct| - 1], local, from, to, k, m) + if from <= f.stamp < to then Share(f, local, k, m) else 0
  }

  function Folded(fs: seq<Flow>, local: Locals, k: PeerKey, m: Measure): nat {
    if fs == [] then 0 else Folded(fs[..|fs| - 1], local, k, m) + Share(fs[|fs| - 1], local, k, m)
  }

  function At(t: PeerTable, k: PeerKey, m: Measure): nat {
    if k in t then (if m.Bytes? then t[k].bytes else t[k].flows) else 0
  }

  function AddFlow(t: PeerTable, f: Flow, local: Locals): PeerTable {
    match KeyOf(f, local)
    case None => t
    case Some(k) => t[k := Totals(At(t, k, Bytes) + f.bytes, At(t, k, Flows) + 1)]
  }

  function InWindow(acct: seq<Flow>, from: int, to: int): (r: seq<Flow>)
    ensures from >= to ==> r == []
  {
    if acct == [] then []
    else
      var rest, f := InWindow(acct[..|acct| - 1], from, to), acct[|acct| - 1];
      if from <= f.stamp < to then rest + [f] else rest
  }

  // ---- what is added up ----

  /** What flowed between two ends, in either direction, on one day. */
  function Exchanged(acct: seq<Flow>, from: int, to: int, host: Addr, peer: Addr, day: int, m: Measure): nat {
    if acct == [] then 0
    else
      var n := |acct| - 1;
      var f := acct[n];
      Exchanged(acct[..n], from, to, host, peer, day, m)
      + if from <= f.stamp < to && ((f.src == host && f.dst == peer) || (f.dst == host && f.src == peer))
           && day * 86400 <= f.stamp < (day + 1) * 86400
        then match m
             case Bytes => f.bytes
             case Flows => 1
        else 0
  }

  /** The one-shot aggregation of a window is what a local host and a peer that is not local exchanged in it, and
      nothing for any other pair. */
  lemma {:induction false} OneShotIs(acct: seq<Flow>, local: Locals, from: int, to: int, k: PeerKey, m: Measure)
    ensures OneShot(acct, local, from, to, k, m)
            == if local(k.host) && !local(k.peer) then Exchanged(acct, from, to, k.host, k.peer, k.day, m) else 0
  {
    if acct != [] {
      OneShotIs(acct[..|acct| - 1], local, from, to, k, m);
    }
  }

  /** A window takes the rows stamped in it, each once and in order. */
  ghost function StampedIn(from: int, to: int): Flow -> bool {
    (f: Flow) => from <= f.stamp < to
  }

  lemma {:induction false} InWindowIs(acct: seq<Flow>, from: int, to: int)
    ensures KeptOf(InWindow(acct, from, to), acct, StampedIn(from, to))
  {
    hide KeptOf;
    if acct == [] {
      KeptNone(StampedIn(from, to));
    } else {
      var n := |acct| - 1;
      InWindowIs(acct[..n], from, to);
      KeptMore(InWindow(acct[..n], from, to), acct[..n], acct[n], StampedIn(from, to));
      assert acct == acct[..n] + [acct[n]];
    }
  }

  /** A flow with exactly one local end adds its bytes and one flow to the row of that end, the other end and the
      day; any other flow adds nothing. */
  lemma AddFlowIs(t: PeerTable, f: Flow, local: Locals)
    ensures var t' := AddFlow(t, f, local);
            if local(f.src) == local(f.dst) then t' == t
            else
              var k := if local(f.src) then PeerKey(f.src, f.dst, f.stamp / 86400) else PeerKey(f.dst, f.src, f.stamp / 86400);
              && t'.Keys == t.Keys + {k} && (forall j <- t :: j != k ==> t'[j] == t[j])
              && t'[k] == if k in t then Totals(t[k].bytes + f.bytes, t[k].flows + 1) else Totals(f.bytes, 1)
  {
  }

  /** Every row of the table is about a local host and a peer that is not local. */
  ghost predicate Sided(t: PeerTable, local: Locals) {
    forall k <- t :: local(k.host) && !local(k.peer)
  }

  lemma {:induction false} FoldedAppend(a: seq<Flow>, b: seq<Flow>, local: Locals, k: PeerKey, m: Measure)
    ensures Folded(a + b, local, k, m) == Folded(a, local, k, m) + Folded(b, local, k, m)
  {
    if b == [] {
      assert a + b == a;
    } else {
      assert (a + b)[..|a + b| - 1] == a + b[..|b| - 1];
      FoldedAppend(a, b[..|b| - 1], local, k, m);
    }
  }

  lemma {:induction false} FoldedWindow(acct: seq<Flow>, local: Locals, from: int, to: int, k: PeerKey, m: Measure)
    ensures Folded(InWindow(acct, from, to), local, k, m) == OneShot(acct, local, from, to, k, m)
  {
    if acct != [] {
      var rest, f := InWindow(acct[..|acct| - 1], from, to), acct[|acct| - 1];
      FoldedWindow(acct[..|acct| - 1], local, from, to, k, m);
      if from <= f.stamp < to {
        assert (rest + [f])[..|rest|] == rest;
      }
    }
  }

  /** Adjacent windows tile: nothing is skipped and nothing counted twice. */
  lemma {:induction false} OneShotTiles(acct: seq<Flow>, local: Locals, a: int, b: int, c: int, k: PeerKey, m: Measure)
    requires a <= b <= c
    ensures OneShot(acct, local, a, b, k, m) + OneShot(acct, local, b, c, k, m) == OneShot(acct, local, a, c, k, m)
  {
    if acct != [] {
      OneShotTiles(acct[..|acct| - 1], local, a, b, c, k, m);
    }
  }

  // ---- which windows a run folds, and how far its cursor gets ----

  /** The end of the chunk that starts at c. */
  function NextChunk(c: int, end: int): (n: int)
    requires c < end
    ensures c < n <= end
  {
    if c + CHUNK > end then end else c + CHUNK
  }

  /** Chunks the loop runs from c: it always ends, and the last chunk may be short. */
  function ChunksFrom(c: int, end: int): nat
    decreases end - c
  {
    if c >= end then 0 else 1 + ChunksFrom(NextChunk(c, end), end)
  }

  /** Where n chunks from c end. */
  function AfterChunks(c: int, end: int, n: nat): (t: int)
    ensures c <= t && (c <= end ==> t <= end)
  {
    if n == 0 then c
    else
      var p := AfterChunks(c, end, n - 1);
      if p >= end then p else NextChunk(p, end)
  }

  lemma {:induction false} ChunksLeft(c: int, end: int, n: nat)
    requires n <= ChunksFrom(c, end)
    ensures ChunksFrom(AfterChunks(c, end, n), end) == ChunksFrom(c, end) - n
  {
    if n > 0 {
      ChunksLeft(c, end, n - 1);
    }
  }

  /** A run that folds every chunk reaches the end exactly. */
  lemma CompleteRunReachesEnd(c: int, end: int)
    requires c <= end
    ensures AfterChunks(c, end, ChunksFrom(c, end)) == end
  {
    ChunksLeft(c, end, ChunksFrom(c, end));
  }

  /** Of n chunks, the last behind which the cursor was stored; beyond its end every store succeeds. */
  function LastStored(stores: seq<bool>, n: nat): (s: nat)
    ensures s <= n
  {
    if n == 0 then 0 else if n - 1 >= |stores| || stores[n - 1] then n else LastStored(stores, n - 1)
  }

  /** One run of the loop: where it begins and would end, the chunks folded and those with a stored cursor. */
  datatype Roll = Roll(begin: int, end: int, folded: nat, stored: nat)
  {
    /** The cursor behind which everything is settled. */
    function Settled(): int {
      AfterChunks(begin, end, stored)
    }

    function Reached(): int {
      AfterChunks(begin, end, folded)
    }
  }

  /** `readable` tells whether the stored cursor, if any, could be read, `failAt` is the chunk whose statement
      fails, if any, and `stores` tells whether the cursor was saved. A cursor that cannot be read counts as
      none. */
  function RollOf(cursor: Option<int>, now: int, readable: bool, failAt: Option<nat>, stores: seq<bool>): Roll {
    var begin := if cursor.Some? && readable then cursor.value else now - BACKFILL;
    var total := ChunksFrom(begin, now - LAG);
    var n := if failAt.Some? && failAt.value < total then failAt.value else total;
    Roll(begin, now - LAG, n, LastStored(stores, n))
  }

  /** The left end after a run: its beginning, if it found no cursor; further back, if it moved a cursor it
      could not read and began before. */
  function StartOf(start: int, cursor: Option<int>, roll: Roll, readable: bool): int {
    if cursor == None then roll.begin else if !readable && roll.stored > 0 then Min(start, roll.begin) else start
  }

  /** A run goes from the cursor, or eight days back without one, up to three minutes ago, and folds every chunk
      in front of the one that fails, if any. */
  lemma RollBegins(cursor: Option<int>, now: int, readable: bool, failAt: Option<nat>, stores: seq<bool>)
    ensures var roll := RollOf(cursor, now, readable, failAt, stores);
            && AfterChunks(roll.begin, roll.end, 0) == roll.begin && LastStored(stores, 0) == 0
            && roll.begin == (if cursor == None || !readable then now - 8 * 24 * 3600 else cursor.value) && roll.end == now - 3 * 60
            && (failAt == None || failAt.value >= ChunksFrom(roll.begin, roll.end) ==> roll.folded == ChunksFrom(roll.begin, roll.end))
            && (failAt.Some? && failAt.value < ChunksFrom(roll.begin, roll.end) ==> roll.folded == failAt.value)
  {
  }

  /** Chunks are six hours long, except that the last one ends where the run ends. */
  lemma {:induction false} ChunksAreSixHours(c: int, end: int, n: nat)
    requires c <= end
    ensures AfterChunks(c, end, n) == Min(c + n * 6 * 3600, end)
    ensures 6 * 3600 * (ChunksFrom(c, end) - 1) < end - c <= 6 * 3600 * ChunksFrom(c, end)
    decreases n, end - c
  {
    if n > 0 {
      ChunksAreSixHours(c, end, n - 1);
    } else if c < end {
      ChunksAreSixHours(NextChunk(c, end), end, 0);
    }
  }

  /** The cursor is behind the last folded chunk whose end was stored. */
  lemma {:induction false} LastStoredIs(stores: seq<bool>, n: nat)
    ensures var s := LastStored(stores, n);
            && (s > 0 ==> s - 1 >= |stores| || stores[s - 1])
            && forall j | s <= j < n :: j < |stores| && !stores[j]
  {
    if n > 0 {
      LastStoredIs(stores, n - 1);
    }
  }

  /** Cursor and end of the folded rows are never in front of the beginning, nor the cursor behind that end. */
  lemma {:induction false} ChunksMonotone(begin: int, end: int, a: nat, b: nat)
    requires a <= b
    ensures AfterChunks(begin, end, a) <= AfterChunks(begin, end, b)
  {
    if a < b {
      ChunksMonotone(begin, end, a, b - 1);
    }
  }

  lemma ChunkStep(begin: int, end: int, n: nat)
    requires AfterChunks(begin, end, n) < end
    ensures var c := AfterChunks(begin, end, n);
            AfterChunks(begin, end, n + 1) == NextChunk(c, end) && ChunksFrom(c, end) == 1 + ChunksFrom(NextChunk(c, end), end)
  {
  }

  lemma StoredStep(stores: seq<bool>, n: nat)
    ensures LastStored(stores, n + 1) == if n >= |stores| || stores[n] then n + 1 else LastStored(stores, n)
  {
  }

  lemma ChunksEnd(c: int, end: int)
    ensures c >= end <==> ChunksFrom(c, end) == 0
  {
  }

  /** The peer rollup's accounts. `start` is the left end of what the table should hold, `folded` every row
      ever added to it, once per time, and `late` the rows that arrived behind the cursor. */
  datatype Accounts = Accounts(start: int, folded: seq<Flow>, late: seq<Flow>, prunedDay: Option<int>)
  {
    /** The table holds what was folded, except for days already pruned. */
    ghost predicate Holds(t: PeerTable, local: Locals) {
      forall k: PeerKey, m: Measure :: (prunedDay == None || k.day >= prunedDay.value) ==> At(t, k, m) == Folded(folded, local, k, m)
    }
  }

  lemma HoldsFrom(b: Accounts, t: PeerTable, local: Locals, start: int)
    requires b.Holds(t, local)
    ensures b.(start := start).Holds(t, local)
  {
  }

  lemma {:induction false} EmptyWindow(acct: seq<Flow>, local: Locals, at: int, k: PeerKey, m: Measure)
    ensures OneShot(acct, local, at, at, k, m) == 0
  {
    if acct != [] {
      EmptyWindow(acct[..|acct| - 1], local, at, k, m);
    }
  }

  lemma AddFlowAt(t: PeerTable, f: Flow, local: Locals, k: PeerKey, m: Measure)
    ensures At(AddFlow(t, f, local), k, m) == At(t, k, m) + Share(f, local, k, m)
  {
  }

  lemma FoldedOne(fs: seq<Flow>, f: Flow, local: Locals, k: PeerKey, m: Measure)
    ensures Folded(fs + [f], local, k, m) == Folded(fs, local, k, m) + Share(f, local, k, m)
  {
    assert (fs + [f])[..|fs|] == fs;
  }

  lemma HoldsAdd(b: Accounts, t: PeerTable, local: Locals, f: Flow)
    requires b.Holds(t, local)
    ensures b.(folded := b.folded + [f]).Holds(AddFlow(t, f, local), local)
  {
    hide At;
    hide AddFlow;
    hide Share;
    forall k: PeerKey, m: Measure | b.prunedDay == None || k.day >= b.prunedDay.value
      ensures At(AddFlow(t, f, local), k, m) == Folded(b.folded + [f], local, k, m)
    {
      AddFlowAt(t, f, local, k, m);
      FoldedOne(b.folded, f, local, k, m);
    }
  }

  /** fs' holds what fs did and the rows of a window, key by key. */
  ghost predicate Grows(fs: seq<Flow>, fs': seq<Flow>, acct: seq<Flow>, local: Locals, from: int, to: int) {
    forall k: PeerKey, m: Measure :: Folded(fs', local, k, m) == Folded(fs, local, k, m) + OneShot(acct, local, from, to, k, m)
  }

  lemma GrowsNone(fs: seq<Flow>, acct: seq<Flow>, local: Locals, c: int)
    ensures Grows(fs, fs, acct, local, c, c)
  {
    forall k: PeerKey, m: Measure ensures OneShot(acct, local, c, c, k, m) == 0 {
      EmptyWindow(acct, local, c, k, m);
    }
  }

  lemma GrowsMore(fs: seq<Flow>, fs': seq<Flow>, acct: seq<Flow>, local: Locals, from: int, c: int, to: int)
    requires Grows(fs, fs', acct, local, from, c) && from <= c <= to
    ensures Grows(fs, fs' + InWindow(acct, c, to), acct, local, from, to)
  {
    forall k: PeerKey, m: Measure
      ensures Folded(fs' + InWindow(acct, c, to), local, k, m) == Folded(fs, local, k, m) + OneShot(acct, local, from, to, k, m)
    {
      FoldedAppend(fs', InWindow(acct, c, to), local, k, m);
      FoldedWindow(acct, local, c, to, k, m);
      OneShotTiles(acct, local, from, c, to, k, m);
    }
  }

  /** The table holds what it did before and what the rows of a window add. */
  ghost predicate Adds(t: PeerTable, t': PeerTable, acct: seq<Flow>, local: Locals, from: int, to: int) {
    forall k: PeerKey, m: Measure :: At(t', k, m) == At(t, k, m) + OneShot(acct, local, from, to, k, m)
  }

  lemma AddsMore(t: PeerTable, t': PeerTable, acct: seq<Flow>, f: Flow, local: Locals, from: int, to: int)
    requires Adds(t, t', acct, local, from, to)
    ensures Adds(t, if from <= f.stamp < to then AddFlow(t', f, local) else t', acct + [f], local, from, to)
  {
    hide At, AddFlow, OneShot, Share;
    forall k: PeerKey, m: Measure
      ensures At(if from <= f.stamp < to then AddFlow(t', f, local) else t', k, m) == At(t, k, m) + OneShot(acct + [f], local, from, to, k, m)
    {
      AddFlowAt(t', f, local, k, m);
      OneShotArrival(acct, local, f, from, to, k, m);
    }
  }

  lemma AddsMeans(t: PeerTable, t': PeerTable, acct: seq<Flow>, local: Locals, from: int, to: int)
    requires Adds(t, t', acct, local, from, to)
    ensures forall k: PeerKey, m: Measure ::
              At(t', k, m) == At(t, k, m) + if local(k.host) && !local(k.peer) then Exchanged(acct, from, to, k.host, k.peer, k.day, m) else 0
  {
    hide At, OneShot;
    forall k: PeerKey, m: Measure
      ensures At(t', k, m) == At(t, k, m) + if local(k.host) && !local(k.peer) then Exchanged(acct, from, to, k.host, k.peer, k.day, m) else 0
    {
      OneShotIs(acct, local, from, to, k, m);
    }
  }

  lemma SidedAdd(t: PeerTable, local: Locals, f: Flow)
    requires Sided(t, local)
    ensures Sided(AddFlow(t, f, local), local)
  {
  }

  class PeerRollup {
    const local: Locals
    var acct: seq<Flow>
    var peers: PeerTable
    var cursor: Option<int>
    ghost var books: Accounts

    ghost predicate Valid()
      reads this
    {
      books.Holds(peers, local) && Sided(peers, local)
    }

    constructor (local: Locals, acct: seq<Flow>)
      ensures Valid() && peers == map[] && cursor == None && this.acct == acct && this.local == local
      ensures books == Accounts(0, [], [], None)
    {
      this.local, this.acct, peers, cursor := local, acct, map[], None;
      books := Accounts(0, [], [], None);
    }

    /** The accounting daemon inserts a row. */
    method Arrive(f: Flow)
      requires Valid()
      modifies this`acct, this`books
      ensures Valid() && acct == old(acct) + [f]
      ensures books == if cursor.Some? && books.start <= f.stamp < cursor.value then old(books).(late := old(books).late + [f]) else old(books)
    {
      acct := acct + [f];
      if cursor.Some? && books.start <= f.stamp < cursor.value {
        books := books.(late := books.late + [f]);
      }
    }

    /** RollupPeerDays: adds the window's rows to the table, in one statement. */
    method RollupPeerDays(from: int, to: int)
      requires Valid()
      modifies this`peers, this`books
      ensures Valid()
      ensures books == old(books).(folded := old(books).folded + InWindow(acct, from, to))
      ensures forall k: PeerKey, m: Measure ::
                At(peers, k, m) == At(old(peers), k, m)
                                   + if local(k.host) && !local(k.peer) then Exchanged(acct, from, to, k.host, k.peer, k.day, m) else 0
    {
      ghost var before := books;
      assert before.folded + InWindow(acct[..0], from, to) == before.folded;
      for i := 0 to |acct|
        invariant Valid()
        invariant books == before.(folded := before.folded + InWindow(acct[..i], from, to))
        invariant Adds(old(peers), peers, acct[..i], local, from, to)
      {
        assert acct[..i + 1][..i] == acct[..i];
        hide Accounts.Holds, Adds, Sided, AddFlow;
        AddsMore(old(peers), peers, acct[..i], acct[i], local, from, to);
        assert acct[..i + 1] == acct[..i] + [acct[i]];
        if from <= acct[i].stamp < to {
          HoldsAdd(books, peers, local, acct[i]);
          SidedAdd(peers, local, acct[i]);
          peers := AddFlow(peers, acct[i], local);
          books := books.(folded := books.folded + [acct[i]]);
        }
      }
      assert acct[..|acct|] == acct;
      AddsMeans(old(peers), peers, acct, local, from, to);
    }

    /** The cursor loop of RunRollupsOnce. A run that finds no cursor, or cannot read it, begins eight days back. */
    method RunPeers(now: int, readable: bool, failAt: Option<nat>, stores: seq<bool>) returns (done: bool)
      requires Valid()
      modifies this`peers, this`cursor, this`books
      ensures Valid()
      ensures var roll := RollOf(old(cursor), now, readable, failAt, stores);
              && (done <==> failAt == None || ChunksFrom(roll.begin, roll.end) <= failAt.value)
              && cursor == (if roll.stored == 0 then old(cursor) else Some(roll.Settled()))
              && books.start == StartOf(old(books).start, old(cursor), roll, readable)
              && Grows(old(books).folded, books.folded, acct, local, roll.begin, roll.Reached())
      ensures books.late == old(books).late && books.prunedDay == old(books).prunedDay
    {
      hide Folded, OneShot, InWindow, At, Grows, Accounts.Holds, Sided, AfterChunks, ChunksFrom, LastStored;
      RollBegins(cursor, now, readable, failAt, stores);
      ghost var roll := RollOf(cursor, now, readable, failAt, stores);
      var c := if cursor.Some? && readable then cursor.value else now - BACKFILL;
      HoldsFrom(books, peers, local, StartOf(books.start, cursor, roll, readable));
      books := books.(start := StartOf(books.start, cursor, roll, readable));
      var end := now - LAG;
      var n := 0;
      ghost var was := books;
      GrowsNone(books.folded, acct, local, c);
      while c < end
        invariant Valid() && books == was.(folded := books.folded)
        invariant n <= ChunksFrom(roll.begin, end) && c == AfterChunks(roll.begin, end, n) && ChunksFrom(c, end) == ChunksFrom(roll.begin, end) - n
        invariant cursor == if LastStored(stores, n) == 0 then old(cursor) else Some(AfterChunks(roll.begin, end, LastStored(stores, n)))
        invariant failAt.Some? ==> n <= failAt.value
        invariant roll.begin <= c && Grows(was.folded, books.folded, acct, local, roll.begin, c)
        decreases end - c
      {
        var next := NextChunk(c, end);
        ChunkStep(roll.begin, end, n);
        StoredStep(stores, n);
        if failAt == Some(n) {
          return false;
        }
        GrowsMore(was.folded, books.folded, acct, local, roll.begin, c, next);
        RollupPeerDays(c, next);
        c := next;
        if n >= |stores| || stores[n] {
          cursor := Some(c);
        }
        n := n + 1;
      }
      ChunksEnd(c, end);
      return true;
    }

    /** PruneRollups: rows of days before `day` go. */
    method PruneDays(day: int)
      requires Valid()
      modifies this`peers, this`books
      ensures Valid()
      ensures peers == map k | k in old(peers) && k.day >= day :: old(peers)[k]
      ensures books == old(books).(prunedDay := Some(if old(books).prunedDay.Some? then Max(old(books).prunedDay.value, day) else day))
    {
      var before := peers;
      peers := map k | k in before && k.day >= day :: before[k];
      books := books.(prunedDay := Some(if books.prunedDay.Some? then Max(books.prunedDay.value, day) else day));
    }
  }

  // ---- histories ----

  datatype Event = Arrival(f: Flow) | RollUp(now: int, readable: bool, failAt: Option<nat>, stores: seq<bool>) | Prune(day: int)

  function Arrivals(events: seq<Event>): seq<Flow> {
    if events == [] then []
    else Arrivals(events[..|events| - 1]) + if events[|events| - 1].Arrival? then [events[|events| - 1].f] else []
  }

  function CursorAfter(events: seq<Event>): Option<int> {
    if events == [] then None
    else
      var before := CursorAfter(events[..|events| - 1]);
      match events[|events| - 1]
      case RollUp(now, readable, failAt, stores) =>
        var roll := RollOf(before, now, readable, failAt, stores);
        if roll.stored == 0 then before else Some(roll.Settled())
      case _ => before
  }

  /** The run that event n is, in the state it met. */
  function RollAt(events: seq<Event>, n: nat): Roll
    requires n < |events| && events[n].RollUp?
  {
    RollOf(CursorAfter(events[..n]), events[n].now, events[n].readable, events[n].failAt, events[n].stores)
  }

  /** The left end of what the table should hold: eight days before the last run that found no cursor, or
      further back when a run that could not read its cursor went there. */
  function StartAfter(events: seq<Event>): int {
    if events == [] then 0
    else
      var n := |events| - 1;
      if events[n].RollUp? then StartOf(StartAfter(events[..n]), CursorAfter(events[..n]), RollAt(events, n), events[n].readable)
      else StartAfter(events[..n])
  }

  /** Rows that arrived behind the cursor, within what it had covered. */
  function LateAfter(events: seq<Event>): seq<Flow> {
    if events == [] then []
    else
      var front, at := events[..|events| - 1], CursorAfter(events[..|events| - 1]);
      match events[|events| - 1]
      case Arrival(f) => LateAfter(front) + if at.Some? && StartAfter(front) <= f.stamp < at.value then [f] else []
      case _ => LateAfter(front)
  }

  function PrunedAfter(events: seq<Event>): Option<int> {
    if events == [] then None
    else
      var before := PrunedAfter(events[..|events| - 1]);
      match events[|events| - 1]
      case Prune(day) => Some(if before.Some? then Max(before.value, day) else day)
      case _ => before
  }

  /** The accounting rows event n meets. */
  function AcctAt(init: seq<Flow>, events: seq<Event>, n: nat): seq<Flow>
    requires n <= |events|
  {
    init + Arrivals(events[..n])
  }

  /** Everything ever folded: each run's window, over the rows there were. */
  function FoldedAfter(init: seq<Flow>, local: Locals, events: seq<Event>, k: PeerKey, m: Measure): nat {
    if events == [] then 0
    else
      var n := |events| - 1;
      FoldedAfter(init, local, events[..n], k, m)
      + if events[n].RollUp? then OneShot(AcctAt(init, events, n), local, RollAt(events, n).begin, RollAt(events, n).Reached(), k, m) else 0
  }

  /** A run that moves the cursor although it could not read it. */
  predicate Restarts(events: seq<Event>, n: nat)
    requires n < |events|
  {
    events[n].RollUp? && !events[n].readable && CursorAfter(events[..n]).Some? && RollAt(events, n).stored > 0
  }

  /** From where such a run folds again what the cursor had passed. */
  function Again(events: seq<Event>, n: nat): int
    requires n < |events| && events[n].RollUp?
  {
    Max(RollAt(events, n).begin, StartAfter(events[..n]))
  }

  /** The aggregation of a window, or, from right to left, what it lacks. */
  function Signed(acct: seq<Flow>, local: Locals, from: int, to: int, k: PeerKey, m: Measure): int {
    if from <= to then OneShot(acct, local, from, to, k, m) else 0 - OneShot(acct, local, to, from, k, m)
  }

  /** What the table holds too much. Each run adds the window from the last stored cursor to the last folded
      chunk; a run that moves the cursor without having read it adds what the old cursor had passed, or lacks
      what lies between the old cursor and its own beginning. */
  function Excess(init: seq<Flow>, local: Locals, events: seq<Event>, k: PeerKey, m: Measure): int {
    if events == [] then 0
    else
      var n := |events| - 1;
      Excess(init, local, events[..n], k, m)
      + (if events[n].RollUp? then OneShot(AcctAt(init, events, n), local, RollAt(events, n).Settled(), RollAt(events, n).Reached(), k, m) else 0)
      + (if Restarts(events, n) then Signed(AcctAt(init, events, n), local, Again(events, n), CursorAfter(events[..n]).value, k, m) else 0)
  }

  // ---- the balance ----

  ghost predicate BalancedAt(init: seq<Flow>, local: Locals, events: seq<Event>, k: PeerKey, m: Measure) {
    var at := CursorAfter(events);
    FoldedAfter(init, local, events, k, m) + Folded(LateAfter(events), local, k, m)
    == (if at.Some? then OneShot(AcctAt(init, events, |events|), local, StartAfter(events), at.value, k, m) else 0)
       + Excess(init, local, events, k, m)
  }

  lemma {:induction false} StartBeforeCursor(events: seq<Event>)
    ensures CursorAfter(events).Some? ==> StartAfter(events) <= CursorAfter(events).value
    ensures CursorAfter(events) == None ==> LateAfter(events) == []
  {
    hide AfterChunks, ChunksFrom, LastStored;
    if events != [] {
      var n := |events| - 1;
      StartBeforeCursor(events[..n]);
      if events[n].RollUp? {
        var roll := RollAt(events, n);
        ChunksMonotone(roll.begin, roll.end, 0, roll.stored);
        RollBegins(CursorAfter(events[..n]), events[n].now, events[n].readable, events[n].failAt, events[n].stores);
      }
    }
  }

  lemma BalanceRoll(init: seq<Flow>, local: Locals, events: seq<Event>, k: PeerKey, m: Measure)
    requires events != [] && events[|events| - 1].RollUp? && BalancedAt(init, local, events[..|events| - 1], k, m)
    ensures BalancedAt(init, local, events, k, m)
  {
    hide AfterChunks, ChunksFrom, LastStored, Folded;
    var n := |events| - 1;
    var front, at, roll, start := events[..n], CursorAfter(events[..n]), RollAt(events, n), StartAfter(events[..n]);
    var acct := AcctAt(init, events, n);
    assert AcctAt(init, events, |events|) == acct && AcctAt(init, front, |front|) == acct by {
      assert events[..|events|] == events && front[..|front|] == front;
      assert Arrivals(events) == Arrivals(front);
    }
    StartBeforeCursor(front);
    RollBegins(at, events[n].now, events[n].readable, events[n].failAt, events[n].stores);
    ChunksMonotone(roll.begin, roll.end, 0, roll.stored);
    ChunksMonotone(roll.begin, roll.end, roll.stored, roll.folded);
    OneShotTiles(acct, local, roll.begin, roll.Settled(), roll.Reached(), k, m);
    EmptyWindow(acct, local, roll.begin, k, m);
    hide OneShot;
    if Restarts(events, n) {
      var from := Again(events, n);
      if roll.begin >= start {
        OneShotTiles(acct, local, start, roll.begin, roll.Settled(), k, m);
        if from <= at.value {
          OneShotTiles(acct, local, start, from, at.value, k, m);
        } else {
          OneShotTiles(acct, local, start, at.value, from, k, m);
        }
      }
    } else if at.Some? && roll.stored > 0 {
      OneShotTiles(acct, local, start, roll.begin, roll.Settled(), k, m);
    }
  }

  /** Events that are no runs move neither cursor nor left end. */
  lemma NoRun(init: seq<Flow>, local: Locals, events: seq<Event>, k: PeerKey, m: Measure)
    requires events != [] && !events[|events| - 1].RollUp?
    ensures var front := events[..|events| - 1];
            && CursorAfter(events) == CursorAfter(front) && StartAfter(events) == StartAfter(front)
            && FoldedAfter(init, local, events, k, m) == FoldedAfter(init, local, front, k, m)
            && Excess(init, local, events, k, m) == Excess(init, local, front, k, m)
  {
    hide RollOf, OneShot, Signed, Arrivals;
  }

  lemma AllArrived(init: seq<Flow>, events: seq<Event>)
    ensures AcctAt(init, events, |events|) == init + Arrivals(events)
  {
    assert events[..|events|] == events;
  }

  lemma OneShotArrival(acct: seq<Flow>, local: Locals, f: Flow, from: int, to: int, k: PeerKey, m: Measure)
    ensures OneShot(acct + [f], local, from, to, k, m)
            == OneShot(acct, local, from, to, k, m) + if from <= f.stamp < to then Share(f, local, k, m) else 0
  {
    assert (acct + [f])[..|acct|] == acct;
  }

  lemma RowsGrow(init: seq<Flow>, events: seq<Event>)
    requires events != [] && events[|events| - 1].Arrival?
    ensures AcctAt(init, events, |events|) == AcctAt(init, events[..|events| - 1], |events| - 1) + [events[|events| - 1].f]
  {
    var front, f := events[..|events| - 1], events[|events| - 1].f;
    AllArrived(init, events);
    AllArrived(init, front);
    assert init + Arrivals(events) == init + Arrivals(front) + [f];
  }

  lemma LateGrow(local: Locals, events: seq<Event>, k: PeerKey, m: Measure)
    requires events != [] && events[|events| - 1].Arrival?
    ensures var front, f := events[..|events| - 1], events[|events| - 1].f;
            var at := CursorAfter(front);
            Folded(LateAfter(events), local, k, m)
            == Folded(LateAfter(front), local, k, m) + if at.Some? && StartAfter(front) <= f.stamp < at.value then Share(f, local, k, m) else 0
  {
    hide CursorAfter, StartAfter, Folded, Share;
    var front, f := events[..|events| - 1], events[|events| - 1].f;
    var late := LateAfter(front);
    var at := CursorAfter(front);
    if at.Some? && StartAfter(front) <= f.stamp < at.value {
      FoldedOne(late, f, local, k, m);
    } else {
      assert late + [] == late;
    }
  }

  lemma BalanceArrival(init: seq<Flow>, local: Locals, events: seq<Event>, k: PeerKey, m: Measure)
    requires events != [] && events[|events| - 1].Arrival? && BalancedAt(init, local, events[..|events| - 1], k, m)
    ensures BalancedAt(init, local, events, k, m)
  {
    hide CursorAfter, StartAfter, LateAfter, FoldedAfter, Excess, Folded, AcctAt, Share, OneShot, Arrivals;
    var front, f := events[..|events| - 1], events[|events| - 1].f;
    var at := CursorAfter(front);
    NoRun(init, local, events, k, m);
    RowsGrow(init, events);
    LateGrow(local, events, k, m);
    if at.Some? {
      OneShotArrival(AcctAt(init, front, |front|), local, f, StartAfter(front), at.value, k, m);
    }
  }

  lemma BalancePrune(init: seq<Flow>, local: Locals, events: seq<Event>, k: PeerKey, m: Measure)
    requires events != [] && events[|events| - 1].Prune? && BalancedAt(init, local, events[..|events| - 1], k, m)
    ensures BalancedAt(init, local, events, k, m)
  {
    var front := events[..|events| - 1];
    NoRun(init, local, events, k, m);
    AllArrived(init, events);
    AllArrived(init, front);
    assert Arrivals(events) == Arrivals(front) && LateAfter(events) == LateAfter(front);
    hide CursorAfter, StartAfter, FoldedAfter, Excess, Folded, AcctAt, OneShot, LateAfter;
  }

  /** After any history, what was folded plus what came too late is the one-shot aggregation up to the cursor
      plus the excess. */
  lemma {:induction false} AlwaysBalanced(init: seq<Flow>, local: Locals, events: seq<Event>, k: PeerKey, m: Measure)
    ensures BalancedAt(init, local, events, k, m)
  {
    hide BalancedAt;
    if events == [] {
      BalancedAtFirst(init, local, k, m);
    } else {
      AlwaysBalanced(init, local, events[..|events| - 1], k, m);
      match events[|events| - 1]
      case Arrival(_) => BalanceArrival(init, local, events, k, m);
      case RollUp(_, _, _, _) => BalanceRoll(init, local, events, k, m);
      case Prune(_) => BalancePrune(init, local, events, k, m);
    }
  }

  lemma BalancedAtFirst(init: seq<Flow>, local: Locals, k: PeerKey, m: Measure)
    ensures BalancedAt(init, local, [], k, m)
  {
  }

  // ---- when there is no excess ----

  /** No row that counts lies in a window. */
  ghost predicate Quiet(acct: seq<Flow>, local: Locals, from: int, to: int) {
    forall f <- acct :: from <= f.stamp < to ==> KeyOf(f, local) == None
  }

  /** A restart leaves no gap: the old cursor is not more than eight days back. */
  ghost predicate Gapless(events: seq<Event>) {
    forall n | 0 <= n < |events| && Restarts(events, n) :: RollAt(events, n).begin <= CursorAfter(events[..n]).value
  }

  /** No row that counts lies in a window this run folds without a stored cursor, or folds again. */
  ghost predicate QuietTail(init: seq<Flow>, local: Locals, events: seq<Event>, n: nat)
    requires n < |events| && events[n].RollUp?
  {
    && Quiet(AcctAt(init, events, n), local, RollAt(events, n).Settled(), RollAt(events, n).Reached())
    && (Restarts(events, n) ==> Quiet(AcctAt(init, events, n), local, Again(events, n), CursorAfter(events[..n]).value))
  }

  /** When the cursor can be read and the last store of a run succeeds, there is no such window at all. */
  lemma StoredTailIsEmpty(events: seq<Event>, n: nat)
    requires n < |events| && events[n].RollUp? && events[n].readable
    requires var last := RollAt(events, n).folded; last > 0 ==> last - 1 >= |events[n].stores| || events[n].stores[last - 1]
    ensures RollAt(events, n).Settled() == RollAt(events, n).Reached() && !Restarts(events, n)
  {
  }

  ghost predicate NothingIn(acct: seq<Flow>, local: Locals, from: int, to: int) {
    forall k: PeerKey, m: Measure :: OneShot(acct, local, from, to, k, m) == 0
  }

  lemma CountedRow(acct: seq<Flow>, local: Locals, from: int, to: int)
    requires acct != [] && from <= acct[|acct| - 1].stamp < to && KeyOf(acct[|acct| - 1], local).Some?
    ensures OneShot(acct, local, from, to, KeyOf(acct[|acct| - 1], local).value, Flows) > 0
  {
  }

  /** A window aggregates to nothing exactly when no row in it counts. */
  lemma {:induction false} QuietWindow(acct: seq<Flow>, local: Locals, from: int, to: int)
    ensures NothingIn(acct, local, from, to) <==> Quiet(acct, local, from, to)
  {
    if acct != [] {
      var n := |acct| - 1;
      var f := acct[n];
      QuietWindow(acct[..n], local, from, to);
      assert acct == acct[..n] + [f];
      if from <= f.stamp < to && KeyOf(f, local).Some? {
        CountedRow(acct, local, from, to);
      }
      if NothingIn(acct, local, from, to) {
        forall k: PeerKey, m: Measure ensures OneShot(acct[..n], local, from, to, k, m) == 0 {
          assert OneShot(acct, local, from, to, k, m) == 0;
        }
      }
      if Quiet(acct, local, from, to) {
        forall k: PeerKey, m: Measure ensures OneShot(acct, local, from, to, k, m) == 0 {
          assert OneShot(acct[..n], local, from, to, k, m) == 0;
        }
      }
    }
  }

  ghost predicate NoExcess(init: seq<Flow>, local: Locals, events: seq<Event>) {
    forall k: PeerKey, m: Measure :: Excess(init, local, events, k, m) == 0
  }

  ghost predicate QuietTails(init: seq<Flow>, local: Locals, events: seq<Event>) {
    forall n | 0 <= n < |events| && events[n].RollUp? :: QuietTail(init, local, events, n)
  }

  /** What event n adds to the excess. */
  function ExcessOf(init: seq<Flow>, local: Locals, events: seq<Event>, n: nat, k: PeerKey, m: Measure): int
    requires n < |events|
  {
    (if events[n].RollUp? then OneShot(AcctAt(init, events, n), local, RollAt(events, n).Settled(), RollAt(events, n).Reached(), k, m) else 0)
    + (if Restarts(events, n) then Signed(AcctAt(init, events, n), local, Again(events, n), CursorAfter(events[..n]).value, k, m) else 0)
  }

  lemma ExcessStep(init: seq<Flow>, local: Locals, events: seq<Event>, k: PeerKey, m: Measure)
    requires events != []
    ensures Excess(init, local, events, k, m) == Excess(init, local, events[..|events| - 1], k, m) + ExcessOf(init, local, events, |events| - 1, k, m)
  {
    hide OneShot, RollOf, CursorAfter, StartAfter, Signed;
  }

  /** Without gaps an event never takes anything away, and it adds nothing exactly when its windows are quiet. */
  lemma EventAddsNothingIff(init: seq<Flow>, local: Locals, events: seq<Event>, n: nat)
    requires n < |events| && (Restarts(events, n) ==> RollAt(events, n).begin <= CursorAfter(events[..n]).value)
    ensures forall k: PeerKey, m: Measure :: ExcessOf(init, local, events, n, k, m) >= 0
    ensures (forall k: PeerKey, m: Measure :: ExcessOf(init, local, events, n, k, m) == 0)
            <==> (events[n].RollUp? ==> QuietTail(init, local, events, n))
  {
    if events[n].RollUp? {
      StartBeforeCursor(events[..n]);
      var acct, roll := AcctAt(init, events, n), RollAt(events, n);
      QuietWindow(acct, local, roll.Settled(), roll.Reached());
      if Restarts(events, n) {
        QuietWindow(acct, local, Again(events, n), CursorAfter(events[..n]).value);
      }
      hide OneShot, RollOf, CursorAfter, StartAfter, Quiet, AfterChunks;
      if forall k: PeerKey, m: Measure :: ExcessOf(init, local, events, n, k, m) == 0 {
        forall k: PeerKey, m: Measure
          ensures OneShot(acct, local, roll.Settled(), roll.Reached(), k, m) == 0
          ensures Restarts(events, n) ==> OneShot(acct, local, Again(events, n), CursorAfter(events[..n]).value, k, m) == 0
        {
          assert ExcessOf(init, local, events, n, k, m) == 0;
        }
      }
    }
  }

  lemma {:induction false} ExcessGrows(init: seq<Flow>, local: Locals, events: seq<Event>, k: PeerKey, m: Measure)
    requires Gapless(events)
    ensures Excess(init, local, events, k, m) >= 0
  {
    hide ExcessOf, Restarts, RollAt, CursorAfter;
    if events != [] {
      GaplessFront(events);
      ExcessGrows(init, local, events[..|events| - 1], k, m);
      ExcessStep(init, local, events, k, m);
      EventAddsNothingIff(init, local, events, |events| - 1);
    }
  }

  lemma GaplessFront(events: seq<Event>)
    requires events != [] && Gapless(events)
    ensures Gapless(events[..|events| - 1])
  {
    hide RollOf, CursorAfter;
    var front := events[..|events| - 1];
    forall n | 0 <= n < |front| && Restarts(front, n) ensures RollAt(front, n).begin <= CursorAfter(front[..n]).value {
      assert front[..n] == events[..n];
      assert Restarts(events, n);
    }
  }

  /** In a history without gaps the excess vanishes exactly when every such window is quiet. */
  lemma {:induction false} ExcessVanishesIff(init: seq<Flow>, local: Locals, events: seq<Event>)
    requires Gapless(events)
    ensures NoExcess(init, local, events) <==> QuietTails(init, local, events)
  {
    hide QuietTail, NoExcess, QuietTails, Gapless;
    if events == [] {
      NoEvents(init, local);
    } else {
      GaplessFront(events);
      ExcessVanishesIff(init, local, events[..|events| - 1]);
      ExcessSplits(init, local, events);
      TailsSplit(init, local, events);
    }
  }

  lemma NoEvents(init: seq<Flow>, local: Locals)
    ensures NoExcess(init, local, []) && QuietTails(init, local, [])
  {
  }

  lemma TailsSplit(init: seq<Flow>, local: Locals, events: seq<Event>)
    requires events != []
    ensures var n := |events| - 1;
            QuietTails(init, local, events)
            <==> QuietTails(init, local, events[..n]) && (events[n].RollUp? ==> QuietTail(init, local, events, n))
  {
    hide Arrivals, RollOf, CursorAfter, StartAfter, Quiet;
    var n, front := |events| - 1, events[..|events| - 1];
    forall j | 0 <= j < n && events[j].RollUp? ensures QuietTail(init, local, front, j) <==> QuietTail(init, local, events, j) {
      assert front[..j] == events[..j];
    }
    if QuietTails(init, local, events) {
      forall j | 0 <= j < n && front[j].RollUp? ensures QuietTail(init, local, front, j) {
        assert QuietTail(init, local, events, j);
      }
    }
    if QuietTails(init, local, front) && (events[n].RollUp? ==> QuietTail(init, local, events, n)) {
      forall j | 0 <= j < |events| && events[j].RollUp? ensures QuietTail(init, local, events, j) {
        assert j < n ==> QuietTail(init, local, front, j);
      }
    }
  }

  lemma ExcessSplits(init: seq<Flow>, local: Locals, events: seq<Event>)
    requires events != [] && Gapless(events)
    ensures var n := |events| - 1;
            NoExcess(init, local, events)
            <==> NoExcess(init, local, events[..n]) && (events[n].RollUp? ==> QuietTail(init, local, events, n))
  {
    var n, front := |events| - 1, events[..|events| - 1];
    EventAddsNothingIff(init, local, events, n);
    GaplessFront(events);
    hide QuietTail, ExcessOf, Excess, Gapless;
    forall k: PeerKey, m: Measure
      ensures Excess(init, local, events, k, m) == Excess(init, local, front, k, m) + ExcessOf(init, local, events, n, k, m)
      ensures Excess(init, local, front, k, m) >= 0
    {
      ExcessStep(init, local, events, k, m);
      ExcessGrows(init, local, front, k, m);
    }
    if NoExcess(init, local, events) {
      forall k: PeerKey, m: Measure ensures Excess(init, local, front, k, m) == 0 && ExcessOf(init, local, events, n, k, m) == 0 {
        assert Excess(init, local, events, k, m) == 0;
      }
    }
    if NoExcess(init, local, front) && (forall k: PeerKey, m: Measure :: ExcessOf(init, local, events, n, k, m) == 0) {
      forall k: PeerKey, m: Measure ensures Excess(init, local, events, k, m) == 0 {
        assert Excess(init, local, front, k, m) == 0;
      }
    }
  }

  // ---- runs ----

  /** What the class's accounts are after some events. */
  ghost predicate Accounted(r: PeerRollup, init: seq<Flow>, events: seq<Event>)
    reads r
  {
    && r.acct == init + Arrivals(events) && r.cursor == CursorAfter(events)
    && r.books.start == StartAfter(events) && r.books.late == LateAfter(events) && r.books.prunedDay == PrunedAfter(events)
    && forall k: PeerKey, m: Measure :: Folded(r.books.folded, r.local, k, m) == FoldedAfter(init, r.local, events, k, m)
  }

  /** One event. */
  method Step(r: PeerRollup, ghost init: seq<Flow>, events: seq<Event>)
    requires events != [] && r.Valid() && Accounted(r, init, events[..|events| - 1])
    modifies r
    ensures r.Valid() && Accounted(r, init, events)
  {
    hide PeerRollup.Valid, Folded, OneShot, AfterChunks, ChunksFrom, LastStored;
    var n := |events| - 1;
    match events[n]
    case Arrival(f) =>
      assert init + Arrivals(events[..n]) + [f] == init + Arrivals(events);
      r.Arrive(f);
    case RollUp(now, readable, failAt, stores) =>
      assert Arrivals(events) == Arrivals(events[..n]);
      var _ := r.RunPeers(now, readable, failAt, stores);
      assert RollAt(events, n) == RollOf(CursorAfter(events[..n]), now, readable, failAt, stores);
    case Prune(day) =>
      assert Arrivals(events) == Arrivals(events[..n]);
      r.PruneDays(day);
  }

  /** The table over the days never pruned is the one-shot aggregation up to the cursor. */
  ghost predicate Exact(r: PeerRollup, events: seq<Event>)
    reads r
    requires r.cursor.Some?
  {
    forall k: PeerKey, m: Measure :: At(r.peers, k, m) == OneShot(r.acct, r.local, StartAfter(events), r.cursor.value, k, m)
  }

  /** Any history of arrivals, rollup runs, failed or not, and prunes, from no cursor. For every host, peer
      and day never pruned, what the table holds plus what came too late is the one-shot aggregation up to the
      cursor plus the excess. With nothing late and nothing pruned the table is that aggregation if and only
      if nothing is in excess, which without gaps means that no row that counts lies in a window folded
      without a stored cursor or folded again after the cursor could not be read. */
  method Run(r: PeerRollup, events: seq<Event>)
    requires r.Valid() && r.cursor == None && r.books == Accounts(0, [], [], None)
    modifies r
    ensures r.Valid() && Accounted(r, old(r.acct), events)
    ensures r.cursor.Some? ==>
              forall k: PeerKey, m: Measure :: (r.books.prunedDay == None || k.day >= r.books.prunedDay.value) ==>
                At(r.peers, k, m) + Folded(LateAfter(events), r.local, k, m)
                == OneShot(r.acct, r.local, StartAfter(events), r.cursor.value, k, m) + Excess(old(r.acct), r.local, events, k, m)
    ensures r.cursor.Some? && LateAfter(events) == [] && PrunedAfter(events) == None ==>
              && (Exact(r, events) <==> NoExcess(old(r.acct), r.local, events))
              && (Gapless(events) ==> (Exact(r, events) <==> QuietTails(old(r.acct), r.local, events)))
  {
    assert events[..0] == [] && r.acct + [] == r.acct;
    for i := 0 to |events|
      invariant r.Valid() && Accounted(r, old(r.acct), events[..i])
    {
      hide PeerRollup.Valid, Accounted;
      assert events[..i + 1][..i] == events[..i];
      Step(r, old(r.acct), events[..i + 1]);
    }
    assert events[..|events|] == events;
    if r.cursor.Some? {
      Read(r, old(r.acct), events);
      if LateAfter(events) == [] && PrunedAfter(events) == None {
        ExactIff(r, old(r.acct), events);
        if Gapless(events) {
          ExcessVanishesIff(old(r.acct), r.local, events);
        }
      }
    }
  }

  lemma ExactIff(r: PeerRollup, init: seq<Flow>, events: seq<Event>)
    requires r.Valid() && Accounted(r, init, events) && r.cursor.Some? && LateAfter(events) == [] && PrunedAfter(events) == None
    ensures Exact(r, events) <==> NoExcess(init, r.local, events)
  {
    Read(r, init, events);
    hide PeerRollup.Valid, At, OneShot, Excess, CursorAfter, StartAfter, LateAfter, PrunedAfter, Arrivals;
    forall k: PeerKey, m: Measure
      ensures At(r.peers, k, m) == OneShot(r.acct, r.local, StartAfter(events), r.cursor.value, k, m) + Excess(init, r.local, events, k, m)
    {
      assert Folded(r.books.late, r.local, k, m) == 0;
    }
    if Exact(r, events) {
      forall k: PeerKey, m: Measure ensures Excess(init, r.local, events, k, m) == 0 {
        assert At(r.peers, k, m) == OneShot(r.acct, r.local, StartAfter(events), r.cursor.value, k, m);
      }
    }
  }

  /** Reading the accounts. */
  lemma Read(r: PeerRollup, init: seq<Flow>, events: seq<Event>)
    requires r.Valid() && Accounted(r, init, events) && r.cursor.Some?
    ensures forall k: PeerKey, m: Measure :: (r.books.prunedDay == None || k.day >= r.books.prunedDay.value) ==>
              At(r.peers, k, m) + Folded(r.books.late, r.local, k, m)
              == OneShot(r.acct, r.local, r.books.start, r.cursor.value, k, m) + Excess(init, r.local, events, k, m)
  {
    hide At, OneShot, Excess, CursorAfter, StartAfter, LateAfter, PrunedAfter, Arrivals, KeyOf, FoldedAfter;
    forall k: PeerKey, m: Measure | r.books.prunedDay == None || k.day >= r.books.prunedDay.value
      ensures At(r.peers, k, m) + Folded(r.books.late, r.local, k, m)
              == OneShot(r.acct, r.local, r.books.start, r.cursor.value, k, m) + Excess(init, r.local, events, k, m)
    {
      AlwaysBalanced(init, r.local, events, k, m);
      assert events[..|events|] == events;
      assert Folded(r.books.folded, r.local, k, m) == FoldedAfter(init, r.local, events, k, m);
    }
  }
}
