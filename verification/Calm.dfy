/** Runs of the agent loop in which nothing is lost but what the server rejects, and runs that drain the
    spool: conditions on what the world supplies, and what then follows (pmacct-agent/src/runner.rs). */
module Calm {
  import opened Numbers
  import opened Sets
  import opened Wire
  import opened Aggregation
  import opened Spooling
  import opened Ingest
  import opened Bookkeeping
  import opened Turns
  import opened Runs

  // ---- files on the spool ----

  /** The files of fs' are among fs or carry one of the stamps, and take no more room than that. */
  ghost predicate Within(fs: seq<SpoolFile>, stamps: set<int>, files: nat, bytes: nat) {
    |fs| <= files && Bytes(fs) <= bytes && forall f <- fs :: f.stamp in stamps
  }

  lemma SuffixWithin(fs: seq<SpoolFile>, n: nat, stamps: set<int>, files: nat, bytes: nat)
    requires n <= |fs| && Within(fs, stamps, files, bytes)
    ensures Within(fs[n..], stamps, files, bytes)
  {
    BytesAppend(fs[..n], fs[n..]);
    assert fs == fs[..n] + fs[n..];
  }

  lemma FlushTurnFiles(d: Desk, u: UploadInput)
    ensures var (d', step), fs := FlushTurn(d, u), Trimmed(d.files);
            d'.files == if step == Sent then fs[1..] else fs
    ensures var (_, step), fs := FlushTurn(d, u), Trimmed(d.files);
            step == if fs == [] then Empty else if Acked(d.table, fs[0].content.batch, u) then Sent else Failed
  {
    hide AfterUpload, TableAfter, Acked;
  }

  lemma FlushTurnTable(d: Desk, u: UploadInput)
    ensures var (d', step) := FlushTurn(d, u); step == Failed && u.1 == NoFault ==> d'.table == d.table
  {
    hide AfterUpload;
  }

  lemma {:induction false} FlushWithin(d: Desk, us: seq<UploadInput>, n: nat, stamps: set<int>, files: nat, bytes: nat)
    requires Within(d.files, stamps, files, bytes)
    ensures Within(FlushFrom(d, us, n).desk.files, stamps, files, bytes)
    decreases FLUSH_LIMIT - n
  {
    hide Within, FlushTurn, Trimmed;
    if n < FLUSH_LIMIT {
      var u, fs := InputAt(us, n), Trimmed(d.files);
      var (d', step) := FlushTurn(d, u);
      FlushTurnFiles(d, u);
      SuffixWithin(d.files, |d.files| - |fs|, stamps, files, bytes);
      if fs != [] {
        SuffixWithin(fs, 1, stamps, files, bytes);
      }
      if step == Sent {
        FlushWithin(d', us, n + 1, stamps, files, bytes);
      }
    }
  }

  /** A push that works, with room for one more file and a new stamp, adds the file and loses nothing. */
  lemma CalmPush(d: Desk, batch: EventsBatch, push: PushInput, c: Config, stamps: set<int>, files: nat, bytes: nat)
    requires Within(d.files, stamps, files, bytes)
    requires files < c.maxFiles && bytes + push.size <= c.maxBytes && push.disk == Works && forall s <- stamps :: s < push.stamp
    ensures var d' := Pushed(d, batch, push, c);
            && Within(d'.files, stamps + {push.stamp}, files + 1, bytes + push.size)
            && OnlyRejections(d.books.lost, d'.books.lost)
  {
    hide Pushed;
    var f := FileOf(batch, push);
    CalmPushed(d, batch, push, c, stamps, files, bytes);
    hide Bytes;
    OneMoreFile(d.files, f);
    var ls := d.books.lost;
    assert ls + [Loss(Evicted, [])] + [Loss(Overwritten, [])] == ls + [Loss(Evicted, []), Loss(Overwritten, [])];
  }

  lemma CalmPushed(d: Desk, batch: EventsBatch, push: PushInput, c: Config, stamps: set<int>, files: nat, bytes: nat)
    requires Within(d.files, stamps, files, bytes)
    requires files < c.maxFiles && bytes + push.size <= c.maxBytes && push.disk == Works && forall s <- stamps :: s < push.stamp
    ensures Pushed(d, batch, push, c)
            == d.(files := d.files + [FileOf(batch, push)], books := d.books.Lose(Evicted, []).Lose(Overwritten, []))
  {
    assert EvictedBy(d.files, push, c) == 0;
    hide EvictCount, Bytes;
    assert d.files[0..] == d.files && d.files[..0] == [];
    WrittenNewest(d.files, FileOf(batch, push));
    hide Written, Clobbered;
    assert AllConns([]) == [];
  }

  lemma OneMoreFile(fs: seq<SpoolFile>, f: SpoolFile)
    ensures Bytes(fs + [f]) == Bytes(fs) + f.size
  {
    BytesAppend(fs, [f]);
    assert [f][1..] == [];
  }

  // ---- what a calm world supplies ----

  /** Everything lost since was turned away by the server. */
  ghost predicate OnlyRejections(ls: seq<Loss>, ls': seq<Loss>) {
    ls <= ls' && forall i | |ls| <= i < |ls'| :: ls'[i].cause == RejectedByServer || ls'[i].conns == []
  }

  lemma RejectionsMore(a: seq<Loss>, b: seq<Loss>, d: seq<Loss>)
    requires OnlyRejections(a, b) && OnlyRejections(b, d)
    ensures OnlyRejections(a, d)
  {
    forall i | |a| <= i < |d| ensures d[i].cause == RejectedByServer || d[i].conns == [] {
      if i < |b| {
        assert d[i] == b[i];
      }
    }
  }

  function PushesIn(events: seq<Event>): nat {
    if events == [] then 0 else PushesIn(events[..|events| - 1]) + if PushOf(events[|events| - 1]).Some? then 1 else 0
  }

  function PushBytesIn(events: seq<Event>): nat {
    if events == [] then 0
    else PushBytesIn(events[..|events| - 1]) + if PushOf(events[|events| - 1]).Some? then PushOf(events[|events| - 1]).value.size else 0
  }

  /** The stamps on the spool, and those used since. */
  function Stamps(fs: seq<SpoolFile>, events: seq<Event>): set<int> {
    if events == [] then set f <- fs :: f.stamp
    else
      var e := events[|events| - 1];
      if PushOf(e).Some? then Stamps(fs, events[..|events| - 1]) + {PushOf(e).value.stamp} else Stamps(fs, events[..|events| - 1])
  }

  /** The disk works, file names move on, no update is installed, and every cap is wide enough for all that
      could be observed and spooled. */
  ghost predicate IsCalm(events: seq<Event>, files: seq<SpoolFile>, c: Config) {
    && |SeenIn(events, c.sendCmdline)| <= c.maxEntries && |SeenIn(events, c.sendCmdline)| <= U32_MAX
    && |files| + PushesIn(events) <= c.maxFiles && Bytes(files) + PushBytesIn(events) <= c.maxBytes
    && (forall n | 0 <= n < |events| :: CalmAt(events, n, files))
  }

  ghost predicate CalmAt(events: seq<Event>, n: nat, files: seq<SpoolFile>)
    requires n < |events|
  {
    var e := events[n];
    && (e.Send? ==> !(e.input.offersUpdate && e.input.installs))
    && (PushOf(e).Some? ==>
          && PushOf(e).value.disk == Works
          && forall s <- Stamps(files, events[..n]) :: s < PushOf(e).value.stamp)
  }

  // ---- polls that lose nothing ----

  lemma {:induction false} CalmPoll(b: Books, es: Entries, max: nat, ones: seq<ConnRecord>, seen: seq<ConnRecord>)
    requires Witnessed(es, seen) && |es| <= |seen| && |seen| + |ones| <= max && |seen| + |ones| <= U32_MAX
    requires forall r <- ones :: r.count == 1
    ensures BookedAll(b, es, max, ones).lost == b.lost
  {
    hide Noted;
    if ones != [] {
      var n := |ones| - 1;
      assert ones[n] in ones && forall r <- ones[..n] :: r in ones;
      CalmPoll(b, es, max, ones[..n], seen);
      NotedAllWitnessed(es, max, ones[..n], seen);
      SightingsBound(seen + ones[..n], (ones[n].minute, ones[n].key));
      assert !FateAt(es, max, ones, n).Dropped? && !FateAt(es, max, ones, n).Saturated?;
    }
  }

  // ---- calm turns ----

  lemma UploadRejects(d: Desk, batch: EventsBatch, u: UploadInput)
    ensures OnlyRejections(d.books.lost, DeskAfter(d, batch, u).books.lost)
  {
    hide TableAfter, Storable;
  }

  lemma {:induction false} FlushRejects(d: Desk, us: seq<UploadInput>, n: nat)
    ensures OnlyRejections(d.books.lost, FlushFrom(d, us, n).desk.books.lost)
    decreases FLUSH_LIMIT - n
  {
    hide DeskAfter, FlushTurn, Trimmed, OnlyRejections;
    if n < FLUSH_LIMIT {
      var u, fs := InputAt(us, n), Trimmed(d.files);
      var (d', step) := FlushTurn(d, u);
      FlushTurnBooks(d, u);
      if fs != [] {
        UploadRejects(d, fs[0].content.batch, u);
      } else {
        NoRejections(d.books.lost);
      }
      if step == Sent {
        FlushRejects(d', us, n + 1);
        RejectionsMore(d.books.lost, d'.books.lost, FlushFrom(d', us, n + 1).desk.books.lost);
      }
    } else {
      NoRejections(d.books.lost);
    }
  }

  lemma NoRejections(ls: seq<Loss>)
    ensures OnlyRejections(ls, ls)
  {
  }

  lemma CalmSend(s: Snap, i: SendInput, conns: seq<ConnRecord>, c: Config, stamps: set<int>, files: nat, bytes: nat)
    requires Within(s.desk.files, stamps, files, bytes) && !(i.offersUpdate && i.installs)
    requires files < c.maxFiles && bytes + i.push.size <= c.maxBytes && i.push.disk == Works && forall t <- stamps :: t < i.push.stamp
    ensures var s' := SendAfter(s, i, conns, c).0;
            && Within(s'.desk.files, stamps + {i.push.stamp}, files + 1, bytes + i.push.size)
            && OnlyRejections(s.desk.books.lost, s'.desk.books.lost)
  {
    hide DeskAfter, Acked, Pushed, FlushFrom, Staying, OnlyRejections, Within;
    var batch := BatchOf(s, conns, i.identities);
    var d := DeskAfter(s.desk, batch, i.upload);
    DeskKeepsFiles(s.desk, batch, i.upload);
    NoRejections(s.desk.books.lost);
    MoreRoom(s.desk.files, stamps, files, bytes, i.push);
    UploadRejects(s.desk, batch, i.upload);
    if !IsIdle(s, i, conns) {
      if Acked(s.desk.table, batch, i.upload) {
        FlushWithin(d, i.flush, 0, stamps, files, bytes);
        MoreRoom(FlushFrom(d, i.flush, 0).desk.files, stamps, files, bytes, i.push);
        FlushRejects(d, i.flush, 0);
        RejectionsMore(s.desk.books.lost, d.books.lost, FlushFrom(d, i.flush, 0).desk.books.lost);
      } else {
        CalmPush(d, batch, i.push, c, stamps, files, bytes);
        RejectionsMore(s.desk.books.lost, d.books.lost, Pushed(d, batch, i.push, c).books.lost);
      }
    }
  }

  lemma MoreRoom(fs: seq<SpoolFile>, stamps: set<int>, files: nat, bytes: nat, push: PushInput)
    requires Within(fs, stamps, files, bytes)
    ensures Within(fs, stamps + {push.stamp}, files + 1, bytes + push.size)
  {
  }

  lemma CalmStop(s: Snap, e: Event, conns: seq<ConnRecord>, c: Config, stamps: set<int>, files: nat, bytes: nat)
    requires e.Stop? && Within(s.desk.files, stamps, files, bytes)
    requires files < c.maxFiles && bytes + e.stopPush.size <= c.maxBytes && e.stopPush.disk == Works && forall t <- stamps :: t < e.stopPush.stamp
    ensures var s' := StopAfter(s, e, conns, c);
            && Within(s'.desk.files, stamps + {e.stopPush.stamp}, files + 1, bytes + e.stopPush.size)
            && OnlyRejections(s.desk.books.lost, s'.desk.books.lost)
  {
    hide DeskAfter, Acked, Pushed, OnlyRejections, Within;
    var batch := BatchOf(s, conns, e.stopIdentities);
    var d := DeskAfter(s.desk, batch, e.stopUpload);
    DeskKeepsFiles(s.desk, batch, e.stopUpload);
    NoRejections(s.desk.books.lost);
    MoreRoom(s.desk.files, stamps, files, bytes, e.stopPush);
    UploadRejects(s.desk, batch, e.stopUpload);
    if conns != [] && !Acked(s.desk.table, batch, e.stopUpload) {
      CalmPush(d, batch, e.stopPush, c, stamps, files, bytes);
      RejectionsMore(s.desk.books.lost, d.books.lost, Pushed(d, batch, e.stopPush, c).books.lost);
    }
  }

  lemma CalmTurn(s: Snap, e: Event, s': Snap, c: Config, seen: seq<ConnRecord>, stamps: set<int>, files: nat, bytes: nat)
    requires Turn(s, e, s', c) && Witnessed(s.entries, seen) && |s.entries| <= |seen|
    requires var n := |seen| + |SeenBy(e, c.sendCmdline)|; n <= c.maxEntries && n <= U32_MAX
    requires Within(s.desk.files, stamps, files, bytes)
    requires e.Send? ==> !(e.input.offersUpdate && e.input.installs)
    requires PushOf(e).Some? ==>
               var push := PushOf(e).value;
               files < c.maxFiles && bytes + push.size <= c.maxBytes && push.disk == Works && forall t <- stamps :: t < push.stamp
    ensures OnlyRejections(s.desk.books.lost, s'.desk.books.lost)
    ensures if PushOf(e).Some? then Within(s'.desk.files, stamps + {PushOf(e).value.stamp}, files + 1, bytes + PushOf(e).value.size)
            else Within(s'.desk.files, stamps, files, bytes)
  {
    hide SendAfter, StopAfter, IsDrain, NotedAll, BookedAll, DroppedAmong, Within, OnlyRejections, Witnessed;
    NoRejections(s.desk.books.lost);
    match e
    case Poll(now, sockets) => CalmPoll(s.desk.books, s.entries, c.maxEntries, Seen(now, sockets, c.sendCmdline), seen);
    case CaptureError =>
    case StopFalse =>
    case Send(i) =>
      var conns :| IsDrain(conns, s.entries, i.now, false) && s' == SendAfter(s, i, conns, c).0;
      CalmSend(s, i, conns, c, stamps, files, bytes);
    case Stop(now, _, _, _) =>
      var conns :| IsDrain(conns, s.entries, now, true) && s' == StopAfter(s, e, conns, c);
      CalmStop(s, e, conns, c, stamps, files, bytes);
  }

  lemma CalmFront(events: seq<Event>, files: seq<SpoolFile>, c: Config)
    requires IsCalm(events, files, c) && events != []
    ensures IsCalm(events[..|events| - 1], files, c) && CalmAt(events, |events| - 1, files)
  {
    var n := |events| - 1;
    forall j | 0 <= j < n ensures CalmAt(events[..n], j, files) {
      assert CalmAt(events, j, files);
      assert events[..n][..j] == events[..j];
    }
  }

  /** Runs that start with an empty memory in a calm world lose nothing but what the server rejects, whatever
      uploads fail and whichever acknowledgements get lost. */
  lemma {:induction false} CalmRunsLoseNothing(trace: seq<Snap>, events: seq<Event>, c: Config)
    requires IsTrace(trace, events, c) && trace[0].entries == map[] && IsCalm(events, trace[0].desk.files, c)
    ensures OnlyRejections(trace[0].desk.books.lost, trace[|events|].desk.books.lost)
    ensures WithinAfter(trace[|events|].desk.files, trace[0].desk.files, events)
  {
    hide Turn, Witnessed, OnlyRejections, IsCalm, CalmAt, WithinAfter, SeenIn;
    var n, files := |events|, trace[0].desk.files;
    if n == 0 {
      NoRejections(trace[0].desk.books.lost);
      WithinAtStart(files);
    } else {
      var front := events[..n - 1];
      TraceFront(trace, events, c);
      CalmFront(events, files, c);
      CalmRunsLoseNothing(trace[..n], front, c);
      assert trace[..n][n - 1] == trace[n - 1];
      TraceWitnessed(trace[..n], front, c);
      CalmStep(trace[n - 1], trace[n], events, files, c);
      RejectionsMore(trace[0].desk.books.lost, trace[n - 1].desk.books.lost, trace[n].desk.books.lost);
    }
  }

  // ---- room at every event ----

  /** Nothing of an event can get lost in this state but what the server rejects: a poll finds room in the map
      and below the counters' end, no update is installed, and a failing upload finds room on a disk that
      works, under a name no file has. */
  ghost predicate RoomAt(s: Snap, e: Event, c: Config) {
    && (e.Poll? ==> var ones := SeenBy(e, c.sendCmdline);
                    forall j | 0 <= j < |ones| :: !FateAt(s.entries, c.maxEntries, ones, j).Dropped? && !FateAt(s.entries, c.maxEntries, ones, j).Saturated?)
    && (e.Send? ==> !(TriesUpdate(s, e.input) && e.input.installs))
    && (PushOf(e).Some? && UploadFails(e, s) ==>
          var push := PushOf(e).value;
          && HasRoom(push, c) && push.disk == Works && !SpoolFull(s.desk.files, push, c)
          && forall f <- s.desk.files :: f.stamp != push.stamp)
  }

  lemma RoomLeavesNoExcuse(l: Loss, e: Event, s: Snap, c: Config)
    requires RoomAt(s, e, c) && ExcusedBy(l, e, s, c)
    ensures l.cause == RejectedByServer || l.conns == []
  {
    hide UploadFails, SpoolFull, HasRoom, TriesUpdate, NotedAll, EvictedBy;
    if e.Poll? && exists j: nat :: LostAtPoll(l, s.entries, c.maxEntries, SeenBy(e, c.sendCmdline), j) {
      var j: nat :| LostAtPoll(l, s.entries, c.maxEntries, SeenBy(e, c.sendCmdline), j);
      LostMeansFull(l, s.entries, c.maxEntries, SeenBy(e, c.sendCmdline), j);
    }
  }

  lemma LostMeansFull(l: Loss, es: Entries, max: nat, ones: seq<ConnRecord>, j: nat)
    requires LostAtPoll(l, es, max, ones, j)
    ensures FateAt(es, max, ones, j).Dropped? || FateAt(es, max, ones, j).Saturated?
  {
    hide NotedAll;
  }

  /** While every event of a run finds room in the state it meets, however long the run, nothing is lost but
      what the server rejects. */
  lemma RoomyRunsLoseNothing(trace: seq<Snap>, events: seq<Event>, c: Config)
    requires IsTrace(trace, events, c) && forall n | 0 <= n < |events| :: RoomAt(trace[n], events[n], c)
    ensures OnlyRejections(trace[0].desk.books.lost, trace[|events|].desk.books.lost)
  {
    hide Turn, ExcusedBy, RoomAt;
    LossesExplained(trace, events, c);
    var ls, ls' := trace[0].desk.books.lost, trace[|events|].desk.books.lost;
    forall i | |ls| <= i < |ls'| ensures ls'[i].cause == RejectedByServer || ls'[i].conns == [] {
      var n :| 0 <= n < |events| && ExcusedBy(ls'[i], events[n], trace[n], c);
      RoomLeavesNoExcuse(ls'[i], events[n], trace[n], c);
    }
  }

  ghost predicate CountsWithin(es: Entries, b: nat) {
    forall k <- es :: es[k].count <= b
  }

  lemma NotedOne(es: Entries, max: nat, one: ConnRecord, b: nat)
    requires CountsWithin(es, b) && one.count == 1
    ensures CountsWithin(Noted(es, max, one), b + 1) && |Noted(es, max, one)| <= |es| + 1
  {
    hide SatAdd64;
    var k := (one.minute, one.key);
    SubsetSize(Noted(es, max, one).Keys, es.Keys + {k});
  }

  lemma {:induction false} NotedBounds(es: Entries, max: nat, ones: seq<ConnRecord>, b: nat)
    requires CountsWithin(es, b) && forall r <- ones :: r.count == 1
    ensures CountsWithin(NotedAll(es, max, ones), b + |ones|) && |NotedAll(es, max, ones)| <= |es| + |ones|
  {
    hide CountsWithin, Noted;
    if ones != [] {
      var n := |ones| - 1;
      assert ones[n] in ones && forall r <- ones[..n] :: r in ones;
      NotedBounds(es, max, ones[..n], b);
      NotedOne(NotedAll(es, max, ones[..n]), max, ones[n], b + n);
    }
  }

  /** For a poll it is enough that the map and every counter have room for as many observations as it makes. */
  lemma RoomForPoll(s: Snap, e: Event, c: Config, b: nat)
    requires e.Poll? && |s.entries| + |SeenBy(e, c.sendCmdline)| <= c.maxEntries
    requires CountsWithin(s.entries, b) && b + |SeenBy(e, c.sendCmdline)| <= U32_MAX
    ensures RoomAt(s, e, c)
  {
    var ones := SeenBy(e, c.sendCmdline);
    forall j | 0 <= j < |ones|
      ensures !FateAt(s.entries, c.maxEntries, ones, j).Dropped? && !FateAt(s.entries, c.maxEntries, ones, j).Saturated?
    {
      assert forall r <- ones[..j] :: r in ones;
      NotedBounds(s.entries, c.maxEntries, ones[..j], b);
      hide NotedAll;
    }
  }

  /** The spool holds no more than it did and what could be pushed since. */
  ghost predicate WithinAfter(fs: seq<SpoolFile>, files: seq<SpoolFile>, events: seq<Event>) {
    Within(fs, Stamps(files, events), |files| + PushesIn(events), Bytes(files) + PushBytesIn(events))
  }

  lemma WithinAtStart(files: seq<SpoolFile>)
    ensures WithinAfter(files, files, [])
  {
  }

  lemma CalmStep(s: Snap, s': Snap, events: seq<Event>, files: seq<SpoolFile>, c: Config)
    requires events != [] && IsCalm(events, files, c) && Turn(s, events[|events| - 1], s', c)
    requires var front := events[..|events| - 1];
             && WithinAfter(s.desk.files, files, front)
             && Witnessed(s.entries, SeenIn(front, c.sendCmdline)) && |s.entries| <= |SeenIn(front, c.sendCmdline)|
    ensures OnlyRejections(s.desk.books.lost, s'.desk.books.lost) && WithinAfter(s'.desk.files, files, events)
  {
    hide Turn, Witnessed, OnlyRejections, Within, IsCalm, PushesIn, PushBytesIn, Stamps, SeenIn, SeenBy, Bytes, PushOf;
    var front, e := events[..|events| - 1], events[|events| - 1];
    CalmLast(events, files, c);
    var stamps, count, bytes := Stamps(files, front), |files| + PushesIn(front), Bytes(files) + PushBytesIn(front);
    CalmTurn(s, e, s', c, SeenIn(front, c.sendCmdline), stamps, count, bytes);
  }

  lemma CalmLast(events: seq<Event>, files: seq<SpoolFile>, c: Config)
    requires IsCalm(events, files, c) && events != []
    ensures var front, e := events[..|events| - 1], events[|events| - 1];
            && (var n := |SeenIn(front, c.sendCmdline)| + |SeenBy(e, c.sendCmdline)|; n <= c.maxEntries && n <= U32_MAX)
            && (e.Send? ==> !(e.input.offersUpdate && e.input.installs))
            && (PushOf(e).Some? ==>
                  var push := PushOf(e).value;
                  && |files| + PushesIn(front) < c.maxFiles && Bytes(files) + PushBytesIn(front) + push.size <= c.maxBytes
                  && push.disk == Works && forall t <- Stamps(files, front) :: t < push.stamp)
            && PushesIn(events) == PushesIn(front) + (if PushOf(e).Some? then 1 else 0)
            && PushBytesIn(events) == PushBytesIn(front) + (if PushOf(e).Some? then PushOf(e).value.size else 0)
            && Stamps(files, events) == if PushOf(e).Some? then Stamps(files, front) + {PushOf(e).value.stamp} else Stamps(files, front)
  {
    var front, e := events[..|events| - 1], events[|events| - 1];
    assert events == front + [e];
    assert CalmAt(events, |events| - 1, files);
  }

  // ---- draining the spool ----

  /** Every batch the flush comes to is stored by the server when it is sent. */
  ghost predicate FlushStorable(d: Desk, us: seq<UploadInput>, n: nat)
    decreases FLUSH_LIMIT - n
  {
    n >= FLUSH_LIMIT || Trimmed(d.files) == []
    || (Storable(d.table, Trimmed(d.files)[0].content.batch, InputAt(us, n).0) && FlushStorable(FlushTurn(d, InputAt(us, n)).0, us, n + 1))
  }

  /** Nothing goes wrong in the next twenty spooled uploads. */
  ghost predicate Undisturbed(us: seq<UploadInput>) {
    |us| >= FLUSH_LIMIT && forall j | 0 <= j < FLUSH_LIMIT :: us[j].1 == NoFault
  }

  /** One turn, whatever happens: the oldest batch goes if and only if it is acknowledged. */
  lemma TurnBatches(d: Desk, u: UploadInput)
    ensures var (d', step) := FlushTurn(d, u);
            && (step == Empty <==> Batches(d.files) == [])
            && (step == Sent ==> Batches(d'.files) == Batches(d.files)[1..] && Acked(d.table, Batches(d.files)[0], u))
            && (step != Sent ==> Batches(d'.files) == Batches(d.files))
            && (step == Failed ==> !Acked(d.table, Batches(d.files)[0], u) && (u.1 == NoFault ==> d'.table == d.table))
            && (Batches(d.files) != [] ==> Trimmed(d.files) != [] && Trimmed(d.files)[0].content.batch == Batches(d.files)[0])
  {
    hide FlushTurn, Trimmed, Acked, Batches;
    var fs := Trimmed(d.files);
    TrimmedBatches(d.files);
    FlushTurnFiles(d, u);
    FlushTurnTable(d, u);
    if fs != [] {
      HeadBatch(fs);
    }
  }

  /** When nothing goes wrong, a flush takes the oldest twenty, or all there are. */
  lemma {:induction false} FlushDrains(d: Desk, us: seq<UploadInput>, n: nat)
    requires Undisturbed(us) && FlushStorable(d, us, n) && n <= FLUSH_LIMIT
    ensures var r, waiting := FlushFrom(d, us, n), Batches(d.files);
            !r.stalled && r.flushed == n + Min(FLUSH_LIMIT - n, |waiting|) && Batches(r.desk.files) == waiting[r.flushed - n..]
    decreases FLUSH_LIMIT - n
  {
    hide FlushTurn, Batches, Trimmed, Storable;
    if n < FLUSH_LIMIT {
      var u := InputAt(us, n);
      var (d', step) := FlushTurn(d, u);
      TurnBatches(d, u);
      TrimmedBatches(d.files);
      if step == Sent {
        FlushDrains(d', us, n + 1);
      }
    }
  }

  /** Of the batches waiting at turn n the first r.flushed - n left, and the flush stopped short of twenty only
      when none was left or for a reason: the next upload was disturbed, or the server does not store the
      oldest batch. */
  ghost predicate StoppedFor(r: Flush, waiting: seq<EventsBatch>, us: seq<UploadInput>, n: nat) {
    && n <= r.flushed <= FLUSH_LIMIT && r.flushed - n <= |waiting| && Batches(r.desk.files) == waiting[r.flushed - n..]
    && if r.stalled
       then && r.flushed - n < |waiting|
            && (InputAt(us, r.flushed).1 == NoFault ==> !Storable(r.desk.table, waiting[r.flushed - n], InputAt(us, r.flushed).0))
       else r.flushed == n + Min(FLUSH_LIMIT - n, |waiting|)
  }

  lemma StoppedEarlier(r: Flush, waiting: seq<EventsBatch>, us: seq<UploadInput>, n: nat)
    requires waiting != [] && n < FLUSH_LIMIT && StoppedFor(r, waiting[1..], us, n + 1)
    ensures StoppedFor(r, waiting, us, n)
  {
    hide Batches, Storable;
    var k := r.flushed - (n + 1);
    assert waiting[1..][k..] == waiting[k + 1..];
    if r.stalled {
      assert waiting[1..][k] == waiting[k + 1];
    }
  }

  /** Every flush stops for a reason. */
  lemma {:induction false} FlushStops(d: Desk, us: seq<UploadInput>, n: nat)
    requires n <= FLUSH_LIMIT
    ensures StoppedFor(FlushFrom(d, us, n), Batches(d.files), us, n)
    decreases FLUSH_LIMIT - n
  {
    hide FlushTurn, Batches, Trimmed, Storable;
    if n < FLUSH_LIMIT {
      var (d', step) := FlushTurn(d, InputAt(us, n));
      TurnBatches(d, InputAt(us, n));
      if step == Sent {
        hide StoppedFor;
        FlushStops(d', us, n + 1);
        StoppedEarlier(FlushFrom(d', us, n + 1), Batches(d.files), us, n);
      }
    }
  }

  /** A batch the server refuses for its size is never passed over: it blocks the spool for good. */
  lemma OversizeBlocks(d: Desk, us: seq<UploadInput>)
    requires Batches(d.files) != [] && |Batches(d.files)[0].conns| > MAX_AGENT_BATCH
    ensures var r := FlushFrom(d, us, 0); r.stalled && r.flushed == 0 && Batches(r.desk.files) == Batches(d.files)
  {
    hide FlushTurn;
    TurnBatches(d, InputAt(us, 0));
  }

  /** No completed minute, no heartbeat due, no identity facts. */
  predicate IdleAt(s: Snap, i: SendInput) {
    DueKeys(s.entries, i.now, false) == {} && i.now - s.lastUpload < HEARTBEAT && i.identities == 0
  }

  /** A tick in which every send succeeds. */
  ghost predicate Smooth(s: Snap, i: SendInput) {
    && !(i.offersUpdate && i.installs) && i.upload.1 == NoFault && Undisturbed(i.flush)
    && forall conns | IsDrain(conns, s.entries, i.now, false) && !IsIdle(s, i, conns) ::
         var batch := BatchOf(s, conns, i.identities);
         Storable(s.desk.table, batch, i.upload.0) && FlushStorable(DeskAfter(s.desk, batch, i.upload), i.flush, 0)
  }

  lemma SmoothTick(s: Snap, i: SendInput, s': Snap, c: Config)
    requires Turn(s, Send(i), s', c) && Smooth(s, i)
    ensures var waiting := Batches(s.desk.files);
            Batches(s'.desk.files) == if IdleAt(s, i) then waiting else waiting[Min(FLUSH_LIMIT, |waiting|)..]
    ensures s'.running == s.running
  {
    hide Storable, Batches, FlushStorable, Undisturbed, FlushFrom, DeskAfter, IsDrain, IdleAt, SendAfter, Acked;
    var conns :| IsDrain(conns, s.entries, i.now, false) && s' == SendAfter(s, i, conns, c).0;
    IdleMeansIdle(s, i, conns);
    var batch := BatchOf(s, conns, i.identities);
    var d := DeskAfter(s.desk, batch, i.upload);
    SendFiles(s, i, conns, c);
    if !IsIdle(s, i, conns) {
      DeskKeepsFiles(s.desk, batch, i.upload);
      assert Storable(s.desk.table, batch, i.upload.0) && FlushStorable(d, i.flush, 0);
      FlushDrains(d, i.flush, 0);
    }
  }

  lemma SendFiles(s: Snap, i: SendInput, conns: seq<ConnRecord>, c: Config)
    requires !(i.offersUpdate && i.installs) && i.upload.1 == NoFault
    ensures var s', batch := SendAfter(s, i, conns, c).0, BatchOf(s, conns, i.identities);
            && s'.running == s.running
            && (IsIdle(s, i, conns) ==> s'.desk == s.desk)
            && (!IsIdle(s, i, conns) && Storable(s.desk.table, batch, i.upload.0) ==>
                  s'.desk == FlushFrom(DeskAfter(s.desk, batch, i.upload), i.flush, 0).desk)
  {
    hide Storable, FlushFrom, DeskAfter, Staying, Pushed, MemoryConns;
  }

  lemma IdleMeansIdle(s: Snap, i: SendInput, conns: seq<ConnRecord>)
    requires IsDrain(conns, s.entries, i.now, false)
    ensures IdleAt(s, i) <==> IsIdle(s, i, conns)
  {
    hide Sorted, DueKeys;
    assert conns == [] <==> DueKeys(s.entries, i.now, false) == {};
  }

  function Sends(inputs: seq<SendInput>): (events: seq<Event>)
    ensures |events| == |inputs|
  {
    seq(|inputs|, n requires 0 <= n < |inputs| => Send(inputs[n]))
  }

  /** The ticks that upload something. */
  function Uploads(trace: seq<Snap>, inputs: seq<SendInput>): nat
    requires |trace| > |inputs|
  {
    if inputs == [] then 0
    else
      var n := |inputs| - 1;
      Uploads(trace, inputs[..n]) + if IdleAt(trace[n], inputs[n]) then 0 else 1
  }

  lemma {:induction false} SpoolDrains(trace: seq<Snap>, inputs: seq<SendInput>, c: Config)
    requires IsTrace(trace, Sends(inputs), c) && forall n | 0 <= n < |inputs| :: Smooth(trace[n], inputs[n])
    ensures var waiting := Batches(trace[0].desk.files);
            Batches(trace[|inputs|].desk.files) == waiting[Min(FLUSH_LIMIT * Uploads(trace, inputs), |waiting|)..]
  {
    hide Turn, Smooth, Batches, IdleAt;
    var n := |inputs|;
    if n > 0 {
      var front := inputs[..n - 1];
      assert Sends(front) == Sends(inputs)[..n - 1];
      TraceFront(trace, Sends(inputs), c);
      SpoolDrains(trace[..n], front, c);
      assert trace[..n][n - 1] == trace[n - 1];
      UploadsPrefix(trace, front, n);
      assert Sends(inputs)[n - 1] == Send(inputs[n - 1]);
      SmoothTick(trace[n - 1], inputs[n - 1], trace[n], c);
    }
  }

  lemma {:induction false} UploadsPrefix(trace: seq<Snap>, inputs: seq<SendInput>, n: nat)
    requires |inputs| < n <= |trace|
    ensures Uploads(trace[..n], inputs) == Uploads(trace, inputs)
  {
    hide IdleAt;
    if inputs != [] {
      UploadsPrefix(trace, inputs[..|inputs| - 1], n);
    }
  }

  /** While every send succeeds, n spooled batches leave oldest first, twenty per upload: none is left after
      ceil(n / 20) uploads. */
  lemma SpoolDrainsInTime(trace: seq<Snap>, inputs: seq<SendInput>, c: Config)
    requires IsTrace(trace, Sends(inputs), c) && forall n | 0 <= n < |inputs| :: Smooth(trace[n], inputs[n])
    requires Uploads(trace, inputs) >= (|Batches(trace[0].desk.files)| + FLUSH_LIMIT - 1) / FLUSH_LIMIT
    ensures Batches(trace[|inputs|].desk.files) == []
  {
    hide IsTrace, Smooth, Batches;
    SpoolDrains(trace, inputs, c);
  }
}
