/** What holds over every run of the agent loop (pmacct-agent/src/runner.rs): the accounts from end to end,
    the reason for every loss, runs that lose nothing, and how the spool drains. */
module Runs {
  import opened Sets
  import opened Wire
  import opened Aggregation
  import opened Spooling
  import opened Ingest
  import opened Options
  import opened Bookkeeping
  import opened Turns
  import opened Runner

  // ---- what was observed, and what was counted twice ----

  function SeenBy(e: Event, sendCmdline: bool): seq<ConnRecord> {
    if e.Poll? then Seen(e.now, e.sockets, sendCmdline) else []
  }

  function SeenIn(events: seq<Event>, sendCmdline: bool): seq<ConnRecord> {
    if events == [] then [] else SeenIn(events[..|events| - 1], sendCmdline) + SeenBy(events[|events| - 1], sendCmdline)
  }

  ghost predicate AcksArrive(events: seq<Event>) {
    forall e <- events :: e.AcksArrive()
  }

  /** The books keep their start, and have observed `seen` more; nothing was counted twice if `acked`. */
  ghost predicate Continues(b: Books, b': Books, seen: seq<ConnRecord>, acked: bool) {
    b'.start == b.start && b'.observed == b.observed + seen && (acked ==> b'.dup == b.dup)
  }

  lemma {:induction false} BookedContinues(b: Books, es: Entries, max: nat, ones: seq<ConnRecord>)
    ensures Continues(b, BookedAll(b, es, max, ones), ones, true)
    ensures CapacityLosses(BookedAll(b, es, max, ones).lost) == CapacityLosses(b.lost) + DroppedAmong(es, max, ones)
  {
    hide FateAt, CapacityLosses;
    if ones == [] {
      assert b.observed + ones == b.observed;
    } else {
      var n := |ones| - 1;
      var b1, fate := BookedAll(b, es, max, ones[..n]), FateAt(es, max, ones, n);
      BookedContinues(b, es, max, ones[..n]);
      CapacityAppend(b1.lost, Loss(if fate.Dropped? then AtCapacity else AtSaturation, [ones[n]]));
      assert b.observed + ones == b.observed + ones[..n] + [ones[n]];
    }
  }

  lemma UploadContinues(d: Desk, batch: EventsBatch, u: UploadInput)
    ensures Continues(d.books, DeskAfter(d, batch, u).books, [], u.1 != AckLost)
    ensures CapacityLosses(DeskAfter(d, batch, u).books.lost) == CapacityLosses(d.books.lost)
  {
    UploadCapacity(d.books, d.table, batch, u.0, u.1);
  }

  lemma {:induction false} FlushContinues(d: Desk, us: seq<UploadInput>, n: nat)
    ensures var r := FlushFrom(d, us, n).desk;
            && Continues(d.books, r.books, [], forall u <- us :: u.1 != AckLost)
            && CapacityLosses(r.books.lost) == CapacityLosses(d.books.lost)
    decreases FLUSH_LIMIT - n
  {
    hide FlushTurn, CapacityLosses;
    if n < FLUSH_LIMIT {
      var (d', step) := FlushTurn(d, InputAt(us, n));
      TurnContinuesBooks(d, InputAt(us, n));
      assert n < |us| ==> us[n] in us;
      if step == Sent {
        FlushContinues(d', us, n + 1);
      }
    } else {
      assert d.books.observed + [] == d.books.observed;
    }
  }

  /** One turn of the flush loop books what its upload books. */
  lemma FlushTurnBooks(d: Desk, u: UploadInput)
    ensures var d', fs := FlushTurn(d, u).0, Trimmed(d.files);
            d'.books == if fs == [] then d.books else DeskAfter(d, fs[0].content.batch, u).books
  {
    hide AfterUpload, TableAfter, Acked;
  }

  lemma TurnContinuesBooks(d: Desk, u: UploadInput)
    ensures var d' := FlushTurn(d, u).0;
            && Continues(d.books, d'.books, [], u.1 != AckLost)
            && CapacityLosses(d'.books.lost) == CapacityLosses(d.books.lost)
  {
    hide FlushTurn, DeskAfter, CapacityLosses;
    FlushTurnBooks(d, u);
    var fs := Trimmed(d.files);
    if fs != [] {
      UploadContinues(d, fs[0].content.batch, u);
    }
  }

  lemma PushContinues(d: Desk, batch: EventsBatch, push: PushInput, c: Config)
    ensures Continues(d.books, Pushed(d, batch, push, c).books, [], true)
    ensures CapacityLosses(Pushed(d, batch, push, c).books.lost) == CapacityLosses(d.books.lost)
  {
    hide Written, Clobbered, AllConns, EvictedBy;
    var e := EvictedBy(d.files, push, c);
    var l1 := Loss(Evicted, AllConns(d.files[..e]));
    CapacityAppend(d.books.lost, l1);
    CapacityAppend(d.books.lost + [l1], Loss(Overwritten, AllConns(Clobbered(d.files[e..], FileOf(batch, push)))));
    CapacityAppend(d.books.lost + [l1], Loss(Unspoolable, batch.conns));
  }

  lemma AckedContinues(s: Snap, i: SendInput)
    ensures var r := AckedAfter(s, i).0;
            && Continues(s.desk.books, r.desk.books, [], forall u <- i.flush :: u.1 != AckLost)
            && CapacityLosses(r.desk.books.lost) == CapacityLosses(s.desk.books.lost) && r.dropped == s.dropped
  {
    hide FlushFrom, MemoryConns, CapacityLosses;
    FlushContinues(s.desk, i.flush, 0);
    CapacityAppend(s.desk.books.lost, Loss(ExitedForUpdate, MemoryConns(s.entries)));
  }

  lemma SendContinues(s: Snap, i: SendInput, conns: seq<ConnRecord>, c: Config)
    ensures var r := SendAfter(s, i, conns, c).0;
            && Continues(s.desk.books, r.desk.books, [], Send(i).AcksArrive())
            && CapacityLosses(r.desk.books.lost) == CapacityLosses(s.desk.books.lost) && r.dropped == s.dropped
  {
    hide DeskAfter, Acked, Pushed, AckedAfter, Staying, CapacityLosses;
    var batch := BatchOf(s, conns, i.identities);
    var s2 := s.(entries := Staying(s.entries, i.now, false), desk := DeskAfter(s.desk, batch, i.upload));
    UploadContinues(s.desk, batch, i.upload);
    AckedContinues(s2, i);
    PushContinues(s2.desk, batch, i.push, c);
  }

  lemma StopContinues(s: Snap, e: Event, conns: seq<ConnRecord>, c: Config)
    requires e.Stop?
    ensures var r := StopAfter(s, e, conns, c);
            && Continues(s.desk.books, r.desk.books, [], e.AcksArrive())
            && CapacityLosses(r.desk.books.lost) == CapacityLosses(s.desk.books.lost) && r.dropped == s.dropped
  {
    hide DeskAfter, Acked, Pushed, CapacityLosses;
    var batch := BatchOf(s, conns, e.stopIdentities);
    UploadContinues(s.desk, batch, e.stopUpload);
    PushContinues(DeskAfter(s.desk, batch, e.stopUpload), batch, e.stopPush, c);
  }

  /** The counter the agent reports is the number of connections lost at capacity. */
  ghost predicate DropsCounted(s: Snap) {
    CapacityLosses(s.desk.books.lost) == s.dropped
  }

  lemma TurnContinues(s: Snap, e: Event, s': Snap, c: Config)
    requires Turn(s, e, s', c)
    ensures Continues(s.desk.books, s'.desk.books, SeenBy(e, c.sendCmdline), e.AcksArrive())
    ensures DropsCounted(s) ==> DropsCounted(s')
  {
    hide SendAfter, StopAfter, IsDrain, NotedAll, BookedAll, DroppedAmong, CapacityLosses;
    match e
    case Poll(now, sockets) => BookedContinues(s.desk.books, s.entries, c.maxEntries, Seen(now, sockets, c.sendCmdline));
    case CaptureError =>
    case StopFalse =>
    case Send(i) =>
      var conns :| IsDrain(conns, s.entries, i.now, false) && s' == SendAfter(s, i, conns, c).0;
      SendContinues(s, i, conns, c);
    case Stop(now, _, _, _) =>
      var conns :| IsDrain(conns, s.entries, now, true) && s' == StopAfter(s, e, conns, c);
      StopContinues(s, e, conns, c);
  }

  lemma {:induction false} TraceContinues(trace: seq<Snap>, events: seq<Event>, c: Config)
    requires IsTrace(trace, events, c)
    ensures Continues(trace[0].desk.books, trace[|events|].desk.books, SeenIn(events, c.sendCmdline), AcksArrive(events))
    ensures DropsCounted(trace[0]) ==> DropsCounted(trace[|events|])
  {
    hide Turn, DropsCounted, Continues, SeenBy, AcksArrive;
    var n := |events|;
    if n == 0 {
      NothingHappens(trace[0].desk.books, AcksArrive(events));
    } else {
      TraceFront(trace, events, c);
      TraceContinues(trace[..n], events[..n - 1], c);
      TurnContinues(trace[n - 1], events[n - 1], trace[n], c);
      assert trace[..n][0] == trace[0] && trace[..n][n - 1] == trace[n - 1];
      AcksSplit(events);
      ContinuesOn(trace[0].desk.books, trace[n - 1].desk.books, trace[n].desk.books, SeenIn(events[..n - 1], c.sendCmdline),
                  SeenBy(events[n - 1], c.sendCmdline), AcksArrive(events[..n - 1]), events[n - 1].AcksArrive());
    }
  }

  lemma NothingHappens(b: Books, acked: bool)
    ensures Continues(b, b, [], acked)
  {
  }

  lemma ContinuesOn(a: Books, b: Books, d: Books, seen: seq<ConnRecord>, more: seq<ConnRecord>, acked: bool, acked': bool)
    requires Continues(a, b, seen, acked) && Continues(b, d, more, acked')
    ensures Continues(a, d, seen + more, acked && acked')
  {
  }

  lemma AcksSplit(events: seq<Event>)
    requires events != []
    ensures AcksArrive(events) <==> AcksArrive(events[..|events| - 1]) && events[|events| - 1].AcksArrive()
  {
    assert events == events[..|events| - 1] + [events[|events| - 1]];
  }

  lemma TraceFront(trace: seq<Snap>, events: seq<Event>, c: Config)
    requires IsTrace(trace, events, c) && events != []
    ensures IsTrace(trace[..|events|], events[..|events| - 1], c)
  {
    hide Turn;
  }

  // ---- why anything is lost ----

  /** The j-th observation of a poll, in the state it met. */
  ghost predicate LostAtPoll(l: Loss, es: Entries, max: nat, ones: seq<ConnRecord>, j: nat) {
    && j < |ones| && l.conns == [ones[j]]
    && var k, met := (ones[j].minute, ones[j].key), NotedAll(es, max, ones[..j]);
       if l.cause == AtCapacity then |met| >= max && k !in met
       else l.cause == AtSaturation && k in met && met[k].count == U32_MAX
  }

  /** The upload of an event is not acknowledged: disturbed, or its batch is not storable. */
  ghost predicate UploadFails(e: Event, s: Snap) {
    match e
    case Send(i) => exists conns :: IsDrain(conns, s.entries, i.now, false) && !Acked(s.desk.table, BatchOf(s, conns, i.identities), i.upload)
    case Stop(now, ids, u, _) => exists conns :: IsDrain(conns, s.entries, now, true) && !Acked(s.desk.table, BatchOf(s, conns, ids), u)
    case _ => false
  }

  /** The spool has no room for one more file of this size. */
  ghost predicate SpoolFull(files: seq<SpoolFile>, push: PushInput, c: Config) {
    |files| >= c.maxFiles || Bytes(files) + push.size > c.maxBytes
  }

  ghost predicate LostAtPush(l: Loss, e: Event, s: Snap, c: Config) {
    && PushOf(e).Some? && UploadFails(e, s)
    && var push, files := PushOf(e).value, s.desk.files;
       match l.cause
       case Evicted => HasRoom(push, c) && SpoolFull(files, push, c) && l.conns == AllConns(files[..EvictedBy(files, push, c)])
       case Overwritten => HasRoom(push, c) && push.disk == Works && exists f <- files :: f.stamp == push.stamp && l.conns == Conns(f)
       case Unspoolable => !(HasRoom(push, c) && push.disk == Works)
       case _ => false
  }

  /** A loss follows from the event and the state it met: nothing else is ever booked as lost. */
  ghost predicate ExcusedBy(l: Loss, e: Event, s: Snap, c: Config) {
    || l.conns == []
    || (e.Poll? && exists j: nat :: LostAtPoll(l, s.entries, c.maxEntries, SeenBy(e, c.sendCmdline), j))
    || LostAtPush(l, e, s, c)
    || (l.cause == RejectedByServer && exists now <- UploadTimes(e) :: forall r <- l.conns :: !Acceptable(ToWire(r), now))
    || (l.cause == ExitedForUpdate && e.Send? && TriesUpdate(s, e.input) && e.input.installs
        && l.conns == MemoryConns(Staying(s.entries, e.input.now, false)))
  }

  /** The losses grow, each new one with its excuse. */
  ghost predicate Grew(ls: seq<Loss>, ls': seq<Loss>, e: Event, s: Snap, c: Config) {
    ls <= ls' && forall i | |ls| <= i < |ls'| :: ExcusedBy(ls'[i], e, s, c)
  }

  lemma GrewMore(a: seq<Loss>, b: seq<Loss>, d: seq<Loss>, e: Event, s: Snap, c: Config)
    requires Grew(a, b, e, s, c) && Grew(b, d, e, s, c)
    ensures Grew(a, d, e, s, c)
  {
    hide ExcusedBy;
    forall i | |a| <= i < |d| ensures ExcusedBy(d[i], e, s, c) {
      if i < |b| {
        assert d[i] == b[i];
      }
    }
  }

  lemma GrewOne(ls: seq<Loss>, l: Loss, e: Event, s: Snap, c: Config)
    requires ExcusedBy(l, e, s, c)
    ensures Grew(ls, ls + [l], e, s, c)
  {
  }

  lemma {:induction false} PollGrew(b: Books, es: Entries, max: nat, ones: seq<ConnRecord>, all: seq<ConnRecord>, e: Event, s: Snap, c: Config)
    requires ones <= all == SeenBy(e, c.sendCmdline) && e.Poll? && es == s.entries && max == c.maxEntries
    ensures Grew(b.lost, BookedAll(b, es, max, ones).lost, e, s, c)
  {
    hide Noted, SeenBy;
    if ones != [] {
      var n := |ones| - 1;
      var b1, fate := BookedAll(b, es, max, ones[..n]), FateAt(es, max, ones, n);
      PollGrew(b, es, max, ones[..n], all, e, s, c);
      assert ones[..n] == all[..n] && ones[n] == all[n];
      var l := Loss(if fate.Dropped? then AtCapacity else AtSaturation, [ones[n]]);
      if fate.Dropped? || fate.Saturated? {
        assert LostAtPoll(l, es, max, all, n);
        hide LostAtPoll;
        assert ExcusedBy(l, e, s, c);
        hide ExcusedBy;
        GrewOne(b1.lost, l, e, s, c);
        GrewMore(b.lost, b1.lost, b1.lost + [l], e, s, c);
      }
    }
  }

  lemma UploadGrew(d: Desk, batch: EventsBatch, u: UploadInput, e: Event, s: Snap, c: Config)
    requires u.1 == NotApplied || u.0 in UploadTimes(e)
    ensures Grew(d.books.lost, DeskAfter(d, batch, u).books.lost, e, s, c)
  {
    hide LostAtPoll, LostAtPush, UploadTimes, TableAfter, Storable;
    RefusedAreOutside(batch.conns, u.0);
  }

  lemma {:induction false} FlushGrew(d: Desk, us: seq<UploadInput>, n: nat, e: Event, s: Snap, c: Config)
    requires forall u <- us :: u.0 in UploadTimes(e)
    ensures Grew(d.books.lost, FlushFrom(d, us, n).desk.books.lost, e, s, c)
    decreases FLUSH_LIMIT - n
  {
    hide DeskAfter, FlushTurn, Trimmed, Grew, UploadTimes;
    GrewNone(d.books.lost, e, s, c);
    if n < FLUSH_LIMIT {
      var u, fs := InputAt(us, n), Trimmed(d.files);
      assert n < |us| ==> u in us;
      var (d', step) := FlushTurn(d, u);
      FlushTurnBooks(d, u);
      if fs != [] {
        UploadGrew(d, fs[0].content.batch, u, e, s, c);
      }
      if step == Sent {
        FlushGrew(d', us, n + 1, e, s, c);
        GrewMore(d.books.lost, d'.books.lost, FlushFrom(d', us, n + 1).desk.books.lost, e, s, c);
      }
    }
  }

  lemma GrewNone(ls: seq<Loss>, e: Event, s: Snap, c: Config)
    ensures Grew(ls, ls, e, s, c)
  {
  }

  lemma EvictionMeansFull(files: seq<SpoolFile>, push: PushInput, c: Config)
    requires EvictedBy(files, push, c) > 0
    ensures HasRoom(push, c) && SpoolFull(files, push, c)
  {
  }

  lemma ClobberedConns(files: seq<SpoolFile>, f: SpoolFile)
    ensures AllConns(Clobbered(files, f)) == [] || exists g <- files :: g.stamp == f.stamp && AllConns(Clobbered(files, f)) == Conns(g)
  {
    var gone := Clobbered(files, f);
    if gone != [] {
      var g := gone[0];
      assert gone == [g] && g in gone;
      assert AllConns(gone) == Conns(g) + AllConns([]);
    }
  }

  lemma PushGrew(d: Desk, batch: EventsBatch, push: PushInput, e: Event, s: Snap, c: Config)
    requires PushOf(e) == Some(push) && UploadFails(e, s) && d.files == s.desk.files
    ensures Grew(d.books.lost, Pushed(d, batch, push, c).books.lost, e, s, c)
  {
    hide Written, Clobbered, EvictedBy, UploadFails, LostAtPoll, UploadTimes;
    var n := EvictedBy(d.files, push, c);
    var ls, kept := d.books.lost, d.files[n..];
    var l1 := Loss(Evicted, AllConns(d.files[..n]));
    if n > 0 {
      EvictionMeansFull(d.files, push, c);
    } else {
      assert d.files[..0] == [];
    }
    var l2 := if HasRoom(push, c) && push.disk == Works then Loss(Overwritten, AllConns(Clobbered(kept, FileOf(batch, push))))
              else Loss(Unspoolable, batch.conns);
    ClobberedConns(kept, FileOf(batch, push));
    assert ExcusedBy(l1, e, s, c);
    assert ExcusedBy(l2, e, s, c) by {
      if l2.cause == Overwritten && l2.conns != [] {
        var g :| g in kept && g.stamp == push.stamp && l2.conns == Conns(g);
        assert g in d.files;
      }
    }
    hide ExcusedBy;
    GrewOne(ls, l1, e, s, c);
    GrewOne(ls + [l1], l2, e, s, c);
    GrewMore(ls, ls + [l1], ls + [l1] + [l2], e, s, c);
  }

  lemma SendGrew(s: Snap, i: SendInput, conns: seq<ConnRecord>, c: Config)
    requires IsDrain(conns, s.entries, i.now, false)
    ensures Grew(s.desk.books.lost, SendAfter(s, i, conns, c).0.desk.books.lost, Send(i), s, c)
  {
    hide IsDrain, DeskAfter, Acked, Pushed, FlushFrom, ExcusedBy, Staying, MemoryConns;
    var e, batch := Send(i), BatchOf(s, conns, i.identities);
    var d := DeskAfter(s.desk, batch, i.upload);
    assert d.files == s.desk.files by { DeskKeepsFiles(s.desk, batch, i.upload); }
    UploadGrew(s.desk, batch, i.upload, e, s, c);
    if !IsIdle(s, i, conns) {
      if Acked(s.desk.table, batch, i.upload) {
        FlushGrew(d, i.flush, 0, e, s, c);
        GrewMore(s.desk.books.lost, d.books.lost, FlushFrom(d, i.flush, 0).desk.books.lost, e, s, c);
        ExitGrew(s, i, d.books.lost, c);
        GrewExit(s, i, d.books.lost, c);
      } else {
        PushGrew(d, batch, i.push, e, s, c);
        GrewMore(s.desk.books.lost, d.books.lost, Pushed(d, batch, i.push, c).books.lost, e, s, c);
      }
    }
  }

  lemma DeskKeepsFiles(d: Desk, batch: EventsBatch, u: UploadInput)
    ensures DeskAfter(d, batch, u).files == d.files
  {
  }

  lemma ExitGrew(s: Snap, i: SendInput, ls: seq<Loss>, c: Config)
    ensures TriesUpdate(s, i) && i.installs ==>
              Grew(ls, ls + [Loss(ExitedForUpdate, MemoryConns(Staying(s.entries, i.now, false)))], Send(i), s, c)
  {
    hide MemoryConns, Staying;
  }

  lemma GrewExit(s: Snap, i: SendInput, ls: seq<Loss>, c: Config)
    requires Grew(s.desk.books.lost, ls, Send(i), s, c)
    ensures TriesUpdate(s, i) && i.installs ==>
              Grew(s.desk.books.lost, ls + [Loss(ExitedForUpdate, MemoryConns(Staying(s.entries, i.now, false)))], Send(i), s, c)
  {
    hide MemoryConns, Staying, ExcusedBy, Grew;
    ExitGrew(s, i, ls, c);
    if TriesUpdate(s, i) && i.installs {
      GrewMore(s.desk.books.lost, ls, ls + [Loss(ExitedForUpdate, MemoryConns(Staying(s.entries, i.now, false)))], Send(i), s, c);
    }
  }

  lemma StopGrew(s: Snap, e: Event, conns: seq<ConnRecord>, c: Config)
    requires e.Stop? && IsDrain(conns, s.entries, e.stopAt, true)
    ensures Grew(s.desk.books.lost, StopAfter(s, e, conns, c).desk.books.lost, e, s, c)
  {
    hide IsDrain, DeskAfter, Acked, Pushed, ExcusedBy;
    var batch := BatchOf(s, conns, e.stopIdentities);
    var d := DeskAfter(s.desk, batch, e.stopUpload);
    DeskKeepsFiles(s.desk, batch, e.stopUpload);
    UploadGrew(s.desk, batch, e.stopUpload, e, s, c);
    if conns != [] && !Acked(s.desk.table, batch, e.stopUpload) {
      PushGrew(d, batch, e.stopPush, e, s, c);
      GrewMore(s.desk.books.lost, d.books.lost, Pushed(d, batch, e.stopPush, c).books.lost, e, s, c);
    }
  }

  /** Whatever a turn loses, the event and the state before it explain. */
  lemma TurnGrew(s: Snap, e: Event, s': Snap, c: Config)
    requires Turn(s, e, s', c)
    ensures Grew(s.desk.books.lost, s'.desk.books.lost, e, s, c)
  {
    hide SendAfter, StopAfter, IsDrain, NotedAll, BookedAll, DroppedAmong, ExcusedBy;
    match e
    case Poll(now, sockets) =>
      var ones := SeenBy(e, c.sendCmdline);
      PollGrew(s.desk.books, s.entries, c.maxEntries, ones, ones, e, s, c);
    case CaptureError =>
    case StopFalse =>
    case Send(i) =>
      var conns :| IsDrain(conns, s.entries, i.now, false) && s' == SendAfter(s, i, conns, c).0;
      SendGrew(s, i, conns, c);
    case Stop(now, _, _, _) =>
      var conns :| IsDrain(conns, s.entries, now, true) && s' == StopAfter(s, e, conns, c);
      StopGrew(s, e, conns, c);
  }

  /** Some event of the run, in the state it met, explains the loss. */
  ghost predicate Explained(l: Loss, trace: seq<Snap>, events: seq<Event>, c: Config)
    requires |trace| > |events|
  {
    exists n | 0 <= n < |events| :: ExcusedBy(l, events[n], trace[n], c)
  }

  /** Over a whole run, everything lost is explained. */
  lemma {:induction false} LossesExplained(trace: seq<Snap>, events: seq<Event>, c: Config)
    requires IsTrace(trace, events, c)
    ensures var ls, ls' := trace[0].desk.books.lost, trace[|events|].desk.books.lost;
            ls <= ls' && forall i | |ls| <= i < |ls'| :: Explained(ls'[i], trace, events, c)
  {
    hide Turn, ExcusedBy;
    var n := |events|;
    if n > 0 {
      TraceFront(trace, events, c);
      LossesExplained(trace[..n], events[..n - 1], c);
      TurnGrew(trace[n - 1], events[n - 1], trace[n], c);
      var ls, mid, ls' := trace[0].desk.books.lost, trace[n - 1].desk.books.lost, trace[n].desk.books.lost;
      assert trace[..n][n - 1] == trace[n - 1];
      forall i | |ls| <= i < |ls'| ensures Explained(ls'[i], trace, events, c) {
        if i < |mid| {
          assert ls'[i] == mid[i];
          ExplainedLater(mid[i], trace, events, c);
        } else {
          assert ExcusedBy(ls'[i], events[n - 1], trace[n - 1], c);
        }
      }
    }
  }

  lemma ExplainedLater(l: Loss, trace: seq<Snap>, events: seq<Event>, c: Config)
    requires |trace| == |events| + 1 && events != [] && Explained(l, trace[..|events|], events[..|events| - 1], c)
    ensures Explained(l, trace, events, c)
  {
    hide ExcusedBy;
    var n := |events|;
    var j :| 0 <= j < n - 1 && ExcusedBy(l, events[..n - 1][j], trace[..n][j], c);
    assert events[..n - 1][j] == events[j] && trace[..n][j] == trace[j];
  }

  // ---- the accounts, end to end ----

  /** Runs the agent over any events. At the end, for every key the server files by, what was there at the
      start plus everything observed is at the server, in memory, on the spool or lost; the server holds at
      least that balance, and exactly it when no acknowledgement got lost. Everything lost is explained by
      an event and the state it met, and what the aggregator dropped is what its counter says. */
  method Account(agent: Agent, events: seq<Event>) returns (ghost trace: seq<Snap>)
    requires agent.Valid() && agent.running && agent.books.dup == [] && DropsCounted(agent.State())
    modifies agent, agent.agg, agent.spool, agent.server
    ensures agent.Valid() && 1 <= |trace| <= |events| + 1 && IsTrace(trace, events[..|trace| - 1], agent.Cfg())
    ensures trace[0] == old(agent.State()) && trace[|trace| - 1] == agent.State() && (agent.running ==> |trace| == |events| + 1)
    ensures agent.books.observed == old(agent.books.observed) + SeenIn(events[..|trace| - 1], agent.sendCmdline)
    ensures forall k: RowKey ::
              CountAt(agent.server.table, k) >= CountAt(old(agent.books.start), k) + Tot(agent.books.observed, k)
                - AggTot(agent.agg.entries, k) - Tot(AllConns(agent.spool.files), k) - LossTot(agent.books.lost, k)
    ensures AcksArrive(events) ==>
              forall k: RowKey ::
                CountAt(agent.server.table, k) == CountAt(old(agent.books.start), k) + Tot(agent.books.observed, k)
                  - AggTot(agent.agg.entries, k) - Tot(AllConns(agent.spool.files), k) - LossTot(agent.books.lost, k)
    ensures var ls, ls' := old(agent.books.lost), agent.books.lost;
            ls <= ls' && forall i | |ls| <= i < |ls'| :: Explained(ls'[i], trace, events[..|trace| - 1], agent.Cfg())
    ensures CapacityLosses(agent.books.lost) == agent.agg.dropped
  {
    hide Explained, IsTrace, SeenIn, CapacityLosses, LossTot, AggTot, AllConns, CountAt;
    trace := agent.Run(events);
    ghost var happened := events[..|trace| - 1];
    TraceShape(trace, happened, agent.Cfg());
    TraceContinues(trace, happened, agent.Cfg());
    LossesExplained(trace, happened, agent.Cfg());
    AcksUpTo(events, |trace| - 1);
    Settle(agent.books, agent.server.table, agent.agg.entries, agent.spool.files, AcksArrive(events));
  }

  lemma TraceShape(trace: seq<Snap>, events: seq<Event>, c: Config)
    requires IsTrace(trace, events, c)
    ensures |trace| == |events| + 1
  {
  }

  lemma AcksUpTo(events: seq<Event>, n: nat)
    requires n <= |events|
    ensures AcksArrive(events) ==> AcksArrive(events[..n])
  {
  }

  // ---- saturation takes a whole counter of observations ----

  /** How often a minute and connection key were observed. */
  function Sightings(seen: seq<ConnRecord>, k: EntryKey): nat {
    if seen == [] then 0
    else
      var r := seen[|seen| - 1];
      Sightings(seen[..|seen| - 1], k) + if (r.minute, r.key) == k then 1 else 0
  }

  lemma {:induction false} SightingsBound(seen: seq<ConnRecord>, k: EntryKey)
    ensures Sightings(seen, k) <= |seen|
  {
    if seen != [] {
      SightingsBound(seen[..|seen| - 1], k);
    }
  }

  /** No entry counts more than was ever observed under its key. */
  ghost predicate Witnessed(es: Entries, seen: seq<ConnRecord>) {
    forall k <- es :: es[k].count <= Sightings(seen, k)
  }

  lemma NotedWitnessed(es: Entries, max: nat, one: ConnRecord, seen: seq<ConnRecord>)
    requires Witnessed(es, seen) && one.count == 1
    ensures Witnessed(Noted(es, max, one), seen + [one])
    ensures |Noted(es, max, one)| <= |es| + 1
  {
    var es' := Noted(es, max, one);
    assert (seen + [one])[..|seen|] == seen;
    assert es'.Keys <= es.Keys + {(one.minute, one.key)};
    assert |es'.Keys| <= |es.Keys + {(one.minute, one.key)}| by { SubsetSize(es'.Keys, es.Keys + {(one.minute, one.key)}); }
  }

  lemma {:induction false} NotedAllWitnessed(es: Entries, max: nat, ones: seq<ConnRecord>, seen: seq<ConnRecord>)
    requires Witnessed(es, seen) && forall r <- ones :: r.count == 1
    ensures Witnessed(NotedAll(es, max, ones), seen + ones)
    ensures |NotedAll(es, max, ones)| <= |es| + |ones|
  {
    hide Noted, Witnessed;
    if ones == [] {
      assert seen + ones == seen;
    } else {
      var n := |ones| - 1;
      NotedAllWitnessed(es, max, ones[..n], seen);
      assert ones[n] in ones && forall r <- ones[..n] :: r in ones;
      NotedWitnessed(NotedAll(es, max, ones[..n]), max, ones[n], seen + ones[..n]);
      assert seen + ones == seen + ones[..n] + [ones[n]];
    }
  }

  lemma StayingWitnessed(es: Entries, now: int, force: bool, seen: seq<ConnRecord>)
    requires Witnessed(es, seen)
    ensures Witnessed(Staying(es, now, force), seen) && |Staying(es, now, force)| <= |es|
  {
    RemoveDue(es, now, force);
  }

  /** A turn keeps the entries witnessed, and adds at most one per observation. */
  lemma TurnWitnessed(s: Snap, e: Event, s': Snap, c: Config, seen: seq<ConnRecord>)
    requires Turn(s, e, s', c) && Witnessed(s.entries, seen)
    ensures Witnessed(s'.entries, seen + SeenBy(e, c.sendCmdline))
    ensures |s'.entries| <= |s.entries| + |SeenBy(e, c.sendCmdline)|
  {
    hide IsDrain, Witnessed, DeskAfter, Acked, Pushed, NotedAll;
    assert seen + [] == seen;
    match e
    case Poll(now, sockets) => NotedAllWitnessed(s.entries, c.maxEntries, Seen(now, sockets, c.sendCmdline), seen);
    case CaptureError =>
    case StopFalse =>
    case Send(i) =>
      StayingWitnessed(s.entries, i.now, false, seen);
      NoneWitnessed(seen);
    case Stop(now, _, _, _) => NoneWitnessed(seen);
  }

  lemma NoneWitnessed(seen: seq<ConnRecord>)
    ensures Witnessed(map[], seen)
  {
  }

  /** A run that starts with an empty memory never has more entries than observations, nor a higher count. */
  lemma {:induction false} TraceWitnessed(trace: seq<Snap>, events: seq<Event>, c: Config)
    requires IsTrace(trace, events, c) && trace[0].entries == map[]
    ensures Witnessed(trace[|events|].entries, SeenIn(events, c.sendCmdline))
    ensures |trace[|events|].entries| <= |SeenIn(events, c.sendCmdline)|
  {
    hide Turn, Witnessed;
    var n := |events|;
    if n == 0 {
      NoneWitnessed([]);
    } else {
      TraceFront(trace, events, c);
      TraceWitnessed(trace[..n], events[..n - 1], c);
      assert trace[..n][n - 1] == trace[n - 1];
      TurnWitnessed(trace[n - 1], events[n - 1], trace[n], c, SeenIn(events[..n - 1], c.sendCmdline));
    }
  }

  /** So a saturation loss takes 2^32 - 1 earlier observations of its key in this run. */
  lemma SaturationNeedsCounter(trace: seq<Snap>, events: seq<Event>, c: Config, n: nat, l: Loss, j: nat)
    requires IsTrace(trace, events, c) && trace[0].entries == map[] && n < |events|
    requires l.cause == AtSaturation && LostAtPoll(l, trace[n].entries, c.maxEntries, SeenBy(events[n], c.sendCmdline), j)
    ensures Sightings(SeenIn(events[..n], c.sendCmdline) + SeenBy(events[n], c.sendCmdline)[..j], (l.conns[0].minute, l.conns[0].key)) >= U32_MAX
  {
    hide Turn;
    var ones := SeenBy(events[n], c.sendCmdline);
    assert IsTrace(trace[..n + 1], events[..n], c);
    TraceWitnessed(trace[..n + 1], events[..n], c);
    assert forall r <- ones[..j] :: r in ones;
    NotedAllWitnessed(trace[n].entries, c.maxEntries, ones[..j], SeenIn(events[..n], c.sendCmdline));
  }
}
