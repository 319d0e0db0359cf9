/** pmacct-agent/src/runner.rs: the agent loop over the aggregator, the spool and the server. Each method is
    proved against the step relation, and keeps the books balanced. */
module Runner {
  import opened Wire
  import opened Aggregation
  import opened Spooling
  import opened Ingest
  import opened Bookkeeping
  import opened Turns

  class Agent {
    const agg: Aggregator
    const spool: Spool
    const server: Server
    const sendCmdline: bool
    var lastUpload: int
    var lastUpdateTry: int
    var triedUpdate: bool
    var running: bool
    ghost var books: Books

    ghost predicate Valid()
      reads this, agg, spool, server
    {
      && agg.Valid() && spool.Valid() && server.Valid()
      && books.Balanced(server.table, agg.entries, spool.files, [])
    }

    function Cfg(): Config
      reads this
    {
      Config(agg.maxEntries, spool.maxFiles, spool.maxBytes, sendCmdline)
    }

    ghost function Held(): Desk
      reads this, spool, server
    {
      Desk(server.table, spool.files, books)
    }

    ghost function State(): Snap
      reads this, agg, spool, server
    {
      Snap(agg.entries, agg.dropped, Held(), lastUpload, lastUpdateTry, triedUpdate, running)
    }

    /** A run starts with an empty memory; what the spool already holds counts as observed. */
    constructor (maxKeys: nat, spool: Spool, server: Server, sendCmdline: bool, now: int)
      requires spool.Valid() && server.Valid()
      ensures Valid() && fresh(agg) && this.spool == spool && this.server == server && this.sendCmdline == sendCmdline
      ensures agg.maxEntries == if maxKeys < 1000 then 1000 else maxKeys
      ensures State() == Snap(map[], 0, Desk(server.table, spool.files, Books(server.table, AllConns(spool.files), [], [])), now, 0, false, true)
    {
      this.agg := new Aggregator(if maxKeys < 1000 then 1000 else maxKeys);
      this.spool, this.server, this.sendCmdline := spool, server, sendCmdline;
      lastUpload, lastUpdateTry, triedUpdate, running := now, 0, false, true;
      books := Books(server.table, AllConns(spool.files), [], []);
    }

    /** One observation: in memory afterwards, or booked as lost with the reason. */
    method ObserveOne(now: int, s: Socket)
      requires Valid()
      modifies this`books, agg
      ensures Valid()
      ensures State() == Observed(old(State()), RecordOf(now, s.key, s.info, 0, sendCmdline), Cfg())
    {
      hide Noted, FateOf, Remembered, Booked, Books.Balanced, RecordOf, Keyed, InRange, Listed;
      ghost var one := RecordOf(now, s.key, s.info, 0, sendCmdline);
      ghost var es := agg.entries;
      ghost var fate := agg.Observe(now, s.key, s.info, 0, sendCmdline);
      BooksObserve(books, server.table, es, agg.entries, spool.files, one, fate);
      books := Booked(books, one, fate);
    }

    /** The poll arm: every socket found becomes one observation, in order. */
    method PollTick(now: int, sockets: seq<Socket>)
      requires Valid()
      modifies this`books, agg
      ensures Valid()
      ensures State() == PollAfter(old(State()), Seen(now, sockets, sendCmdline), Cfg())
    {
      NothingPolled(old(State()), now, sockets, Cfg());
      hide Observed, PollAfter, Seen, RecordOf, Agent.Valid;
      for i := 0 to |sockets|
        invariant Valid() && State() == PollAfter(old(State()), Seen(now, sockets[..i], sendCmdline), Cfg())
      {
        ObserveOne(now, sockets[i]);
        OneMoreSocket(old(State()), now, sockets, i, Cfg());
      }
      assert sockets[..|sockets|] == sockets;
    }

    /** One upload of the batch in hand; `fs` is what the spool holds besides it. */
    method Upload(batch: EventsBatch, u: UploadInput, ghost fs: seq<SpoolFile>) returns (acked: bool)
      requires server.Valid() && books.Balanced(server.table, agg.entries, fs, batch.conns)
      modifies this`books, server
      ensures server.Valid()
      ensures books.Balanced(server.table, agg.entries, fs, if acked then [] else batch.conns)
      ensures acked <==> Acked(old(server.table), batch, u)
      ensures Held() == DeskAfter(old(Held()), batch, u)
    {
      hide Storable, TableAfter, Books.Balanced, Tot, CountAt;
      ghost var t := server.table;
      ghost var applied;
      applied, acked := server.Receive(batch, u.0, u.1);
      if applied {
        BooksApplied(books, t, server.table, agg.entries, fs, batch.conns, u.0);
        if acked {
          books := books.Lose(RejectedByServer, Refused(batch.conns, u.0));
        } else {
          books := books.Duplicate(Kept(batch.conns, u.0));
        }
      } else {
        NothingStored(t, batch, u);
      }
    }

    /** Puts the batch in hand on the spool, or accounts for why it cannot stay. */
    method SpoolBatch(batch: EventsBatch, push: PushInput)
      requires spool.Valid() && books.Balanced(server.table, agg.entries, spool.files, batch.conns)
      modifies this`books, spool
      ensures spool.Valid() && books.Balanced(server.table, agg.entries, spool.files, [])
      ensures Held() == Pushed(old(Held()), batch, push, Cfg())
      ensures push.size <= spool.maxBytes && push.disk == Works ==> SpoolFile(push.stamp, push.size, Readable(batch)) in spool.files
      ensures push.size > spool.maxBytes || push.disk == ListFails ==> spool.files == old(spool.files)
    {
      hide Evicts, Clobbered, Written, EvictCount, Books.Balanced;
      ghost var fs := spool.files;
      ghost var f := FileOf(batch, push);
      ghost var e;
      var ok;
      ok, e := spool.Push(batch, push.size, push.stamp, push.disk);
      if HasRoom(push, Cfg()) {
        EvictCountEvicts(fs, push.size, spool.maxFiles, spool.maxBytes);
        EvictsUnique(fs, push.size, spool.maxFiles, spool.maxBytes, e, EvictedBy(fs, push, Cfg()));
      }
      BooksPush(books, server.table, agg.entries, fs, f, e);
      books := books.Lose(Evicted, AllConns(fs[..e]));
      if ok {
        books := books.Lose(Overwritten, AllConns(Clobbered(fs[e..], f)));
      } else {
        books := books.Lose(Unspoolable, batch.conns);
      }
    }

    /** Uploads the oldest spooled batch and removes it once acknowledged. */
    method FlushOne(u: UploadInput) returns (step: FlushStep)
      requires Valid()
      modifies this`books, spool, server
      ensures Valid()
      ensures (Held(), step) == FlushTurn(old(Held()), u)
      ensures step == Empty ==> spool.files == []
    {
      hide Acked, TableAfter, AfterUpload, Books.Balanced, InRange, Keyed, Listed, Batches, AllConns, Trimmed;
      ghost var before := spool.files;
      var next := spool.Peek();
      SameConns(books, server.table, agg.entries, before, spool.files);
      if next == [] {
        return Empty;
      }
      var f := next[0];
      HeadBatch(spool.files);
      ghost var fs := spool.files;
      BooksTakeHead(books, server.table, agg.entries, fs);
      var acked := Upload(f.content.batch, u, fs[1..]);
      if !acked {
        BooksTakeHead(books, server.table, agg.entries, fs);
        return Failed;
      }
      spool.Remove(f);
      return Sent;
    }

    /** After a successful upload: up to twenty spooled batches, oldest first, until one fails. */
    method FlushSpool(us: seq<UploadInput>) returns (flushed: nat, stalled: bool)
      requires Valid()
      modifies this`books, spool, server
      ensures Valid()
      ensures Flush(Held(), flushed, stalled) == FlushFrom(old(Held()), us, 0)
      ensures flushed <= 20 && (flushed < 20 ==> stalled || spool.files == [])
    {
      hide FlushTurn, Agent.Valid;
      flushed, stalled := 0, false;
      while flushed < FLUSH_LIMIT
        invariant Valid() && flushed <= FLUSH_LIMIT
        invariant FlushFrom(Held(), us, flushed) == FlushFrom(old(Held()), us, 0)
      {
        var u := InputAt(us, flushed);
        var step := FlushOne(u);
        if step == Empty {
          return;
        }
        if step == Failed {
          return flushed, true;
        }
        flushed := flushed + 1;
      }
    }

    /** The process ends for a new binary: what is in memory is lost. */
    method Exit()
      requires Valid() && running
      modifies this`books, this`running, agg`entries
      ensures Valid() && !running && agg.entries == map[]
      ensures books == old(books).Lose(ExitedForUpdate, MemoryConns(old(agg.entries)))
    {
      hide Books.Balanced, MemoryConns, Listed, InRange;
      BooksExit(books, server.table, agg.entries, spool.files);
      books := books.Lose(ExitedForUpdate, MemoryConns(agg.entries));
      agg.entries := map[];
      running := false;
    }

    /** The rest of a send tick once the upload is acknowledged: perhaps a self-update, then the spool. */
    method Acknowledged(i: SendInput) returns (tick: Tick)
      requires Valid() && running
      modifies this, agg`entries, spool, server
      ensures Valid()
      ensures (State(), tick) == AckedAfter(old(State()), i)
      ensures lastUpload == i.now && (running <==> tick != Exited) && tick != Idle && tick != UploadFailed
      ensures var tries := i.offersUpdate && (!old(triedUpdate) || i.now - old(lastUpdateTry) > 3600);
              && (tick == Exited <==> tries && i.installs)
              && (if tries then triedUpdate && lastUpdateTry == i.now
                  else triedUpdate == old(triedUpdate) && lastUpdateTry == old(lastUpdateTry))
    {
      hide Books.Balanced, FlushFrom, MemoryConns, Listed, InRange, Keyed;
      lastUpload := i.now;
      if i.offersUpdate && (!triedUpdate || i.now - lastUpdateTry > UPDATE_RETRY) {
        lastUpdateTry, triedUpdate := i.now, true;
        if i.installs {
          Exit();
          return Exited;
        }
      }
      var flushed, stalled := FlushSpool(i.flush);
      return Uploaded(flushed, stalled);
    }

    /** Completed minutes leave memory; nothing else changes. */
    method TakeBatch(now: int, force: bool) returns (conns: seq<ConnRecord>)
      requires Valid()
      modifies agg`entries
      ensures agg.Valid() && spool.Valid() && server.Valid()
      ensures agg.entries == Staying(old(agg.entries), now, force)
      ensures books.Balanced(server.table, agg.entries, spool.files, conns)
      ensures IsDrain(conns, old(agg.entries), now, force)
    {
      ghost var es := agg.entries;
      conns := agg.Drain(now, force);
      BooksDrain(books, server.table, es, agg.entries, spool.files, conns);
    }

    /** The send arm: when there is something to send or a heartbeat is due, the completed minutes go out;
        if the upload fails, they go to the spool. */
    method SendTick(i: SendInput) returns (tick: Tick, ghost conns: seq<ConnRecord>)
      requires Valid() && running
      modifies this, agg`entries, spool, server
      ensures Valid()
      ensures IsDrain(conns, old(agg.entries), i.now, false)
      ensures (State(), tick) == SendAfter(old(State()), i, conns, Cfg())
      ensures tick == Idle <==> conns == [] && i.identities == 0 && i.now - old(lastUpload) < 60
      ensures tick == Idle ==> server.table == old(server.table) && spool.files == old(spool.files) && books == old(books)
      ensures tick == UploadFailed <==> tick != Idle && !Acked(old(server.table), EventsBatch(old(agg.dropped), conns, i.identities), i.upload)
      ensures tick == Idle || tick == UploadFailed ==> running && lastUpload == old(lastUpload)
      ensures tick == UploadFailed && conns == [] && i.identities == 0 ==> spool.files == old(spool.files)
      ensures tick == UploadFailed && (conns != [] || i.identities > 0) && i.push.size <= spool.maxBytes && i.push.disk == Works ==>
                SpoolFile(i.push.stamp, i.push.size, Readable(EventsBatch(old(agg.dropped), conns, i.identities))) in spool.files
    {
      hide IsDrain, Acked, DeskAfter, Pushed, AckedAfter, Staying, Books.Balanced, Listed, InRange, Keyed;
      var taken := TakeBatch(i.now, false);
      conns := taken;
      var heartbeatDue := i.now - lastUpload >= HEARTBEAT;
      if taken == [] && !heartbeatDue && i.identities == 0 {
        NothingInHand(books, server.table, agg.entries, spool.files, taken);
        return Idle, conns;
      }
      var batch := EventsBatch(agg.dropped, taken, i.identities);
      var acked := Upload(batch, i.upload, spool.files);
      if acked {
        tick := Acknowledged(i);
      } else {
        tick := UploadFailed;
        if batch.conns != [] || batch.programs > 0 {
          SpoolBatch(batch, i.push);
        } else {
          NothingInHand(books, server.table, agg.entries, spool.files, batch.conns);
        }
      }
    }

    /** The stop arm: everything in memory is sent or spooled. */
    method StopNow(e: Event) returns (ghost conns: seq<ConnRecord>)
      requires Valid() && running && e.Stop?
      modifies this, agg`entries, spool, server
      ensures Valid()
      ensures IsDrain(conns, old(agg.entries), e.stopAt, true)
      ensures State() == StopAfter(old(State()), e, conns, Cfg())
      ensures !running && agg.entries == map[]
      ensures conns == [] ==> server.table == old(server.table) && spool.files == old(spool.files)
      ensures var batch := EventsBatch(old(agg.dropped), conns, e.stopIdentities);
              conns != [] && !Acked(old(server.table), batch, e.stopUpload) && e.stopPush.size <= spool.maxBytes && e.stopPush.disk == Works ==>
                SpoolFile(e.stopPush.stamp, e.stopPush.size, Readable(batch)) in spool.files
    {
      hide IsDrain, Acked, DeskAfter, Pushed, Staying, Books.Balanced, Listed, InRange, Keyed;
      AllDue(agg.entries, e.stopAt);
      var taken := TakeBatch(e.stopAt, true);
      conns := taken;
      if taken != [] {
        var batch := EventsBatch(agg.dropped, taken, e.stopIdentities);
        var acked := Upload(batch, e.stopUpload, spool.files);
        if !acked {
          SpoolBatch(batch, e.stopPush);
        }
      }
      running := false;
    }

    /** One turn of the loop. */
    method Step(e: Event)
      requires Valid() && running
      modifies this, agg, spool, server
      ensures Valid() && Turn(old(State()), e, State(), Cfg())
    {
      hide IsDrain, SendAfter, StopAfter, PollAfter, Books.Balanced, Listed, InRange, Keyed;
      match e
      case Poll(now, sockets) => PollTick(now, sockets);
      case CaptureError =>
      case StopFalse =>
      case Send(input) =>
        ghost var conns;
        var tick;
        tick, conns := SendTick(input);
      case Stop(_, _, _, _) =>
        ghost var conns := StopNow(e);
    }

    /** The loop: any events, until the agent stops. `trace` is what it went through, ending in the state it
        is left in; the events that happened are the first |trace| - 1, all of them if it is still running. */
    method Run(events: seq<Event>) returns (ghost trace: seq<Snap>)
      requires Valid() && running
      modifies this, agg, spool, server
      ensures Valid()
      ensures 1 <= |trace| <= |events| + 1 && IsTrace(trace, events[..|trace| - 1], Cfg())
      ensures trace[0] == old(State()) && trace[|trace| - 1] == State()
      ensures running ==> |trace| == |events| + 1
    {
      hide Turn, Agent.Valid;
      trace := [State()];
      for i := 0 to |events|
        invariant Valid() && running && |trace| == i + 1
        invariant IsTrace(trace, events[..i], Cfg()) && trace[0] == old(State()) && trace[i] == State()
      {
        ghost var before := trace;
        Step(events[i]);
        trace := trace + [State()];
        TraceGrows(before, events, i, State(), Cfg());
        if !running {
          return;
        }
      }
    }
  }

  lemma TraceGrows(trace: seq<Snap>, events: seq<Event>, i: nat, s: Snap, c: Config)
    requires i < |events| && |trace| == i + 1 && IsTrace(trace, events[..i], c)
    requires trace[i].running && Turn(trace[i], events[i], s, c)
    ensures IsTrace(trace + [s], events[..i + 1], c)
  {
    hide Turn;
    var t, es := trace + [s], events[..i + 1];
    forall n | 0 <= n < |es| ensures t[n].running && Turn(t[n], es[n], t[n + 1], c) {
      if n < i {
        assert t[n] == trace[n] && t[n + 1] == trace[n + 1] && es[n] == events[..i][n];
      }
    }
  }

  lemma NothingPolled(s: Snap, now: int, sockets: seq<Socket>, c: Config)
    ensures PollAfter(s, Seen(now, sockets[..0], c.sendCmdline), c) == s
  {
  }

  lemma OneMoreSocket(s: Snap, now: int, sockets: seq<Socket>, i: nat, c: Config)
    requires i < |sockets|
    ensures PollAfter(s, Seen(now, sockets[..i + 1], c.sendCmdline), c)
            == Observed(PollAfter(s, Seen(now, sockets[..i], c.sendCmdline), c),
                        RecordOf(now, sockets[i].key, sockets[i].info, 0, c.sendCmdline), c)
  {
    hide FateOf, Noted, Booked, RecordOf;
    var ones, one := Seen(now, sockets[..i], c.sendCmdline), RecordOf(now, sockets[i].key, sockets[i].info, 0, c.sendCmdline);
    assert sockets[..i + 1][..i] == sockets[..i];
    var more := Seen(now, sockets[..i + 1], c.sendCmdline);
    assert more == ones + [one];
    assert more[..i] == ones;
  }

  /** An upload that was not stored leaves table and books alone. */
  lemma NothingStored(t: Table, batch: EventsBatch, u: UploadInput)
    requires u.1 == NotApplied || !Storable(t, batch, u.0)
    ensures TableAfter(t, batch, u.0, u.1) == t
  {
  }

  lemma AllDue(es: Entries, now: int)
    ensures DueKeys(es, now, true) == es.Keys && Staying(es, now, true) == map[]
  {
  }
}
