/** pmacct-agent/src/runner.rs as a step relation: what each arm of the agent's loop does to memory, spool,
    server and books, for every input the world can supply. */
module Turns {
  import opened Wire
  import opened Aggregation
  import opened Spooling
  import opened Ingest
  import opened Options
  import opened Bookkeeping

  const FLUSH_LIMIT: nat := 20
  const HEARTBEAT: int := 60
  const UPDATE_RETRY: int := 3600

  // ---- what the world does to the agent ----

  datatype Socket = Socket(key: ConnKey, info: ProcInfo)

  /** How the disk and the clock treat one push. */
  datatype PushInput = PushInput(size: nat, stamp: int, disk: Disk)

  /** One upload as the server meets it: its own clock, and what goes wrong. */
  type UploadInput = (int, Fault)

  /** One tick of the send timer: the agent's clock, the identity facts waiting, the upload and each spooled
      upload after it, whether the answer offers a newer build and whether installing it succeeds, and how
      a push would go. */
  datatype SendInput = SendInput(now: int, identities: nat, upload: UploadInput, flush: seq<UploadInput>, offersUpdate: bool,
                                 installs: bool, push: PushInput)

  datatype Event = Poll(now: int, sockets: seq<Socket>)
                 | CaptureError
                 | Send(input: SendInput)
                 | StopFalse
                 | Stop(stopAt: int, stopIdentities: nat, stopUpload: UploadInput, stopPush: PushInput)
  {
    /** No answer of the server gets lost in this event. */
    predicate AcksArrive() {
      match this
      case Send(i) => i.upload.1 != AckLost && forall u <- i.flush :: u.1 != AckLost
      case Stop(_, _, upload, _) => upload.1 != AckLost
      case _ => true
    }
  }

  /** The push an event makes when its upload fails. */
  function PushOf(e: Event): Option<PushInput> {
    match e
    case Send(i) => Some(i.push)
    case Stop(_, _, _, push) => Some(push)
    case _ => None
  }

  /** The server's clock at the uploads of an event. */
  function UploadTimes(e: Event): set<int> {
    match e
    case Send(i) => {i.upload.0} + set u <- i.flush :: u.0
    case Stop(_, _, upload, _) => {upload.0}
    case _ => {}
  }

  // ---- the agent between events ----

  /** What uploads and pushes touch. */
  datatype Desk = Desk(table: Table, files: seq<SpoolFile>, books: Books)

  datatype Snap = Snap(entries: Entries, dropped: nat, desk: Desk, lastUpload: int, lastUpdateTry: int, triedUpdate: bool,
                       running: bool)

  datatype Config = Config(maxEntries: nat, maxFiles: nat, maxBytes: nat, sendCmdline: bool)

  // ---- the poll arm ----

  /** The observations of one poll, as records of one connection each. */
  function Seen(now: int, sockets: seq<Socket>, sendCmdline: bool): (ones: seq<ConnRecord>)
    ensures |ones| == |sockets|
    ensures forall r <- ones :: r.count == 1
  {
    if sockets == [] then []
    else
      var s := sockets[|sockets| - 1];
      Seen(now, sockets[..|sockets| - 1], sendCmdline) + [RecordOf(now, s.key, s.info, 0, sendCmdline)]
  }

  /** Each socket is one connection without bytes, in the order the poll found them. */
  lemma {:induction false} SeenAt(now: int, sockets: seq<Socket>, sendCmdline: bool, i: nat)
    requires i < |sockets|
    ensures IsFirst(Seen(now, sockets, sendCmdline)[i], MinuteOf(now), sockets[i].key, sockets[i].info, 0, sendCmdline)
  {
    if i < |sockets| - 1 {
      SeenAt(now, sockets[..|sockets| - 1], sendCmdline, i);
    }
  }

  function BookedAll(b: Books, es: Entries, maxEntries: nat, ones: seq<ConnRecord>): Books {
    if ones == [] then b
    else
      var n := |ones| - 1;
      Booked(BookedAll(b, es, maxEntries, ones[..n]), ones[n], FateAt(es, maxEntries, ones, n))
  }

  function DroppedAmong(es: Entries, maxEntries: nat, ones: seq<ConnRecord>): nat {
    if ones == [] then 0
    else
      var n := |ones| - 1;
      DroppedAmong(es, maxEntries, ones[..n]) + if FateAt(es, maxEntries, ones, n).Dropped? then 1 else 0
  }

  /** One observation, remembered or booked. */
  function Observed(s: Snap, one: ConnRecord, c: Config): Snap {
    var fate := FateOf(s.entries, c.maxEntries, one);
    s.(entries := Noted(s.entries, c.maxEntries, one),
       dropped := s.dropped + (if fate.Dropped? then 1 else 0),
       desk := s.desk.(books := Booked(s.desk.books, one, fate)))
  }

  /** Every socket found becomes one observation, in order. */
  function PollAfter(s: Snap, ones: seq<ConnRecord>, c: Config): Snap {
    s.(entries := NotedAll(s.entries, c.maxEntries, ones),
       dropped := s.dropped + DroppedAmong(s.entries, c.maxEntries, ones),
       desk := s.desk.(books := BookedAll(s.desk.books, s.entries, c.maxEntries, ones)))
  }

  // ---- uploads ----

  ghost predicate Acked(t: Table, batch: EventsBatch, u: UploadInput) {
    u.1 == NoFault && Storable(t, batch, u.0)
  }

  ghost function DeskAfter(d: Desk, batch: EventsBatch, u: UploadInput): Desk {
    d.(table := TableAfter(d.table, batch, u.0, u.1), books := AfterUpload(d.books, d.table, batch, u.0, u.1))
  }

  datatype FlushStep = Empty | Sent | Failed

  /** One turn of the flush loop: the oldest readable batch is uploaded, and leaves when acknowledged. */
  ghost function FlushTurn(d: Desk, u: UploadInput): (Desk, FlushStep) {
    var fs := Trimmed(d.files);
    if fs == [] then (d.(files := []), Empty)
    else
      var batch := fs[0].content.batch;
      if Acked(d.table, batch, u) then (DeskAfter(d.(files := fs[1..]), batch, u), Sent)
      else (DeskAfter(d.(files := fs), batch, u), Failed)
  }

  /** The input of the n-th turn; where the list ends, the upload does not arrive. */
  function InputAt(us: seq<UploadInput>, n: nat): UploadInput {
    if n < |us| then us[n] else (0, NotApplied)
  }

  datatype Flush = Flush(desk: Desk, flushed: nat, stalled: bool)

  /** From the n-th turn on: at most twenty batches, until none is left or an upload fails. */
  ghost function FlushFrom(d: Desk, us: seq<UploadInput>, n: nat): Flush
    decreases FLUSH_LIMIT - n
  {
    if n >= FLUSH_LIMIT then Flush(d, n, false)
    else
      var (d', step) := FlushTurn(d, InputAt(us, n));
      match step
      case Empty => Flush(d', n, false)
      case Failed => Flush(d', n, true)
      case Sent => FlushFrom(d', us, n + 1)
  }

  // ---- pushing ----

  function FileOf(batch: EventsBatch, push: PushInput): SpoolFile {
    SpoolFile(push.stamp, push.size, Readable(batch))
  }

  /** A push that may evict: neither oversize nor blind. */
  predicate HasRoom(push: PushInput, c: Config) {
    push.size <= c.maxBytes && push.disk != ListFails
  }

  function EvictedBy(files: seq<SpoolFile>, push: PushInput, c: Config): (e: nat)
    ensures e <= |files|
  {
    if HasRoom(push, c) then EvictCount(files, push.size, c.maxFiles, c.maxBytes) else 0
  }

  /** The batch is on the spool, or booked as lost with the reason; what made room for it is booked too. */
  ghost function Pushed(d: Desk, batch: EventsBatch, push: PushInput, c: Config): Desk {
    var e := EvictedBy(d.files, push, c);
    var kept, f := d.files[e..], FileOf(batch, push);
    var b := d.books.Lose(Evicted, AllConns(d.files[..e]));
    if HasRoom(push, c) && push.disk == Works
    then d.(files := Written(kept, f), books := b.Lose(Overwritten, AllConns(Clobbered(kept, f))))
    else d.(files := kept, books := b.Lose(Unspoolable, batch.conns))
  }

  // ---- the send arm ----

  datatype Tick = Idle | UploadFailed | Uploaded(flushed: nat, stalled: bool) | Exited

  ghost predicate IsDrain(conns: seq<ConnRecord>, es: Entries, now: int, force: bool) {
    Sorted(conns) && IsBatchOf(conns, es, DueKeys(es, now, force))
  }

  function BatchOf(s: Snap, conns: seq<ConnRecord>, identities: nat): EventsBatch {
    EventsBatch(s.dropped, conns, identities)
  }

  predicate IsIdle(s: Snap, i: SendInput, conns: seq<ConnRecord>) {
    conns == [] && i.now - s.lastUpload < HEARTBEAT && i.identities == 0
  }

  /** An update is attempted after an acknowledged upload. */
  predicate TriesUpdate(s: Snap, i: SendInput) {
    i.offersUpdate && (!s.triedUpdate || i.now - s.lastUpdateTry > UPDATE_RETRY)
  }

  /** After the acknowledgement: perhaps the process ends for a new binary, else the spool is drained. */
  ghost function AckedAfter(s: Snap, i: SendInput): (Snap, Tick) {
    var s1 := s.(lastUpload := i.now);
    var s2 := if TriesUpdate(s, i) then s1.(lastUpdateTry := i.now, triedUpdate := true) else s1;
    if TriesUpdate(s, i) && i.installs
    then (s2.(entries := map[], desk := s2.desk.(books := s2.desk.books.Lose(ExitedForUpdate, MemoryConns(s.entries))), running := false), Exited)
    else
      var f := FlushFrom(s2.desk, i.flush, 0);
      (s2.(desk := f.desk), Uploaded(f.flushed, f.stalled))
  }

  /** One send tick that drains `conns`. */
  ghost function SendAfter(s: Snap, i: SendInput, conns: seq<ConnRecord>, c: Config): (Snap, Tick) {
    var s1 := s.(entries := Staying(s.entries, i.now, false));
    if IsIdle(s, i, conns) then (s1, Idle)
    else
      var batch := BatchOf(s, conns, i.identities);
      var s2 := s1.(desk := DeskAfter(s.desk, batch, i.upload));
      if Acked(s.desk.table, batch, i.upload) then AckedAfter(s2, i)
      else if conns != [] || i.identities > 0 then (s2.(desk := Pushed(s2.desk, batch, i.push, c)), UploadFailed)
      else (s2, UploadFailed)
  }

  // ---- the stop arm ----

  /** Everything in memory is sent or spooled. */
  ghost function StopAfter(s: Snap, e: Event, conns: seq<ConnRecord>, c: Config): Snap
    requires e.Stop?
  {
    var batch := BatchOf(s, conns, e.stopIdentities);
    var s1 := s.(entries := map[], running := false);
    if conns == [] then s1
    else
      var d := DeskAfter(s.desk, batch, e.stopUpload);
      s1.(desk := if Acked(s.desk.table, batch, e.stopUpload) then d else Pushed(d, batch, e.stopPush, c))
  }

  // ---- runs ----

  /** One turn of the loop. Only the order of ties in a drained batch is left open. */
  ghost predicate Turn(s: Snap, e: Event, s': Snap, c: Config) {
    match e
    case Poll(now, sockets) => s' == PollAfter(s, Seen(now, sockets, c.sendCmdline), c)
    case CaptureError => s' == s
    case StopFalse => s' == s
    case Send(i) => exists conns :: IsDrain(conns, s.entries, i.now, false) && s' == SendAfter(s, i, conns, c).0
    case Stop(now, _, _, _) => exists conns :: IsDrain(conns, s.entries, now, true) && s' == StopAfter(s, e, conns, c)
  }

  /** The states of a run: one before each event that happened, and the last. */
  ghost predicate IsTrace(trace: seq<Snap>, events: seq<Event>, c: Config) {
    && |trace| == |events| + 1
    && (forall n | 0 <= n < |events| :: trace[n].running && Turn(trace[n], events[n], trace[n + 1], c))
  }
}
