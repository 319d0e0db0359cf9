/** The server's side of an upload: agentEvents (internal/api/agents.go) validates a batch and
    InsertEndpointConns (internal/db/agents.go) merges it into endpoint_conns. */
module Ingest {
  import opened Numbers
  import opened Selection
  import opened Wire

  const MAX_AGENT_BATCH: nat := 20000
  const MAX_PROGRAMS: nat := 5000

  datatype Stored = Stored(name: string, sha256: string, pid: int, cmdline: string, count: int, bytes: int)
  type Table = map<RowKey, Stored>
  datatype Merged = Committed(table: Table) | OutOfRange

  function CountAt(t: Table, k: RowKey): int {
    if k in t then t[k].count else 0
  }

  function BytesAt(t: Table, k: RowKey): int {
    if k in t then t[k].bytes else 0
  }

  ghost predicate InRange(t: Table) {
    forall k <- t :: 0 <= t[k].count <= INT4_MAX && 0 <= t[k].bytes <= INT8_MAX
  }

  ghost predicate AllOk(rows: seq<Row>) {
    forall i | 0 <= i < |rows| :: rows[i].Ok()
  }

  /** The process id fits its column; it is a u32 on the wire. */
  predicate PidFits(r: Row) {
    INT4_MIN <= r.pid <= INT4_MAX
  }

  /** One upsert. The sums are computed in the columns' types and fail when they do not fit. */
  function MergeRow(t: Table, r: Row): Merged {
    var count := CountAt(t, r.key) + r.count;
    var bytes := BytesAt(t, r.key) + r.bytes;
    if count > INT4_MAX || bytes > INT8_MAX || !PidFits(r) then OutOfRange
    else
      var cmdline := if r.cmdline != "" || r.key !in t then r.cmdline else t[r.key].cmdline;
      Committed(t[r.key := Stored(r.name, r.sha256, r.pid, cmdline, count, bytes)])
  }

  /** A batch runs as one implicit transaction: every statement succeeds or none has an effect. */
  function MergeAll(t: Table, rows: seq<Row>): Merged
    decreases |rows|
  {
    if rows == [] then Committed(t)
    else
      match MergeRow(t, rows[0])
      case OutOfRange => OutOfRange
      case Committed(t') => MergeAll(t', rows[1..])
  }

  ghost function RowCount(rows: seq<Row>, k: RowKey): int {
    if rows == [] then 0 else (if rows[0].key == k then rows[0].count else 0) + RowCount(rows[1..], k)
  }

  ghost function RowBytes(rows: seq<Row>, k: RowKey): int {
    if rows == [] then 0 else (if rows[0].key == k then rows[0].bytes else 0) + RowBytes(rows[1..], k)
  }

  /** Every key's total still fits its columns. */
  ghost predicate TotalsFit(t: Table, rows: seq<Row>) {
    forall k: RowKey :: CountAt(t, k) + RowCount(rows, k) <= INT4_MAX && BytesAt(t, k) + RowBytes(rows, k) <= INT8_MAX
  }

  /** Every value of the batch fits its column. */
  ghost predicate Fits(t: Table, rows: seq<Row>) {
    TotalsFit(t, rows) && forall r <- rows :: PidFits(r)
  }

  /** t' is t with the rows' counts and bytes added, key by key. */
  ghost predicate Adds(t: Table, rows: seq<Row>, t': Table) {
    && (forall k: RowKey :: CountAt(t', k) == CountAt(t, k) + RowCount(rows, k))
    && (forall k: RowKey :: BytesAt(t', k) == BytesAt(t, k) + RowBytes(rows, k))
    && t'.Keys == t.Keys + KeysOf(rows)
  }

  function KeysOf(rows: seq<Row>): set<RowKey> {
    set r <- rows :: r.key
  }

  lemma {:induction false} RowTotalsNonNegative(rows: seq<Row>, k: RowKey)
    requires AllOk(rows)
    ensures RowCount(rows, k) >= 0 && RowBytes(rows, k) >= 0
  {
    if rows != [] {
      assert rows[0].Ok();
      RowTotalsNonNegative(rows[1..], k);
    }
  }

  lemma MergeRowAdds(t: Table, r: Row)
    requires InRange(t) && r.Ok()
    ensures MergeRow(t, r).Committed? ==>
              var t' := MergeRow(t, r).table;
              && InRange(t')
              && (forall k: RowKey :: CountAt(t', k) == CountAt(t, k) + if r.key == k then r.count else 0)
              && (forall k: RowKey :: BytesAt(t', k) == BytesAt(t, k) + if r.key == k then r.bytes else 0)
              && t'.Keys == t.Keys + {r.key}
  {
  }

  /** An upsert changes the row of its key only, which is described as the new row says, except that an empty
      command line leaves the old one. */
  lemma MergeRowIs(t: Table, r: Row)
    ensures MergeRow(t, r).Committed?
            <==> CountAt(t, r.key) + r.count < 0x8000_0000 && BytesAt(t, r.key) + r.bytes < 0x8000_0000_0000_0000
                 && -0x8000_0000 <= r.pid < 0x8000_0000
    ensures MergeRow(t, r).Committed? ==>
              var t' := MergeRow(t, r).table;
              && t'.Keys == t.Keys + {r.key} && (forall k <- t :: k != r.key ==> t'[k] == t[k])
              && var s := t'[r.key];
                 && s.name == r.name && s.sha256 == r.sha256 && s.pid == r.pid
                 && s.count == (if r.key in t then t[r.key].count + r.count else r.count)
                 && s.bytes == (if r.key in t then t[r.key].bytes + r.bytes else r.bytes)
                 && s.cmdline == (if r.cmdline == "" && r.key in t then t[r.key].cmdline else r.cmdline)
  {
  }

  lemma NoKeys()
    ensures KeysOf([]) == {}
  {
  }

  lemma KeysSplit(rows: seq<Row>)
    requires rows != []
    ensures KeysOf(rows) == {rows[0].key} + KeysOf(rows[1..])
  {
    assert rows == [rows[0]] + rows[1..];
  }

  /** After a first row that fits, the rest fits from there exactly when all fit from here. */
  lemma FitsStep(t: Table, rows: seq<Row>)
    requires rows != [] && InRange(t) && AllOk(rows) && MergeRow(t, rows[0]).Committed?
    ensures InRange(MergeRow(t, rows[0]).table) && (Fits(t, rows) <==> Fits(MergeRow(t, rows[0]).table, rows[1..]))
  {
    assert rows[0] in rows && rows[0].Ok();
    MergeRowAdds(t, rows[0]);
    hide InRange, MergeRow, KeysOf;
    var t' := MergeRow(t, rows[0]).table;
    assert TotalsFit(t, rows) <==> TotalsFit(t', rows[1..]);
    assert rows == [rows[0]] + rows[1..];
  }

  lemma AddsStep(t: Table, rows: seq<Row>, u: Table)
    requires rows != [] && InRange(t) && AllOk(rows) && MergeRow(t, rows[0]).Committed?
    requires Adds(MergeRow(t, rows[0]).table, rows[1..], u)
    ensures Adds(t, rows, u)
  {
    assert rows[0] in rows && rows[0].Ok();
    MergeRowAdds(t, rows[0]);
    KeysSplit(rows);
    hide InRange, MergeRow, KeysOf;
  }

  lemma FirstDoesNotFit(t: Table, rows: seq<Row>)
    requires rows != [] && AllOk(rows) && MergeRow(t, rows[0]).OutOfRange?
    ensures !Fits(t, rows)
  {
    var k := rows[0].key;
    assert rows[0] in rows;
    RowTotalsNonNegative(rows[1..], k);
    assert !PidFits(rows[0]) || CountAt(t, k) + RowCount(rows, k) > INT4_MAX || BytesAt(t, k) + RowBytes(rows, k) > INT8_MAX;
  }

  /** A batch is stored exactly when everything in it fits, and then it adds exactly its totals: neither
      depends on the order of the rows. */
  lemma {:induction false} MergeAllClosedForm(t: Table, rows: seq<Row>)
    requires InRange(t) && AllOk(rows)
    ensures MergeAll(t, rows).Committed? <==> Fits(t, rows)
    ensures MergeAll(t, rows).Committed? ==> InRange(MergeAll(t, rows).table) && Adds(t, rows, MergeAll(t, rows).table)
    decreases |rows|
  {
    if rows == [] {
      NoKeys();
      hide KeysOf;
    } else if MergeRow(t, rows[0]).OutOfRange? {
      hide Fits;
      FirstDoesNotFit(t, rows);
    } else {
      hide Fits, Adds, InRange, MergeRow;
      FitsStep(t, rows);
      MergeAllClosedForm(MergeRow(t, rows[0]).table, rows[1..]);
      if MergeAll(t, rows).Committed? {
        AddsStep(t, rows, MergeAll(t, rows).table);
      }
    }
  }

  lemma {:induction false} RowTotalsDrop(rows: seq<Row>, i: nat, k: RowKey)
    requires i < |rows|
    ensures RowCount(rows, k) == (if rows[i].key == k then rows[i].count else 0) + RowCount(rows[..i] + rows[i + 1..], k)
    ensures RowBytes(rows, k) == (if rows[i].key == k then rows[i].bytes else 0) + RowBytes(rows[..i] + rows[i + 1..], k)
  {
    var rest := rows[..i] + rows[i + 1..];
    if i == 0 {
      assert rest == rows[1..];
    } else {
      RowTotalsDrop(rows[1..], i - 1, k);
      assert rest[0] == rows[0];
      assert rest[1..] == rows[1..][..i - 1] + rows[1..][i..];
    }
  }

  lemma {:induction false} RowTotalsByMultiset(a: seq<Row>, b: seq<Row>, k: RowKey)
    requires multiset(a) == multiset(b)
    ensures RowCount(a, k) == RowCount(b, k) && RowBytes(a, k) == RowBytes(b, k)
    decreases |a|
  {
    if a == [] {
      assert |multiset(b)| == 0;
    } else {
      assert a[0] in multiset(b);
      var i :| 0 <= i < |b| && b[i] == a[0];
      WithoutOne(a, b, i);
      RowTotalsDrop(b, i, k);
      RowTotalsByMultiset(a[1..], b[..i] + b[i + 1..], k);
    }
  }

  lemma WithoutOne<T>(a: seq<T>, b: seq<T>, i: nat)
    requires multiset(a) == multiset(b) && a != [] && i < |b| && b[i] == a[0]
    ensures multiset(a[1..]) == multiset(b[..i] + b[i + 1..])
  {
    assert b == b[..i] + [b[i]] + b[i + 1..];
    assert a == [a[0]] + a[1..];
    assert multiset(a[1..]) == multiset(a) - multiset{a[0]};
  }

  /** Two tables agree on what was counted. */
  ghost predicate SameTotals(t1: Table, t2: Table) {
    forall k: RowKey :: CountAt(t1, k) == CountAt(t2, k) && BytesAt(t1, k) == BytesAt(t2, k)
  }

  /** Reordering a batch changes neither whether it is stored nor any count or byte total. */
  lemma MergeOrderIndependent(t: Table, a: seq<Row>, b: seq<Row>)
    requires InRange(t) && AllOk(a) && AllOk(b) && multiset(a) == multiset(b)
    ensures MergeAll(t, a).Committed? <==> MergeAll(t, b).Committed?
    ensures MergeAll(t, a).Committed? ==> SameTotals(MergeAll(t, a).table, MergeAll(t, b).table)
  {
    MergeAllClosedForm(t, a);
    MergeAllClosedForm(t, b);
    forall k: RowKey ensures RowCount(a, k) == RowCount(b, k) && RowBytes(a, k) == RowBytes(b, k) {
      RowTotalsByMultiset(a, b, k);
    }
    assert TotalsFit(t, a) <==> TotalsFit(t, b);
    forall r: Row ensures r in a <==> r in b {
      assert r in multiset(a) <==> r in multiset(b);
    }
  }

  /** Uploading batch after batch. */
  function MergeBatches(t: Table, batches: seq<seq<Row>>): Merged
    decreases |batches|
  {
    if batches == [] then Committed(t)
    else
      match MergeAll(t, batches[0])
      case OutOfRange => OutOfRange
      case Committed(t') => MergeBatches(t', batches[1..])
  }

  function Flatten(batches: seq<seq<Row>>): seq<Row> {
    if batches == [] then [] else batches[0] + Flatten(batches[1..])
  }

  lemma {:induction false} MergeAllAppend(t: Table, a: seq<Row>, b: seq<Row>)
    ensures MergeAll(t, a + b) == match MergeAll(t, a) case OutOfRange => OutOfRange case Committed(t') => MergeAll(t', b)
    decreases |a|
  {
    if a == [] {
      assert a + b == b;
    } else {
      assert (a + b)[1..] == a[1..] + b;
      match MergeRow(t, a[0])
      case OutOfRange =>
      case Committed(t') => MergeAllAppend(t', a[1..], b);
    }
  }

  /** Splitting rows over batches makes no difference at all. */
  lemma {:induction false} MergeBatchesFlat(t: Table, batches: seq<seq<Row>>)
    ensures MergeBatches(t, batches) == MergeAll(t, Flatten(batches))
    decreases |batches|
  {
    if batches != [] {
      MergeAllAppend(t, batches[0], Flatten(batches[1..]));
      match MergeAll(t, batches[0])
      case OutOfRange =>
      case Committed(t') => MergeBatchesFlat(t', batches[1..]);
    }
  }

  /** Counts and bytes depend only on the bag of accepted rows: any split of it into batches, uploaded
      in any order, succeeds or fails alike and gives the same totals. */
  lemma MergeSplitIndependent(t: Table, a: seq<seq<Row>>, b: seq<seq<Row>>)
    requires InRange(t) && AllOk(Flatten(a)) && AllOk(Flatten(b)) && multiset(Flatten(a)) == multiset(Flatten(b))
    ensures MergeBatches(t, a).Committed? <==> MergeBatches(t, b).Committed?
    ensures MergeBatches(t, a).Committed? ==> SameTotals(MergeBatches(t, a).table, MergeBatches(t, b).table)
  {
    MergeBatchesFlat(t, a);
    MergeBatchesFlat(t, b);
    MergeOrderIndependent(t, Flatten(a), Flatten(b));
  }

  lemma MergeOne(t: Table, r: Row)
    ensures MergeAll(t, [r]) == MergeRow(t, r)
  {
    assert [r][1..] == [];
  }

  /** The command line kept for a key when row r arrives. */
  function CmdlineAfter(t: Table, r: Row): string {
    if r.cmdline != "" || r.key !in t then r.cmdline else t[r.key].cmdline
  }

  lemma MergeTwo(t: Table, a: Row, b: Row)
    requires a.key == b.key && a.Ok() && b.Ok() && PidFits(a) && PidFits(b)
    requires CountAt(t, a.key) + a.count + b.count <= INT4_MAX && BytesAt(t, a.key) + a.bytes + b.bytes <= INT8_MAX
    ensures MergeAll(t, [a, b])
            == Committed(t[a.key := Stored(b.name, b.sha256, b.pid, if b.cmdline != "" then b.cmdline else CmdlineAfter(t, a),
                                           CountAt(t, a.key) + a.count + b.count, BytesAt(t, a.key) + a.bytes + b.bytes)])
  {
    assert [a, b][1..] == [b];
    MergeOne(MergeRow(t, a).table, b);
  }

  /** The descriptive columns do depend on the order: of two rows with one key, the later describes it. */
  lemma LastRowDescribes(t: Table, a: Row, b: Row)
    requires a.key == b.key && a.Ok() && b.Ok() && PidFits(a) && PidFits(b)
    requires CountAt(t, a.key) + a.count + b.count <= INT4_MAX && BytesAt(t, a.key) + a.bytes + b.bytes <= INT8_MAX
    ensures MergeAll(t, [a, b]) == MergeAll(t, [b, a])
            <==> a.name == b.name && a.sha256 == b.sha256 && a.pid == b.pid
                 && (a.cmdline == b.cmdline || a.cmdline == "" || b.cmdline == "")
  {
    MergeTwo(t, a, b);
    MergeTwo(t, b, a);
    var ab, ba := MergeAll(t, [a, b]).table, MergeAll(t, [b, a]).table;
    assert ab == ba <==> ab[a.key] == ba[a.key];
  }

  // ---- the accept/reject loop ----

  function AcceptedRows(cs: seq<EndpointConn>, now: int): (rows: seq<Row>)
    ensures |rows| <= |cs|
    ensures AllOk(rows)
  {
    if cs == [] then []
    else if Acceptable(cs[0], now) then [Normalised(cs[0])] + AcceptedRows(cs[1..], now)
    else AcceptedRows(cs[1..], now)
  }

  ghost function AcceptableAt(now: int): EndpointConn -> bool {
    (c: EndpointConn) => Acceptable(c, now)
  }

  /** The rows accepted are those of the acceptable connections, all of them and in order. */
  lemma {:induction false} AcceptedAre(cs: seq<EndpointConn>, now: int) returns (kept: seq<EndpointConn>)
    ensures KeptOf(kept, cs, AcceptableAt(now)) && |AcceptedRows(cs, now)| == |kept|
    ensures forall i | 0 <= i < |kept| :: kept[i].host.Parsed? && kept[i].dst.Parsed? && AcceptedRows(cs, now)[i] == Normalised(kept[i])
  {
    hide KeptOf, Normalised;
    if cs == [] {
      kept := [];
      KeptNone(AcceptableAt(now));
    } else {
      kept := AcceptedAre(cs[1..], now);
      KeptCons(kept, cs[1..], cs[0], AcceptableAt(now));
      assert cs == [cs[0]] + cs[1..];
      kept := if Acceptable(cs[0], now) then [cs[0]] + kept else kept;
    }
  }

  lemma NoRows(now: int)
    ensures AcceptedRows([], now) == []
  {
  }

  lemma {:induction false} AcceptedRowsAppend(cs: seq<EndpointConn>, c: EndpointConn, now: int)
    ensures AcceptedRows(cs + [c], now) == AcceptedRows(cs, now) + if Acceptable(c, now) then [Normalised(c)] else []
  {
    if cs == [] {
      assert cs + [c] == [c] && [c][1..] == [];
    } else {
      assert (cs + [c])[1..] == cs[1..] + [c];
      AcceptedRowsAppend(cs[1..], c, now);
    }
  }

  /** The agent's records the server keeps, and those it turns away. */
  function Kept(rs: seq<ConnRecord>, now: int): seq<ConnRecord> {
    if rs == [] then []
    else if Acceptable(ToWire(rs[0]), now) then [rs[0]] + Kept(rs[1..], now)
    else Kept(rs[1..], now)
  }

  function Refused(rs: seq<ConnRecord>, now: int): seq<ConnRecord> {
    if rs == [] then []
    else if Acceptable(ToWire(rs[0]), now) then Refused(rs[1..], now)
    else [rs[0]] + Refused(rs[1..], now)
  }

  lemma {:induction false} RefusedAreOutside(rs: seq<ConnRecord>, now: int)
    ensures forall r <- Refused(rs, now) :: r in rs && !Acceptable(ToWire(r), now)
  {
    if rs != [] {
      RefusedAreOutside(rs[1..], now);
    }
  }

  ghost function GoesIn(now: int): ConnRecord -> bool {
    (r: ConnRecord) => Acceptable(ToWire(r), now)
  }

  ghost function StaysOut(now: int): ConnRecord -> bool {
    (r: ConnRecord) => !Acceptable(ToWire(r), now)
  }

  /** Every record of an upload is kept or refused, by its own acceptability and in order. */
  lemma {:induction false} KeptAndRefused(rs: seq<ConnRecord>, now: int)
    ensures KeptOf(Kept(rs, now), rs, GoesIn(now)) && KeptOf(Refused(rs, now), rs, StaysOut(now))
  {
    hide KeptOf, Acceptable;
    if rs == [] {
      KeptNone(GoesIn(now));
      KeptNone(StaysOut(now));
    } else {
      KeptAndRefused(rs[1..], now);
      KeptCons(Kept(rs[1..], now), rs[1..], rs[0], GoesIn(now));
      KeptCons(Refused(rs[1..], now), rs[1..], rs[0], StaysOut(now));
      assert rs == [rs[0]] + rs[1..];
    }
  }

  lemma {:induction false} KeptPlusRefused(rs: seq<ConnRecord>, now: int, k: RowKey)
    ensures Tot(Kept(rs, now), k) + Tot(Refused(rs, now), k) == Tot(rs, k)
  {
    if rs != [] {
      KeptPlusRefused(rs[1..], now, k);
      TotAppend([rs[0]], Kept(rs[1..], now), k);
      TotAppend([rs[0]], Refused(rs[1..], now), k);
      TotOne(rs[0], k);
    }
  }

  function WireAll(rs: seq<ConnRecord>): (cs: seq<EndpointConn>)
    ensures |cs| == |rs|
  {
    seq(|rs|, i requires 0 <= i < |rs| => ToWire(rs[i]))
  }

  /** What the server adds for a key is what the kept records weigh under it. */
  lemma {:induction false} AcceptedWeight(rs: seq<ConnRecord>, now: int, k: RowKey)
    ensures RowCount(AcceptedRows(WireAll(rs), now), k) == Tot(Kept(rs, now), k)
  {
    if rs != [] {
      var w, rest := ToWire(rs[0]), AcceptedRows(WireAll(rs[1..]), now);
      assert WireAll(rs)[1..] == WireAll(rs[1..]);
      AcceptedWeight(rs[1..], now, k);
      assert ([Normalised(w)] + rest)[1..] == rest;
      assert ([rs[0]] + Kept(rs[1..], now))[1..] == Kept(rs[1..], now);
    }
  }

  /** How one upload can go wrong outside the handler's own logic. */
  datatype Fault = NoFault
                 | NotApplied // unreachable, refused before the insert, or rolled back
                 | AckLost    // stored, but the heartbeat update or the answer failed

  /** A batch the handler stores: within the size limits, every number readable, every total in range. */
  ghost predicate Storable(t: Table, batch: EventsBatch, now: int) {
    && |batch.conns| <= MAX_AGENT_BATCH && batch.programs <= MAX_PROGRAMS
    && (forall r <- batch.conns :: r.bytes <= INT8_MAX)
    && Fits(t, AcceptedRows(WireAll(batch.conns), now))
  }

  /** The table after one upload under a fault. */
  ghost function TableAfter(t: Table, batch: EventsBatch, now: int, fault: Fault): Table {
    if fault == NotApplied || !Storable(t, batch, now) then t
    else
      match MergeAll(t, AcceptedRows(WireAll(batch.conns), now))
      case Committed(t') => t'
      case OutOfRange => t
  }

  class Server {
    var table: Table

    ghost predicate Valid()
      reads this
    {
      InRange(table)
    }

    constructor (table: Table)
      requires InRange(table)
      ensures Valid() && this.table == table
    {
      this.table := table;
    }

    /** InsertEndpointConns. */
    method InsertEndpointConns(rows: seq<Row>) returns (ok: bool)
      requires Valid() && AllOk(rows)
      modifies this
      ensures Valid()
      ensures ok <==> Fits(old(table), rows)
      ensures ok ==> MergeAll(old(table), rows) == Committed(table) && Adds(old(table), rows, table)
      ensures !ok ==> table == old(table)
    {
      var t := table;
      for i := 0 to |rows|
        invariant table == old(table) && MergeAll(table, rows) == MergeAll(t, rows[i..])
      {
        match MergeRow(t, rows[i])
        case OutOfRange =>
          MergeAllClosedForm(table, rows);
          return false;
        case Committed(t') =>
          assert rows[i..][1..] == rows[i + 1..];
          t := t';
      }
      MergeAllClosedForm(table, rows);
      table := t;
      return true;
    }

    /** agentEvents: size limits, then row by row accept or reject, then one insert. */
    method AgentEvents(conns: seq<EndpointConn>, programs: nat, now: int) returns (ok: bool, accepted: nat, rejected: nat)
      requires Valid()
      modifies this
      ensures Valid()
      ensures ok <==> |conns| <= MAX_AGENT_BATCH && programs <= MAX_PROGRAMS && Fits(old(table), AcceptedRows(conns, now))
      ensures ok <==> |conns| <= 20000 && programs <= 5000 && Fits(old(table), AcceptedRows(conns, now))
      ensures ok ==> accepted == |AcceptedRows(conns, now)| && accepted + rejected == |conns|
      ensures ok ==> Adds(old(table), AcceptedRows(conns, now), table)
      ensures ok ==> MergeAll(old(table), AcceptedRows(conns, now)) == Committed(table)
      ensures !ok ==> table == old(table)
    {
      hide Acceptable, Normalised, Fits, Adds, InRange, AcceptedRows;
      NoRows(now);
      accepted, rejected := 0, 0;
      if |conns| > MAX_AGENT_BATCH || programs > MAX_PROGRAMS {
        return false, 0, 0;
      }
      var valid: seq<Row> := [];
      for i := 0 to |conns|
        invariant valid == AcceptedRows(conns[..i], now) && rejected == i - |valid|
        invariant table == old(table)
      {
        assert conns[..i + 1] == conns[..i] + [conns[i]];
        AcceptedRowsAppend(conns[..i], conns[i], now);
        var keep, row := ValidConn(conns[i], now);
        if keep {
          valid := valid + [row];
        } else {
          rejected := rejected + 1;
        }
      }
      assert conns[..|conns|] == conns;
      ok := InsertEndpointConns(valid);
      accepted := |valid|;
    }

    /** One upload as the agent sees it. `applied` says whether the rows were stored, `acked` whether
        the agent heard so. */
    method Receive(batch: EventsBatch, now: int, fault: Fault) returns (ghost applied: bool, acked: bool)
      requires Valid()
      modifies this
      ensures Valid()
      ensures acked <==> applied && fault == NoFault
      ensures applied <==> fault != NotApplied && Storable(old(table), batch, now)
      ensures applied <==> fault != NotApplied && |batch.conns| <= 20000 && batch.programs <= 5000
                           && (forall r <- batch.conns :: r.bytes < 0x8000_0000_0000_0000)
                           && Fits(old(table), AcceptedRows(WireAll(batch.conns), now))
      ensures table == TableAfter(old(table), batch, now, fault)
      ensures applied ==> forall k: RowKey :: CountAt(table, k) == CountAt(old(table), k) + Tot(Kept(batch.conns, now), k)
    {
      if fault == NotApplied || exists r <- batch.conns :: r.bytes > INT8_MAX {
        return false, false;
      }
      var cs := WireAll(batch.conns);
      var ok, _, _ := AgentEvents(cs, batch.programs, now);
      applied := ok;
      if ok {
        forall k: RowKey ensures RowCount(AcceptedRows(cs, now), k) == Tot(Kept(batch.conns, now), k) {
          AcceptedWeight(batch.conns, now, k);
        }
      }
      acked := ok && fault == NoFault;
    }
  }
}
