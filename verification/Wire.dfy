/** The per-minute connection record: what the agent sends, what the server makes of it, and how
    much each record weighs under the key the server files it by. */
module Wire {
  import opened Address
  import opened Numbers
  import opened Text

  // ---- agent side (agent-core/src/model.rs) ----

  datatype Proto = Tcp | Udp

  datatype ProcInfo = ProcInfo(pid: U32, exe: string, name: string, user: string, sha256: string, cmdline: string,
                               container: string)

  datatype ConnKey = ConnKey(src: Addr, proto: Proto, dst: Addr, dstPort: U16, exe: string, user: string, container: string)

  datatype ConnRecord = ConnRecord(minute: int, key: ConnKey, name: string, sha256: string, pid: U32, cmdline: string,
                                   count: U32, bytes: U64)

  /** One upload; `programs` is the number of identity facts riding along. */
  datatype EventsBatch = EventsBatch(dropped: nat, conns: seq<ConnRecord>, programs: nat)

  // ---- server side (internal/db/agents.go, internal/api/agents.go) ----

  datatype AddrText = Parsed(addr: Addr) | Unparsable

  datatype EndpointConn = EndpointConn(minute: int, host: AddrText, proto: string, dst: AddrText, dstPort: int, exe: string,
                                       name: string, user: string, sha256: string, pid: int, cmdline: string,
                                       container: string, count: int, bytes: int)

  /** The unique key of endpoint_conns, within one agent. */
  datatype RowKey = RowKey(minute: int, host: Addr, proto: string, dst: Addr, dstPort: int, exe: string, user: string,
                           container: string)

  /** A row that passed validation. */
  datatype Row = Row(key: RowKey, name: string, sha256: string, pid: int, cmdline: string, count: int, bytes: int)
  {
    predicate Ok() {
      1 <= count && 0 <= bytes
    }
  }

  const ZERO_TIME: int := -62135596800 // Go's zero time, in Unix seconds
  const TEN_MINUTES: int := 600
  const SEVEN_DAYS: int := 604800

  /** Truncation to the minute; Euclidean division floors, as both time libraries do. */
  function MinuteOf(t: int): (m: int)
    ensures m <= t < m + 60 && m % 60 == 0
  {
    t - t % 60
  }

  function BaseName(p: string): (r: string)
    ensures |r| <= |p|
  {
    if p == [] then p
    else if p[|p| - 1] == '/' || p[|p| - 1] == '\\' then []
    else BaseName(p[..|p| - 1]) + [p[|p| - 1]]
  }

  /** What follows the last separator, of either kind. */
  lemma {:induction false} BaseNameIs(p: string)
    ensures var r := BaseName(p);
            && p[|p| - |r|..] == r && (forall i | |p| - |r| <= i < |p| :: p[i] !in "/\\")
            && (|r| < |p| ==> p[|p| - |r| - 1] in "/\\")
  {
    if p != [] {
      var c, front := p[|p| - 1], p[..|p| - 1];
      assert c in "/\\" <==> c == "/\\"[0] || c == "/\\"[1];
      if c !in "/\\" {
        BaseNameIs(front);
        var r := BaseName(front);
        assert p[|p| - |r| - 1..] == front[|front| - |r|..] + [c];
      }
    }
  }

  /** What a row must satisfy to be stored at all. */
  predicate Acceptable(c: EndpointConn, now: int) {
    && ToLower(c.proto) in ["tcp", "udp"]
    && c.host.Parsed? && c.dst.Parsed?
    && 0 <= c.dstPort <= 65535
    && c.minute != ZERO_TIME
    && now - SEVEN_DAYS <= c.minute <= now + TEN_MINUTES
  }

  /** The key a row is filed under, whether or not it is accepted. */
  function KeyOf(c: EndpointConn): RowKey
    requires c.host.Parsed? && c.dst.Parsed?
  {
    RowKey(MinuteOf(c.minute), Unmap(c.host.addr), ToLower(c.proto), Unmap(c.dst.addr), c.dstPort, Trunc(c.exe, 512),
           Trunc(c.user, 128), Trunc(c.container, 128))
  }

  function CountOf(c: EndpointConn): (n: int)
    ensures 1 <= n
  {
    if c.count <= 0 then 1 else c.count
  }

  function Normalised(c: EndpointConn): (r: Row)
    requires c.host.Parsed? && c.dst.Parsed?
    ensures r.Ok()
  {
    var name := Trunc(c.name, 128);
    Row(KeyOf(c), if name == "" then BaseName(Trunc(c.exe, 512)) else name, Trunc(ToLower(c.sha256), 64), c.pid,
        Trunc(c.cmdline, 2048), CountOf(c), if c.bytes < 0 then 0 else c.bytes)
  }

  /** A kept row says, column by column, what the connection said. */
  ghost predicate IsRowOf(row: Row, c: EndpointConn)
    requires c.host.Parsed? && c.dst.Parsed?
  {
    var k := row.key;
    && k.minute % 60 == 0 && k.minute <= c.minute < k.minute + 60
    && k.host == Unmap(c.host.addr) && k.dst == Unmap(c.dst.addr) && k.dstPort == c.dstPort && k.proto == ToLower(c.proto)
    && k.exe == Trunc(c.exe, 512) && k.user == Trunc(c.user, 128) && k.container == Trunc(c.container, 128)
    && row.name == (if Trunc(c.name, 128) != "" then Trunc(c.name, 128) else BaseName(k.exe))
    && row.sha256 == Trunc(ToLower(c.sha256), 64) && row.pid == c.pid && row.cmdline == Trunc(c.cmdline, 2048)
    && row.count == Max(c.count, 1) && row.bytes == Max(c.bytes, 0)
  }

  /** validConn: rewrites the row field by field and reports whether it may be stored. */
  method ValidConn(c0: EndpointConn, now: int) returns (ok: bool, row: Row)
    ensures ok <==> Acceptable(c0, now)
    ensures ok <==> ToLower(c0.proto) in {"tcp", "udp"} && c0.host.Parsed? && c0.dst.Parsed? && 0 <= c0.dstPort < 0x1_0000
                    && c0.minute != -62135596800 && -604800 <= c0.minute - now <= 600
    ensures ok ==> row == Normalised(c0)
    ensures ok ==> IsRowOf(row, c0)
  {
    var c := c0;
    row := Row(RowKey(0, V4(0), "", V4(0), 0, "", "", ""), "", "", 0, "", 1, 0);
    c := c.(proto := ToLower(c.proto));
    if c.proto != "tcp" && c.proto != "udp" {
      return false, row;
    }
    if c.host.Unparsable? {
      return false, row;
    }
    if c.dst.Unparsable? || c.dstPort < 0 || c.dstPort > 65535 {
      return false, row;
    }
    c := c.(host := Parsed(Unmap(c.host.addr)), dst := Parsed(Unmap(c.dst.addr)));
    if c.minute == ZERO_TIME || c.minute > now + TEN_MINUTES || c.minute < now - SEVEN_DAYS {
      return false, row;
    }
    if c.count <= 0 {
      c := c.(count := 1);
    }
    if c.bytes < 0 {
      c := c.(bytes := 0);
    }
    c := c.(exe := Trunc(c.exe, 512), name := Trunc(c.name, 128), user := Trunc(c.user, 128),
            sha256 := Trunc(ToLower(c.sha256), 64), cmdline := Trunc(c.cmdline, 2048), container := Trunc(c.container, 128));
    if c.name == "" {
      c := c.(name := BaseName(c.exe));
    }
    row := Row(RowKey(MinuteOf(c.minute), c.host.addr, c.proto, c.dst.addr, c.dstPort, c.exe, c.user, c.container), c.name,
               c.sha256, c.pid, c.cmdline, c.count, c.bytes);
    return true, row;
  }

  // ---- the wire ----

  /** JSON out of the agent, JSON into the server. */
  function ToWire(r: ConnRecord): (c: EndpointConn)
    ensures c.host.Parsed? && c.dst.Parsed?
  {
    EndpointConn(r.minute, Parsed(r.key.src), if r.key.proto.Tcp? then "tcp" else "udp", Parsed(r.key.dst), r.key.dstPort,
                 r.key.exe, r.name, r.key.user, r.sha256, r.pid, r.cmdline, r.key.container, r.count, r.bytes)
  }

  /** A record built by an agent is refused for one reason only: its minute is outside the window. */
  lemma AgentRecordAcceptable(r: ConnRecord, now: int)
    ensures Acceptable(ToWire(r), now) <==> r.minute != ZERO_TIME && now - SEVEN_DAYS <= r.minute <= now + TEN_MINUTES
  {
    var p := ToWire(r).proto;
    assert ToLower(p) == p;
  }

  // ---- which records share a row ----

  /** Short enough for its column, and without white space at its ends. */
  predicate FitsIn(t: string, n: nat) {
    |t| <= n && (t != [] ==> !IsSpace(t[0]) && !IsSpace(t[|t| - 1]))
  }

  predicate TextsFit(r: ConnRecord) {
    FitsIn(r.key.exe, 512) && FitsIn(r.key.user, 128) && FitsIn(r.key.container, 128)
  }

  /** Two records are filed in one row if and only if they agree on the minute, both addresses, mapped or not,
      protocol, port, program, user and container: the texts as far as their columns hold them, and to the
      letter if those hold all of them. */
  lemma SameRowIff(r: ConnRecord, s: ConnRecord)
    ensures NormKey(r) == NormKey(s)
            <==> r.minute / 60 == s.minute / 60 && Unmap(r.key.src) == Unmap(s.key.src) && Unmap(r.key.dst) == Unmap(s.key.dst)
                 && r.key.proto == s.key.proto && r.key.dstPort == s.key.dstPort
                 && Trunc(r.key.exe, 512) == Trunc(s.key.exe, 512) && Trunc(r.key.user, 128) == Trunc(s.key.user, 128)
                 && Trunc(r.key.container, 128) == Trunc(s.key.container, 128)
    ensures TextsFit(r) && TextsFit(s) ==>
              (NormKey(r) == NormKey(s)
               <==> r.minute / 60 == s.minute / 60 && Unmap(r.key.src) == Unmap(s.key.src) && Unmap(r.key.dst) == Unmap(s.key.dst)
                    && r.key.proto == s.key.proto && r.key.dstPort == s.key.dstPort
                    && r.key.exe == s.key.exe && r.key.user == s.key.user && r.key.container == s.key.container)
  {
    var p, q := ToWire(r).proto, ToWire(s).proto;
    assert ToLower(p) == p && ToLower(q) == q;
    assert r.key.proto == s.key.proto <==> p == q;
    assert r.minute / 60 == s.minute / 60 <==> MinuteOf(r.minute) == MinuteOf(s.minute);
    if TextsFit(r) && TextsFit(s) {
      TruncIs(r.key.exe, 512);
      TruncIs(r.key.user, 128);
      TruncIs(r.key.container, 128);
      TruncIs(s.key.exe, 512);
      TruncIs(s.key.user, 128);
      TruncIs(s.key.container, 128);
    }
    hide Trunc, ToLower, Unmap;
  }

  /** The row an agent's record is filed in. */
  lemma KeyKept(r: ConnRecord)
    requires TextsFit(r)
    ensures var k := Normalised(ToWire(r)).key;
            && k == NormKey(r) && k.minute % 60 == 0 && k.minute <= r.minute < k.minute + 60
            && k.host == Unmap(r.key.src) && k.dst == Unmap(r.key.dst) && k.dstPort == r.key.dstPort
            && k.proto == (if r.key.proto == Tcp then "tcp" else "udp")
            && k.exe == r.key.exe && k.user == r.key.user && k.container == r.key.container
  {
    var p := ToWire(r).proto;
    assert ToLower(p) == p;
    TruncIs(r.key.exe, 512);
    TruncIs(r.key.user, 128);
    TruncIs(r.key.container, 128);
    hide Trunc, ToLower, Unmap, BaseName;
  }

  /** What that row says of it. */
  lemma RecordKept(r: ConnRecord)
    requires TextsFit(r)
    ensures var row := Normalised(ToWire(r));
            && row.pid == r.pid && row.count == Max(r.count, 1) && row.bytes == r.bytes && row.sha256 == Trunc(ToLower(r.sha256), 64)
            && (FitsIn(r.name, 128) && r.name != "" ==> row.name == r.name)
            && (r.name == "" ==> row.name == BaseName(r.key.exe))
            && (FitsIn(r.cmdline, 2048) ==> row.cmdline == r.cmdline)
  {
    TruncIs(r.key.exe, 512);
    TruncIs("", 128);
    if FitsIn(r.name, 128) {
      TruncIs(r.name, 128);
    }
    if FitsIn(r.cmdline, 2048) {
      TruncIs(r.cmdline, 2048);
    }
    hide Trunc, ToLower, Unmap, BaseName, KeyOf;
  }

  // ---- weights ----

  function NormKey(r: ConnRecord): RowKey {
    KeyOf(ToWire(r))
  }

  function Weight(r: ConnRecord, k: RowKey): nat {
    if NormKey(r) == k then CountOf(ToWire(r)) else 0
  }

  /** Connections a list of records carries for one normalised key. */
  ghost function Tot(rs: seq<ConnRecord>, k: RowKey): nat {
    if rs == [] then 0 else Weight(rs[0], k) + Tot(rs[1..], k)
  }

  lemma {:induction false} TotAppend(a: seq<ConnRecord>, b: seq<ConnRecord>, k: RowKey)
    ensures Tot(a + b, k) == Tot(a, k) + Tot(b, k)
  {
    if a == [] {
      assert a + b == b;
    } else {
      assert (a + b)[1..] == a[1..] + b;
      TotAppend(a[1..], b, k);
    }
  }

  /** A record weighs its count, or one, under the key of the row it is filed in, and nothing under any other. */
  lemma WeightOf(r: ConnRecord, k: RowKey)
    ensures Weight(r, k) == if k == Normalised(ToWire(r)).key then Max(r.count, 1) else 0
  {
  }

  lemma TotOne(r: ConnRecord, k: RowKey)
    ensures Tot([r], k) == Weight(r, k)
  {
    assert [r][1..] == [];
  }
}
