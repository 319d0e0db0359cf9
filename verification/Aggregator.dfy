/** agent-core/src/aggregator.rs: folds connection observations into bounded per-minute records. */
module Aggregation {
  import opened Address
  import opened Text
  import opened Wire

  const U32_MAX: U32 := 0xFFFF_FFFF
  const U64_MAX: U64 := 0xFFFF_FFFF_FFFF_FFFF

  type EntryKey = (int, ConnKey)
  type Entries = map<EntryKey, ConnRecord>

  /** What became of one observation. */
  datatype Fate = Folded | Created | Saturated | Dropped

  function SatAdd32(a: U32, b: U32): U32 {
    if a + b > U32_MAX then U32_MAX else a + b
  }

  function SatAdd64(a: U64, b: U64): U64 {
    if a + b > U64_MAX then U64_MAX else a + b
  }

  /** The record one observation would create on its own. */
  function RecordOf(at: int, key: ConnKey, info: ProcInfo, bytes: U64, sendCmdline: bool): ConnRecord {
    ConnRecord(MinuteOf(at), key, info.name, info.sha256, info.pid, if sendCmdline then info.cmdline else "", 1, bytes)
  }

  /** What one observation says, column by column; the command line only when it may be sent. */
  ghost predicate IsFirst(r: ConnRecord, minute: int, key: ConnKey, info: ProcInfo, bytes: U64, sendCmdline: bool) {
    && r.minute == minute && r.key == key && r.count == 1 && r.bytes == bytes
    && r.name == info.name && r.sha256 == info.sha256 && r.pid == info.pid
    && (sendCmdline ==> r.cmdline == info.cmdline) && (!sendCmdline ==> r.cmdline == "")
  }

  /** Every entry is stored under its own minute and key, and counts something. */
  ghost predicate Keyed(es: Entries) {
    forall k <- es :: es[k].minute == k.0 && es[k].key == k.1 && es[k].count >= 1
  }

  // ---- totals over the entry map ----

  /** Connections in memory that the server would file under k. */
  ghost function AggTot(es: Entries, k: RowKey): nat {
    if es == map[] then 0
    else
      var x :| x in es;
      Weight(es[x], k) + AggTot(es - {x}, k)
  }

  lemma {:induction false} AggTotRemove(es: Entries, x: EntryKey, k: RowKey)
    requires x in es
    ensures AggTot(es, k) == Weight(es[x], k) + AggTot(es - {x}, k)
    decreases |es|
  {
    hide Weight;
    var y :| y in es && AggTot(es, k) == Weight(es[y], k) + AggTot(es - {y}, k);
    if y != x {
      AggTotRemove(es - {y}, x, k);
      AggTotRemove(es - {x}, y, k);
      assert es - {y} - {x} == es - {x} - {y};
    }
  }

  /** The key the server files a record under depends on its minute and connection key only. */
  lemma WeightByKey(a: ConnRecord, b: ConnRecord, k: RowKey)
    requires a.minute == b.minute && a.key == b.key
    ensures NormKey(a) == NormKey(b)
    ensures Weight(a, k) == if NormKey(b) == k then CountOf(ToWire(a)) else 0
  {
  }

  lemma AggTotNewAt(es: Entries, x: EntryKey, r: ConnRecord, n: RowKey)
    requires x !in es
    ensures AggTot(es[x := r], n) == AggTot(es, n) + Weight(r, n)
  {
    AggTotRemove(es[x := r], x, n);
    assert es[x := r] - {x} == es;
  }

  lemma AggTotNew(es: Entries, x: EntryKey, r: ConnRecord)
    requires x !in es
    ensures forall n: RowKey :: AggTot(es[x := r], n) == AggTot(es, n) + Weight(r, n)
  {
    forall n: RowKey ensures AggTot(es[x := r], n) == AggTot(es, n) + Weight(r, n) {
      AggTotNewAt(es, x, r, n);
    }
  }

  lemma AggTotTake(es: Entries, x: EntryKey)
    requires x in es
    ensures forall n: RowKey :: AggTot(es, n) == AggTot(es - {x}, n) + Weight(es[x], n)
  {
    forall n: RowKey ensures AggTot(es, n) == AggTot(es - {x}, n) + Weight(es[x], n) {
      AggTotRemove(es, x, n);
    }
  }

  /** Replacing an entry by one with the same key: one more connection, or none at saturation. */
  lemma AggTotReplace(es: Entries, x: EntryKey, r: ConnRecord, one: ConnRecord)
    requires x in es && es[x].minute == r.minute == one.minute && es[x].key == r.key == one.key
    requires es[x].count >= 1 && one.count == 1
    requires r.count == es[x].count || r.count == es[x].count + 1
    ensures forall n: RowKey ::
              AggTot(es[x := r], n) + (if r.count == es[x].count then Weight(one, n) else 0) == AggTot(es, n) + Weight(one, n)
  {
    AggTotTake(es, x);
    AggTotNew(es - {x}, x, r);
    assert (es - {x})[x := r] == es[x := r];
    forall n: RowKey
      ensures AggTot(es[x := r], n) + (if r.count == es[x].count then Weight(one, n) else 0) == AggTot(es, n) + Weight(one, n)
    {
      WeightByKey(r, one, n);
      WeightByKey(es[x], one, n);
    }
  }

  // ---- the order batches are sorted by ----

  predicate AddrLess(a: Addr, b: Addr) {
    match (a, b)
    case (V4(x), V4(y)) => x < y
    case (V6(x), V6(y)) => x < y
    case (V4(_), V6(_)) => true
    case (V6(_), V4(_)) => false
  }

  /** (minute, exe, dst, dst_port), compared left to right. */
  predicate Before(a: ConnRecord, b: ConnRecord) {
    || a.minute < b.minute
    || (a.minute == b.minute
        && (|| LexLess(a.key.exe, b.key.exe)
            || (a.key.exe == b.key.exe
                && (|| AddrLess(a.key.dst, b.key.dst)
                    || (a.key.dst == b.key.dst && a.key.dstPort < b.key.dstPort)))))
  }

  ghost predicate Sorted(rs: seq<ConnRecord>) {
    forall i, j | 0 <= i < j < |rs| :: !Before(rs[j], rs[i])
  }

  lemma BeforeOrder(a: ConnRecord, b: ConnRecord, c: ConnRecord)
    ensures !(Before(a, b) && Before(b, a))
    ensures !Before(b, a) && !Before(c, b) ==> !Before(c, a)
  {
    LexTotal(a.key.exe, b.key.exe);
    LexTotal(b.key.exe, c.key.exe);
    LexTotal(a.key.exe, c.key.exe);
    if LexLess(a.key.exe, b.key.exe) && LexLess(b.key.exe, c.key.exe) {
      LexTransitive(a.key.exe, b.key.exe, c.key.exe);
    }
  }

  /** Neither record sorts before the other. */
  predicate Tied(a: ConnRecord, b: ConnRecord) {
    !Before(a, b) && !Before(b, a)
  }

  /** The comparison, place by place; IPv4 addresses come before IPv6 ones. */
  lemma BeforeIs(a: ConnRecord, b: ConnRecord)
    ensures a.minute != b.minute ==> (Before(a, b) <==> a.minute < b.minute)
    ensures a.minute == b.minute && a.key.exe != b.key.exe ==> (Before(a, b) <==> LexLess(a.key.exe, b.key.exe))
    ensures a.minute == b.minute && a.key.exe == b.key.exe && a.key.dst != b.key.dst ==>
              (Before(a, b) <==> match (a.key.dst, b.key.dst)
                                 case (V4(x), V4(y)) => x < y
                                 case (V6(x), V6(y)) => x < y
                                 case (V4(_), V6(_)) => true
                                 case (V6(_), V4(_)) => false)
    ensures a.minute == b.minute && a.key.exe == b.key.exe && a.key.dst == b.key.dst ==> (Before(a, b) <==> a.key.dstPort < b.key.dstPort)
    ensures Tied(a, b) <==> a.minute == b.minute && a.key.exe == b.key.exe && a.key.dst == b.key.dst && a.key.dstPort == b.key.dstPort
  {
    LexTotal(a.key.exe, b.key.exe);
  }

  ghost predicate NoTies(a: seq<ConnRecord>) {
    forall i, j | 0 <= i < j < |a| :: a[i] != a[j] ==> !Tied(a[i], a[j])
  }

  lemma SameHead(a: seq<ConnRecord>, b: seq<ConnRecord>, i: nat, j: nat)
    requires i < |a| && j < |b| && a[i] == b[0] && b[j] == a[0]
    requires Sorted(a) && Sorted(b) && NoTies(a)
    ensures a[0] == b[0]
  {
    if i != 0 && j != 0 {
      assert !Before(a[i], a[0]);
      assert !Before(b[j], b[0]);
    }
  }

  lemma Tails(a: seq<ConnRecord>)
    requires Sorted(a) && a != []
    ensures Sorted(a[1..]) && (NoTies(a) ==> NoTies(a[1..]))
  {
  }

  lemma TailBags<T>(a: seq<T>, b: seq<T>)
    requires a != [] && b != [] && a[0] == b[0] && multiset(a) == multiset(b)
    ensures multiset(a[1..]) == multiset(b[1..])
  {
    assert a == [a[0]] + a[1..] && b == [b[0]] + b[1..];
    assert multiset(a[1..]) == multiset(a) - multiset{a[0]};
  }

  lemma HeadsMeet(a: seq<ConnRecord>, b: seq<ConnRecord>)
    requires a != [] && Sorted(a) && Sorted(b) && multiset(a) == multiset(b) && NoTies(a)
    ensures b != [] && a[0] == b[0]
  {
    assert a[0] in multiset(b);
    assert b[0] in multiset(a);
    var i :| 0 <= i < |a| && a[i] == b[0];
    var j :| 0 <= j < |b| && b[j] == a[0];
    SameHead(a, b, i, j);
  }

  lemma {:induction false} SortedTwice(a: seq<ConnRecord>, b: seq<ConnRecord>)
    requires Sorted(a) && Sorted(b) && multiset(a) == multiset(b) && NoTies(a)
    ensures a == b
    decreases |a|
  {
    if a == [] {
      assert |multiset(b)| == 0;
    } else {
      HeadsMeet(a, b);
      TailBags(a, b);
      Tails(a);
      Tails(b);
      SortedTwice(a[1..], b[1..]);
      assert a == [a[0]] + a[1..] && b == [b[0]] + b[1..];
    }
  }

  lemma SwapTied(a: seq<ConnRecord>, i: nat, j: nat) returns (b: seq<ConnRecord>)
    requires Sorted(a) && i < j < |a| && a[i] != a[j] && Tied(a[i], a[j])
    ensures Sorted(b) && multiset(b) == multiset(a) && b != a
  {
    b := a[i := a[j]][j := a[i]];
    assert b[i] != a[i];
    forall p | 0 <= p < |a| ensures Tied(a[p], b[p]) {
      BeforeOrder(a[p], a[p], a[p]);
    }
    forall p, q | 0 <= p < q < |b| ensures !Before(b[q], b[p]) {
      BeforeOrder(b[p], a[p], a[q]);
      BeforeOrder(b[p], a[q], b[q]);
    }
  }

  /** The batch order promised as deterministic is determined by the records exactly when no two
      different records tie; records that differ only in source, protocol, user or container do. */
  lemma OrderDeterminedIff(a: seq<ConnRecord>)
    requires Sorted(a)
    ensures (forall b :: Sorted(b) && multiset(b) == multiset(a) ==> b == a)
            <==> NoTies(a)
  {
    if i, j :| 0 <= i < j < |a| && a[i] != a[j] && Tied(a[i], a[j]) {
      var b := SwapTied(a, i, j);
    } else {
      forall b | Sorted(b) && multiset(b) == multiset(a) ensures b == a {
        SortedTwice(a, b);
      }
    }
  }

  /** Insertion keeps a list sorted and adds exactly the new record's weight. */
  function InsertSorted(rs: seq<ConnRecord>, r: ConnRecord): (out: seq<ConnRecord>)
    ensures |out| == |rs| + 1
    ensures multiset(out) == multiset(rs) + multiset{r}
  {
    if rs == [] then [r]
    else if Before(r, rs[0]) then [r] + rs
    else
      assert rs == [rs[0]] + rs[1..];
      [rs[0]] + InsertSorted(rs[1..], r)
  }

  lemma {:induction false} InsertSortedSorted(rs: seq<ConnRecord>, r: ConnRecord)
    requires Sorted(rs)
    ensures Sorted(InsertSorted(rs, r))
  {
    var out := InsertSorted(rs, r);
    if rs != [] && !Before(r, rs[0]) {
      InsertSortedSorted(rs[1..], r);
      forall j | 0 < j < |out| ensures !Before(out[j], out[0]) {
        assert out[j] in multiset(out[1..]);
        assert out[j] == r || out[j] in rs[1..];
      }
    } else if rs != [] {
      forall j | 0 < j < |out| ensures !Before(out[j], out[0]) {
        BeforeOrder(r, rs[0], out[j]);
        if out[j] != rs[0] {
          assert out[j] in rs[1..];
        }
      }
    }
  }

  lemma {:induction false} InsertSortedTot(rs: seq<ConnRecord>, r: ConnRecord, k: RowKey)
    ensures Tot(InsertSorted(rs, r), k) == Tot(rs, k) + Weight(r, k)
  {
    if rs == [] {
      TotOne(r, k);
    } else if Before(r, rs[0]) {
      assert ([r] + rs)[1..] == rs;
    } else {
      InsertSortedTot(rs[1..], r, k);
      assert InsertSorted(rs, r)[1..] == InsertSorted(rs[1..], r);
    }
  }

  // ---- the aggregator ----

  /** Completed minutes, or everything on a forced drain. */
  predicate Due(k: EntryKey, now: int, force: bool) {
    force || k.0 < MinuteOf(now)
  }

  function DueKeys(es: Entries, now: int, force: bool): set<EntryKey> {
    set k | k in es && Due(k, now, force)
  }

  function Staying(es: Entries, now: int, force: bool): Entries {
    map k | k in es && !Due(k, now, force) :: es[k]
  }

  // ---- observing ----

  /** What becomes of an observation whose record on its own is `one`. */
  function FateOf(es: Entries, maxEntries: nat, one: ConnRecord): Fate {
    var k := (one.minute, one.key);
    if k in es then if es[k].count == U32_MAX then Saturated else Folded
    else if |es| >= maxEntries then Dropped
    else Created
  }

  /** The entries afterwards. A full counter still takes the latest process and adds bytes. */
  function Noted(es: Entries, maxEntries: nat, one: ConnRecord): Entries {
    var k := (one.minute, one.key);
    match FateOf(es, maxEntries, one)
    case Created => es[k := one]
    case Folded => es[k := es[k].(count := es[k].count + 1, pid := one.pid, bytes := SatAdd64(es[k].bytes, one.bytes))]
    case Saturated => es[k := es[k].(pid := one.pid, bytes := SatAdd64(es[k].bytes, one.bytes))]
    case Dropped => es
  }

  /** One observation after another. */
  function NotedAll(es: Entries, maxEntries: nat, ones: seq<ConnRecord>): Entries {
    if ones == [] then es
    else Noted(NotedAll(es, maxEntries, ones[..|ones| - 1]), maxEntries, ones[|ones| - 1])
  }

  /** The fate of each of them in its turn. */
  function FateAt(es: Entries, maxEntries: nat, ones: seq<ConnRecord>, j: nat): Fate
    requires j < |ones|
  {
    FateOf(NotedAll(es, maxEntries, ones[..j]), maxEntries, ones[j])
  }

  /** Every key's total has grown by the observation, unless that was missed. */
  ghost predicate Remembered(es: Entries, es': Entries, one: ConnRecord, fate: Fate) {
    forall n: RowKey :: AggTot(es', n) + (if fate.Dropped? || fate.Saturated? then Weight(one, n) else 0) == AggTot(es, n) + Weight(one, n)
  }

  /** What an observation changes when its minute and key have an entry: that entry only, which takes the latest
      process, adds the bytes and counts one more, each as far as its counter goes. */
  ghost predicate FoldedInto(es: Entries, es': Entries, k: EntryKey, pid: U32, bytes: U64, fate: Fate)
    requires k in es
  {
    && es'.Keys == es.Keys && (forall x <- es :: x != k ==> es'[x] == es[x])
    && fate == (if es[k].count == 0xFFFF_FFFF then Saturated else Folded)
    && var a, b := es[k], es'[k];
       && b == a.(count := b.count, pid := pid, bytes := b.bytes)
       && (if fate.Folded? then b.count == a.count + 1 else b.count == a.count)
       && (if a.bytes + bytes <= 0xFFFF_FFFF_FFFF_FFFF then b.bytes == a.bytes + bytes else b.bytes == 0xFFFF_FFFF_FFFF_FFFF)
  }

  /** Otherwise it makes one, unless the map is full. */
  ghost predicate Entered(es: Entries, es': Entries, maxEntries: nat, k: EntryKey, info: ProcInfo, bytes: U64, sendCmdline: bool, fate: Fate) {
    if |es| >= maxEntries then fate == Dropped && es' == es
    else
      && fate == Created && es'.Keys == es.Keys + {k} && (forall x <- es :: x != k ==> es'[x] == es[x])
      && IsFirst(es'[k], k.0, k.1, info, bytes, sendCmdline)
  }

  lemma ObservedFolds(es: Entries, maxEntries: nat, at: int, key: ConnKey, info: ProcInfo, bytes: U64, sendCmdline: bool)
    requires (MinuteOf(at), key) in es
    ensures var one := RecordOf(at, key, info, bytes, sendCmdline);
            FoldedInto(es, Noted(es, maxEntries, one), (MinuteOf(at), key), info.pid, bytes, FateOf(es, maxEntries, one))
  {
  }

  lemma ObservedEnters(es: Entries, maxEntries: nat, at: int, key: ConnKey, info: ProcInfo, bytes: U64, sendCmdline: bool)
    requires (MinuteOf(at), key) !in es
    ensures var one := RecordOf(at, key, info, bytes, sendCmdline);
            Entered(es, Noted(es, maxEntries, one), maxEntries, (MinuteOf(at), key), info, bytes, sendCmdline, FateOf(es, maxEntries, one))
  {
  }

  class Aggregator {
    var entries: Entries
    const maxEntries: nat
    var dropped: nat

    ghost predicate Valid()
      reads this
    {
      Keyed(entries) && |entries| <= maxEntries
    }

    constructor (maxEntries: nat)
      ensures Valid() && entries == map[] && dropped == 0 && this.maxEntries == maxEntries
    {
      entries, dropped, this.maxEntries := map[], 0, maxEntries;
    }

    /** Records one connection. Nothing is lost silently: an observation is in the map afterwards or
        its fate says why not. */
    method Observe(at: int, key: ConnKey, info: ProcInfo, bytes: U64, sendCmdline: bool) returns (ghost fate: Fate)
      requires Valid()
      modifies this
      ensures Valid()
      ensures fate == FateOf(old(entries), maxEntries, RecordOf(at, key, info, bytes, sendCmdline))
      ensures entries == Noted(old(entries), maxEntries, RecordOf(at, key, info, bytes, sendCmdline))
      ensures dropped == old(dropped) + if fate.Dropped? then 1 else 0
      ensures Remembered(old(entries), entries, RecordOf(at, key, info, bytes, sendCmdline), fate)
    {
      var minute := MinuteOf(at);
      var k := (minute, key);
      ghost var es := entries;
      ghost var one := RecordOf(at, key, info, bytes, sendCmdline);
      if k in entries {
        var rec := entries[k];
        fate := if rec.count == U32_MAX then Saturated else Folded;
        rec := rec.(count := SatAdd32(rec.count, 1), bytes := SatAdd64(rec.bytes, bytes), pid := info.pid);
        entries := entries[k := rec];
        assert entries.Keys == es.Keys;
        assert |entries| == |entries.Keys| && |es| == |es.Keys|;
        AggTotReplace(es, k, rec, one);
        return;
      }
      if |entries| >= maxEntries {
        dropped := dropped + 1;
        fate := Dropped;
        return;
      }
      fate := Created;
      entries := entries[k := ConnRecord(minute, key, info.name, info.sha256, info.pid,
                                         if sendCmdline then info.cmdline else "", 1, bytes)];
      AggTotNew(es, k, one);
    }

    /** Takes the due entries out of memory as one sorted batch: each due record exactly once, no
        other record, and no connection created or destroyed. */
    method Drain(now: int, force: bool) returns (out: seq<ConnRecord>)
      requires Valid()
      modifies this`entries
      ensures Valid()
      ensures entries == Staying(old(entries), now, force)
      ensures SplitOff(out, entries, old(entries), now, force)
      ensures Sorted(out)
      ensures IsBatchOf(out, old(entries), DueKeys(old(entries), now, force))
      ensures Conserved(out, entries, old(entries))
    {
      RemoveDue(entries, now, force);
      hide IsBatchOf, Conserved, Sorted, Staying, SplitOff;
      ghost var es := entries;
      out := TakeOut(DueKeys(entries, now, force));
      DrainedMeans(out, es, now, force);
    }

    /** The entries of some keys are removed and their records sorted. */
    method TakeOut(due: set<EntryKey>) returns (out: seq<ConnRecord>)
      requires Valid() && due <= entries.Keys
      modifies this`entries
      ensures entries == old(entries) - due
      ensures Sorted(out) && IsBatchOf(out, old(entries), due) && Conserved(out, entries, old(entries))
    {
      hide IsBatchOf, Conserved, Sorted, InsertSorted, Keyed;
      ghost var es, taken := entries, {};
      var left := due;
      out := [];
      NothingTaken(es);
      while left != {}
        invariant left + taken == due && left !! taken
        invariant entries == es - taken
        invariant Sorted(out) && IsBatchOf(out, es, taken) && Conserved(out, entries, es)
        decreases |left|
      {
        var k :| k in left;
        var r := entries[k];
        DrainStep(out, es, taken, k);
        MoveOne(left, taken, k);
        RemoveMore(es, taken, k);
        out := InsertSorted(out, r);
        entries := entries - {k};
        left := left - {k};
        taken := taken + {k};
      }
    }
  }

  /** The batch holds the record of every key in `ks` once, and nothing else. */
  ghost predicate IsBatchOf(out: seq<ConnRecord>, es: Entries, ks: set<EntryKey>) {
    && ks <= es.Keys
    && |out| == |ks|
    && (forall k <- ks :: es[k] in multiset(out))
    && (forall r :: r in multiset(out) ==> (r.minute, r.key) in ks && es[(r.minute, r.key)] == r)
  }

  /** Taken out is what belongs to minutes before the current one, or everything on a forced drain, and only that. */
  ghost predicate SplitOff(out: seq<ConnRecord>, es': Entries, es: Entries, now: int, force: bool) {
    forall x <- es :: if force || x.0 < MinuteOf(now) then x !in es' && es[x] in out else x in es' && es'[x] == es[x]
  }

  lemma DrainedMeans(out: seq<ConnRecord>, es: Entries, now: int, force: bool)
    requires IsBatchOf(out, es, DueKeys(es, now, force))
    ensures SplitOff(out, Staying(es, now, force), es, now, force)
  {
  }

  /** For every key, what was taken out and what stayed add up to what was there. */
  ghost predicate Conserved(out: seq<ConnRecord>, es': Entries, es: Entries) {
    forall n: RowKey :: Tot(out, n) + AggTot(es', n) == AggTot(es, n)
  }

  lemma NothingTaken(es: Entries)
    ensures Sorted([]) && IsBatchOf([], es, {}) && Conserved([], es, es) && es - {} == es
  {
  }

  lemma BatchGrows(out: seq<ConnRecord>, es: Entries, ks: set<EntryKey>, k: EntryKey)
    requires IsBatchOf(out, es, ks) && k in es && k !in ks && Keyed(es)
    ensures IsBatchOf(InsertSorted(out, es[k]), es, ks + {k})
  {
  }

  lemma DrainStep(out: seq<ConnRecord>, es: Entries, taken: set<EntryKey>, k: EntryKey)
    requires Keyed(es) && k in es && k !in taken
    requires Sorted(out) && IsBatchOf(out, es, taken) && Conserved(out, es - taken, es)
    ensures Sorted(InsertSorted(out, es[k])) && IsBatchOf(InsertSorted(out, es[k]), es, taken + {k})
    ensures Conserved(InsertSorted(out, es[k]), es - (taken + {k}), es)
  {
    BatchGrows(out, es, taken, k);
    InsertSortedSorted(out, es[k]);
    assert es - taken - {k} == es - (taken + {k});
    forall n: RowKey ensures Tot(InsertSorted(out, es[k]), n) + AggTot(es - (taken + {k}), n) == AggTot(es, n) {
      InsertSortedTot(out, es[k], n);
      AggTotRemove(es - taken, k, n);
    }
  }

  lemma MoveOne<T>(due: set<T>, taken: set<T>, k: T)
    requires k in due && due !! taken
    ensures (due - {k}) + (taken + {k}) == due + taken && due - {k} !! taken + {k}
  {
  }

  lemma RemoveMore<K, V>(m: map<K, V>, ks: set<K>, k: K)
    ensures m - ks - {k} == m - (ks + {k})
  {
  }

  lemma RemoveDue(es: Entries, now: int, force: bool)
    ensures es - DueKeys(es, now, force) == Staying(es, now, force)
    ensures |Staying(es, now, force)| <= |es|
  {
    var s := Staying(es, now, force);
    assert es.Keys == s.Keys + DueKeys(es, now, force);
    assert |s.Keys| <= |es.Keys|;
  }
}
