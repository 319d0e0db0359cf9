/** The alerts table (internal/db/alerts.go, alert_retention.go): every operation is one SQL statement,
    or a few, over a map of rows. A ledger records every finding ever folded into a row. */
module Alerts {
  import opened Numbers
  import opened Options
  import opened Findings

  datatype State = Open | Acked | Resolved

  /** A value of an address column: the text host() prints for it, and the mask behind it. */
  datatype Inet = Inet(text: string, mask: nat)

  /** What the database makes of a text, if it is an address at all. */
  type Inets = map<string, Inet>

  const NO_ADDRESS := Inet("", 0)

  /** The column's value for a finding's text; an empty text is stored as null. */
  function Column(inet: Inets, t: string): Inet {
    if t != "" && t in inet then inet[t] else NO_ADDRESS
  }

  datatype Alert = Alert(rule: string, severity: string, host: Inet, peer: Inet, port: int, dedupeKey: string, title: string,
                         details: string, count: int, firstSeen: int, lastSeen: int, state: State, ackedAt: Option<int>,
                         resolvedAt: Option<int>, notifiedAt: Option<int>, reopenedAt: Option<int>)

  type Rows = map<nat, Alert>

  const DAY: int := 86400

  predicate Live(a: Alert) {
    a.state != Resolved
  }

  // ---- what must hold of the table ----

  /** At most one live row per dedupe key: the partial unique index. */
  ghost predicate LiveUnique(rows: Rows) {
    forall i, j | i in rows && j in rows && Live(rows[i]) && Live(rows[j]) && rows[i].dedupeKey == rows[j].dedupeKey :: i == j
  }

  /** State and time stamps agree. */
  predicate Stamped(a: Alert) {
    match a.state
    case Open => a.ackedAt == None && a.resolvedAt == None
    case Acked => a.ackedAt.Some? && a.resolvedAt == None
    case Resolved => a.resolvedAt.Some?
  }

  // ---- the ledger ----

  /** `inet` is how the address columns read texts; `folded[id]` are the findings upserted into row id, in order, whether or not the row still exists;
      `gone` are the rows deleted, as they were; `raised` are all findings ever upserted. */
  datatype Ledger = Ledger(inet: Inets, folded: seq<seq<Finding>>, gone: Rows, raised: seq<Finding>)

  /** The severity a row ends up with after folding these findings. */
  function Folded(fs: seq<Finding>): string
    requires fs != []
  {
    if |fs| == 1 then fs[0].severity else Escalated(Folded(fs[..|fs| - 1]), fs[|fs| - 1].severity)
  }

  function MaxRank(fs: seq<Finding>): nat {
    if fs == [] then 0 else Max(MaxRank(fs[..|fs| - 1]), SeverityRank(fs[|fs| - 1].severity))
  }

  /** The severity a row ends up with: the highest ever folded in when the first finding's severity is known;
      otherwise the unknown one stays until a critical finding replaces it. */
  lemma {:induction false} FoldedRank(fs: seq<Finding>)
    requires fs != []
    ensures SeverityRank(Folded(fs)) == if SeverityRank(fs[0].severity) > 0 || MaxRank(fs) == 3 then MaxRank(fs) else 0
    ensures SeverityRank(fs[0].severity) <= MaxRank(fs) <= 3
  {
    hide SeverityRank, Escalated;
    var front := fs[..|fs| - 1];
    if |fs| == 1 {
      assert front == [];
      assert MaxRank(front) == 0;
    } else {
      FoldedRank(front);
      assert front[0] == fs[0];
      EscalatedRank(Folded(front), fs[|fs| - 1].severity);
    }
  }

  /** So it is the highest ever folded in if and only if the first one's is known, none is known, or one is
      critical. */
  lemma FoldedIsMaxIff(fs: seq<Finding>)
    requires fs != []
    ensures SeverityRank(Folded(fs)) == MaxRank(fs) <==> SeverityRank(fs[0].severity) > 0 || MaxRank(fs) in {0, 3}
  {
    hide Folded, MaxRank, SeverityRank;
    FoldedRank(fs);
  }

  function KeyCount(fs: seq<Finding>, k: string): nat {
    if fs == [] then 0 else KeyCount(fs[..|fs| - 1], k) + if DedupeKey(fs[|fs| - 1]) == k then 1 else 0
  }

  /** Findings folded into rows of key k. */
  function FoldedCount(folded: seq<seq<Finding>>, k: string): nat {
    if folded == [] then 0
    else
      var last := folded[|folded| - 1];
      FoldedCount(folded[..|folded| - 1], k) + if last != [] && DedupeKey(last[0]) == k then |last| else 0
  }

  /** A row and the findings folded into it. */
  ghost predicate Backed(inet: Inets, a: Alert, fs: seq<Finding>) {
    && fs != []
    && a.count == |fs|
    && (forall i | 0 <= i < |fs| :: DedupeKey(fs[i]) == a.dedupeKey)
    && a.severity == Folded(fs)
    && a.rule == fs[0].rule && a.host == Column(inet, fs[0].host) && a.peer == Column(inet, fs[0].peer)
  }

  ghost predicate Inv(rows: Rows, l: Ledger) {
    && LiveUnique(rows)
    && (forall i <- rows :: i < |l.folded| && Stamped(rows[i]) && Backed(l.inet, rows[i], l.folded[i]))
    && (forall i <- l.gone :: i < |l.folded| && i !in rows && l.gone[i].state == Resolved && Backed(l.inet, l.gone[i], l.folded[i]))
    && (forall i: nat | i < |l.folded| :: i in rows || i in l.gone)
    && (forall k: string :: FoldedCount(l.folded, k) == KeyCount(l.raised, k))
    && FromRaised(l)
  }

  /** What was folded into rows was raised. */
  ghost predicate FromRaised(l: Ledger) {
    forall i: nat, f | i < |l.folded| && f in l.folded[i] :: f in l.raised
  }

  /** Row i, whether or not it has been deleted. */
  ghost function RowAt(rows: Rows, l: Ledger, i: nat): Alert
    requires i in rows || i in l.gone
  {
    if i in rows then rows[i] else l.gone[i]
  }

  /** Counts of all rows of key k with an id below n, deleted ones included. */
  ghost function CountsBelow(rows: Rows, l: Ledger, n: nat, k: string): int
    requires forall i: nat | i < n :: i in rows || i in l.gone
  {
    if n == 0 then 0
    else
      var a := RowAt(rows, l, n - 1);
      CountsBelow(rows, l, n - 1, k) + if a.dedupeKey == k then a.count else 0
  }

  lemma InvMeans(rows: Rows, l: Ledger)
    requires Inv(rows, l)
    ensures LiveUnique(rows)
    ensures forall i <- rows :: Stamped(rows[i])
    ensures forall i <- l.gone :: l.gone[i].state == Resolved
  {
  }

  lemma InvBacked(rows: Rows, l: Ledger)
    requires Inv(rows, l)
    ensures forall i: nat | i < |l.folded| :: i in rows || i in l.gone
    ensures forall i: nat | i < |l.folded| :: Backed(l.inet, RowAt(rows, l, i), l.folded[i])
  {
    hide Backed;
    hide Stamped;
  }

  lemma {:induction false} CountsBelowFolded(rows: Rows, l: Ledger, n: nat, k: string)
    requires n <= |l.folded| && forall i: nat | i < |l.folded| :: i in rows || i in l.gone
    requires forall i: nat | i < |l.folded| :: Backed(l.inet, RowAt(rows, l, i), l.folded[i])
    ensures CountsBelow(rows, l, n, k) == FoldedCount(l.folded[..n], k)
  {
    hide DedupeKey;
    hide RowAt;
    if n > 0 {
      CountsBelowFolded(rows, l, n - 1, k);
      assert l.folded[..n][..n - 1] == l.folded[..n - 1];
      assert Backed(l.inet, RowAt(rows, l, n - 1), l.folded[n - 1]);
    }
  }

  /** The alert ledger: for every dedupe key, the counts of all rows, live, resolved or deleted, add up
      to the number of findings upserted with that key. */
  lemma LedgerTotals(rows: Rows, l: Ledger, k: string)
    requires Inv(rows, l)
    ensures (forall i: nat | i < |l.folded| :: i in rows || i in l.gone) && CountsBelow(rows, l, |l.folded|, k) == KeyCount(l.raised, k)
  {
    hide Backed;
    InvBacked(rows, l);
    CountsBelowFolded(rows, l, |l.folded|, k);
    assert l.folded[..|l.folded|] == l.folded;
  }

  /** When a row, deleted or not, shows the highest severity ever folded into it. */
  lemma LedgerSeverity(rows: Rows, l: Ledger, i: nat)
    requires Inv(rows, l) && i < |l.folded|
    ensures (i in rows || i in l.gone) && l.folded[i] != []
    ensures SeverityRank(RowAt(rows, l, i).severity) == MaxRank(l.folded[i])
            <==> SeverityRank(l.folded[i][0].severity) > 0 || MaxRank(l.folded[i]) in {0, 3}
  {
    InvBacked(rows, l);
    FoldedIsMaxIff(l.folded[i]);
  }

  /** When only known severities are ever raised, every row, deleted or not, shows the highest one. */
  lemma KnownSeveritiesShow(rows: Rows, l: Ledger)
    requires Inv(rows, l) && forall f <- l.raised :: SeverityRank(f.severity) > 0
    ensures forall i: nat | i < |l.folded| :: (i in rows || i in l.gone) && SeverityRank(RowAt(rows, l, i).severity) == MaxRank(l.folded[i]) > 0
  {
    hide Backed, Folded, SeverityRank, MaxRank, FoldedCount, KeyCount;
    forall i: nat | i < |l.folded|
      ensures (i in rows || i in l.gone) && SeverityRank(RowAt(rows, l, i).severity) == MaxRank(l.folded[i]) > 0
    {
      LedgerSeverity(rows, l, i);
      FoldedRank(l.folded[i]);
      assert l.folded[i][0] in l.folded[i] && l.folded[i][0] in l.raised;
    }
  }

  lemma {:induction false} KeyCountBound(fs: seq<Finding>, k: string)
    ensures KeyCount(fs, k) <= |fs|
  {
    if fs != [] {
      KeyCountBound(fs[..|fs| - 1], k);
    }
  }

  lemma {:induction false} FoldedCountAt(folded: seq<seq<Finding>>, i: nat, k: string)
    requires i < |folded| && folded[i] != [] && DedupeKey(folded[i][0]) == k
    ensures FoldedCount(folded, k) >= |folded[i]|
  {
    if i < |folded| - 1 {
      FoldedCountAt(folded[..|folded| - 1], i, k);
    }
  }

  /** No row counts more findings than were ever raised. */
  lemma CountWithinRaised(rows: Rows, l: Ledger, i: nat)
    requires Inv(rows, l) && i in rows
    ensures rows[i].count <= |l.raised|
  {
    hide DedupeKey;
    var fs := l.folded[i];
    assert Backed(l.inet, rows[i], fs);
    FoldedCountAt(l.folded, i, rows[i].dedupeKey);
    KeyCountBound(l.raised, rows[i].dedupeKey);
  }

  // ---- the statements ----

  /** The upsert's values fit their columns: both addresses are empty or addresses, and the port is an integer
      the column holds. */
  predicate Accepted(inet: Inets, f: Finding) {
    (f.host == "" || f.host in inet) && (f.peer == "" || f.peer in inet) && f.port <= INT4_MAX
  }

  function NewAlert(inet: Inets, f: Finding, now: int): Alert {
    Alert(f.rule, f.severity, Column(inet, f.host), Column(inet, f.peer), PortOf(f), DedupeKey(f), f.title, f.details, 1, now, now,
          Open, None, None, None, None)
  }

  function Bumped(a: Alert, f: Finding, now: int): Alert {
    a.(count := a.count + 1, lastSeen := now, title := f.title, details := f.details, severity := Escalated(a.severity, f.severity))
  }

  /** A row a finding has just opened, column by column. */
  ghost predicate OpenedBy(inet: Inets, a: Alert, f: Finding, now: int) {
    && a.rule == f.rule && a.severity == f.severity && a.port == Max(f.port, 0) && a.dedupeKey == DedupeKey(f)
    && (if f.host in inet && f.host != "" then a.host == inet[f.host] else a.host == NO_ADDRESS)
    && (if f.peer in inet && f.peer != "" then a.peer == inet[f.peer] else a.peer == NO_ADDRESS)
    && a.title == f.title && a.details == f.details && a.count == 1 && a.firstSeen == a.lastSeen == now
    && a.state == Open && a.ackedAt == a.resolvedAt == a.notifiedAt == a.reopenedAt == None
  }

  /** A row another finding of its key has just been folded into: that finding's title and details, seen now,
      counted once more, its severity at most raised, and everything else as it was. */
  ghost predicate RepeatedBy(b: Alert, a: Alert, f: Finding, now: int) {
    && a.title == f.title && a.details == f.details && a.lastSeen == now && a.count == b.count + 1
    && (a.severity == b.severity || (a.severity == f.severity && SeverityRank(f.severity) > SeverityRank(b.severity)))
    && a.rule == b.rule && a.host == b.host && a.peer == b.peer && a.port == b.port && a.dedupeKey == b.dedupeKey
    && a.firstSeen == b.firstSeen && a.state == b.state && a.ackedAt == b.ackedAt && a.resolvedAt == b.resolvedAt
    && a.notifiedAt == b.notifiedAt && a.reopenedAt == b.reopenedAt
  }

  lemma NewAlertIs(inet: Inets, f: Finding, now: int)
    ensures OpenedBy(inet, NewAlert(inet, f, now), f, now)
  {
    hide DedupeKey;
  }

  lemma BumpedIs(a: Alert, f: Finding, now: int)
    ensures RepeatedBy(a, Bumped(a, f, now), f, now)
  {
  }

  function Resolve(a: Alert, now: int): Alert {
    a.(state := Resolved, resolvedAt := Some(now))
  }

  function ResolveIn(rows: Rows, ids: set<nat>, now: int): Rows {
    map i | i in rows :: if i in ids then Resolve(rows[i], now) else rows[i]
  }

  function DeleteIn(rows: Rows, ids: set<nat>): Rows {
    map i | i in rows && i !in ids :: rows[i]
  }

  function NotifyIn(rows: Rows, ids: set<nat>, now: int): Rows {
    map i | i in rows :: if i in ids then rows[i].(notifiedAt := Some(now)) else rows[i]
  }

  lemma {:induction false} FoldedCountAppend(folded: seq<seq<Finding>>, fs: seq<Finding>, k: string)
    requires fs != []
    ensures FoldedCount(folded + [fs], k) == FoldedCount(folded, k) + if DedupeKey(fs[0]) == k then |fs| else 0
  {
    assert (folded + [fs])[..|folded|] == folded;
  }

  lemma {:induction false} FoldedCountGrow(folded: seq<seq<Finding>>, i: nat, f: Finding, k: string)
    requires i < |folded| && folded[i] != [] && DedupeKey(folded[i][0]) == DedupeKey(f)
    ensures FoldedCount(folded[i := folded[i] + [f]], k) == FoldedCount(folded, k) + if DedupeKey(f) == k then 1 else 0
  {
    var folded' := folded[i := folded[i] + [f]];
    var n := |folded| - 1;
    if i == n {
      assert folded'[..n] == folded[..n];
    } else {
      FoldedCountGrow(folded[..n], i, f, k);
      assert folded'[..n] == folded[..n][i := folded[i] + [f]];
    }
  }

  lemma KeyCountAppend(fs: seq<Finding>, f: Finding, k: string)
    ensures KeyCount(fs + [f], k) == KeyCount(fs, k) + if DedupeKey(f) == k then 1 else 0
  {
    assert (fs + [f])[..|fs|] == fs;
  }

  lemma BackedNew(inet: Inets, f: Finding, now: int)
    ensures Backed(inet, NewAlert(inet, f, now), [f]) && Stamped(NewAlert(inet, f, now))
  {
  }

  lemma LedgerInsert(l: Ledger, f: Finding)
    requires forall k: string :: FoldedCount(l.folded, k) == KeyCount(l.raised, k)
    ensures forall k: string :: FoldedCount(l.folded + [[f]], k) == KeyCount(l.raised + [f], k)
  {
    forall k: string ensures FoldedCount(l.folded + [[f]], k) == KeyCount(l.raised + [f], k) {
      FoldedCountAppend(l.folded, [f], k);
      KeyCountAppend(l.raised, f, k);
    }
  }

  lemma InvInsert(rows: Rows, l: Ledger, f: Finding, now: int)
    requires Inv(rows, l)
    requires forall i <- rows :: Live(rows[i]) ==> rows[i].dedupeKey != DedupeKey(f)
    ensures Inv(rows[|l.folded| := NewAlert(l.inet, f, now)], Ledger(l.inet, l.folded + [[f]], l.gone, l.raised + [f]))
  {
    hide Backed;
    hide Stamped;
    hide DedupeKey;
    hide FoldedCount;
    hide KeyCount;
    BackedNew(l.inet, f, now);
    LedgerInsert(l, f);
    var folded := l.folded + [[f]];
    assert forall i: nat | i < |l.folded| :: folded[i] == l.folded[i];
    assert folded[|l.folded|] == [f];
  }

  lemma BackedBump(inet: Inets, a: Alert, fs: seq<Finding>, f: Finding, now: int)
    requires Backed(inet, a, fs) && a.dedupeKey == DedupeKey(f)
    ensures Backed(inet, Bumped(a, f, now), fs + [f])
  {
    assert (fs + [f])[..|fs|] == fs;
  }

  lemma LedgerGrow(l: Ledger, id: nat, f: Finding)
    requires id < |l.folded| && l.folded[id] != [] && DedupeKey(l.folded[id][0]) == DedupeKey(f)
    requires (forall k: string :: FoldedCount(l.folded, k) == KeyCount(l.raised, k)) && FromRaised(l)
    ensures var folded := l.folded[id := l.folded[id] + [f]];
            && (forall k: string :: FoldedCount(folded, k) == KeyCount(l.raised + [f], k))
            && FromRaised(Ledger(l.inet, folded, l.gone, l.raised + [f]))
  {
    forall k: string ensures FoldedCount(l.folded[id := l.folded[id] + [f]], k) == KeyCount(l.raised + [f], k) {
      FoldedCountGrow(l.folded, id, f, k);
      KeyCountAppend(l.raised, f, k);
    }
    hide FoldedCount, KeyCount, DedupeKey;
  }

  lemma InvBump(rows: Rows, l: Ledger, id: nat, f: Finding, now: int)
    requires Inv(rows, l) && id in rows && Live(rows[id]) && rows[id].dedupeKey == DedupeKey(f)
    ensures Inv(rows[id := Bumped(rows[id], f, now)], Ledger(l.inet, l.folded[id := l.folded[id] + [f]], l.gone, l.raised + [f]))
  {
    hide DedupeKey, FoldedCount, KeyCount, Bumped, Folded, Column, Stamped;
    BumpKeeps(rows[id], f, now);
    assert Backed(l.inet, rows[id], l.folded[id]);
    LedgerGrow(l, id, f);
    BackedBump(l.inet, rows[id], l.folded[id], f, now);
    hide Backed, FromRaised;
  }

  lemma BumpKeeps(a: Alert, f: Finding, now: int)
    ensures Bumped(a, f, now).dedupeKey == a.dedupeKey && Bumped(a, f, now).state == a.state
    ensures Stamped(a) ==> Stamped(Bumped(a, f, now))
  {
    hide Escalated;
  }

  /** A step that changes only states and stamps, row by row. */
  ghost predicate Restates(rows: Rows, rows': Rows) {
    && rows'.Keys == rows.Keys
    && forall i <- rows ::
         && Stamped(rows'[i])
         && rows'[i] == rows[i].(state := rows'[i].state, ackedAt := rows'[i].ackedAt, resolvedAt := rows'[i].resolvedAt,
                                 notifiedAt := rows'[i].notifiedAt, reopenedAt := rows'[i].reopenedAt)
  }

  lemma InvRestate(rows: Rows, l: Ledger, rows': Rows)
    requires Inv(rows, l) && Restates(rows, rows') && LiveUnique(rows')
    ensures Inv(rows', l)
  {
    hide FoldedCount;
    hide KeyCount;
    hide DedupeKey;
    hide Folded;
    forall i | i in rows' ensures Backed(l.inet, rows'[i], l.folded[i]) {
      assert Backed(l.inet, rows[i], l.folded[i]);
    }
  }

  lemma InvResolve(rows: Rows, l: Ledger, ids: set<nat>, now: int)
    requires Inv(rows, l)
    ensures Inv(ResolveIn(rows, ids, now), l)
  {
    hide Backed;
    InvRestate(rows, l, ResolveIn(rows, ids, now));
  }

  lemma InvIds(rows: Rows, l: Ledger)
    requires Inv(rows, l)
    ensures forall i <- rows :: i < |l.folded|
    ensures LiveUnique(rows) && forall i <- rows :: Stamped(rows[i])
  {
  }

  /** Changing one row's state and stamps, when it leaves no second live row for its key. */
  lemma InvSetOne(rows: Rows, l: Ledger, id: nat, a: Alert)
    requires Inv(rows, l) && id in rows && Stamped(a)
    requires a == rows[id].(state := a.state, ackedAt := a.ackedAt, resolvedAt := a.resolvedAt, reopenedAt := a.reopenedAt)
    requires Live(rows[id]) || forall j <- rows :: j != id && Live(rows[j]) ==> rows[j].dedupeKey != rows[id].dedupeKey
    ensures Inv(rows[id := a], l)
  {
    hide Backed;
    InvIds(rows, l);
    InvRestate(rows, l, rows[id := a]);
  }

  lemma InvNotify(rows: Rows, l: Ledger, ids: set<nat>, now: int)
    requires Inv(rows, l)
    ensures Inv(NotifyIn(rows, ids, now), l)
  {
    hide Backed;
    InvRestate(rows, l, NotifyIn(rows, ids, now));
  }

  /** Deleting resolved rows moves them, unchanged, to the ledger. */
  lemma InvDelete(rows: Rows, l: Ledger, ids: set<nat>)
    requires Inv(rows, l) && forall i <- ids :: i in rows ==> rows[i].state == Resolved
    ensures Inv(DeleteIn(rows, ids), l.(gone := l.gone + map i | i in rows && i in ids :: rows[i]))
  {
    hide Backed;
    hide Stamped;
    hide FoldedCount;
    hide KeyCount;
  }

  // ---- the table ----

  /** The live row of a key: LiveUnique makes it the only one. */
  ghost function LiveOf(rows: Rows, key: string): (r: Option<nat>)
    ensures r.Some? ==> r.value in rows && Live(rows[r.value]) && rows[r.value].dedupeKey == key
    ensures r == None ==> forall i <- rows :: Live(rows[i]) ==> rows[i].dedupeKey != key
  {
    if i :| i in rows && Live(rows[i]) && rows[i].dedupeKey == key then Some(i) else None
  }

  lemma LiveOfIs(rows: Rows, i: nat)
    requires LiveUnique(rows) && i in rows && Live(rows[i])
    ensures LiveOf(rows, rows[i].dedupeKey) == Some(i)
  {
  }

  /** The count column of the live row of f's key is full. */
  ghost predicate Overflows(rows: Rows, f: Finding) {
    var i := LiveOf(rows, DedupeKey(f));
    i.Some? && rows[i.value].count >= INT4_MAX
  }

  /** The upsert of f is an error. */
  ghost predicate Fails(inet: Inets, rows: Rows, f: Finding) {
    !Accepted(inet, f) || Overflows(rows, f)
  }

  /** The row an upsert of f goes into. */
  ghost function HomeOf(rows: Rows, nextId: nat, f: Finding): nat {
    var i := LiveOf(rows, DedupeKey(f));
    if i.Some? then i.value else nextId
  }

  ghost predicate Opens(rows: Rows, f: Finding) {
    LiveOf(rows, DedupeKey(f)) == None
  }

  ghost function UpsertIn(inet: Inets, rows: Rows, nextId: nat, f: Finding, now: int): Rows {
    if Opens(rows, f) then rows[nextId := NewAlert(inet, f, now)]
    else var i := HomeOf(rows, nextId, f); rows[i := Bumped(rows[i], f, now)]
  }

  /** The live rows of f's key are none, or the one it goes into. */
  lemma ConflictsAre(rows: Rows, nextId: nat, f: Finding, conflicts: set<nat>)
    requires LiveUnique(rows) && conflicts == set i | i in rows && Live(rows[i]) && rows[i].dedupeKey == DedupeKey(f)
    ensures conflicts == {} ==> Opens(rows, f) && HomeOf(rows, nextId, f) == nextId && !Overflows(rows, f)
    ensures conflicts == {} ==> forall i <- rows :: Live(rows[i]) ==> rows[i].dedupeKey != DedupeKey(f)
    ensures forall i <- conflicts ::
              i in rows && Live(rows[i]) && rows[i].dedupeKey == DedupeKey(f) && !Opens(rows, f) && HomeOf(rows, nextId, f) == i
              && (Overflows(rows, f) <==> rows[i].count >= INT4_MAX)
  {
    hide DedupeKey;
    forall i | i in rows && Live(rows[i]) ensures rows[i].dedupeKey == DedupeKey(f) <==> i in conflicts {
    }
    forall i | i in conflicts ensures LiveOf(rows, rows[i].dedupeKey) == Some(i) {
      LiveOfIs(rows, i);
    }
  }

  lemma OverflowsIff(rows: Rows, f: Finding)
    requires LiveUnique(rows)
    ensures Overflows(rows, f)
            <==> exists i <- rows :: rows[i].state != Resolved && rows[i].dedupeKey == DedupeKey(f) && rows[i].count >= 0x7FFF_FFFF
  {
    hide DedupeKey;
    if i :| i in rows && Live(rows[i]) && rows[i].dedupeKey == DedupeKey(f) {
      LiveOfIs(rows, i);
    }
  }

  datatype Upserted = Stored(id: nat, inserted: bool) | Refused | CountOverflow
  datatype SetResult = InvalidState | Changed | NotChanged

  class AlertStore {
    const inet: Inets
    var rows: Rows
    var nextId: nat
    ghost var ledger: Ledger

    ghost predicate Valid()
      reads this
    {
      Inv(rows, ledger) && nextId == |ledger.folded| && ledger.inet == inet
    }

    constructor (inet: Inets)
      ensures Valid() && rows == map[] && nextId == 0 && ledger == Ledger(inet, [], map[], []) && this.inet == inet
    {
      this.inet, rows, nextId, ledger := inet, map[], 0, Ledger(inet, [], map[], []);
    }

    /** UpsertAlert: a finding opens a row, or bumps the live row of its key. */
    method UpsertAlert(f: Finding, now: int) returns (r: Upserted)
      requires Valid()
      modifies this
      ensures Valid()
      ensures r == Refused <==> !Accepted(inet, f)
      ensures r == CountOverflow <==> Accepted(inet, f) && Overflows(old(rows), f)
      ensures r == Refused <==> (f.host != "" && f.host !in inet) || (f.peer != "" && f.peer !in inet) || f.port >= 0x8000_0000
      ensures r == CountOverflow <==>
                r != Refused && exists i <- old(rows) :: old(rows)[i].state != Resolved && old(rows)[i].dedupeKey == DedupeKey(f)
                                                          && old(rows)[i].count >= 0x7FFF_FFFF
      ensures !r.Stored? ==> rows == old(rows) && nextId == old(nextId) && ledger == old(ledger)
      ensures r.Stored? ==>
                && r == Stored(HomeOf(old(rows), old(nextId), f), Opens(old(rows), f))
                && rows == UpsertIn(inet, old(rows), old(nextId), f, now) && nextId == old(nextId) + (if r.inserted then 1 else 0)
                && ledger.raised == old(ledger).raised + [f] && ledger.gone == old(ledger).gone
      ensures r.Stored? ==> rows.Keys == old(rows).Keys + {r.id} && forall i <- old(rows) :: i != r.id ==> rows[i] == old(rows)[i]
      ensures r.Stored? && r.inserted ==> r.id !in old(rows) && OpenedBy(inet, rows[r.id], f, now)
      ensures r.Stored? && !r.inserted ==>
                && r.id in old(rows) && old(rows)[r.id].state != Resolved && old(rows)[r.id].dedupeKey == DedupeKey(f)
                && RepeatedBy(old(rows)[r.id], rows[r.id], f, now)
    {
      hide Inv, DedupeKey, Escalated, NewAlert, Bumped, OpenedBy, RepeatedBy, LiveOf, HomeOf, Opens, Overflows;
      InvIds(rows, ledger);
      OverflowsIff(rows, f);
      if !((f.host == "" || f.host in inet) && (f.peer == "" || f.peer in inet) && f.port <= INT4_MAX) {
        return Refused;
      }
      var conflicts := set i | i in rows && Live(rows[i]) && rows[i].dedupeKey == DedupeKey(f);
      ConflictsAre(rows, nextId, f, conflicts);
      if conflicts == {} {
        Insert(f, now);
        return Stored(nextId - 1, true);
      }
      var id :| id in conflicts;
      if rows[id].count >= INT4_MAX {
        return CountOverflow;
      }
      Bump(id, f, now);
      return Stored(id, false);
    }

    /** The upsert's INSERT. */
    method Insert(f: Finding, now: int)
      requires Valid() && forall i <- rows :: Live(rows[i]) ==> rows[i].dedupeKey != DedupeKey(f)
      modifies this
      ensures Valid() && nextId == old(nextId) + 1 && old(nextId) !in old(rows)
      ensures rows == old(rows)[old(nextId) := NewAlert(inet, f, now)] && OpenedBy(inet, rows[old(nextId)], f, now)
      ensures ledger.raised == old(ledger).raised + [f] && ledger.gone == old(ledger).gone
    {
      InvIds(rows, ledger);
      hide Inv, DedupeKey, NewAlert, OpenedBy;
      InvInsert(rows, ledger, f, now);
      NewAlertIs(inet, f, now);
      rows := rows[nextId := NewAlert(inet, f, now)];
      ledger := Ledger(inet, ledger.folded + [[f]], ledger.gone, ledger.raised + [f]);
      nextId := nextId + 1;
    }

    /** The upsert's ON CONFLICT DO UPDATE. */
    method Bump(id: nat, f: Finding, now: int)
      requires Valid() && id in rows && Live(rows[id]) && rows[id].dedupeKey == DedupeKey(f)
      modifies this`rows, this`ledger
      ensures Valid() && rows == old(rows)[id := Bumped(old(rows)[id], f, now)] && RepeatedBy(old(rows)[id], rows[id], f, now)
      ensures ledger.raised == old(ledger).raised + [f] && ledger.gone == old(ledger).gone
    {
      InvIds(rows, ledger);
      hide Inv, DedupeKey, Bumped, RepeatedBy;
      InvBump(rows, ledger, id, f, now);
      BumpedIs(rows[id], f, now);
      rows := rows[id := Bumped(rows[id], f, now)];
      ledger := Ledger(inet, ledger.folded[id := ledger.folded[id] + [f]], ledger.gone, ledger.raised + [f]);
    }

    /** SetAlertState: open -> acked/resolved, acked -> open/resolved; resolved rows are left alone. */
    method SetAlertState(id: nat, state: string, now: int) returns (r: SetResult)
      requires Valid()
      modifies this`rows
      ensures Valid()
      ensures r == InvalidState <==> state !in ["acked", "resolved", "open"]
      ensures r == Changed <==> id in old(rows) && CanSet(old(rows)[id].state, state)
      ensures rows == if r == Changed then old(rows)[id := AfterSet(old(rows)[id], state, now)] else old(rows)
      ensures r == Changed && state == "acked" ==>
                old(rows)[id].state != Resolved && rows[id] == old(rows)[id].(state := Acked, ackedAt := Some(now))
      ensures r == Changed && state == "resolved" ==>
                old(rows)[id].state != Resolved && rows[id] == old(rows)[id].(state := Resolved, resolvedAt := Some(now))
      ensures r == Changed && state == "open" ==>
                old(rows)[id].state == Acked && rows[id] == old(rows)[id].(state := Open, ackedAt := None)
      ensures r == NotChanged ==>
                id in old(rows) ==> old(rows)[id].state == Resolved || (state == "open" && old(rows)[id].state == Open)
    {
      hide Inv;
      InvIds(rows, ledger);
      ghost var before := rows;
      if state == "acked" {
        if id !in rows || rows[id].state == Resolved {
          return NotChanged;
        }
        rows := rows[id := rows[id].(state := Acked, ackedAt := Some(now))];
      } else if state == "resolved" {
        if id !in rows || rows[id].state == Resolved {
          return NotChanged;
        }
        rows := rows[id := rows[id].(state := Resolved, resolvedAt := Some(now))];
      } else if state == "open" {
        if id !in rows || rows[id].state != Acked {
          return NotChanged;
        }
        rows := rows[id := rows[id].(state := Open, ackedAt := None)];
      } else {
        return InvalidState;
      }
      InvSetOne(before, ledger, id, rows[id]);
      return Changed;
    }

    /** ReopenAlert: refused, naming the conflicting row, while another live row carries the key. */
    method ReopenAlert(id: nat, now: int) returns (ok: bool, conflict: Option<nat>)
      requires Valid()
      modifies this`rows
      ensures Valid()
      ensures ok <==> Reopens(old(rows), id)
      ensures ok ==> conflict == None && rows == old(rows)[id := Reopened(old(rows)[id], now)]
      ensures ok ==> rows == old(rows)[id := old(rows)[id].(state := Open, ackedAt := None, resolvedAt := None, reopenedAt := Some(now))]
      ensures ok <==> id in old(rows) && old(rows)[id].state == Resolved
                      && !exists j <- old(rows) :: j != id && old(rows)[j].state != Resolved && old(rows)[j].dedupeKey == old(rows)[id].dedupeKey
      ensures !ok ==> rows == old(rows)
      ensures !ok && id in old(rows) && old(rows)[id].state == Resolved ==> conflict.Some?
      ensures conflict.Some? ==>
                && id in old(rows) && conflict.value in old(rows) && conflict.value != id && Live(old(rows)[conflict.value])
                && old(rows)[conflict.value].dedupeKey == old(rows)[id].dedupeKey
    {
      hide Inv;
      ghost var before := rows;
      if id !in rows {
        return false, None;
      }
      var rivals := set j | j in rows && j != id && Live(rows[j]) && rows[j].dedupeKey == rows[id].dedupeKey;
      if rows[id].state == Resolved && rivals == {} {
        forall j | j in rows && j != id && Live(rows[j]) ensures rows[j].dedupeKey != rows[id].dedupeKey {
          assert j !in rivals;
        }
        rows := rows[id := rows[id].(state := Open, ackedAt := None, resolvedAt := None, reopenedAt := Some(now))];
        InvSetOne(before, ledger, id, rows[id]);
        return true, None;
      }
      if rivals == {} {
        return false, None;
      }
      var j :| j in rivals;
      return false, Some(j);
    }

    /** The one UPDATE behind every bulk resolve. */
    method ResolveSet(ids: set<nat>, now: int)
      requires Valid()
      modifies this`rows
      ensures Valid() && rows == ResolveIn(old(rows), ids, now)
      ensures rows.Keys == old(rows).Keys
      ensures forall i <- rows :: rows[i] == if i in ids then old(rows)[i].(state := Resolved, resolvedAt := Some(now)) else old(rows)[i]
    {
      hide Inv;
      InvResolve(rows, ledger, ids, now);
      rows := ResolveIn(rows, ids, now);
    }

    /** The one DELETE behind every removal: it can only be asked to delete resolved rows. */
    method DeleteSet(ids: set<nat>)
      requires Valid() && forall i <- ids :: i in rows && rows[i].state == Resolved
      modifies this`rows, this`ledger
      ensures Valid() && rows == DeleteIn(old(rows), ids)
      ensures rows.Keys == old(rows).Keys - ids && forall i <- rows :: rows[i] == old(rows)[i]
      ensures ledger.raised == old(ledger).raised && ledger.folded == old(ledger).folded
      ensures ledger.gone.Keys == old(ledger).gone.Keys + ids
    {
      hide Inv;
      InvDelete(rows, ledger, ids);
      ledger := ledger.(gone := ledger.gone + map i | i in rows && i in ids :: rows[i]);
      rows := DeleteIn(rows, ids);
    }

    /** ResolveAlerts: every live alert matching the rule and host filters. */
    method ResolveAlerts(rule: string, host: string, now: int) returns (n: nat)
      requires Valid()
      modifies this`rows
      ensures Valid()
      ensures rows == ResolveIn(old(rows), LiveMatching(inet, old(rows), rule, host), now)
      ensures n == |LiveMatching(inet, old(rows), rule, host)|
      ensures rows.Keys == old(rows).Keys
      ensures forall i <- rows ::
                var a := old(rows)[i];
                rows[i] == if a.state != Resolved && (rule == "" || rule == a.rule)
                              && (host == "" || (host in inet && inet[host] in {a.host, a.peer}))
                           then a.(state := Resolved, resolvedAt := Some(now)) else a
    {
      hide Inv, ResolveIn;
      LiveMatchingMeans(inet, rows, rule, host);
      hide LiveMatching;
      var ids := LiveMatching(inet, rows, rule, host);
      n := |ids|;
      ResolveSet(ids, now);
    }

    /** AutoResolveStale: every live alert silent, and not reopened, for longer than `after`. */
    method AutoResolveStale(after: int, now: int) returns (n: nat)
      requires Valid()
      modifies this`rows
      ensures Valid()
      ensures rows == ResolveIn(old(rows), Stale(old(rows), now - after), now)
      ensures n == |Stale(old(rows), now - after)|
      ensures rows.Keys == old(rows).Keys
      ensures forall i <- rows ::
                var a := old(rows)[i];
                rows[i] == if a.state != Resolved && now - a.lastSeen > after && (a.reopenedAt.Some? ==> now - a.reopenedAt.value > after)
                           then a.(state := Resolved, resolvedAt := Some(now)) else a
    {
      var ids := Stale(rows, now - after);
      n := |ids|;
      ResolveSet(ids, now);
    }

    /** DeleteResolvedAlerts: resolved alerts matching the filters; open and acked ones are untouched. */
    method DeleteResolvedAlerts(rule: string, host: string, severity: string) returns (n: nat)
      requires Valid()
      modifies this`rows, this`ledger
      ensures Valid()
      ensures rows == DeleteIn(old(rows), ResolvedMatching(inet, old(rows), rule, host, severity))
      ensures ledger.gone.Keys == old(ledger).gone.Keys + ResolvedMatching(inet, old(rows), rule, host, severity)
      ensures forall i <- rows :: i in old(rows) && rows[i] == old(rows)[i]
      ensures forall i <- old(rows) ::
                var a := old(rows)[i];
                i !in rows <==> a.state == Resolved && (rule == "" || rule == a.rule) && (severity == "" || severity == a.severity)
                                && (host == "" || (host in inet && inet[host] in {a.host, a.peer}))
      ensures ledger.raised == old(ledger).raised
    {
      hide Inv, DeleteIn;
      ResolvedMatchingMeans(inet, rows, rule, host, severity);
      hide ResolvedMatching;
      var ids := ResolvedMatching(inet, rows, rule, host, severity);
      n := |ids|;
      DeleteSet(ids);
    }

    /** DeleteAlert: one alert, if it is resolved. */
    method DeleteAlert(id: nat) returns (deleted: bool, existed: bool)
      requires Valid()
      modifies this`rows, this`ledger
      ensures Valid()
      ensures deleted <==> id in old(rows) && old(rows)[id].state == Resolved
      ensures existed <==> id in old(rows)
      ensures rows == if deleted then DeleteIn(old(rows), {id}) else old(rows)
      ensures rows.Keys == old(rows).Keys - (if deleted then {id} else {}) && forall i <- rows :: rows[i] == old(rows)[i]
      ensures ledger.raised == old(ledger).raised
    {
      if id in rows && rows[id].state == Resolved {
        DeleteSet({id});
        return true, true;
      }
      return false, id in rows;
    }

    /** PruneResolvedAlerts: severity by severity, resolved alerts older than that severity's days. */
    method PruneResolvedAlerts(days: seq<(string, int)>, now: int)
      requires Valid()
      modifies this`rows, this`ledger
      ensures Valid()
      ensures rows == DeleteIn(old(rows), Expired(old(rows), days, now))
      ensures ledger.raised == old(ledger).raised
      ensures forall i <- rows :: i in old(rows) && rows[i] == old(rows)[i]
      ensures forall i <- old(rows) ::
                var a := old(rows)[i];
                i !in rows <==> a.state == Resolved && a.resolvedAt.Some?
                                && exists d <- days :: d.0 == a.severity && d.1 > 0 && now - a.resolvedAt.value > d.1 * 86400
    {
      ghost var before := rows;
      DeleteNone(rows, days, now);
      for j := 0 to |days|
        invariant Valid() && ledger.raised == old(ledger).raised
        invariant rows == DeleteIn(before, Expired(before, days[..j], now))
      {
        var sev, d := days[j].0, days[j].1;
        DeleteMore(before, days, j, now);
        if d > 0 {
          DeleteSet(ExpiredBy(rows, sev, d, now));
        }
      }
      assert days[..|days|] == days;
      ExpiredMeans(before, days, now);
    }

    /** MarkNotified. */
    method MarkNotified(ids: set<nat>, now: int)
      requires Valid()
      modifies this`rows
      ensures Valid() && rows == NotifyIn(old(rows), ids, now)
      ensures rows.Keys == old(rows).Keys
      ensures forall i <- rows :: rows[i] == if i in ids then old(rows)[i].(notifiedAt := Some(now)) else old(rows)[i]
    {
      hide Inv;
      InvNotify(rows, ledger, ids, now);
      rows := NotifyIn(rows, ids, now);
    }
  }

  /** Everything the engine, the API and the maintenance jobs do to the table. */
  datatype Op = Upsert(f: Finding)
              | SetState(id: nat, state: string)
              | Reopen(id: nat)
              | BulkResolve(rule: string, host: string)
              | AutoResolve(after: int)
              | ResolveThese(ids: set<nat>)
              | DeleteResolved(rule: string, host: string, severity: string)
              | DeleteOne(id: nat)
              | Prune(days: seq<(string, int)>)
              | Notified(ids: set<nat>)

  /** The findings the operations carry, in order. */
  function Raised(ops: seq<(Op, int)>): seq<Finding> {
    if ops == [] then []
    else Raised(ops[..|ops| - 1]) + if ops[|ops| - 1].0.Upsert? then [ops[|ops| - 1].0.f] else []
  }

  ghost predicate AllAccepted(inet: Inets, ops: seq<(Op, int)>) {
    forall i | 0 <= i < |ops| :: ops[i].0.Upsert? ==> Accepted(inet, ops[i].0.f)
  }

  /** ReopenAlert's condition. */
  ghost predicate Reopens(rows: Rows, id: nat) {
    && id in rows && rows[id].state == Resolved
    && forall j <- rows :: j != id && Live(rows[j]) ==> rows[j].dedupeKey != rows[id].dedupeKey
  }

  function Reopened(a: Alert, now: int): Alert {
    a.(state := Open, ackedAt := None, resolvedAt := None, reopenedAt := Some(now))
  }

  /** What one operation does to the table. */
  ghost function RowsAfter(inet: Inets, rows: Rows, nextId: nat, op: Op, now: int): Rows {
    match op
    case Upsert(f) => if Fails(inet, rows, f) then rows else UpsertIn(inet, rows, nextId, f, now)
    case SetState(id, state) => if id in rows && CanSet(rows[id].state, state) then rows[id := AfterSet(rows[id], state, now)] else rows
    case Reopen(id) => if Reopens(rows, id) then rows[id := Reopened(rows[id], now)] else rows
    case BulkResolve(rule, host) => ResolveIn(rows, LiveMatching(inet, rows, rule, host), now)
    case AutoResolve(after) => ResolveIn(rows, Stale(rows, now - after), now)
    case ResolveThese(ids) => ResolveIn(rows, ids, now)
    case DeleteResolved(rule, host, severity) => DeleteIn(rows, ResolvedMatching(inet, rows, rule, host, severity))
    case DeleteOne(id) => DeleteIn(rows, if id in rows && rows[id].state == Resolved then {id} else {})
    case Prune(days) => DeleteIn(rows, Expired(rows, days, now))
    case Notified(ids) => NotifyIn(rows, ids, now)
  }

  ghost predicate StoresOne(inet: Inets, rows: Rows, op: Op) {
    op.Upsert? && !Fails(inet, rows, op.f)
  }

  /** The table after any operations, from an empty one, and the findings that went into it. */
  datatype Table = Table(rows: Rows, nextId: nat, raised: seq<Finding>)

  ghost function AfterOps(inet: Inets, ops: seq<(Op, int)>): Table {
    if ops == [] then Table(map[], 0, [])
    else
      var t, (op, now) := AfterOps(inet, ops[..|ops| - 1]), ops[|ops| - 1];
      Table(RowsAfter(inet, t.rows, t.nextId, op, now),
            t.nextId + if StoresOne(inet, t.rows, op) && Opens(t.rows, op.f) then 1 else 0,
            t.raised + if StoresOne(inet, t.rows, op) then [op.f] else [])
  }

  // ---- what a row says about the history behind it ----

  /** A finding stored in a row, and when. */
  datatype Hit = Hit(f: Finding, at: int)

  /** The findings stored in row id. */
  ghost function HitsOf(inet: Inets, ops: seq<(Op, int)>, id: nat): seq<Hit> {
    if ops == [] then []
    else
      var t, (op, now) := AfterOps(inet, ops[..|ops| - 1]), ops[|ops| - 1];
      HitsOf(inet, ops[..|ops| - 1], id)
      + if StoresOne(inet, t.rows, op) && HomeOf(t.rows, t.nextId, op.f) == id then [Hit(op.f, now)] else []
  }

  /** When row id was reopened last. */
  ghost function LastReopen(inet: Inets, ops: seq<(Op, int)>, id: nat): Option<int> {
    if ops == [] then None
    else if ops[|ops| - 1].0 == Reopen(id) && Reopens(AfterOps(inet, ops[..|ops| - 1]).rows, id) then Some(ops[|ops| - 1].1)
    else LastReopen(inet, ops[..|ops| - 1], id)
  }

  /** When row id was last marked as notified. */
  ghost function LastNotified(inet: Inets, ops: seq<(Op, int)>, id: nat): Option<int> {
    if ops == [] then None
    else
      var op := ops[|ops| - 1].0;
      if op.Notified? && id in op.ids && id in AfterOps(inet, ops[..|ops| - 1]).rows then Some(ops[|ops| - 1].1)
      else LastNotified(inet, ops[..|ops| - 1], id)
  }

  /** Rule, addresses, port and first sight are those of the first finding stored, title, details and last sight
      those of the last; every one of them has the row's key and is counted. */
  ghost predicate Tells(inet: Inets, a: Alert, hits: seq<Hit>) {
    && hits != [] && a.count == |hits| && (forall h <- hits :: DedupeKey(h.f) == a.dedupeKey)
    && (var first := hits[0];
        && a.rule == first.f.rule && a.port == Max(first.f.port, 0) && a.firstSeen == first.at
        && a.host == Column(inet, first.f.host) && a.peer == Column(inet, first.f.peer))
    && (var last := hits[|hits| - 1];
        a.title == last.f.title && a.details == last.f.details && a.lastSeen == last.at)
  }

  /** The columns no operation but an upsert touches. */
  ghost predicate SameCase(a: Alert, b: Alert) {
    && a.rule == b.rule && a.host == b.host && a.peer == b.peer && a.port == b.port && a.dedupeKey == b.dedupeKey
    && a.title == b.title && a.details == b.details && a.count == b.count && a.firstSeen == b.firstSeen && a.lastSeen == b.lastSeen
  }

  /** One operation, seen from one row. */
  lemma RowStep(inet: Inets, rows: Rows, nextId: nat, op: Op, now: int, id: nat)
    requires id in RowsAfter(inet, rows, nextId, op, now) && nextId !in rows
    ensures var a := RowsAfter(inet, rows, nextId, op, now)[id];
            if StoresOne(inet, rows, op) && HomeOf(rows, nextId, op.f) == id
            then if id in rows then rows[id].dedupeKey == DedupeKey(op.f) && RepeatedBy(rows[id], a, op.f, now)
                 else id == nextId && Opens(rows, op.f) && OpenedBy(inet, a, op.f, now)
            else id in rows && SameCase(a, rows[id])
                 && a.reopenedAt == (if op == Reopen(id) && Reopens(rows, id) then Some(now) else rows[id].reopenedAt)
                 && a.notifiedAt == (if op.Notified? && id in op.ids then Some(now) else rows[id].notifiedAt)
  {
    hide DedupeKey, Fails, Expired, Stale, LiveMatching, ResolvedMatching, OpenedBy, RepeatedBy, NewAlert, Bumped;
    if op.Upsert? {
      NewAlertIs(inet, op.f, now);
      if id in rows {
        BumpedIs(rows[id], op.f, now);
      }
    }
  }

  /** What an operation other than an upsert does to a row that was there, and that it adds none. */
  lemma OperationIs(inet: Inets, rows: Rows, nextId: nat, op: Op, now: int, i: nat)
    requires i in rows && !op.Upsert?
    ensures var rows', a := RowsAfter(inet, rows, nextId, op, now), rows[i];
            && rows'.Keys <= rows.Keys
            && var resolved := a.(state := Resolved, resolvedAt := Some(now));
               match op
               case SetState(id, state) =>
                 && i in rows'
                 && rows'[i] == if i != id then a
                                else if state == "acked" && a.state != Resolved then a.(state := Acked, ackedAt := Some(now))
                                else if state == "resolved" && a.state != Resolved then resolved
                                else if state == "open" && a.state == Acked then a.(state := Open, ackedAt := None)
                                else a
               case Reopen(id) =>
                 && i in rows'
                 && rows'[i] == if i == id && Reopens(rows, id)
                                then a.(state := Open, ackedAt := None, resolvedAt := None, reopenedAt := Some(now)) else a
               case BulkResolve(rule, host) =>
                 && i in rows'
                 && rows'[i] == if a.state != Resolved && (rule == "" || rule == a.rule)
                                   && (host == "" || (host in inet && inet[host] in {a.host, a.peer})) then resolved else a
               case AutoResolve(after) =>
                 && i in rows'
                 && rows'[i] == if a.state != Resolved && now - a.lastSeen > after && (a.reopenedAt.Some? ==> now - a.reopenedAt.value > after)
                                then resolved else a
               case ResolveThese(ids) => i in rows' && rows'[i] == if i in ids then resolved else a
               case DeleteResolved(rule, host, severity) =>
                 && (i in rows' ==> rows'[i] == a)
                 && (i !in rows' <==> a.state == Resolved && (rule == "" || rule == a.rule) && (severity == "" || severity == a.severity)
                                      && (host == "" || (host in inet && inet[host] in {a.host, a.peer})))
               case DeleteOne(id) => (i in rows' ==> rows'[i] == a) && (i !in rows' <==> i == id && a.state == Resolved)
               case Prune(days) =>
                 && (i in rows' ==> rows'[i] == a)
                 && (i !in rows' <==> a.state == Resolved && a.resolvedAt.Some?
                                      && exists d <- days :: d.0 == a.severity && d.1 > 0 && now - a.resolvedAt.value > d.1 * 86400)
               case Notified(ids) => i in rows' && rows'[i] == if i in ids then a.(notifiedAt := Some(now)) else a
  {
    match op
    case BulkResolve(rule, host) => LiveMatchingMeans(inet, rows, rule, host);
    case DeleteResolved(rule, host, severity) => ResolvedMatchingMeans(inet, rows, rule, host, severity);
    case Prune(days) => ExpiredMeans(rows, days, now);
    case _ =>
  }

  lemma TellsNew(inet: Inets, a: Alert, f: Finding, now: int)
    requires OpenedBy(inet, a, f, now)
    ensures Tells(inet, a, [Hit(f, now)]) && a.reopenedAt == a.notifiedAt == None
  {
    hide DedupeKey;
  }

  lemma TellsMore(inet: Inets, b: Alert, a: Alert, hits: seq<Hit>, f: Finding, now: int)
    requires Tells(inet, b, hits) && b.dedupeKey == DedupeKey(f) && RepeatedBy(b, a, f, now)
    ensures Tells(inet, a, hits + [Hit(f, now)]) && a.reopenedAt == b.reopenedAt && a.notifiedAt == b.notifiedAt
  {
    hide DedupeKey, Column;
  }

  lemma TellsSame(inet: Inets, b: Alert, a: Alert, hits: seq<Hit>)
    requires Tells(inet, b, hits) && SameCase(a, b)
    ensures Tells(inet, a, hits)
  {
    hide DedupeKey, Column;
  }

  /** After any operations, every row tells its history. */
  lemma {:induction false} RowsTell(inet: Inets, ops: seq<(Op, int)>, id: nat)
    ensures var t := AfterOps(inet, ops);
            && (id >= t.nextId ==> id !in t.rows && HitsOf(inet, ops, id) == [] && LastReopen(inet, ops, id) == LastNotified(inet, ops, id) == None)
            && (id in t.rows ==>
                  && Tells(inet, t.rows[id], HitsOf(inet, ops, id))
                  && t.rows[id].reopenedAt == LastReopen(inet, ops, id) && t.rows[id].notifiedAt == LastNotified(inet, ops, id))
  {
    hide Fails, DedupeKey, RowsAfter, Column, RepeatedBy, OpenedBy, Tells, SameCase;
    if ops != [] {
      var front := ops[..|ops| - 1];
      var (op, now) := ops[|ops| - 1];
      var t := AfterOps(inet, front);
      RowsTell(inet, front, id);
      RowsTell(inet, front, t.nextId);
      if id in AfterOps(inet, ops).rows {
        RowStep(inet, t.rows, t.nextId, op, now, id);
        var a := AfterOps(inet, ops).rows[id];
        if StoresOne(inet, t.rows, op) && HomeOf(t.rows, t.nextId, op.f) == id {
          if id in t.rows {
            TellsMore(inet, t.rows[id], a, HitsOf(inet, front, id), op.f, now);
          } else {
            TellsNew(inet, a, op.f, now);
            assert HitsOf(inet, ops, id) == [Hit(op.f, now)];
          }
        } else {
          assert HitsOf(inet, ops, id) == HitsOf(inet, front, id);
          TellsSame(inet, t.rows[id], a, HitsOf(inet, front, id));
        }
      }
    }
  }

  /** After any operations, resolving what has been silent for longer than `after` takes exactly the live alerts
      whose last finding is older than that and which were not reopened since. An alert that received a finding
      no longer than `after` ago stays as it is. */
  lemma SilentAreResolved(inet: Inets, ops: seq<(Op, int)>, after: int, now: int, id: nat)
    requires id in AfterOps(inet, ops).rows
    ensures id in AfterOps(inet, ops + [(AutoResolve(after), now)]).rows && HitsOf(inet, ops, id) != []
    ensures var a, b, hits, reopened := AfterOps(inet, ops).rows[id], AfterOps(inet, ops + [(AutoResolve(after), now)]).rows[id],
                                        HitsOf(inet, ops, id), LastReopen(inet, ops, id);
            b == if a.state != Resolved && now - hits[|hits| - 1].at > after && (reopened.Some? ==> now - reopened.value > after)
                 then a.(state := Resolved, resolvedAt := Some(now)) else a
  {
    RowsTell(inet, ops, id);
    assert (ops + [(AutoResolve(after), now)])[..|ops|] == ops;
    hide AfterOps, HitsOf, LastReopen, LastNotified, DedupeKey, Column;
  }

  lemma DeleteNothing(rows: Rows)
    ensures DeleteIn(rows, {}) == rows
  {
  }

  /** Any interleaving of operations, at any times, from an empty table, leaves the table they lead to: live
      keys stay unique, states and stamps agree, only resolved rows are deleted, and for every key the counts
      of all rows ever created add up to the findings stored, which are all of them as long as every one is
      accepted and no count can overflow. */
  method Run(inet: Inets, ops: seq<(Op, int)>) returns (s: AlertStore)
    ensures s.Valid() && fresh(s) && s.inet == inet
    ensures Table(s.rows, s.nextId, s.ledger.raised) == AfterOps(inet, ops)
    ensures LiveUnique(s.rows)
    ensures forall i <- s.rows :: Stamped(s.rows[i])
    ensures forall i <- s.ledger.gone :: s.ledger.gone[i].state == Resolved
    ensures forall i <- s.rows :: Tells(inet, s.rows[i], HitsOf(inet, ops, i))
    ensures forall k: string :: CountsBelow(s.rows, s.ledger, s.nextId, k) == KeyCount(s.ledger.raised, k)
    ensures |ops| <= INT4_MAX && AllAccepted(inet, ops) ==> s.ledger.raised == Raised(ops)
  {
    hide Inv, Expired, LiveMatching, ResolvedMatching, Stale, Accepted, RowsAfter, Tells;
    s := new AlertStore(inet);
    for n := 0 to |ops|
      invariant s.Valid() && fresh(s) && s.inet == inet && |s.ledger.raised| <= n
      invariant Table(s.rows, s.nextId, s.ledger.raised) == AfterOps(inet, ops[..n])
      invariant |ops| <= INT4_MAX && AllAccepted(inet, ops) ==> s.ledger.raised == Raised(ops[..n])
    {
      assert ops[..n + 1][..n] == ops[..n];
      forall i | i in s.rows ensures s.rows[i].count <= n {
        CountWithinRaised(s.rows, s.ledger, i);
      }
      Perform(s, ops[n].0, ops[n].1);
    }
    assert ops[..|ops|] == ops;
    InvIds(s.rows, s.ledger);
    InvBacked(s.rows, s.ledger);
    InvMeans(s.rows, s.ledger);
    forall i | i in s.rows ensures Tells(inet, s.rows[i], HitsOf(inet, ops, i)) {
      RowsTell(inet, ops, i);
    }
    forall k: string ensures CountsBelow(s.rows, s.ledger, s.nextId, k) == KeyCount(s.ledger.raised, k) {
      LedgerTotals(s.rows, s.ledger, k);
    }
  }

  method Perform(s: AlertStore, op: Op, now: int)
    requires s.Valid()
    modifies s
    ensures s.Valid()
    ensures s.rows == RowsAfter(s.inet, old(s.rows), old(s.nextId), op, now)
    ensures s.nextId == old(s.nextId) + if StoresOne(s.inet, old(s.rows), op) && Opens(old(s.rows), op.f) then 1 else 0
    ensures s.ledger.raised == old(s.ledger).raised + if StoresOne(s.inet, old(s.rows), op) then [op.f] else []
  {
    hide Inv, Expired, LiveMatching, ResolvedMatching, Stale, Accepted, UpsertIn, LiveOf, ResolveIn, NotifyIn, DeleteIn;
    match op
    case Upsert(f) => var _ := s.UpsertAlert(f, now);
    case SetState(id, state) => var _ := s.SetAlertState(id, state, now);
    case Reopen(id) => var _, _ := s.ReopenAlert(id, now);
    case BulkResolve(rule, host) => var _ := s.ResolveAlerts(rule, host, now);
    case AutoResolve(after) => var _ := s.AutoResolveStale(after, now);
    case ResolveThese(ids) => s.ResolveSet(ids, now);
    case DeleteResolved(rule, host, severity) => var _ := s.DeleteResolvedAlerts(rule, host, severity);
    case DeleteOne(id) =>
      DeleteNothing(s.rows);
      var _, _ := s.DeleteAlert(id);
    case Prune(days) => s.PruneResolvedAlerts(days, now);
    case Notified(ids) => s.MarkNotified(ids, now);
  }

  /** The transitions SetAlertState allows, and their effect. */
  predicate CanSet(cur: State, state: string) {
    (state in ["acked", "resolved"] && cur != Resolved) || (state == "open" && cur == Acked)
  }

  function AfterSet(a: Alert, state: string, now: int): Alert {
    if state == "acked" then a.(state := Acked, ackedAt := Some(now))
    else if state == "resolved" then Resolve(a, now)
    else a.(state := Open, ackedAt := None)
  }

  predicate MatchesRule(a: Alert, rule: string) {
    rule == "" || a.rule == rule
  }

  /** The filter is cast to an address; a text that is none makes the statement an error, which matches nothing. */
  predicate MatchesHost(inet: Inets, a: Alert, host: string) {
    host == "" || (host in inet && (a.host == inet[host] || a.peer == inet[host]))
  }

  function LastActivity(a: Alert): int {
    if a.reopenedAt.Some? && a.reopenedAt.value > a.lastSeen then a.reopenedAt.value else a.lastSeen
  }

  function LiveMatching(inet: Inets, rows: Rows, rule: string, host: string): set<nat> {
    set i | i in rows && Live(rows[i]) && MatchesRule(rows[i], rule) && MatchesHost(inet, rows[i], host)
  }

  function Stale(rows: Rows, since: int): set<nat> {
    set i | i in rows && Live(rows[i]) && LastActivity(rows[i]) < since
  }

  function ResolvedMatching(inet: Inets, rows: Rows, rule: string, host: string, severity: string): set<nat> {
    set i | i in rows && rows[i].state == Resolved && MatchesRule(rows[i], rule) && MatchesHost(inet, rows[i], host)
            && (severity == "" || rows[i].severity == severity)
  }

  predicate PastRetention(a: Alert, sev: string, d: int, now: int) {
    d > 0 && a.state == Resolved && a.severity == sev && a.resolvedAt.Some? && a.resolvedAt.value < now - d * DAY
  }

  function ExpiredBy(rows: Rows, sev: string, d: int, now: int): set<nat> {
    set i | i in rows && PastRetention(rows[i], sev, d, now)
  }

  function Expired(rows: Rows, days: seq<(string, int)>, now: int): (ids: set<nat>)
    ensures forall i <- ids :: i in rows && rows[i].state == Resolved
  {
    set i | i in rows && exists j | 0 <= j < |days| :: PastRetention(rows[i], days[j].0, days[j].1, now)
  }

  /** A resolved row has outlived the days set for its severity. */
  lemma ExpiredMeans(rows: Rows, days: seq<(string, int)>, now: int)
    ensures forall i <- rows ::
              var a := rows[i];
              i in Expired(rows, days, now)
              <==> a.state == Resolved && a.resolvedAt.Some?
                   && exists d <- days :: d.0 == a.severity && d.1 > 0 && now - a.resolvedAt.value > d.1 * 86400
  {
    forall i, d | i in rows && d in days && PastRetention(rows[i], d.0, d.1, now) ensures i in Expired(rows, days, now) {
      var j :| 0 <= j < |days| && days[j] == d;
    }
    forall i | i in Expired(rows, days, now) ensures exists d <- days :: PastRetention(rows[i], d.0, d.1, now) {
      var j :| 0 <= j < |days| && PastRetention(rows[i], days[j].0, days[j].1, now);
      assert days[j] in days;
    }
  }

  /** A filter that is empty lets every row pass; the host filter matches either address. */
  lemma LiveMatchingMeans(inet: Inets, rows: Rows, rule: string, host: string)
    ensures forall i <- rows ::
              var a := rows[i];
              i in LiveMatching(inet, rows, rule, host)
              <==> a.state != Resolved && (rule == "" || rule == a.rule) && (host == "" || (host in inet && inet[host] in {a.host, a.peer}))
  {
  }

  lemma ResolvedMatchingMeans(inet: Inets, rows: Rows, rule: string, host: string, severity: string)
    ensures ResolvedMatching(inet, rows, rule, host, severity) <= rows.Keys
    ensures forall i <- rows ::
              var a := rows[i];
              i in ResolvedMatching(inet, rows, rule, host, severity)
              <==> a.state == Resolved && (rule == "" || rule == a.rule) && (severity == "" || severity == a.severity)
                   && (host == "" || (host in inet && inet[host] in {a.host, a.peer}))
  {
  }

  lemma DeleteNone(rows: Rows, days: seq<(string, int)>, now: int)
    ensures DeleteIn(rows, Expired(rows, days[..0], now)) == rows
  {
    assert Expired(rows, days[..0], now) == {};
  }

  /** Deleting for one more severity, from what earlier deletions left. */
  lemma DeleteMore(before: Rows, days: seq<(string, int)>, j: nat, now: int)
    requires j < |days|
    ensures var left := DeleteIn(before, Expired(before, days[..j], now));
            && DeleteIn(left, ExpiredBy(left, days[j].0, days[j].1, now)) == DeleteIn(before, Expired(before, days[..j + 1], now))
            && (days[j].1 <= 0 ==> left == DeleteIn(before, Expired(before, days[..j + 1], now)))
  {
    var now1, now2 := Expired(before, days[..j], now), Expired(before, days[..j + 1], now);
    forall i | i in before ensures i in now2 <==> i in now1 || PastRetention(before[i], days[j].0, days[j].1, now) {
      assert days[..j + 1][j] == days[j];
      if i in now1 {
        var m :| 0 <= m < j && PastRetention(before[i], days[..j][m].0, days[..j][m].1, now);
        assert days[..j + 1][m] == days[..j][m];
      }
      if i in now2 {
        var m :| 0 <= m < j + 1 && PastRetention(before[i], days[..j + 1][m].0, days[..j + 1][m].1, now);
        if m < j {
          assert days[..j][m] == days[..j + 1][m];
        }
      }
    }
  }
}
