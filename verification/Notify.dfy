/** internal/notify/notify.go: the queue between raised alerts and the notification channels. */
module Notify {
  import opened Findings
  import opened Selection
  import opened Text

  /** An alert as it was when it was raised. */
  datatype Note = Note(id: nat, severity: string)

  /** NOTIFY_QUIET_HOURS, parsed: anything but two integers means none. */
  datatype Quiet = NoQuiet | Hours(from: int, to: int)

  predicate InQuietHours(q: Quiet, hour: int) {
    match q
    case NoQuiet => false
    case Hours(from, to) =>
      if from <= to then from <= hour < to else hour >= from || hour < to
  }

  /** Steps on a 24-hour clock from a to b. */
  function ClockSteps(a: int, b: int): (n: nat)
    ensures n < 24
  {
    (b - a) % 24
  }

  /** A configured hour as a position on the day. */
  function Clamp(h: int): int {
    if h < 0 then 0 else if h > 24 then 24 else h
  }

  /** A range of hours, also one across midnight, is quiet exactly from its start up to its end on the clock
      face. The exceptions are a full day, which the clock face cannot tell from an empty one, and a range
      running backwards beyond the day, which is quiet always. */
  lemma QuietHoursOnTheClock(from: int, to: int, hour: int)
    requires 0 <= hour < 24
    ensures InQuietHours(Hours(from, to), hour)
            <==> ClockSteps(Clamp(from), hour) < ClockSteps(Clamp(from), Clamp(to))
                 || (Clamp(from) == 0 && Clamp(to) == 24) || (from > to && Clamp(from) == Clamp(to))
  {
  }

  function Passing(alerts: seq<Note>, min: nat): (r: seq<Note>)
    ensures forall n <- r :: n in alerts && SeverityRank(n.severity) >= min
  {
    if alerts == [] then []
    else
      var rest := Passing(alerts[..|alerts| - 1], min);
      var a := alerts[|alerts| - 1];
      if SeverityRank(a.severity) >= min then rest + [a] else rest
  }

  /** What the severity filter lets pass. */
  ghost function AtLeast(min: nat): Note -> bool {
    (n: Note) => SeverityRank(n.severity) >= min
  }

  /** Every alert of at least the minimum severity passes, as often as it was raised and in that order, and no
      other does. */
  lemma {:induction false} PassingIsKept(alerts: seq<Note>, min: nat)
    ensures KeptOf(Passing(alerts, min), alerts, AtLeast(min))
  {
    hide KeptOf, SeverityRank;
    if alerts == [] {
      KeptNone(AtLeast(min));
    } else {
      var n := |alerts| - 1;
      PassingIsKept(alerts[..n], min);
      KeptMore(Passing(alerts[..n], min), alerts[..n], alerts[n], AtLeast(min));
      assert alerts == alerts[..n] + [alerts[n]];
    }
  }

  function Flat(batches: seq<seq<Note>>): seq<Note> {
    if batches == [] then [] else Flat(batches[..|batches| - 1]) + batches[|batches| - 1]
  }

  lemma FlatAppend(batches: seq<seq<Note>>, batch: seq<Note>)
    ensures Flat(batches + [batch]) == Flat(batches) + batch
  {
    assert (batches + [batch])[..|batches|] == batches;
  }

  function Ids(batch: seq<Note>): (ids: set<nat>)
    ensures forall n <- batch :: n.id in ids
    ensures forall i <- ids :: exists n <- batch :: n.id == i
  {
    set n | n in batch :: n.id
  }

  /** What waits, what passed the severity filter so far in arrival order, and the batches taken. */
  datatype Queue = Queue(pending: seq<Note>, passed: seq<Note>, taken: seq<seq<Note>>)

  /** A flush at some hour: the queue afterwards and the batch it takes. */
  function AfterFlush(q: Queue, quiet: Quiet, hour: int): (r: (Queue, seq<Note>))
    ensures Flat(q.taken) + q.pending == q.passed ==> Flat(r.0.taken) + r.0.pending == r.0.passed
    ensures InQuietHours(quiet, hour) ==> r.0 == q && r.1 == []
  {
    if q.pending == [] || InQuietHours(quiet, hour) then (q, [])
    else
      FlatAppend(q.taken, q.pending);
      (Queue([], q.passed, q.taken + [q.pending]), q.pending)
  }

  /** New alerts: those at or above the minimum severity queue up, and in immediate mode the queue is flushed. */
  function AfterNotify(q: Queue, alerts: seq<Note>, min: nat, channels: nat, digest: int, quiet: Quiet, hour: int, flushHour: int)
    : (r: (Queue, seq<Note>))
    ensures Flat(q.taken) + q.pending == q.passed ==> Flat(r.0.taken) + r.0.pending == r.0.passed
    ensures r.1 != [] ==> !InQuietHours(quiet, hour) && !InQuietHours(quiet, flushHour) && digest == 0
    ensures forall n <- r.1 :: n in q.pending || n in alerts
    ensures digest == 0 && quiet == NoQuiet && q.pending == [] ==> r.0.pending == []
  {
    var keep := Passing(alerts, min);
    if channels == 0 || keep == [] then (q, [])
    else
      assert Flat(q.taken) + (q.pending + keep) == Flat(q.taken) + q.pending + keep;
      var q' := Queue(q.pending + keep, q.passed + keep, q.taken);
      if digest == 0 && !InQuietHours(quiet, hour) then AfterFlush(q', quiet, flushHour) else (q', [])
  }

  /** What notifying does: the alerts that pass join the queue behind those waiting, and the whole queue is taken
      at once if there are new ones, alerts go out immediately and neither reading of the clock is quiet. Without a
      channel nothing happens. */
  lemma NotifyQueues(q: Queue, alerts: seq<Note>, min: nat, channels: nat, digest: int, quiet: Quiet, hour: int, flushHour: int)
    returns (keep: seq<Note>)
    ensures KeptOf(keep, alerts, AtLeast(min))
    ensures var (r, batch) := AfterNotify(q, alerts, min, channels, digest, quiet, hour, flushHour);
            if channels == 0 then r == q && batch == []
            else
              && r.passed == q.passed + keep && batch + r.pending == q.pending + keep
              && (batch != [] <==> keep != [] && digest == 0 && !InQuietHours(quiet, hour) && !InQuietHours(quiet, flushHour))
              && (batch != [] ==> r.pending == []) && r.taken == q.taken + if batch != [] then [batch] else []
  {
    keep := Passing(alerts, min);
    PassingIsKept(alerts, min);
    hide KeptOf, Flat, Passing, AtLeast;
  }

  function Refusals(accepts: seq<bool>): nat {
    if accepts == [] then 0 else Refusals(accepts[..|accepts| - 1]) + if accepts[|accepts| - 1] then 0 else 1
  }

  lemma {:induction false} RefusalsCount(accepts: seq<bool>)
    ensures Refusals(accepts) == multiset(accepts)[false]
  {
    if accepts != [] {
      RefusalsCount(accepts[..|accepts| - 1]);
      assert accepts == accepts[..|accepts| - 1] + [accepts[|accepts| - 1]];
    }
  }

  class Dispatcher {
    const channels: nat
    const digest: int
    const quiet: Quiet
    const defaultMin: string
    var pending: seq<Note>
    var minSeverity: string
    var sent: nat
    var failed: nat
    ghost var passed: seq<Note>     // everything that passed the severity filter, in arrival order
    ghost var taken: seq<seq<Note>> // the batches flushed so far

    /** No alert that passed is skipped, repeated or reordered between arrival and flush. */
    ghost predicate Valid()
      reads this
    {
      Flat(taken) + pending == passed
    }

    constructor (channels: nat, digest: int, quiet: Quiet, defaultMin: string)
      ensures Valid() && pending == [] && passed == [] && taken == []
      ensures this.channels == channels && this.digest == digest && this.quiet == quiet && this.defaultMin == defaultMin
    {
      this.channels, this.digest, this.quiet, this.defaultMin := channels, digest, quiet, defaultMin;
      pending, minSeverity, sent, failed := [], "", 0, 0;
      passed, taken := [], [];
    }

    ghost function State(): Queue
      reads this
    {
      Queue(pending, passed, taken)
    }

    /** What notifying about these alerts does. */
    ghost function Next(alerts: seq<Note>, hour: int, flushHour: int): (Queue, seq<Note>)
      reads this
    {
      AfterNotify(State(), alerts, MinRank(), channels, digest, quiet, hour, flushHour)
    }

    function MinRank(): (r: nat)
      reads this
      ensures minSeverity == "" ==> r == SeverityRank(defaultMin)
      ensures minSeverity != "" ==> r == SeverityRank(minSeverity)
    {
      SeverityRank(if minSeverity != "" then minSeverity else defaultMin)
    }

    /** SetMinSeverity: trimmed and lower-cased before it is looked up, and stored in that form. */
    method SetMinSeverity(text: string) returns (ok: bool)
      modifies this`minSeverity
      ensures ok <==> ToLower(TrimSpace(text)) in {SEV_INFO, SEV_WARNING, SEV_CRITICAL}
      ensures minSeverity == if ok then ToLower(TrimSpace(text)) else old(minSeverity)
      ensures ok ==> MinRank() > 0
    {
      var sev := ToLower(TrimSpace(text));
      ok := SeverityRank(sev) > 0;
      if ok {
        minSeverity := sev;
      }
    }

    /** Flush: outside quiet hours the whole queue is taken as one batch and offered to every channel;
        it counts as delivered when at least one channel takes it. Inside them nothing is taken. */
    method Flush(hour: int, accepts: seq<bool>) returns (batch: seq<Note>, ok: bool)
      requires Valid() && |accepts| == channels
      modifies this
      ensures Valid() && minSeverity == old(minSeverity)
      ensures (State(), batch) == AfterFlush(old(State()), quiet, hour)
      ensures batch == (if InQuietHours(quiet, hour) then [] else old(pending))
      ensures pending == (if InQuietHours(quiet, hour) then old(pending) else []) && passed == old(passed)
      ensures ok <==> batch != [] && true in accepts
      ensures sent == old(sent) + (if ok then 1 else 0) && failed == old(failed) + (if batch != [] then multiset(accepts)[false] else 0)
    {
      RefusalsCount(accepts);
      if pending == [] || InQuietHours(quiet, hour) {
        return [], false;
      }
      batch := pending;
      FlatAppend(taken, batch);
      taken := taken + [batch];
      pending := [];
      ok := Offer(accepts);
      if ok {
        sent := sent + 1;
      }
    }

    /** Every channel is tried, whatever the others do. */
    method Offer(accepts: seq<bool>) returns (ok: bool)
      modifies this`failed
      ensures ok <==> true in accepts
      ensures failed == old(failed) + Refusals(accepts)
    {
      ok := false;
      for i := 0 to |accepts|
        invariant ok <==> true in accepts[..i]
        invariant failed == old(failed) + Refusals(accepts[..i])
      {
        assert accepts[..i + 1] == accepts[..i] + [accepts[i]];
        assert accepts[..i + 1][..i] == accepts[..i];
        if accepts[i] {
          ok := true;
        } else {
          failed := failed + 1;
        }
      }
      assert accepts[..|accepts|] == accepts;
    }

    /** Notify: queue what passes the severity filter and, in immediate mode outside quiet hours, flush.
        The clock is read once here and once in the flush. */
    method Notify(alerts: seq<Note>, hour: int, flushHour: int, accepts: seq<bool>) returns (batch: seq<Note>, ok: bool)
      requires Valid() && |accepts| == channels
      modifies this
      ensures Valid() && minSeverity == old(minSeverity)
      ensures (State(), batch) == old(Next(alerts, hour, flushHour))
      ensures ok <==> batch != [] && true in accepts
      ensures sent == old(sent) + (if ok then 1 else 0) && failed == old(failed) + (if batch != [] then multiset(accepts)[false] else 0)
    {
      if channels == 0 {
        return [], false;
      }
      var keep: seq<Note> := [];
      for i := 0 to |alerts|
        invariant keep == Passing(alerts[..i], MinRank())
        invariant unchanged(this)
      {
        assert alerts[..i + 1][..i] == alerts[..i];
        if SeverityRank(alerts[i].severity) >= MinRank() {
          keep := keep + [alerts[i]];
        }
      }
      assert alerts[..|alerts|] == alerts;
      if keep == [] {
        return [], false;
      }
      pending := pending + keep;
      passed := passed + keep;
      assert Flat(taken) + (old(pending) + keep) == Flat(taken) + old(pending) + keep;
      if digest == 0 && !InQuietHours(quiet, hour) {
        batch, ok := Flush(flushHour, accepts);
      } else {
        batch, ok := [], false;
      }
    }
  }

  /** A hook into the dispatcher: new alerts, or the timer. */
  datatype Call = Alerts(alerts: seq<Note>, hour: int, flushHour: int) | Timer(hour: int)

  function AfterCall(q: Queue, c: Call, min: nat, channels: nat, digest: int, quiet: Quiet): Queue {
    match c
    case Alerts(alerts, hour, flushHour) => AfterNotify(q, alerts, min, channels, digest, quiet, hour, flushHour).0
    case Timer(hour) => AfterFlush(q, quiet, hour).0
  }

  function AfterCalls(q: Queue, calls: seq<(Call, seq<bool>)>, min: nat, channels: nat, digest: int, quiet: Quiet): Queue {
    if calls == [] then q
    else AfterCall(AfterCalls(q, calls[..|calls| - 1], min, channels, digest, quiet), calls[|calls| - 1].0, min, channels, digest, quiet)
  }

  function AllPassing(calls: seq<(Call, seq<bool>)>, min: nat): seq<Note> {
    if calls == [] then []
    else
      AllPassing(calls[..|calls| - 1], min)
      + if calls[|calls| - 1].0.Alerts? then Passing(calls[|calls| - 1].0.alerts, min) else []
  }

  /** The batches taken, followed by what still waits, are the alerts that passed the filter, in order:
      none is lost, repeated or reordered, whatever the hours and the outcomes. */
  lemma {:induction false} QueueKeepsOrder(q: Queue, calls: seq<(Call, seq<bool>)>, min: nat, channels: nat, digest: int, quiet: Quiet)
    requires Flat(q.taken) + q.pending == q.passed && channels > 0
    ensures var r := AfterCalls(q, calls, min, channels, digest, quiet);
            Flat(r.taken) + r.pending == r.passed == q.passed + AllPassing(calls, min)
    ensures KeptOf(AllPassing(calls, min), Arrived(calls), AtLeast(min))
  {
    hide Flat, AfterCall, KeptOf;
    AllPassingIsKept(calls, min);
    if calls != [] {
      var front, c := calls[..|calls| - 1], calls[|calls| - 1].0;
      QueueKeepsOrder(q, front, min, channels, digest, quiet);
      CallKeepsOrder(AfterCalls(q, front, min, channels, digest, quiet), c, min, channels, digest, quiet);
    }
  }

  /** Every alert the calls bring, in order. */
  function Arrived(calls: seq<(Call, seq<bool>)>): seq<Note> {
    if calls == [] then []
    else Arrived(calls[..|calls| - 1]) + if calls[|calls| - 1].0.Alerts? then calls[|calls| - 1].0.alerts else []
  }

  lemma {:induction false} AllPassingIsKept(calls: seq<(Call, seq<bool>)>, min: nat)
    ensures KeptOf(AllPassing(calls, min), Arrived(calls), AtLeast(min))
  {
    hide KeptOf, AtLeast, Passing;
    KeptNone(AtLeast(min));
    if calls != [] {
      var front, c := calls[..|calls| - 1], calls[|calls| - 1].0;
      AllPassingIsKept(front, min);
      if c.Alerts? {
        PassingIsKept(c.alerts, min);
        KeptAppend(AllPassing(front, min), Arrived(front), Passing(c.alerts, min), c.alerts, AtLeast(min));
      } else {
        assert AllPassing(calls, min) == AllPassing(front, min) && Arrived(calls) == Arrived(front);
      }
    }
  }

  lemma CallKeepsOrder(q: Queue, c: Call, min: nat, channels: nat, digest: int, quiet: Quiet)
    requires Flat(q.taken) + q.pending == q.passed && channels > 0
    ensures var r := AfterCall(q, c, min, channels, digest, quiet);
            Flat(r.taken) + r.pending == r.passed == q.passed + if c.Alerts? then Passing(c.alerts, min) else []
  {
    hide Flat;
  }

  /** In quiet hours no call takes anything. */
  lemma QuietTakesNothing(q: Queue, c: Call, min: nat, channels: nat, digest: int, quiet: Quiet)
    requires InQuietHours(quiet, c.hour)
    ensures AfterCall(q, c, min, channels, digest, quiet).taken == q.taken
  {
  }

  /** Any sequence of notifications and timer ticks. */
  method Run(d: Dispatcher, calls: seq<(Call, seq<bool>)>)
    requires d.Valid()
    requires forall i | 0 <= i < |calls| :: |calls[i].1| == d.channels
    modifies d
    ensures d.Valid()
    ensures d.State() == AfterCalls(old(d.State()), calls, old(d.MinRank()), d.channels, d.digest, d.quiet)
    ensures d.channels > 0 ==> Flat(d.taken) + d.pending == old(d.passed) + AllPassing(calls, old(d.MinRank()))
    ensures KeptOf(AllPassing(calls, old(d.MinRank())), Arrived(calls), AtLeast(old(d.MinRank())))
  {
    hide Flat, AfterNotify, AfterFlush, KeptOf;
    AllPassingIsKept(calls, d.MinRank());
    for i := 0 to |calls|
      invariant d.Valid() && d.minSeverity == old(d.minSeverity)
      invariant d.State() == AfterCalls(old(d.State()), calls[..i], old(d.MinRank()), d.channels, d.digest, d.quiet)
    {
      assert calls[..i + 1][..i] == calls[..i];
      var accepts := calls[i].1;
      match calls[i].0
      case Alerts(alerts, hour, flushHour) =>
        var _, _ := d.Notify(alerts, hour, flushHour, accepts);
      case Timer(hour) =>
        var _, _ := d.Flush(hour, accepts);
    }
    assert calls[..|calls|] == calls;
    if d.channels > 0 {
      QueueKeepsOrder(old(d.State()), calls, old(d.MinRank()), d.channels, d.digest, d.quiet);
    }
  }
}
