/** Books that account for every connection one agent run has ever observed: where each one is, or how it
    was lost (pmacct-agent/src/runner.rs). */
module Bookkeeping {
  import opened Wire
  import opened Aggregation
  import opened Spooling
  import opened Ingest

  /** The only ways a connection is ever lost. */
  datatype Cause = AtCapacity       // the aggregator held max_entries keys
                 | AtSaturation     // the record's u32 counter was full
                 | Evicted          // pushed out of the spool by a newer batch
                 | Overwritten      // the spool file's name was reused
                 | Unspoolable      // larger than the spool, or the disk failed
                 | RejectedByServer // outside the server's time window
                 | ExitedForUpdate  // still in memory when a new binary took over

  datatype Loss = Loss(cause: Cause, conns: seq<ConnRecord>)

  ghost function LossTot(ls: seq<Loss>, k: RowKey): nat {
    if ls == [] then 0 else LossTot(ls[..|ls| - 1], k) + Tot(ls[|ls| - 1].conns, k)
  }

  lemma LossAppend(ls: seq<Loss>, l: Loss, k: RowKey)
    ensures LossTot(ls + [l], k) == LossTot(ls, k) + Tot(l.conns, k)
  {
    assert (ls + [l])[..|ls|] == ls;
  }

  /** Everything one agent run has seen and done, for the accounts. `dup` is what the server stored in
      uploads whose answer was lost; `hand` is a batch between memory and the server or the disk. */
  datatype Books = Books(start: Table, observed: seq<ConnRecord>, dup: seq<ConnRecord>, lost: seq<Loss>)
  {
    ghost predicate Balanced(table: Table, es: Entries, files: seq<SpoolFile>, hand: seq<ConnRecord>) {
      forall k: RowKey :: BalancedAt(table, es, files, hand, k)
    }

    ghost predicate BalancedAt(table: Table, es: Entries, files: seq<SpoolFile>, hand: seq<ConnRecord>, k: RowKey) {
      CountAt(start, k) + Tot(observed, k) + Tot(dup, k)
      == CountAt(table, k) + AggTot(es, k) + Tot(AllConns(files), k) + Tot(hand, k) + LossTot(lost, k)
    }

    function Lose(cause: Cause, conns: seq<ConnRecord>): Books {
      this.(lost := lost + [Loss(cause, conns)])
    }

    function Observe(one: ConnRecord): Books {
      this.(observed := observed + [one])
    }

    function Duplicate(conns: seq<ConnRecord>): Books {
      this.(dup := dup + conns)
    }
  }

  lemma BooksObserve(b: Books, t: Table, es: Entries, es': Entries, fs: seq<SpoolFile>, one: ConnRecord, fate: Fate)
    requires b.Balanced(t, es, fs, []) && Remembered(es, es', one, fate)
    ensures Booked(b, one, fate).Balanced(t, es', fs, [])
  {
    var b', c := Booked(b, one, fate), if fate.Dropped? then AtCapacity else AtSaturation;
    forall k: RowKey ensures b'.BalancedAt(t, es', fs, [], k) {
      assert b.BalancedAt(t, es, fs, [], k);
      TotAppend(b.observed, [one], k);
      TotOne(one, k);
      LossAppend(b.lost, Loss(c, [one]), k);
    }
  }

  /** The books after one observation. */
  function Booked(b: Books, one: ConnRecord, fate: Fate): (b': Books)
    ensures b'.start == b.start && b'.dup == b.dup && b'.observed == b.observed + [one]
  {
    match fate
    case Dropped => b.Observe(one).Lose(AtCapacity, [one])
    case Saturated => b.Observe(one).Lose(AtSaturation, [one])
    case _ => b.Observe(one)
  }

  lemma BooksDrain(b: Books, t: Table, es: Entries, es': Entries, fs: seq<SpoolFile>, out: seq<ConnRecord>)
    requires b.Balanced(t, es, fs, []) && Conserved(out, es', es)
    ensures b.Balanced(t, es', fs, out)
  {
    forall k: RowKey ensures b.BalancedAt(t, es', fs, out, k) {
      assert b.BalancedAt(t, es, fs, [], k);
    }
  }

  /** A stored upload: acknowledged, the batch is gone from the agent; unacknowledged, it is still in
      hand and its kept rows are counted twice. */
  lemma BooksApplied(b: Books, t: Table, t': Table, es: Entries, fs: seq<SpoolFile>, hand: seq<ConnRecord>, now: int)
    requires b.Balanced(t, es, fs, hand)
    requires forall k: RowKey :: CountAt(t', k) == CountAt(t, k) + Tot(Kept(hand, now), k)
    ensures b.Lose(RejectedByServer, Refused(hand, now)).Balanced(t', es, fs, [])
    ensures b.Duplicate(Kept(hand, now)).Balanced(t', es, fs, hand)
  {
    var refused, kept := Refused(hand, now), Kept(hand, now);
    forall k: RowKey
      ensures b.Lose(RejectedByServer, refused).BalancedAt(t', es, fs, [], k)
      ensures b.Duplicate(kept).BalancedAt(t', es, fs, hand, k)
    {
      assert b.BalancedAt(t, es, fs, hand, k);
      KeptPlusRefused(hand, now, k);
      LossAppend(b.lost, Loss(RejectedByServer, refused), k);
      TotAppend(b.dup, kept, k);
    }
  }

  /** Pushing the batch in hand onto the spool. */
  lemma BooksPush(b: Books, t: Table, es: Entries, fs: seq<SpoolFile>, f: SpoolFile, e: nat)
    requires e <= |fs| && f.content.Readable? && b.Balanced(t, es, fs, f.content.batch.conns)
    ensures b.Lose(Evicted, AllConns(fs[..e])).Lose(Overwritten, AllConns(Clobbered(fs[e..], f)))
            .Balanced(t, es, Written(fs[e..], f), [])
    ensures b.Lose(Evicted, AllConns(fs[..e])).Lose(Unspoolable, f.content.batch.conns).Balanced(t, es, fs[e..], [])
  {
    hide Books.BalancedAt, AllConns, Clobbered, Written;
    forall k: RowKey
      ensures b.Lose(Evicted, AllConns(fs[..e])).Lose(Overwritten, AllConns(Clobbered(fs[e..], f))).BalancedAt(t, es, Written(fs[e..], f), [], k)
      ensures b.Lose(Evicted, AllConns(fs[..e])).Lose(Unspoolable, f.content.batch.conns).BalancedAt(t, es, fs[e..], [], k)
    {
      BooksPushAt(b, t, es, fs, f, e, k);
    }
  }

  lemma BooksPushAt(b: Books, t: Table, es: Entries, fs: seq<SpoolFile>, f: SpoolFile, e: nat, k: RowKey)
    requires e <= |fs| && f.content.Readable? && b.BalancedAt(t, es, fs, f.content.batch.conns, k)
    ensures b.Lose(Evicted, AllConns(fs[..e])).Lose(Overwritten, AllConns(Clobbered(fs[e..], f))).BalancedAt(t, es, Written(fs[e..], f), [], k)
    ensures b.Lose(Evicted, AllConns(fs[..e])).Lose(Unspoolable, f.content.batch.conns).BalancedAt(t, es, fs[e..], [], k)
  {
    hide AllConns, Clobbered, Written, AggTot, CountAt, LossTot, Tot, Books.BalancedAt;
    BooksEvictAt(b, t, es, fs, f.content.batch.conns, e, k);
    var b1 := b.Lose(Evicted, AllConns(fs[..e]));
    BooksWriteAt(b1, t, es, fs[e..], f, k);
    BooksDropAt(b1, t, es, fs[e..], f.content.batch.conns, k);
  }

  lemma BooksEvictAt(b: Books, t: Table, es: Entries, fs: seq<SpoolFile>, hand: seq<ConnRecord>, e: nat, k: RowKey)
    requires e <= |fs| && b.BalancedAt(t, es, fs, hand, k)
    ensures b.Lose(Evicted, AllConns(fs[..e])).BalancedAt(t, es, fs[e..], hand, k)
  {
    hide AllConns, AggTot, CountAt, LossTot, Tot;
    assert fs == fs[..e] + fs[e..];
    AllConnsAppend(fs[..e], fs[e..]);
    TotAppend(AllConns(fs[..e]), AllConns(fs[e..]), k);
    LossAppend(b.lost, Loss(Evicted, AllConns(fs[..e])), k);
  }

  lemma BooksWriteAt(b: Books, t: Table, es: Entries, fs: seq<SpoolFile>, f: SpoolFile, k: RowKey)
    requires f.content.Readable? && b.BalancedAt(t, es, fs, f.content.batch.conns, k)
    ensures b.Lose(Overwritten, AllConns(Clobbered(fs, f))).BalancedAt(t, es, Written(fs, f), [], k)
  {
    hide AllConns, Clobbered, Written, AggTot, CountAt, LossTot;
    WrittenConns(fs, f, k);
    LossAppend(b.lost, Loss(Overwritten, AllConns(Clobbered(fs, f))), k);
  }

  lemma BooksDropAt(b: Books, t: Table, es: Entries, fs: seq<SpoolFile>, hand: seq<ConnRecord>, k: RowKey)
    requires b.BalancedAt(t, es, fs, hand, k)
    ensures b.Lose(Unspoolable, hand).BalancedAt(t, es, fs, [], k)
  {
    hide AllConns, AggTot, CountAt, LossTot;
    LossAppend(b.lost, Loss(Unspoolable, hand), k);
  }

  /** Taking the oldest file off the spool puts its connections in hand, and back. */
  lemma BooksTakeHead(b: Books, t: Table, es: Entries, fs: seq<SpoolFile>)
    requires fs != []
    ensures b.Balanced(t, es, fs, []) <==> b.Balanced(t, es, fs[1..], Conns(fs[0]))
  {
    forall k: RowKey ensures b.BalancedAt(t, es, fs, [], k) <==> b.BalancedAt(t, es, fs[1..], Conns(fs[0]), k) {
      TotAppend(Conns(fs[0]), AllConns(fs[1..]), k);
    }
    if b.Balanced(t, es, fs, []) {
      forall k: RowKey ensures b.BalancedAt(t, es, fs[1..], Conns(fs[0]), k) {
        assert b.BalancedAt(t, es, fs, [], k);
      }
    }
    if b.Balanced(t, es, fs[1..], Conns(fs[0])) {
      forall k: RowKey ensures b.BalancedAt(t, es, fs, [], k) {
        assert b.BalancedAt(t, es, fs[1..], Conns(fs[0]), k);
      }
    }
  }

  ghost function MemoryConns(es: Entries): (rs: seq<ConnRecord>)
    decreases |es|
  {
    if es == map[] then []
    else
      var x :| x in es;
      [es[x]] + MemoryConns(es - {x})
  }

  lemma {:induction false} MemoryConnsTot(es: Entries, k: RowKey)
    ensures Tot(MemoryConns(es), k) == AggTot(es, k)
    decreases |es|
  {
    if es != map[] {
      var x :| x in es && MemoryConns(es) == [es[x]] + MemoryConns(es - {x});
      assert MemoryConns(es)[1..] == MemoryConns(es - {x});
      MemoryConnsTot(es - {x}, k);
      AggTotRemove(es, x, k);
    }
  }

  lemma BooksExit(b: Books, t: Table, es: Entries, fs: seq<SpoolFile>)
    requires b.Balanced(t, es, fs, [])
    ensures b.Lose(ExitedForUpdate, MemoryConns(es)).Balanced(t, map[], fs, [])
  {
    forall k: RowKey ensures b.Lose(ExitedForUpdate, MemoryConns(es)).BalancedAt(t, map[], fs, [], k) {
      assert b.BalancedAt(t, es, fs, [], k);
      MemoryConnsTot(es, k);
      LossAppend(b.lost, Loss(ExitedForUpdate, MemoryConns(es)), k);
    }
  }

  /** How many losses the aggregator's own counter knows of. */
  function CapacityLosses(ls: seq<Loss>): nat {
    if ls == [] then 0 else CapacityLosses(ls[..|ls| - 1]) + if ls[|ls| - 1].cause == AtCapacity then 1 else 0
  }

  lemma CapacityAppend(ls: seq<Loss>, l: Loss)
    ensures CapacityLosses(ls + [l]) == CapacityLosses(ls) + if l.cause == AtCapacity then 1 else 0
  {
    assert (ls + [l])[..|ls|] == ls;
  }

  /** The books after an upload. */
  ghost function AfterUpload(b: Books, t: Table, batch: EventsBatch, now: int, fault: Fault): Books {
    if fault == NotApplied || !Storable(t, batch, now) then b
    else if fault == NoFault then b.Lose(RejectedByServer, Refused(batch.conns, now))
    else b.Duplicate(Kept(batch.conns, now))
  }

  lemma UploadCapacity(b: Books, t: Table, batch: EventsBatch, now: int, fault: Fault)
    ensures CapacityLosses(AfterUpload(b, t, batch, now, fault).lost) == CapacityLosses(b.lost)
    ensures AfterUpload(b, t, batch, now, fault).start == b.start && AfterUpload(b, t, batch, now, fault).observed == b.observed
    ensures fault != AckLost ==> AfterUpload(b, t, batch, now, fault).dup == b.dup
  {
    CapacityAppend(b.lost, Loss(RejectedByServer, Refused(batch.conns, now)));
  }

  /** Reading the books at the end of a run. */
  lemma Settle(b: Books, t: Table, es: Entries, fs: seq<SpoolFile>, acked: bool)
    requires b.Balanced(t, es, fs, []) && (acked ==> b.dup == [])
    ensures forall k: RowKey ::
              CountAt(t, k) >= CountAt(b.start, k) + Tot(b.observed, k) - AggTot(es, k) - Tot(AllConns(fs), k) - LossTot(b.lost, k)
    ensures acked ==>
              forall k: RowKey ::
                CountAt(t, k) == CountAt(b.start, k) + Tot(b.observed, k) - AggTot(es, k) - Tot(AllConns(fs), k) - LossTot(b.lost, k)
  {
    forall k: RowKey
      ensures CountAt(t, k) == CountAt(b.start, k) + Tot(b.observed, k) + Tot(b.dup, k) - AggTot(es, k) - Tot(AllConns(fs), k) - LossTot(b.lost, k)
    {
      assert b.BalancedAt(t, es, fs, [], k);
    }
  }

  lemma SameConns(b: Books, t: Table, es: Entries, fs: seq<SpoolFile>, fs': seq<SpoolFile>)
    requires b.Balanced(t, es, fs, []) && AllConns(fs) == AllConns(fs')
    ensures b.Balanced(t, es, fs', [])
  {
    forall k: RowKey ensures b.BalancedAt(t, es, fs', [], k) {
      assert b.BalancedAt(t, es, fs, [], k);
    }
  }

  lemma NothingInHand(b: Books, t: Table, es: Entries, fs: seq<SpoolFile>, hand: seq<ConnRecord>)
    requires b.Balanced(t, es, fs, hand) && hand == []
    ensures b.Balanced(t, es, fs, [])
  {
  }
}
