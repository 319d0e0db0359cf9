/** agent-core/src/spool.rs: batches kept on disk while the server is unreachable, one file each,
    bounded in count and in bytes, oldest dropped first. */
module Spooling {
  import opened Selection
  import opened Wire

  /** A file either parses as a batch or does not. */
  datatype Content = Readable(batch: EventsBatch) | Corrupt

  /** File names are time stamps, so the directory listing is ordered by `stamp`. */
  datatype SpoolFile = SpoolFile(stamp: int, size: nat, content: Content)

  ghost predicate Listed(files: seq<SpoolFile>) {
    forall i, j | 0 <= i < j < |files| :: files[i].stamp < files[j].stamp
  }

  function Bytes(files: seq<SpoolFile>): nat {
    if files == [] then 0 else files[0].size + Bytes(files[1..])
  }

  /** Both caps hold for these files. */
  predicate WithinCaps(files: seq<SpoolFile>, maxFiles: nat, maxBytes: nat) {
    |files| <= maxFiles && Bytes(files) <= maxBytes
  }

  /** What a listing holds after a file is written: a new name takes its place in the order, an
      existing name is overwritten. */
  function Written(files: seq<SpoolFile>, f: SpoolFile): (r: seq<SpoolFile>)
    ensures f in r
    ensures forall g <- r :: g == f || g in files
  {
    if files == [] || f.stamp < files[0].stamp then [f] + files
    else if f.stamp == files[0].stamp then [f] + files[1..]
    else [files[0]] + Written(files[1..], f)
  }

  /** The files a write destroys: at most one, with the same stamp. */
  function Clobbered(files: seq<SpoolFile>, f: SpoolFile): (r: seq<SpoolFile>)
    ensures |r| <= 1 && forall g <- r :: g in files && g.stamp == f.stamp
  {
    if files == [] || f.stamp < files[0].stamp then []
    else if f.stamp == files[0].stamp then [files[0]]
    else Clobbered(files[1..], f)
  }

  lemma ListedTail(files: seq<SpoolFile>)
    requires Listed(files) && files != []
    ensures Listed(files[1..])
  {
  }

  lemma {:induction false} WrittenListed(files: seq<SpoolFile>, f: SpoolFile)
    requires Listed(files)
    ensures Listed(Written(files, f))
  {
    if files != [] && f.stamp > files[0].stamp {
      WrittenListed(files[1..], f);
      var w := Written(files[1..], f);
      forall j | 0 <= j < |w| ensures files[0].stamp < w[j].stamp {
        assert w[j] in w;
      }
    }
  }

  /** A write leaves the new file and every file of another stamp, and destroys those of the same one. */
  lemma {:induction false} WrittenIs(files: seq<SpoolFile>, f: SpoolFile, g: SpoolFile)
    requires Listed(files)
    ensures g in Written(files, f) <==> g == f || (g in files && g.stamp != f.stamp)
    ensures g in Clobbered(files, f) <==> g in files && g.stamp == f.stamp
  {
    if files != [] {
      assert g in files <==> g == files[0] || g in files[1..];
      assert forall h <- files[1..] :: h.stamp > files[0].stamp;
      if f.stamp > files[0].stamp {
        WrittenIs(files[1..], f, g);
      }
    }
  }

  /** With stamps that increase, a write appends. */
  lemma {:induction false} WrittenNewest(files: seq<SpoolFile>, f: SpoolFile)
    requires forall g <- files :: g.stamp < f.stamp
    ensures Written(files, f) == files + [f] && Clobbered(files, f) == []
  {
    if files != [] {
      assert files[0] in files;
      WrittenNewest(files[1..], f);
      assert files + [f] == [files[0]] + (files[1..] + [f]);
    }
  }

  lemma {:induction false} BytesAppend(a: seq<SpoolFile>, b: seq<SpoolFile>)
    ensures Bytes(a + b) == Bytes(a) + Bytes(b)
  {
    if a == [] {
      assert a + b == b;
    } else {
      assert (a + b)[1..] == a[1..] + b;
      BytesAppend(a[1..], b);
    }
  }

  // ---- what the files carry ----

  function Conns(f: SpoolFile): seq<ConnRecord> {
    if f.content.Readable? then f.content.batch.conns else []
  }

  function AllConns(files: seq<SpoolFile>): seq<ConnRecord> {
    if files == [] then [] else Conns(files[0]) + AllConns(files[1..])
  }

  lemma {:induction false} AllConnsAppend(a: seq<SpoolFile>, b: seq<SpoolFile>)
    ensures AllConns(a + b) == AllConns(a) + AllConns(b)
  {
    if a == [] {
      assert a + b == b;
    } else {
      assert (a + b)[1..] == a[1..] + b;
      AllConnsAppend(a[1..], b);
    }
  }

  lemma {:induction false} WrittenConns(files: seq<SpoolFile>, f: SpoolFile, k: RowKey)
    ensures Tot(AllConns(Written(files, f)), k) + Tot(AllConns(Clobbered(files, f)), k)
            == Tot(AllConns(files), k) + Tot(Conns(f), k)
  {
    var w := Written(files, f);
    if files == [] || f.stamp < files[0].stamp {
      assert w[1..] == files;
      TotAppend(Conns(f), AllConns(files), k);
    } else if f.stamp == files[0].stamp {
      assert w[1..] == files[1..];
      TotAppend(Conns(f), AllConns(files[1..]), k);
      TotAppend(Conns(files[0]), AllConns(files[1..]), k);
      assert AllConns([files[0]]) == Conns(files[0]);
    } else {
      assert w[1..] == Written(files[1..], f);
      WrittenConns(files[1..], f, k);
      TotAppend(Conns(files[0]), AllConns(w[1..]), k);
      TotAppend(Conns(files[0]), AllConns(files[1..]), k);
    }
  }

  /** The batches that can still be uploaded, oldest first. */
  function Batches(files: seq<SpoolFile>): (r: seq<EventsBatch>)
    ensures |r| <= |files|
  {
    if files == [] then []
    else if files[0].content.Corrupt? then Batches(files[1..])
    else [files[0].content.batch] + Batches(files[1..])
  }

  ghost predicate CanBeRead(f: SpoolFile) {
    f.content.Readable?
  }

  /** They are the batches of the readable files, all of them and in order. */
  lemma {:induction false} BatchesAre(files: seq<SpoolFile>) returns (kept: seq<SpoolFile>)
    ensures KeptOf(kept, files, CanBeRead) && |Batches(files)| == |kept|
    ensures forall i | 0 <= i < |kept| :: kept[i].content == Readable(Batches(files)[i])
  {
    hide KeptOf;
    if files == [] {
      kept := [];
      KeptNone(CanBeRead);
    } else {
      kept := BatchesAre(files[1..]);
      KeptCons(kept, files[1..], files[0], CanBeRead);
      assert files == [files[0]] + files[1..];
      kept := if CanBeRead(files[0]) then [files[0]] + kept else kept;
    }
  }

  lemma HeadBatch(files: seq<SpoolFile>)
    requires files != [] && files[0].content.Readable?
    ensures Batches(files) != [] && Batches(files)[0] == files[0].content.batch && Batches(files[1..]) == Batches(files)[1..]
    ensures Conns(files[0]) == files[0].content.batch.conns
  {
  }

  // ---- pushing ----

  /** How a push touches the disk: the directory cannot be listed, the new file cannot be written, or
      all goes well. */
  datatype Disk = Works | ListFails | WriteFails

  /** e is the number of files a push of `size` bytes evicts: the fewest that make room. */
  ghost predicate Evicts(files: seq<SpoolFile>, size: nat, maxFiles: nat, maxBytes: nat, e: nat) {
    && e <= |files|
    && (e == |files| || (|files| - e < maxFiles && Bytes(files[e..]) + size <= maxBytes))
    && forall i | 0 <= i < e :: !(|files| - i < maxFiles && Bytes(files[i..]) + size <= maxBytes)
  }

  /** That number, computed. */
  function EvictCount(files: seq<SpoolFile>, size: nat, maxFiles: nat, maxBytes: nat): (e: nat)
    ensures e <= |files|
  {
    if files == [] || (|files| < maxFiles && Bytes(files) + size <= maxBytes) then 0
    else 1 + EvictCount(files[1..], size, maxFiles, maxBytes)
  }

  lemma {:induction false} EvictCountEvicts(files: seq<SpoolFile>, size: nat, maxFiles: nat, maxBytes: nat)
    ensures Evicts(files, size, maxFiles, maxBytes, EvictCount(files, size, maxFiles, maxBytes))
  {
    if files != [] && !(|files| < maxFiles && Bytes(files) + size <= maxBytes) {
      EvictCountEvicts(files[1..], size, maxFiles, maxBytes);
      var e := EvictCount(files[1..], size, maxFiles, maxBytes);
      assert files[1..][e..] == files[1 + e..];
      forall i | 0 <= i < 1 + e ensures !(|files| - i < maxFiles && Bytes(files[i..]) + size <= maxBytes) {
        if i == 0 {
          assert files[0..] == files;
        } else {
          assert files[1..][i - 1..] == files[i..];
        }
      }
    }
  }

  /** The files from the first readable one on. */
  function Trimmed(files: seq<SpoolFile>): (r: seq<SpoolFile>)
    ensures r != [] ==> r[0].content.Readable?
    ensures |r| <= |files| && r == files[|files| - |r|..]
  {
    if files != [] && files[0].content.Corrupt? then Trimmed(files[1..]) else files
  }

  /** Nothing readable is trimmed off. */
  lemma {:induction false} TrimmedBatches(files: seq<SpoolFile>)
    ensures Batches(Trimmed(files)) == Batches(files) && AllConns(Trimmed(files)) == AllConns(files)
    ensures Trimmed(files) == [] <==> Batches(files) == []
  {
    if files != [] && files[0].content.Corrupt? {
      TrimmedBatches(files[1..]);
    }
  }

  lemma ListedSuffix(files: seq<SpoolFile>, n: nat)
    requires Listed(files) && n <= |files|
    ensures Listed(files[n..])
  {
  }

  class Spool {
    var files: seq<SpoolFile>
    const maxFiles: nat
    const maxBytes: nat

    ghost predicate Valid()
      reads this
    {
      Listed(files) && maxBytes >= 1
    }

    constructor (existing: seq<SpoolFile>, maxFiles: nat, maxBytes: nat)
      requires Listed(existing)
      ensures Valid() && files == existing
      ensures this.maxFiles == maxFiles && this.maxBytes == if maxBytes < 1 then 1 else maxBytes
    {
      files, this.maxFiles, this.maxBytes := existing, maxFiles, if maxBytes < 1 then 1 else maxBytes;
    }

    /** Stores a batch of `size` bytes, first evicting the oldest files until both caps have room. An
        oversize batch is refused and changes nothing. Nothing is assumed about the stamps: a clock
        that repeats a stamp overwrites that file. */
    method Push(batch: EventsBatch, size: nat, stamp: int, disk: Disk) returns (ok: bool, ghost e: nat)
      requires Valid()
      modifies this`files
      ensures Valid()
      ensures ok <==> size <= maxBytes && disk == Works
      ensures disk == ListFails || size > maxBytes ==> e == 0 && files == old(files)
      ensures disk != ListFails && size <= maxBytes ==> Evicts(old(files), size, maxFiles, maxBytes, e)
      ensures e <= |old(files)|
      ensures files == if ok then Written(old(files)[e..], SpoolFile(stamp, size, Readable(batch))) else old(files)[e..]
    {
      hide Listed, Written, Evicts;
      e := 0;
      if disk == ListFails || size > maxBytes {
        return false, 0;
      }
      e := MakeRoom(size);
      if disk == WriteFails {
        return false, e;
      }
      var f := SpoolFile(stamp, size, Readable(batch));
      WrittenListed(files, f);
      files := Written(files, f);
      return true, e;
    }

    /** The oldest files go until both caps have room for another. */
    method MakeRoom(size: nat) returns (ghost e: nat)
      requires Valid()
      modifies this`files
      ensures Valid() && e <= |old(files)| && Evicts(old(files), size, maxFiles, maxBytes, e) && files == old(files)[e..]
    {
      hide Listed;
      e := 0;
      var left := files;
      var total := Bytes(left);
      while left != [] && (|left| >= maxFiles || total + size > maxBytes)
        invariant e <= |old(files)| && left == old(files)[e..] == files
        invariant total == Bytes(left) && Listed(left)
        invariant forall i | 0 <= i < e :: !(|old(files)| - i < maxFiles && Bytes(old(files)[i..]) + size <= maxBytes)
        decreases |left|
      {
        ListedTail(left);
        var oldest := left[0];
        left := left[1..];
        total := total - oldest.size;
        files := left;
        e := e + 1;
      }
    }

    /** The oldest batch that parses; corrupt files in front of it are deleted. */
    method Peek() returns (r: seq<SpoolFile>)
      requires Valid()
      modifies this`files
      ensures Valid()
      ensures files == Trimmed(old(files))
      ensures Batches(files) == old(Batches(files)) && AllConns(files) == old(AllConns(files))
      ensures r == [] <==> old(Batches(files)) == []
      ensures r == [] ==> files == []
      ensures r != [] ==> |r| == 1 && files != [] && r[0] == files[0] && r[0].content.Readable?
    {
      hide Listed, Bytes, Batches, AllConns;
      TrimmedBatches(files);
      ListedSuffix(files, |files| - |Trimmed(files)|);
      while files != [] && files[0].content.Corrupt?
        invariant Trimmed(files) == Trimmed(old(files))
        decreases |files|
      {
        files := files[1..];
      }
      if files == [] {
        return [];
      }
      return [files[0]];
    }

    method Remove(f: SpoolFile)
      requires Valid() && files != [] && files[0] == f
      modifies this`files
      ensures Valid() && files == old(files)[1..]
    {
      files := files[1..];
    }
  }

  // ---- the main results about a push ----

  /** With increasing stamps and a count cap of at least one, what a successful push leaves is the
      longest suffix of the old files followed by the new batch that meets both caps. With a count
      cap of zero the new file is kept all the same, and the cap is broken. */
  lemma PushLeavesLongestSuffix(files: seq<SpoolFile>, f: SpoolFile, maxFiles: nat, maxBytes: nat, e: nat)
    requires f.size <= maxBytes && Evicts(files, f.size, maxFiles, maxBytes, e)
    requires forall g <- files :: g.stamp < f.stamp
    ensures Written(files[e..], f) == (files + [f])[e..]
    ensures WithinCaps((files + [f])[e..], maxFiles, maxBytes) <==> maxFiles >= 1
    ensures forall i | 0 <= i < e :: !WithinCaps((files + [f])[i..], maxFiles, maxBytes)
  {
    WrittenNewest(files[e..], f);
    forall i | 0 <= i <= |files| ensures (files + [f])[i..] == files[i..] + [f] && Bytes(files[i..] + [f]) == Bytes(files[i..]) + f.size {
      BytesAppend(files[i..], [f]);
      assert [f][1..] == [];
    }
    if e == |files| {
      assert files[e..] == [];
    }
  }

  /** The eviction count is determined by the files and the caps, so a push has one outcome. */
  lemma EvictsUnique(files: seq<SpoolFile>, size: nat, maxFiles: nat, maxBytes: nat, e1: nat, e2: nat)
    requires Evicts(files, size, maxFiles, maxBytes, e1) && Evicts(files, size, maxFiles, maxBytes, e2)
    ensures e1 == e2
  {
  }
}
