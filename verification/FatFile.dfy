/**
 File operations of fat_file.c and the chain-freeing loops of fat_fuse_ops.c over a FAT volume.

 Files and directories are named by numbers; `start` and `size` are the two directory-entry fields
 the code interprets. A call gets the place of the file's entry, and the rest of it as it is once
 the clock has been written there. Disk reads and writes succeed.
 */
module FatFile {
  import opened Arith
  import opened ByteSeq
  import opened FatBytes
  import opened FatChain
  import opened FatEntry
  import opened Params

  /** The table has a free entry past the data clusters, so the scan for a free entry stops. */
  ghost predicate HasSlack(fat: Table, n: int) {
    exists i :: 0 <= n + 2 <= i < |fat| && fat[i] == FREE
  }

  ghost predicate NoFreeCluster(fat: Table, n: int) {
    forall c :: DataCluster(n, c) && c < |fat| ==> fat[c] != FREE
  }

  ghost function FreeClusters(fat: Table, n: int): set<int> {
    set c | 0 <= c < |fat| && DataCluster(n, c) && fat[c] == FREE
  }

  lemma NoneFreeIff(fat: Table, n: int)
    ensures NoFreeCluster(fat, n) <==> |FreeClusters(fat, n)| == 0
  {
    if |FreeClusters(fat, n)| == 0 {
      forall c | DataCluster(n, c) && c < |fat|
        ensures fat[c] != FREE
      {
        assert c !in FreeClusters(fat, n);
      }
    } else {
      var c :| c in FreeClusters(fat, n);
    }
  }

  /** A cluster linked in behind another is one less that is free. */
  lemma OneLessFree(fat: Table, n: int, last: int, next: int)
    requires 0 <= last < |fat| && 0 <= next < |fat| && fat[last] != FREE && DataCluster(n, next) && fat[next] == FREE
    ensures |FreeClusters(fat[last := next][next := EOC_MAX], n)| == |FreeClusters(fat, n)| - 1
  {
    assert FreeClusters(fat[last := next][next := EOC_MAX], n) == FreeClusters(fat, n) - {next};
  }

  /**
   Chain has been lengthened from chain0: clusters that were free have been linked behind it, each the first one
   that was free, and the last one ends the chain; no other entry of the table has changed.
   */
  ghost predicate Grew(fat0: Table, fat: Table, chain0: Chain, chain: Chain) {
    && |fat| == |fat0| && chain0 <= chain && (chain == chain0 ==> fat == fat0)
    && (forall c :: 0 <= c < |fat| && c !in chain ==> fat[c] == fat0[c])
    && (forall i :: |chain0| <= i < |chain| ==> FirstOne(fat0, chain, i))
    && (|chain0| < |chain| ==> 0 <= chain[|chain| - 1] < |fat| && fat[chain[|chain| - 1]] == 0x0FFF_FFFF)
  }

  /** The cluster at position i of the chain is free in fat0, and those in front that are free are in the chain. */
  ghost predicate FirstOne(fat0: Table, chain: Chain, i: int)
    requires 0 <= i < |chain|
  {
    && 0 <= chain[i] < |fat0| && fat0[chain[i]] == FREE
    && forall c :: 2 <= c < chain[i] && fat0[c] == FREE ==> c in chain[..i]
  }

  lemma GrewNone(fat: Table, chain: Chain)
    ensures Grew(fat, fat, chain, chain)
  {
  }

  lemma GrewOne(fat0: Table, fat: Table, chain: Chain, next: int)
    requires chain != [] && 0 <= chain[|chain| - 1] < |fat0| && 0 <= next < |fat0| && fat0[next] == FREE
    requires forall i :: 2 <= i < next ==> fat0[i] != FREE
    requires fat == fat0[chain[|chain| - 1] := next][next := EOC_MAX]
    ensures Grew(fat0, fat, chain, chain + [next])
  {
    var last := chain[|chain| - 1];
    assert last in chain;
    forall c | 0 <= c < |fat| && c !in chain + [next]
      ensures fat[c] == fat0[c]
    {
      assert next in chain + [next] && last in chain + [next];
    }
  }

  lemma GrewJoin(fat0: Table, fat1: Table, fat2: Table, chain0: Chain, chain1: Chain, chain2: Chain)
    requires Grew(fat0, fat1, chain0, chain1) && Grew(fat1, fat2, chain1, chain2) && Distinct(chain2)
    ensures Grew(fat0, fat2, chain0, chain2)
  {
    assert forall c :: c in chain1 ==> c in chain2;
    forall i | |chain0| <= i < |chain2|
      ensures FirstOne(fat0, chain2, i)
    {
      if i < |chain1| {
        assert FirstOne(fat0, chain1, i) && chain2[..i] == chain1[..i] && chain2[i] == chain1[i];
      } else {
        FirstJoin(fat0, fat1, chain1, chain2, i);
      }
    }
  }

  lemma FirstJoin(fat0: Table, fat1: Table, chain1: Chain, chain2: Chain, i: int)
    requires |fat0| == |fat1| && chain1 <= chain2 && Distinct(chain2) && |chain1| <= i < |chain2|
    requires forall c :: 0 <= c < |fat1| && c !in chain1 ==> fat1[c] == fat0[c]
    requires FirstOne(fat1, chain2, i)
    ensures FirstOne(fat0, chain2, i)
  {
    assert chain2[i] !in chain1 by {
      assert forall j :: 0 <= j < |chain1| ==> chain1[j] == chain2[j];
    }
    forall c | 2 <= c < chain2[i] && fat0[c] == FREE
      ensures c in chain2[..i]
    {
      if c in chain1 {
        assert chain2[..i] == chain1 + chain2[|chain1|..i];
      }
    }
  }

  /** How much of len bytes at offset fits in a file that can have cap bytes. */
  function Fits(cap: int, len: int, offset: int): int {
    if offset + len <= cap then len else cap - offset
  }

  /** What fat_table_get_next_free_cluster answers when its scan has come to entry c. */
  function NextFreeFrom(fat: Table, n: int, c: int): int
    requires 0 <= c <= |fat|
    decreases |fat| - c
  {
    if c == |fat| then EOC_MAX
    else if fat[c] != FREE then NextFreeFrom(fat, n, c + 1)
    else if IsClusterNumber(n, c) then c
    else EOC_MAX
  }

  /** It is the first data cluster from c on that is free, if there is one. */
  lemma {:induction false} FreeFromIs(fat: Table, n: int, c: int)
    requires 2 <= c <= |fat|
    ensures var r := NextFreeFrom(fat, n, c);
      if forall i :: c <= i < |fat| && DataCluster(n, i) ==> fat[i] != FREE then r == EOC_MAX
      else c <= r < |fat| && DataCluster(n, r) && fat[r] == FREE && forall i :: c <= i < r ==> fat[i] != FREE
    decreases |fat| - c
  {
    if c < |fat| && fat[c] != FREE {
      FreeFromIs(fat, n, c + 1);
    }
  }

  /**
   fat_file_init looks up whether the cluster it was given is in use before it can report ENOSPC.
   That entry lies inside the table if and only if there is a free cluster, or the table is so
   large that the end-of-chain mark itself is an index.
   */
  lemma LookupInsideIff(fat: Table, n: int, chains: seq<Chain>, owner: seq<int>, pos: seq<int>)
    requires TableOk(fat, n, chains, owner, pos) && HasSlack(fat, n)
    ensures 0 <= NextFreeFrom(fat, n, 2) < |fat| <==> !NoFreeCluster(fat, n) || |fat| > 0x0FFF_FFFF
  {
    FreeFromIs(fat, n, 2);
  }

  /** A table of n data clusters, all in one chain, and free entries behind them. */
  function FullTable(n: int, size: int): (fat: Table)
    requires 1 <= n && n + 2 < size
    ensures |fat| == size
  {
    seq(size, c => if c < 2 || c == n + 1 then EOC_MAX else if c < n + 1 then c + 1 else FREE)
  }

  /** On a full volume, of any number of clusters and any length of the table, the lookup reads past the table's end. */
  lemma FullTableLookup(n: int, size: int)
    requires 1 <= n && n + 2 <= BAD_SECTOR && n + 2 < size <= 0x0FFF_FFFF
    ensures var fat, chain := FullTable(n, size), seq(n, i => i + 2);
      && TableOk(fat, n, [chain], seq(n + 2, c => if c < 2 then NOBODY else 0), seq(n + 2, c => c - 2))
      && HasSlack(fat, n) && NoFreeCluster(fat, n) && NextFreeFrom(fat, n, 2) >= |fat|
  {
    var fat, chain := FullTable(n, size), seq(n, i => i + 2);
    var owner, pos := seq(n + 2, c => if c < 2 then NOBODY else 0), seq(n + 2, c => c - 2);
    assert fat[n + 2] == FREE;
    assert ChainOk(fat, n, chain) && Owned(owner, pos, n, 0, chain);
    LookupInsideIff(fat, n, [chain], owner, pos);
    FreeFromIs(fat, n, 2);
  }

  /**
   How fat_file_init ends: with a file; with ENOSPC; reading past the end of the table, where C
   promises nothing; or with an entry whose start is the end-of-chain mark.
   */
  datatype Init = Made(f: int) | NoSpace | PastTable | Stray

  /** The directory entry of a file with this chain. */
  ghost predicate EntryOk(g: Geometry, chain: Chain, start: int, size: int) {
    && (if chain == [] then start == 0 else chain[0] == start)
    && 0 <= size < UINT_LIMIT && size <= Cap(g, |chain|)
  }

  lemma SlackKept(fat: Table, fat': Table, n: int)
    requires HasSlack(fat, n) && |fat| == |fat'|
    requires forall i :: 0 <= n + 2 <= i < |fat| ==> fat'[i] == fat[i]
    ensures HasSlack(fat', n)
  {
  }

  /** The first done bytes of a buffer. */
  function Taken(buf: Bytes, done: int): (r: Bytes)
    requires 0 <= done <= |buf|
    ensures |r| == done
  {
    buf[..done]
  }

  lemma TakenJoin(buf: Bytes, done: int, upto: int)
    requires 0 <= done <= upto <= |buf|
    ensures Taken(buf, done) + buf[done..upto] == Taken(buf, upto)
  {
  }

  /** get_next follows the chain. */
  lemma NextInChain(fat: Table, n: int, chains: seq<Chain>, owner: seq<int>, pos: seq<int>, f: int, i: int)
    requires TableOk(fat, n, chains, owner, pos) && 0 <= f < |chains| && 0 <= i < |chains[f]|
    ensures 0 <= chains[f][i] < |fat| && DataCluster(n, chains[f][i]) && chains[f][i] < EOC_MIN
    ensures GetNext(fat, n, chains[f][i]) == if i + 1 < |chains[f]| then chains[f][i + 1] else EOC_MAX
    ensures i + 1 < |chains[f]| ==>
      !IsEoc(chains[f][i + 1]) && chains[f][i + 1] != 0 && DataCluster(n, chains[f][i + 1])
  {
    assert ChainOk(fat, n, chains[f]);
    if i + 1 < |chains[f]| {
      assert fat[chains[f][i]] == chains[f][i + 1];
    }
  }

  datatype Errno = NoError | EOVERFLOW | EIO

  /** fat_file_pwrite's update of the 32-bit file_size. */
  function NewSize(size: int, offset: int, written: int): int {
    if offset + written > size then (offset + written) % UINT_LIMIT else size
  }

  /**
   After a complete write the size is where the bytes end exactly when the write ends below 2^32; behind that it
   is 2^32 less, whatever it was before.
   */
  lemma SizeIsExactIff(size: int, offset: int, count: int)
    requires 0 <= offset <= size < UINT_LIMIT && 0 <= count
    ensures NewSize(size, offset, count) == (if offset + count > size then offset + count else size)
            <==> offset + count < UINT_LIMIT
    ensures 0x1_0000_0000 <= offset + count < 0x2_0000_0000 ==>
      NewSize(size, offset, count) == offset + count - 0x1_0000_0000
  {
  }

  lemma NewSizeFits(g: Geometry, chain0: Chain, chain: Chain, size: int, off: int, n: int)
    requires GeometryOk(g) && chain0 <= chain && 0 <= off <= size <= Cap(g, |chain0|) && 0 <= n
    requires size < UINT_LIMIT && off + n <= Cap(g, |chain|)
    ensures 0 <= NewSize(size, off, n) < UINT_LIMIT && NewSize(size, off, n) <= Cap(g, |chain|)
  {
    CapOrder(g, |chain0|, |chain|);
  }

  /** What pread returns of a file's bytes: count of them from offset on, or as many as there are. */
  function Slice(s: Bytes, offset: int, count: int): (r: Bytes)
    requires 0 <= offset && 0 <= count
    ensures |r| == if offset > |s| then 0 else if count < |s| - offset then count else |s| - offset
    ensures forall k :: 0 <= k < |r| ==> r[k] == s[offset + k]
  {
    if offset > |s| then []
    else if count < |s| - offset then s[offset..offset + count] else s[offset..]
  }

  lemma ByteInChunk(disk: Bytes, g: Geometry, chain: Chain, offset: int, k: int)
    requires DiskOk(disk, g) && Clusters(g, chain)
    requires 0 <= offset <= k < Cap(g, |chain|) && Mask(g, offset) + (k - offset) < g.bpc
    ensures 0 <= Index(g, offset) < |chain|
    ensures 0 <= ClusterOffset(g, chain[Index(g, offset)]) + Mask(g, offset) + (k - offset) < |disk|
    ensures ByteAt(disk, g, chain, k) == disk[ClusterOffset(g, chain[Index(g, offset)]) + Mask(g,
      offset) + (k - offset)]
  {
    Parts(g, offset);
    LocateIs(g, k, Index(g, offset), Mask(g, offset) + (k - offset));
    InVolume(disk, g, chain, k);
  }

  /** Freeing one more cluster of the tail. */
  lemma FreedOneMore(fat0: Table, n: int, chains: seq<Chain>, owner: seq<int>, pos: seq<int>, f: int, lo: int, j: int,
                     fat: Table, fat': Table)
    requires TableOk(fat0, n, chains, owner, pos) && 0 <= f < |chains| && lo <= j < |chains[f]|
    requires TailFreed(fat0, fat, n, owner, pos, f, chains[f], lo, j)
    requires 0 <= chains[f][j] < |fat| && fat' == fat[chains[f][j] := FREE]
    ensures TailFreed(fat0, fat', n, owner, pos, f, chains[f], lo, j + 1)
  {
    assert Owned(owner, pos, n, f, chains[f]);
  }

  lemma NotYetFreed(fat0: Table, n: int, chains: seq<Chain>, owner: seq<int>, pos: seq<int>, f: int, lo: int, j: int,
                    fat: Table)
    requires TableOk(fat0, n, chains, owner, pos) && 0 <= f < |chains| && lo <= j < |chains[f]|
    requires TailFreed(fat0, fat, n, owner, pos, f, chains[f], lo, j)
    ensures 0 <= chains[f][j] < |fat| && fat[chains[f][j]] == fat0[chains[f][j]]
  {
    assert Owned(owner, pos, n, f, chains[f]);
  }

  /** The new end of chain that truncation writes first. */
  lemma CutStarts(fat0: Table, n: int, chains: seq<Chain>, owner: seq<int>, pos: seq<int>, f: int, lo: int, fat: Table)
    requires TableOk(fat0, n, chains, owner, pos) && 0 <= f < |chains| && 0 < lo <= |chains[f]|
    requires 0 <= chains[f][lo - 1] < |fat0| && fat == fat0[chains[f][lo - 1] := EOC_MAX]
    ensures TailFreed(fat0, fat, n, owner, pos, f, chains[f], lo, lo)
  {
  }

  lemma ReservedFreed(fat: Table, n: int, chains: seq<Chain>, owner: seq<int>, pos: seq<int>, fat': Table)
    requires TableOk(fat, n, chains, owner, pos) && fat' == fat[0 := FREE]
    ensures TableOk(fat', n, chains, owner, pos)
  {
    forall f | 0 <= f < |chains|
      ensures ChainOk(fat', n, chains[f])
    {
      assert Owned(owner, pos, n, f, chains[f]) && ChainOk(fat, n, chains[f]);
      ChainAgrees(fat, fat', n, chains[f]);
    }
  }

  function CutOwner(owner: seq<int>, pos: seq<int>, n: int, f: int, lo: int, hi: int): (r: seq<int>)
    requires 0 <= n && |owner| == |pos| == n + 2
    ensures OwnersCut(owner, r, pos, n, f, lo, hi)
  {
    seq(n + 2, c requires 0 <= c < n + 2 => if OnTail(owner, pos, n, f, lo, hi, c) then NOBODY else owner[c])
  }

  /** Freeing a tail touches no entry outside the data clusters, and clears the tail. */
  lemma CutKeeps(fat0: Table, fat: Table, n: int, chains: seq<Chain>, owner: seq<int>, pos: seq<int>, f: int, lo: int)
    requires TableOk(fat0, n, chains, owner, pos) && 0 <= f < |chains|
    requires TailFreed(fat0, fat, n, owner, pos, f, chains[f], lo, |chains[f]|)
    ensures HasSlack(fat0, n) ==> HasSlack(fat, n)
    ensures fat[0] == fat0[0]
    ensures forall i :: lo <= i < |chains[f]| ==> 0 <= chains[f][i] < |fat| && fat[chains[f][i]] == FREE
    ensures lo == 0 ==> forall c :: 0 <= c < |fat| ==> fat[c] == if c in chains[f] then FREE else fat0[c]
  {
    assert Owned(owner, pos, n, f, chains[f]);
    if HasSlack(fat0, n) {
      SlackKept(fat0, fat, n);
    }
    if lo == 0 {
      forall c | 0 <= c < |fat|
        ensures c in chains[f] <==> OnTail(owner, pos, n, f, 0, |chains[f]|, c)
      {
      }
    }
  }

  /** fat is fat0 with the clusters of chain from position lo on free, and the one before them its end. */
  ghost predicate Cut(fat0: Table, fat: Table, chain: Chain, lo: int) {
    && 0 < lo <= |chain| && |fat| == |fat0|
    && forall c :: 0 <= c < |fat| ==>
         fat[c] == if c in chain[lo..] then 0 else if c == chain[lo - 1] then 0x0FFF_FFFF else fat0[c]
  }

  lemma TailIsCut(fat0: Table, fat: Table, n: int, owner: seq<int>, pos: seq<int>, f: int, chain: Chain, lo: int)
    requires Owned(owner, pos, n, f, chain) && 0 < lo <= |chain|
    requires TailFreed(fat0, fat, n, owner, pos, f, chain, lo, |chain|)
    requires forall c :: DataCluster(n, c) && owner[c] == f ==> 0 <= pos[c] < |chain| && chain[pos[c]] == c
    ensures Cut(fat0, fat, chain, lo)
  {
    forall c | 0 <= c < |fat|
      ensures c in chain[lo..] <==> OnTail(owner, pos, n, f, lo, |chain|, c)
    {
      if OnTail(owner, pos, n, f, lo, |chain|, c) {
        assert chain[lo..][pos[c] - lo] == c;
      }
      if c in chain[lo..] {
        var i :| 0 <= i < |chain[lo..]| && chain[lo..][i] == c;
        assert chain[lo + i] == c;
      }
    }
  }

  /** When truncation acts, offset lies inside the chain. */
  lemma TruncateInside(g: Geometry, len: int, offset: int, size: int)
    requires g.bpc > 0 && 0 <= offset < size <= Cap(g, len)
    ensures 0 <= Index(g, offset) < len && offset <= Cap(g, Index(g, offset) + 1)
  {
    Locate(g, len, offset);
  }

  /** The first bytes of a chain need only its first clusters. */
  lemma PrefixContent(disk: Bytes, g: Geometry, chain: Chain, lo: int, offset: int, size: int)
    requires DiskOk(disk, g) && Clusters(g, chain) && 0 <= lo <= |chain|
    requires 0 <= offset <= size <= Cap(g, |chain|) && offset <= Cap(g, lo)
    ensures Content(disk, g, chain[..lo], offset) == Content(disk, g, chain, size)[..offset]
  {
    assert chain[..lo] + chain[lo..] == chain;
    var x, y := Content(disk, g, chain[..lo], offset), Content(disk, g, chain, size);
    forall k | 0 <= k < offset
      ensures x[k] == y[k]
    {
      PrefixBytes(disk, g, chain[..lo], chain[lo..], k);
    }
  }

  lemma SameContent(d0: Bytes, d: Bytes, g: Geometry, chain: Chain, size: int)
    requires SameBytes(d0, d, g, chain) && 0 <= size <= Cap(g, |chain|)
    ensures Content(d, g, chain, size) == Content(d0, g, chain, size)
  {
    var x, y := Content(d, g, chain, size), Content(d0, g, chain, size);
    assert forall k :: 0 <= k < size ==> x[k] == y[k];
  }

  lemma WrittenContent(d0: Bytes, chain0: Chain, d: Bytes, chain: Chain, g: Geometry, off: int, data: Bytes,
                       size0: int, size: int)
    requires Written(d0, chain0, d, chain, g, off, data)
    requires 0 <= off <= size0 <= Cap(g, |chain0|) && size == if off + |data| > size0 then off + |data| else size0
    ensures size <= Cap(g, |chain|)
    ensures Content(d, g, chain, size) == Overwritten(Content(d0, g, chain0, size0), off, data)
  {
    var x, y := Content(d, g, chain, size), Overwritten(Content(d0, g, chain0, size0), off, data);
    assert |x| == |y|;
    forall k | 0 <= k < size
      ensures x[k] == y[k]
    {
      assert x[k] == ByteAt(d, g, chain, k);
    }
  }

  /** Stepping one byte back from offset. */
  lemma {:induction false} StepBack(g: Geometry, len: int, offset: int)
    requires g.bpc > 0 && 0 <= len && 0 <= offset <= Cap(g, len)
    ensures len == 0 ==> offset == 0
    ensures Index(g, 0) == 0 && Mask(g, 0) == 0
    ensures offset > 0 ==> 0 <= Index(g, offset - 1) < len
    ensures offset > 0 && Mask(g, offset) != 0 ==> Index(g, offset) == Index(g, offset - 1) && offset < Cap(g, len)
    ensures offset > 0 && Mask(g, offset) == 0 ==> Index(g, offset) == Index(g, offset - 1) + 1
    ensures offset == 0 && len > 0 ==> offset < Cap(g, len)
  {
    CapOrder(g, 0, len);
    if offset > 0 {
      Locate(g, len, offset - 1);
      Parts(g, offset);
      var i := Index(g, offset - 1);
      if Mask(g, offset - 1) + 1 < g.bpc {
        LocateIs(g, offset, i, Mask(g, offset - 1) + 1);
        CapOrder(g, i, len);
      } else {
        LocateIs(g, offset, i + 1, 0);
      }
    }
  }

  /** Byte offset starts the cluster behind a chain exactly when it is the first byte the chain does not hold. */
  lemma EndIff(g: Geometry, len: int, offset: int)
    requires g.bpc > 0 && 0 <= len && 0 <= offset <= Cap(g, len)
    ensures offset == Cap(g, len) <==> Mask(g, offset) == 0 && Index(g, offset) == len
  {
    if offset == Cap(g, len) {
      LocateIs(g, offset, len, 0);
    }
    Parts(g, offset);
  }

  lemma NextInside(g: Geometry, len: int, offset: int, after: int)
    requires g.bpc > 0 && 0 <= offset && Mask(g, offset) + (after - offset) == g.bpc
    ensures 0 <= after < Cap(g, len) ==> Index(g, offset) + 1 < len
    ensures after == Cap(g, Index(g, offset) + 1)
  {
    Parts(g, offset);
    LocateIs(g, after, Index(g, offset) + 1, 0);
    if 0 <= after < Cap(g, len) {
      Locate(g, len, after);
    }
  }

  lemma StartOfCluster(g: Geometry, offset: int, i: int)
    requires g.bpc > 0 && 0 <= offset && Index(g, offset) == i && Mask(g, offset) == 0
    ensures offset == Cap(g, i)
  {
    Parts(g, offset);
  }

  /** A pwrite that begins or ends behind the end of the image. */
  function WrittenPast(disk: Bytes, at: int, data: Bytes): (r: Bytes)
    requires 0 <= at
    ensures |r| >= |disk| && forall i :: 0 <= i < |disk| && i < at ==> r[i] == disk[i]
  {
    if at <= |disk| then Overwritten(disk, at, data)
    else disk + seq(at - |disk|, _ => 0) + data
  }

  /** What lies behind the data clusters is no file's. */
  lemma SameBelow(d0: Bytes, d: Bytes, g: Geometry, chain: Chain)
    requires DiskOk(d0, g) && DiskOk(d, g) && Clusters(g, chain)
    requires |d0| <= |d| && forall i :: 0 <= i < g.dataStart + Cap(g, g.n) ==> d[i] == d0[i]
    ensures SameBytes(d0, d, g, chain)
  {
    CapOrder(g, 0, g.n);
    forall k | 0 <= k < Cap(g, |chain|)
      ensures ByteAt(d, g, chain, k) == ByteAt(d0, g, chain, k)
    {
      InVolume(d0, g, chain, k);
      CapOrder(g, chain[Index(g, k)] - 1, g.n);
    }
  }

  // ------------------------------------------------------------------ a volume to start from

  /** The root directory on cluster 2, a file on the len clusters behind it, the rest free, and one entry of slack. */
  function StartFat(n: int, len: int): (fat: Table)
    requires 0 <= len < n
    ensures |fat| == n + 3
  {
    seq(n + 3, c => if c < 3 || c == len + 2 then EOC_MAX else if c < len + 2 then c + 1 else FREE)
  }

  function StartChain(len: int): (chain: Chain)
    requires 0 <= len
    ensures |chain| == len && forall i :: 0 <= i < len ==> chain[i] == i + 3
  {
    seq(len, i => i + 3)
  }

  function StartOwner(n: int, len: int): (owner: seq<int>)
    requires 0 <= len < n
    ensures |owner| == n + 2
  {
    seq(n + 2, c => if c == 2 then 0 else if 3 <= c < len + 3 then 1 else NOBODY)
  }

  function StartPos(n: int): (pos: seq<int>)
    requires 0 <= n
    ensures |pos| == n + 2
  {
    seq(n + 2, c => if c < 3 then 0 else c - 3)
  }

  lemma StartTable(n: int, len: int)
    requires 0 <= len < n && n + 2 <= BAD_SECTOR
    ensures TableOk(StartFat(n, len), n, [[2], StartChain(len)], StartOwner(n, len), StartPos(n))
    ensures HasSlack(StartFat(n, len), n)
  {
    var fat, chain := StartFat(n, len), StartChain(len);
    assert fat[n + 2] == FREE;
    assert ChainOk(fat, n, [2]) && Owned(StartOwner(n, len), StartPos(n), n, 0, [2]);
    assert ChainOk(fat, n, chain) && Owned(StartOwner(n, len), StartPos(n), n, 1, chain);
  }

  class Volume {
    const g: Geometry
    var fat: Table
    var diskFat: Table
    var disk: Bytes
    var start: seq<int>
    var size: seq<int>
    ghost var chains: seq<Chain>
    ghost var owner: seq<int>
    ghost var pos: seq<int>

    ghost predicate Valid()
      reads this
    {
      TableValid() && FilesOk()
    }

    /** The part of Valid that gives every file its bytes. */
    ghost predicate FilesOk()
      reads this
    {
      && TableOk(fat, g.n, chains, owner, pos)
      && DiskOk(disk, g)
      && |chains| == |start| == |size|
      && forall f :: 0 <= f < |chains| ==> EntryOk(g, chains[f], start[f], size[f])
    }

    /** The part of Valid that the table operations keep. */
    ghost predicate TableValid()
      reads this`fat, this`diskFat, this`chains, this`owner, this`pos
    {
      && GeometryOk(g) && TableOk(fat, g.n, chains, owner, pos) && fat == diskFat && HasSlack(fat, g.n)
      && !IsClusterNumber(g.n, fat[0])
    }

    /** What a reader of the whole file sees. */
    ghost function FileBytes(f: int): Bytes
      requires FilesOk() && 0 <= f < |chains|
      reads this
    {
      ChainClusters(f);
      Content(disk, g, chains[f], size[f])
    }

    lemma ChainClusters(f: int)
      requires TableOk(fat, g.n, chains, owner, pos) && 0 <= f < |chains|
      ensures Clusters(g, chains[f]) && Distinct(chains[f])
      ensures ChainOk(fat, g.n, chains[f]) && Owned(owner, pos, g.n, f, chains[f])
    {
      assert Owned(owner, pos, g.n, f, chains[f]);
    }

    /** A volume with a root directory, number 0, and one file, number 1, of bytes bytes on len clusters. */
    constructor (geometry: Geometry, contents: Bytes, len: int, bytes: int)
      requires DiskOk(contents, geometry) && geometry.n + 2 <= BAD_SECTOR && 0 <= len < geometry.n
      requires 0 <= bytes < UINT_LIMIT && bytes <= Cap(geometry, len)
      ensures Valid() && g == geometry && fat == StartFat(g.n, len) && disk == contents
      ensures chains == [[2], StartChain(len)] && start == [2, if len == 0 then 0 else 3] && size == [0, bytes]
    {
      g := geometry;
      fat, diskFat := StartFat(geometry.n, len), StartFat(geometry.n, len);
      disk := contents;
      start, size := [2, if len == 0 then 0 else 3], [0, bytes];
      chains := [[2], StartChain(len)];
      owner, pos := StartOwner(geometry.n, len), StartPos(geometry.n);
      new;
      StartTable(g.n, len);
      CapOrder(g, 0, 1);
    }

    /** fat_table_get_next_free_cluster. */
    method NextFree() returns (c: int)
      requires TableValid()
      ensures c == NextFreeFrom(fat, g.n, 2)
      ensures c == 0x0FFF_FFFF <==> NoFreeCluster(fat, g.n)
      ensures c != EOC_MAX ==> DataCluster(g.n, c) && fat[c] == FREE && forall i :: 2 <= i < c ==> fat[i] != FREE
    {
      FreeFromIs(fat, g.n, 2);
      c := 2;
      ghost var slack :| g.n + 2 <= slack < |fat| && fat[slack] == FREE;
      while fat[c] != FREE
        invariant 2 <= c <= slack
        invariant NextFreeFrom(fat, g.n, c) == NextFreeFrom(fat, g.n, 2)
        decreases slack - c
      {
        c := c + 1;
      }
      if !IsClusterNumber(g.n, c) {
        c := EOC_MAX;
      }
    }

    /** fat_table_set_next_cluster: the entry on disk, then the entry in memory. */
    method SetNext(c: int, next: int)
      requires 0 <= c < |fat| == |diskFat|
      modifies this`fat, this`diskFat
      ensures fat == old(fat)[c := next] && diskFat == old(diskFat)[c := next]
    {
      diskFat := diskFat[c := next];
      fat := fat[c := next];
    }

    /** fat_table_seek_cluster. */
    method Seek(f: int, offset: int) returns (c: int)
      requires TableValid() && 0 <= f < |chains| && 0 <= f < |start| && 0 <= offset
      requires if chains[f] == [] then start[f] == 0 && Index(g, offset) == 0 else chains[f][0] == start[f]
      ensures var p := Index(g, offset);
              c == if chains[f] == [] then 0
                   else if p < |chains[f]| then chains[f][p]
                   else if p == |chains[f]| then EOC_MAX
                   else 0
    {
      ghost var chain := chains[f];
      ChainClusters(f);
      var moves := Index(g, offset);
      c := start[f];
      var i := 0;
      while i < moves
        invariant 0 <= i && (i <= moves || moves < 0)
        invariant i <= |chain|
        invariant c == if chain == [] then 0 else if i < |chain| then chain[i] else EOC_MAX
      {
        if c == EOC_MAX {
          return 0;
        }
        c := GetNext(fat, g.n, c);
        i := i + 1;
      }
    }

    /** How many clusters f can have: its own and the free ones. */
    ghost function Room(f: int): int
      requires 0 <= f < |chains|
      reads this`chains, this`fat
    {
      |chains[f]| + |FreeClusters(fat, g.n)|
    }

    /** A write that stops short has filled all clusters f can have; one that does not fits in them. */
    lemma AllThatFits(f: int, len: int, offset: int, t: int, room: int)
      requires 0 <= f < |chains| && g.bpc > 0 && Room(f) == room && 0 <= t <= len
      requires if t < len then offset + t == Cap(g, |chains[f]|) && NoFreeCluster(fat, g.n)
               else offset + len <= Cap(g, |chains[f]|)
      ensures t == Fits(Cap(g, room), len, offset)
    {
      NoneFreeIff(fat, g.n);
      CapOrder(g, |chains[f]|, room);
    }

    /** next_or_new_cluster for the cluster at position i of f's chain; 0 when the volume is full. */
    method NextOrNew(f: int, last: int, ghost i: int) returns (next: int)
      requires TableValid() && 0 <= f < |chains| && 0 <= i < |chains[f]| && chains[f][i] == last
      modifies this`fat, this`diskFat, this`chains, this`owner, this`pos
      ensures TableValid() && 0 <= f < |chains| && |chains| == |old(chains)|
      ensures next == 0 <==> i + 1 == |old(chains)[f]| && NoFreeCluster(old(fat), g.n)
      ensures next == 0 || i + 1 < |old(chains)[f]| ==> chains == old(chains) && fat == old(fat)
      ensures next != 0 ==> i + 1 < |chains[f]| && chains[f][i + 1] == next && DataCluster(g.n, next) && IsValid(next)
      ensures next != 0 ==> chains == old(chains)[f := chains[f]]
      ensures next != 0 ==>
        chains[f] == if i + 1 < |old(chains)[f]| then old(chains)[f] else old(chains)[f] + [next]
      ensures Room(f) == old(Room(f)) && Grew(old(fat), fat, old(chains)[f], chains[f])
    {
      GrewNone(fat, chains[f]);
      NextInChain(fat, g.n, chains, owner, pos, f, i);
      next := GetNext(fat, g.n, last);
      if IsEoc(next) {
        next := NextFree();
        if IsEoc(next) {
          return 0;
        }
        Append(f, last, next);
      }
    }

    /** The two table writes that link a free cluster behind the last one of f's chain. */
    method Append(f: int, last: int, next: int)
      requires TableValid() && 0 <= f < |chains| && chains[f] != [] && chains[f][|chains[f]| - 1] == last
      requires DataCluster(g.n, next) && next < |fat| && fat[next] == FREE
      requires forall i :: 2 <= i < next ==> fat[i] != FREE
      modifies this`fat, this`diskFat, this`chains, this`owner, this`pos
      ensures TableValid() && chains == old(chains)[f := old(chains)[f] + [next]] && Room(f) == old(Room(f))
      ensures Grew(old(fat), fat, old(chains)[f], chains[f])
    {
      ChainClusters(f);
      OneLessFree(fat, g.n, last, next);
      SetNext(last, next);
      SetNext(next, EOC_MAX);
      Register(f, next);
      ExtendTable(old(fat), g.n, old(chains), old(owner), old(pos), f, next, fat, chains, owner, pos);
      SlackKept(old(fat), fat, g.n);
      GrewOne(old(fat), fat, old(chains)[f], next);
    }

    /** Ghost bookkeeping for a cluster appended to f's chain. */
    ghost method Register(f: int, c: int)
      requires 0 <= f < |chains| && chains[f] != [] && DataCluster(g.n, c) && |owner| == |pos| == g.n + 2
      modifies this`chains, this`owner, this`pos
      ensures chains == old(chains)[f := old(chains)[f] + [c]]
      ensures owner == old(owner)[c := f] && pos == old(pos)[c := |old(chains)[f]|]
    {
      owner, pos := owner[c := f], pos[c := |chains[f]|];
      chains := chains[f := chains[f] + [c]];
    }

    /** full_pwrite into the data area. */
    method WriteDisk(data: Bytes, at: int)
      requires 0 <= at && at + |data| <= |disk|
      modifies this`disk
      ensures disk == Poke(old(disk), at, data)
    {
      disk := Poke(disk, at, data);
    }

    /** What holds while data is being written at byte off of f. */
    ghost predicate Writing(f: int, d0: Bytes, chains0: seq<Chain>, off: int, data: Bytes)
      reads this`disk, this`fat, this`diskFat, this`chains, this`owner, this`pos
    {
      TableValid() && DiskOk(disk, g) && WritingOn(g, d0, chains0, disk, chains, f, off, data)
    }

    /** cluster is the one that holds byte offset of f. */
    ghost predicate At(f: int, cluster: int, offset: int)
      requires g.bpc > 0
      reads this`chains
    {
      && 0 <= f < |chains| && 0 <= offset < Cap(g, |chains[f]|) && 0 <= Index(g, offset) < |chains[f]|
      && cluster == chains[f][Index(g, offset)]
    }

    /**
     The loop of fat_file_pwrite, from the cluster that holds byte off. Returns how much of buf was
     written, which is all of it unless no cluster is free and the file's last one has been filled.
     */
    method WriteLoop(f: int, buf: Bytes, off: int, first: int, ghost chains0: seq<Chain>) returns (done: int)
      requires Writing(f, disk, chains0, off, Taken(buf, 0)) && (buf != [] ==> At(f, first, off))
      modifies this`disk, this`fat, this`diskFat, this`chains, this`owner, this`pos
      ensures 0 <= done <= |buf| && Writing(f, old(disk), chains0, off, Taken(buf, done)) && Room(f) == old(Room(f))
      ensures done < |buf| ==> NoFreeCluster(fat, g.n) && off + done == Cap(g, |chains[f]|)
      ensures off + |buf| <= Cap(g, |old(chains)[f]|) ==> done == |buf| && chains == old(chains) && fat == old(fat)
      ensures |chains| == |old(chains)| && Grew(old(fat), fat, old(chains)[f], chains[f])
    {
      GrewNone(fat, chains[f]);
      done := 0;
      var offset, remaining, cluster := off, |buf|, first;
      while remaining > 0
        invariant 0 <= done <= |buf| && done + remaining == |buf| && offset == off + done
        invariant Writing(f, old(disk), chains0, off, Taken(buf, done)) && Room(f) == old(Room(f))
        invariant remaining > 0 ==> At(f, cluster, offset)
        invariant off + |buf| <= Cap(g, |old(chains)[f]|) ==> chains == old(chains) && fat == old(fat)
        invariant |chains| == |old(chains)| && Grew(old(fat), fat, old(chains)[f], chains[f])
      {
        ghost var fat1, chain1 := fat, chains[f];
        var n := RemainingBytes(g, remaining, offset);
        ChunkSize(g, remaining, offset);
        var upto, after := done + n, offset + n;
        cluster := WriteTurn(f, buf, done, upto, cluster, off, offset, after, old(disk), chains0);
        GrewOn(f, old(fat), fat1, old(chains)[f], chain1);
        remaining, done, offset := remaining - n, upto, after;
        if remaining > 0 && (cluster == 0 || !IsValid(cluster)) {
          break;
        }
      }
    }

    lemma GrewOn(f: int, fat0: Table, fat1: Table, chain0: Chain, chain1: Chain)
      requires TableOk(fat, g.n, chains, owner, pos) && 0 <= f < |chains|
      requires Grew(fat0, fat1, chain0, chain1) && Grew(fat1, fat, chain1, chains[f])
      ensures Grew(fat0, fat, chain0, chains[f])
    {
      ChainClusters(f);
      GrewJoin(fat0, fat1, fat, chain0, chain1, chains[f]);
    }

    /** One iteration: a pwrite of buf[done..upto] and, if more follows, the step to the next cluster. */
    method WriteTurn(f: int, buf: Bytes, done: int, upto: int, cluster: int, ghost off: int, offset: int,
                     ghost after: int,
                     ghost d0: Bytes, ghost chains0: seq<Chain>) returns (next: int)
      requires 0 <= done < upto <= |buf| && offset == off + done && after == offset + (upto - done)
      requires Writing(f, d0, chains0, off, Taken(buf, done)) && At(f, cluster, offset)
      requires Mask(g, offset) + (upto - done) <= g.bpc
      requires upto < |buf| ==> Mask(g, offset) + (upto - done) == g.bpc
      modifies this`disk, this`fat, this`diskFat, this`chains, this`owner, this`pos
      ensures Writing(f, d0, chains0, off, Taken(buf, upto))
      ensures upto < |buf| && (next == 0 || !IsValid(next)) ==>
        NoFreeCluster(fat, g.n) && after == Cap(g, |chains[f]|)
      ensures Room(f) == old(Room(f)) && Grew(old(fat), fat, old(chains)[f], chains[f])
      ensures upto < |buf| && next != 0 && IsValid(next) ==> At(f, next, after)
      ensures upto == |buf| || after < Cap(g, |old(chains)[f]|) ==>
        chains == old(chains) && fat == old(fat) && (upto < |buf| ==> next != 0 && IsValid(next))
    {
      GrewNone(fat, chains[f]);
      TakenJoin(buf, done, upto);
      WriteChunkToDisk(f, buf[done..upto], cluster, off, offset, d0, chains0, Taken(buf, done));
      next := cluster;
      if upto < |buf| {
        next := NextForWrite(f, cluster, off, offset, after, d0, chains0, Taken(buf, upto));
      }
    }

    /** The pwrite of one loop iteration. */
    method WriteChunkToDisk(f: int, chunk: Bytes, cluster: int, ghost off: int, offset: int,
                            ghost d0: Bytes, ghost chains0: seq<Chain>, ghost data: Bytes)
      requires Writing(f, d0, chains0, off, data) && offset == off + |data|
      requires At(f, cluster, offset) && Mask(g, offset) + |chunk| <= g.bpc
      modifies this`disk
      ensures Writing(f, d0, chains0, off, data + chunk)
    {
      ChainClusters(f);
      ClusterInside(disk, g, cluster);
      var at := ClusterOffset(g, cluster) + Mask(g, offset);
      disk := Poke(disk, at, chunk);
      WrittenStep(d0, chains0[f], old(disk), chains[f], g, off, data, offset, chunk, disk);
      forall h | 0 <= h < |chains| && h != f
        ensures SameBytes(d0, disk, g, chains[h])
      {
        ChainClusters(h);
        NotOnChain(h, f, Index(g, offset));
        SameStep(d0, old(disk), g, chains[h], cluster, offset, chunk, disk);
      }
    }

    lemma NotOnChain(h: int, f: int, i: int)
      requires TableOk(fat, g.n, chains, owner, pos)
      requires 0 <= h < |chains| && 0 <= f < |chains| && h != f && 0 <= i < |chains[f]|
      ensures chains[f][i] !in chains[h]
    {
      ChainClusters(h);
      ChainClusters(f);
    }

    /** The step of the loop to the next cluster, which may be a new one. */
    method NextForWrite(f: int, cluster: int, ghost off: int, ghost offset: int, ghost after: int,
                        ghost d0: Bytes, ghost chains0: seq<Chain>, ghost data: Bytes) returns (next: int)
      requires Writing(f, d0, chains0, off, data)
      requires At(f, cluster, offset) && Mask(g, offset) + (after - offset) == g.bpc && after == off + |data|
      modifies this`fat, this`diskFat, this`chains, this`owner, this`pos
      ensures Writing(f, d0, chains0, off, data)
      ensures next == 0 ==> NoFreeCluster(fat, g.n) && after == Cap(g, |chains[f]|)
      ensures Room(f) == old(Room(f)) && Grew(old(fat), fat, old(chains)[f], chains[f])
      ensures next != 0 ==> At(f, next, after) && IsValid(next)
      ensures after < Cap(g, |old(chains)[f]|) ==> next != 0 && chains == old(chains) && fat == old(fat)
    {
      ghost var i := Index(g, offset);
      NextInside(g, |chains[f]|, offset, after);
      next := NextOrNew(f, cluster, i);
      if next != 0 {
        NextCluster(g, |chains[f]|, offset, after, i);
        ChainClusters(f);
        WritingExtends(g, d0, chains0, disk, old(chains), chains, f, off, data, next);
      }
    }

    /** There is no cluster for byte offset of f, and none to be had. */
    ghost predicate NoPlace(chains: seq<Chain>, fat: Table, f: int, offset: int)
      requires 0 <= f < |chains|
    {
      chains[f] == [] || (offset == Cap(g, |chains[f]|) && NoFreeCluster(fat, g.n))
    }

    /** The first half of fat_file_pwrite: the cluster that holds byte offset, 0 when there is none. */
    method Position(f: int, offset: int) returns (cluster: int)
      requires Valid() && 0 <= f < |chains| && 0 <= offset <= size[f]
      modifies this`fat, this`diskFat, this`chains, this`owner, this`pos
      ensures Writing(f, disk, old(chains), offset, []) && |chains| == |old(chains)|
      ensures cluster != 0 ==> At(f, cluster, offset) && old(chains)[f] != []
      ensures cluster == 0 <==> NoPlace(old(chains), old(fat), f, offset)
      ensures Room(f) == old(Room(f)) && Grew(old(fat), fat, old(chains)[f], chains[f])
      ensures cluster == 0 || offset < Cap(g, |old(chains)[f]|) ==> chains == old(chains) && fat == old(fat)
    {
      GrewNone(fat, chains[f]);
      var starting := if offset != 0 then offset - 1 else 0;
      EndIff(g, |chains[f]|, offset);
      AllSame(f, offset);
      StepBack(g, |chains[f]|, offset);
      cluster := Seek(f, starting);
      ghost var i := Index(g, starting);
      if Mask(g, offset) == 0 && cluster != 0 && offset != 0 {
        cluster := NextOrNew(f, cluster, i);
        if cluster != 0 {
          ChainClusters(f);
          CapOrder(g, i + 1, |chains[f]|);
          StartOfCluster(g, offset, i + 1);
          WritingExtends(g, disk, old(chains), disk, old(chains), chains, f, offset, [], cluster);
        }
      }
    }

    lemma AllSame(f: int, offset: int)
      requires Valid() && 0 <= f < |chains| && 0 <= offset <= size[f]
      ensures WritingOn(g, disk, chains, disk, chains, f, offset, [])
      ensures chains[f] != [] ==> forall i :: 0 <= i < |chains[f]| ==> chains[f][i] >= 2
      ensures EntryOk(g, chains[f], start[f], size[f])
    {
      forall h | 0 <= h < |chains|
        ensures SameBytes(disk, disk, g, chains[h])
      {
        ChainClusters(h);
      }
      ChainClusters(f);
    }

    lemma ValidAfterWrite(f: int, d0: Bytes, chains0: seq<Chain>, size0: seq<int>, off: int, data: Bytes)
      requires Writing(f, d0, chains0, off, data)
      requires |chains0| == |start| == |size0|
      requires forall h :: 0 <= h < |chains0| ==> EntryOk(g, chains0[h], start[h], size0[h])
      requires chains0[f] != [] && 0 <= off <= size0[f]
      requires size == size0[f := NewSize(size0[f], off, |data|)]
      ensures Valid() && |chains| == |chains0|
    {
      NewSizeFits(g, chains0[f], chains[f], size0[f], off, |data|);
      assert forall h :: 0 <= h < |chains| && h != f ==> chains[h] == chains0[h];
    }

    /**
     fat_file_pwrite. The written prefix of buf replaces the bytes at offset. It is all of buf for which
     there is room in the file's clusters and the free ones: less than all of buf is written only when no
     cluster is free, and then up to the end of the last one. The new size is stored in 32 bits, and the
     entry in the parent directory is written.
     */
    method PWrite(f: int, buf: Bytes, offset: int, e: Place) returns (t: int, errno: Errno)
      requires Valid() && 0 <= f < |chains| && 0 <= offset && PlaceOk(f, e)
      modifies this`disk, this`fat, this`diskFat, this`chains, this`owner, this`pos, this`size
      ensures Valid() && |chains| == |old(chains)|
      ensures errno == EOVERFLOW <==> offset > old(size)[f]
      ensures errno == EIO <==> offset <= old(size)[f] && NoPlace(old(chains), old(fat), f, offset)
      ensures errno != NoError ==>
        t == 0 && disk == old(disk) && fat == old(fat) && chains == old(chains) && size == old(size)
      ensures 0 <= t <= |buf| && (errno == NoError ==> t == Fits(Cap(g, old(Room(f))), |buf|, offset))
      ensures errno == NoError && t < |buf| ==> NoFreeCluster(fat, g.n) && offset + t == Cap(g, |chains[f]|)
      ensures errno == NoError && offset < Cap(g, |old(chains)[f]|) && offset + |buf| <= Cap(g, |old(chains)[f]|) ==>
        t == |buf| && fat == old(fat) && chains == old(chains)
      ensures errno == NoError ==> Completed(f, offset, Taken(buf, t), e)
      ensures errno == NoError ==> Grew(old(fat), fat, old(chains)[f], chains[f])
      ensures HeadKept(old(disk), disk, g)
    {
      t, errno := WriteData(f, buf, offset);
      if errno == NoError {
        ghost var disk1 := disk;
        WriteDirEntry(e.dir, e.pos, EntryBytes(e.info, start[f], size[f]));
        WriteRecorded(f, offset, Taken(buf, t), e, disk1);
      }
    }

    /** One byte appended to a file of 2^32 - 1 bytes with room for it leaves a file of no bytes. */
    method AppendLast(f: int, byte: int, e: Place) returns (t: int, errno: Errno)
      requires Valid() && 0 <= f < |chains| && PlaceOk(f, e)
      requires size[f] == UINT_LIMIT - 1 && UINT_LIMIT <= Cap(g, |chains[f]|)
      modifies this`disk, this`fat, this`diskFat, this`chains, this`owner, this`pos, this`size
      ensures Valid() && |chains| == |old(chains)|
      ensures t == 1 && errno == NoError && size[f] == 0 && FileBytes(f) == []
    {
      t, errno := PWrite(f, [byte], size[f], e);
    }

    /** What has been done before the entry is written, of the disk disk1 that the data were written to. */
    twostate predicate WroteOn(f: int, off: int, data: Bytes, disk1: Bytes)
      requires old(FilesOk()) && 0 <= f < |old(chains)| == |chains| == |size| && 0 <= off <= old(size)[f]
      reads this`chains, this`size
    {
      && size == old(size)[f := NewSize(old(size)[f], off, |data|)]
      && NoSpare(g, old(chains)[f], chains[f], off + |data|) && HeadKept(old(disk), disk1, g)
      && DiskOk(disk1, g) && Clusters(g, chains[f]) && 0 <= size[f] <= Cap(g, |chains[f]|)
      && size[f] <= |Overwritten(old(FileBytes(f)), off, data)|
      && Content(disk1, g, chains[f], size[f]) == Overwritten(old(FileBytes(f)), off, data)[..size[f]]
      && forall h :: 0 <= h < |chains| && h != f ==>
           chains[h] == old(chains)[h] && SameBytes(old(disk), disk1, g, chains[h])
    }

    twostate lemma WroteNow(new f: int, new off: int, new data: Bytes)
      requires old(FilesOk()) && FilesOk() && 0 <= f < |old(chains)| == |chains| && 0 <= off <= old(size)[f]
      requires Wrote(f, off, data) && OthersKept(f) && NoSpare(g, old(chains)[f], chains[f], off + |data|)
      requires size == old(size)[f := NewSize(old(size)[f], off, |data|)] && HeadKept(old(disk), disk, g)
      ensures WroteOn(f, off, data, disk)
    {
      DataKept(f);
      ChainClusters(f);
      assert EntryOk(g, chains[f], start[f], size[f]);
    }

    /** The entry is written after the data. */
    twostate lemma WriteRecorded(new f: int, new off: int, new data: Bytes, new e: Place, new disk1: Bytes)
      requires old(Valid()) && Valid() && 0 <= f < |old(chains)| && |chains| == |old(chains)|
      requires 0 <= off <= old(size)[f] && WroteOn(f, off, data, disk1) && PlaceOk(f, e)
      requires forall h :: 0 <= h < |chains| && h != e.dir ==> SameBytes(disk1, disk, g, chains[h])
      requires EntryPut(disk1, disk, g, chains[e.dir], e.pos, EntryBytes(e.info, start[f], size[f]))
      ensures Completed(f, off, data, e) && HeadKept(old(disk), disk, g)
    {
      EntryDone(f, e, disk1, EntryBytes(e.info, start[f], size[f]));
      SameContent(disk1, disk, g, chains[f], size[f]);
      WroteWhole(f, off, data);
    }

    /**
     A pwrite has put data at off of f: the file has the new size, its bytes are the old ones with data
     over them, cut at that size, which loses none if and only if the write ends below 2^32. No cluster
     more is in its chain than that takes. The entry is in the directory, and no other file has changed.
     */
    twostate predicate Completed(f: int, off: int, data: Bytes, e: Place)
      requires old(FilesOk()) && FilesOk() && 0 <= f < |old(chains)| && |chains| == |old(chains)|
      reads this
    {
      && 0 <= off <= old(size)[f] && InfoOk(e.info) && 0 <= e.dir < |chains|
      && size == old(size)[f := NewSize(old(size)[f], off, |data|)]
      && Wrote(f, off, data) && EntryWritten(f, e, EntryBytes(e.info, start[f], size[f]))
      && NoSpare(g, old(chains)[f], chains[f], off + |data|)
      && (FileBytes(f) == Overwritten(old(FileBytes(f)), off, data) <==> off + |data| < UINT_LIMIT)
    }

    /** fat_file_pwrite up to the writing of the entry. */
    method WriteData(f: int, buf: Bytes, offset: int) returns (t: int, errno: Errno)
      requires Valid() && 0 <= f < |chains| && 0 <= offset
      modifies this`disk, this`fat, this`diskFat, this`chains, this`owner, this`pos, this`size
      ensures Valid() && |chains| == |old(chains)|
      ensures errno == EOVERFLOW <==> offset > old(size)[f]
      ensures errno == EIO <==> offset <= old(size)[f] && NoPlace(old(chains), old(fat), f, offset)
      ensures errno != NoError ==>
        t == 0 && disk == old(disk) && fat == old(fat) && chains == old(chains) && size == old(size)
      ensures 0 <= t <= |buf| && (errno == NoError ==> t == Fits(Cap(g, old(Room(f))), |buf|, offset))
      ensures errno == NoError && t < |buf| ==> NoFreeCluster(fat, g.n) && offset + t == Cap(g, |chains[f]|)
      ensures errno == NoError && offset < Cap(g, |old(chains)[f]|) && offset + |buf| <= Cap(g, |old(chains)[f]|) ==>
        t == |buf| && fat == old(fat) && chains == old(chains)
      ensures errno == NoError ==> WroteOn(f, offset, Taken(buf, t), disk)
      ensures errno == NoError ==> Grew(old(fat), fat, old(chains)[f], chains[f])
    {
      if offset > size[f] {
        return 0, EOVERFLOW;
      }
      var cluster := Position(f, offset);
      if cluster == 0 {
        return 0, EIO;
      }
      assert start == old(start) && size == old(size) && old(chains)[f] != [];
      ghost var fat1, chain1 := fat, chains[f];
      t := WriteAndGrow(f, buf, offset, cluster, old(chains));
      GrewOn(f, old(fat), fat1, old(chains)[f], chain1);
      assert start == old(start);
      WroteAll(f, offset, Taken(buf, t), NewSize(old(size)[f], offset, t));
      errno := NoError;
    }

    /** The second half of fat_file_pwrite: the loop and the new size. */
    method WriteAndGrow(f: int, buf: Bytes, offset: int, cluster: int, ghost chains0: seq<Chain>) returns (t: int)
      requires Writing(f, disk, chains0, offset, []) && (buf != [] ==> At(f, cluster, offset)) && 0 <= f < |size|
      modifies this`disk, this`fat, this`diskFat, this`chains, this`owner, this`pos, this`size
      ensures 0 <= t <= |buf| && Writing(f, old(disk), chains0, offset, Taken(buf, t))
      ensures t < |buf| ==> NoFreeCluster(fat, g.n) && offset + t == Cap(g, |chains[f]|)
      ensures t == Fits(Cap(g, old(Room(f))), |buf|, offset)
      ensures size == old(size)[f := NewSize(old(size)[f], offset, t)]
      ensures offset + |buf| <= Cap(g, |old(chains)[f]|) ==> t == |buf| && chains == old(chains) && fat == old(fat)
      ensures |chains| == |old(chains)| && Grew(old(fat), fat, old(chains)[f], chains[f])
    {
      assert Taken(buf, 0) == [];
      t := WriteLoop(f, buf, offset, cluster, chains0);
      AllThatFits(f, |buf|, offset, t, old(Room(f)));
      size := size[f := NewSize(size[f], offset, t)];
    }

    /**
     data has replaced the bytes at off of f. The file ends where its 32-bit size says, which is
     the end of the bytes unless that is 2^32 or more (SizeIsExactIff).
     */
    twostate predicate Wrote(f: int, off: int, data: Bytes)
      requires old(FilesOk()) && FilesOk() && 0 <= f < |old(chains)| && |chains| == |old(chains)|
      requires 0 <= off <= old(size)[f]
      reads this
    {
      && size[f] == NewSize(old(size)[f], off, |data|)
      && 0 <= size[f] <= |Overwritten(old(FileBytes(f)), off, data)|
      && FileBytes(f) == Overwritten(old(FileBytes(f)), off, data)[..size[f]]
    }

    twostate lemma WroteWhole(new f: int, new off: int, new data: Bytes)
      requires old(Valid()) && Valid() && 0 <= f < |old(chains)| && |chains| == |old(chains)|
      requires 0 <= off <= old(size)[f] && Wrote(f, off, data)
      ensures FileBytes(f) == Overwritten(old(FileBytes(f)), off, data) <==> off + |data| < UINT_LIMIT
    {
      assert EntryOk(g, old(chains)[f], old(start)[f], old(size)[f]);
      SizeIsExactIff(old(size)[f], off, |data|);
    }

    twostate predicate OthersKept(f: int)
      requires old(FilesOk()) && FilesOk()
      reads this
    {
      forall h :: 0 <= h < |old(chains)| && h != f ==> FileKept(h)
    }

    /** Where f's entry is: in a directory, which has a cluster. */
    ghost predicate PlaceOk(f: int, e: Place)
      reads this`chains
    {
      && 0 <= e.dir < |chains| && e.dir != f && chains[e.dir] != [] && 0 <= e.pos && InfoOk(e.info)
      && g.bpc % ENTRY_BYTES == 0
    }

    /** The directory has this entry for f, and nothing else has changed in it or in any file but f. */
    twostate predicate EntryWritten(f: int, e: Place, entry: Bytes)
      requires old(FilesOk()) && FilesOk() && 0 <= e.dir < |old(chains)|
      reads this
    {
      && (forall h :: 0 <= h < |old(chains)| && h != f && h != e.dir ==> FileKept(h))
      && 0 <= e.dir < |chains| && chains[e.dir] == old(chains)[e.dir] && size[e.dir] == old(size)[e.dir]
      && EntryPut(old(disk), disk, g, chains[e.dir], e.pos, entry)
    }

    /** What a call has done to the files but f before it writes the entry. */
    twostate lemma DataKept(new f: int)
      requires old(FilesOk()) && FilesOk() && |chains| >= |old(chains)| && OthersKept(f)
      ensures forall h :: 0 <= h < |old(chains)| && h != f ==>
        chains[h] == old(chains)[h] && SameBytes(old(disk), disk, g, chains[h])
    {
      forall h | 0 <= h < |old(chains)| && h != f
        ensures chains[h] == old(chains)[h] && SameBytes(old(disk), disk, g, chains[h])
      {
        assert FileKept(h);
      }
    }

    /** The call as a whole: up to the disk disk1 only f has changed, then comes write_dir_entry. */
    twostate lemma EntryDone(new f: int, new e: Place, new disk1: Bytes, new entry: Bytes)
      requires old(FilesOk()) && FilesOk() && 0 <= e.dir < |old(chains)| && e.dir != f
      requires |old(chains)| <= |chains|
      requires forall h :: 0 <= h < |old(chains)| && h != f ==>
        chains[h] == old(chains)[h] && size[h] == old(size)[h] && SameBytes(old(disk), disk1, g, chains[h])
      requires forall h :: 0 <= h < |chains| && h != e.dir ==> SameBytes(disk1, disk, g, chains[h])
      requires EntryPut(disk1, disk, g, chains[e.dir], e.pos, entry)
      ensures EntryWritten(f, e, entry)
    {
      forall h | 0 <= h < |old(chains)| && h != f && h != e.dir
        ensures FileKept(h)
      {
        assert SameBytes(old(disk), disk1, g, chains[h]) && SameBytes(disk1, disk, g, chains[h]);
        OtherFile(h);
      }
    }

    /** File or directory h has its chain, its bytes, and the data on its clusters. */
    twostate predicate FileKept(h: int)
      requires old(FilesOk()) && FilesOk() && 0 <= h < |old(chains)|
      reads this
    {
      && 0 <= h < |chains| && chains[h] == old(chains)[h] && SameBytes(old(disk), disk, g, chains[h])
      && FileBytes(h) == old(FileBytes(h))
    }

    twostate lemma WriteDone(new f: int, new off: int, new data: Bytes, new end: int)
      requires old(Valid()) && 0 <= f < |old(chains)| && 0 <= off <= old(size)[f] && old(chains)[f] != []
      requires start == old(start) && Writing(f, old(disk), old(chains), off, data)
      requires size == old(size)[f := end] && end == NewSize(old(size)[f], off, |data|)
      ensures Valid() && |chains| == |old(chains)| && Wrote(f, off, data) && OthersKept(f)
    {
      ValidAfterWrite(f, old(disk), old(chains), old(size), off, data);
      WroteFile(f, off, data);
      forall h | 0 <= h < |old(chains)| && h != f
        ensures FileKept(h)
      {
        OtherFile(h);
      }
    }

    twostate lemma WroteAll(new f: int, new off: int, new data: Bytes, new end: int)
      requires old(Valid()) && 0 <= f < |old(chains)| && 0 <= off <= old(size)[f] && old(chains)[f] != []
      requires start == old(start) && Writing(f, old(disk), old(chains), off, data)
      requires size == old(size)[f := end] && end == NewSize(old(size)[f], off, |data|)
      ensures Valid() && |chains| == |old(chains)| && WroteOn(f, off, data, disk)
    {
      WriteDone(f, off, data, end);
      WroteNow(f, off, data);
    }

    /** What readers of f see after the write. */
    twostate lemma WroteFile(new f: int, new off: int, new data: Bytes)
      requires old(Valid()) && Valid() && 0 <= f < |old(chains)| && 0 <= f < |chains| && 0 <= off <= old(size)[f]
      requires Written(old(disk), old(chains)[f], disk, chains[f], g, off, data)
      requires size[f] == NewSize(old(size)[f], off, |data|)
      ensures 0 <= size[f] <= |Overwritten(old(FileBytes(f)), off, data)|
      ensures FileBytes(f) == Overwritten(old(FileBytes(f)), off, data)[..size[f]]
    {
      var end := if off + |data| > old(size)[f] then off + |data| else old(size)[f];
      WrittenContent(old(disk), old(chains)[f], disk, chains[f], g, off, data, old(size)[f], end);
      assert chains[f][..|chains[f]|] == chains[f];
      PrefixContent(disk, g, chains[f], |chains[f]|, size[f], end);
    }

    /** Readers of another file see what they saw. */
    twostate lemma OtherFile(new h: int)
      requires old(FilesOk()) && FilesOk() && 0 <= h < |old(chains)| && 0 <= h < |chains|
      requires chains[h] == old(chains)[h] && size[h] == old(size)[h]
      requires SameBytes(old(disk), disk, g, chains[h])
      ensures FileKept(h)
    {
      SameContent(old(disk), disk, g, chains[h], size[h]);
    }

    /**
     fat_file_pread: the bytes at offset, as many as were asked for and the file has. A read that
     returns any writes the entry, which carries the time of access.
     */
    method PRead(f: int, count: int, offset: int, e: Place) returns (bytes: Bytes, errno: Errno)
      requires Valid() && 0 <= f < |chains| && 0 <= offset && 0 <= count && PlaceOk(f, e)
      modifies this`disk
      ensures Valid() && bytes == Slice(old(FileBytes(f)), offset, count) && FileBytes(f) == old(FileBytes(f))
      ensures |bytes| == if offset > size[f] then 0 else if count < size[f] - offset then count else size[f] - offset
      ensures forall k :: 0 <= k < |bytes| ==> bytes[k] == old(FileBytes(f))[offset + k]
      ensures errno == if offset > size[f] then EOVERFLOW else NoError
      ensures if bytes == [] then disk == old(disk) else EntryWritten(f, e, EntryBytes(e.info, start[f], size[f]))
      ensures HeadKept(old(disk), disk, g)
    {
      bytes := [];
      if offset > size[f] {
        return bytes, EOVERFLOW;
      }
      errno := NoError;
      var n := if count < size[f] - offset then count else size[f] - offset;
      if n == 0 {
        return;
      }
      var cluster := FirstToRead(f, offset);
      if cluster == 0 {
        return;
      }
      bytes := ReadLoop(f, n, offset, cluster);
      assert |bytes| == n && bytes == Slice(FileBytes(f), offset, count);
      WriteDirEntry(e.dir, e.pos, EntryBytes(e.info, start[f], size[f]));
      ReadDone(f, e);
    }

    twostate lemma ReadDone(new f: int, new e: Place)
      requires old(Valid()) && Valid() && chains == old(chains) && size == old(size) && start == old(start)
      requires 0 <= f < |chains| && PlaceOk(f, e)
      requires forall h :: 0 <= h < |chains| && h != e.dir ==> SameBytes(old(disk), disk, g, chains[h])
      requires EntryPut(old(disk), disk, g, chains[e.dir], e.pos, EntryBytes(e.info, start[f], size[f]))
      ensures FileBytes(f) == old(FileBytes(f)) && EntryWritten(f, e, EntryBytes(e.info, start[f], size[f]))
    {
      ChainClusters(f);
      SameContent(old(disk), disk, g, chains[f], size[f]);
      forall h | 0 <= h < |chains| && h != f && h != e.dir
        ensures FileKept(h)
      {
        OtherFile(h);
      }
    }

    lemma SameForAll()
      requires TableOk(fat, g.n, chains, owner, pos) && DiskOk(disk, g)
      ensures forall h :: 0 <= h < |chains| ==> SameBytes(disk, disk, g, chains[h])
    {
      forall h | 0 <= h < |chains|
        ensures SameBytes(disk, disk, g, chains[h])
      {
        ChainClusters(h);
      }
    }

    method FirstToRead(f: int, offset: int) returns (cluster: int)
      requires Valid() && 0 <= f < |chains| && 0 <= offset < size[f]
      ensures cluster != 0 && At(f, cluster, offset)
    {
      ChainClusters(f);
      StepBack(g, |chains[f]|, offset);
      Locate(g, |chains[f]|, offset);
      cluster := Seek(f, offset);
    }

    /** The loop of fat_file_pread. */
    method ReadLoop(f: int, n: int, offset: int, first: int) returns (bytes: Bytes)
      requires Valid() && 0 <= f < |chains| && 0 <= offset && 1 <= n && offset + n <= size[f]
      requires At(f, first, offset)
      ensures bytes == FileBytes(f)[offset..offset + n]
    {
      bytes := [];
      var at, remaining, cluster := offset, n, first;
      while remaining > 0
        invariant 0 <= remaining && |bytes| + remaining == n && at == offset + |bytes|
        invariant bytes == FileBytes(f)[offset..at]
        invariant remaining > 0 ==> At(f, cluster, at)
      {
        if !IsValid(cluster) {
          ValidAt(f, cluster, at);
          break;
        }
        var m := RemainingBytes(g, remaining, at);
        ChunkSize(g, remaining, at);
        assert m < remaining ==> Mask(g, at) + m == g.bpc;
        var after := at + m;
        var chunk := ReadChunk(f, cluster, at, after);
        SliceJoin(FileBytes(f), offset, at, after);
        bytes := bytes + chunk;
        cluster := NextForRead(f, cluster, at, after, size[f]);
        remaining, at := remaining - m, after;
      }
    }

    lemma ValidAt(f: int, cluster: int, offset: int)
      requires Valid() && 0 <= f < |chains| && At(f, cluster, offset)
      ensures IsValid(cluster)
    {
      ChainClusters(f);
    }

    /** The pread of one loop iteration. */
    method ReadChunk(f: int, cluster: int, offset: int, after: int) returns (chunk: Bytes)
      requires Valid() && 0 <= f < |chains| && At(f, cluster, offset)
      requires offset < after <= size[f] && Mask(g, offset) + (after - offset) <= g.bpc
      ensures chunk == FileBytes(f)[offset..after]
    {
      ChainClusters(f);
      ClusterInside(disk, g, cluster);
      var at := ClusterOffset(g, cluster) + Mask(g, offset);
      chunk := disk[at..at + (after - offset)];
      forall j | 0 <= j < |chunk|
        ensures chunk[j] == FileBytes(f)[offset..after][j]
      {
        ByteInChunk(disk, g, chains[f], offset, offset + j);
      }
    }

    method NextForRead(f: int, cluster: int, ghost offset: int, ghost after: int, ghost end: int) returns (next: int)
      requires Valid() && 0 <= f < |chains| && At(f, cluster, offset) && end == size[f]
      requires offset < after <= end && Mask(g, offset) + (after - offset) <= g.bpc
      ensures Mask(g, offset) + (after - offset) == g.bpc && after < end ==> At(f, next, after)
    {
      ghost var i := Index(g, offset);
      NextInChain(fat, g.n, chains, owner, pos, f, i);
      next := GetNext(fat, g.n, cluster);
      if Mask(g, offset) + (after - offset) == g.bpc && after < end {
        Parts(g, offset);
        LocateIs(g, after, i + 1, 0);
        Locate(g, |chains[f]|, after);
      }
    }

    /** The loop that frees a chain from position lo on: fat_file_truncate, unlink and rmdir. */
    method FreeLoop(f: int, first: int, ghost lo: int, ghost fat0: Table)
      requires TableOk(fat0, g.n, chains, owner, pos) && 0 <= f < |chains| && 0 <= lo <= |chains[f]|
      requires TailFreed(fat0, fat, g.n, owner, pos, f, chains[f], lo, lo) && fat == diskFat
      requires first == if lo < |chains[f]| then chains[f][lo] else EOC_MAX
      modifies this`fat, this`diskFat
      ensures TailFreed(fat0, fat, g.n, owner, pos, f, chains[f], lo, |chains[f]|) && fat == diskFat
    {
      var cluster := first;
      ghost var j := lo;
      while IsValid(cluster)
        invariant lo <= j <= |chains[f]| && fat == diskFat
        invariant TailFreed(fat0, fat, g.n, owner, pos, f, chains[f], lo, j)
        invariant cluster == if j < |chains[f]| then chains[f][j] else EOC_MAX
        decreases |chains[f]| - j
      {
        NextInChain(fat0, g.n, chains, owner, pos, f, j);
        NotYetFreed(fat0, g.n, chains, owner, pos, f, lo, j, fat);
        ghost var before := fat;
        var next := GetNext(fat, g.n, cluster);
        SetNext(cluster, FREE);
        FreedOneMore(fat0, g.n, chains, owner, pos, f, lo, j, before, fat);
        j := j + 1;
        cluster := next;
      }
      if j < |chains[f]| {
        NextInChain(fat0, g.n, chains, owner, pos, f, j);
        assert false;
      }
    }

    /** The clusters a size needs, at least one. */
    function Needed(bytes: int): int
      requires g.bpc > 0
    {
      if ClustersFor(g, bytes) > 1 then ClustersFor(g, bytes) else 1
    }

    /** So many clusters hold the bytes, and one less does not, unless it is the one that every file has. */
    lemma NeededIs(bytes: int)
      requires g.bpc > 0 && 0 <= bytes
      ensures 1 <= Needed(bytes) && bytes <= Needed(bytes) * g.bpc
      ensures Needed(bytes) == 1 || (Needed(bytes) - 1) * g.bpc < bytes
    {
      var k := Index(g, bytes + (g.bpc - 1));
      Parts(g, bytes + (g.bpc - 1));
      CapIs(g, k);
      Distribute(k - 1, 1, g.bpc);
    }

    /**
     fat_file_truncate. It acts only when the new size needs fewer clusters than the old one;
     then exactly the first offset / bpc + 1 clusters and the first offset bytes are kept, and the
     entry is written. Otherwise nothing changes, not even the size.
     */
    method Truncate(f: int, offset: int, e: Place) returns (acted: bool)
      requires Valid() && 0 <= f < |chains| && 0 <= offset && PlaceOk(f, e)
      modifies this`disk, this`fat, this`diskFat, this`chains, this`owner, this`size
      ensures Valid() && |chains| == |old(chains)|
      ensures acted <==> offset <= old(size)[f] && Needed(offset) < Needed(old(size)[f])
      ensures !acted ==> disk == old(disk) && fat == old(fat) && chains == old(chains) && size == old(size)
      ensures acted ==> size == old(size)[f := offset] && offset <= |old(FileBytes(f))|
      ensures acted ==> FileBytes(f) == old(FileBytes(f))[..offset]
      ensures acted ==> EntryWritten(f, e, EntryBytes(e.info, start[f], size[f]))
      ensures HeadKept(old(disk), disk, g)
      ensures acted ==> Index(g, offset) < |old(chains)[f]|
      ensures acted ==> chains == old(chains)[f := old(chains)[f][..Index(g, offset) + 1]]
      ensures acted ==> Cut(old(fat), fat, old(chains)[f], Index(g, offset) + 1)
    {
      if offset > size[f] || Needed(offset) >= Needed(size[f]) {
        return false;
      }
      Shrink(f, offset);
      DataKept(f);
      WriteDirEntry(e.dir, e.pos, EntryBytes(e.info, start[f], size[f]));
      EntryDone(f, e, old(disk), EntryBytes(e.info, start[f], size[f]));
      SameContent(old(disk), disk, g, chains[f], size[f]);
      return true;
    }

    /** fat_file_truncate once it acts. */
    method Shrink(f: int, offset: int)
      requires Valid() && 0 <= f < |chains| && 0 <= offset < size[f]
      modifies this`fat, this`diskFat, this`chains, this`owner, this`size
      ensures Valid() && |chains| == |old(chains)| && OthersKept(f) && size == old(size)[f := offset]
      ensures 0 <= Index(g, offset) < |old(chains)[f]|
      ensures offset <= |old(FileBytes(f))| && FileBytes(f) == old(FileBytes(f))[..offset]
      ensures chains == old(chains)[f := old(chains)[f][..Index(g, offset) + 1]]
      ensures Cut(old(fat), fat, old(chains)[f], Index(g, offset) + 1)
    {
      ghost var lo := Index(g, offset) + 1;
      TruncateInside(g, |chains[f]|, offset, size[f]);
      ChainClusters(f);
      var last := Seek(f, offset);
      CutTail(f, last, lo);
      size := size[f := offset];
      TruncateDone(f, offset, lo);
    }

    /** The table part of fat_file_truncate. */
    method CutTail(f: int, last: int, ghost lo: int)
      requires TableValid() && 0 <= f < |chains| && 0 < lo <= |chains[f]| && chains[f][lo - 1] == last
      modifies this`fat, this`diskFat, this`chains, this`owner
      ensures TableValid() && chains == old(chains)[f := old(chains)[f][..lo]]
      ensures Cut(old(fat), fat, old(chains)[f], lo)
    {
      ghost var fat0, lastly := fat, chains[f];
      NextInChain(fat, g.n, chains, owner, pos, f, lo - 1);
      var next := GetNext(fat, g.n, last);
      SetNext(last, EOC_MAX);
      CutStarts(fat0, g.n, chains, owner, pos, f, lo, fat);
      FreeLoop(f, next, lo, fat0);
      owner := CutOwner(owner, pos, g.n, f, lo, |chains[f]|);
      chains := chains[f := chains[f][..lo]];
      CutTable(fat0, g.n, old(chains), old(owner), pos, f, lo, fat, owner);
      CutKeeps(fat0, fat, g.n, old(chains), old(owner), pos, f, lo);
      assert Owned(old(owner), pos, g.n, f, lastly);
      TailIsCut(fat0, fat, g.n, old(owner), pos, f, lastly, lo);
    }

    twostate lemma TruncateDone(new f: int, new offset: int, new lo: int)
      requires old(Valid()) && 0 <= f < |old(chains)| && TableValid()
      requires disk == old(disk) && start == old(start) && size == old(size)[f := offset]
      requires 0 < lo <= |old(chains)[f]| && chains == old(chains)[f := old(chains)[f][..lo]]
      requires 0 <= offset < old(size)[f] && offset <= Cap(g, lo)
      ensures Valid() && |chains| == |old(chains)| && OthersKept(f)
      ensures FileBytes(f) == old(FileBytes(f))[..offset]
    {
      assert EntryOk(g, old(chains)[f], old(start)[f], old(size)[f]);
      assert forall h :: 0 <= h < |chains| && h != f ==> chains[h] == old(chains)[h];
      assert Owned(old(owner), old(pos), g.n, f, old(chains)[f]);
      PrefixContent(disk, g, old(chains)[f], lo, offset, old(size)[f]);
      OthersAsBefore(f);
    }

    twostate lemma OthersAsBefore(new f: int)
      requires old(FilesOk()) && FilesOk() && disk == old(disk) && |chains| >= |old(chains)|
      requires forall h :: 0 <= h < |old(chains)| && h != f ==> chains[h] == old(chains)[h] && size[h] == old(size)[h]
      ensures OthersKept(f)
    {
      forall h | 0 <= h < |old(chains)| && h != f
        ensures FileKept(h)
      {
        ChainClusters(h);
        OtherFile(h);
      }
    }

    /**
     fat_fuse_unlink and fat_fuse_rmdir: the clusters, then the entry, which keeps its start cluster
     and size and is marked by its first byte. Exactly the file's chain becomes free. A file without
     clusters starts at 0, and then the loop clears entry 0.
     */
    method Unlink(f: int, e: Place)
      requires Valid() && 0 <= f < |chains| && PlaceOk(f, e)
      modifies this`disk, this`fat, this`diskFat, this`chains, this`owner, this`start, this`size
      ensures Valid() && |chains| == |old(chains)|
      ensures chains == old(chains)[f := []] && start == old(start)[f := 0] && size == old(size)[f := 0]
      ensures |fat| == |old(fat)|
      ensures old(start)[f] != 0 ==> forall c :: 0 <= c < |fat| ==>
        fat[c] == if c in old(chains)[f] then FREE else old(fat)[c]
      ensures old(start)[f] == 0 ==> |fat| > 0 && fat == old(fat)[0 := FREE]
      ensures EntryWritten(f, e, EntryBytes(Marked(e.info), old(start)[f], old(size)[f]))
      ensures HeadKept(old(disk), disk, g)
    {
      var entry := EntryBytes(Marked(e.info), start[f], size[f]);
      Release(f);
      DataKept(f);
      WriteDirEntry(e.dir, e.pos, entry);
      EntryDone(f, e, old(disk), entry);
    }

    /** The freeing loop of unlink and rmdir; the file has no chain any more. */
    method Release(f: int)
      requires Valid() && 0 <= f < |chains|
      modifies this`fat, this`diskFat, this`chains, this`owner, this`start, this`size
      ensures Valid() && |chains| == |old(chains)| && OthersKept(f)
      ensures chains == old(chains)[f := []] && start == old(start)[f := 0] && size == old(size)[f := 0]
      ensures |fat| == |old(fat)|
      ensures old(start)[f] != 0 ==> forall c :: 0 <= c < |fat| ==>
        fat[c] == if c in old(chains)[f] then FREE else old(fat)[c]
      ensures old(start)[f] == 0 ==> |fat| > 0 && fat == old(fat)[0 := FREE]
    {
      assert EntryOk(g, chains[f], start[f], size[f]);
      ChainClusters(f);
      if start[f] == 0 {
        FreeReserved(f);
      } else {
        FreeChain(f);
      }
      start, size := start[f := 0], size[f := 0];
      UnlinkDone(f);
    }

    method FreeChain(f: int)
      requires TableValid() && 0 <= f < |chains| && 0 <= f < |start| && chains[f] != [] && chains[f][0] == start[f]
      modifies this`fat, this`diskFat, this`chains, this`owner
      ensures TableValid() && chains == old(chains)[f := []] && |fat| == |old(fat)|
      ensures forall c :: 0 <= c < |fat| ==> fat[c] == if c in old(chains)[f] then FREE else old(fat)[c]
    {
      ghost var fat0 := fat;
      FreeLoop(f, start[f], 0, fat0);
      owner := CutOwner(owner, pos, g.n, f, 0, |chains[f]|);
      chains := chains[f := []];
      assert old(chains)[f][..0] == [];
      CutTable(fat0, g.n, old(chains), old(owner), pos, f, 0, fat, owner);
      CutKeeps(fat0, fat, g.n, old(chains), old(owner), pos, f, 0);
    }

    /** The freeing loop started at cluster 0, which is a reserved entry and on no chain. */
    method FreeReserved(f: int)
      requires TableValid() && 0 <= f < |chains| && 0 <= f < |start| && chains[f] == [] && start[f] == 0
      modifies this`fat, this`diskFat
      ensures TableValid() && fat == old(fat)[0 := FREE]
    {
      var cluster := start[f];
      while IsValid(cluster)
        invariant fat == diskFat && |fat| == |old(fat)|
        invariant if cluster == 0 then fat == old(fat) else cluster == EOC_MAX && fat == old(fat)[0 := FREE]
        decreases EOC_MAX - cluster
      {
        var next := GetNext(fat, g.n, cluster);
        SetNext(cluster, FREE);
        cluster := next;
      }
      ReservedFreed(old(fat), g.n, chains, owner, pos, fat);
      SlackKept(old(fat), fat, g.n);
    }

    twostate lemma UnlinkDone(new f: int)
      requires old(Valid()) && 0 <= f < |old(chains)| && TableValid() && disk == old(disk)
      requires chains == old(chains)[f := []] && start == old(start)[f := 0] && size == old(size)[f := 0]
      ensures Valid() && |chains| == |old(chains)| && OthersKept(f)
    {
      assert forall h :: 0 <= h < |chains| && h != f ==> chains[h] == old(chains)[h];
      OthersAsBefore(f);
    }

    /**
     fat_fuse_mknod and fat_fuse_mkdir: the file, then its entry behind the last one of the
     directory. With a free cluster they make a file; on a full volume the lookup decides, and
     nothing has changed unless it finds entry 0x0FFFFFFF and that is free. Then the new entry
     has that start cluster, which lies behind all data clusters.
     */
    method Mknod(isDir: bool, e: Place) returns (r: Init)
      requires Valid() && PlaceOk(|chains|, e)
      modifies this`fat, this`diskFat, this`disk, this`chains, this`owner, this`pos, this`start, this`size
      ensures Ends(r, old(fat)) && FilesOk()
      ensures r.Made? ==> Valid() && r.f == |old(chains)| && NewFile(r.f, isDir)
      ensures r.Made? ==> EntryWritten(r.f, e, EntryBytes(e.info, start[r.f], 0))
      ensures r.NoSpace? || r.PastTable? ==> fat == old(fat) && diskFat == old(diskFat) && disk == old(disk)
      ensures r.Stray? ==> fat == diskFat == old(fat)[EOC_MAX := EOC_MAX]
      ensures r.Stray? ==> EntryWritten(|chains|, e, EntryBytes(e.info, 0x0FFF_FFFF, 0))
      ensures HeadKept(old(disk), disk, g)
      ensures !r.Made? ==> chains == old(chains) && start == old(start) && size == old(size)
    {
      r := Create(isDir);
      if r.Made? {
        DataKept(r.f);
        ghost var disk1 := disk;
        WriteDirEntry(e.dir, e.pos, EntryBytes(e.info, start[r.f], 0));
        ChildDone(r.f, isDir, e, disk1);
      } else if r.Stray? {
        DataKept(|chains|);
        ghost var disk1 := disk;
        WriteDirEntry(e.dir, e.pos, EntryBytes(e.info, EOC_MAX, 0));
        EntryDone(|chains|, e, disk1, EntryBytes(e.info, EOC_MAX, 0));
      }
    }

    /** How fat_file_init ends on this table. */
    ghost predicate Ends(r: Init, fat: Table) {
      && (r.Made? <==> !NoFreeCluster(fat, g.n))
      && (r.PastTable? <==> NoFreeCluster(fat, g.n) && |fat| <= 0x0FFF_FFFF)
      && (r.NoSpace? <==> NoFreeCluster(fat, g.n) && |fat| > 0x0FFF_FFFF && fat[0x0FFF_FFFF] != FREE)
    }

    /** The cluster part of fat_file_init. */
    method Create(isDir: bool) returns (r: Init)
      requires Valid()
      modifies this`fat, this`diskFat, this`disk, this`chains, this`owner, this`pos, this`start, this`size
      ensures Ends(r, old(fat)) && FilesOk()
      ensures r.Made? ==> Valid() && r.f == |old(chains)| && OthersKept(r.f) && NewFile(r.f, isDir)
      ensures r.NoSpace? || r.PastTable? ==> fat == old(fat) && diskFat == old(diskFat) && disk == old(disk)
      ensures r.Stray? ==> fat == diskFat == old(fat)[EOC_MAX := EOC_MAX] && OthersKept(|chains|)
      ensures HeadKept(old(disk), disk, g)
      ensures !r.Made? ==> chains == old(chains) && start == old(start) && size == old(size)
    {
      var c := NextFree();
      LookupInsideIff(fat, g.n, chains, owner, pos);
      if c >= |fat| {
        return PastTable;
      }
      if fat[c] != FREE {
        return NoSpace;
      }
      if c == EOC_MAX {
        StrayEntry(isDir);
        forall h | 0 <= h < |chains|
          ensures FileKept(h)
        {
          OtherFile(h);
        }
        return Stray;
      }
      label BeforeMaking:
      var f := CreateAt(c, isDir);
      forall h | 0 <= h < |old(chains)| && h != f
        ensures FileKept(h)
      {
        assert FileKept@BeforeMaking(h);
      }
      r := Made(f);
    }

    /**
     fat_file_init on the end-of-chain mark, in a table that has that many entries. For a directory
     it writes zeros where cluster 0x0FFFFFFF would be, which lengthens the image if need be.
     */
    method StrayEntry(isDir: bool)
      requires Valid() && EOC_MAX < |fat|
      modifies this`fat, this`diskFat, this`disk
      ensures fat == diskFat == old(fat)[EOC_MAX := EOC_MAX] && FilesOk()
      ensures 0 <= g.bpc && 0 <= ClusterOffset(g, EOC_MAX)
      ensures disk == if isDir then WrittenPast(old(disk), ClusterOffset(g, EOC_MAX), seq(g.bpc, _ => 0)) else old(disk)
      ensures HeadKept(old(disk), disk, g)
      ensures forall h :: 0 <= h < |chains| ==> SameBytes(old(disk), disk, g, chains[h])
    {
      SetNext(EOC_MAX, EOC_MAX);
      forall f | 0 <= f < |chains|
        ensures ChainOk(fat, g.n, chains[f])
      {
        assert ChainOk(old(fat), g.n, chains[f]);
        ChainAgrees(old(fat), fat, g.n, chains[f]);
      }
      SameForAll();
      CapOrder(g, g.n, EOC_MAX - 2);
      if isDir {
        disk := WrittenPast(disk, ClusterOffset(g, EOC_MAX), seq(g.bpc, _ => 0));
        forall h | 0 <= h < |chains|
          ensures SameBytes(old(disk), disk, g, chains[h])
        {
          ChainClusters(h);
          SameBelow(old(disk), disk, g, chains[h]);
        }
      }
    }

    twostate lemma ChildDone(new f: int, new isDir: bool, new e: Place, new disk1: Bytes)
      requires old(Valid()) && Valid() && f == |old(chains)| && FreshFile(f) && 0 <= e.dir < f
      requires isDir ==> AllZero(disk1, f)
      requires forall h :: 0 <= h < f ==> chains[h] == old(chains)[h] && SameBytes(old(disk), disk1, g, chains[h])
      requires forall h :: 0 <= h < |chains| && h != e.dir ==> SameBytes(disk1, disk, g, chains[h])
      requires InfoOk(e.info) && EntryPut(disk1, disk, g, chains[e.dir], e.pos, EntryBytes(e.info, start[f], 0))
      ensures NewFile(f, isDir) && EntryWritten(f, e, EntryBytes(e.info, start[f], 0))
    {
      EntryDone(f, e, disk1, EntryBytes(e.info, start[f], 0));
    }

    /** f is a new file or directory of size 0 on one cluster that was free, which holds zeros for a directory. */
    twostate predicate NewFile(f: int, isDir: bool)
      requires FilesOk() && 0 <= f
      reads this
    {
      FreshFile(f) && (isDir ==> AllZero(disk, f))
    }

    twostate predicate FreshFile(f: int)
      requires FilesOk() && 0 <= f
      reads this
    {
      && |chains| == f + 1 && chains[..f] == old(chains) && |chains[f]| == 1
      && old(start) <= start && old(size) <= size && size[f] == 0
      && DataCluster(g.n, start[f]) && start[f] < |old(fat)| && old(fat)[start[f]] == FREE
      && fat == old(fat)[start[f] := 0x0FFF_FFFF]
    }

    /** f's first cluster holds zeros on the disk d. */
    ghost predicate AllZero(d: Bytes, f: int)
      reads this`chains
    {
      && 0 <= f < |chains| && |chains[f]| == 1 && DiskOk(d, g) && Clusters(g, chains[f])
      && forall k :: 0 <= k < Cap(g, 1) ==> ByteAt(d, g, chains[f], k) == 0
    }

    /** fat_file_init once it has a free cluster. */
    method CreateAt(c: int, isDir: bool) returns (f: int)
      requires Valid() && DataCluster(g.n, c) && c < |fat| && fat[c] == FREE
      modifies this`fat, this`diskFat, this`disk, this`chains, this`owner, this`pos, this`start, this`size
      ensures Valid() && f == |old(chains)| && OthersKept(f) && NewFile(f, isDir) && HeadKept(old(disk), disk, g)
    {
      f := |start|;
      SetNext(c, EOC_MAX);
      RegisterNew(c);
      CreateTable(old(fat), g.n, old(chains), old(owner), old(pos), c, fat, chains, owner, pos);
      SlackKept(old(fat), fat, g.n);
      start, size := start + [c], size + [0];
      if isDir {
        ClearCluster(c, f);
      }
      CreateDone(f);
    }

    ghost method RegisterNew(c: int)
      requires DataCluster(g.n, c) && |owner| == |pos| == g.n + 2
      modifies this`chains, this`owner, this`pos
      ensures chains == old(chains) + [[c]]
      ensures owner == old(owner)[c := |old(chains)|] && pos == old(pos)[c := 0]
    {
      owner, pos := owner[c := |chains|], pos[c := 0];
      chains := chains + [[c]];
    }

    /** clear_cluster. */
    method ClearCluster(c: int, ghost f: int)
      requires TableValid() && DiskOk(disk, g) && 0 <= f < |chains| && chains[f] == [c]
      modifies this`disk
      ensures DiskOk(disk, g) && Clusters(g, chains[f])
      ensures forall k :: 0 <= k < Cap(g, 1) ==> ByteAt(disk, g, chains[f], k) == 0
      ensures HeadKept(old(disk), disk, g)
      ensures forall h :: 0 <= h < |chains| && h != f ==> SameBytes(old(disk), disk, g, chains[h])
    {
      ChainClusters(f);
      ClusterInside(disk, g, c);
      var zeros := seq(g.bpc, _ => 0);
      WriteDisk(zeros, ClusterOffset(g, c));
      assert disk == WriteAt(old(disk), g, c, 0, zeros);
      assert Cap(g, 1) == g.bpc by { assert Cap(g, 0) == 0; }
      WrittenBytes(old(disk), chains[f], g, 0, zeros, disk);
      forall h | 0 <= h < |chains| && h != f
        ensures SameBytes(old(disk), disk, g, chains[h])
      {
        ChainClusters(h);
        NotOnChain(h, f, 0);
        SameStep(old(disk), old(disk), g, chains[h], c, 0, zeros, disk);
      }
    }

    /** write_dir_entry: it fails, and nobody looks, when the entry is not in the directory's first cluster. */
    method WriteDirEntry(d: int, k: int, entry: Bytes)
      requires FilesOk() && 0 <= d < |chains| && chains[d] != [] && 0 <= k && |entry| == ENTRY_BYTES
      requires g.bpc % ENTRY_BYTES == 0
      modifies this`disk
      ensures FilesOk() && EntryPut(old(disk), disk, g, chains[d], k, entry)
      ensures g.bpc <= 32 * k ==> disk == old(disk)
      ensures forall h :: 0 <= h < |chains| && h != d ==> SameBytes(old(disk), disk, g, chains[h])
    {
      ChainClusters(d);
      SameForAll();
      if g.bpc <= k * ENTRY_BYTES {
        return;
      }
      PutEntry(d, k * ENTRY_BYTES, entry);
    }

    method PutEntry(d: int, at: int, entry: Bytes)
      requires FilesOk() && 0 <= d < |chains| && chains[d] != [] && 0 <= at && at + |entry| <= g.bpc && at < g.bpc
      modifies this`disk
      ensures FilesOk() && Clusters(g, chains[d]) && HeadKept(old(disk), disk, g)
      ensures forall j :: 0 <= j < Cap(g, |chains[d]|) ==>
        ByteAt(disk, g, chains[d], j) == if at <= j < at + |entry| then entry[j - at]
          else old(ByteAt(disk, g, chains[d], j))
      ensures forall h :: 0 <= h < |chains| && h != d ==> SameBytes(old(disk), disk, g, chains[h])
    {
      ChainClusters(d);
      var c := start[d];
      ClusterInside(disk, g, c);
      CapOrder(g, 1, |chains[d]|);
      assert Cap(g, 1) == g.bpc by { assert Cap(g, 0) == 0; }
      WriteDisk(entry, ClusterOffset(g, c) + at);
      assert disk == WriteAt(old(disk), g, c, at, entry);
      WrittenBytes(old(disk), chains[d], g, at, entry, disk);
      forall h | 0 <= h < |chains| && h != d
        ensures SameBytes(old(disk), disk, g, chains[h])
      {
        ChainClusters(h);
        NotOnChain(h, d, 0);
        SameStep(old(disk), old(disk), g, chains[h], c, at, entry, disk);
      }
    }

    twostate lemma CreateDone(new f: int)
      requires old(Valid()) && TableValid() && DiskOk(disk, g) && f == |old(chains)| && |chains| == f + 1
      requires forall h :: 0 <= h < f ==> chains[h] == old(chains)[h]
      requires forall h :: 0 <= h < f ==> SameBytes(old(disk), disk, g, chains[h])
      requires |start| == |size| == f + 1 && old(start) == start[..f] && old(size) == size[..f]
      requires chains[f] == [start[f]] && size[f] == 0
      ensures Valid() && OthersKept(f)
    {
      forall h | 0 <= h < |chains|
        ensures EntryOk(g, chains[h], start[h], size[h])
      {
        if h < f {
          assert EntryOk(g, old(chains)[h], old(start)[h], old(size)[h]);
        } else {
          CapOrder(g, 0, 1);
        }
      }
      forall h | 0 <= h < f
        ensures FileKept(h)
      {
        OtherFile(h);
      }
    }
  }

  // ------------------------------------------------------------------ the 32-bit size

  /** Clusters of 32768 bytes: one for the root directory, 2^17 for the file, one that is free. */
  const LARGE := Geometry(0x2_0002, 0x8000, 0)

  /** One byte appended to a file of 2^32 - 1 bytes is written, and leaves a file of no bytes. */
  method AppendAtLimit(contents: Bytes, byte: int, info: Info) returns (v: Volume, t: int, errno: Errno)
    requires DiskOk(contents, LARGE) && InfoOk(info)
    ensures t == 1 && errno == NoError && v.Valid() && |v.chains| == 2 && v.size[1] == 0 && v.FileBytes(1) == []
  {
    CapIs(LARGE, 0x2_0000);
    v := new Volume(LARGE, contents, 0x2_0000, UINT_LIMIT - 1);
    t, errno := v.AppendLast(1, byte, Place(0, 0, info));
  }

  // ------------------------------------------------------------------ a full directory

  /** Clusters of one entry: one for the root directory, one for a file. */
  const NARROW := Geometry(2, 32, 0)

  /** A file whose entry would be the directory's second is made, and the directory stays as it was. */
  method FullDirectory(contents: Bytes, info: Info) returns (v: Volume, r: Init)
    requires DiskOk(contents, NARROW) && InfoOk(info)
    ensures r.Made? && v.Valid() && |v.chains| == 3 && v.chains[0] == [2] && v.g == NARROW
    ensures forall j :: 0 <= j < Cap(NARROW, 1) ==>
      ByteAt(v.disk, NARROW, [2], j) == ByteAt(contents, NARROW, [2], j)
  {
    v := new Volume(NARROW, contents, 0, 0);
    assert v.fat[3] == FREE;
    assert v.chains[0] == [2];
    r := v.Mknod(false, Place(0, 1, info));
    assert v.chains[..2][0] == v.chains[0];
  }
}
