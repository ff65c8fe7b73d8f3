/**
 The bytes of a file on a chain of clusters: the offset arithmetic of fat_table.c and what one
 cluster-sized pread or pwrite does to it.
 */
module FatBytes {
  import opened Arith
  import opened ByteSeq
  import opened FatChain

  /** n data clusters of bpc bytes each, the first (number 2) at byte dataStart of the volume. */
  datatype Geometry = Geometry(n: int, bpc: int, dataStart: int)

  predicate GeometryOk(g: Geometry) {
    g.n >= 0 && g.bpc > 0 && g.dataStart >= 0
  }

  /** fat_table_cluster_offset. */
  function ClusterOffset(g: Geometry, c: int): int {
    g.dataStart + Cap(g, c - 2)
  }

  /** offset >> cluster_order: the whole clusters in the first offset bytes. */
  function Index(g: Geometry, offset: int): (i: int)
    requires g.bpc > 0
    ensures 0 <= i
    decreases offset
  {
    if offset < g.bpc then 0 else 1 + Index(g, offset - g.bpc)
  }

  /** fat_table_mask_offset: the position inside the cluster. */
  function Mask(g: Geometry, offset: int): (r: int)
    requires g.bpc > 0
    ensures r < g.bpc && (0 <= offset ==> 0 <= r)
    decreases offset
  {
    if offset < g.bpc then offset else Mask(g, offset - g.bpc)
  }

  /** The bytes that len clusters hold. */
  function Cap(g: Geometry, len: int): int
    decreases len
  {
    if len <= 0 then 0 else Cap(g, len - 1) + g.bpc
  }

  /** These three are quotient, remainder and product; the proofs below only need how they step. */
  lemma {:induction false} ShiftAndMask(g: Geometry, offset: int)
    requires g.bpc > 0 && 0 <= offset
    ensures Index(g, offset) == offset / g.bpc && Mask(g, offset) == offset % g.bpc
    decreases offset
  {
    if offset < g.bpc {
      DivMod(offset, 0, offset, g.bpc);
    } else {
      ShiftAndMask(g, offset - g.bpc);
      var q, r := (offset - g.bpc) / g.bpc, (offset - g.bpc) % g.bpc;
      Distribute(q, 1, g.bpc);
      DivMod(offset, q + 1, r, g.bpc);
    }
  }

  lemma {:induction false} CapIs(g: Geometry, len: int)
    requires len >= 0
    ensures Cap(g, len) == len * g.bpc
    decreases len
  {
    if len > 0 {
      CapIs(g, len - 1);
      Distribute(len - 1, 1, g.bpc);
    }
  }

  /** Cluster 2 starts where the data area does, and the others follow it. */
  lemma ClusterOffsetIs(g: Geometry, c: int)
    requires c >= 2
    ensures ClusterOffset(g, c) == g.dataStart + (c - 2) * g.bpc
  {
    CapIs(g, c - 2);
  }

  /** fat_table_get_cluster_remaining_bytes. */
  function RemainingBytes(g: Geometry, remaining: int, offset: int): int
    requires g.bpc > 0
  {
    var left := g.bpc - Mask(g, offset);
    if left < remaining then left else remaining
  }

  /** fat_table_get_clusters_for_size. */
  function ClustersFor(g: Geometry, size: int): int
    requires g.bpc > 0
  {
    Index(g, size + (g.bpc - 1))
  }

  lemma {:induction false} CapOrder(g: Geometry, a: int, b: int)
    requires a <= b && g.bpc > 0
    ensures 0 <= Cap(g, a) <= Cap(g, b)
    ensures 0 <= a < b ==> Cap(g, a) + g.bpc <= Cap(g, b)
    decreases b
  {
    if 0 < b {
      CapOrder(g, if a < b then a else b - 1, b - 1);
    }
  }

  /** Which cluster of a chain holds byte k, and where. */
  lemma {:induction false} Locate(g: Geometry, len: int, k: int)
    requires g.bpc > 0 && 0 <= k < Cap(g, len)
    ensures 0 <= Index(g, k) < len && 0 <= Mask(g, k) < g.bpc
    ensures k == Cap(g, Index(g, k)) + Mask(g, k)
    decreases len
  {
    if k >= g.bpc {
      Locate(g, len - 1, k - g.bpc);
    }
  }

  lemma {:induction false} Parts(g: Geometry, k: int)
    requires g.bpc > 0 && 0 <= k
    ensures k == Cap(g, Index(g, k)) + Mask(g, k)
    decreases k
  {
    if k >= g.bpc {
      Parts(g, k - g.bpc);
    }
  }

  lemma {:induction false} LocateIs(g: Geometry, k: int, q: int, r: int)
    requires g.bpc > 0 && q >= 0 && 0 <= r < g.bpc && k == Cap(g, q) + r
    ensures Index(g, k) == q && Mask(g, k) == r
    decreases q
  {
    CapOrder(g, 0, q);
    if q > 0 {
      CapOrder(g, 0, q - 1);
      LocateIs(g, k - g.bpc, q - 1, r);
    }
  }

  ghost predicate DiskOk(disk: Bytes, g: Geometry) {
    GeometryOk(g) && g.dataStart + Cap(g, g.n) <= |disk|
  }

  ghost predicate Clusters(g: Geometry, chain: Chain) {
    forall i :: 0 <= i < |chain| ==> DataCluster(g.n, chain[i])
  }

  ghost predicate Distinct(chain: Chain) {
    forall i, j :: 0 <= i < j < |chain| ==> chain[i] != chain[j]
  }

  /** Clusters lie one after the other inside the volume. */
  lemma ClusterInside(disk: Bytes, g: Geometry, c: int)
    requires DiskOk(disk, g) && DataCluster(g.n, c)
    ensures 0 <= ClusterOffset(g, c) && ClusterOffset(g, c) + g.bpc <= |disk|
    ensures g.dataStart <= ClusterOffset(g, c)
  {
    CapOrder(g, c - 2, g.n);
  }

  /** Nothing before the data area has changed: not the boot sector, nor the tables. */
  predicate HeadKept(d0: Bytes, d: Bytes, g: Geometry) {
    |d0| <= |d| && forall i :: 0 <= i < g.dataStart && i < |d0| ==> d[i] == d0[i]
  }

  lemma OffsetsOrdered(g: Geometry, c: int, d: int)
    requires GeometryOk(g) && 2 <= c < d
    ensures ClusterOffset(g, c) + g.bpc <= ClusterOffset(g, d)
  {
    CapOrder(g, c - 2, d - 2);
  }

  /** Byte k of a chain lies in its cluster k / bpc, inside the volume. */
  lemma InVolume(disk: Bytes, g: Geometry, chain: Chain, k: int)
    requires DiskOk(disk, g) && Clusters(g, chain) && 0 <= k < Cap(g, |chain|)
    ensures 0 <= Index(g, k) < |chain| && 0 <= Mask(g, k) < g.bpc
    ensures DataCluster(g.n, chain[Index(g, k)])
    ensures 0 <= ClusterOffset(g, chain[Index(g, k)])
    ensures ClusterOffset(g, chain[Index(g, k)]) + g.bpc <= |disk|
  {
    Locate(g, |chain|, k);
    ClusterInside(disk, g, chain[Index(g, k)]);
  }

  /** Byte k of the data on a chain. */
  ghost function ByteAt(disk: Bytes, g: Geometry, chain: Chain, k: int): int
    requires DiskOk(disk, g) && Clusters(g, chain) && 0 <= k < Cap(g, |chain|)
  {
    InVolume(disk, g, chain, k);
    disk[ClusterOffset(g, chain[Index(g, k)]) + Mask(g, k)]
  }

  /** The first size bytes of the data on a chain. */
  ghost function Content(disk: Bytes, g: Geometry, chain: Chain, size: int): (r: Bytes)
    requires DiskOk(disk, g) && Clusters(g, chain) && 0 <= size <= Cap(g, |chain|)
    ensures |r| == size && forall k :: 0 <= k < size ==> r[k] == ByteAt(disk, g, chain, k)
  {
    seq(size, k requires 0 <= k < size => ByteAt(disk, g, chain, k))
  }

  /** Where byte k of a chain is on the disk. */
  lemma ByteAtIs(disk: Bytes, g: Geometry, chain: Chain, k: int)
    requires DiskOk(disk, g) && Clusters(g, chain) && 0 <= k < Cap(g, |chain|)
    ensures 0 <= k / g.bpc < |chain|
    ensures var at := g.dataStart + (chain[k / g.bpc] - 2) * g.bpc + k % g.bpc;
      0 <= at < |disk| && ByteAt(disk, g, chain, k) == disk[at]
  {
    InVolume(disk, g, chain, k);
    ShiftAndMask(g, k);
    ClusterOffsetIs(g, chain[Index(g, k)]);
  }

  /** Where one iteration of the write loop puts data: byte `offset` of the chain. */
  ghost function WriteAt(disk: Bytes, g: Geometry, c: int, offset: int, data: Bytes): (r: Bytes)
    requires DiskOk(disk, g) && DataCluster(g.n, c) && 0 <= offset && Mask(g, offset) + |data| <= g.bpc
    ensures |r| == |disk|
  {
    ClusterInside(disk, g, c);
    Poke(disk, ClusterOffset(g, c) + Mask(g, offset), data)
  }

  /** The iteration changes exactly the bytes offset..offset + |data| of its own chain. */
  lemma WriteChunk(disk: Bytes, g: Geometry, chain: Chain, offset: int, data: Bytes, k: int)
    requires DiskOk(disk, g) && Clusters(g, chain) && Distinct(chain)
    requires 0 <= offset < Cap(g, |chain|) && Mask(g, offset) + |data| <= g.bpc
    requires 0 <= k < Cap(g, |chain|)
    ensures 0 <= Index(g, offset) < |chain|
    ensures ByteAt(WriteAt(disk, g, chain[Index(g, offset)], offset, data), g, chain, k)
            == if offset <= k < offset + |data| then data[k - offset] else ByteAt(disk, g, chain, k)
  {
    Locate(g, |chain|, offset);
    Locate(g, |chain|, k);
    var q := Index(g, offset);
    if Index(g, k) == q {
      SameCluster(disk, g, chain, offset, data, k);
    } else {
      assert chain[Index(g, k)] != chain[q];
      NotInRange(g, offset, data, k);
      OtherCluster(disk, g, chain, chain[q], offset, data, k);
    }
  }

  lemma NotInRange(g: Geometry, offset: int, data: Bytes, k: int)
    requires g.bpc > 0 && 0 <= offset && Mask(g, offset) + |data| <= g.bpc && Index(g, k) != Index(g, offset)
    ensures !(offset <= k < offset + |data|)
  {
    if offset <= k < offset + |data| {
      Parts(g, offset);
      LocateIs(g, k, Index(g, offset), Mask(g, offset) + (k - offset));
    }
  }

  lemma SameCluster(disk: Bytes, g: Geometry, chain: Chain, offset: int, data: Bytes, k: int)
    requires DiskOk(disk, g) && Clusters(g, chain)
    requires 0 <= offset < Cap(g, |chain|) && Mask(g, offset) + |data| <= g.bpc
    requires 0 <= k < Cap(g, |chain|) && Index(g, k) == Index(g, offset)
    ensures 0 <= Index(g, offset) < |chain|
    ensures ByteAt(WriteAt(disk, g, chain[Index(g, offset)], offset, data), g, chain, k)
            == if offset <= k < offset + |data| then data[k - offset] else ByteAt(disk, g, chain, k)
  {
    Locate(g, |chain|, offset);
    Locate(g, |chain|, k);
    SamePlace(g, k, offset, Index(g, k), Mask(g, k), Mask(g, offset));
    ByteOfPoke(disk, g, chain, Index(g, offset), offset, data, k);
  }

  lemma ByteOfPoke(disk: Bytes, g: Geometry, chain: Chain, i: int, offset: int, data: Bytes, k: int)
    requires DiskOk(disk, g) && Clusters(g, chain) && 0 <= i < |chain| && 0 <= offset && 0 <= k < Cap(g, |chain|)
    requires Index(g, k) == i && k - offset == Mask(g, k) - Mask(g, offset) && Mask(g, offset) + |data| <= g.bpc
    ensures ByteAt(WriteAt(disk, g, chain[i], offset, data), g, chain, k)
            == if offset <= k < offset + |data| then data[k - offset] else ByteAt(disk, g, chain, k)
  {
    var at := ClusterOffset(g, chain[i]) + Mask(g, k);
    ByteIs(disk, g, chain, i, k);
    ByteIs(WriteAt(disk, g, chain[i], offset, data), g, chain, i, k);
    WrittenAt(disk, g, chain[i], offset, data, at, k);
  }

  lemma WrittenAt(disk: Bytes, g: Geometry, c: int, offset: int, data: Bytes, at: int, k: int)
    requires DiskOk(disk, g) && DataCluster(g.n, c) && 0 <= offset && Mask(g, offset) + |data| <= g.bpc
      && 0 <= at < |disk|
    requires k - offset == at - (ClusterOffset(g, c) + Mask(g, offset))
    ensures WriteAt(disk, g, c, offset, data)[at] == if offset <= k < offset + |data| then data[k - offset]
      else disk[at]
  {
    ClusterInside(disk, g, c);
  }

  lemma ByteIs(disk: Bytes, g: Geometry, chain: Chain, i: int, k: int)
    requires DiskOk(disk, g) && Clusters(g, chain) && 0 <= i < |chain| && 0 <= k < Cap(g, |chain|) && Index(g, k) == i
    ensures 0 <= ClusterOffset(g, chain[i]) + Mask(g, k) < |disk|
    ensures ByteAt(disk, g, chain, k) == disk[ClusterOffset(g, chain[i]) + Mask(g, k)]
  {
    InVolume(disk, g, chain, k);
  }

  /** Inside one cluster distances are those of the file. */
  lemma SamePlace(g: Geometry, k: int, offset: int, i: int, r: int, o: int)
    requires k == Cap(g, i) + r && offset == Cap(g, i) + o
    ensures k - offset == r - o
  {
  }

  /** A write into cluster c does not reach byte k, which lies in another cluster. */
  lemma OtherCluster(disk: Bytes, g: Geometry, chain: Chain, c: int, offset: int, data: Bytes, k: int)
    requires DiskOk(disk, g) && Clusters(g, chain) && DataCluster(g.n, c)
    requires 0 <= offset && Mask(g, offset) + |data| <= g.bpc && 0 <= k < Cap(g, |chain|)
    requires 0 <= Index(g, k) < |chain| ==> chain[Index(g, k)] != c
    ensures ByteAt(WriteAt(disk, g, c, offset, data), g, chain, k) == ByteAt(disk, g, chain, k)
  {
    InVolume(disk, g, chain, k);
    ClusterInside(disk, g, c);
    var d := chain[Index(g, k)];
    if c < d {
      OffsetsOrdered(g, c, d);
    } else {
      OffsetsOrdered(g, d, c);
    }
  }

  /** A longer chain has the same bytes where the shorter one has any. */
  lemma PrefixBytes(disk: Bytes, g: Geometry, chain: Chain, more: Chain, k: int)
    requires DiskOk(disk, g) && Clusters(g, chain) && Clusters(g, chain + more)
    requires 0 <= k < Cap(g, |chain|)
    ensures k < Cap(g, |chain + more|)
    ensures ByteAt(disk, g, chain + more, k) == ByteAt(disk, g, chain, k)
  {
    CapOrder(g, |chain|, |chain + more|);
    Locate(g, |chain|, k);
  }

  /** Both disks show the same data on the chain. */
  ghost predicate SameBytes(d0: Bytes, d: Bytes, g: Geometry, chain: Chain) {
    && DiskOk(d0, g) && DiskOk(d, g) && HeadKept(d0, d, g) && Clusters(g, chain)
    && forall k :: 0 <= k < Cap(g, |chain|) ==> ByteAt(d, g, chain, k) == ByteAt(d0, g, chain, k)
  }

  /** chain extends chain0, and its data is that of chain0 with `data` written at off. */
  ghost predicate Written(d0: Bytes, chain0: Chain, d: Bytes, chain: Chain, g: Geometry, off: int, data: Bytes) {
    && DiskOk(d0, g) && DiskOk(d, g) && HeadKept(d0, d, g) && Clusters(g, chain) && Clusters(g, chain0)
    && chain0 <= chain && 0 <= off && off + |data| <= Cap(g, |chain|) && Cap(g, |chain0|) <= Cap(g, |chain|)
    && (forall k :: off <= k < off + |data| ==> ByteAt(d, g, chain, k) == data[k - off])
    && (forall k :: 0 <= k < Cap(g, |chain0|) && !(off <= k < off + |data|) ==>
          ByteAt(d, g, chain, k) == ByteAt(d0, g, chain0, k))
  }

  lemma WrittenStep(d0: Bytes, chain0: Chain, d: Bytes, chain: Chain, g: Geometry, off: int, data: Bytes, o: int,
                    chunk: Bytes, d': Bytes)
    requires Written(d0, chain0, d, chain, g, off, data) && Distinct(chain)
    requires o == off + |data| && o < Cap(g, |chain|) && Mask(g, o) + |chunk| <= g.bpc && 0 <= Index(g, o) < |chain|
    requires d' == WriteAt(d, g, chain[Index(g, o)], o, chunk)
    ensures Written(d0, chain0, d', chain, g, off, data + chunk)
  {
    ChunkFits(g, |chain|, o, |chunk|);
    WrittenBytes(d, chain, g, o, chunk, d');
    WrittenJoins(d0, chain0, d, chain, g, off, data, o, chunk, d');
  }

  lemma HeadWritten(disk: Bytes, g: Geometry, c: int, offset: int, data: Bytes)
    requires DiskOk(disk, g) && DataCluster(g.n, c) && 0 <= offset && Mask(g, offset) + |data| <= g.bpc
    ensures HeadKept(disk, WriteAt(disk, g, c, offset, data), g)
  {
    ClusterInside(disk, g, c);
  }

  lemma WrittenBytes(d: Bytes, chain: Chain, g: Geometry, o: int, chunk: Bytes, d': Bytes)
    requires DiskOk(d, g) && Clusters(g, chain) && Distinct(chain)
    requires 0 <= o < Cap(g, |chain|) && Mask(g, o) + |chunk| <= g.bpc && 0 <= Index(g, o) < |chain|
    requires d' == WriteAt(d, g, chain[Index(g, o)], o, chunk)
    ensures DiskOk(d', g) && HeadKept(d, d', g)
    ensures forall k :: 0 <= k < Cap(g, |chain|) ==>
      ByteAt(d', g, chain, k) == if o <= k < o + |chunk| then chunk[k - o] else ByteAt(d, g, chain, k)
  {
    HeadWritten(d, g, chain[Index(g, o)], o, chunk);
    forall k | 0 <= k < Cap(g, |chain|)
      ensures ByteAt(d', g, chain, k) == if o <= k < o + |chunk| then chunk[k - o] else ByteAt(d, g, chain, k)
    {
      WriteChunk(d, g, chain, o, chunk, k);
    }
  }

  lemma WrittenJoins(d0: Bytes, chain0: Chain, d: Bytes, chain: Chain, g: Geometry, off: int, data: Bytes, o: int,
                     chunk: Bytes, d': Bytes)
    requires Written(d0, chain0, d, chain, g, off, data) && DiskOk(d', g) && HeadKept(d, d', g)
    requires o == off + |data| && o + |chunk| <= Cap(g, |chain|)
    requires forall k :: 0 <= k < Cap(g, |chain|) ==>
      ByteAt(d', g, chain, k) == if o <= k < o + |chunk| then chunk[k - o] else ByteAt(d, g, chain, k)
    ensures Written(d0, chain0, d', chain, g, off, data + chunk)
  {
  }

  lemma ChunkFits(g: Geometry, len: int, o: int, n: int)
    requires g.bpc > 0 && len >= 0 && 0 <= o < Cap(g, len) && Mask(g, o) + n <= g.bpc
    ensures o + n <= Cap(g, len)
  {
    Locate(g, len, o);
    CapOrder(g, Index(g, o), len);
  }

  lemma WrittenExtend(d0: Bytes, chain0: Chain, d: Bytes, chain: Chain, more: Chain, g: Geometry, off: int, data: Bytes)
    requires Written(d0, chain0, d, chain, g, off, data) && Clusters(g, chain + more)
    ensures Written(d0, chain0, d, chain + more, g, off, data)
  {
    CapOrder(g, |chain|, |chain + more|);
    forall k | 0 <= k < Cap(g, |chain|)
      ensures ByteAt(d, g, chain + more, k) == ByteAt(d, g, chain, k)
    {
      PrefixBytes(d, g, chain, more, k);
    }
  }

  lemma SameStep(d0: Bytes, d: Bytes, g: Geometry, chain: Chain, c: int, offset: int, chunk: Bytes, d': Bytes)
    requires SameBytes(d0, d, g, chain) && DataCluster(g.n, c) && c !in chain
    requires 0 <= offset && Mask(g, offset) + |chunk| <= g.bpc && d' == WriteAt(d, g, c, offset, chunk)
    ensures SameBytes(d0, d', g, chain)
  {
    HeadWritten(d, g, c, offset, chunk);
    forall k | 0 <= k < Cap(g, |chain|)
      ensures ByteAt(d', g, chain, k) == ByteAt(d, g, chain, k)
    {
      Locate(g, |chain|, k);
      OtherCluster(d, g, chain, c, offset, chunk, k);
    }
  }

  lemma ChunkSize(g: Geometry, remaining: int, offset: int)
    requires g.bpc > 0 && remaining > 0
    ensures 1 <= RemainingBytes(g, remaining, offset) <= remaining
    ensures Mask(g, offset) + RemainingBytes(g, remaining, offset) <= g.bpc
    ensures RemainingBytes(g, remaining, offset) < remaining ==>
      Mask(g, offset) + RemainingBytes(g, remaining, offset) == g.bpc
  {
  }

  /** A chunk that fills its cluster ends at the first byte of the next one. */
  lemma NextCluster(g: Geometry, len: int, offset: int, after: int, i: int)
    requires g.bpc > 0 && 0 <= offset && Mask(g, offset) + (after - offset) == g.bpc && i == Index(g, offset)
      && i + 1 < len
    ensures Index(g, after) == i + 1 && 0 <= after < Cap(g, len)
  {
    Parts(g, offset);
    LocateIs(g, after, i + 1, 0);
    CapOrder(g, i + 1, len);
  }

  /** A chain that has become longer is no longer than the bytes up to end need. */
  ghost predicate NoSpare(g: Geometry, chain0: Chain, chain: Chain, end: int) {
    |chain| == |chain0| || Cap(g, |chain| - 1) <= end
  }

  /** data has been written at byte off of file f, and nowhere else in any file. */
  ghost predicate WritingOn(g: Geometry, d0: Bytes, chains0: seq<Chain>, d: Bytes, chains: seq<Chain>, f: int,
                            off: int, data: Bytes) {
    && 0 <= f < |chains| && 0 <= f < |chains0| && chains == chains0[f := chains[f]]
    && Written(d0, chains0[f], d, chains[f], g, off, data) && NoSpare(g, chains0[f], chains[f], off + |data|)
    && forall h :: 0 <= h < |chains| && h != f ==> SameBytes(d0, d, g, chains[h])
  }

  lemma WritingExtends(g: Geometry, d0: Bytes, chains0: seq<Chain>, d: Bytes, chains: seq<Chain>, chains': seq<Chain>,
                       f: int, off: int, data: Bytes, next: int)
    requires WritingOn(g, d0, chains0, d, chains, f, off, data)
    requires 0 <= f < |chains'| && chains' == chains[f := chains'[f]] && Clusters(g, chains'[f])
    requires chains'[f] == chains[f] || (chains'[f] == chains[f] + [next] && Cap(g, |chains[f]|) <= off + |data|)
    ensures WritingOn(g, d0, chains0, d, chains', f, off, data)
  {
    if chains'[f] != chains[f] {
      WrittenExtend(d0, chains0[f], d, chains[f], [next], g, off, data);
    }
    assert forall h :: 0 <= h < |chains'| && h != f ==> 0 <= h < |chains| && chains'[h] == chains[h];
  }
}
