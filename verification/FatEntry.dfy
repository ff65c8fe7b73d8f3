/** The 32-byte directory entries of fat_file.h, and a directory in which one has been written. */
module FatEntry {
  import opened ByteSeq
  import opened FatBytes
  import opened FatChain
  import opened Params

  /** sizeof(struct fat_dir_entry_s). */
  const ENTRY_BYTES := 32
  /** FILE_FOR_DELETION. */
  const DELETED := 0xE5

  /**
   The bytes of an entry that hold neither its start cluster nor its size: name, attributes and
   dates before the high half of the start cluster, and the time and date of modification.
   */
  datatype Info = Info(head: Bytes, modified: Bytes)

  /** The directory that holds a file's entry, at which position, and what else the entry holds. */
  datatype Place = Place(dir: int, pos: int, info: Info)

  predicate InfoOk(info: Info) {
    |info.head| == 20 && |info.modified| == 4
  }

  /** base_name[0] says that the file is deleted. */
  function Marked(info: Info): (r: Info)
    requires InfoOk(info)
    ensures InfoOk(r) && r.head[0] == DELETED
  {
    info.(head := info.head[0 := DELETED])
  }

  function Le16(v: int): (r: Bytes)
    ensures |r| == 2
  {
    [v % 0x100, v / 0x100 % 0x100]
  }

  function U16(b: Bytes, at: int): int
    requires 0 <= at && at + 2 <= |b|
  {
    b[at] + 0x100 * b[at + 1]
  }

  /** The dentry of a file; set_first_cluster splits the start cluster in two. */
  function EntryBytes(info: Info, start: int, size: int): (r: Bytes)
    requires InfoOk(info)
    ensures |r| == ENTRY_BYTES
  {
    info.head + Le16(start / 0x1_0000) + info.modified + Le16(start % 0x1_0000)
    + Le16(size % 0x1_0000) + Le16(size / 0x1_0000)
  }

  /** file_start_cluster. */
  function StartOf(entry: Bytes): int
    requires |entry| == ENTRY_BYTES
  {
    U16(entry, 26) + 0x1_0000 * U16(entry, 20)
  }

  function SizeOf(entry: Bytes): int
    requires |entry| == ENTRY_BYTES
  {
    U16(entry, 28) + 0x1_0000 * U16(entry, 30)
  }

  /** Where the fields of struct fat_dir_entry_s are, in little-endian order, and what marks a deleted file. */
  lemma EntryFields(info: Info, start: int, size: int)
    requires InfoOk(info) && 0 <= start < UINT_LIMIT && 0 <= size < UINT_LIMIT
    ensures var e := EntryBytes(info, start, size);
      && e[..20] == info.head && e[22..26] == info.modified
      && e[26] == start % 0x100 && e[27] == start / 0x100 % 0x100
      && e[20] == start / 0x1_0000 % 0x100 && e[21] == start / 0x100_0000
      && e[28] == size % 0x100 && e[29] == size / 0x100 % 0x100
      && e[30] == size / 0x1_0000 % 0x100 && e[31] == size / 0x100_0000
    ensures EntryBytes(Marked(info), start, size) == EntryBytes(info, start, size)[0 := 0xE5]
  {
    var e := EntryBytes(info, start, size);
    assert e[26] == start % 0x1_0000 % 0x100 && e[27] == start % 0x1_0000 / 0x100 % 0x100;
    assert e[20] == start / 0x1_0000 % 0x100 && e[21] == start / 0x1_0000 / 0x100 % 0x100;
    assert e[28] == size % 0x1_0000 % 0x100 && e[29] == size % 0x1_0000 / 0x100 % 0x100;
    assert e[30] == size / 0x1_0000 % 0x100 && e[31] == size / 0x1_0000 / 0x100 % 0x100;
    LowBytes(start);
    LowBytes(size);
  }

  lemma LowBytes(v: int)
    requires 0 <= v < UINT_LIMIT
    ensures v % 0x1_0000 % 0x100 == v % 0x100 && v % 0x1_0000 / 0x100 % 0x100 == v / 0x100 % 0x100
    ensures v / 0x1_0000 / 0x100 % 0x100 == v / 0x100_0000
  {
    var a, b, c := v % 0x100, v / 0x100 % 0x100, v / 0x1_0000;
    assert v == a + 0x100 * (v / 0x100) && v / 0x100 == b + 0x100 * c;
  }

  lemma Le16RoundTrip(v: int)
    requires 0 <= v < 0x1_0000
    ensures U16(Le16(v), 0) == v
  {
  }

  /** Reading an entry back gives the start cluster and the size that were written. */
  lemma EntryRoundTrip(info: Info, start: int, size: int)
    requires InfoOk(info) && 0 <= start < UINT_LIMIT && 0 <= size < UINT_LIMIT
    ensures StartOf(EntryBytes(info, start, size)) == start && SizeOf(EntryBytes(info, start, size)) == size
    ensures EntryBytes(info, start, size)[0] == info.head[0]
  {
    Le16RoundTrip(start / 0x1_0000);
    Le16RoundTrip(start % 0x1_0000);
    Le16RoundTrip(size / 0x1_0000);
    Le16RoundTrip(size % 0x1_0000);
  }

  /** An entry that starts in the directory's first cluster lies in it, for clusters of whole entries. */
  lemma WholeEntry(g: Geometry, pos: int)
    requires g.bpc % 32 == 0
    ensures 32 * pos < g.bpc <==> 32 * (pos + 1) <= g.bpc
  {
  }

  /** Entry pos of the directory on chain is `entry` if it lies in the first cluster; nothing else has changed in it. */
  ghost predicate EntryPut(d0: Bytes, d: Bytes, g: Geometry, chain: Chain, pos: int, entry: Bytes) {
    && |entry| == ENTRY_BYTES && 0 <= pos && DiskOk(d0, g) && DiskOk(d, g) && HeadKept(d0, d, g) && Clusters(g, chain)
    && forall j :: 0 <= j < Cap(g, |chain|) ==>
         ByteAt(d, g, chain, j)
         == if 32 * pos < g.bpc && 32 * pos <= j < 32 * pos + 32 then entry[j - 32 * pos] else ByteAt(d0, g, chain, j)
  }

  /** What a reader of the directory finds at position pos. */
  ghost function EntryAt(d: Bytes, g: Geometry, chain: Chain, pos: int): (r: Bytes)
    requires DiskOk(d, g) && Clusters(g, chain) && 0 <= pos && 32 * pos + 32 <= Cap(g, |chain|)
    ensures |r| == ENTRY_BYTES
    ensures forall i :: 0 <= i < 32 ==> r[i] == ByteAt(d, g, chain, 32 * pos + i)
  {
    seq(ENTRY_BYTES, i requires 0 <= i < ENTRY_BYTES => ByteAt(d, g, chain, pos * ENTRY_BYTES + i))
  }

  /**
   The entry can be read back if and only if it lies in the directory's first cluster, or was there
   before. No other entry changes.
   */
  lemma ReadBackIff(d0: Bytes, d: Bytes, g: Geometry, chain: Chain, pos: int, entry: Bytes, p: int)
    requires EntryPut(d0, d, g, chain, pos, entry) && 32 * pos + 32 <= Cap(g, |chain|)
    requires 0 <= p && 32 * p + 32 <= Cap(g, |chain|)
    ensures EntryAt(d, g, chain, pos) == entry <==> 32 * pos < g.bpc || EntryAt(d0, g, chain, pos) == entry
    ensures p != pos ==> EntryAt(d, g, chain, p) == EntryAt(d0, g, chain, p)
  {
    if g.bpc <= 32 * pos {
      assert EntryAt(d, g, chain, pos) == EntryAt(d0, g, chain, pos);
    }
  }
}
