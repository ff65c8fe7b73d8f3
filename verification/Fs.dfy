/**
 The block layer of kernel/fs.c and the chunked write of kernel/file.c.

 Blocks are seen through the buffer cache, the bitmap as one bit per block, inodes by number, with
 the in-memory copy and the on-disk copy that iupdate writes. `logged` collects the block numbers
 given to log_write since begin_op.
 */
module Fs {
  import opened ByteSeq
  import opened Inodes
  import opened Params

  const IPB := 16

  /** No block is free. */
  predicate Full(used: seq<bool>) {
    forall b :: 0 <= b < |used| ==> used[b]
  }

  lemma AtMost(t: set<int>, x: set<int>, n: int)
    requires |x| <= n
    ensures |t + x| <= |t| + n
  {
    assert |t + x| == |t| + |x| - |t * x|;
  }

  /** The blocks a file range of n bytes from off lies in, while the c-th of them comes next. */
  predicate TurnsOk(off: int, n: int, tot: int, c: int) {
    && 0 <= tot <= n && 0 <= c && (c == 0 <==> tot == 0)
    && (tot < n && c > 0 ==> off % BSIZE + tot == c * BSIZE)
    && (c > 0 ==> (c - 1) * BSIZE < off % BSIZE + n)
  }

  lemma TakeMore(src: Block, tot: int, m: int)
    requires 0 <= tot <= tot + m <= |src|
    ensures src[..tot] + src[tot..tot + m] == src[..tot + m]
  {
  }

  /** One turn more, which writes up to the end of its block or of the range. */
  lemma TurnMore(off: int, n: int, tot: int, c: int, m: int)
    requires TurnsOk(off, n, tot, c) && tot < n && 0 <= off
    requires m == if n - tot < BSIZE - (off + tot) % BSIZE then n - tot else BSIZE - (off + tot) % BSIZE
    ensures 0 < m && tot + m <= n && TurnsOk(off, n, tot + m, c + 1)
    ensures TurnsLog(off, c + 1) == TurnsLog(off, c) + if tot == 0 && off % BSIZE != 0 then 1 else 2
  {
    var q := off / BSIZE + c;
    assert c > 0 ==> off + tot == q * BSIZE;
    assert c > 0 ==> (off + tot) % BSIZE == 0;
  }

  /** How many blocks besides those of the indirect block c turns may have logged. */
  function TurnsLog(off: int, c: int): int {
    2 * c - (if off % BSIZE != 0 && c > 0 then 1 else 0)
  }

  lemma QuotaHolds(off: int, n: int, tot: int, c: int)
    requires TurnsOk(off, n, tot, c) && n <= 3 * BSIZE
    ensures TurnsLog(off, c) + 3 <= MAXOPBLOCKS
  {
  }

  /** What a transaction can change: contents, bitmap, owners; and what it has logged. */
  datatype Snap = Snap(blocks: seq<Block>, used: seq<bool>, owner: seq<Owner>, logged: set<int>)

  /** Block b is one of the bitmap, or no metadata. */
  predicate Loggable(bmapStart: int, s: Snap, b: int) {
    (bmapStart <= b && (b - bmapStart) * BPB < |s.used|) || (0 <= b < |s.owner| && !s.owner[b].Meta?)
  }

  /**
   From s to t every block that has changed, and the bitmap block of every bit that has, was given to
   log_write; and what was, beside `more`, is a bitmap block or no metadata.
   */
  ghost predicate Logs(bmapStart: int, more: set<int>, s: Snap, t: Snap) {
    && |t.blocks| == |s.blocks| && |t.used| == |s.used| && |t.owner| == |s.owner| && s.logged <= t.logged
    && (forall b :: 0 <= b < |s.blocks| && t.blocks[b] != s.blocks[b] ==> b in t.logged)
    && (forall b :: 0 <= b < |s.used| && t.used[b] != s.used[b] ==> b / BPB + bmapStart in t.logged)
    && (forall b :: b in t.logged && b !in s.logged && b !in more ==> Loggable(bmapStart, t, b))
    && (forall b :: 0 <= b < |s.owner| ==> (t.owner[b].Meta? <==> s.owner[b].Meta?))
  }

  lemma LogsJoin(bmapStart: int, more: set<int>, s: Snap, t: Snap, u: Snap)
    requires Logs(bmapStart, more, s, t) && Logs(bmapStart, more, t, u)
    ensures Logs(bmapStart, more, s, u)
  {
    forall b | b in u.logged && b !in s.logged && b !in more
      ensures Loggable(bmapStart, u, b)
    {
      if b in t.logged {
        assert Loggable(bmapStart, t, b);
      }
    }
  }

  /** A bitmap bit and its block are logged when b is taken. */
  lemma LogsTaken(bmapStart: int, s: Snap, b: int, data: Block, o: Owner)
    requires 0 <= b < |s.used| == |s.blocks| == |s.owner| && !s.owner[b].Meta? && !o.Meta?
    ensures Logs(bmapStart, {}, s, Snap(s.blocks[b := data], s.used[b := true], s.owner[b := o],
                                        s.logged + {b / BPB + bmapStart, b}))
  {
  }

  lemma LogsMore(bmapStart: int, s: Snap, t: Snap, b: int)
    requires Logs(bmapStart, {}, s, t)
    ensures Logs(bmapStart, {b}, s, t.(logged := t.logged + {b}))
  {
    forall c | c in t.logged && c !in s.logged
      ensures Loggable(bmapStart, t, c)
    {
    }
  }

  lemma LogsWritten(bmapStart: int, s: Snap, b: int, data: Block)
    requires 0 <= b < |s.blocks| == |s.owner| && !s.owner[b].Meta?
    ensures Logs(bmapStart, {}, s, s.(blocks := s.blocks[b := data], logged := s.logged + {b}))
  {
  }

  /** Freed bits are logged with their bitmap blocks. */
  lemma LogsFreed(bmapStart: int, s: Snap, t: Snap)
    requires t.blocks == s.blocks && |t.used| == |s.used| && |t.owner| == |s.owner|
    requires t.logged == s.logged + FreedBits(bmapStart, s.used, t.used)
    requires forall b :: 0 <= b < |s.owner| ==> (t.owner[b].Meta? <==> s.owner[b].Meta?)
    ensures Logs(bmapStart, {}, s, t)
  {
    forall b | b in t.logged && b !in s.logged
      ensures Loggable(bmapStart, t, b)
    {
      var c :| 0 <= c < |s.used| && c / BPB + bmapStart == b;
    }
    forall b | 0 <= b < |s.used| && t.used[b] != s.used[b]
      ensures b / BPB + bmapStart in t.logged
    {
    }
  }

  /** An open file: the offset and the inode of kernel/file.h's struct file. */
  class File {
    var off: int
    const ino: int

    constructor (inode: int)
      ensures off == 0 && ino == inode
    {
      off, ino := 0, inode;
    }
  }

  /** The part of chunk that writei says it has written. */
  function Written(chunk: Block, r: int): Block
    requires -1 <= r <= |chunk|
  {
    if r < 0 then [] else chunk[..r]
  }

  /** Writing data at off0 turns bytes0 into bytes; nothing is asked of off0 when there is no data. */
  ghost predicate WrittenOver(bytes0: Block, off0: int, data: Block, bytes: Block) {
    if data == [] then bytes == bytes0
    else 0 <= off0 <= |bytes0| && bytes == Overwritten(bytes0, off0, data)
  }

  lemma WrittenMore(bytes0: Block, off0: int, data: Block, bytes: Block, more: Block, bytes': Block)
    requires WrittenOver(bytes0, off0, data, bytes) && 0 <= off0 && off0 + |data| <= |bytes|
    requires bytes' == Overwritten(bytes, off0 + |data|, more)
    ensures WrittenOver(bytes0, off0, data + more, bytes')
  {
    if data == [] {
      assert data + more == more;
    } else {
      OverwrittenTwice(bytes0, off0, data, more);
    }
  }

  /** The blocks of the bitmap with the bits that differ. */
  ghost function FreedBits(bmapStart: int, used0: seq<bool>, used: seq<bool>): set<int> {
    set b | 0 <= b < |used0| && b < |used| && used[b] != used0[b] :: b / BPB + bmapStart
  }

  /** There are no more of them than the bitmap has. */
  lemma FewFreedBits(bmapStart: int, used0: seq<bool>, used: seq<bool>, n: nat)
    requires |used| <= n * 8192
    ensures |FreedBits(bmapStart, used0, used)| <= n
  {
    var all := Range(bmapStart, n);
    forall k | k in FreedBits(bmapStart, used0, used)
      ensures k in all
    {
      var b :| 0 <= b < |used| && b / BPB + bmapStart == k;
    }
    Smaller(FreedBits(bmapStart, used0, used), all);
  }

  /** The n numbers from lo on. */
  function Range(lo: int, n: nat): (r: set<int>)
    ensures |r| == n && forall k :: k in r <==> lo <= k < lo + n
  {
    if n == 0 then {} else Range(lo, n - 1) + {lo + n - 1}
  }

  class Volume {
    const bmapStart: int
    const inodeStart: int
    var blocks: seq<Block>
    var used: seq<bool>
    var addrs: seq<Addrs>
    var sizes: seq<int>
    var diskAddrs: seq<Addrs>
    var diskSizes: seq<int>
    ghost var owner: seq<Owner>
    var logged: set<int>

    ghost predicate BlocksOk()
      reads this`blocks, this`used, this`addrs, this`owner
    {
      Owned(blocks, used, addrs, owner)
    }

    ghost predicate Valid()
      reads this`blocks, this`used, this`addrs, this`owner, this`sizes, this`diskAddrs, this`diskSizes
    {
      && BlocksOk() && |sizes| == |addrs| == |diskAddrs| == |diskSizes|
      && forall ino :: IsInode(addrs, ino) ==> FileOk(blocks, addrs, ino, sizes[ino])
    }

    /** A file system as mkfs lays it out: meta blocks in front, every inode empty. */
    constructor (contents: seq<Block>, meta: int, inodes: int, bitmapAt: int, inodesAt: int)
      requires 0 < meta <= |contents| < UINT_LIMIT && 0 <= inodes && forall b :: 0 <= b < |contents| ==>
        |contents[b]| == BSIZE
      ensures Valid() && blocks == contents && |addrs| == inodes
      ensures forall ino :: 0 <= ino < inodes ==> FileBytes(ino) == []
      ensures forall b :: 0 <= b < |used| ==> (used[b] <==> b < meta) && (owner[b].Meta? <==> b < meta)
      ensures |used| == |owner| == |contents| && Flushed() && bmapStart == bitmapAt && inodeStart == inodesAt
      ensures addrs == seq(inodes, _ => seq(NDIRECT + 1, _ => 0)) && sizes == seq(inodes, _ => 0)
    {
      bmapStart, inodeStart := bitmapAt, inodesAt;
      blocks, used := contents, seq(|contents|, b => b < meta);
      owner := seq(|contents|, b => if b < meta then Meta else Nobody);
      addrs, sizes := seq(inodes, _ => seq(NDIRECT + 1, _ => 0)), seq(inodes, _ => 0);
      diskAddrs, diskSizes := addrs, sizes;
      logged := {};
    }

    /** What a reader of the whole file sees. */
    ghost function FileBytes(ino: int): Block
      requires Valid() && IsInode(addrs, ino)
      reads this`blocks, this`used, this`addrs, this`owner, this`sizes, this`diskAddrs, this`diskSizes
    {
      Content(blocks, addrs, ino, sizes[ino])
    }

    ghost function Now(): Snap
      reads this`blocks, this`used, this`owner, this`logged
    {
      Snap(blocks, used, owner, logged)
    }

    /** BBLOCK and IBLOCK. */
    function BitmapBlock(b: int): int {
      b / BPB + bmapStart
    }

    function InodeBlock(ino: int): int {
      ino / IPB + inodeStart
    }

    /** A block of the bitmap has the bits of 8192 blocks, one of inodes 16 of them. */
    lemma BlocksHold(b: int, ino: int)
      ensures 8192 * (BitmapBlock(b) - bmapStart) <= b < 8192 * (BitmapBlock(b) - bmapStart + 1)
      ensures 16 * (InodeBlock(ino) - inodeStart) <= ino < 16 * (InodeBlock(ino) - inodeStart + 1)
    {
    }

    /** What allocating block b logs. */
    function NewBlocks(b: int): set<int> {
      if b == 0 then {} else {BitmapBlock(b), b}
    }

    // ---------------------------------------------------------------- balloc, bfree

    /** balloc: the first free block, zeroed and marked; 0 when there is none. */
    method Balloc() returns (r: int)
      requires BlocksOk()
      modifies this`blocks, this`used, this`logged
      ensures r == 0 ==> Full(used) && blocks == old(blocks) && used == old(used) && logged == old(logged)
      ensures r != 0 ==> 0 < r < |old(used)| && !old(used)[r] && forall b :: 0 <= b < r ==> old(used)[b]
      ensures r != 0 ==> blocks == old(blocks)[r := Zeros()] && used == old(used)[r := true]
      ensures r != 0 ==> logged == old(logged) + NewBlocks(r)
    {
      var b := 0;
      while b < |used|
        invariant 0 <= b && b % BPB == 0 && blocks == old(blocks) && used == old(used) && logged == old(logged)
        invariant forall i :: 0 <= i < b && i < |used| ==> used[i]
        decreases |used| - b
      {
        var bi := 0;
        while bi < BPB && b + bi < |used|
          invariant 0 <= bi <= BPB && blocks == old(blocks) && used == old(used) && logged == old(logged)
          invariant forall i :: 0 <= i < b + bi && i < |used| ==> used[i]
        {
          if !used[b + bi] {
            assert owner[0].Meta?;
            used := used[b + bi := true];
            logged := logged + {BitmapBlock(b + bi)};
            blocks := blocks[b + bi := Zeros()];
            logged := logged + {b + bi};
            return b + bi;
          }
          bi := bi + 1;
        }
        b := b + BPB;
      }
      return 0;
    }

    /** bfree; its panic on a free block is its precondition. */
    method Bfree(b: int)
      requires 0 <= b < |used| && used[b]
      modifies this`used, this`logged
      ensures used == old(used)[b := false] && logged == old(logged) + {BitmapBlock(b)}
    {
      used := used[b := false];
      logged := logged + {BitmapBlock(b)};
    }

    // ---------------------------------------------------------------- bmap

    /** What bmap keeps: owners, the bytes of all files, and the pointers in use. */
    twostate predicate Extended()
      reads this
    {
      && BlocksOk() && SameBytes(old(blocks), old(addrs), blocks, addrs)
         && PointersKept(old(blocks), old(addrs), blocks, addrs) && Logs(bmapStart, {}, old(Now()), Now())
         && FirstFit(old(used), used)
    }

    /** The pointers that differ are those on the way to the n bytes from off on. */
    twostate predicate Here(ino: int, off: int, n: int)
      reads this`blocks, this`addrs
    {
      OnlyHere(old(blocks), old(addrs), blocks, addrs, ino, off, n)
    }

    /** And the blocks that are taken, each the first one that was free, are those these pointers lead to now. */
    twostate predicate TakesOnly(ino: int, off: int, n: int)
      reads this`blocks, this`used, this`addrs
    {
      Takes(old(blocks), old(used), old(addrs), blocks, used, addrs, ino, off, n)
    }

    twostate predicate Untouched()
      reads this
    {
      blocks == old(blocks) && used == old(used) && addrs == old(addrs) && owner == old(owner) && logged == old(logged)
    }

    /** Direct pointer i of the inode, or that to its indirect block, allocated if it is 0, on the way to block bn. */
    method MapDirect(ino: int, i: int, ghost bn: int) returns (addr: int)
      requires BlocksOk() && IsInode(addrs, ino) && 0 <= bn < MAXFILE && i == if bn < NDIRECT then bn else NDIRECT
      modifies this`blocks, this`used, this`addrs, this`owner, this`logged
      ensures Extended() && IsInode(addrs, ino) && addr == addrs[ino][i] && Here(ino, bn * BSIZE, 1)
      ensures addrs == old(addrs)[ino := old(addrs)[ino][i := addr]]
      ensures addr == 0 ==> Full(used)
      ensures addr == 0 || old(addrs)[ino][i] != 0 ==> Untouched()
      ensures old(addrs)[ino][i] == 0 ==> logged == old(logged) + NewBlocks(addr)
    {
      OnlyHereNone(blocks, addrs, ino, bn * BSIZE, 1);
      addr := addrs[ino][i];
      if addr == 0 {
        addr := Balloc();
        if addr != 0 {
          addrs := addrs[ino := addrs[ino][i := addr]];
          owner := owner[addr := Slot(ino, i)];
          LogsTaken(bmapStart, old(Now()), addr, Zeros(), Slot(ino, i));
          TakeDirect(old(blocks), old(used), old(addrs), old(owner), ino, i, addr);
          TakeDirectBytes(old(blocks), old(used), old(addrs), old(owner), ino, i, addr);
          TakeDirectHere(old(blocks), old(used), old(addrs), old(owner), ino, i, addr, bn);
          return;
        }
      }
      assert addrs[ino][i := addr] == addrs[ino];
    }

    /** Word j of the inode's indirect block, allocated if it is 0. */
    method MapIndirect(ino: int, j: int) returns (addr: int)
      requires BlocksOk() && IsInode(addrs, ino) && 0 <= j < NINDIRECT && addrs[ino][NDIRECT] != 0
      modifies this`blocks, this`used, this`owner, this`logged
      ensures Extended() && addr == Value(blocks, addrs, ino, NDIRECT + 1 + j) && Here(ino, (NDIRECT + j) * BSIZE, 1)
      ensures addr == 0 ==> Full(used)
      ensures addr == 0 || Value(old(blocks), addrs, ino, NDIRECT + 1 + j) != 0 ==> Untouched()
      ensures Value(old(blocks), addrs, ino, NDIRECT + 1 + j) == 0 ==>
        logged <= old(logged) + NewBlocks(addr) + {addrs[ino][NDIRECT]}
    {
      var ib := addrs[ino][NDIRECT];
      OnlyHereNone(blocks, addrs, ino, (NDIRECT + j) * BSIZE, 1);
      IndirectIsOwn(blocks, used, addrs, owner, -1, 0, ino);
      addr := Word(blocks[ib], j);
      if addr == 0 {
        addr := Balloc();
        if addr != 0 {
          TakeIndirect(old(blocks), old(used), addrs, old(owner), ino, j, addr);
          TakeIndirectBytes(old(blocks), old(used), addrs, old(owner), ino, j, addr);
          TakeIndirectHere(old(blocks), old(used), addrs, old(owner), ino, j, addr);
          blocks := blocks[ib := PutWord(blocks[ib], j, addr)];
          logged := logged + {ib};
          owner := owner[addr := Slot(ino, NDIRECT + 1 + j)];
          LogsWord(ib, addr, PutWord(old(blocks)[ib], j, addr), Slot(ino, NDIRECT + 1 + j));
        }
      }
    }

    twostate lemma LogsWord(new ib: int, new addr: int, new data: Block, new o: Owner)
      requires 0 <= addr < |old(blocks)| == |old(used)| == |old(owner)| && 0 <= ib < |old(blocks)| && ib != addr
      requires !old(owner)[addr].Meta? && !old(owner)[ib].Meta? && !o.Meta?
      requires blocks == old(blocks)[addr := Zeros()][ib := data] && used == old(used)[addr := true]
      requires owner == old(owner)[addr := o] && logged == old(logged) + NewBlocks(addr) + {ib} && addr != 0
      ensures Logs(bmapStart, {}, old(Now()), Now())
    {
      var s := old(Now());
      var t := Snap(s.blocks[addr := Zeros()], s.used[addr := true], s.owner[addr := o],
                    s.logged + {addr / BPB + bmapStart, addr});
      LogsTaken(bmapStart, s, addr, Zeros(), o);
      LogsWritten(bmapStart, t, ib, data);
      LogsJoin(bmapStart, {}, s, t, t.(blocks := t.blocks[ib := data], logged := t.logged + {ib}));
    }

    /**
     bmap: the block of file block bn, allocated if there is none; 0 when that takes a block and
     the disk is full. It takes no block but that one and, behind the direct ones, the indirect block.
     Its panic on an index out of range is its precondition.
     */
    method Bmap(ino: int, bn: int) returns (addr: int)
      requires BlocksOk() && IsInode(addrs, ino) && 0 <= bn < MAXFILE
      modifies this`blocks, this`used, this`addrs, this`owner, this`logged
      ensures Extended() && IsInode(addrs, ino) && addr == Addr(blocks, addrs, ino, bn)
      ensures TakesOnly(ino, bn * BSIZE, 1)
      ensures addrs == old(addrs)[ino := addrs[ino]]
      ensures addr == 0 ==> Full(used)
      ensures Addr(old(blocks), old(addrs), ino, bn) != 0 ==> Untouched()
      ensures Addr(old(blocks), old(addrs), ino, bn) == 0 ==>
        logged <= old(logged) + NewBlocks(addr) + NewBlocks(addrs[ino][NDIRECT])
    {
      if bn < NDIRECT {
        addr := MapDirect(ino, bn, bn);
        Taken(ino, bn * BSIZE, 1);
        return;
      }
      addr := MapDirect(ino, NDIRECT, bn);
      if addr == 0 {
        Taken(ino, bn * BSIZE, 1);
        return;
      }
      label L:
      addr := MapIndirect(ino, bn - NDIRECT);
      SameBytesJoin(old(blocks), old(addrs), old@L(blocks), old@L(addrs), blocks, addrs);
      PointersKeptJoin(old(blocks), old(addrs), old@L(blocks), old@L(addrs), blocks, addrs);
      LogsJoin(bmapStart, {}, old(Now()), old@L(Now()), Now());
      FirstFitJoin(old(used), old@L(used), used);
      OnlyHereJoin(old(blocks), old(addrs), old@L(blocks), old@L(addrs), blocks, addrs, ino, bn * BSIZE, 1, bn * BSIZE,
                   1, 1);
      Taken(ino, bn * BSIZE, 1);
    }

    twostate lemma Taken(new ino: int, new off: int, new n: int)
      requires old(BlocksOk()) && BlocksOk() && IsInode(old(addrs), ino) && Here(ino, off, n)
      requires PointersKept(old(blocks), old(addrs), blocks, addrs) && FirstFit(old(used), used)
      requires Logs(bmapStart, {}, old(Now()), Now())
      ensures TakesOnly(ino, off, n)
    {
      NewBits(old(blocks), old(used), old(addrs), old(owner), blocks, used, addrs, owner, ino, off, n);
    }

    // ---------------------------------------------------------------- readi

    /** What readi returns of a file's bytes: n of them from off on, or as many as there are. */
    static function Slice(s: Block, off: int, n: int): (r: Block)
      requires 0 <= off && 0 <= n
      ensures off > |s| || off + n >= 0x1_0000_0000 ==> r == []
      ensures off <= |s| && off + n < 0x1_0000_0000 ==> |r| == if n < |s| - off then n else |s| - off
      ensures forall k :: 0 <= k < |r| ==> off + k < |s| && r[k] == s[off + k]
    {
      if off > |s| || off + n >= UINT_LIMIT then []
      else if off + n > |s| then s[off..] else s[off..off + n]
    }

    /** What readi returns after data was written at at: those bytes are data's, the others as before. */
    static lemma ReadBack(s: Block, at: int, data: Block, off: int, n: int)
      requires 0 <= at <= |s| && 0 <= off && 0 <= n
      ensures at + |data| < 0x1_0000_0000 ==> Slice(Overwritten(s, at, data), at, |data|) == data
      ensures off + n <= at || at + |data| <= off <= |s| ==> Slice(Overwritten(s, at, data), off, n) == Slice(s, off, n)
      ensures off + n < 0x1_0000_0000 && |s| <= off <= at + |data| <= off + n ==>
        Slice(Overwritten(s, at, data), off, n) == data[off - at..]
    {
      var t := Overwritten(s, at, data);
      assert at + |data| < 0x1_0000_0000 ==> |Slice(t, at, |data|)| == |data|;
      var x, y := Slice(t, off, n), Slice(s, off, n);
      assert off + n <= at || at + |data| <= off <= |s| ==> |x| == |y|;
    }

    /**
     readi: the bytes at off, as many as were asked for and the file has. It allocates and logs
     nothing: every block below the size is there.
     */
    method Readi(ino: int, off: int, n: int) returns (data: Block)
      requires Valid() && IsInode(addrs, ino) && 0 <= off < UINT_LIMIT && 0 <= n < UINT_LIMIT
      modifies this`blocks, this`used, this`addrs, this`owner, this`logged
      ensures Untouched() && Valid() && data == Slice(FileBytes(ino), off, n)
      ensures off > sizes[ino] || off + n >= 0x1_0000_0000 ==> data == []
      ensures off <= sizes[ino] && off + n < 0x1_0000_0000 ==>
        |data| == if n < sizes[ino] - off then n else sizes[ino] - off
      ensures forall k :: 0 <= k < |data| ==> off + k < sizes[ino] && data[k] == FileBytes(ino)[off + k]
    {
      data := [];
      if off > sizes[ino] || off + n >= UINT_LIMIT {
        return;
      }
      var end := if off + n > sizes[ino] then sizes[ino] else off + n;
      data := ReadLoop(ino, off, end);
    }

    /** The loop of readi. */
    method ReadLoop(ino: int, off: int, end: int) returns (data: Block)
      requires Valid() && IsInode(addrs, ino) && 0 <= off <= end <= sizes[ino]
      modifies this`blocks, this`used, this`addrs, this`owner, this`logged
      ensures Untouched() && Valid() && data == FileBytes(ino)[off..end]
    {
      data := [];
      var at := off;
      ghost var bytes := FileBytes(ino);
      while at < end
        invariant Untouched() && off <= at <= end && data == bytes[off..at]
      {
        assert Valid() && FileBytes(ino) == bytes;
        var chunk := ReadTurn(ino, at, end);
        SliceJoin(bytes, off, at, at + |chunk|);
        data := data + chunk;
        at := at + |chunk|;
      }
      assert FileBytes(ino) == bytes;
    }

    /** One turn of readi's loop. */
    method ReadTurn(ino: int, at: int, end: int) returns (chunk: Block)
      requires Valid() && IsInode(addrs, ino) && 0 <= at < end <= sizes[ino]
      modifies this`blocks, this`used, this`addrs, this`owner, this`logged
      ensures Untouched() && 0 < |chunk| <= end - at && chunk == old(FileBytes(ino))[at..at + |chunk|]
    {
      assert (at / BSIZE) * BSIZE < sizes[ino];
      var addr := Bmap(ino, at / BSIZE);
      assert addr != 0;
      assert PointerOk(blocks, addrs, owner, ino, SlotOf(at / BSIZE));
      var m := if end - at < BSIZE - at % BSIZE then end - at else BSIZE - at % BSIZE;
      ChunkRead(ino, at, m, addr);
      chunk := blocks[addr][at % BSIZE..at % BSIZE + m];
    }

    lemma ChunkRead(ino: int, at: int, m: int, addr: int)
      requires Valid() && IsInode(addrs, ino) && 0 <= at && 0 < m && at + m <= sizes[ino] && at % BSIZE + m <= BSIZE
      requires addr != 0 && addr == Addr(blocks, addrs, ino, at / BSIZE) && IsBlock(blocks, addr)
      ensures blocks[addr][at % BSIZE..at % BSIZE + m] == FileBytes(ino)[at..at + m]
    {
      var x, y := blocks[addr][at % BSIZE..at % BSIZE + m], FileBytes(ino)[at..at + m];
      forall k | 0 <= k < m
        ensures x[k] == y[k]
      {
        assert y[k] == ByteAt(blocks, addrs, ino, at + k);
        assert (at + k) / BSIZE == at / BSIZE && (at + k) % BSIZE == at % BSIZE + k;
      }
    }

    // ---------------------------------------------------------------- writei

    /** While src[..tot] is being written at off of ino. */
    ghost predicate Writing(ino: int, off: int, data: Block, blocks0: seq<Block>, addrs0: seq<Addrs>)
      reads this
    {
      && BlocksOk() && IsInode(addrs, ino) && IsInode(addrs0, ino)
      && BytesAre(blocks0, addrs0, blocks, addrs, ino, off, data) && PointersKept(blocks0, addrs0, blocks, addrs)
      && AllocatedIn(blocks, addrs, ino, off, off + |data|)
    }

    /** One turn of writei's loop; chunk is what goes into the block of byte off + |data|. */
    method WriteTurn(ino: int, chunk: Block, ghost off: int, at: int, ghost data: Block, ghost blocks0: seq<Block>,
                     ghost addrs0: seq<Addrs>)
      returns (ok: bool)
      requires Writing(ino, off, data, blocks0, addrs0) && 0 <= off && at == off + |data|
      requires 0 < |chunk| && at + |chunk| <= MAXFILE * BSIZE && at % BSIZE + |chunk| <= BSIZE
      modifies this`blocks, this`used, this`addrs, this`owner, this`logged
      ensures ok ==> Writing(ino, off, data + chunk, blocks0, addrs0)
      ensures !ok ==> Writing(ino, off, data, blocks0, addrs0) && Full(used)
      ensures addrs == old(addrs)[ino := addrs[ino]]
      ensures ok <==> Addr(blocks, addrs, ino, at / BSIZE) != 0
      ensures Addr(old(blocks), old(addrs), ino, at / BSIZE) != 0 ==> ok
      ensures old(addrs)[ino][NDIRECT] != 0 ==> addrs[ino][NDIRECT] == old(addrs)[ino][NDIRECT]
      ensures Logs(bmapStart, {}, old(Now()), Now()) && FirstFit(old(used), used) && Here(ino, at, 1)
      ensures logged <= old(logged) + NewBlocks(addrs[ino][NDIRECT])
                        + (if Addr(old(blocks), old(addrs), ino, at / BSIZE) != 0 then
                          {Addr(blocks, addrs, ino, at / BSIZE)}
                           else NewBlocks(Addr(blocks, addrs, ino, at / BSIZE)))
    {
      var addr := Bmap(ino, at / BSIZE);
      label L:
      OnlyHereBlock(old(blocks), old(addrs), blocks, addrs, ino, at);
      assert Value(old(blocks), old(addrs), ino, NDIRECT) != 0 ==>
        Value(blocks, addrs, ino, NDIRECT) == Value(old(blocks), old(addrs), ino, NDIRECT);
      BytesAreSame(blocks0, addrs0, old(blocks), old(addrs), blocks, addrs, ino, off, data);
      PointersKeptJoin(blocks0, addrs0, old(blocks), old(addrs), blocks, addrs);
      AllocatedStays(old(blocks), old(addrs), blocks, addrs, ino, off, off + |data|);
      if addr == 0 {
        return false;
      }
      WriteBlock(ino, addr, chunk, off, at, data, blocks0, addrs0);
      OnlyHereData(old(blocks), old(addrs), old@L(blocks), blocks, addrs, ino, at, 1);
      LogsJoin(bmapStart, {}, old(Now()), old@L(Now()), Now());
      return true;
    }

    /** The part of the turn after bmap. */
    method WriteBlock(ino: int, addr: int, chunk: Block, ghost off: int, at: int, ghost data: Block,
                      ghost blocks0: seq<Block>, ghost addrs0: seq<Addrs>)
      requires Writing(ino, off, data, blocks0, addrs0) && 0 <= off && at == off + |data|
      requires 0 < |chunk| && at + |chunk| <= MAXFILE * BSIZE && at % BSIZE + |chunk| <= BSIZE
      requires addr != 0 && addr == Addr(blocks, addrs, ino, at / BSIZE)
      modifies this`blocks, this`logged
      ensures Writing(ino, off, data + chunk, blocks0, addrs0)
      ensures addr == Addr(blocks, addrs, ino, at / BSIZE) && logged == old(logged) + {addr}
      ensures forall i, s :: IsInode(addrs, i) && IsSlot(s) ==>
        Value(blocks, addrs, i, s) == Value(old(blocks), addrs, i, s)
      ensures Logs(bmapStart, {}, old(Now()), Now())
    {
      assert PointerOk(blocks, addrs, owner, ino, SlotOf(at / BSIZE));
      BytesAreMore(blocks0, addrs0, blocks, used, addrs, owner, ino, off, data, chunk);
      WriteData(blocks, used, addrs, owner, addr, Poke(blocks[addr], at % BSIZE, chunk), ino, SlotOf(at / BSIZE));
      AllocatedMore(blocks, addrs, ino, off, at, |chunk|);
      blocks := blocks[addr := Poke(blocks[addr], at % BSIZE, chunk)];
      logged := logged + {addr};
      SameValues(blocks0, addrs0, old(blocks), blocks, addrs, ino, off, at + |chunk|);
      LogsWritten(bmapStart, old(Now()), addr, blocks[addr]);
    }

    /** All that was logged since s: the indirect block with its bitmap block, and t. Only inode ino has changed. */
    ghost predicate LoggedIn(ino: int, s: Snap, addrs0: seq<Addrs>, t: set<int>)
      reads this
    {
      && IsInode(addrs, ino) && |addrs| == |addrs0| && addrs == addrs0[ino := addrs[ino]]
      && logged <= s.logged + NewBlocks(addrs[ino][NDIRECT]) + t && Logs(bmapStart, {}, s, Now())
      && FirstFit(s.used, used)
    }

    /** A turn of writei's loop, with t for what it logs beside the blocks of the indirect block. */
    method LoggedTurn(ino: int, chunk: Block, ghost off: int, at: int, ghost data: Block, ghost blocks0: seq<Block>,
                      ghost addrs0: seq<Addrs>,
                      ghost t: set<int>, ghost s: Snap)
      returns (ok: bool, ghost t': set<int>)
      requires Writing(ino, off, data, blocks0, addrs0) && 0 <= off && at == off + |data|
      requires 0 < |chunk| && at + |chunk| <= MAXFILE * BSIZE && at % BSIZE + |chunk| <= BSIZE
      requires LoggedIn(ino, s, addrs0, t)
      modifies this`blocks, this`used, this`addrs, this`owner, this`logged
      ensures ok ==> Writing(ino, off, data + chunk, blocks0, addrs0)
      ensures !ok ==> Writing(ino, off, data, blocks0, addrs0) && Full(used) && t' == t
      ensures !ok ==> Addr(blocks, addrs, ino, at / BSIZE) == 0
      ensures LoggedIn(ino, s, addrs0, t') && Here(ino, at, 1)
      ensures |t'| <= |t| + if Addr(old(blocks), old(addrs), ino, at / BSIZE) == 0 then 2 else 1
    {
      ok := WriteTurn(ino, chunk, off, at, data, blocks0, addrs0);
      LogsJoin(bmapStart, {}, s, old(Now()), Now());
      FirstFitJoin(s.used, old(used), used);
      ghost var addr := Addr(blocks, addrs, ino, at / BSIZE);
      ghost var isNew := Addr(old(blocks), old(addrs), ino, at / BSIZE) == 0;
      ghost var x := if isNew then NewBlocks(addr) else {addr};
      AtMost(t, x, if isNew then 2 else 1);
      t' := if ok then t + x else t;
    }

    /** src[..tot] has been written in c turns. */
    ghost predicate WrittenSoFar(ino: int, src: Block, off: int, tot: int, t: set<int>, c: int, s: Snap,
                                 addrs0: seq<Addrs>)
      reads this
    {
      && TurnsOk(off, |src|, tot, c) && Writing(ino, off, src[..tot], s.blocks, addrs0)
      && LoggedIn(ino, s, addrs0, t) && |t| <= TurnsLog(off, c)
    }

    /** One iteration of writei's loop. */
    method LoopTurn(ino: int, src: Block, off: int, tot: int, ghost t: set<int>, ghost c: int, ghost s: Snap,
                    ghost addrs0: seq<Addrs>, ghost size0: int)
      returns (tot': int, ghost t': set<int>)
      requires WrittenSoFar(ino, src, off, tot, t, c, s, addrs0) && tot < |src| && off + |src| <= MAXFILE * BSIZE
      requires IsInode(addrs0, ino) && FileOk(s.blocks, addrs0, ino, size0) && 0 <= off <= size0
      modifies this`blocks, this`used, this`addrs, this`owner, this`logged
      ensures tot < tot' ==> WrittenSoFar(ino, src, off, tot', t', c + 1, s, addrs0)
      ensures tot <= tot' && (tot' == tot ==> WrittenSoFar(ino, src, off, tot, t', c, s, addrs0) && Full(used))
      ensures tot' == tot ==> Addr(blocks, addrs, ino, (off + tot) / BSIZE) == 0
      ensures Here(ino, off + tot, 1)
    {
      var at := off + tot;
      var m := if |src| - tot < BSIZE - at % BSIZE then |src| - tot else BSIZE - at % BSIZE;
      FirstIsThere(ino, off, at, size0, s.blocks, addrs0);
      TurnMore(off, |src|, tot, c, m);
      TakeMore(src, tot, m);
      var ok;
      ok, t' := LoggedTurn(ino, src[tot..tot + m], off, at, src[..tot], s.blocks, addrs0, t, s);
      tot' := if ok then tot + m else tot;
    }

    /** How many bytes writei has looked for a block for: those written, and the one behind them if there are more. */
    function Tried(src: Block, r: int): int {
      if r < |src| then r + 1 else r
    }

    /** The loop of writei. */
    method WriteLoop(ino: int, src: Block, off: int, ghost size0: int) returns (tot: int, ghost t: set<int>,
                     ghost c: int)
      requires BlocksOk() && IsInode(addrs, ino) && FileOk(blocks, addrs, ino, size0) && 0 <= off <= size0
        && off + |src| <= MAXFILE * BSIZE
      modifies this`blocks, this`used, this`addrs, this`owner, this`logged
      ensures WrittenSoFar(ino, src, off, tot, t, c, old(Now()), old(addrs)) && Here(ino, off, Tried(src, tot))
      ensures tot < |src| ==> Full(used) && Addr(blocks, addrs, ino, (off + tot) / BSIZE) == 0
    {
      tot, t, c := 0, {}, 0;
      OnlyHereNone(blocks, addrs, ino, off, 0);
      BytesAreNothing(blocks, addrs, ino, off);
      while tot < |src|
        invariant WrittenSoFar(ino, src, off, tot, t, c, old(Now()), old(addrs)) && Here(ino, off, tot)
      {
        var upto;
        ghost var blocks1, addrs1 := blocks, addrs;
        upto, t := LoopTurn(ino, src, off, tot, t, c, old(Now()), old(addrs), size0);
        OnlyHereJoin(old(blocks), old(addrs), blocks1, addrs1, blocks, addrs, ino, off, tot, off + tot, 1,
                     if upto == tot then tot + 1 else upto);
        if upto == tot {
          break;
        }
        tot, c := upto, c + 1;
      }
    }

    /** An unaligned write starts in a block that is there. */
    lemma FirstIsThere(ino: int, off: int, at: int, size0: int, blocks0: seq<Block>, addrs0: seq<Addrs>)
      requires IsInode(addrs0, ino) && IsInode(addrs, ino) && FileOk(blocks0, addrs0, ino, size0) && 0 <= off <= size0
      requires PointersKept(blocks0, addrs0, blocks, addrs) && 0 <= at < MAXFILE * BSIZE
      ensures at == off && off % BSIZE != 0 ==> Addr(blocks, addrs, ino, at / BSIZE) != 0
    {
      if at == off && off % BSIZE != 0 {
        assert (off / BSIZE) * BSIZE < size0;
        assert Addr(blocks0, addrs0, ino, off / BSIZE) != 0;
      }
    }

    /** iupdate, as far as addrs and size go. */
    method Iupdate(ino: int)
      requires IsInode(addrs, ino) && |diskAddrs| == |diskSizes| == |sizes| == |addrs|
      modifies this`diskAddrs, this`diskSizes, this`logged
      ensures diskAddrs == old(diskAddrs)[ino := addrs[ino]] && diskSizes == old(diskSizes)[ino := sizes[ino]]
      ensures logged == old(logged) + {InodeBlock(ino)}
    {
      diskAddrs, diskSizes := diskAddrs[ino := addrs[ino]], diskSizes[ino := sizes[ino]];
      logged := logged + {InodeBlock(ino)};
    }

    /** Every other file reads as before. */
    twostate predicate OthersKept(ino: int)
      requires old(Valid()) && Valid()
      reads this`blocks, this`used, this`addrs, this`owner, this`sizes, this`diskAddrs, this`diskSizes
    {
      && |addrs| == |old(addrs)|
      && forall i :: IsInode(old(addrs), i) && i != ino ==> IsInode(addrs, i) && FileBytes(i) == old(FileBytes(i))
    }

    /** No block is free, and the file ends with its last block, behind which none is allocated. */
    ghost predicate NoRoom(ino: int)
      reads this`blocks, this`used, this`addrs, this`sizes
    {
      && Full(used) && IsInode(addrs, ino) && ino < |sizes| && 0 <= sizes[ino] < MAXFILE * BSIZE
      && sizes[ino] % BSIZE == 0 && Addr(blocks, addrs, ino, sizes[ino] / BSIZE) == 0
    }

    /** Where there is no block for a byte up to the end of the file, the file ends there, at the end of a block. */
    lemma StopIsEnd(ino: int, end: int)
      requires IsInode(addrs, ino) && ino < |sizes| && FileOk(blocks, addrs, ino, sizes[ino]) && Full(used)
      requires 0 <= end <= sizes[ino] && end < MAXFILE * BSIZE && Addr(blocks, addrs, ino, end / BSIZE) == 0
      ensures NoRoom(ino) && end == sizes[ino]
    {
      assert (end / BSIZE) * BSIZE >= sizes[ino];
    }

    /**
     writei: src[..r] replaces the bytes at off and no other byte of any file changes. r is less than all
     of src only when no block is free, and then the file ends where the writing stopped, at the end of
     its last block; so writing over what is there is never short. No block is taken but for the bytes written,
     or, when it is short, the indirect block on the way to the next one. At most 3 * BSIZE bytes log at most
     MAXOPBLOCKS blocks.
     */
    method Writei(ino: int, src: Block, off: int) returns (r: int)
      requires Valid() && IsInode(addrs, ino) && 0 <= off < UINT_LIMIT && |src| < UINT_LIMIT
      modifies this
      ensures Valid() && IsInode(addrs, ino) && |addrs| == |old(addrs)|
      ensures r == -1 <==> off > old(sizes)[ino] || off + |src| >= UINT_LIMIT || off + |src| > MAXFILE * BSIZE
      ensures r == -1 ==>
        Untouched() && sizes == old(sizes) && diskAddrs == old(diskAddrs) && diskSizes == old(diskSizes)
      ensures r != -1 ==> 0 <= r <= |src| && (r < |src| ==> NoRoom(ino) && off + r == sizes[ino])
      ensures r != -1 && off + |src| <= old(sizes)[ino] ==> r == |src|
      ensures TakesOnly(ino, off, if r == -1 then 0 else if r < |src| then r + 1 else r)
      ensures r != -1 ==> FileBytes(ino) == Overwritten(old(FileBytes(ino)), off, src[..r]) && OthersKept(ino)
      ensures r != -1 ==> sizes == old(sizes)[ino := if off + r > old(sizes)[ino] then off + r else old(sizes)[ino]]
      ensures r != -1 ==>
        diskAddrs == old(diskAddrs)[ino := addrs[ino]] && diskSizes == old(diskSizes)[ino := sizes[ino]]
      ensures |src| <= 3 * BSIZE ==> |logged| <= |old(logged)| + MAXOPBLOCKS
      ensures Logs(bmapStart, {InodeBlock(ino)}, old(Now()), Now()) && (r != -1 ==> InodeBlock(ino) in logged)
      ensures addrs == old(addrs)[ino := addrs[ino]]
    {
      TakesNothing(blocks, used, addrs, ino, off, 0);
      if off > sizes[ino] || off + |src| >= UINT_LIMIT {
        return -1;
      }
      if off + |src| > MAXFILE * BSIZE {
        return -1;
      }
      r := WriteAll(ino, src, off);
      WriteDone(ino, off, src[..r]);
      if r < |src| {
        StopIsEnd(ino, off + r);
      }
    }

    /** writei behind its checks. */
    method WriteAll(ino: int, src: Block, off: int) returns (r: int)
      requires Valid() && IsInode(addrs, ino) && 0 <= off <= sizes[ino] && off + |src| <= MAXFILE * BSIZE
      modifies this
      ensures 0 <= r <= |src| && Writing(ino, off, src[..r], old(blocks), old(addrs))
      ensures TakesOnly(ino, off, Tried(src, r))
      ensures r < |src| ==> Full(used) && Addr(blocks, addrs, ino, (off + r) / BSIZE) == 0
      ensures sizes == old(sizes)[ino := if off + r > old(sizes)[ino] then off + r else old(sizes)[ino]]
      ensures addrs == old(addrs)[ino := addrs[ino]]
      ensures diskAddrs == old(diskAddrs)[ino := addrs[ino]] && diskSizes == old(diskSizes)[ino := sizes[ino]]
      ensures |src| <= 3 * BSIZE ==> |logged| <= |old(logged)| + MAXOPBLOCKS
      ensures Logs(bmapStart, {InodeBlock(ino)}, old(Now()), Now()) && InodeBlock(ino) in logged
    {
      ghost var t, c;
      r, t, c := WriteLoop(ino, src, off, sizes[ino]);
      ghost var logged1 := logged;
      Taken(ino, off, Tried(src, r));
      if off + r > sizes[ino] {
        sizes := sizes[ino := off + r];
      }
      LogsMore(bmapStart, old(Now()), Now(), InodeBlock(ino));
      Iupdate(ino);
      LogFits(ino, old(logged), logged1, t, off, |src|, r, c);
    }

    lemma LogFits(ino: int, logged0: set<int>, logged1: set<int>, t: set<int>, off: int, n: int, tot: int, c: int)
      requires IsInode(addrs, ino) && logged1 <= logged0 + NewBlocks(addrs[ino][NDIRECT]) + t
        && logged == logged1 + {InodeBlock(ino)}
      requires TurnsOk(off, n, tot, c) && |t| <= TurnsLog(off, c)
      ensures n <= 3 * BSIZE ==> |logged| <= |logged0| + MAXOPBLOCKS
    {
      var extra := NewBlocks(addrs[ino][NDIRECT]);
      var all := logged0 + extra + t + {InodeBlock(ino)};
      AtMost(logged0, extra, 2);
      AtMost(logged0 + extra, t, |t|);
      AtMost(logged0 + extra + t, {InodeBlock(ino)}, 1);
      Smaller(logged, all);
      if n <= 3 * BSIZE {
        QuotaHolds(off, n, tot, c);
      }
    }

    twostate lemma WriteDone(new ino: int, new off: int, new data: Block)
      requires old(Valid()) && IsInode(old(addrs), ino) && Writing(ino, off, data, old(blocks), old(addrs))
      requires 0 <= off <= old(sizes)[ino] && off + |data| <= MAXFILE * BSIZE
      requires sizes == old(sizes)[ino := if off + |data| > old(sizes)[ino] then off + |data| else old(sizes)[ino]]
      requires |diskAddrs| == |diskSizes| == |sizes|
      ensures Valid() && FileBytes(ino) == Overwritten(old(FileBytes(ino)), off, data) && OthersKept(ino)
    {
      forall i | IsInode(addrs, i)
        ensures FileOk(blocks, addrs, i, sizes[i])
      {
        assert IsInode(old(addrs), i);
        FileOkKept(old(blocks), old(addrs), blocks, addrs, i, old(sizes)[i]);
        if i == ino {
          FileGrown(blocks, addrs, ino, old(sizes)[ino], off, off + |data|);
        }
      }
      ContentWritten(old(blocks), old(addrs), blocks, addrs, ino, off, data, old(sizes)[ino], sizes[ino]);
      forall i | IsInode(old(addrs), i) && i != ino
        ensures IsInode(addrs, i) && FileBytes(i) == old(FileBytes(i))
      {
        ContentKept(old(blocks), old(addrs), blocks, addrs, ino, off, data, i, sizes[i]);
      }
    }

    // ---------------------------------------------------------------- itrunc

    /** Since used0 and logged0, bits have only been cleared, and exactly their bitmap blocks been logged. */
    ghost predicate FreedLogged(used0: seq<bool>, logged0: set<int>)
      reads this`used, this`logged
    {
      && |used| == |used0| && (forall b :: 0 <= b < |used| && used[b] ==> used0[b])
      && logged == logged0 + FreedBits(bmapStart, used0, used)
    }

    twostate lemma FreedMore(new b: int, new used0: seq<bool>, new logged0: set<int>)
      requires old(FreedLogged(used0, logged0)) && 0 <= b < |old(used)| && old(used)[b]
      requires used == old(used)[b := false] && logged == old(logged) + {BitmapBlock(b)}
      ensures FreedLogged(used0, logged0)
    {
      assert FreedBits(bmapStart, used0, used) == FreedBits(bmapStart, used0, old(used)) + {BitmapBlock(b)} by {
        forall c | 0 <= c < |used0|
          ensures used[c] != used0[c] <==> old(used)[c] != used0[c] || c == b
        {
        }
        assert used[b] != used0[b];
      }
    }

    /** One turn of itrunc's first loop. */
    method DropPointer(ino: int, i: int, ghost owner0: seq<Owner>, ghost used0: seq<bool>, ghost logged0: set<int>)
      requires BlocksOk() && IsInode(addrs, ino) && 0 <= i < NDIRECT && Without(owner0, owner, ino, i)
      requires FreedLogged(used0, logged0)
      modifies this`used, this`addrs, this`owner, this`logged
      ensures FreedLogged(used0, logged0)
      ensures BlocksOk() && addrs == old(addrs)[ino := old(addrs)[ino][i := 0]] && Without(owner0, owner, ino, i + 1)
    {
      ghost var b := addrs[ino][i];
      if addrs[ino][i] != 0 {
        DropDirect(blocks, used, addrs, owner, ino, i);
        WithoutOne(owner0, owner, ino, i, b, blocks, used, addrs, -1);
        Bfree(addrs[ino][i]);
        FreedMore(b, used0, logged0);
        owner := owner[b := Nobody];
        addrs := addrs[ino := addrs[ino][i := 0]];
      } else {
        WithoutOne(owner0, owner, ino, i, b, blocks, used, addrs, -1);
        assert addrs[ino][i := 0] == addrs[ino];
      }
    }

    /** The part of itrunc about the indirect block. */
    method DropIndirectBlock(ino: int, ghost owner0: seq<Owner>, ghost used0: seq<bool>, ghost logged0: set<int>)
      requires BlocksOk() && IsInode(addrs, ino) && Without(owner0, owner, ino, NDIRECT + 1) && addrs[ino][NDIRECT] != 0
      requires FreedLogged(used0, logged0)
      modifies this`used, this`addrs, this`owner, this`logged
      ensures FreedLogged(used0, logged0)
      ensures BlocksOk() && addrs == old(addrs)[ino := old(addrs)[ino][NDIRECT := 0]]
      ensures |owner| == |owner0|
      ensures forall b :: 0 <= b < |owner| ==>
        owner[b] == if owner0[b].Slot? && owner0[b].ino == ino then Nobody else owner0[b]
    {
      var j := 0;
      IndirectIsOwn(blocks, used, addrs, owner, -1, 0, ino);
      while j < NINDIRECT
        invariant 0 <= j <= NINDIRECT && addrs == old(addrs) && FreedLogged(used0, logged0)
        invariant OwnedBut(blocks, used, addrs, owner, ino, NDIRECT + 1 + j)
          && Without(owner0, owner, ino, NDIRECT + 1 + j)
      {
        DropWord(ino, j, owner0, used0, logged0);
        j := j + 1;
      }
      DropLast(ino, owner0, used0, logged0);
    }

    method DropLast(ino: int, ghost owner0: seq<Owner>, ghost used0: seq<bool>, ghost logged0: set<int>)
      requires IsInode(addrs, ino) && addrs[ino][NDIRECT] != 0
      requires OwnedBut(blocks, used, addrs, owner, ino, NSLOTS) && Without(owner0, owner, ino, NSLOTS)
      requires FreedLogged(used0, logged0)
      modifies this`used, this`addrs, this`owner, this`logged
      ensures FreedLogged(used0, logged0)
      ensures BlocksOk() && addrs == old(addrs)[ino := old(addrs)[ino][NDIRECT := 0]]
      ensures |owner| == |owner0|
      ensures forall b :: 0 <= b < |owner| ==>
        owner[b] == if owner0[b].Slot? && owner0[b].ino == ino then Nobody else owner0[b]
    {
      NothingIndirect(blocks, used, addrs, owner0, owner, ino);
      DropBlock(blocks, used, addrs, owner, ino);
      ghost var b := addrs[ino][NDIRECT];
      LastOwner(blocks, addrs, owner0, owner, used, ino, b);
      Bfree(addrs[ino][NDIRECT]);
      FreedMore(b, used0, logged0);
      owner := owner[b := Nobody];
      addrs := addrs[ino := addrs[ino][NDIRECT := 0]];
    }

    method DropWord(ino: int, j: int, ghost owner0: seq<Owner>, ghost used0: seq<bool>, ghost logged0: set<int>)
      requires IsInode(addrs, ino) && 0 <= j < NINDIRECT && addrs[ino][NDIRECT] != 0
      requires OwnedBut(blocks, used, addrs, owner, ino, NDIRECT + 1 + j)
        && Without(owner0, owner, ino, NDIRECT + 1 + j)
      requires FreedLogged(used0, logged0)
      modifies this`used, this`owner, this`logged
      ensures FreedLogged(used0, logged0)
      ensures OwnedBut(blocks, used, addrs, owner, ino, NDIRECT + 1 + j + 1)
        && Without(owner0, owner, ino, NDIRECT + 1 + j + 1)
    {
      IndirectIsOwn(blocks, used, addrs, owner, ino, NDIRECT + 1 + j, ino);
      var w := Word(blocks[addrs[ino][NDIRECT]], j);
      DropIndirect(blocks, used, addrs, owner, ino, j);
      WithoutOne(owner0, owner, ino, NDIRECT + 1 + j, w, blocks, used, addrs, ino);
      if w != 0 {
        Bfree(w);
        FreedMore(w, used0, logged0);
        owner := owner[w := Nobody];
      }
    }

    /**
     itrunc: exactly the inode's blocks become free, and bfree never meets a free one. Other files
     keep their bytes. Logged are the inode's block and those of the bitmap with the bits that are cleared,
     at most one for each 8192 blocks of the disk.
     */
    method Itrunc(ino: int)
      requires Valid() && IsInode(addrs, ino)
      modifies this
      ensures Valid() && IsInode(addrs, ino) && FileBytes(ino) == [] && OthersKept(ino)
      ensures sizes == old(sizes)[ino := 0] && blocks == old(blocks)
      ensures |used| == |old(used)| && forall b :: 0 <= b < |used| ==>
        used[b] == (old(used)[b] && !(old(owner)[b].Slot? && old(owner)[b].ino == ino))
      ensures forall i :: 0 <= i <= NDIRECT ==> addrs[ino][i] == 0
      ensures diskAddrs == old(diskAddrs)[ino := addrs[ino]] && diskSizes == old(diskSizes)[ino := 0]
      ensures logged == old(logged) + FreedBits(bmapStart, old(used), used) + {InodeBlock(ino)}
      ensures Logs(bmapStart, {InodeBlock(ino)}, old(Now()), Now())
    {
      DropAll(ino);
      LogsFreed(bmapStart, old(Now()), Now());
      LogsMore(bmapStart, old(Now()), Now(), InodeBlock(ino));
      sizes := sizes[ino := 0];
      Iupdate(ino);
      TruncDone(ino);
    }

    /** The two loops of itrunc. */
    method DropAll(ino: int)
      requires BlocksOk() && IsInode(addrs, ino)
      modifies this`used, this`addrs, this`owner, this`logged
      ensures BlocksOk() && IsInode(addrs, ino) && addrs == old(addrs)[ino := addrs[ino]]
      ensures forall i :: 0 <= i <= NDIRECT ==> addrs[ino][i] == 0
      ensures |owner| == |old(owner)| && forall b :: 0 <= b < |owner| ==>
        owner[b] == if old(owner)[b].Slot? && old(owner)[b].ino == ino then Nobody else old(owner)[b]
      ensures FreedLogged(old(used), old(logged))
    {
      var i := 0;
      while i < NDIRECT
        invariant 0 <= i <= NDIRECT && BlocksOk() && IsInode(addrs, ino) && |addrs| == |old(addrs)|
        invariant FreedLogged(old(used), old(logged))
        invariant addrs == old(addrs)[ino := addrs[ino]] && Without(old(owner), owner, ino, i)
        invariant forall k :: 0 <= k < i ==> addrs[ino][k] == 0
      {
        DropPointer(ino, i, old(owner), old(used), old(logged));
        i := i + 1;
      }
      if addrs[ino][NDIRECT] != 0 {
        DropIndirectBlock(ino, old(owner), old(used), old(logged));
      } else {
        NoIndirect(blocks, used, addrs, old(owner), owner, ino);
      }
    }

    twostate lemma TruncDone(new ino: int)
      requires old(Valid()) && BlocksOk() && IsInode(addrs, ino) && IsInode(old(addrs), ino) && blocks == old(blocks)
      requires addrs == old(addrs)[ino := addrs[ino]] && sizes == old(sizes)[ino := 0]
      requires |diskAddrs| == |diskSizes| == |sizes|
      ensures Valid() && FileBytes(ino) == [] && OthersKept(ino)
    {
      forall k | IsInode(addrs, k)
        ensures FileOk(blocks, addrs, k, sizes[k])
      {
        if k != ino {
          FileSame(old(blocks), old(addrs), addrs, k, sizes[k]);
        }
      }
      forall k | IsInode(old(addrs), k) && k != ino
        ensures IsInode(addrs, k) && FileBytes(k) == old(FileBytes(k))
      {
        FileSame(old(blocks), old(addrs), addrs, k, sizes[k]);
      }
    }

    // ---------------------------------------------------------------- filewrite

    /** Since the state the ghost parameters describe, data has been written at off0 through f, and nothing else. */
    ghost predicate WrittenThrough(f: File, off0: int, data: Block, bytes0: Block)
      reads this`blocks, this`used, this`addrs, this`owner, this`sizes, this`diskAddrs, this`diskSizes, f`off
    {
      && Valid() && IsInode(addrs, f.ino) && f.off == off0 + |data| && 0 <= off0
      && WrittenOver(bytes0, off0, data, FileBytes(f.ino)) && (data != [] ==> f.off <= MAXFILE * BSIZE)
    }

    /** What iupdate has written for every inode is what the kernel has. */
    ghost predicate Flushed()
      reads this`addrs, this`sizes, this`diskAddrs, this`diskSizes
    {
      diskAddrs == addrs && diskSizes == sizes
    }

    /** The writei of one transaction of filewrite. Its blocks are all logged. */
    method WriteChunk(f: File, chunk: Block, ghost off0: int, ghost data: Block, ghost bytes0: Block) returns (r: int)
      requires WrittenThrough(f, off0, data, bytes0) && f.off < UINT_LIMIT && 0 < |chunk| <= 3 * BSIZE && Flushed()
      modifies this, f
      ensures |addrs| == |old(addrs)| && -1 <= r <= |chunk| && Flushed()
      ensures WrittenThrough(f, off0, data + Written(chunk, r), bytes0) && f.off < UINT_LIMIT
      ensures OthersKept(f.ino) && |logged| <= MAXOPBLOCKS
      ensures TakesOnly(f.ino, old(f.off), if r == -1 then 0 else if r < |chunk| then r + 1 else r)
      ensures Logs(bmapStart, {InodeBlock(f.ino)}, old(Now()).(logged := {}), Now())
      ensures addrs == old(addrs)[f.ino := addrs[f.ino]] && sizes == old(sizes)[f.ino := sizes[f.ino]]
      ensures InodeBlock(f.ino) !in logged ==> addrs == old(addrs) && sizes == old(sizes)
      ensures r == -1 ==> old(f.off) > old(sizes)[f.ino] || old(f.off) + |chunk| > MAXFILE * BSIZE
      ensures 0 <= r < |chunk| ==> NoRoom(f.ino) && f.off == sizes[f.ino]
    {
      logged := {};
      r := Writei(f.ino, chunk, f.off);
      assert data + [] == data;
      if r >= 0 {
        WrittenMore(bytes0, off0, data, old(FileBytes(f.ino)), chunk[..r], FileBytes(f.ino));
      }
      if r > 0 {
        f.off := f.off + r;
      }
    }
  }

  lemma FileSame(blocks: seq<Block>, addrs0: seq<Addrs>, addrs: seq<Addrs>, i: int, size: int)
    requires IsInode(addrs0, i) && IsInode(addrs, i) && addrs[i] == addrs0[i] && FileOk(blocks, addrs0, i, size)
    ensures FileOk(blocks, addrs, i, size) && Content(blocks, addrs, i, size) == Content(blocks, addrs0, i, size)
  {
    forall bn | 0 <= bn < MAXFILE
      ensures Addr(blocks, addrs, i, bn) == Addr(blocks, addrs0, i, bn)
    {
    }
    var x, y := Content(blocks, addrs, i, size), Content(blocks, addrs0, i, size);
    forall k | 0 <= k < size
      ensures x[k] == y[k]
    {
      assert Addr(blocks, addrs, i, k / BSIZE) == Addr(blocks, addrs0, i, k / BSIZE);
    }
  }

  /** Without an indirect block nothing belongs to indirect pointers. */
  lemma NoIndirect(blocks: seq<Block>, used: seq<bool>, addrs: seq<Addrs>, owner0: seq<Owner>, owner: seq<Owner>,
                   ino: int)
    requires Owned(blocks, used, addrs, owner) && IsInode(addrs, ino) && Without(owner0, owner, ino, NDIRECT)
      && addrs[ino][NDIRECT] == 0
    ensures forall b :: 0 <= b < |owner| ==>
      owner[b] == if owner0[b].Slot? && owner0[b].ino == ino then Nobody else owner0[b]
  {
    forall b | 0 <= b < |owner|
      ensures owner[b] == if owner0[b].Slot? && owner0[b].ino == ino then Nobody else owner0[b]
    {
      assert OwnerOk(blocks, addrs, owner[b], b);
    }
  }

  lemma NothingIndirect(blocks: seq<Block>, used: seq<bool>, addrs: seq<Addrs>, owner0: seq<Owner>, owner: seq<Owner>,
                        ino: int)
    requires OwnedBut(blocks, used, addrs, owner, ino, NSLOTS) && Without(owner0, owner, ino, NSLOTS)
    ensures forall b :: 0 <= b < |owner| && owner[b].Slot? && owner[b].ino == ino ==> owner[b].s <= NDIRECT
  {
    forall b | 0 <= b < |owner| && owner[b].Slot? && owner[b].ino == ino
      ensures owner[b].s <= NDIRECT
    {
      assert OwnerOk(blocks, addrs, owner[b], b);
    }
  }

  lemma LastOwner(blocks: seq<Block>, addrs: seq<Addrs>, owner0: seq<Owner>, owner: seq<Owner>, used: seq<bool>,
                  ino: int, b: int)
    requires OwnedBut(blocks, used, addrs, owner, ino, NSLOTS) && Without(owner0, owner, ino, NSLOTS)
      && IsInode(addrs, ino)
    requires b == addrs[ino][NDIRECT] && 0 < b < |owner| && owner[b] == Slot(ino, NDIRECT)
    ensures forall c :: 0 <= c < |owner| ==>
      owner[b := Nobody][c] == if owner0[c].Slot? && owner0[c].ino == ino then Nobody else owner0[c]
  {
    forall c | 0 <= c < |owner|
      ensures owner[b := Nobody][c] == if owner0[c].Slot? && owner0[c].ino == ino then Nobody else owner0[c]
    {
      assert OwnerOk(blocks, addrs, owner[c], c);
    }
  }

  lemma Smaller(x: set<int>, y: set<int>)
    requires x <= y
    ensures |x| <= |y|
  {
    assert y == x + (y - x);
  }

  /** A file that is allocated up to its old size and in the written range is allocated up to its new size. */
  lemma FileGrown(blocks: seq<Block>, addrs: seq<Addrs>, ino: int, size: int, off: int, end: int)
    requires IsInode(addrs, ino) && FileOk(blocks, addrs, ino, size) && AllocatedIn(blocks, addrs, ino, off, end)
    requires 0 <= off <= size && end <= MAXFILE * BSIZE
    ensures FileOk(blocks, addrs, ino, if end > size then end else size)
  {
    forall bn | 0 <= bn < MAXFILE && bn * BSIZE < end
      ensures Addr(blocks, addrs, ino, bn) != 0
    {
      assert bn * BSIZE < size || off < (bn + 1) * BSIZE;
    }
  }
}
