/**
 Who owns the blocks of an xv6 file system (kernel/fs.c), and the bytes of a file.

 An inode has NSLOTS block pointers: the NDIRECT direct ones, the one to its indirect block, and
 the NINDIRECT words of that block. `owner` says of every block which pointer it belongs to.
 */
module Inodes {
  import opened ByteSeq
  import opened Params

  type Block = seq<int>
  type Addrs = seq<int>

  const NSLOTS := NDIRECT + 1 + NINDIRECT

  datatype Owner = Nobody | Meta | Slot(ino: int, s: int)

  // ------------------------------------------------------------------ words of a block

  /** The j-th uint of a block: ((uint*)data)[j], little-endian. */
  function Word(b: Block, j: int): int
    requires |b| == BSIZE && 0 <= j < NINDIRECT
  {
    b[4 * j] + 0x100 * b[4 * j + 1] + 0x1_0000 * b[4 * j + 2] + 0x100_0000 * b[4 * j + 3]
  }

  function PutWord(b: Block, j: int, w: int): (r: Block)
    requires |b| == BSIZE && 0 <= j < NINDIRECT && 0 <= w
    ensures |r| == BSIZE
  {
    b[4 * j := w % 0x100][4 * j + 1 := w / 0x100 % 0x100]
     [4 * j + 2 := w / 0x1_0000 % 0x100][4 * j + 3 := w / 0x100_0000 % 0x100]
  }

  lemma WordOfPut(b: Block, j: int, w: int, i: int)
    requires |b| == BSIZE && 0 <= j < NINDIRECT && 0 <= i < NINDIRECT && 0 <= w < UINT_LIMIT
    ensures Word(PutWord(b, j, w), i) == if i == j then w else Word(b, i)
  {
    if i == j {
      var w1, w2, w3 := w / 0x100, w / 0x1_0000, w / 0x100_0000;
      assert w2 == w1 / 0x100 && w3 == w2 / 0x100;
      assert w == w % 0x100 + 0x100 * w1 && w1 == w1 % 0x100 + 0x100 * w2 && w2 == w2 % 0x100 + 0x100 * w3;
    }
  }

  /** A word is stored in four bytes, the lowest first, and no other byte changes. */
  lemma PutWordIs(b: Block, j: int, w: int)
    requires |b| == BSIZE && 0 <= j < NINDIRECT && 0 <= w < UINT_LIMIT
    ensures var r := PutWord(b, j, w);
      && r[4 * j] + 0x100 * r[4 * j + 1] + 0x1_0000 * r[4 * j + 2] + 0x100_0000 * r[4 * j + 3] == w
      && (forall i :: 4 * j <= i < 4 * j + 4 ==> 0 <= r[i] < 0x100)
      && (forall i :: 0 <= i < |b| && !(4 * j <= i < 4 * j + 4) ==> r[i] == b[i])
  {
    WordOfPut(b, j, w, j);
  }

  function Zeros(): (r: Block)
    ensures |r| == BSIZE && forall i :: 0 <= i < BSIZE ==> r[i] == 0
  {
    seq(BSIZE, _ => 0)
  }

  // ------------------------------------------------------------------ block pointers

  predicate Shape(blocks: seq<Block>, used: seq<bool>, addrs: seq<Addrs>, owner: seq<Owner>) {
    && 0 < |blocks| == |used| == |owner| < UINT_LIMIT
    && (forall b :: 0 <= b < |blocks| ==> |blocks[b]| == BSIZE)
    && InodesOk(addrs)
  }

  predicate InodesOk(addrs: seq<Addrs>) {
    forall i :: 0 <= i < |addrs| ==> |addrs[i]| == NDIRECT + 1
  }

  predicate IsBlock(blocks: seq<Block>, b: int) {
    0 <= b < |blocks| && |blocks[b]| == BSIZE
  }

  predicate IsInode(addrs: seq<Addrs>, ino: int) {
    0 <= ino < |addrs| && |addrs[ino]| == NDIRECT + 1
  }

  predicate IsSlot(s: int) {
    0 <= s < NSLOTS
  }

  /** The block a pointer of an inode leads to, 0 if there is none. */
  function Value(blocks: seq<Block>, addrs: seq<Addrs>, ino: int, s: int): int
    requires IsInode(addrs, ino) && IsSlot(s)
  {
    if s <= NDIRECT then addrs[ino][s] else IndWord(blocks, addrs[ino][NDIRECT], s - NDIRECT - 1)
  }

  /** A word of the indirect block ib. */
  function IndWord(blocks: seq<Block>, ib: int, j: int): int
    requires 0 <= j < NINDIRECT
  {
    if ib != 0 && IsBlock(blocks, ib) then Word(blocks[ib], j) else 0
  }

  /** Pointers of the inode ex from NDIRECT + 1 up to hi are being freed and may dangle. */
  predicate Exempt(ex: int, hi: int, ino: int, s: int) {
    ino == ex && NDIRECT < s < hi
  }

  /** A pointer in use leads to a block that belongs to it. */
  predicate PointerOk(blocks: seq<Block>, addrs: seq<Addrs>, owner: seq<Owner>, ino: int, s: int)
    requires IsInode(addrs, ino) && IsSlot(s)
  {
    var b := Value(blocks, addrs, ino, s);
    b != 0 ==> 0 < b < |owner| && owner[b] == Slot(ino, s)
  }

  /** A block that belongs to a pointer is what it leads to. */
  predicate OwnerOk(blocks: seq<Block>, addrs: seq<Addrs>, o: Owner, b: int) {
    o.Slot? ==> IsInode(addrs, o.ino) && IsSlot(o.s) && b != 0 && Value(blocks, addrs, o.ino, o.s) == b
  }

  /** A bit of the bitmap is set exactly for metadata and for what exactly one pointer leads to. */
  ghost predicate OwnedBut(blocks: seq<Block>, used: seq<bool>, addrs: seq<Addrs>, owner: seq<Owner>, ex: int,
                           hi: int) {
    && Shape(blocks, used, addrs, owner)
    && owner[0].Meta?
    && (forall b :: 0 <= b < |owner| ==> (used[b] <==> !owner[b].Nobody?))
    && (forall b :: 0 <= b < |owner| ==> OwnerOk(blocks, addrs, owner[b], b))
    && (forall ino, s :: IsInode(addrs, ino) && IsSlot(s) && !Exempt(ex, hi, ino, s) ==>
        PointerOk(blocks, addrs, owner, ino, s))
  }

  ghost predicate Owned(blocks: seq<Block>, used: seq<bool>, addrs: seq<Addrs>, owner: seq<Owner>) {
    OwnedBut(blocks, used, addrs, owner, -1, 0)
  }

  // ------------------------------------------------------------------ what one change does

  lemma ValueOfAddr(blocks: seq<Block>, addrs: seq<Addrs>, ino: int, i: int, b: int, ino': int, s: int)
    requires IsInode(addrs, ino) && 0 <= i <= NDIRECT && IsInode(addrs, ino') && IsSlot(s)
    ensures IsInode(addrs[ino := addrs[ino][i := b]], ino')
    ensures Value(blocks, addrs[ino := addrs[ino][i := b]], ino', s) ==
      if ino' == ino && s == i then b
      else if ino' == ino && i == NDIRECT && s > NDIRECT then IndWord(blocks, b, s - NDIRECT - 1)
      else Value(blocks, addrs, ino', s)
  {
  }

  /** Another block's contents do not matter. */
  lemma ValueOfOther(blocks: seq<Block>, addrs: seq<Addrs>, b: int, data: Block, ino: int, s: int)
    requires IsInode(addrs, ino) && IsSlot(s) && 0 <= b < |blocks| && |data| == BSIZE && addrs[ino][NDIRECT] != b
    ensures Value(blocks[b := data], addrs, ino, s) == Value(blocks, addrs, ino, s)
  {
  }

  /** Writing a word of inode ino's indirect block changes that pointer alone. */
  lemma ValueOfWord(blocks: seq<Block>, addrs: seq<Addrs>, ino: int, j: int, w: int, ino': int, s: int)
    requires IsInode(addrs, ino) && IsInode(addrs, ino') && IsSlot(s) && 0 <= j < NINDIRECT && 0 <= w < UINT_LIMIT
    requires addrs[ino][NDIRECT] != 0 && IsBlock(blocks, addrs[ino][NDIRECT])
    requires ino' != ino ==> addrs[ino'][NDIRECT] != addrs[ino][NDIRECT]
    ensures var ib := addrs[ino][NDIRECT];
      Value(blocks[ib := PutWord(blocks[ib], j, w)], addrs, ino', s) ==
      if ino' == ino && s == NDIRECT + 1 + j then w else Value(blocks, addrs, ino', s)
  {
    if ino' == ino && s > NDIRECT {
      WordOfPut(blocks[addrs[ino][NDIRECT]], j, w, s - NDIRECT - 1);
    }
  }

  /** Two inodes never share an indirect block, and no data block is one. */
  lemma IndirectIsOwn(blocks: seq<Block>, used: seq<bool>, addrs: seq<Addrs>, owner: seq<Owner>, ex: int, hi: int,
                      ino: int)
    requires OwnedBut(blocks, used, addrs, owner, ex, hi) && IsInode(addrs, ino)
    ensures addrs[ino][NDIRECT] != 0 ==>
      0 < addrs[ino][NDIRECT] < |owner| && owner[addrs[ino][NDIRECT]] == Slot(ino, NDIRECT)
  {
    assert PointerOk(blocks, addrs, owner, ino, NDIRECT);
  }

  /** A free block b is marked, zeroed, and stored in the direct slot i or the indirect slot of ino. */
  lemma TakeDirect(blocks: seq<Block>, used: seq<bool>, addrs: seq<Addrs>, owner: seq<Owner>, ino: int, i: int, b: int)
    requires Owned(blocks, used, addrs, owner) && IsInode(addrs, ino) && 0 <= i <= NDIRECT && addrs[ino][i] == 0
    requires 0 <= b < |used| && !used[b]
    ensures Owned(blocks[b := Zeros()], used[b := true], addrs[ino := addrs[ino][i := b]], owner[b := Slot(ino, i)])
  {
    var blocks', used', addrs', owner' := blocks[b := Zeros()], used[b := true], addrs[ino := addrs[ino][i := b]],
      owner[b := Slot(ino, i)];
    forall ino', s | IsInode(addrs', ino') && IsSlot(s)
      ensures PointerOk(blocks', addrs', owner', ino', s)
    {
      assert PointerOk(blocks, addrs, owner, ino', s) && PointerOk(blocks, addrs, owner, ino', NDIRECT);
      ValueOfAddr(blocks', addrs, ino, i, b, ino', s);
      ValueOfOther(blocks, addrs, b, Zeros(), ino', s);
    }
    forall c | 0 <= c < |owner'|
      ensures OwnerOk(blocks', addrs', owner'[c], c)
    {
      assert OwnerOk(blocks, addrs, owner[c], c);
      var o := owner'[c];
      if o.Slot? && IsInode(addrs, o.ino) && IsSlot(o.s) {
        assert PointerOk(blocks, addrs, owner, o.ino, NDIRECT);
        ValueOfAddr(blocks', addrs, ino, i, b, o.ino, o.s);
        ValueOfOther(blocks, addrs, b, Zeros(), o.ino, o.s);
      }
    }
  }

  lemma TakeIndirect(blocks: seq<Block>, used: seq<bool>, addrs: seq<Addrs>, owner: seq<Owner>, ino: int, j: int,
                     b: int)
    requires Owned(blocks, used, addrs, owner) && IsInode(addrs, ino) && 0 <= j < NINDIRECT
    requires addrs[ino][NDIRECT] != 0 && Value(blocks, addrs, ino, NDIRECT + 1 + j) == 0
    requires 0 <= b < |used| && !used[b]
    ensures var ib := addrs[ino][NDIRECT]; IsBlock(blocks, ib) && ib != b
    ensures var ib := addrs[ino][NDIRECT];
      Owned(blocks[b := Zeros()][ib := PutWord(blocks[ib], j, b)], used[b := true], addrs,
        owner[b := Slot(ino, NDIRECT + 1 + j)])
  {
    IndirectIsOwn(blocks, used, addrs, owner, -1, 0, ino);
    var ib := addrs[ino][NDIRECT];
    var zeroed := blocks[b := Zeros()];
    var blocks', used', owner' := zeroed[ib := PutWord(blocks[ib], j, b)], used[b := true],
      owner[b := Slot(ino, NDIRECT + 1 + j)];
    forall ino', s | IsInode(addrs, ino') && IsSlot(s)
      ensures PointerOk(blocks', addrs, owner', ino', s)
    {
      assert PointerOk(blocks, addrs, owner, ino', s) && PointerOk(blocks, addrs, owner, ino', NDIRECT);
      ValueOfOther(blocks, addrs, b, Zeros(), ino', s);
      ValueOfWord(zeroed, addrs, ino, j, b, ino', s);
    }
    forall c | 0 <= c < |owner'|
      ensures OwnerOk(blocks', addrs, owner'[c], c)
    {
      assert OwnerOk(blocks, addrs, owner[c], c);
      var o := owner'[c];
      if o.Slot? && IsInode(addrs, o.ino) && IsSlot(o.s) {
        assert PointerOk(blocks, addrs, owner, o.ino, NDIRECT);
        ValueOfOther(blocks, addrs, b, Zeros(), o.ino, o.s);
        ValueOfWord(zeroed, addrs, ino, j, b, o.ino, o.s);
      }
    }
  }

  /** A data block's contents are no pointers. */
  lemma WriteData(blocks: seq<Block>, used: seq<bool>, addrs: seq<Addrs>, owner: seq<Owner>, b: int, data: Block,
                  ino: int, s: int)
    requires Owned(blocks, used, addrs, owner) && 0 <= b < |owner| && owner[b] == Slot(ino, s) && s != NDIRECT
      && |data| == BSIZE
    ensures Owned(blocks[b := data], used, addrs, owner)
    ensures forall ino', s' :: IsInode(addrs, ino') && IsSlot(s') ==>
      Value(blocks[b := data], addrs, ino', s') == Value(blocks, addrs, ino', s')
  {
    forall ino', s' | IsInode(addrs, ino') && IsSlot(s')
      ensures Value(blocks[b := data], addrs, ino', s') == Value(blocks, addrs, ino', s')
    {
      assert PointerOk(blocks, addrs, owner, ino', NDIRECT);
      ValueOfOther(blocks, addrs, b, data, ino', s');
    }
    forall ino', s' | IsInode(addrs, ino') && IsSlot(s')
      ensures PointerOk(blocks[b := data], addrs, owner, ino', s')
    {
      assert PointerOk(blocks, addrs, owner, ino', s');
    }
    forall c | 0 <= c < |owner|
      ensures OwnerOk(blocks[b := data], addrs, owner[c], c)
    {
      assert OwnerOk(blocks, addrs, owner[c], c);
    }
  }

  // ------------------------------------------------------------------ bytes

  /** The pointer of the bn-th block of a file. */
  function SlotOf(bn: int): int {
    if bn < NDIRECT then bn else bn + 1
  }

  function Addr(blocks: seq<Block>, addrs: seq<Addrs>, ino: int, bn: int): int
    requires IsInode(addrs, ino) && 0 <= bn < MAXFILE
  {
    Value(blocks, addrs, ino, SlotOf(bn))
  }

  /** Byte k of a file; unallocated blocks read as zeros. */
  function ByteAt(blocks: seq<Block>, addrs: seq<Addrs>, ino: int, k: int): int
    requires IsInode(addrs, ino) && 0 <= k < MAXFILE * BSIZE
  {
    BlockByte(blocks, Addr(blocks, addrs, ino, k / BSIZE), k % BSIZE)
  }

  function BlockByte(blocks: seq<Block>, b: int, o: int): int
    requires 0 <= o < BSIZE
  {
    if b != 0 && IsBlock(blocks, b) then blocks[b][o] else 0
  }

  /**
   Where byte k of a file is: in the block of addrs[k / 1024] below 12 blocks; behind them, in the
   block that the word of the indirect block addrs[12] names. Both are blocks of the disk.
   */
  lemma ByteIs(blocks: seq<Block>, used: seq<bool>, addrs: seq<Addrs>, owner: seq<Owner>, ino: int, k: int)
    requires Owned(blocks, used, addrs, owner) && IsInode(addrs, ino) && 0 <= k < MAXFILE * BSIZE
    ensures MAXFILE * BSIZE == 268 * 1024 && |addrs[ino]| == 13
    ensures k < 12 * 1024 && addrs[ino][k / 1024] == 0 ==> ByteAt(blocks, addrs, ino, k) == 0
    ensures k < 12 * 1024 && addrs[ino][k / 1024] != 0 ==>
      0 < addrs[ino][k / 1024] < |blocks| && |blocks[addrs[ino][k / 1024]]| == 1024
      && ByteAt(blocks, addrs, ino, k) == blocks[addrs[ino][k / 1024]][k % 1024]
    ensures k >= 12 * 1024 && addrs[ino][12] == 0 ==> ByteAt(blocks, addrs, ino, k) == 0
    ensures k >= 12 * 1024 && addrs[ino][12] != 0 ==>
      0 < addrs[ino][12] < |blocks| && |blocks[addrs[ino][12]]| == 1024
      && var b, at := blocks[addrs[ino][12]], 4 * (k / 1024 - 12);
         var w := b[at] + 0x100 * b[at + 1] + 0x1_0000 * b[at + 2] + 0x100_0000 * b[at + 3];
         && (w == 0 ==> ByteAt(blocks, addrs, ino, k) == 0)
         && (w != 0 ==> 0 < w < |blocks| && |blocks[w]| == 1024 && ByteAt(blocks, addrs, ino, k) == blocks[w][k % 1024])
  {
    assert PointerOk(blocks, addrs, owner, ino, SlotOf(k / BSIZE));
    assert PointerOk(blocks, addrs, owner, ino, NDIRECT);
  }

  /** No byte of any file differs. */
  ghost predicate SameBytes(blocks: seq<Block>, addrs: seq<Addrs>, blocks': seq<Block>, addrs': seq<Addrs>) {
    && |addrs'| == |addrs| && InodesOk(addrs) && InodesOk(addrs')
    && forall ino, k :: IsInode(addrs, ino) && 0 <= k < MAXFILE * BSIZE ==>
         ByteAt(blocks', addrs', ino, k) == ByteAt(blocks, addrs, ino, k)
  }

  /** Pointers in use keep their blocks. */
  ghost predicate PointersKept(blocks: seq<Block>, addrs: seq<Addrs>, blocks': seq<Block>, addrs': seq<Addrs>) {
    && |addrs'| == |addrs| && InodesOk(addrs) && InodesOk(addrs')
    && forall ino, s :: IsInode(addrs, ino) && IsSlot(s) && Value(blocks, addrs, ino, s) != 0 ==>
         Value(blocks', addrs', ino, s) == Value(blocks, addrs, ino, s)
  }

  lemma ByteOfFresh(blocks: seq<Block>, used: seq<bool>, addrs: seq<Addrs>, owner: seq<Owner>, b: int, ino: int, k: int)
    requires Owned(blocks, used, addrs, owner) && IsInode(addrs, ino) && 0 <= k < MAXFILE * BSIZE && 0 <= b < |used|
      && !used[b]
    ensures Addr(blocks, addrs, ino, k / BSIZE) != b || Addr(blocks, addrs, ino, k / BSIZE) == 0
    ensures addrs[ino][NDIRECT] != b || addrs[ino][NDIRECT] == 0
  {
    assert PointerOk(blocks, addrs, owner, ino, SlotOf(k / BSIZE)) && PointerOk(blocks, addrs, owner, ino, NDIRECT);
  }

  lemma TakeDirectBytes(blocks: seq<Block>, used: seq<bool>, addrs: seq<Addrs>, owner: seq<Owner>, ino: int, i: int,
                        b: int)
    requires Owned(blocks, used, addrs, owner) && IsInode(addrs, ino) && 0 <= i <= NDIRECT && addrs[ino][i] == 0
    requires 0 <= b < |used| && !used[b]
    ensures SameBytes(blocks, addrs, blocks[b := Zeros()], addrs[ino := addrs[ino][i := b]])
    ensures PointersKept(blocks, addrs, blocks[b := Zeros()], addrs[ino := addrs[ino][i := b]])
  {
    var blocks', addrs' := blocks[b := Zeros()], addrs[ino := addrs[ino][i := b]];
    assert owner[b].Nobody? && b != 0;
    forall ino', s | IsInode(addrs, ino') && IsSlot(s) && Value(blocks, addrs, ino', s) != 0
      ensures Value(blocks', addrs', ino', s) == Value(blocks, addrs, ino', s)
    {
      assert PointerOk(blocks, addrs, owner, ino', NDIRECT);
      ValueOfAddr(blocks', addrs, ino, i, b, ino', s);
      ValueOfOther(blocks, addrs, b, Zeros(), ino', s);
    }
    forall ino', k | IsInode(addrs, ino') && 0 <= k < MAXFILE * BSIZE
      ensures ByteAt(blocks', addrs', ino', k) == ByteAt(blocks, addrs, ino', k)
    {
      ByteOfFresh(blocks, used, addrs, owner, b, ino', k);
      ValueOfAddr(blocks', addrs, ino, i, b, ino', SlotOf(k / BSIZE));
      ValueOfOther(blocks, addrs, b, Zeros(), ino', SlotOf(k / BSIZE));
    }
  }

  lemma TakeIndirectBytes(blocks: seq<Block>, used: seq<bool>, addrs: seq<Addrs>, owner: seq<Owner>, ino: int, j: int,
                          b: int)
    requires Owned(blocks, used, addrs, owner) && IsInode(addrs, ino) && 0 <= j < NINDIRECT
    requires addrs[ino][NDIRECT] != 0 && Value(blocks, addrs, ino, NDIRECT + 1 + j) == 0
    requires 0 <= b < |used| && !used[b]
    ensures var ib := addrs[ino][NDIRECT]; IsBlock(blocks, ib) && ib != b
    ensures var ib := addrs[ino][NDIRECT]; var blocks' := blocks[b := Zeros()][ib := PutWord(blocks[ib], j, b)];
      SameBytes(blocks, addrs, blocks', addrs) && PointersKept(blocks, addrs, blocks', addrs)
      && Value(blocks', addrs, ino, NDIRECT + 1 + j) == b
  {
    IndirectIsOwn(blocks, used, addrs, owner, -1, 0, ino);
    var ib := addrs[ino][NDIRECT];
    var zeroed := blocks[b := Zeros()];
    var blocks' := zeroed[ib := PutWord(blocks[ib], j, b)];
    assert owner[b].Nobody? && b != 0 && zeroed[ib] == blocks[ib];
    forall ino', s | IsInode(addrs, ino') && IsSlot(s)
      ensures Value(blocks', addrs, ino', s)
        == if ino' == ino && s == NDIRECT + 1 + j then b else Value(blocks, addrs, ino', s)
    {
      assert PointerOk(blocks, addrs, owner, ino', NDIRECT);
      ValueOfOther(blocks, addrs, b, Zeros(), ino', s);
      ValueOfWord(zeroed, addrs, ino, j, b, ino', s);
    }
    forall ino', k | IsInode(addrs, ino') && 0 <= k < MAXFILE * BSIZE
      ensures ByteAt(blocks', addrs, ino', k) == ByteAt(blocks, addrs, ino', k)
    {
      ByteOfFresh(blocks, used, addrs, owner, b, ino', k);
      assert PointerOk(blocks, addrs, owner, ino', SlotOf(k / BSIZE));
      assert Value(blocks', addrs, ino', SlotOf(k / BSIZE)) ==
        if ino' == ino && SlotOf(k / BSIZE) == NDIRECT + 1 + j then b
          else Value(blocks, addrs, ino', SlotOf(k / BSIZE));
    }
  }

  // ------------------------------------------------------------------ blocks that are taken

  /** Block bn of a file has one of the n bytes from off on. */
  predicate Meets(bn: int, off: int, n: int) {
    0 < n && bn * BSIZE < off + n && off < (bn + 1) * BSIZE
  }

  /**
   Of all block pointers, those that are 0 included, only those of inode ino's blocks that meet the n bytes from
   off on differ; and its pointer to the indirect block, if that was 0 and the bytes reach behind the direct blocks.
   */
  ghost predicate OnlyHere(blocks0: seq<Block>, addrs0: seq<Addrs>, blocks: seq<Block>, addrs: seq<Addrs>, ino: int,
                           off: int, n: int) {
    && |addrs| == |addrs0| && InodesOk(addrs0) && InodesOk(addrs)
    && (forall i, bn :: IsInode(addrs0, i) && 0 <= bn < MAXFILE && !(i == ino && Meets(bn, off, n)) ==>
          Addr(blocks, addrs, i, bn) == Addr(blocks0, addrs0, i, bn))
    && (forall i ::
          IsInode(addrs0, i) && !(i == ino && addrs0[i][NDIRECT] == 0 && 0 < n && NDIRECT * BSIZE < off + n) ==>
          addrs[i][NDIRECT] == addrs0[i][NDIRECT])
  }

  lemma OnlyHereNone(blocks: seq<Block>, addrs: seq<Addrs>, ino: int, off: int, n: int)
    requires InodesOk(addrs)
    ensures OnlyHere(blocks, addrs, blocks, addrs, ino, off, n)
  {
  }

  lemma OnlyHereJoin(blocks0: seq<Block>, addrs0: seq<Addrs>, blocks1: seq<Block>, addrs1: seq<Addrs>,
                     blocks: seq<Block>, addrs: seq<Addrs>, ino: int, off: int, n0: int, at: int, n1: int, n: int)
    requires OnlyHere(blocks0, addrs0, blocks1, addrs1, ino, off, n0) && n0 <= n
    requires OnlyHere(blocks1, addrs1, blocks, addrs, ino, at, n1) && (n1 > 0 ==> off <= at && at + n1 <= off + n)
    ensures OnlyHere(blocks0, addrs0, blocks, addrs, ino, off, n)
  {
    forall i, bn | IsInode(addrs0, i) && 0 <= bn < MAXFILE && !(i == ino && Meets(bn, off, n))
      ensures Addr(blocks, addrs, i, bn) == Addr(blocks0, addrs0, i, bn)
    {
      assert IsInode(addrs1, i);
      assert Addr(blocks1, addrs1, i, bn) == Addr(blocks0, addrs0, i, bn);
    }
    forall i | IsInode(addrs0, i) && !(i == ino && addrs0[i][NDIRECT] == 0 && 0 < n && NDIRECT * BSIZE < off + n)
      ensures addrs[i][NDIRECT] == addrs0[i][NDIRECT]
    {
      assert IsInode(addrs1, i);
    }
  }

  /** A byte stands for its block. */
  lemma OnlyHereBlock(blocks0: seq<Block>, addrs0: seq<Addrs>, blocks: seq<Block>, addrs: seq<Addrs>, ino: int, at: int)
    requires OnlyHere(blocks0, addrs0, blocks, addrs, ino, at / BSIZE * BSIZE, 1) && 0 <= at
    ensures OnlyHere(blocks0, addrs0, blocks, addrs, ino, at, 1)
  {
    forall bn
      ensures Meets(bn, at / BSIZE * BSIZE, 1) <==> Meets(bn, at, 1)
    {
    }
    forall i, bn | IsInode(addrs0, i) && 0 <= bn < MAXFILE && !(i == ino && Meets(bn, at, 1))
      ensures Addr(blocks, addrs, i, bn) == Addr(blocks0, addrs0, i, bn)
    {
    }
  }

  /** Data written to blocks changes no pointer. */
  lemma OnlyHereData(blocks0: seq<Block>, addrs0: seq<Addrs>, blocks1: seq<Block>, blocks: seq<Block>,
                     addrs: seq<Addrs>, ino: int, off: int, n: int)
    requires OnlyHere(blocks0, addrs0, blocks1, addrs, ino, off, n)
    requires forall i, s :: IsInode(addrs, i) && IsSlot(s) ==> Value(blocks, addrs, i, s) == Value(blocks1, addrs, i, s)
    ensures OnlyHere(blocks0, addrs0, blocks, addrs, ino, off, n)
  {
    forall i, bn | IsInode(addrs0, i) && 0 <= bn < MAXFILE && !(i == ino && Meets(bn, off, n))
      ensures Addr(blocks, addrs, i, bn) == Addr(blocks0, addrs0, i, bn)
    {
      assert IsInode(addrs, i);
      assert Value(blocks, addrs, i, SlotOf(bn)) == Value(blocks1, addrs, i, SlotOf(bn));
      assert Addr(blocks1, addrs, i, bn) == Addr(blocks0, addrs0, i, bn);
    }
  }

  /** Storing a fresh block in a direct slot, or in the slot of the indirect block on the way to block bn. */
  lemma TakeDirectHere(blocks: seq<Block>, used: seq<bool>, addrs: seq<Addrs>, owner: seq<Owner>, ino: int, i: int,
                       b: int, bn: int)
    requires Owned(blocks, used, addrs, owner) && IsInode(addrs, ino) && 0 <= bn < MAXFILE
    requires i == (if bn < NDIRECT then bn else NDIRECT) && addrs[ino][i] == 0 && 0 <= b < |used| && !used[b]
    ensures OnlyHere(blocks, addrs, blocks[b := Zeros()], addrs[ino := addrs[ino][i := b]], ino, bn * BSIZE, 1)
  {
    var blocks', addrs' := blocks[b := Zeros()], addrs[ino := addrs[ino][i := b]];
    assert owner[b].Nobody? && b != 0;
    forall ino', n | IsInode(addrs, ino') && 0 <= n < MAXFILE && !(ino' == ino && Meets(n, bn * BSIZE, 1))
      ensures Addr(blocks', addrs', ino', n) == Addr(blocks, addrs, ino', n)
    {
      assert PointerOk(blocks, addrs, owner, ino', NDIRECT);
      assert Meets(bn, bn * BSIZE, 1);
      ValueOfAddr(blocks', addrs, ino, i, b, ino', SlotOf(n));
      ValueOfOther(blocks, addrs, b, Zeros(), ino', SlotOf(n));
    }
  }

  /** Storing a fresh block in a word of the indirect block. */
  lemma TakeIndirectHere(blocks: seq<Block>, used: seq<bool>, addrs: seq<Addrs>, owner: seq<Owner>, ino: int, j: int,
                         b: int)
    requires Owned(blocks, used, addrs, owner) && IsInode(addrs, ino) && 0 <= j < NINDIRECT
    requires addrs[ino][NDIRECT] != 0 && Value(blocks, addrs, ino, NDIRECT + 1 + j) == 0
    requires 0 <= b < |used| && !used[b]
    ensures var ib := addrs[ino][NDIRECT]; IsBlock(blocks, ib) && ib != b
    ensures var ib := addrs[ino][NDIRECT]; var blocks' := blocks[b := Zeros()][ib := PutWord(blocks[ib], j, b)];
      OnlyHere(blocks, addrs, blocks', addrs, ino, (NDIRECT + j) * BSIZE, 1)
  {
    IndirectIsOwn(blocks, used, addrs, owner, -1, 0, ino);
    var ib := addrs[ino][NDIRECT];
    var zeroed := blocks[b := Zeros()];
    var blocks' := zeroed[ib := PutWord(blocks[ib], j, b)];
    assert owner[b].Nobody? && b != 0 && zeroed[ib] == blocks[ib];
    assert Meets(NDIRECT + j, (NDIRECT + j) * BSIZE, 1);
    forall ino', n | IsInode(addrs, ino') && 0 <= n < MAXFILE && !(ino' == ino && Meets(n, (NDIRECT + j) * BSIZE, 1))
      ensures Addr(blocks', addrs, ino', n) == Addr(blocks, addrs, ino', n)
    {
      assert PointerOk(blocks, addrs, owner, ino', NDIRECT);
      ValueOfOther(blocks, addrs, b, Zeros(), ino', SlotOf(n));
      ValueOfWord(zeroed, addrs, ino, j, b, ino', SlotOf(n));
    }
  }

  /** Bits have only been set, and there is no free block below one that was taken. */
  ghost predicate FirstFit(used0: seq<bool>, used: seq<bool>) {
    && |used| == |used0| && (forall b :: 0 <= b < |used| && used0[b] ==> used[b])
    && forall b, c :: 0 <= c < b < |used| && used[b] && !used0[b] ==> used[c]
  }

  lemma FirstFitJoin(used0: seq<bool>, used1: seq<bool>, used: seq<bool>)
    requires FirstFit(used0, used1) && FirstFit(used1, used)
    ensures FirstFit(used0, used)
  {
  }

  /** The bits that are new are those of inode ino's new blocks that meet the bytes, and of a new indirect block. */
  ghost predicate TakenHere(blocks0: seq<Block>, used0: seq<bool>, addrs0: seq<Addrs>, blocks: seq<Block>,
                            used: seq<bool>, addrs: seq<Addrs>, ino: int, off: int, n: int) {
    && FirstFit(used0, used) && IsInode(addrs0, ino) && IsInode(addrs, ino) && (|used| > 0 ==> used[0] == used0[0])
    && forall b :: 0 <= b < |used| && used[b] != used0[b] ==>
         || (b == addrs[ino][NDIRECT] && addrs0[ino][NDIRECT] == 0 && NDIRECT * BSIZE < off + n)
         || exists bn :: 0 <= bn < MAXFILE && Meets(bn, off, n) && Addr(blocks, addrs, ino, bn) == b
                         && Addr(blocks0, addrs0, ino, bn) == 0
  }

  lemma NewBits(blocks0: seq<Block>, used0: seq<bool>, addrs0: seq<Addrs>, owner0: seq<Owner>, blocks: seq<Block>,
                used: seq<bool>, addrs: seq<Addrs>, owner: seq<Owner>, ino: int, off: int, n: int)
    requires Owned(blocks0, used0, addrs0, owner0) && Owned(blocks, used, addrs, owner) && FirstFit(used0, used)
    requires OnlyHere(blocks0, addrs0, blocks, addrs, ino, off, n) && PointersKept(blocks0, addrs0, blocks, addrs)
    requires IsInode(addrs0, ino) && |owner| == |owner0|
    requires forall b :: 0 <= b < |owner| ==> (owner[b].Meta? <==> owner0[b].Meta?)
    ensures TakenHere(blocks0, used0, addrs0, blocks, used, addrs, ino, off, n)
  {
    forall b | 0 <= b < |used| && used[b] != used0[b]
      ensures (b == addrs[ino][NDIRECT] && addrs0[ino][NDIRECT] == 0 && NDIRECT * BSIZE < off + n)
        || exists bn :: 0 <= bn < MAXFILE && Meets(bn, off, n) && Addr(blocks, addrs, ino, bn) == b
                        && Addr(blocks0, addrs0, ino, bn) == 0
    {
      NewBit(blocks0, used0, addrs0, owner0, blocks, used, addrs, owner, ino, off, n, b);
    }
  }

  lemma NewBit(blocks0: seq<Block>, used0: seq<bool>, addrs0: seq<Addrs>, owner0: seq<Owner>, blocks: seq<Block>,
               used: seq<bool>, addrs: seq<Addrs>, owner: seq<Owner>, ino: int, off: int, n: int, b: int)
    requires Owned(blocks0, used0, addrs0, owner0) && Owned(blocks, used, addrs, owner) && |owner| == |owner0|
    requires OnlyHere(blocks0, addrs0, blocks, addrs, ino, off, n) && PointersKept(blocks0, addrs0, blocks, addrs)
    requires IsInode(addrs0, ino) && 0 <= b < |used| && used[b] && !used0[b]
    requires owner[b].Meta? ==> owner0[b].Meta?
    ensures IsInode(addrs, ino)
    ensures (b == addrs[ino][NDIRECT] && addrs0[ino][NDIRECT] == 0 && NDIRECT * BSIZE < off + n)
      || exists bn :: 0 <= bn < MAXFILE && Meets(bn, off, n) && Addr(blocks, addrs, ino, bn) == b
                      && Addr(blocks0, addrs0, ino, bn) == 0
  {
    assert owner0[b].Nobody? && owner[b].Slot?;
    assert OwnerOk(blocks, addrs, owner[b], b);
    var i, s := owner[b].ino, owner[b].s;
    assert IsInode(addrs0, i) && PointerOk(blocks0, addrs0, owner0, i, s);
    assert Value(blocks0, addrs0, i, s) != b;
    assert Value(blocks0, addrs0, i, s) == 0;
    if s != NDIRECT {
      var bn := if s < NDIRECT then s else s - 1;
      assert SlotOf(bn) == s;
      assert Addr(blocks, addrs, i, bn) == b && Addr(blocks0, addrs0, i, bn) == 0;
    }
  }

  /** A change of block pointers and bitmap for the n bytes from off on of inode ino, and for nothing else. */
  ghost predicate Takes(blocks0: seq<Block>, used0: seq<bool>, addrs0: seq<Addrs>, blocks: seq<Block>,
                        used: seq<bool>, addrs: seq<Addrs>, ino: int, off: int, n: int) {
    && OnlyHere(blocks0, addrs0, blocks, addrs, ino, off, n) && PointersKept(blocks0, addrs0, blocks, addrs)
    && TakenHere(blocks0, used0, addrs0, blocks, used, addrs, ino, off, n)
  }

  lemma TakesNothing(blocks: seq<Block>, used: seq<bool>, addrs: seq<Addrs>, ino: int, off: int, n: int)
    requires InodesOk(addrs) && IsInode(addrs, ino)
    ensures Takes(blocks, used, addrs, blocks, used, addrs, ino, off, n)
  {
  }

  lemma TakesJoin(blocks0: seq<Block>, used0: seq<bool>, addrs0: seq<Addrs>, blocks1: seq<Block>, used1: seq<bool>,
                  addrs1: seq<Addrs>, blocks: seq<Block>, used: seq<bool>, addrs: seq<Addrs>, ino: int, off: int,
                  n0: int, at: int, n1: int, n: int)
    requires Takes(blocks0, used0, addrs0, blocks1, used1, addrs1, ino, off, n0) && n0 <= n
    requires Takes(blocks1, used1, addrs1, blocks, used, addrs, ino, at, n1) && off <= at && at + n1 <= off + n
    ensures Takes(blocks0, used0, addrs0, blocks, used, addrs, ino, off, n)
  {
    OnlyHereJoin(blocks0, addrs0, blocks1, addrs1, blocks, addrs, ino, off, n0, at, n1, n);
    PointersKeptJoin(blocks0, addrs0, blocks1, addrs1, blocks, addrs);
    FirstFitJoin(used0, used1, used);
    forall b | 0 <= b < |used| && used[b] != used0[b]
      ensures (b == addrs[ino][NDIRECT] && addrs0[ino][NDIRECT] == 0 && NDIRECT * BSIZE < off + n)
        || exists bn :: 0 <= bn < MAXFILE && Meets(bn, off, n) && Addr(blocks, addrs, ino, bn) == b
                        && Addr(blocks0, addrs0, ino, bn) == 0
    {
      if used1[b] != used0[b] {
        assert b != 0;
        EarlierBit(blocks0, used0, addrs0, blocks1, used1, addrs1, blocks, addrs, ino, off, n0, n, b);
      } else {
        LaterBit(blocks0, addrs0, blocks1, used1, addrs1, blocks, used, addrs, ino, off, at, n1, n, b);
      }
    }
  }

  lemma EarlierBit(blocks0: seq<Block>, used0: seq<bool>, addrs0: seq<Addrs>, blocks1: seq<Block>, used1: seq<bool>,
                   addrs1: seq<Addrs>, blocks: seq<Block>, addrs: seq<Addrs>, ino: int, off: int, n0: int, n: int,
                   b: int)
    requires TakenHere(blocks0, used0, addrs0, blocks1, used1, addrs1, ino, off, n0) && n0 <= n && IsInode(addrs, ino)
    requires PointersKept(blocks1, addrs1, blocks, addrs) && 0 < b < |used1| && used1[b] != used0[b]
    ensures (b == addrs[ino][NDIRECT] && addrs0[ino][NDIRECT] == 0 && NDIRECT * BSIZE < off + n)
      || exists bn :: 0 <= bn < MAXFILE && Meets(bn, off, n) && Addr(blocks, addrs, ino, bn) == b
                      && Addr(blocks0, addrs0, ino, bn) == 0
  {
    if b == addrs1[ino][NDIRECT] && addrs0[ino][NDIRECT] == 0 && NDIRECT * BSIZE < off + n0 {
      assert Value(blocks, addrs, ino, NDIRECT) == Value(blocks1, addrs1, ino, NDIRECT);
    } else {
      var bn :| 0 <= bn < MAXFILE && Meets(bn, off, n0) && Addr(blocks1, addrs1, ino, bn) == b
                && Addr(blocks0, addrs0, ino, bn) == 0;
      assert Value(blocks, addrs, ino, SlotOf(bn)) == Value(blocks1, addrs1, ino, SlotOf(bn));
      assert Meets(bn, off, n) && Addr(blocks, addrs, ino, bn) == b;
    }
  }

  lemma ZeroBefore(blocks0: seq<Block>, addrs0: seq<Addrs>, blocks1: seq<Block>, addrs1: seq<Addrs>, ino: int, s: int)
    requires PointersKept(blocks0, addrs0, blocks1, addrs1) && IsInode(addrs0, ino) && IsInode(addrs1, ino) && IsSlot(s)
    requires Value(blocks1, addrs1, ino, s) == 0
    ensures Value(blocks0, addrs0, ino, s) == 0
  {
  }

  lemma LaterBit(blocks0: seq<Block>, addrs0: seq<Addrs>, blocks1: seq<Block>, used1: seq<bool>, addrs1: seq<Addrs>,
                 blocks: seq<Block>, used: seq<bool>, addrs: seq<Addrs>, ino: int, off: int, at: int, n1: int, n: int,
                 b: int)
    requires TakenHere(blocks1, used1, addrs1, blocks, used, addrs, ino, at, n1) && IsInode(addrs0, ino)
    requires PointersKept(blocks0, addrs0, blocks1, addrs1) && off <= at && at + n1 <= off + n
    requires 0 <= b < |used| && used[b] != used1[b]
    ensures (b == addrs[ino][NDIRECT] && addrs0[ino][NDIRECT] == 0 && NDIRECT * BSIZE < off + n)
      || exists bn :: 0 <= bn < MAXFILE && Meets(bn, off, n) && Addr(blocks, addrs, ino, bn) == b
                      && Addr(blocks0, addrs0, ino, bn) == 0
  {
    if addrs1[ino][NDIRECT] == 0 {
      ZeroBefore(blocks0, addrs0, blocks1, addrs1, ino, NDIRECT);
    }
    if bn :| 0 <= bn < MAXFILE && Meets(bn, at, n1) && Addr(blocks, addrs, ino, bn) == b
             && Addr(blocks1, addrs1, ino, bn) == 0 {
      ZeroBefore(blocks0, addrs0, blocks1, addrs1, ino, SlotOf(bn));
      assert Meets(bn, off, n) && Addr(blocks0, addrs0, ino, bn) == 0;
    }
  }

  // ------------------------------------------------------------------ writing bytes

  /** Every byte is what it was, except that file ino holds data at off. */
  ghost predicate BytesAre(blocks0: seq<Block>, addrs0: seq<Addrs>, blocks: seq<Block>, addrs: seq<Addrs>, ino: int,
                           off: int, data: Block) {
    && |addrs| == |addrs0| && InodesOk(addrs) && InodesOk(addrs0)
    && forall i, k :: IsInode(addrs0, i) && 0 <= k < MAXFILE * BSIZE ==>
         ByteAt(blocks, addrs, i, k)
           == if i == ino && off <= k < off + |data| then data[k - off] else ByteAt(blocks0, addrs0, i, k)
  }

  lemma BytesAreNothing(blocks: seq<Block>, addrs: seq<Addrs>, ino: int, off: int)
    requires InodesOk(addrs)
    ensures BytesAre(blocks, addrs, blocks, addrs, ino, off, [])
  {
  }

  lemma BytesAreSame(blocks0: seq<Block>, addrs0: seq<Addrs>, blocks1: seq<Block>, addrs1: seq<Addrs>,
                     blocks: seq<Block>, addrs: seq<Addrs>,
                     ino: int, off: int, data: Block)
    requires BytesAre(blocks0, addrs0, blocks1, addrs1, ino, off, data) && SameBytes(blocks1, addrs1, blocks, addrs)
    ensures BytesAre(blocks0, addrs0, blocks, addrs, ino, off, data)
  {
    forall i, k | IsInode(addrs0, i) && 0 <= k < MAXFILE * BSIZE
      ensures ByteAt(blocks, addrs, i, k)
        == if i == ino && off <= k < off + |data| then data[k - off] else ByteAt(blocks0, addrs0, i, k)
    {
      assert IsInode(addrs1, i);
      assert ByteAt(blocks, addrs, i, k) == ByteAt(blocks1, addrs1, i, k);
    }
  }

  /** Writing chunk at file offset at, within one block, changes exactly those bytes of that file. */
  lemma PokeBytes(blocks: seq<Block>, used: seq<bool>, addrs: seq<Addrs>, owner: seq<Owner>, ino: int, at: int,
                  chunk: Block, i: int, k: int)
    requires Owned(blocks, used, addrs, owner) && IsInode(addrs, ino) && IsInode(addrs, i)
    requires 0 <= at < MAXFILE * BSIZE && at % BSIZE + |chunk| <= BSIZE && 0 <= k < MAXFILE * BSIZE
    requires Addr(blocks, addrs, ino, at / BSIZE) != 0
    ensures var b := Addr(blocks, addrs, ino, at / BSIZE);
      IsBlock(blocks, b) && owner[b] == Slot(ino, SlotOf(at / BSIZE))
    ensures var b := Addr(blocks, addrs, ino, at / BSIZE);
      ByteAt(blocks[b := Poke(blocks[b], at % BSIZE, chunk)], addrs, i, k)
      == if i == ino && at <= k < at + |chunk| then chunk[k - at] else ByteAt(blocks, addrs, i, k)
  {
    var b := Addr(blocks, addrs, ino, at / BSIZE);
    assert PointerOk(blocks, addrs, owner, ino, SlotOf(at / BSIZE));
    assert PointerOk(blocks, addrs, owner, i, SlotOf(k / BSIZE));
    WriteData(blocks, used, addrs, owner, b, Poke(blocks[b], at % BSIZE, chunk), ino, SlotOf(at / BSIZE));
    var c := Addr(blocks, addrs, i, k / BSIZE);
    assert Value(blocks[b := Poke(blocks[b], at % BSIZE, chunk)], addrs, i, SlotOf(k / BSIZE)) == c;
    if i == ino && k / BSIZE == at / BSIZE {
      assert at <= k < at + |chunk| <==> at % BSIZE <= k % BSIZE < at % BSIZE + |chunk|;
    } else {
      assert !(i == ino && at <= k < at + |chunk|);
      assert c == b ==> b == 0;
    }
  }

  lemma BytesAreMore(blocks0: seq<Block>, addrs0: seq<Addrs>, blocks: seq<Block>, used: seq<bool>, addrs: seq<Addrs>,
                     owner: seq<Owner>,
                     ino: int, off: int, data: Block, chunk: Block)
    requires BytesAre(blocks0, addrs0, blocks, addrs, ino, off, data) && Owned(blocks, used, addrs, owner)
      && IsInode(addrs, ino) && IsInode(addrs0, ino)
    requires var at := off + |data|;
      && 0 <= off && at < MAXFILE * BSIZE && at % BSIZE + |chunk| <= BSIZE
      && Addr(blocks, addrs, ino, at / BSIZE) != 0
    ensures var b := Addr(blocks, addrs, ino, (off + |data|) / BSIZE); IsBlock(blocks, b)
    ensures var at := off + |data|; var b := Addr(blocks, addrs, ino, at / BSIZE);
      BytesAre(blocks0, addrs0, blocks[b := Poke(blocks[b], at % BSIZE, chunk)], addrs, ino, off, data + chunk)
  {
    var at, more := off + |data|, data + chunk;
    PokeBytes(blocks, used, addrs, owner, ino, at, chunk, ino, 0);
    var b := Addr(blocks, addrs, ino, at / BSIZE);
    var blocks' := blocks[b := Poke(blocks[b], at % BSIZE, chunk)];
    forall i, k | IsInode(addrs0, i) && 0 <= k < MAXFILE * BSIZE
      ensures ByteAt(blocks', addrs, i, k)
        == if i == ino && off <= k < off + |more| then more[k - off] else ByteAt(blocks0, addrs0, i, k)
    {
      assert IsInode(addrs, i);
      PokeBytes(blocks, used, addrs, owner, ino, at, chunk, i, k);
      assert ByteAt(blocks, addrs, i, k)
        == if i == ino && off <= k < off + |data| then data[k - off] else ByteAt(blocks0, addrs0, i, k);
    }
    assert BytesAre(blocks0, addrs0, blocks', addrs, ino, off, more);
  }

  lemma SameBytesJoin(blocks0: seq<Block>, addrs0: seq<Addrs>, blocks1: seq<Block>, addrs1: seq<Addrs>,
                      blocks: seq<Block>, addrs: seq<Addrs>)
    requires SameBytes(blocks0, addrs0, blocks1, addrs1) && SameBytes(blocks1, addrs1, blocks, addrs)
    ensures SameBytes(blocks0, addrs0, blocks, addrs)
  {
    forall ino, k | IsInode(addrs0, ino) && 0 <= k < MAXFILE * BSIZE
      ensures ByteAt(blocks, addrs, ino, k) == ByteAt(blocks0, addrs0, ino, k)
    {
      assert IsInode(addrs1, ino);
      assert ByteAt(blocks1, addrs1, ino, k) == ByteAt(blocks0, addrs0, ino, k);
    }
  }

  lemma PointersKeptJoin(blocks0: seq<Block>, addrs0: seq<Addrs>, blocks1: seq<Block>, addrs1: seq<Addrs>,
                         blocks: seq<Block>, addrs: seq<Addrs>)
    requires PointersKept(blocks0, addrs0, blocks1, addrs1) && PointersKept(blocks1, addrs1, blocks, addrs)
    ensures PointersKept(blocks0, addrs0, blocks, addrs)
  {
    forall ino, s | IsInode(addrs0, ino) && IsSlot(s) && Value(blocks0, addrs0, ino, s) != 0
      ensures Value(blocks, addrs, ino, s) == Value(blocks0, addrs0, ino, s)
    {
      assert IsInode(addrs1, ino);
      assert Value(blocks1, addrs1, ino, s) == Value(blocks0, addrs0, ino, s);
    }
  }

  // ------------------------------------------------------------------ whole files

  /** The size is within bounds and every block below it is allocated. */
  ghost predicate FileOk(blocks: seq<Block>, addrs: seq<Addrs>, ino: int, size: int)
    requires IsInode(addrs, ino)
  {
    && 0 <= size <= MAXFILE * BSIZE
    && forall bn :: 0 <= bn < MAXFILE && bn * BSIZE < size ==> Addr(blocks, addrs, ino, bn) != 0
  }

  ghost function Content(blocks: seq<Block>, addrs: seq<Addrs>, ino: int, size: int): (r: Block)
    requires IsInode(addrs, ino) && 0 <= size <= MAXFILE * BSIZE
    ensures |r| == size && forall k :: 0 <= k < size ==> r[k] == ByteAt(blocks, addrs, ino, k)
  {
    seq(size, k requires 0 <= k < size => ByteAt(blocks, addrs, ino, k))
  }

  lemma ContentWritten(blocks0: seq<Block>, addrs0: seq<Addrs>, blocks: seq<Block>, addrs: seq<Addrs>, ino: int,
                       off: int, data: Block, size0: int, size: int)
    requires BytesAre(blocks0, addrs0, blocks, addrs, ino, off, data) && IsInode(addrs0, ino) && IsInode(addrs, ino)
    requires 0 <= off <= size0 <= MAXFILE * BSIZE && off + |data| <= MAXFILE * BSIZE
    requires size == if off + |data| > size0 then off + |data| else size0
    ensures Content(blocks, addrs, ino, size) == Overwritten(Content(blocks0, addrs0, ino, size0), off, data)
  {
    var x, y := Content(blocks, addrs, ino, size), Overwritten(Content(blocks0, addrs0, ino, size0), off, data);
    forall k | 0 <= k < size
      ensures x[k] == y[k]
    {
      assert ByteAt(blocks, addrs, ino, k) == if off <= k < off + |data| then data[k - off]
        else ByteAt(blocks0, addrs0, ino, k);
    }
  }

  lemma ContentKept(blocks0: seq<Block>, addrs0: seq<Addrs>, blocks: seq<Block>, addrs: seq<Addrs>, ino: int, off: int,
                    data: Block, i: int, size: int)
    requires BytesAre(blocks0, addrs0, blocks, addrs, ino, off, data) && IsInode(addrs0, i) && IsInode(addrs, i)
      && i != ino
    requires 0 <= size <= MAXFILE * BSIZE
    ensures Content(blocks, addrs, i, size) == Content(blocks0, addrs0, i, size)
  {
    var x, y := Content(blocks, addrs, i, size), Content(blocks0, addrs0, i, size);
    forall k | 0 <= k < size
      ensures x[k] == y[k]
    {
      assert ByteAt(blocks, addrs, i, k) == ByteAt(blocks0, addrs0, i, k);
    }
  }

  lemma FileOkKept(blocks0: seq<Block>, addrs0: seq<Addrs>, blocks: seq<Block>, addrs: seq<Addrs>, ino: int, size: int)
    requires PointersKept(blocks0, addrs0, blocks, addrs) && IsInode(addrs0, ino) && IsInode(addrs, ino)
      && FileOk(blocks0, addrs0, ino, size)
    ensures FileOk(blocks, addrs, ino, size)
  {
    forall bn | 0 <= bn < MAXFILE && bn * BSIZE < size
      ensures Addr(blocks, addrs, ino, bn) != 0
    {
      assert Addr(blocks0, addrs0, ino, bn) != 0;
    }
  }

  /** Every block that bytes off..end of the file lie in is allocated. */
  ghost predicate AllocatedIn(blocks: seq<Block>, addrs: seq<Addrs>, ino: int, off: int, end: int)
    requires IsInode(addrs, ino)
  {
    forall bn :: 0 <= bn < MAXFILE && off < (bn + 1) * BSIZE && bn * BSIZE < end ==> Addr(blocks, addrs, ino, bn) != 0
  }

  lemma AllocatedStays(blocks0: seq<Block>, addrs0: seq<Addrs>, blocks: seq<Block>, addrs: seq<Addrs>, ino: int,
                       off: int, end: int)
    requires PointersKept(blocks0, addrs0, blocks, addrs) && IsInode(addrs0, ino) && IsInode(addrs, ino)
    requires AllocatedIn(blocks0, addrs0, ino, off, end)
    ensures AllocatedIn(blocks, addrs, ino, off, end)
  {
    forall bn | 0 <= bn < MAXFILE && off < (bn + 1) * BSIZE && bn * BSIZE < end
      ensures Addr(blocks, addrs, ino, bn) != 0
    {
      assert Addr(blocks0, addrs0, ino, bn) != 0;
    }
  }

  lemma AllocatedMore(blocks: seq<Block>, addrs: seq<Addrs>, ino: int, off: int, at: int, m: int)
    requires IsInode(addrs, ino) && AllocatedIn(blocks, addrs, ino, off, at) && 0 <= off <= at && 0 <= m
      && at < MAXFILE * BSIZE
    requires at % BSIZE + m <= BSIZE && Addr(blocks, addrs, ino, at / BSIZE) != 0
    ensures AllocatedIn(blocks, addrs, ino, off, at + m)
  {
    forall bn | 0 <= bn < MAXFILE && off < (bn + 1) * BSIZE && bn * BSIZE < at + m
      ensures Addr(blocks, addrs, ino, bn) != 0
    {
      if bn * BSIZE >= at {
        assert bn == at / BSIZE;
      }
    }
  }

  /** Changing a data block's bytes leaves every pointer alone. */
  lemma SameValues(blocks0: seq<Block>, addrs0: seq<Addrs>, blocks1: seq<Block>, blocks: seq<Block>, addrs: seq<Addrs>,
                   ino: int, off: int, end: int)
    requires PointersKept(blocks0, addrs0, blocks1, addrs)
    requires forall ino, s :: IsInode(addrs, ino) && IsSlot(s) ==>
      Value(blocks, addrs, ino, s) == Value(blocks1, addrs, ino, s)
    requires IsInode(addrs, ino) && AllocatedIn(blocks1, addrs, ino, off, end)
    ensures PointersKept(blocks0, addrs0, blocks, addrs) && AllocatedIn(blocks, addrs, ino, off, end)
  {
    forall i, s | IsInode(addrs0, i) && IsSlot(s) && Value(blocks0, addrs0, i, s) != 0
      ensures Value(blocks, addrs, i, s) == Value(blocks0, addrs0, i, s)
    {
      assert IsInode(addrs, i);
      assert Value(blocks1, addrs, i, s) == Value(blocks0, addrs0, i, s);
    }
    forall bn | 0 <= bn < MAXFILE && off < (bn + 1) * BSIZE && bn * BSIZE < end
      ensures Addr(blocks, addrs, ino, bn) != 0
    {
      assert Addr(blocks1, addrs, ino, bn) != 0;
    }
  }

  // ------------------------------------------------------------------ freeing

  /** A direct pointer is cleared and its block freed. */
  lemma DropDirect(blocks: seq<Block>, used: seq<bool>, addrs: seq<Addrs>, owner: seq<Owner>, ino: int, i: int)
    requires Owned(blocks, used, addrs, owner) && IsInode(addrs, ino) && 0 <= i < NDIRECT && addrs[ino][i] != 0
    ensures 0 < addrs[ino][i] < |used| && used[addrs[ino][i]] && owner[addrs[ino][i]] == Slot(ino, i)
    ensures Owned(blocks, used[addrs[ino][i] := false], addrs[ino := addrs[ino][i := 0]],
      owner[addrs[ino][i] := Nobody])
  {
    assert PointerOk(blocks, addrs, owner, ino, i);
    var b := addrs[ino][i];
    var used', addrs', owner' := used[b := false], addrs[ino := addrs[ino][i := 0]], owner[b := Nobody];
    forall ino', s | IsInode(addrs', ino') && IsSlot(s)
      ensures PointerOk(blocks, addrs', owner', ino', s)
    {
      assert PointerOk(blocks, addrs, owner, ino', s);
      ValueOfAddr(blocks, addrs, ino, i, 0, ino', s);
    }
    forall c | 0 <= c < |owner'|
      ensures OwnerOk(blocks, addrs', owner'[c], c)
    {
      assert OwnerOk(blocks, addrs, owner[c], c);
      var o := owner'[c];
      if o.Slot? && IsInode(addrs, o.ino) && IsSlot(o.s) {
        ValueOfAddr(blocks, addrs, ino, i, 0, o.ino, o.s);
      }
    }
  }

  /** A word of the indirect block leads to a block that is freed; the word itself stays. */
  lemma DropIndirect(blocks: seq<Block>, used: seq<bool>, addrs: seq<Addrs>, owner: seq<Owner>, ino: int, j: int)
    requires 0 <= j < NINDIRECT && IsInode(addrs, ino) && OwnedBut(blocks, used, addrs, owner, ino, NDIRECT + 1 + j)
    ensures var b := Value(blocks, addrs, ino, NDIRECT + 1 + j);
      if b == 0 then OwnedBut(blocks, used, addrs, owner, ino, NDIRECT + 1 + j + 1)
      else 0 < b < |used| && used[b] && owner[b] == Slot(ino, NDIRECT + 1 + j)
           && OwnedBut(blocks, used[b := false], addrs, owner[b := Nobody], ino, NDIRECT + 1 + j + 1)
  {
    var b := Value(blocks, addrs, ino, NDIRECT + 1 + j);
    assert PointerOk(blocks, addrs, owner, ino, NDIRECT + 1 + j);
    if b != 0 {
      forall ino', s | IsInode(addrs, ino') && IsSlot(s) && !Exempt(ino, NDIRECT + 1 + j + 1, ino', s)
        ensures PointerOk(blocks, addrs, owner[b := Nobody], ino', s)
      {
        assert PointerOk(blocks, addrs, owner, ino', s);
      }
      var owner' := owner[b := Nobody];
      forall c | 0 <= c < |owner'|
        ensures OwnerOk(blocks, addrs, owner'[c], c)
      {
        assert OwnerOk(blocks, addrs, owner[c], c);
      }
    }
  }

  /** With its words' blocks freed, the indirect block goes too. */
  lemma DropBlock(blocks: seq<Block>, used: seq<bool>, addrs: seq<Addrs>, owner: seq<Owner>, ino: int)
    requires IsInode(addrs, ino) && OwnedBut(blocks, used, addrs, owner, ino, NSLOTS) && addrs[ino][NDIRECT] != 0
    requires forall b :: 0 <= b < |owner| && owner[b].Slot? && owner[b].ino == ino ==> owner[b].s <= NDIRECT
    ensures var b := addrs[ino][NDIRECT];
      0 < b < |used| && used[b] && owner[b] == Slot(ino, NDIRECT)
      && Owned(blocks, used[b := false], addrs[ino := addrs[ino][NDIRECT := 0]], owner[b := Nobody])
  {
    assert PointerOk(blocks, addrs, owner, ino, NDIRECT);
    var b := addrs[ino][NDIRECT];
    var addrs', owner' := addrs[ino := addrs[ino][NDIRECT := 0]], owner[b := Nobody];
    forall ino', s | IsInode(addrs', ino') && IsSlot(s)
      ensures PointerOk(blocks, addrs', owner', ino', s)
    {
      ValueOfAddr(blocks, addrs, ino, NDIRECT, 0, ino', s);
      if !Exempt(ino, NSLOTS, ino', s) {
        assert PointerOk(blocks, addrs, owner, ino', s);
      }
    }
    forall c | 0 <= c < |owner'|
      ensures OwnerOk(blocks, addrs', owner'[c], c)
    {
      assert OwnerOk(blocks, addrs, owner[c], c);
      var o := owner'[c];
      if o.Slot? && IsInode(addrs, o.ino) && IsSlot(o.s) {
        ValueOfAddr(blocks, addrs, ino, NDIRECT, 0, o.ino, o.s);
      }
    }
  }

  /** owner with the pointers of ino below hi gone, the one to the indirect block aside. */
  ghost predicate Without(owner0: seq<Owner>, owner: seq<Owner>, ino: int, hi: int) {
    && |owner| == |owner0|
    && forall b :: 0 <= b < |owner| ==>
         owner[b] ==
           if owner0[b].Slot? && owner0[b].ino == ino && owner0[b].s < hi && owner0[b].s != NDIRECT then Nobody
           else owner0[b]
  }

  lemma WithoutOne(owner0: seq<Owner>, owner: seq<Owner>, ino: int, hi: int, b: int, blocks: seq<Block>,
                   used: seq<bool>, addrs: seq<Addrs>, ex: int)
    requires Without(owner0, owner, ino, hi) && hi != NDIRECT && OwnedBut(blocks, used, addrs, owner, ex, hi)
    requires IsInode(addrs, ino) && IsSlot(hi) && b == Value(blocks, addrs, ino, hi)
    requires b != 0 ==> 0 < b < |owner| && owner[b] == Slot(ino, hi)
    ensures Without(owner0, if b == 0 then owner else owner[b := Nobody], ino, hi + 1)
  {
    forall c | 0 <= c < |owner| && owner0[c] == Slot(ino, hi)
      ensures c == b && b != 0
    {
      assert OwnerOk(blocks, addrs, owner[c], c);
    }
  }
}
