/**
 filewrite of kernel/file.c over the file system and the log: every transaction's blocks go through
 log_write, and the trace of the disk shows what a crash leaves behind. One process uses the log.
 */
module FileLog {
  import opened ByteSeq
  import opened Params
  import Log
  import Fs
  import Inodes
  import LogDisk

  /** What a home block of the file system holds: bytes, a part of the bitmap, or a part of the inodes. */
  datatype Home =
    | Data(bytes: Inodes.Block)
    | Bits(bits: seq<bool>)
    | Dinodes(addrs: seq<Inodes.Addrs>, sizes: seq<int>)

  /** The file system as its home blocks hold it. */
  datatype Image = Image(blocks: seq<Inodes.Block>, used: seq<bool>, addrs: seq<Inodes.Addrs>, sizes: seq<int>)

  /** sb.bmapstart and sb.inodestart. */
  datatype Layout = Layout(bmapStart: int, inodeStart: int)

  /** The n elements of s from lo on, as far as there are any. */
  function Part<T>(s: seq<T>, lo: int, n: int): seq<T> {
    if lo < 0 || n < 0 || lo > |s| then [] else if lo + n <= |s| then s[lo..lo + n] else s[lo..]
  }

  predicate IsBitmap(l: Layout, m: Image, b: int) {
    l.bmapStart <= b && (b - l.bmapStart) * BPB < |m.used|
  }

  predicate IsDinodes(l: Layout, m: Image, b: int) {
    l.inodeStart <= b && (b - l.inodeStart) * Fs.IPB < |m.addrs|
  }

  /** What block b holds. */
  function HomeOf(l: Layout, m: Image, b: int): Home {
    if IsBitmap(l, m, b) then Bits(Part(m.used, (b - l.bmapStart) * BPB, BPB))
    else if IsDinodes(l, m, b) then
      Dinodes(Part(m.addrs, (b - l.inodeStart) * Fs.IPB, Fs.IPB), Part(m.sizes, (b - l.inodeStart) * Fs.IPB, Fs.IPB))
    else if 0 <= b < |m.blocks| then Data(m.blocks[b])
    else Data([])
  }

  lemma PartSame<T>(s: seq<T>, t: seq<T>, lo: int, n: int)
    requires |s| == |t| && forall k :: 0 <= lo <= k < lo + n && k < |s| ==> t[k] == s[k]
    ensures Part(t, lo, n) == Part(s, lo, n)
  {
  }

  /** From m to m' only blocks in `logged` change, and with them the bits and inodes they hold. */
  ghost predicate Covered(l: Layout, m: Image, m': Image, logged: set<int>) {
    && |m'.blocks| == |m.blocks| && |m'.used| == |m.used| && |m'.addrs| == |m.addrs| == |m.sizes| == |m'.sizes|
    && (forall b :: 0 <= b < |m.blocks| && m'.blocks[b] != m.blocks[b] ==> b in logged)
    && (forall b :: 0 <= b < |m.used| && m'.used[b] != m.used[b] ==> b / BPB + l.bmapStart in logged)
    && (forall i :: 0 <= i < |m.addrs| && (m'.addrs[i] != m.addrs[i] || m'.sizes[i] != m.sizes[i]) ==>
          i / Fs.IPB + l.inodeStart in logged)
  }

  lemma HomeSame(l: Layout, m: Image, m': Image, logged: set<int>, b: int)
    requires Covered(l, m, m', logged) && b !in logged
    ensures HomeOf(l, m', b) == HomeOf(l, m, b)
  {
    PartSame(m.used, m'.used, (b - l.bmapStart) * BPB, BPB);
    PartSame(m.addrs, m'.addrs, (b - l.inodeStart) * Fs.IPB, Fs.IPB);
    PartSame(m.sizes, m'.sizes, (b - l.inodeStart) * Fs.IPB, Fs.IPB);
  }

  /** Outside the log the disk d holds the image m. */
  ghost predicate Shows(d: LogDisk.Disk, a: LogDisk.Area, enc: Home -> LogDisk.Block, l: Layout, m: Image) {
    forall b: nat :: b < |d| && !a.Has(b) ==> d[b] == enc(HomeOf(l, m, b))
  }

  /** Whatever crashes interrupt the recovery of d, in the end the disk holds the image m and an empty log. */
  ghost predicate SettlesOn(d: LogDisk.Disk, a: LogDisk.Area, enc: Home -> LogDisk.Block, l: Layout, m: Image) {
    LogDisk.DiskOk(d, a) && forall crashes :: HasSettled(LogDisk.Settled(d, a, crashes), |d|, a, enc, l, m)
  }

  ghost predicate HasSettled(r: LogDisk.Disk, len: nat, a: LogDisk.Area, enc: Home -> LogDisk.Block, l: Layout,
                             m: Image) {
    |r| == len && Shows(r, a, enc, l, m) && LogDisk.DiskOk(r, a) && LogDisk.LogOf(r, a) == []
  }

  /** cache and lh carry the blocks that turn m into m'. */
  ghost predicate Carries(cache: LogDisk.Cache, lh: seq<nat>, enc: Home -> LogDisk.Block, l: Layout, m: Image,
                          m': Image, logged: set<int>) {
    && Covered(l, m, m', logged)
    && (forall b: int :: b in logged ==> 0 <= b && b in lh)
    && (forall i :: 0 <= i < |lh| ==> lh[i] in cache && cache[lh[i]] == enc(HomeOf(l, m', lh[i])))
  }

  /** A crash at any write of the commit leaves all of the transaction or none of it. */
  lemma CommitSettles(d: LogDisk.Disk, a: LogDisk.Area, cache: LogDisk.Cache, lh: seq<nat>, i: nat,
                      enc: Home -> LogDisk.Block, l: Layout, m: Image, m': Image, logged: set<int>)
    requires LogDisk.CommitOk(d, a, cache, lh) && i < |LogDisk.CommitTrace(d, a, cache, lh)|
    requires Shows(d, a, enc, l, m) && Carries(cache, lh, enc, l, m, m', logged)
    ensures SettlesOn(LogDisk.CommitTrace(d, a, cache, lh)[i], a, enc, l, if i < |lh| then m else m')
  {
    var e := LogDisk.CommitTrace(d, a, cache, lh)[i];
    LogDisk.CommitTraceRecovers(d, a, cache, lh, i, []);
    forall crashes
      ensures HasSettled(LogDisk.Settled(e, a, crashes), |e|, a, enc, l, if i < |lh| then m else m')
    {
      LogDisk.CommitTraceRecovers(d, a, cache, lh, i, crashes);
      if i >= |lh| {
        TargetShows(d, a, cache, lh, LogDisk.Settled(e, a, crashes), enc, l, m, m', logged);
      }
    }
  }

  lemma TargetShows(d: LogDisk.Disk, a: LogDisk.Area, cache: LogDisk.Cache, lh: seq<nat>, e: LogDisk.Disk,
                    enc: Home -> LogDisk.Block, l: Layout, m: Image, m': Image, logged: set<int>)
    requires Shows(d, a, enc, l, m) && Carries(cache, lh, enc, l, m, m', logged)
    requires LogDisk.HomeIsTarget(e, d, a, cache, lh)
    ensures Shows(e, a, enc, l, m')
  {
    forall b: nat | b < |e| && !a.Has(b)
      ensures e[b] == enc(HomeOf(l, m', b))
    {
      if b !in lh {
        HomeSame(l, m, m', logged, b);
      }
    }
  }

  // ------------------------------------------------------------------ several operations in one commit

  /** The changes of the operations of a group, in the order they were made: each covers what it changes. */
  ghost predicate Changes(l: Layout, images: seq<Image>, logged: seq<set<int>>) {
    |images| == |logged| + 1
    && forall k :: 0 <= k < |logged| ==> Covered(l, images[k], images[k + 1], logged[k])
  }

  /** All that the group logs. */
  function Union(logged: seq<set<int>>): set<int> {
    if logged == [] then {} else Union(logged[..|logged| - 1]) + logged[|logged| - 1]
  }

  lemma {:induction false} ChangesCover(l: Layout, images: seq<Image>, logged: seq<set<int>>)
    requires Changes(l, images, logged) && |images[0].addrs| == |images[0].sizes|
    ensures Covered(l, images[0], images[|logged|], Union(logged))
    decreases |logged|
  {
    if logged != [] {
      var n := |logged| - 1;
      assert logged[..n] == logged[..|logged| - 1] && images[..n + 1][n] == images[n];
      ChangesCover(l, images[..n + 1], logged[..n]);
      assert Covered(l, images[n], images[n + 1], logged[n]);
    }
  }

  /**
   Group commit: whatever operations log their blocks between two commits, a crash at any write of the commit
   leaves all of them or none.
   */
  lemma GroupSettles(d: LogDisk.Disk, a: LogDisk.Area, cache: LogDisk.Cache, lh: seq<nat>, i: nat,
                     enc: Home -> LogDisk.Block, l: Layout, images: seq<Image>, logged: seq<set<int>>)
    requires LogDisk.CommitOk(d, a, cache, lh) && i < |LogDisk.CommitTrace(d, a, cache, lh)|
    requires Changes(l, images, logged) && |images[0].addrs| == |images[0].sizes| && Shows(d, a, enc, l, images[0])
    requires forall b: int :: b in Union(logged) ==> 0 <= b && b in lh
    requires forall k :: 0 <= k < |lh| ==> lh[k] in cache && cache[lh[k]] == enc(HomeOf(l, images[|logged|], lh[k]))
    ensures SettlesOn(LogDisk.CommitTrace(d, a, cache, lh)[i], a, enc, l, images[if i < |lh| then 0 else |logged|])
  {
    ChangesCover(l, images, logged);
    CommitSettles(d, a, cache, lh, i, enc, l, images[0], images[|logged|], Union(logged));
  }

  // ------------------------------------------------------------------ files in an image

  predicate ImageOk(m: Image, ino: int) {
    && Inodes.IsInode(m.addrs, ino) && |m.sizes| == |m.addrs| && 0 <= m.sizes[ino] <= MAXFILE * BSIZE
  }

  /** The bytes a reader of the image finds in a file. */
  ghost function FileIn(m: Image, ino: int): Inodes.Block
    requires ImageOk(m, ino)
  {
    Inodes.Content(m.blocks, m.addrs, ino, m.sizes[ino])
  }

  /**
   What a transaction leaves: the image, how much of the data is in it, the blocks it logged, and the place in
   the trace of the disk from which on it counts, that of its header.
   */
  datatype Commit = Commit(image: Image, done: int, logged: set<int>, at: int)

  /** Between the images blocks have been taken for the n bytes from off on of file ino, and no others. */
  ghost predicate Took(m: Image, m': Image, ino: int, off: int, n: int) {
    Inodes.Takes(m.blocks, m.used, m.addrs, m'.blocks, m'.used, m'.addrs, ino, off, n)
  }

  /** Of n bytes, those that were written, and the next one if there are more. */
  function Looked(done: int, n: int): int {
    if done < n then done + 1 else done
  }

  /** The image of c is `first` with the first c.done bytes of src written at off of ino, and nothing else. */
  ghost predicate Applied(c: Commit, first: Image, ino: int, off: int, src: Inodes.Block) {
    && 0 <= c.done <= |src| && |c.logged| <= MAXOPBLOCKS && ImageOk(first, ino) && ImageOk(c.image, ino)
    && Fs.WrittenOver(FileIn(first, ino), off, src[..c.done], FileIn(c.image, ino))
    && Took(first, c.image, ino, off, Looked(c.done, |src|))
    && forall h :: h != ino && ImageOk(first, h) ==> ImageOk(c.image, h) && FileIn(c.image, h) == FileIn(first, h)
  }

  /** filewrite's max. */
  const MAX := ((MAXOPBLOCKS - 1 - 1 - 2) / 2) * BSIZE

  /** writei refuses the chunk behind done of the n bytes: it starts past the file's end, or ends past 268 blocks. */
  predicate Refused(off: int, size: int, done: int, n: int) {
    (done == 0 && off > size) || off + (if n - done < 3072 then n else done + 3072) > 268 * 1024
  }

  /** Each transaction takes up where the one before ended; all but the last write a whole chunk of 3072 bytes. */
  ghost predicate Chunks(hist: seq<Commit>) {
    && hist != [] && hist[0].done == 0
    && forall j, k :: 0 <= j && k == j + 1 < |hist| ==>
         hist[j].done <= hist[k].done <= hist[j].done + 3072
         && (k + 1 < |hist| ==> hist[k].done == hist[j].done + 3072)
  }

  /** Another transaction may follow: the last one was a whole chunk. */
  ghost predicate Whole(hist: seq<Commit>) {
    |hist| >= 2 ==> hist[|hist| - 1].done == hist[|hist| - 2].done + 3072
  }

  /** What a turn of filewrite's loop that ends at done leaves to say: it was refused, or another may follow. */
  lemma TurnEnds(hist: seq<Commit>, c: Commit, off: int, size: int, i: int, n: int, n1: int)
    requires hist != [] && hist[|hist| - 1].done == i && 0 <= i < n && n1 == if n - i > MAX then MAX else n - i
    ensures (i == 0 && off > size) || off + i + n1 > MAXFILE * BSIZE ==> Refused(off, size, i, n)
    ensures c.done == i + n1 < n ==> Whole(hist + [c])
  {
  }

  /**
   The disks of the trace since trace0 settle on the images of the transactions in order: each on that of the
   last transaction whose header is on it.
   */
  ghost predicate AllSettle(trace0: seq<LogDisk.Disk>, trace: seq<LogDisk.Disk>, a: LogDisk.Area,
                            enc: Home -> LogDisk.Block, l: Layout, hist: seq<Commit>) {
    && trace0 <= trace && hist != [] && hist[0].at == |trace0| && hist[|hist| - 1].at <= |trace|
    && (forall j, k :: 0 <= j < k < |hist| ==> hist[j].at <= hist[k].at)
    && forall j :: 0 <= j < |hist| ==> SettlesFrom(trace, hist[j].at, Until(trace, hist, j), a, enc, l, hist[j].image)
  }

  /** Where the next transaction comes to count. */
  function Until(trace: seq<LogDisk.Disk>, hist: seq<Commit>, j: int): int
    requires 0 <= j < |hist|
  {
    if j + 1 < |hist| then hist[j + 1].at else |trace|
  }

  ghost predicate SettlesFrom(trace: seq<LogDisk.Disk>, lo: int, hi: int, a: LogDisk.Area, enc: Home -> LogDisk.Block,
                              l: Layout, m: Image) {
    forall i :: 0 <= lo <= i < hi && i < |trace| ==> SettlesOn(trace[i], a, enc, l, m)
  }

  function LayoutOf(v: Fs.Volume): Layout {
    Layout(v.bmapStart, v.inodeStart)
  }

  /** What bread shows of the file system, once every inode is flushed. */
  function ImageOf(v: Fs.Volume): Image
    reads v
  {
    Image(v.blocks, v.used, v.diskAddrs, v.diskSizes)
  }

  predicate HomeBlock(a: LogDisk.Area, len: int, b: int) {
    0 <= b < len && !a.Has(b)
  }

  predicate IsHome(log: Log.Log, b: int)
    reads log
  {
    HomeBlock(log.area, |log.disk|, b)
  }

  /** The log's area is metadata; the bitmap and the inodes lie on the disk, outside it. */
  ghost predicate InPlace(l: Layout, m: Image, owner: seq<Inodes.Owner>, a: LogDisk.Area, len: int) {
    && len == |m.blocks| == |owner| && a.size > MAXOPBLOCKS + 1
    && (forall b :: a.Has(b) ==> 0 <= b < |owner| && owner[b].Meta?)
    && (forall b :: IsBitmap(l, m, b) || IsDinodes(l, m, b) ==> HomeBlock(a, len, b))
  }

  ghost predicate Places(v: Fs.Volume, log: Log.Log)
    reads v, log
  {
    InPlace(LayoutOf(v), ImageOf(v), v.owner, log.area, |log.disk|)
  }

  /** Between transactions the disk shows the file system, and the log is empty. */
  ghost predicate Joined(v: Fs.Volume, log: Log.Log, enc: Home -> LogDisk.Block)
    reads v, log, log.block
  {
    && v.Valid() && v.Flushed() && log.Valid() && log.Clean() && log.Idle() && Places(v, log)
    && (forall h :: |enc(h)| == LogDisk.WORDS)
    && Shows(log.disk, log.area, enc, LayoutOf(v), ImageOf(v))
  }

  /** m and m' are the images of the states s and t, between which inode ino alone was changed, and logged. */
  ghost predicate Changed(l: Layout, ino: int, s: Fs.Snap, t: Fs.Snap, m: Image, m': Image) {
    && Fs.Logs(l.bmapStart, {ino / Fs.IPB + l.inodeStart}, s, t) && s.logged == {}
    && m.blocks == s.blocks && m.used == s.used && m'.blocks == t.blocks && m'.used == t.used
    && 0 <= ino < |m.addrs| == |m.sizes| == |m'.addrs| == |m'.sizes|
    && m'.addrs == m.addrs[ino := m'.addrs[ino]] && m'.sizes == m.sizes[ino := m'.sizes[ino]]
    && (ino / Fs.IPB + l.inodeStart !in t.logged ==> m'.addrs == m.addrs && m'.sizes == m.sizes)
  }

  /** What is logged covers what has changed, and is made of home blocks. */
  lemma ChangesCovered(l: Layout, ino: int, s: Fs.Snap, t: Fs.Snap, m: Image, m': Image, a: LogDisk.Area, len: int)
    requires Changed(l, ino, s, t, m, m') && InPlace(l, m, s.owner, a, len) && |s.used| == |s.owner|
    ensures Covered(l, m, m', t.logged) && InPlace(l, m', t.owner, a, len)
    ensures forall b :: b in t.logged ==> HomeBlock(a, len, b)
  {
    forall b | IsBitmap(l, m', b) || IsDinodes(l, m', b)
      ensures HomeBlock(a, len, b)
    {
      assert IsBitmap(l, m, b) || IsDinodes(l, m, b);
    }
    forall b | b in t.logged
      ensures HomeBlock(a, len, b)
    {
      if b == ino / Fs.IPB + l.inodeStart {
        assert IsDinodes(l, m, b);
      } else {
        assert Fs.Loggable(l.bmapStart, t, b);
        assert IsBitmap(l, m, b) || (0 <= b < |t.owner| && !t.owner[b].Meta?);
      }
    }
  }

  /** The disks that a run of the log has added settle on m before place `at`, and on m' from there on. */
  ghost predicate SettleInTurn(trace0: seq<LogDisk.Disk>, trace: seq<LogDisk.Disk>, a: LogDisk.Area,
                               enc: Home -> LogDisk.Block, l: Layout, m: Image, m': Image, at: int) {
    && trace0 <= trace && |trace0| <= at <= |trace|
    && SettlesFrom(trace, |trace0|, at, a, enc, l, m) && SettlesFrom(trace, at, |trace|, a, enc, l, m')
  }

  lemma TraceSettles(d: LogDisk.Disk, a: LogDisk.Area, cache: LogDisk.Cache, lh: seq<nat>, trace0: seq<LogDisk.Disk>,
                     enc: Home -> LogDisk.Block, l: Layout, m: Image, m': Image, logged: set<int>)
    returns (at: int)
    requires LogDisk.CommitOk(d, a, cache, lh)
    requires Shows(d, a, enc, l, m) && Carries(cache, lh, enc, l, m, m', logged)
    ensures SettleInTurn(trace0, trace0 + LogDisk.CommitTrace(d, a, cache, lh), a, enc, l, m, m', at)
    ensures at == |trace0| + if lh == [] then 0 else |lh|
  {
    var more := LogDisk.CommitTrace(d, a, cache, lh);
    at := |trace0| + |lh|;
    forall i | 0 <= i < |more|
      ensures SettlesOn(more[i], a, enc, l, if i < |lh| then m else m')
    {
      CommitSettles(d, a, cache, lh, i, enc, l, m, m', logged);
    }
    TurnAppends(trace0, more, a, enc, l, m, m', |lh|);
  }

  lemma TurnAppends(trace0: seq<LogDisk.Disk>, more: seq<LogDisk.Disk>, a: LogDisk.Area,
                    enc: Home -> LogDisk.Block, l: Layout, m: Image, m': Image, n: int)
    requires 0 <= n <= |more|
    requires forall i :: 0 <= i < |more| ==> SettlesOn(more[i], a, enc, l, if i < n then m else m')
    ensures SettleInTurn(trace0, trace0 + more, a, enc, l, m, m', |trace0| + n)
  {
  }

  lemma SettleMore(trace0: seq<LogDisk.Disk>, trace1: seq<LogDisk.Disk>, trace2: seq<LogDisk.Disk>, a: LogDisk.Area,
                   enc: Home -> LogDisk.Block, l: Layout, hist: seq<Commit>, c: Commit)
    requires AllSettle(trace0, trace1, a, enc, l, hist)
    requires SettleInTurn(trace1, trace2, a, enc, l, hist[|hist| - 1].image, c.image, c.at)
    ensures AllSettle(trace0, trace2, a, enc, l, hist + [c])
  {
    var more, n := hist + [c], |hist|;
    forall j | 0 <= j < |more|
      ensures SettlesFrom(trace2, more[j].at, Until(trace2, more, j), a, enc, l, more[j].image)
    {
      if j < n {
        OldSettles(trace1, trace2, a, enc, l, hist, c, j);
      }
    }
    OrderMore(trace1, hist, c);
  }

  lemma OrderMore(trace1: seq<LogDisk.Disk>, hist: seq<Commit>, c: Commit)
    requires hist != [] && hist[|hist| - 1].at <= |trace1| <= c.at
    requires forall j, k :: 0 <= j < k < |hist| ==> hist[j].at <= hist[k].at
    ensures var more := hist + [c];
      forall j, k :: 0 <= j < k < |more| ==> more[j].at <= more[k].at
  {
  }

  lemma OldSettles(trace1: seq<LogDisk.Disk>, trace2: seq<LogDisk.Disk>, a: LogDisk.Area, enc: Home -> LogDisk.Block,
                   l: Layout, hist: seq<Commit>, c: Commit, j: int)
    requires 0 <= j < |hist| && trace1 <= trace2 && hist[|hist| - 1].at <= |trace1| <= c.at
    requires forall i, k :: 0 <= i < k < |hist| ==> hist[i].at <= hist[k].at
    requires SettlesFrom(trace1, hist[j].at, Until(trace1, hist, j), a, enc, l, hist[j].image)
    requires SettlesFrom(trace2, |trace1|, c.at, a, enc, l, hist[|hist| - 1].image)
    ensures var more := hist + [c];
      SettlesFrom(trace2, more[j].at, Until(trace2, more, j), a, enc, l, more[j].image)
  {
    var more := hist + [c];
    assert more[j] == hist[j];
    assert j + 1 < |hist| ==> hist[j + 1].at <= |trace1| && Until(trace2, more, j) == Until(trace1, hist, j);
    forall i | 0 <= hist[j].at <= i < Until(trace2, more, j) && i < |trace2|
      ensures SettlesOn(trace2[i], a, enc, l, hist[j].image)
    {
      if i < |trace1| {
        assert trace2[i] == trace1[i];
      }
    }
  }

  /** The last transaction of the first n that counts at place i. */
  lemma {:induction false} LastAt(hist: seq<Commit>, n: int, i: int) returns (x: int)
    requires 0 < n <= |hist| && hist[0].at <= i
    ensures 0 <= x < n && hist[x].at <= i && (x + 1 < n ==> i < hist[x + 1].at)
    decreases n
  {
    if hist[n - 1].at <= i {
      return n - 1;
    }
    x := LastAt(hist, n - 1, i);
  }

  /** The later the crash, the later the image: disks settle on the images of the transactions in their order. */
  lemma CrashesInOrder(trace0: seq<LogDisk.Disk>, trace: seq<LogDisk.Disk>, a: LogDisk.Area,
                       enc: Home -> LogDisk.Block, l: Layout, hist: seq<Commit>, i: int, k: int)
    returns (x: int, y: int)
    requires AllSettle(trace0, trace, a, enc, l, hist) && |trace0| <= i <= k < |trace|
    ensures 0 <= x <= y < |hist|
    ensures SettlesOn(trace[i], a, enc, l, hist[x].image) && SettlesOn(trace[k], a, enc, l, hist[y].image)
  {
    x := LastAt(hist, |hist|, i);
    y := LastAt(hist, |hist|, k);
    assert SettlesFrom(trace, hist[x].at, Until(trace, hist, x), a, enc, l, hist[x].image);
    assert SettlesFrom(trace, hist[y].at, Until(trace, hist, y), a, enc, l, hist[y].image);
  }

  /** Between transactions nothing can be lost: the disk settles on what bread shows. */
  lemma Durable(v: Fs.Volume, log: Log.Log, enc: Home -> LogDisk.Block)
    requires Joined(v, log, enc)
    ensures SettlesOn(log.disk, log.area, enc, LayoutOf(v), ImageOf(v))
  {
    forall crashes
      ensures HasSettled(LogDisk.Settled(log.disk, log.area, crashes), |log.disk|, log.area, enc, LayoutOf(v),
        ImageOf(v))
    {
      LogDisk.CrashesDoNotMatter(log.disk, log.area, crashes);
      LogDisk.RecoveredOk(log.disk, log.area);
    }
  }

  /** The transactions hist lead from the image first to the image m. */
  ghost predicate History(hist: seq<Commit>, first: Image, m: Image, ino: int, off: int, src: Inodes.Block) {
    && Chunks(hist) && hist[|hist| - 1].image == m && hist[0].image == first
    && forall j :: 0 <= j < |hist| ==> Applied(hist[j], first, ino, off, src)
  }

  lemma HistoryMore(hist: seq<Commit>, c: Commit, first: Image, m: Image, ino: int, off: int, src: Inodes.Block)
    requires History(hist, first, m, ino, off, src) && Whole(hist)
    requires hist[|hist| - 1].done <= c.done <= hist[|hist| - 1].done + MAX && c.done <= |src|
    requires |c.logged| <= MAXOPBLOCKS && ImageOk(c.image, ino)
    requires Fs.WrittenOver(FileIn(first, ino), off, src[..c.done], FileIn(c.image, ino))
    requires forall h :: h != ino && ImageOk(m, h) ==> ImageOk(c.image, h) && FileIn(c.image, h) == FileIn(m, h)
    requires Took(first, c.image, ino, off, Looked(c.done, |src|))
    ensures History(hist + [c], first, c.image, ino, off, src)
  {
    assert Applied(hist[|hist| - 1], first, ino, off, src);
    assert Applied(c, first, ino, off, src);
  }

  /** A transaction that writes r of the chunk of n bytes behind the first i of len, -1 meaning none at all. */
  lemma TookMore(hist: seq<Commit>, first: Image, m: Image, m': Image, ino: int, off: int, src: Inodes.Block, i: int,
                 n: int, r: int)
    requires History(hist, first, m, ino, off, src) && hist[|hist| - 1].done == i && 0 <= i && i + n <= |src| && 0 < n
    requires -1 <= r <= n && Took(m, m', ino, off + i, if r < 0 then 0 else Looked(r, n))
    ensures Took(first, m', ino, off, Looked(if r < 0 then i else i + r, |src|))
  {
    assert Applied(hist[|hist| - 1], first, ino, off, src);
    Inodes.TakesJoin(first.blocks, first.used, first.addrs, m.blocks, m.used, m.addrs, m'.blocks, m'.used, m'.addrs,
      ino, off, Looked(i, |src|), off + i, if r < 0 then 0 else Looked(r, n),
      Looked(if r < 0 then i else i + r, |src|));
  }

  lemma TakenMore(src: Inodes.Block, i: int, n: int, r: int, done: int)
    requires 0 <= i && 0 <= n && i + n <= |src| && -1 <= r <= n && done == if r < 0 then i else i + r
    ensures src[..i] + Fs.Written(src[i..i + n], r) == src[..done]
  {
  }

  /** The kernel's file system with its log, and an encoding of home blocks. */
  class LoggedVolume {
    const v: Fs.Volume
    const log: Log.Log
    const enc: Home -> LogDisk.Block

    constructor (volume: Fs.Volume, itsLog: Log.Log, encoding: Home -> LogDisk.Block)
      requires Joined(volume, itsLog, encoding)
      ensures Joined(v, log, enc) && v == volume && log == itsLog && enc == encoding
    {
      v, log, enc := volume, itsLog, encoding;
    }

    /** The log_writes of a transaction, each with what its block holds in the end. */
    method LogBlocks()
      requires log.Valid() && log.Clean() && log.n == 0 && log.cache == map[] && log.outstanding == 1
      requires |v.logged| <= MAXOPBLOCKS && log.area.size > MAXOPBLOCKS + 1
      requires forall b :: b in v.logged ==> IsHome(log, b)
      requires forall h :: |enc(h)| == LogDisk.WORDS
      modifies log`cache, log`n, log.block
      ensures log.Valid() && log.Clean()
      ensures forall b: nat :: b in v.logged <==> b in log.Lh()
      ensures forall b: nat :: b in log.cache <==> b in v.logged
      ensures forall b: nat :: b in v.logged ==> log.cache[b] == enc(HomeOf(LayoutOf(v), ImageOf(v), b))
    {
      var todo := v.logged;
      while todo != {}
        invariant todo <= v.logged && log.Valid() && log.Clean() && log.n + |todo| == |v.logged|
        invariant forall b: nat :: b in v.logged && b !in todo <==> b in log.Lh()
        invariant forall b: nat :: b in log.cache ==> log.cache[b] == enc(HomeOf(LayoutOf(v), ImageOf(v), b))
      {
        var b :| b in todo;
        var _ := log.LogWrite(b, enc(HomeOf(LayoutOf(v), ImageOf(v), b)));
        todo := todo - {b};
      }
    }

    /** end_op after the log_writes of the transaction that has turned the image m into the present one. */
    method CommitBlocks(ghost m: Image) returns (ghost at: int)
      requires v.Valid() && v.Flushed() && Places(v, log) && forall h :: |enc(h)| == LogDisk.WORDS
      requires log.Valid() && log.Clean() && log.n == 0 && log.cache == map[] && log.outstanding == 1 && !log.committing
      requires |v.logged| <= MAXOPBLOCKS && forall b :: b in v.logged ==> IsHome(log, b)
      requires Shows(log.disk, log.area, enc, LayoutOf(v), m) && Covered(LayoutOf(v), m, ImageOf(v), v.logged)
      modifies log`outstanding, log`committing, log`disk, log`trace, log`cache, log`n, log.block
      ensures Joined(v, log, enc)
      ensures SettleInTurn(old(log.trace), log.trace, log.area, enc, LayoutOf(v), m, ImageOf(v), at)
    {
      LogBlocks();
      Viewed(m);
      ghost var d, cache, lh := log.disk, log.cache, log.Lh();
      EndLogged();
      at := TraceSettles(d, log.area, cache, lh, old(log.trace), enc, LayoutOf(v), m, ImageOf(v), v.logged);
    }

    /** end_op once all is logged. */
    method EndLogged()
      requires log.Valid() && log.Clean() && log.outstanding == 1 && !log.committing
      requires forall b: nat :: b < |log.disk| && !log.area.Has(b) ==>
        log.View(b) == enc(HomeOf(LayoutOf(v), ImageOf(v), b))
      modifies log`outstanding, log`committing, log`disk, log`trace, log`cache, log`n
      ensures log.Valid() && log.Clean() && log.Idle() && |log.disk| == |old(log.disk)|
      ensures Shows(log.disk, log.area, enc, LayoutOf(v), ImageOf(v))
      ensures LogDisk.CommitOk(old(log.disk), log.area, old(log.cache), old(log.Lh()))
      ensures log.trace
        == old(log.trace) + LogDisk.CommitTrace(old(log.disk), log.area, old(log.cache), old(log.Lh()))
    {
      var _ := log.EndOp();
    }

    /** What bread returns is the new image. */
    lemma Viewed(m: Image)
      requires log.Valid() && Shows(log.disk, log.area, enc, LayoutOf(v), m)
      requires Covered(LayoutOf(v), m, ImageOf(v), v.logged)
      requires forall b: nat :: b in log.cache <==> b in v.logged
      requires forall b: nat :: b in v.logged ==> log.cache[b] == enc(HomeOf(LayoutOf(v), ImageOf(v), b))
      ensures forall b: nat :: b < |log.disk| && !log.area.Has(b) ==>
        log.View(b) == enc(HomeOf(LayoutOf(v), ImageOf(v), b))
    {
      forall b: nat | b < |log.disk| && !log.area.Has(b)
        ensures log.View(b) == enc(HomeOf(LayoutOf(v), ImageOf(v), b))
      {
        if b !in v.logged {
          HomeSame(LayoutOf(v), m, ImageOf(v), v.logged, b);
        }
      }
    }

    /** begin_op, writei, end_op: one turn of filewrite's loop. */
    method Transaction(f: Fs.File, chunk: Inodes.Block, ghost off0: int, ghost data: Inodes.Block,
                       ghost bytes0: Inodes.Block)
      returns (r: int, ghost at: int)
      requires Joined(v, log, enc) && v.WrittenThrough(f, off0, data, bytes0)
      requires f.off < UINT_LIMIT && 0 < |chunk| <= MAX
      modifies v, f, log`outstanding, log`committing, log`disk, log`trace, log`cache, log`n, log.block
      ensures Joined(v, log, enc) && |v.addrs| == |old(v.addrs)| && -1 <= r <= |chunk|
      ensures v.WrittenThrough(f, off0, data + Fs.Written(chunk, r), bytes0) && f.off < UINT_LIMIT
      ensures v.OthersKept(f.ino) && |v.logged| <= MAXOPBLOCKS
      ensures SettleInTurn(old(log.trace), log.trace, log.area, enc, LayoutOf(v), old(ImageOf(v)), ImageOf(v), at)
      ensures r == -1 ==> old(f.off) > old(v.sizes)[f.ino] || old(f.off) + |chunk| > MAXFILE * BSIZE
      ensures 0 <= r < |chunk| ==> v.NoRoom(f.ino) && f.off == v.sizes[f.ino]
      ensures Took(old(ImageOf(v)), ImageOf(v), f.ino, old(f.off), if r < 0 then 0 else Looked(r, |chunk|))
    {
      ghost var m := ImageOf(v);
      var _ := log.BeginOp();
      r := Change(f, chunk, off0, data, bytes0);
      ghost var m1 := ImageOf(v);
      at := CommitBlocks(m);
      assert ImageOf(v) == m1;
    }

    /** The writei of the transaction. */
    method Change(f: Fs.File, chunk: Inodes.Block, ghost off0: int, ghost data: Inodes.Block,
                  ghost bytes0: Inodes.Block)
      returns (r: int)
      requires v.Valid() && v.Flushed() && Places(v, log) && v.WrittenThrough(f, off0, data, bytes0)
      requires f.off < UINT_LIMIT && 0 < |chunk| <= MAX
      modifies v, f
      ensures v.Valid() && v.Flushed() && Places(v, log) && |v.addrs| == |old(v.addrs)| && -1 <= r <= |chunk|
      ensures v.WrittenThrough(f, off0, data + Fs.Written(chunk, r), bytes0) && f.off < UINT_LIMIT
      ensures v.OthersKept(f.ino) && |v.logged| <= MAXOPBLOCKS
      ensures Covered(LayoutOf(v), old(ImageOf(v)), ImageOf(v), v.logged)
      ensures forall b :: b in v.logged ==> IsHome(log, b)
      ensures r == -1 ==> old(f.off) > old(v.sizes)[f.ino] || old(f.off) + |chunk| > MAXFILE * BSIZE
      ensures 0 <= r < |chunk| ==> v.NoRoom(f.ino) && f.off == v.sizes[f.ino]
      ensures Took(old(ImageOf(v)), ImageOf(v), f.ino, old(f.off), if r < 0 then 0 else Looked(r, |chunk|))
    {
      ghost var m, s := ImageOf(v), v.Now().(logged := {});
      r := v.WriteChunk(f, chunk, off0, data, bytes0);
      ChangesCovered(LayoutOf(v), f.ino, s, v.Now(), m, ImageOf(v), log.area, |log.disk|);
    }

    /** What filewrite has done so far; hist are its transactions, the first of them none. */
    ghost predicate Going(f: Fs.File, off0: int, src: Inodes.Block, first: Image, trace0: seq<LogDisk.Disk>,
                          hist: seq<Commit>)
      reads this, v, log, log.block, f
    {
      && Joined(v, log, enc) && History(hist, first, ImageOf(v), f.ino, off0, src)
      && AllSettle(trace0, log.trace, log.area, enc, LayoutOf(v), hist)
      && ImageOk(first, f.ino) && v.WrittenThrough(f, off0, src[..hist[|hist| - 1].done], FileIn(first, f.ino))
    }

    /** Once something is written the offset lies inside the file. */
    lemma OffsetInside(f: Fs.File, off0: int, src: Inodes.Block, first: Image, trace0: seq<LogDisk.Disk>,
                       hist: seq<Commit>)
      requires Going(f, off0, src, first, trace0, hist) && (hist[|hist| - 1].done == 0 ==> |hist| == 1)
      ensures f.off == off0 + hist[|hist| - 1].done && Inodes.IsInode(v.addrs, f.ino) && |v.sizes| == |v.addrs|
      ensures if hist[|hist| - 1].done == 0 then v.sizes == first.sizes else f.off <= v.sizes[f.ino]
    {
    }

    /** The transaction for src[i..i + n1]. */
    method ChunkCommit(f: Fs.File, src: Inodes.Block, i: int, n1: int, ghost off0: int, ghost bytes0: Inodes.Block)
      returns (r: int, ghost c: Commit)
      requires 0 < n1 <= MAX && 0 <= i && i + n1 <= |src|
      requires Joined(v, log, enc) && v.WrittenThrough(f, off0, src[..i], bytes0) && f.off < UINT_LIMIT
      modifies v, f, log`outstanding, log`committing, log`disk, log`trace, log`cache, log`n, log.block
      ensures Joined(v, log, enc) && |v.addrs| == |old(v.addrs)| && -1 <= r <= n1 && f.off < UINT_LIMIT
      ensures c.image == ImageOf(v) && c.done == (if r < 0 then i else i + r) && c.logged == v.logged
      ensures v.WrittenThrough(f, off0, src[..c.done], bytes0) && v.OthersKept(f.ino) && |v.logged| <= MAXOPBLOCKS
      ensures SettleInTurn(old(log.trace), log.trace, log.area, enc, LayoutOf(v), old(ImageOf(v)), ImageOf(v), c.at)
      ensures r == -1 ==> old(f.off) > old(v.sizes)[f.ino] || old(f.off) + n1 > MAXFILE * BSIZE
      ensures 0 <= r < n1 ==> v.NoRoom(f.ino) && f.off == v.sizes[f.ino]
      ensures Took(old(ImageOf(v)), ImageOf(v), f.ino, off0 + i, if r < 0 then 0 else Looked(r, n1))
    {
      ghost var at;
      r, at := Transaction(f, src[i..i + n1], off0, src[..i], bytes0);
      ghost var done := if r < 0 then i else i + r;
      TakenMore(src, i, n1, r, done);
      c := Commit(ImageOf(v), done, v.logged, at);
    }

    /** A turn of the loop: the next transaction, c, joins hist. */
    method NextCommit(f: Fs.File, src: Inodes.Block, i: int, n1: int, ghost off0: int, ghost first: Image,
                      ghost trace0: seq<LogDisk.Disk>, ghost hist: seq<Commit>)
      returns (r: int, ghost c: Commit)
      requires Going(f, off0, src, first, trace0, hist) && Whole(hist) && hist[|hist| - 1].done == i
      requires i == 0 ==> |hist| == 1
      requires f.off < UINT_LIMIT && 0 < n1 <= MAX && 0 <= i && i + n1 <= |src|
      modifies v, f, log`outstanding, log`committing, log`disk, log`trace, log`cache, log`n, log.block
      ensures Going(f, off0, src, first, trace0, hist + [c]) && f.off < UINT_LIMIT && -1 <= r <= n1
      ensures c.done == (if r < 0 then i else i + r) && c.logged == v.logged
      ensures r == -1 ==> (i == 0 && off0 > first.sizes[f.ino]) || off0 + i + n1 > MAXFILE * BSIZE
      ensures 0 <= r < n1 ==> v.NoRoom(f.ino) && f.off == v.sizes[f.ino]
    {
      OffsetInside(f, off0, src, first, trace0, hist);
      ghost var m, trace1 := ImageOf(v), log.trace;
      r, c := ChunkCommit(f, src, i, n1, off0, FileIn(first, f.ino));
      TookMore(hist, first, m, c.image, f.ino, off0, src, i, n1, r);
      Joins(f, off0, src, first, trace0, trace1, m, hist, c);
    }

    lemma Joins(f: Fs.File, off0: int, src: Inodes.Block, first: Image, trace0: seq<LogDisk.Disk>,
                trace1: seq<LogDisk.Disk>, m: Image, hist: seq<Commit>, c: Commit)
      requires Joined(v, log, enc) && c.image == ImageOf(v) && ImageOk(first, f.ino) && ImageOk(c.image, f.ino)
      requires History(hist, first, m, f.ino, off0, src) && Whole(hist) && |c.logged| <= MAXOPBLOCKS
      requires hist[|hist| - 1].done <= c.done <= hist[|hist| - 1].done + MAX && c.done <= |src|
      requires v.WrittenThrough(f, off0, src[..c.done], FileIn(first, f.ino))
      requires Fs.WrittenOver(FileIn(first, f.ino), off0, src[..c.done], FileIn(c.image, f.ino))
      requires forall h :: h != f.ino && ImageOk(m, h) ==> ImageOk(c.image, h) && FileIn(c.image, h) == FileIn(m, h)
      requires Took(first, c.image, f.ino, off0, Looked(c.done, |src|))
      requires AllSettle(trace0, trace1, log.area, enc, LayoutOf(v), hist)
      requires SettleInTurn(trace1, log.trace, log.area, enc, LayoutOf(v), m, c.image, c.at)
      ensures Going(f, off0, src, first, trace0, hist + [c])
    {
      HistoryMore(hist, c, first, m, f.ino, off0, src);
      SettleMore(trace0, trace1, log.trace, log.area, enc, LayoutOf(v), hist, c);
    }

    /** Before a turn of filewrite's loop: i bytes are written, in whole transactions. */
    ghost predicate Before(f: Fs.File, off0: int, src: Inodes.Block, i: int, first: Image, trace0: seq<LogDisk.Disk>,
                           hist: seq<Commit>)
      reads this, v, log, log.block, f
    {
      && Going(f, off0, src, first, trace0, hist) && hist[|hist| - 1].done == i && (i < |src| ==> Whole(hist))
      && 0 <= f.off < UINT_LIMIT && 0 <= i <= |src| && (i == 0 ==> |hist| == 1)
    }

    /** When filewrite ends. */
    ghost predicate Ended(f: Fs.File, off0: int, src: Inodes.Block, ret: int, first: Image,
                          trace0: seq<LogDisk.Disk>, hist: seq<Commit>)
      reads this, v, log, log.block, f
    {
      && Going(f, off0, src, first, trace0, hist)
      && var done := hist[|hist| - 1].done;
      && ret == (if done == |src| then |src| else -1)
      && (done < |src| ==>
            (v.NoRoom(f.ino) && f.off == v.sizes[f.ino]) || Refused(off0, first.sizes[f.ino], done, |src|))
    }

    /** A turn of filewrite's loop. */
    method Turn(f: Fs.File, src: Inodes.Block, i: int, n1: int, ghost off0: int, ghost first: Image,
                ghost trace0: seq<LogDisk.Disk>, ghost hist: seq<Commit>)
      returns (r: int, ghost c: Commit)
      requires Before(f, off0, src, i, first, trace0, hist)
      requires 0 <= i < |src| && n1 == if |src| - i > MAX then MAX else |src| - i
      modifies v, f, log`outstanding, log`committing, log`disk, log`trace, log`cache, log`n, log.block
      ensures if r == n1 then Before(f, off0, src, i + r, first, trace0, hist + [c])
              else Ended(f, off0, src, -1, first, trace0, hist + [c])
    {
      r, c := NextCommit(f, src, i, n1, off0, first, trace0, hist);
      TurnEnds(hist, c, off0, first.sizes[f.ino], i, |src|, n1);
    }

    lemma Started(f: Fs.File, src: Inodes.Block)
      requires Joined(v, log, enc) && Inodes.IsInode(v.addrs, f.ino) && 0 <= f.off
      ensures Going(f, f.off, src, ImageOf(v), log.trace, [Commit(ImageOf(v), 0, {}, |log.trace|)])
      ensures FileIn(ImageOf(v), f.ino) == v.FileBytes(f.ino)
    {
      assert src[..0] == [];
      Inodes.TakesNothing(v.blocks, v.used, v.addrs, f.ino, f.off, Looked(0, |src|));
    }

    /**
     filewrite on an inode: src goes to the file at f's offset in transactions of at most MAX bytes,
     each of which logs at most MAXOPBLOCKS blocks, and all blocks it changes. What is written is a
     prefix of src; it is all of it unless no block is free and the file has come to end there, at the end
     of its last block, the next chunk would make the file too large, or the offset lies past its end; so
     writing over what is there succeeds on a full disk too. No block is taken but for those bytes (Applied).
     If the machine stops after any of the disk
     writes, and stops in recovery again and again, the disk ends as the transactions left it whose headers
     were written by then.
     */
    method FileWrite(f: Fs.File, src: Inodes.Block) returns (ret: int, ghost hist: seq<Commit>)
      requires Joined(v, log, enc) && Inodes.IsInode(v.addrs, f.ino) && 0 <= f.off < UINT_LIMIT && |src| <= INT_MAX
      modifies v, f, log`outstanding, log`committing, log`disk, log`trace, log`cache, log`n, log.block
      ensures Joined(v, log, enc) && History(hist, old(ImageOf(v)), ImageOf(v), f.ino, old(f.off), src)
      ensures AllSettle(old(log.trace), log.trace, log.area, enc, LayoutOf(v), hist)
      ensures var done := hist[|hist| - 1].done;
        && 0 <= done <= |src| && ret == (if done == |src| then |src| else -1)
        && v.WrittenThrough(f, old(f.off), src[..done], old(v.FileBytes(f.ino)))
        && (done < |src| ==>
              (v.NoRoom(f.ino) && f.off == v.sizes[f.ino]) || Refused(old(f.off), old(v.sizes)[f.ino], done, |src|))
        && (old(f.off) + |src| <= old(v.sizes)[f.ino] ==> ret == |src|)
    {
      Started(f, src);
      ret, hist :=
        Transactions(f, src, f.off, ImageOf(v), log.trace, [Commit(ImageOf(v), 0, {}, |log.trace|)]);
      InPlace(f, old(f.off), src[..hist[|hist| - 1].done], old(v.FileBytes(f.ino)));
    }

    /** A file never gets shorter by writing. */
    lemma InPlace(f: Fs.File, off0: int, data: Inodes.Block, bytes0: Inodes.Block)
      requires v.WrittenThrough(f, off0, data, bytes0)
      ensures |bytes0| <= v.sizes[f.ino] && f.off == off0 + |data|
    {
    }

    /** The loop of filewrite. */
    method Transactions(f: Fs.File, src: Inodes.Block, ghost off0: int, ghost first: Image,
                        ghost trace0: seq<LogDisk.Disk>, ghost none: seq<Commit>)
      returns (ret: int, ghost hist: seq<Commit>)
      requires Before(f, off0, src, 0, first, trace0, none) && |src| <= INT_MAX
      modifies v, f, log`outstanding, log`committing, log`disk, log`trace, log`cache, log`n, log.block
      ensures Ended(f, off0, src, ret, first, trace0, hist)
    {
      var i := 0;
      hist := none;
      while i < |src|
        invariant Before(f, off0, src, i, first, trace0, hist)
      {
        var n1 := if |src| - i > MAX then MAX else |src| - i;
        var r;
        ghost var c;
        r, c := Turn(f, src, i, n1, off0, first, trace0, hist);
        hist := hist + [c];
        if r != n1 {
          return -1, hist;
        }
        i := i + r;
      }
      ret := if i == |src| then |src| else -1;
    }
  }

  // ------------------------------------------------------------------ a file system to start from

  /** The image of a file system without files: the blocks below meta are in use. */
  function EmptyImage(contents: seq<Inodes.Block>, meta: int, inodes: nat): Image {
    Image(contents, seq(|contents|, b => b < meta), seq(inodes, _ => seq(NDIRECT + 1, _ => 0)), seq(inodes, _ => 0))
  }

  /** The disk for it, with an empty log. */
  function EmptyDisk(m: Image, l: Layout, a: LogDisk.Area, enc: Home -> LogDisk.Block): (d: LogDisk.Disk)
    ensures |d| == |m.blocks|
  {
    seq(|m.blocks|, b => if a.Has(b) then seq(LogDisk.WORDS, _ => 0) else enc(HomeOf(l, m, b)))
  }

  lemma EmptyDiskOk(m: Image, l: Layout, a: LogDisk.Area, enc: Home -> LogDisk.Block)
    requires 0 < a.size && a.start + a.size <= |m.blocks| && forall h :: |enc(h)| == LogDisk.WORDS
    ensures LogDisk.DiskOk(EmptyDisk(m, l, a, enc), a)
    ensures Shows(LogDisk.Recovered(EmptyDisk(m, l, a, enc), a), a, enc, l, m)
  {
    var d := EmptyDisk(m, l, a, enc);
    assert a.Has(a.start);
    forall b | 0 <= b < |d|
      ensures |d[b]| == LogDisk.WORDS
    {
      assert |enc(HomeOf(l, m, b))| == LogDisk.WORDS;
    }
    assert LogDisk.LogOf(d, a) == [];
  }

  /** mkfs without files, and a boot. */
  method Boot(contents: seq<Inodes.Block>, meta: int, inodes: nat, l: Layout, a: LogDisk.Area,
              enc: Home -> LogDisk.Block)
    returns (r: LoggedVolume)
    requires 0 < meta <= |contents| < UINT_LIMIT && forall b :: 0 <= b < |contents| ==> |contents[b]| == BSIZE
    requires a.size > MAXOPBLOCKS + 1 && a.start + a.size <= meta && forall h :: |enc(h)| == LogDisk.WORDS
    requires var m := EmptyImage(contents, meta, inodes);
      forall b :: IsBitmap(l, m, b) || IsDinodes(l, m, b) ==> HomeBlock(a, |contents|, b)
    ensures Joined(r.v, r.log, r.enc) && ImageOf(r.v) == EmptyImage(contents, meta, inodes)
  {
    var m := EmptyImage(contents, meta, inodes);
    var v := new Fs.Volume(contents, meta, inodes, l.bmapStart, l.inodeStart);
    EmptyDiskOk(m, l, a, enc);
    var log := new Log.Log(a, EmptyDisk(m, l, a, enc));
    assert ImageOf(v) == m;
    r := new LoggedVolume(v, log, enc);
  }
}
