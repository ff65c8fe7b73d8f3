/**
 The disk driver of kernel/virtio_disk.c sharing a virtqueue with a device (sections 2.6 and 5.2
 of the VIRTIO 1.1 specification), as a state machine: any number of processes call
 virtio_disk_rw, the device takes, performs and completes requests in any order, and interrupts
 come at any time. The driver's steps are the sections it runs under vdisk_lock, cut where the
 device can see a difference.
 */
module Virtio {
  import opened Params
  import opened VirtioPool

  const NONE := -1
  /** avail->idx and used->idx are 16-bit counters. */
  const IDX := 0x1_0000

  datatype Req = Req(out: bool, sector: int)
  datatype Info = Info(b: int, status: int)

  /** Idle, wanting descriptors, formatted under the lock, published and asleep. */
  datatype Stage = Idle | Wanting | Formatted | Waiting

  /** Where a published request is: on the avail ring, with the device, on the used ring, seen. */
  datatype Place = Nowhere | Posted | Taken | Performed | Used | Seen

  /** A process inside virtio_disk_rw(b, write); `payload` is b's data at the call. */
  datatype Call = Call(stage: Stage, b: int, block: int, write: bool, payload: int,
                       i0: int, i1: int, i2: int, place: Place)

  /**
   The driver's tables, the rings, the two sides' counters, the buffers' `disk` flags and data,
   and the disk. `owner` names the process a descriptor is allocated to, `lastAvail` is the
   device's own counter, `taken` and `performed` are the requests inside the device.
   */
  datatype State = State(desc: seq<Desc>, free: seq<bool>, owner: seq<int>,
                         ops: seq<Req>, info: seq<Info>,
                         avail: seq<int>, availIdx: int, used: seq<int>, usedIdx: int,
                         lastAvail: int, devUsedIdx: int, taken: seq<int>, performed: seq<int>,
                         busy: seq<bool>, data: seq<int>, disk: seq<int>,
                         calls: seq<Call>, lock: int, panicked: bool)

  /** Modify is the file system changing a buffer, between calls, under its sleep-lock. */
  datatype Step =
    | Modify(b: int, content: int)
    | Begin(p: int, b: int, block: int, write: bool)
    | Submit(p: int)
    | Publish(p: int)
    | Take
    | Perform(k: int)
    | Complete(k: int)
    | Interrupt
    | Return(p: int)

  predicate IsCall(s: State, p: int) {
    0 <= p < |s.calls|
  }

  function Bump(i: int): int {
    (i + 1) % IDX
  }

  // ------------------------------------------------------------------ the code

  /** The caller holds b's sleep-lock, and one buffer at most caches a block. */
  predicate MayBegin(s: State, p: int, b: int, block: int) {
    && IsCall(s, p) && s.calls[p].stage.Idle? && 0 <= b < |s.data| && |s.busy| == |s.data|
    && 0 <= block < |s.disk| && block < 0x8000_0000
    && forall q :: 0 <= q < |s.calls| && !s.calls[q].stage.Idle? ==> s.calls[q].b != b && s.calls[q].block != block
  }

  /** blockno * (BSIZE / 512), in 32 bits. */
  function Sector(block: int): int {
    block * 2 % UINT_LIMIT
  }

  /** What virtio_disk_rw writes for a request with descriptors i, j, k. */
  function Format(s: State, p: int, i: int, j: int, k: int): State
    requires IsCall(s, p) && Tables(s) && IsDesc(i) && IsDesc(j) && IsDesc(k) && 0 <= s.calls[p].b < |s.busy|
  {
    var c := s.calls[p];
    s.(free := s.free[i := false][j := false][k := false],
       owner := s.owner[i := p][j := p][k := p],
       ops := s.ops[i := Req(c.write, Sector(c.block))],
       desc := s.desc[i := Desc(Ops(i), 16, true, false, j)]
                     [j := Desc(Data(c.b), BSIZE, true, !c.write, k)]
                     [k := Desc(Status(i), 1, false, true, 0)],
       info := s.info[i := Info(c.b, 0xff)],
       busy := s.busy[c.b := true],
       avail := s.avail[s.availIdx % NUM := i],
       calls := s.calls[p := c.(stage := Formatted, i0 := i, i1 := j, i2 := k)],
       lock := p)
  }

  predicate Tables(s: State) {
    && |s.desc| == |s.free| == |s.owner| == |s.ops| == |s.info| == |s.avail| == |s.used| == NUM
    && 0 <= s.availIdx < IDX && 0 <= s.usedIdx < IDX && 0 <= s.lastAvail < IDX && 0 <= s.devUsedIdx < IDX
    && |s.busy| == |s.data|
  }

  /**
   What the device asks of the three descriptors of a request (section 5.2.6 of VIRTIO 1.1): it reads a
   header of 16 bytes, reads a block to be written or writes the one read, and writes a status byte.
   */
  predicate WellMade(d0: Desc, d1: Desc, d2: Desc, req: Req) {
    && d0.hasNext && d0.len == 16 && !d0.deviceWrites
    && d1.hasNext && d1.len == 1024 && (d1.deviceWrites <==> !req.out) && req.sector % 2 == 0
    && !d2.hasNext && d2.len == 1 && d2.deviceWrites
  }

  /** The device carries out the request at the head h of a chain; one that is not well made has no effect. */
  function Performing(s: State, h: int): State
    requires Tables(s)
  {
    if !IsDesc(h) || !IsDesc(s.desc[h].next) || !IsDesc(s.desc[s.desc[h].next].next) then s
    else
      var d0 := s.desc[h];
      var d1 := s.desc[d0.next];
      var d2 := s.desc[d1.next];
      if !d0.addr.Ops? || !d1.addr.Data? || !d2.addr.Status? || !IsDesc(d0.addr.i) || !IsDesc(d2.addr.i) then s
      else
        var req := s.ops[d0.addr.i];
        var b, block := d1.addr.b, req.sector / 2;
        if !WellMade(d0, d1, d2, req) || !(0 <= b < |s.data|) || !(0 <= block < |s.disk|) then s
        else
          var t := s.(info := s.info[d2.addr.i := s.info[d2.addr.i].(status := 0)]);
          if req.out then t.(disk := s.disk[block := s.data[b]]) else t.(data := s.data[b := s.disk[block]])
  }

  function Without(q: seq<int>, k: int): seq<int>
    requires 0 <= k < |q|
  {
    q[..k] + q[k + 1..]
  }

  function Move(s: State, h: int, place: Place): State
    requires Tables(s)
  {
    if IsDesc(h) && IsCall(s, s.owner[h]) then
      s.(calls := s.calls[s.owner[h] := s.calls[s.owner[h]].(place := place)])
    else s
  }

  /** The holder of b's sleep-lock is in no call on b. */
  predicate NoCallUses(s: State, b: int) {
    forall q :: 0 <= q < |s.calls| && !s.calls[q].stage.Idle? ==> s.calls[q].b != b
  }

  predicate Enabled(s: State, step: Step) {
    && Tables(s) && !s.panicked
    && match step
       case Modify(b, content) => 0 <= b < |s.data| && NoCallUses(s, b)
       case Begin(p, b, block, write) => MayBegin(s, p, b, block)
       case Submit(p) => IsCall(s, p) && s.calls[p].stage.Wanting? && s.lock == NONE && 0 <= s.calls[p].b < |s.busy|
       case Publish(p) => IsCall(s, p) && s.calls[p].stage.Formatted? && s.lock == p
       case Take => s.lastAvail != s.availIdx
       case Perform(k) => 0 <= k < |s.taken|
       case Complete(k) => 0 <= k < |s.performed|
       case Interrupt => s.lock == NONE && s.usedIdx != s.devUsedIdx
       case Return(p) =>
         && IsCall(s, p) && s.calls[p].stage.Waiting? && s.lock == NONE && 0 <= s.calls[p].b < |s.busy|
         && !s.busy[s.calls[p].b] && IsDesc(s.calls[p].i0) && IsDesc(s.calls[p].i1) && IsDesc(s.calls[p].i2)
  }

  /** virtio_disk_intr's loop body; its assertion on the status is a panic. */
  function Seeing(s: State): State
    requires Tables(s)
  {
    var id := s.used[s.usedIdx % NUM];
    if !IsDesc(id) || s.info[id].status != 0 || !(0 <= s.info[id].b < |s.busy|) then s.(panicked := true)
    else Move(s.(busy := s.busy[s.info[id].b := false], usedIdx := Bump(s.usedIdx)), id, Seen)
  }

  function Apply(s: State, step: Step): State
    requires Enabled(s, step)
  {
    match step
    case Modify(b, content) => s.(data := s.data[b := content])
    case Begin(p, b, block, write) =>
      s.(calls := s.calls[p := Call(Wanting, b, block, write, s.data[b], 0, 0, 0, Nowhere)])
    case Submit(p) =>
      var t := Three(s.free);
      if t.2 == -1 then s else Format(s, p, t.0, t.1, t.2)
    case Publish(p) =>
      s.(availIdx := Bump(s.availIdx), lock := NONE,
        calls := s.calls[p := s.calls[p].(stage := Waiting, place := Posted)])
    case Take =>
      var h := s.avail[s.lastAvail % NUM];
      Move(s.(lastAvail := Bump(s.lastAvail), taken := s.taken + [h]), h, Taken)
    case Perform(k) =>
      var h := s.taken[k];
      Move(Performing(s, h).(taken := Without(s.taken, k), performed := s.performed + [h]), h, Performed)
    case Complete(k) =>
      var h := s.performed[k];
      Move(s.(performed := Without(s.performed, k), used := s.used[s.devUsedIdx % NUM := h],
        devUsedIdx := Bump(s.devUsedIdx)), h, Used)
    case Interrupt => Seeing(s)
    case Return(p) =>
      var c := s.calls[p];
      s.(info := s.info[c.i0 := s.info[c.i0].(b := NONE)],
         desc := s.desc[c.i0 := EMPTY][c.i1 := EMPTY][c.i2 := EMPTY],
         free := s.free[c.i0 := true][c.i1 := true][c.i2 := true],
         owner := s.owner[c.i0 := NONE][c.i1 := NONE][c.i2 := NONE],
         calls := s.calls[p := c.(stage := Idle, place := Nowhere)])
  }

  // ------------------------------------------------------------------ the invariant

  /** How many ring entries lie between two 16-bit counters. */
  function Gap(from: int, to: int): (n: int)
    ensures 0 <= n < IDX
  {
    (to - from) % IDX
  }

  /** The ring entries between two counters, oldest first. */
  function Ring(ring: seq<int>, from: int, to: int): (q: seq<int>)
    requires |ring| == NUM && 0 <= from
    ensures |q| == Gap(from, to) && forall k :: 0 <= k < |q| ==> q[k] == ring[(from + k) % NUM]
  {
    seq(Gap(from, to), k requires 0 <= k => ring[(from + k) % NUM])
  }

  /** The entries the device has not taken, oldest first. */
  function OnAvail(s: State): (q: seq<int>)
    requires |s.avail| == NUM && 0 <= s.lastAvail
    ensures |q| == Gap(s.lastAvail, s.availIdx)
  {
    Ring(s.avail, s.lastAvail, s.availIdx)
  }

  /** The entries the driver has not seen, oldest first. */
  function OnUsed(s: State): (q: seq<int>)
    requires |s.used| == NUM && 0 <= s.usedIdx
    ensures |q| == Gap(s.usedIdx, s.devUsedIdx)
  {
    Ring(s.used, s.usedIdx, s.devUsedIdx)
  }

  predicate Active(c: Call) {
    c.stage.Formatted? || c.stage.Waiting?
  }

  predicate Owns(c: Call, i: int) {
    Active(c) && (i == c.i0 || i == c.i1 || i == c.i2)
  }

  /** The descriptors split into the free ones and those of the active requests. */
  ghost predicate DescsOk(s: State)
    requires Tables(s)
  {
    forall i :: IsDesc(i) ==> DescOk(s, i)
  }

  predicate DescOk(s: State, i: int)
    requires Tables(s) && IsDesc(i)
  {
    && (s.free[i] <==> s.owner[i] == NONE)
    && (s.free[i] ==> s.desc[i] == EMPTY)
    && (s.owner[i] != NONE ==> IsCall(s, s.owner[i]) && Owns(s.calls[s.owner[i]], i))
  }

  predicate Formed(s: State, c: Call)
    requires Tables(s)
  {
    && IsDesc(c.i0) && IsDesc(c.i1) && IsDesc(c.i2)
    && s.desc[c.i0] == Desc(Ops(c.i0), 16, true, false, c.i1)
    && s.desc[c.i1] == Desc(Data(c.b), BSIZE, true, !c.write, c.i2)
    && s.desc[c.i2] == Desc(Status(c.i0), 1, false, true, 0)
    && s.ops[c.i0] == Req(c.write, Sector(c.block))
    && s.info[c.i0].b == c.b
  }

  /** The request of process p has its own three descriptors, formatted as its chain. */
  ghost predicate ChainOk(s: State, p: int)
    requires Tables(s) && IsCall(s, p)
  {
    var c := s.calls[p];
    Active(c) ==>
      && Formed(s, c) && c.i0 != c.i1 && c.i0 != c.i2 && c.i1 != c.i2
      && s.owner[c.i0] == p && s.owner[c.i1] == p && s.owner[c.i2] == p
  }

  predicate Carried(c: Call) {
    c.place.Performed? || c.place.Used? || c.place.Seen?
  }

  /** Flags, status and data of a request go with where it is. */
  ghost predicate CallOk(s: State, p: int)
    requires Tables(s) && IsCall(s, p)
  {
    var c := s.calls[p];
    && (!c.stage.Idle? ==>
         && 0 <= c.b < |s.data| && 0 <= c.block < |s.disk| && c.block < 0x8000_0000
         && (c.write ==> s.data[c.b] == c.payload))
    && (c.stage.Formatted? ==> s.lock == p)
    && (c.stage.Waiting? <==> !c.place.Nowhere?)
    && (Active(c) ==> IsDesc(c.i0) && (s.busy[c.b] <==> !c.place.Seen?) && (Carried(c) <==> s.info[c.i0].status == 0))
    && (Carried(c) ==> 0 <= c.b < |s.data| && 0 <= c.block < |s.disk| && s.data[c.b] == s.disk[c.block])
  }

  /** One buffer and one block per request. */
  ghost predicate Apart(s: State) {
    forall p, q :: IsCall(s, p) && IsCall(s, q) && p != q && !s.calls[p].stage.Idle? && !s.calls[q].stage.Idle? ==>
      s.calls[p].b != s.calls[q].b && s.calls[p].block != s.calls[q].block
  }

  /** h is the head of a request at this place. */
  predicate HeadAt(calls: seq<Call>, owner: seq<int>, h: int, place: Place) {
    && IsDesc(h) && |owner| == NUM && 0 <= owner[h] < |calls|
    && calls[owner[h]].stage.Waiting? && calls[owner[h]].i0 == h && calls[owner[h]].place == place
  }

  /** q holds the heads of exactly the requests at this place, once each. */
  ghost predicate QueueOk(calls: seq<Call>, owner: seq<int>, q: seq<int>, place: Place) {
    && (forall k :: 0 <= k < |q| ==> HeadAt(calls, owner, q[k], place))
    && (forall j, k :: 0 <= j < k < |q| ==> q[j] != q[k])
    && (forall p :: 0 <= p < |calls| && calls[p].stage.Waiting? && calls[p].place == place ==>
          calls[p].i0 in q && IsDesc(calls[p].i0) && |owner| == NUM && owner[calls[p].i0] == p)
  }

  ghost predicate QueuesOk(s: State)
    requires Tables(s)
  {
    && QueueOk(s.calls, s.owner, OnAvail(s), Posted)
    && QueueOk(s.calls, s.owner, s.taken, Taken)
    && QueueOk(s.calls, s.owner, s.performed, Performed)
    && QueueOk(s.calls, s.owner, OnUsed(s), Used)
  }

  /** The holder of the lock has written its head where the next publish makes it visible. */
  ghost predicate LockOk(s: State)
    requires Tables(s)
  {
    s.lock != NONE ==>
      IsCall(s, s.lock) && s.calls[s.lock].stage.Formatted? && s.avail[s.availIdx % NUM] == s.calls[s.lock].i0
  }

  ghost predicate Inv(s: State) {
    && Tables(s) && DescsOk(s) && (forall p :: IsCall(s, p) ==> ChainOk(s, p) && CallOk(s, p))
    && Apart(s) && QueuesOk(s) && LockOk(s)
  }

  // ------------------------------------------------------------------ counting

  /** The descriptors of these processes' requests. */
  ghost function Held(s: State, ps: seq<int>): set<int>
    requires forall k :: 0 <= k < |ps| ==> IsCall(s, ps[k])
  {
    if ps == [] then {}
    else
      assert IsCall(s, ps[|ps| - 1]);
      var c := s.calls[ps[|ps| - 1]];
      Held(s, ps[..|ps| - 1]) + {c.i0, c.i1, c.i2}
  }

  ghost predicate ActiveOnes(s: State, ps: seq<int>) {
    && (forall k :: 0 <= k < |ps| ==> IsCall(s, ps[k]) && Active(s.calls[ps[k]]))
    && (forall j, k :: 0 <= j < k < |ps| ==> ps[j] != ps[k])
  }

  lemma {:induction false} ThreeEach(s: State, ps: seq<int>)
    requires Tables(s) && (forall p :: IsCall(s, p) ==> ChainOk(s, p)) && ActiveOnes(s, ps)
    ensures |Held(s, ps)| == 3 * |ps|
    ensures forall i :: i in Held(s, ps) ==> IsDesc(i) && s.owner[i] in ps
    decreases |ps|
  {
    if ps != [] {
      var rest, p := ps[..|ps| - 1], ps[|ps| - 1];
      ThreeEach(s, rest);
      assert ChainOk(s, p) && p !in rest;
      var c := s.calls[p];
      assert Held(s, rest) !! {c.i0, c.i1, c.i2};
    }
  }

  lemma {:induction false} BelowCount(n: nat, x: set<int>)
    requires forall i :: i in x ==> 0 <= i < n
    ensures |x| <= n
    decreases n
  {
    if n > 0 {
      BelowCount(n - 1, x - {n - 1});
    } else {
      assert forall i :: i !in x;
      assert |x| == 0;
    }
  }

  /** At most two requests are in flight: the queue has eight descriptors, and each takes three. */
  lemma InFlightBound(s: State, ps: seq<int>)
    requires Tables(s) && (forall p :: IsCall(s, p) ==> ChainOk(s, p)) && ActiveOnes(s, ps)
    ensures |s.desc| == 8 && |ps| <= 2
  {
    ThreeEach(s, ps);
    BelowCount(NUM, Held(s, ps));
  }

  lemma QueueBound(s: State, q: seq<int>, place: Place)
    requires Tables(s) && (forall p :: IsCall(s, p) ==> ChainOk(s, p)) && QueueOk(s.calls, s.owner, q, place)
    ensures |q| <= 2
  {
    var ps := seq(|q|, k requires 0 <= k < |q| => if IsDesc(q[k]) then s.owner[q[k]] else NONE);
    forall k | 0 <= k < |q|
      ensures IsCall(s, ps[k]) && Active(s.calls[ps[k]]) && s.calls[ps[k]].i0 == q[k]
    {
      assert HeadAt(s.calls, s.owner, q[k], place);
    }
    InFlightBound(s, ps);
  }

  // ------------------------------------------------------------------ the rings

  lemma Wrap(i: int, k: int)
    requires 0 <= i < IDX && 0 <= k < IDX
    ensures ((i + k) % IDX) % NUM == (i + k) % NUM
  {
  }

  /** The slot behind n < NUM pending entries is not one of theirs. */
  lemma NextSlot(from: int, to: int, k: int)
    requires 0 <= from < IDX && 0 <= to < IDX && 0 <= k < Gap(from, to) < NUM
    ensures (from + k) % NUM != to % NUM
  {
    Wrap(from, Gap(from, to));
  }

  /** An entry written behind the pending ones overwrites none of them, though the counters wrap. */
  lemma RingWrite(ring: seq<int>, from: int, to: int, h: int)
    requires |ring| == NUM && 0 <= from < IDX && 0 <= to < IDX && Gap(from, to) < NUM
    ensures Ring(ring[to % NUM := h], from, to) == Ring(ring, from, to)
  {
    forall k | 0 <= k < Gap(from, to)
      ensures Ring(ring[to % NUM := h], from, to)[k] == Ring(ring, from, to)[k]
    {
      NextSlot(from, to, k);
    }
  }

  /** The bump makes it the last of them. */
  lemma RingPublish(ring: seq<int>, from: int, to: int)
    requires |ring| == NUM && 0 <= from < IDX && 0 <= to < IDX && Gap(from, to) < NUM
    ensures Ring(ring, from, Bump(to)) == Ring(ring, from, to) + [ring[to % NUM]]
  {
    Wrap(from, Gap(from, to));
    assert Gap(from, Bump(to)) == Gap(from, to) + 1;
  }

  lemma AvailPublish(s: State)
    requires Tables(s) && |OnAvail(s)| < NUM
    ensures OnAvail(s.(availIdx := Bump(s.availIdx))) == OnAvail(s) + [s.avail[s.availIdx % NUM]]
  {
    RingPublish(s.avail, s.lastAvail, s.availIdx);
  }

  lemma AvailWrite(s: State, h: int)
    requires Tables(s) && |OnAvail(s)| < NUM
    ensures OnAvail(s.(avail := s.avail[s.availIdx % NUM := h])) == OnAvail(s)
  {
    RingWrite(s.avail, s.lastAvail, s.availIdx, h);
  }

  lemma AvailTake(s: State)
    requires Tables(s) && s.lastAvail != s.availIdx
    ensures |OnAvail(s)| > 0 && OnAvail(s)[0] == s.avail[s.lastAvail % NUM]
    ensures OnAvail(s.(lastAvail := Bump(s.lastAvail))) == OnAvail(s)[1..]
  {
    var t := s.(lastAvail := Bump(s.lastAvail));
    assert |OnAvail(t)| == |OnAvail(s)| - 1;
    forall k | 0 <= k < |OnAvail(t)|
      ensures OnAvail(t)[k] == OnAvail(s)[k + 1]
    {
      assert (t.lastAvail + k) % NUM == (s.lastAvail + (k + 1)) % NUM;
    }
  }

  /** A completion goes behind the unseen ones and overwrites none. */
  lemma UsedWrite(s: State, h: int)
    requires Tables(s) && |OnUsed(s)| < NUM
    ensures OnUsed(s.(used := s.used[s.devUsedIdx % NUM := h], devUsedIdx := Bump(s.devUsedIdx))) == OnUsed(s) + [h]
  {
    RingWrite(s.used, s.usedIdx, s.devUsedIdx, h);
    RingPublish(s.used[s.devUsedIdx % NUM := h], s.usedIdx, s.devUsedIdx);
  }

  lemma UsedSeen(s: State)
    requires Tables(s) && s.usedIdx != s.devUsedIdx
    ensures |OnUsed(s)| > 0 && OnUsed(s)[0] == s.used[s.usedIdx % NUM]
    ensures OnUsed(s.(usedIdx := Bump(s.usedIdx))) == OnUsed(s)[1..]
  {
    var t := s.(usedIdx := Bump(s.usedIdx));
    assert |OnUsed(t)| == |OnUsed(s)| - 1;
    forall k | 0 <= k < |OnUsed(t)|
      ensures OnUsed(t)[k] == OnUsed(s)[k + 1]
    {
      assert (t.usedIdx + k) % NUM == (s.usedIdx + (k + 1)) % NUM;
    }
  }

  // ------------------------------------------------------------------ queues

  /** The request at index k of one queue moves to another place. */
  lemma QueueLeaves(calls: seq<Call>, owner: seq<int>, q: seq<int>, from: Place, k: int, to: Place, q': seq<int>)
    requires QueueOk(calls, owner, q, from) && 0 <= k < |q| && from != to && q' == Without(q, k)
    ensures HeadAt(calls, owner, q[k], from)
    ensures QueueOk(calls[owner[q[k]] := calls[owner[q[k]]].(place := to)], owner, q', from)
  {
    var h := q[k];
    assert HeadAt(calls, owner, h, from);
    var calls' := calls[owner[h] := calls[owner[h]].(place := to)];
    forall j | 0 <= j < |q'|
      ensures HeadAt(calls', owner, q'[j], from) && q'[j] != h
    {
      assert HeadAt(calls, owner, q[if j < k then j else j + 1], from);
    }
    forall p | 0 <= p < |calls'| && calls'[p].stage.Waiting? && calls'[p].place == from
      ensures calls'[p].i0 in q' && IsDesc(calls'[p].i0) && owner[calls'[p].i0] == p
    {
      var j :| 0 <= j < |q| && q[j] == calls[p].i0;
      assert HeadAt(calls, owner, q[j], from);
      assert q[j] == q'[if j < k then j else j - 1];
    }
  }

  lemma QueueJoins(calls: seq<Call>, owner: seq<int>, h: int, from: Place, to: Place, q: seq<int>)
    requires HeadAt(calls, owner, h, from) && from != to && QueueOk(calls, owner, q, to)
    ensures QueueOk(calls[owner[h] := calls[owner[h]].(place := to)], owner, q + [h], to)
  {
    var calls' := calls[owner[h] := calls[owner[h]].(place := to)];
    forall j | 0 <= j < |q|
      ensures HeadAt(calls', owner, q[j], to) && q[j] != h
    {
      assert HeadAt(calls, owner, q[j], to);
    }
    assert HeadAt(calls', owner, h, to);
  }

  lemma QueueStays(calls: seq<Call>, owner: seq<int>, h: int, from: Place, to: Place, q: seq<int>, at: Place)
    requires HeadAt(calls, owner, h, from) && at != from && at != to && QueueOk(calls, owner, q, at)
    ensures QueueOk(calls[owner[h] := calls[owner[h]].(place := to)], owner, q, at)
  {
    forall j | 0 <= j < |q|
      ensures HeadAt(calls[owner[h] := calls[owner[h]].(place := to)], owner, q[j], at)
    {
      assert HeadAt(calls, owner, q[j], at);
    }
  }

  /** A process that is not at the queue's place, before or after, does not touch it. */
  lemma QueueFrame(calls: seq<Call>, owner: seq<int>, p: int, c: Call, owner': seq<int>, q: seq<int>, place: Place)
    requires QueueOk(calls, owner, q, place) && 0 <= p < |calls| && |owner'| == |owner| == NUM
    requires !(calls[p].stage.Waiting? && calls[p].place == place) && !(c.stage.Waiting? && c.place == place)
    requires forall i :: IsDesc(i) && owner'[i] != owner[i] ==> owner[i] == NONE || owner[i] == p
    ensures QueueOk(calls[p := c], owner', q, place)
  {
    forall k | 0 <= k < |q|
      ensures HeadAt(calls[p := c], owner', q[k], place)
    {
      assert HeadAt(calls, owner, q[k], place);
    }
  }

  lemma QueuesFrame(s: State, t: State, p: int)
    requires Tables(s) && Tables(t) && QueuesOk(s) && IsCall(s, p) && IsCall(t, p)
      && t.calls == s.calls[p := t.calls[p]]
    requires OnAvail(t) == OnAvail(s) && t.taken == s.taken && t.performed == s.performed && OnUsed(t) == OnUsed(s)
    requires s.calls[p].stage.Waiting? ==> s.calls[p].place.Seen?
    requires t.calls[p].stage.Waiting? ==> t.calls[p].place.Seen?
    requires forall i :: IsDesc(i) && t.owner[i] != s.owner[i] ==> s.owner[i] == NONE || s.owner[i] == p
    ensures QueuesOk(t)
  {
    QueueFrame(s.calls, s.owner, p, t.calls[p], t.owner, OnAvail(s), Posted);
    QueueFrame(s.calls, s.owner, p, t.calls[p], t.owner, s.taken, Taken);
    QueueFrame(s.calls, s.owner, p, t.calls[p], t.owner, s.performed, Performed);
    QueueFrame(s.calls, s.owner, p, t.calls[p], t.owner, OnUsed(s), Used);
  }

  lemma QueuesMove(s: State, t: State, h: int, from: Place, to: Place)
    requires Tables(s) && Tables(t) && QueuesOk(s) && HeadAt(s.calls, s.owner, h, from) && from != to
    requires t.owner == s.owner && t.calls == s.calls[s.owner[h] := s.calls[s.owner[h]].(place := to)]
    requires if from.Posted? || to.Posted? then QueueOk(t.calls, t.owner, OnAvail(t), Posted)
      else OnAvail(t) == OnAvail(s)
    requires if from.Taken? || to.Taken? then QueueOk(t.calls, t.owner, t.taken, Taken) else t.taken == s.taken
    requires if from.Performed? || to.Performed? then QueueOk(t.calls, t.owner, t.performed, Performed)
      else t.performed == s.performed
    requires if from.Used? || to.Used? then QueueOk(t.calls, t.owner, OnUsed(t), Used) else OnUsed(t) == OnUsed(s)
    ensures QueuesOk(t)
  {
    if !from.Posted? && !to.Posted? { QueueStays(s.calls, s.owner, h, from, to, OnAvail(s), Posted); }
    if !from.Taken? && !to.Taken? { QueueStays(s.calls, s.owner, h, from, to, s.taken, Taken); }
    if !from.Performed? && !to.Performed? { QueueStays(s.calls, s.owner, h, from, to, s.performed, Performed); }
    if !from.Used? && !to.Used? { QueueStays(s.calls, s.owner, h, from, to, OnUsed(s), Used); }
  }

  // ------------------------------------------------------------------ the driver's steps

  lemma ModifyKeepsInv(s: State, b: int, content: int)
    requires Inv(s) && Enabled(s, Modify(b, content))
    ensures Inv(Apply(s, Modify(b, content)))
  {
    var t := Apply(s, Modify(b, content));
    forall q | IsCall(t, q)
      ensures ChainOk(t, q) && CallOk(t, q)
    {
      assert ChainOk(s, q) && CallOk(s, q);
    }
    forall i | IsDesc(i)
      ensures DescOk(t, i)
    {
      assert DescOk(s, i);
    }
    assert OnAvail(t) == OnAvail(s) && OnUsed(t) == OnUsed(s);
  }

  lemma BeginKeepsInv(s: State, p: int, b: int, block: int, write: bool)
    requires Inv(s) && Enabled(s, Begin(p, b, block, write))
    ensures Inv(Apply(s, Begin(p, b, block, write)))
  {
    var t := Apply(s, Begin(p, b, block, write));
    assert CallOk(s, p);
    forall q | IsCall(t, q)
      ensures ChainOk(t, q) && CallOk(t, q)
    {
      assert ChainOk(s, q) && CallOk(s, q);
    }
    assert OnAvail(t) == OnAvail(s) && OnUsed(t) == OnUsed(s);
    QueuesFrame(s, t, p);
  }

  lemma SubmitChains(s: State, p: int, i: int, j: int, k: int, q: int)
    requires Inv(s) && Enabled(s, Submit(p)) && IsCall(s, q)
    requires IsDesc(i) && IsDesc(j) && IsDesc(k) && i < j < k && s.free[i] && s.free[j] && s.free[k]
    ensures IsCall(Format(s, p, i, j, k), q) && ChainOk(Format(s, p, i, j, k), q) && CallOk(Format(s, p, i, j, k), q)
  {
    assert ChainOk(s, q) && CallOk(s, q) && CallOk(s, p) && ChainOk(s, p);
    var c := s.calls[q];
    if q != p && Active(c) {
      assert {c.i0, c.i1, c.i2} !! {i, j, k};
    }
  }

  lemma SubmitDescs(s: State, p: int, i: int, j: int, k: int)
    requires Inv(s) && Enabled(s, Submit(p))
    requires IsDesc(i) && IsDesc(j) && IsDesc(k) && i < j < k && s.free[i] && s.free[j] && s.free[k]
    ensures DescsOk(Format(s, p, i, j, k)) && LockOk(Format(s, p, i, j, k))
  {
    forall d | IsDesc(d)
      ensures DescOk(Format(s, p, i, j, k), d)
    {
      assert DescOk(s, d);
    }
  }

  lemma SubmitQueues(s: State, p: int, i: int, j: int, k: int)
    requires Inv(s) && Enabled(s, Submit(p))
    requires IsDesc(i) && IsDesc(j) && IsDesc(k) && i < j < k && s.free[i] && s.free[j] && s.free[k]
    ensures QueuesOk(Format(s, p, i, j, k))
  {
    var t := Format(s, p, i, j, k);
    QueueBound(s, OnAvail(s), Posted);
    AvailWrite(s, i);
    assert OnAvail(t) == OnAvail(s.(avail := t.avail)) && OnUsed(t) == OnUsed(s);
    assert CallOk(s, p);
    QueuesFrame(s, t, p);
  }

  lemma SubmitApart(s: State, p: int, i: int, j: int, k: int)
    requires Tables(s) && Apart(s) && Enabled(s, Submit(p))
    requires IsDesc(i) && IsDesc(j) && IsDesc(k)
    ensures Tables(Format(s, p, i, j, k)) && Apart(Format(s, p, i, j, k))
  {
  }

  lemma SubmitKeepsInv(s: State, p: int)
    requires Inv(s) && Enabled(s, Submit(p))
    ensures Inv(Apply(s, Submit(p)))
  {
    var f := Three(s.free);
    if f.2 != -1 {
      SubmitApart(s, p, f.0, f.1, f.2);
      forall q | IsCall(s, q)
        ensures ChainOk(Format(s, p, f.0, f.1, f.2), q) && CallOk(Format(s, p, f.0, f.1, f.2), q)
      {
        SubmitChains(s, p, f.0, f.1, f.2, q);
      }
      SubmitDescs(s, p, f.0, f.1, f.2);
      SubmitQueues(s, p, f.0, f.1, f.2);
    }
  }

  lemma PublishQueue(s: State, p: int)
    requires Inv(s) && Enabled(s, Publish(p))
    ensures QueuesOk(Apply(s, Publish(p)))
  {
    var t := Apply(s, Publish(p));
    assert ChainOk(s, p) && CallOk(s, p) && LockOk(s);
    QueueBound(s, OnAvail(s), Posted);
    AvailPublish(s);
    var h := s.calls[p].i0;
    assert OnAvail(t) == OnAvail(s) + [h] && OnUsed(t) == OnUsed(s);
    PublishPosted(s.calls, s.owner, p, t.calls[p], h, OnAvail(s));
    QueueFrame(s.calls, s.owner, p, t.calls[p], s.owner, s.taken, Taken);
    QueueFrame(s.calls, s.owner, p, t.calls[p], s.owner, s.performed, Performed);
    QueueFrame(s.calls, s.owner, p, t.calls[p], s.owner, OnUsed(s), Used);
  }

  lemma PublishPosted(calls: seq<Call>, owner: seq<int>, p: int, c: Call, h: int, q: seq<int>)
    requires QueueOk(calls, owner, q, Posted) && 0 <= p < |calls| && !calls[p].stage.Waiting?
    requires c.stage.Waiting? && c.place.Posted? && c.i0 == h && IsDesc(h) && |owner| == NUM && owner[h] == p
    ensures QueueOk(calls[p := c], owner, q + [h], Posted)
  {
    forall k | 0 <= k < |q|
      ensures HeadAt(calls[p := c], owner, q[k], Posted) && q[k] != h
    {
      assert HeadAt(calls, owner, q[k], Posted);
    }
  }

  lemma PublishKeepsInv(s: State, p: int)
    requires Inv(s) && Enabled(s, Publish(p))
    ensures Inv(Apply(s, Publish(p)))
  {
    var t := Apply(s, Publish(p));
    forall q | IsCall(t, q)
      ensures ChainOk(t, q) && CallOk(t, q)
    {
      assert ChainOk(s, q) && CallOk(s, q);
    }
    PublishQueue(s, p);
  }

  lemma ReturnChains(s: State, p: int, q: int)
    requires Inv(s) && Enabled(s, Return(p)) && IsCall(s, q)
    ensures IsCall(Apply(s, Return(p)), q) && ChainOk(Apply(s, Return(p)), q) && CallOk(Apply(s, Return(p)), q)
  {
    assert ChainOk(s, q) && CallOk(s, q) && CallOk(s, p) && ChainOk(s, p);
    var c, d := s.calls[q], s.calls[p];
    if q != p && Active(c) {
      assert {c.i0, c.i1, c.i2} !! {d.i0, d.i1, d.i2};
    }
  }

  lemma ReturnDescs(s: State, p: int)
    requires Inv(s) && Enabled(s, Return(p))
    ensures DescsOk(Apply(s, Return(p))) && LockOk(Apply(s, Return(p)))
  {
    assert ChainOk(s, p);
    forall d | IsDesc(d)
      ensures DescOk(Apply(s, Return(p)), d)
    {
      assert DescOk(s, d);
      ReturnDesc(s, p, d);
    }
  }

  lemma ReturnDesc(s: State, p: int, d: int)
    requires Enabled(s, Return(p)) && ChainOk(s, p) && IsDesc(d) && DescOk(s, d)
    ensures Tables(Apply(s, Return(p))) && DescOk(Apply(s, Return(p)), d)
  {
  }

  lemma ReturnKeepsInv(s: State, p: int)
    requires Inv(s) && Enabled(s, Return(p))
    ensures Inv(Apply(s, Return(p)))
  {
    var t := Apply(s, Return(p));
    forall q | IsCall(t, q)
      ensures ChainOk(t, q) && CallOk(t, q)
    {
      ReturnChains(s, p, q);
    }
    ReturnDescs(s, p);
    ReturnQueues(s, p);
  }

  lemma ReturnQueues(s: State, p: int)
    requires Inv(s) && Enabled(s, Return(p))
    ensures QueuesOk(Apply(s, Return(p))) && Apart(Apply(s, Return(p)))
  {
    var t := Apply(s, Return(p));
    assert ChainOk(s, p) && CallOk(s, p);
    assert OnAvail(t) == OnAvail(s) && OnUsed(t) == OnUsed(s);
    QueuesFrame(s, t, p);
  }

  // ------------------------------------------------------------------ requests on the move

  /** t is s but for the place of the request at head h, the queues, and what `Moves` leaves out. */
  ghost predicate Moves(s: State, t: State, h: int, from: Place, to: Place) {
    && HeadAt(s.calls, s.owner, h, from) && !to.Nowhere? && from != to
    && Tables(s) && Tables(t)
    && t.owner == s.owner && t.free == s.free && t.desc == s.desc && t.ops == s.ops && t.lock == s.lock
    && t.avail == s.avail && t.availIdx == s.availIdx && |t.disk| == |s.disk| && |t.data| == |s.data|
    && (forall i :: IsDesc(i) ==> t.info[i].b == s.info[i].b)
    && t.calls == s.calls[s.owner[h] := s.calls[s.owner[h]].(place := to)]
  }

  lemma MovesKeepsInv(s: State, t: State, h: int, from: Place, to: Place)
    requires Inv(s) && Moves(s, t, h, from, to) && QueuesOk(t)
    requires forall q :: IsCall(t, q) ==> CallOk(t, q)
    ensures Inv(t)
  {
    forall q | IsCall(t, q)
      ensures ChainOk(t, q)
    {
      assert ChainOk(s, q);
    }
    MovesDescs(s, t, h, from, to);
  }

  lemma MovesDescs(s: State, t: State, h: int, from: Place, to: Place)
    requires Inv(s) && Moves(s, t, h, from, to)
    ensures DescsOk(t) && LockOk(t) && Apart(t)
  {
    forall d | IsDesc(d)
      ensures DescOk(t, d)
    {
      assert DescOk(s, d);
    }
  }

  /** A move that leaves flags, status and data alone. */
  lemma QuietCalls(s: State, t: State, h: int, from: Place, to: Place)
    requires Inv(s) && Moves(s, t, h, from, to) && t.info == s.info && t.busy == s.busy && t.data == s.data
      && t.disk == s.disk
    requires Carried(s.calls[s.owner[h]]) <==> to.Performed? || to.Used? || to.Seen?
    requires !from.Seen? && !to.Seen?
    ensures forall q :: IsCall(t, q) ==> CallOk(t, q)
  {
    forall q | IsCall(t, q)
      ensures CallOk(t, q)
    {
      assert CallOk(s, q);
    }
  }

  lemma TakeKeepsInv(s: State)
    requires Inv(s) && Enabled(s, Take)
    ensures Inv(Apply(s, Take))
  {
    var h, t := s.avail[s.lastAvail % NUM], Apply(s, Take);
    TakeShape(s);
    TakeQueues(s, t, h);
    QuietCalls(s, t, h, Posted, Taken);
    MovesKeepsInv(s, t, h, Posted, Taken);
  }

  lemma TakeShape(s: State)
    requires Inv(s) && Enabled(s, Take)
    ensures var h, t := s.avail[s.lastAvail % NUM], Apply(s, Take);
      && Moves(s, t, h, Posted, Taken) && t.info == s.info && t.busy == s.busy && t.data == s.data && t.disk == s.disk
      && OnAvail(s) != [] && OnAvail(s)[0] == h && OnAvail(t) == OnAvail(s)[1..] && OnUsed(t) == OnUsed(s)
      && t.taken == s.taken + [h] && t.performed == s.performed
  {
    AvailTake(s);
    assert HeadAt(s.calls, s.owner, OnAvail(s)[0], Posted);
  }

  lemma TakeQueues(s: State, t: State, h: int)
    requires Tables(s) && QueuesOk(s) && Moves(s, t, h, Posted, Taken)
    requires OnAvail(s) != [] && OnAvail(s)[0] == h && OnAvail(t) == OnAvail(s)[1..] && OnUsed(t) == OnUsed(s)
    requires t.taken == s.taken + [h] && t.performed == s.performed
    ensures QueuesOk(t)
  {
    var q := OnAvail(s);
    assert q[1..] == Without(q, 0);
    QueueLeaves(s.calls, s.owner, q, Posted, 0, Taken, q[1..]);
    QueueJoins(s.calls, s.owner, h, Posted, Taken, s.taken);
    QueuesMove(s, t, h, Posted, Taken);
  }

  lemma CompleteKeepsInv(s: State, k: int)
    requires Inv(s) && Enabled(s, Complete(k))
    ensures Inv(Apply(s, Complete(k)))
  {
    var h, t := s.performed[k], Apply(s, Complete(k));
    QueueBound(s, OnUsed(s), Used);
    UsedWrite(s, h);
    QueueLeaves(s.calls, s.owner, s.performed, Performed, k, Used, Without(s.performed, k));
    QueueJoins(s.calls, s.owner, h, Performed, Used, OnUsed(s));
    assert OnUsed(t) == OnUsed(s) + [h] && OnAvail(t) == OnAvail(s);
    QueuesMove(s, t, h, Performed, Used);
    QuietCalls(s, t, h, Performed, Used);
    MovesKeepsInv(s, t, h, Performed, Used);
  }

  /** A chain that is formatted for c is carried out as c asks. */
  lemma PerformingFormed(s: State, h: int, c: Call)
    requires Tables(s) && Formed(s, c) && c.i0 == h
    requires 0 <= c.b < |s.data| && 0 <= c.block < |s.disk| && c.block < 0x8000_0000
    ensures Performing(s, h) ==
           var t := s.(info := s.info[h := s.info[h].(status := 0)]);
           if c.write then t.(disk := s.disk[c.block := s.data[c.b]]) else t.(data := s.data[c.b := s.disk[c.block]])
  {
  }

  /** The device finds at the head of a taken chain the request as it was made, and carries it out. */
  lemma PerformingIs(s: State, h: int)
    requires Inv(s) && HeadAt(s.calls, s.owner, h, Taken)
    ensures var c := s.calls[s.owner[h]];
      && 0 <= c.b < |s.data| && 0 <= c.block < |s.disk|
      && Performing(s, h) ==
           var t := s.(info := s.info[h := s.info[h].(status := 0)]);
           if c.write then t.(disk := s.disk[c.block := s.data[c.b]]) else t.(data := s.data[c.b := s.disk[c.block]])
  {
    assert ChainOk(s, s.owner[h]) && CallOk(s, s.owner[h]);
    PerformingFormed(s, h, s.calls[s.owner[h]]);
  }

  lemma PerformCalls(s: State, t: State, h: int, q: int)
    requires Inv(s) && Moves(s, t, h, Taken, Performed) && IsCall(s, q)
    requires var c := s.calls[s.owner[h]];
      && t.info == s.info[h := s.info[h].(status := 0)] && t.busy == s.busy
      && 0 <= c.b < |s.data| && 0 <= c.block < |s.disk|
      && t.disk == (if c.write then s.disk[c.block := s.data[c.b]] else s.disk)
      && t.data == (if c.write then s.data else s.data[c.b := s.disk[c.block]])
    ensures CallOk(t, q)
  {
    assert CallOk(s, q) && ChainOk(s, q) && ChainOk(s, s.owner[h]) && CallOk(s, s.owner[h]);
    assert q != s.owner[h] && Active(s.calls[q]) ==> s.calls[q].i0 != h;
  }

  lemma PerformHead(s: State, k: int)
    requires Inv(s) && Enabled(s, Perform(k))
    ensures HeadAt(s.calls, s.owner, s.taken[k], Taken)
  {
  }

  /** s with the request at head h, which is c, carried out and passed on. */
  function PassedOn(s: State, h: int, c: Call, k: int): State
    requires Tables(s) && IsDesc(h) && IsCall(s, s.owner[h]) && 0 <= k < |s.taken|
    requires 0 <= c.b < |s.data| && 0 <= c.block < |s.disk|
  {
    s.(info := s.info[h := s.info[h].(status := 0)],
       disk := if c.write then s.disk[c.block := s.data[c.b]] else s.disk,
       data := if c.write then s.data else s.data[c.b := s.disk[c.block]],
       taken := Without(s.taken, k), performed := s.performed + [h],
       calls := s.calls[s.owner[h] := s.calls[s.owner[h]].(place := Performed)])
  }

  lemma PerformIs(s: State, k: int)
    requires Inv(s) && Enabled(s, Perform(k)) && HeadAt(s.calls, s.owner, s.taken[k], Taken)
    ensures var h := s.taken[k]; var c := s.calls[s.owner[h]];
      && 0 <= c.b < |s.data| && 0 <= c.block < |s.disk|
      && Apply(s, Perform(k)) == PassedOn(s, h, c, k)
  {
    PerformingIs(s, s.taken[k]);
  }

  lemma CarriedMoves(s: State, t: State, h: int, c: Call, k: int)
    requires Tables(s) && HeadAt(s.calls, s.owner, h, Taken) && 0 <= k < |s.taken|
    requires 0 <= c.b < |s.data| && 0 <= c.block < |s.disk| && t == PassedOn(s, h, c, k)
    ensures Moves(s, t, h, Taken, Performed)
  {
  }

  lemma PerformMoves(s: State, k: int)
    requires Inv(s) && Enabled(s, Perform(k)) && HeadAt(s.calls, s.owner, s.taken[k], Taken)
    ensures Moves(s, Apply(s, Perform(k)), s.taken[k], Taken, Performed)
  {
    PerformIs(s, k);
    CarriedMoves(s, Apply(s, Perform(k)), s.taken[k], s.calls[s.owner[s.taken[k]]], k);
  }

  lemma PerformShape(s: State, k: int)
    requires Inv(s) && Enabled(s, Perform(k)) && HeadAt(s.calls, s.owner, s.taken[k], Taken)
    ensures var h, t := s.taken[k], Apply(s, Perform(k)); var c := s.calls[s.owner[h]];
      && t.info == s.info[h := s.info[h].(status := 0)] && t.busy == s.busy
      && 0 <= c.b < |s.data| && 0 <= c.block < |s.disk|
      && t.disk == (if c.write then s.disk[c.block := s.data[c.b]] else s.disk)
      && t.data == (if c.write then s.data else s.data[c.b := s.disk[c.block]])
  {
    PerformIs(s, k);
  }

  lemma PerformRings(s: State, k: int)
    requires Inv(s) && Enabled(s, Perform(k)) && HeadAt(s.calls, s.owner, s.taken[k], Taken)
    ensures var h, t := s.taken[k], Apply(s, Perform(k));
      && Tables(t) && QueuesKept(s, t) && t.taken == Without(s.taken, k) && t.performed == s.performed + [h]
  {
    PerformIs(s, k);
  }

  predicate QueuesKept(s: State, t: State)
    requires Tables(s) && Tables(t)
  {
    OnAvail(t) == OnAvail(s) && OnUsed(t) == OnUsed(s)
  }

  lemma PerformQueues(s: State, t: State, k: int)
    requires Tables(s) && QueuesOk(s) && 0 <= k < |s.taken| && Moves(s, t, s.taken[k], Taken, Performed)
      && QueuesKept(s, t)
    requires t.taken == Without(s.taken, k) && t.performed == s.performed + [s.taken[k]]
    ensures QueuesOk(t)
  {
    QueueLeaves(s.calls, s.owner, s.taken, Taken, k, Performed, Without(s.taken, k));
    QueueJoins(s.calls, s.owner, s.taken[k], Taken, Performed, s.performed);
    QueuesMove(s, t, s.taken[k], Taken, Performed);
  }

  lemma PerformKeepsInv(s: State, k: int)
    requires Inv(s) && Enabled(s, Perform(k))
    ensures Inv(Apply(s, Perform(k)))
  {
    PerformHead(s, k);
    PerformMoves(s, k);
    PerformShape(s, k);
    PerformRings(s, k);
    PerformQueues(s, Apply(s, Perform(k)), k);
    forall q | IsCall(s, q)
      ensures CallOk(Apply(s, Perform(k)), q)
    {
      PerformCalls(s, Apply(s, Perform(k)), s.taken[k], q);
    }
    MovesKeepsInv(s, Apply(s, Perform(k)), s.taken[k], Taken, Performed);
  }

  /** The interrupt handler finds a request that succeeded. */
  lemma SeeingIs(s: State)
    requires Inv(s) && Enabled(s, Interrupt)
    ensures var h := s.used[s.usedIdx % NUM];
      && HeadAt(s.calls, s.owner, h, Used) && s.info[h].status == 0 && s.info[h].b == s.calls[s.owner[h]].b
      && 0 <= s.info[h].b < |s.busy|
      && Apply(s, Interrupt) == Move(s.(busy := s.busy[s.info[h].b := false], usedIdx := Bump(s.usedIdx)), h, Seen)
  {
    var h := s.used[s.usedIdx % NUM];
    UsedSeen(s);
    assert HeadAt(s.calls, s.owner, OnUsed(s)[0], Used);
    assert ChainOk(s, s.owner[h]) && CallOk(s, s.owner[h]);
  }

  lemma InterruptCalls(s: State, q: int)
    requires Inv(s) && Enabled(s, Interrupt) && IsCall(s, q)
    ensures IsCall(Apply(s, Interrupt), q) && Tables(Apply(s, Interrupt)) && CallOk(Apply(s, Interrupt), q)
  {
    SeeingIs(s);
    assert CallOk(s, q) && CallOk(s, s.owner[s.used[s.usedIdx % NUM]]);
  }

  lemma InterruptKeepsInv(s: State)
    requires Inv(s) && Enabled(s, Interrupt)
    ensures Inv(Apply(s, Interrupt)) && !Apply(s, Interrupt).panicked
  {
    var h, t := s.used[s.usedIdx % NUM], Apply(s, Interrupt);
    SeeingIs(s);
    UsedSeen(s);
    var q := OnUsed(s);
    assert q[1..] == Without(q, 0);
    QueueLeaves(s.calls, s.owner, q, Used, 0, Seen, q[1..]);
    assert OnUsed(t) == q[1..] && OnAvail(t) == OnAvail(s);
    QueuesMove(s, t, h, Used, Seen);
    forall c | IsCall(s, c)
      ensures CallOk(t, c)
    {
      InterruptCalls(s, c);
    }
    MovesKeepsInv(s, t, h, Used, Seen);
  }

  // ------------------------------------------------------------------ runs

  lemma StepKeepsInv(s: State, step: Step)
    requires Inv(s) && Enabled(s, step)
    ensures Inv(Apply(s, step)) && !Apply(s, step).panicked
  {
    match step
    case Modify(b, content) => ModifyKeepsInv(s, b, content);
    case Begin(p, b, block, write) => BeginKeepsInv(s, p, b, block, write);
    case Submit(p) => SubmitKeepsInv(s, p);
    case Publish(p) => PublishKeepsInv(s, p);
    case Return(p) => ReturnKeepsInv(s, p);
    case _ => DeviceKeepsInv(s, step);
  }

  lemma DeviceKeepsInv(s: State, step: Step)
    requires Inv(s) && Enabled(s, step) && (step.Take? || step.Perform? || step.Complete? || step.Interrupt?)
    ensures Inv(Apply(s, step)) && !Apply(s, step).panicked
  {
    match step
    case Take => TakeKeepsInv(s);
    case Perform(k) => PerformKeepsInv(s, k);
    case Complete(k) => CompleteKeepsInv(s, k);
    case Interrupt => InterruptKeepsInv(s);
  }

  /** virtio_disk_init, with any disk and any number of processes and buffers. */
  ghost predicate Initial(s: State) {
    && Tables(s) && s.availIdx == s.usedIdx == s.lastAvail == s.devUsedIdx == 0
    && s.free == seq(NUM, _ => true) && s.owner == seq(NUM, _ => NONE) && s.desc == seq(NUM, _ => EMPTY)
    && s.taken == [] && s.performed == [] && s.lock == NONE && !s.panicked
    && forall p :: IsCall(s, p) ==> s.calls[p].stage.Idle? && s.calls[p].place.Nowhere?
  }

  ghost predicate Runs(s: State, steps: seq<Step>, t: State)
    decreases |steps|
  {
    if steps == [] then s == t
    else Enabled(s, steps[0]) && Runs(Apply(s, steps[0]), steps[1..], t)
  }

  lemma {:induction false} RunKeepsInv(s: State, steps: seq<Step>, t: State)
    requires Inv(s) && !s.panicked && Runs(s, steps, t)
    ensures Inv(t) && !t.panicked
    decreases |steps|
  {
    if steps != [] {
      StepKeepsInv(s, steps[0]);
      RunKeepsInv(Apply(s, steps[0]), steps[1..], t);
    }
  }

  lemma Reachable(s: State, steps: seq<Step>, t: State)
    requires Initial(s) && Runs(s, steps, t)
    ensures Inv(t) && !t.panicked
  {
    assert OnAvail(s) == [] && OnUsed(s) == [];
    RunKeepsInv(s, steps, t);
  }

  /**
   In every run: the eight descriptors are split between the free ones and the three of each active
   request, at most two requests are active, no ring holds more unread entries than that, and
   the interrupt handler's check on the status never panics.
   */
  lemma DescriptorSafety(s: State, steps: seq<Step>, t: State, ps: seq<int>)
    requires Initial(s) && Runs(s, steps, t) && ActiveOnes(t, ps)
    ensures Tables(t) && |t.desc| == 8 && DescsOk(t) && (forall p :: IsCall(t, p) ==> ChainOk(t, p))
    ensures |ps| <= 2 && |OnAvail(t)| <= 2 && |OnUsed(t)| <= 2
    ensures !t.panicked
  {
    Reachable(s, steps, t);
    InFlightBound(t, ps);
    QueueBound(t, OnAvail(t), Posted);
    QueueBound(t, OnUsed(t), Used);
  }

  function Rank(place: Place): int {
    match place
    case Nowhere => 0
    case Posted => 1
    case Taken => 2
    case Performed => 3
    case Used => 4
    case Seen => 5
  }

  /** The same request at the same place or the next one. */
  predicate OneOn(a: Call, b: Call, performing: bool) {
    && Active(b) && b.b == a.b && b.block == a.block && b.write == a.write && b.i0 == a.i0
    && (Rank(b.place) == Rank(a.place) || Rank(b.place) == Rank(a.place) + 1)
    && (Rank(b.place) == 3 && Rank(a.place) == 2 ==> performing)
  }

  lemma DriverStageOn(s: State, step: Step, p: int)
    requires Inv(s) && Enabled(s, step) && IsCall(s, p) && Active(s.calls[p]) && step != Return(p)
    requires step.Modify? || step.Begin? || step.Submit? || step.Publish? || step.Return?
    ensures IsCall(Apply(s, step), p) && OneOn(s.calls[p], Apply(s, step).calls[p], step.Perform?)
  {
    assert CallOk(s, p);
  }

  lemma MoveStageOn(s: State, t: State, h: int, from: Place, to: Place, p: int)
    requires HeadAt(s.calls, s.owner, h, from) && Rank(to) == Rank(from) + 1 && IsCall(s, p) && Active(s.calls[p])
    requires t.calls == s.calls[s.owner[h] := s.calls[s.owner[h]].(place := to)]
    ensures IsCall(t, p) && OneOn(s.calls[p], t.calls[p], from.Taken?)
  {
  }

  lemma TakeStageOn(s: State, p: int)
    requires Inv(s) && Enabled(s, Take) && IsCall(s, p) && Active(s.calls[p])
    ensures IsCall(Apply(s, Take), p) && OneOn(s.calls[p], Apply(s, Take).calls[p], false)
  {
    AvailTake(s);
    assert HeadAt(s.calls, s.owner, OnAvail(s)[0], Posted);
    MoveStageOn(s, Apply(s, Take), OnAvail(s)[0], Posted, Taken, p);
  }

  lemma PerformStageOn(s: State, k: int, p: int)
    requires Inv(s) && Enabled(s, Perform(k)) && IsCall(s, p) && Active(s.calls[p])
    ensures IsCall(Apply(s, Perform(k)), p) && OneOn(s.calls[p], Apply(s, Perform(k)).calls[p], true)
  {
    PerformHead(s, k);
    PerformMoves(s, k);
    PerformShape(s, k);
    MoveStageOn(s, Apply(s, Perform(k)), s.taken[k], Taken, Performed, p);
  }

  lemma CompleteStageOn(s: State, k: int, p: int)
    requires Inv(s) && Enabled(s, Complete(k)) && IsCall(s, p) && Active(s.calls[p])
    ensures IsCall(Apply(s, Complete(k)), p) && OneOn(s.calls[p], Apply(s, Complete(k)).calls[p], false)
  {
    assert HeadAt(s.calls, s.owner, s.performed[k], Performed);
    MoveStageOn(s, Apply(s, Complete(k)), s.performed[k], Performed, Used, p);
  }

  lemma InterruptStageOn(s: State, p: int)
    requires Inv(s) && Enabled(s, Interrupt) && IsCall(s, p) && Active(s.calls[p])
    ensures IsCall(Apply(s, Interrupt), p) && OneOn(s.calls[p], Apply(s, Interrupt).calls[p], false)
  {
    SeeingIs(s);
    MoveStageOn(s, Apply(s, Interrupt), s.used[s.usedIdx % NUM], Used, Seen, p);
  }

  /**
   Each request goes once through posted, taken, performed, used and seen, whatever the device's
   order: a step moves it at most one place on, and only its own return takes it out.
   */
  lemma OneStageOn(s: State, step: Step, p: int)
    requires Inv(s) && Enabled(s, step) && IsCall(s, p) && Active(s.calls[p]) && step != Return(p)
    ensures IsCall(Apply(s, step), p) && OneOn(s.calls[p], Apply(s, step).calls[p], step.Perform?)
  {
    match step
    case Take => TakeStageOn(s, p);
    case Perform(k) => PerformStageOn(s, k, p);
    case Complete(k) => CompleteStageOn(s, k, p);
    case Interrupt => InterruptStageOn(s, p);
    case _ => DriverStageOn(s, step, p);
  }

  /**
   Which steps change a buffer or the disk: a change of the file system to one buffer that no call uses, and the
   device carrying out one request, which changes the block of a write and the buffer of a read. No other step,
   that of a return included, changes either.
   */
  lemma ContentsChange(s: State, step: Step)
    requires Inv(s) && Enabled(s, step)
    ensures var t := Apply(s, step);
      match step
      case Modify(b, content) =>
        && t.disk == s.disk && 0 <= b < |s.data| && t.data == s.data[b := content]
        && forall q :: IsCall(s, q) && !s.calls[q].stage.Idle? ==> s.calls[q].b != b
      case Perform(k) =>
        && HeadAt(s.calls, s.owner, s.taken[k], Taken)
        && var c := s.calls[s.owner[s.taken[k]]];
        && 0 <= c.b < |s.data| && 0 <= c.block < |s.disk|
        && t.disk == (if c.write then s.disk[c.block := s.data[c.b]] else s.disk)
        && t.data == (if c.write then s.data else s.data[c.b := s.disk[c.block]])
      case _ => t.data == s.data && t.disk == s.disk
  {
    if step.Perform? {
      PerformHead(s, step.k);
      PerformShape(s, step.k);
    } else if step.Interrupt? {
      SeeingIs(s);
    }
  }

  /** A call on the same buffer and block in the same direction, which has not returned. */
  predicate SameCall(a: Call, c: Call) {
    !c.stage.Idle? && c.b == a.b && c.block == a.block && c.write == a.write && c.payload == a.payload
  }

  lemma MoveKeepsCall(s: State, t: State, h: int, from: Place, to: Place, p: int)
    requires HeadAt(s.calls, s.owner, h, from) && IsCall(s, p) && !s.calls[p].stage.Idle?
    requires t.calls == s.calls[s.owner[h] := s.calls[s.owner[h]].(place := to)]
    ensures IsCall(t, p) && SameCall(s.calls[p], t.calls[p])
    ensures s.owner[h] != p ==> Carried(t.calls[p]) == Carried(s.calls[p])
    ensures s.owner[h] == p ==> s.calls[p].place == from && t.calls[p].place == to
  {
  }

  /** Taking, completing and seeing a request leave open whether it has been carried out. */
  lemma QuietKeepsCall(s: State, step: Step, p: int)
    requires Inv(s) && Enabled(s, step) && IsCall(s, p) && !s.calls[p].stage.Idle?
    requires step.Take? || step.Complete? || step.Interrupt?
    ensures IsCall(Apply(s, step), p) && SameCall(s.calls[p], Apply(s, step).calls[p])
    ensures Carried(Apply(s, step).calls[p]) == Carried(s.calls[p])
  {
    match step
    case Take =>
      TakeShape(s);
      MoveKeepsCall(s, Apply(s, Take), s.avail[s.lastAvail % NUM], Posted, Taken, p);
    case Complete(k) =>
      assert HeadAt(s.calls, s.owner, s.performed[k], Performed);
      MoveKeepsCall(s, Apply(s, Complete(k)), s.performed[k], Performed, Used, p);
    case Interrupt =>
      SeeingIs(s);
      MoveKeepsCall(s, Apply(s, Interrupt), s.used[s.usedIdx % NUM], Used, Seen, p);
  }

  /** The device carries out one request, its owner's, that has not been carried out. */
  lemma PerformKeepsCall(s: State, k: int, p: int)
    requires Inv(s) && Enabled(s, Perform(k)) && IsCall(s, p) && !s.calls[p].stage.Idle?
    requires HeadAt(s.calls, s.owner, s.taken[k], Taken)
    ensures IsCall(Apply(s, Perform(k)), p) && SameCall(s.calls[p], Apply(s, Perform(k)).calls[p])
    ensures s.owner[s.taken[k]] != p ==> Carried(Apply(s, Perform(k)).calls[p]) == Carried(s.calls[p])
    ensures s.owner[s.taken[k]] == p ==> !Carried(s.calls[p]) && Carried(Apply(s, Perform(k)).calls[p])
  {
    PerformMoves(s, k);
    MoveKeepsCall(s, Apply(s, Perform(k)), s.taken[k], Taken, Performed, p);
  }

  lemma DriverKeepsCall(s: State, step: Step, p: int)
    requires Inv(s) && Enabled(s, step) && IsCall(s, p) && !s.calls[p].stage.Idle? && step != Return(p)
    requires step.Modify? || step.Begin? || step.Submit? || step.Publish? || step.Return?
    ensures IsCall(Apply(s, step), p) && SameCall(s.calls[p], Apply(s, step).calls[p])
    ensures Carried(Apply(s, step).calls[p]) == Carried(s.calls[p])
  {
    assert CallOk(s, p);
  }

  lemma MoveLeaves(s: State, t: State, h: int, from: Place, to: Place, p: int)
    requires Moves(s, t, h, from, to) && IsCall(s, p) && !Active(s.calls[p])
    ensures IsCall(t, p) && t.calls[p] == s.calls[p]
  {
  }

  lemma DeviceLeaves(s: State, step: Step, p: int)
    requires Inv(s) && Enabled(s, step) && IsCall(s, p) && !Active(s.calls[p])
    requires step.Take? || step.Perform? || step.Complete? || step.Interrupt?
    ensures IsCall(Apply(s, step), p) && Apply(s, step).calls[p] == s.calls[p]
  {
    match step
    case Take =>
      TakeShape(s);
      MoveLeaves(s, Apply(s, Take), s.avail[s.lastAvail % NUM], Posted, Taken, p);
    case Perform(k) =>
      PerformHead(s, k);
      PerformMoves(s, k);
      MoveLeaves(s, Apply(s, Perform(k)), s.taken[k], Taken, Performed, p);
    case Complete(k) => assert HeadAt(s.calls, s.owner, s.performed[k], Performed);
    case Interrupt => SeeingIs(s);
  }

  /** A process that has no request with the device changes only by its own steps. */
  lemma OnlyOwnSteps(s: State, step: Step, p: int)
    requires Inv(s) && Enabled(s, step) && IsCall(s, p) && !Active(s.calls[p])
    ensures IsCall(Apply(s, step), p)
    ensures Apply(s, step).calls[p] != s.calls[p] ==> (step.Begin? || step.Submit?) && step.p == p
  {
    if step.Take? || step.Perform? || step.Complete? || step.Interrupt? {
      DeviceLeaves(s, step, p);
    }
  }

  /** d and k are the contents of the buffer and of the block at the call. */
  ghost predicate Underway(s: State, p: int, a: Call, d: int, k: int) {
    && IsCall(s, p) && SameCall(a, s.calls[p]) && 0 <= a.b < |s.data| && 0 <= a.block < |s.disk|
    && (a.write ==> s.data[a.b] == d && s.disk[a.block] == if Carried(s.calls[p]) then d else k)
    && (!a.write ==> s.disk[a.block] == k && s.data[a.b] == if Carried(s.calls[p]) then k else d)
  }

  lemma PerformKeepsUnderway(s: State, n: int, p: int, a: Call, d: int, k: int)
    requires Inv(s) && Enabled(s, Perform(n)) && Underway(s, p, a, d, k)
    ensures Underway(Apply(s, Perform(n)), p, a, d, k)
  {
    ContentsChange(s, Perform(n));
    PerformKeepsCall(s, n, p);
    if s.owner[s.taken[n]] != p {
      OthersApart(s, p, s.owner[s.taken[n]]);
    }
  }

  lemma StepKeepsUnderway(s: State, step: Step, p: int, a: Call, d: int, k: int)
    requires Inv(s) && Enabled(s, step) && Underway(s, p, a, d, k) && step != Return(p)
    ensures Underway(Apply(s, step), p, a, d, k)
  {
    if step.Perform? {
      PerformKeepsUnderway(s, step.k, p, a, d, k);
    } else {
      ContentsChange(s, step);
      if step.Take? || step.Complete? || step.Interrupt? {
        QuietKeepsCall(s, step, p);
      } else {
        DriverKeepsCall(s, step, p);
      }
    }
  }

  lemma OthersApart(s: State, p: int, q: int)
    requires Apart(s) && IsCall(s, p) && IsCall(s, q) && p != q && !s.calls[p].stage.Idle? && !s.calls[q].stage.Idle?
    ensures s.calls[p].b != s.calls[q].b && s.calls[p].block != s.calls[q].block
  {
  }

  lemma {:induction false} RunKeepsUnderway(s: State, steps: seq<Step>, t: State, p: int, a: Call, d: int, k: int)
    requires Inv(s) && !s.panicked && Runs(s, steps, t) && Underway(s, p, a, d, k) && Return(p) !in steps
    ensures Inv(t) && !t.panicked && Underway(t, p, a, d, k)
    decreases |steps|
  {
    if steps != [] {
      StepKeepsInv(s, steps[0]);
      StepKeepsUnderway(s, steps[0], p, a, d, k);
      RunKeepsUnderway(Apply(s, steps[0]), steps[1..], t, p, a, d, k);
    }
  }

  /**
   virtio_disk_rw from its call to its return, whatever other calls, the device and the interrupts do in between:
   a write leaves in the block what the buffer held at the call, a read leaves in the buffer what the block held
   at the call, and the one copied from is as it was.
   */
  lemma CallDoes(s: State, p: int, b: int, block: int, write: bool, steps: seq<Step>, t: State)
    requires Inv(s) && Enabled(s, Begin(p, b, block, write))
    requires Runs(Apply(s, Begin(p, b, block, write)), steps, t) && Return(p) !in steps && Enabled(t, Return(p))
    ensures 0 <= b < |s.data| && 0 <= block < |s.disk|
    ensures var u := Apply(t, Return(p));
      && |u.data| == |s.data| && |u.disk| == |s.disk| && IsCall(u, p) && u.calls[p].stage.Idle?
      && u.data[b] == u.disk[block] == if write then s.data[b] else s.disk[block]
  {
    var s' := Apply(s, Begin(p, b, block, write));
    StepKeepsInv(s, Begin(p, b, block, write));
    BeginUnderway(s, p, b, block, write);
    RunKeepsUnderway(s', steps, t, p, s'.calls[p], s.data[b], s.disk[block]);
    RunKeepsSizes(s', steps, t);
    ReturnUnderway(t, p, s'.calls[p], s.data[b], s.disk[block]);
  }

  lemma BeginUnderway(s: State, p: int, b: int, block: int, write: bool)
    requires Inv(s) && Enabled(s, Begin(p, b, block, write))
    ensures var t := Apply(s, Begin(p, b, block, write));
      && t.data == s.data && t.disk == s.disk && IsCall(t, p) && t.calls[p].b == b && t.calls[p].block == block
      && t.calls[p].write == write && Underway(t, p, t.calls[p], s.data[b], s.disk[block])
  {
  }

  lemma ReturnUnderway(s: State, p: int, a: Call, d: int, k: int)
    requires Inv(s) && Enabled(s, Return(p)) && Underway(s, p, a, d, k)
    ensures var u := Apply(s, Return(p));
      && |u.data| == |s.data| && |u.disk| == |s.disk| && IsCall(u, p) && u.calls[p].stage.Idle?
      && u.data[a.b] == u.disk[a.block] == if a.write then d else k
  {
    ContentsChange(s, Return(p));
    assert CallOk(s, p);
  }

  lemma StepKeepsSizes(s: State, step: Step)
    requires Inv(s) && Enabled(s, step)
    ensures |Apply(s, step).data| == |s.data| && |Apply(s, step).disk| == |s.disk|
  {
    ContentsChange(s, step);
  }

  lemma {:induction false} RunKeepsSizes(s: State, steps: seq<Step>, t: State)
    requires Inv(s) && !s.panicked && Runs(s, steps, t)
    ensures |t.data| == |s.data| && |t.disk| == |s.disk|
    decreases |steps|
  {
    if steps != [] {
      StepKeepsInv(s, steps[0]);
      StepKeepsSizes(s, steps[0]);
      RunKeepsSizes(Apply(s, steps[0]), steps[1..], t);
    }
  }

  /**
   When virtio_disk_rw returns, its request has been carried out: buffer and block agree, after a
   write they hold what the caller had in the buffer; the return leaves buffers and disk as they are, and exactly
   its own chain becomes free.
   */
  lemma ReturnIsDone(s: State, steps: seq<Step>, t: State, p: int)
    requires Initial(s) && Runs(s, steps, t) && Enabled(t, Return(p))
    ensures var c, u := t.calls[p], Apply(t, Return(p));
      && c.place.Seen? && u.data == t.data && u.disk == t.disk && 0 <= c.b < |u.data| && 0 <= c.block < |u.disk|
      && u.data[c.b] == u.disk[c.block] && (c.write ==> u.disk[c.block] == c.payload)
      && forall i :: IsDesc(i) ==> (u.free[i] <==> t.free[i] || t.owner[i] == p)
  {
    Reachable(s, steps, t);
    ContentsChange(t, Return(p));
    assert CallOk(t, p);
    forall i | IsDesc(i)
      ensures Apply(t, Return(p)).free[i] <==> t.free[i] || t.owner[i] == p
    {
      ReturnFrees(t, p, i);
    }
  }

  lemma ReturnFrees(s: State, p: int, i: int)
    requires Inv(s) && Enabled(s, Return(p)) && IsDesc(i)
    ensures Apply(s, Return(p)).free[i] <==> s.free[i] || s.owner[i] == p
  {
    assert ChainOk(s, p) && DescOk(s, i);
  }

  /** What a return frees is the chain that Pool.FreeChain follows from the request's head. */
  lemma ReturnFreesChain(s: State, p: int)
    requires Inv(s) && Enabled(s, Return(p))
    ensures var c, t := s.calls[p], Apply(s, Return(p)); var chain := [c.i0, c.i1, c.i2];
      && IsChain(s.desc, chain) && (forall k :: 0 <= k < 3 ==> !s.free[chain[k]])
      && (forall i :: IsDesc(i) ==> t.free[i] == (i in chain || s.free[i]))
      && (forall i :: IsDesc(i) ==> t.desc[i] == if i in chain then EMPTY else s.desc[i])
  {
    assert ChainOk(s, p);
    ActiveChain(s, p);
    ReturnClears(s, p);
  }

  /** An active request's descriptors are a chain in use. */
  lemma ActiveChain(s: State, p: int)
    requires Tables(s) && DescsOk(s) && IsCall(s, p) && ChainOk(s, p) && Active(s.calls[p])
    ensures var c := s.calls[p]; var chain := [c.i0, c.i1, c.i2];
      IsChain(s.desc, chain) && forall k :: 0 <= k < 3 ==> !s.free[chain[k]]
  {
    var c := s.calls[p];
    assert DescOk(s, c.i0) && DescOk(s, c.i1) && DescOk(s, c.i2);
  }

  lemma ReturnClears(s: State, p: int)
    requires Enabled(s, Return(p))
    ensures var c, t := s.calls[p], Apply(s, Return(p)); var chain := [c.i0, c.i1, c.i2];
      && Tables(t)
      && (forall i :: IsDesc(i) ==> t.free[i] == (i in chain || s.free[i]))
      && (forall i :: IsDesc(i) ==> t.desc[i] == if i in chain then EMPTY else s.desc[i])
  {
    var c := s.calls[p];
    SetThree(s.free, c.i0, c.i1, c.i2, true);
    SetThree(s.desc, c.i0, c.i1, c.i2, EMPTY);
  }

  lemma SetThree<T>(x: seq<T>, i: int, j: int, k: int, v: T)
    requires 0 <= i < |x| && 0 <= j < |x| && 0 <= k < |x|
    ensures var y := x[i := v][j := v][k := v];
      |y| == |x| && forall d :: 0 <= d < |x| ==> y[d] == if d in [i, j, k] then v else x[d]
  {
  }

  /** A request only sleeps for want of descriptors when fewer than three are free. */
  lemma ThreeWhenFree(free: seq<bool>, i: int, j: int, k: int)
    requires 0 <= i < j < k < |free| && free[i] && free[j] && free[k]
    ensures Three(free).2 != -1
  {
    var a := FirstFree(free, 0);
    var rest := free[a := false];
    assert rest[i] || rest[j];
    var b := FirstFree(rest, 0);
    var left := rest[b := false];
    assert left[i] || left[j] || left[k];
  }

  /** virtio_disk_rw gets its descriptors and formats the request if and only if three are free, and else waits. */
  lemma SubmitsIff(s: State, p: int)
    requires Tables(s) && Enabled(s, Submit(p))
    ensures IsCall(Apply(s, Submit(p)), p)
    ensures Apply(s, Submit(p)).calls[p].stage.Formatted? <==>
      exists i, j, k :: 0 <= i < j < k < NUM && s.free[i] && s.free[j] && s.free[k]
    ensures !Apply(s, Submit(p)).calls[p].stage.Formatted? ==> Apply(s, Submit(p)) == s
  {
    var t := Three(s.free);
    if t.2 != -1 {
      assert s.free[t.0] && s.free[t.1] && s.free[t.2];
    } else {
      forall i, j, k | 0 <= i < j < k < NUM
        ensures !(s.free[i] && s.free[j] && s.free[k])
      {
        if s.free[i] && s.free[j] && s.free[k] {
          ThreeWhenFree(s.free, i, j, k);
          assert false;
        }
      }
    }
  }

  /** The request is in the queue of its place. */
  lemma Queued(s: State, p: int)
    requires Tables(s) && QueuesOk(s) && IsCall(s, p) && s.calls[p].stage.Waiting?
    ensures match s.calls[p].place
            case Posted => s.lastAvail != s.availIdx
            case Taken => s.calls[p].i0 in s.taken
            case Performed => s.calls[p].i0 in s.performed
            case Used => s.usedIdx != s.devUsedIdx
            case _ => true
  {
    match s.calls[p].place
    case Posted => assert OnAvail(s) != [];
    case Used => assert OnUsed(s) != [];
    case _ =>
  }

  lemma LockGoesOn(s: State)
    requires Tables(s) && LockOk(s) && !s.panicked && s.lock != NONE
    ensures Enabled(s, Publish(s.lock))
  {
  }

  /** No request gets stuck: wherever it is, the step that takes it on, or frees the lock for it, can be made. */
  lemma RequestGoesOn(s: State, p: int)
    requires Inv(s) && !s.panicked && IsCall(s, p) && s.calls[p].stage.Waiting?
    ensures s.lock != NONE ==> Enabled(s, Publish(s.lock))
    ensures
      var c := s.calls[p];
      match c.place
      case Posted => Enabled(s, Take)
      case Taken => exists k :: 0 <= k < |s.taken| && s.taken[k] == c.i0 && Enabled(s, Perform(k))
      case Performed => exists k :: 0 <= k < |s.performed| && s.performed[k] == c.i0 && Enabled(s, Complete(k))
      case Used => s.lock == NONE ==> Enabled(s, Interrupt)
      case Seen => s.lock == NONE ==> Enabled(s, Return(p))
      case Nowhere => false
  {
    if s.lock != NONE {
      LockGoesOn(s);
    }
    assert CallOk(s, p) && ChainOk(s, p);
    Queued(s, p);
    PlaceGoesOn(s, p);
  }

  lemma PlaceGoesOn(s: State, p: int)
    requires Tables(s) && !s.panicked && IsCall(s, p) && s.calls[p].stage.Waiting? && CallOk(s, p) && ChainOk(s, p)
    requires s.calls[p].place.Taken? ==> s.calls[p].i0 in s.taken
    requires s.calls[p].place.Performed? ==> s.calls[p].i0 in s.performed
    ensures s.calls[p].place.Taken? ==>
      exists k :: 0 <= k < |s.taken| && s.taken[k] == s.calls[p].i0 && Enabled(s, Perform(k))
    ensures s.calls[p].place.Performed? ==>
      exists k :: 0 <= k < |s.performed| && s.performed[k] == s.calls[p].i0 && Enabled(s, Complete(k))
    ensures s.calls[p].place.Seen? && s.lock == NONE ==> Enabled(s, Return(p))
    ensures !s.calls[p].place.Nowhere?
  {
    if s.calls[p].place.Taken? {
      var k :| 0 <= k < |s.taken| && s.taken[k] == s.calls[p].i0;
      assert Enabled(s, Perform(k));
    } else if s.calls[p].place.Performed? {
      var k :| 0 <= k < |s.performed| && s.performed[k] == s.calls[p].i0;
      assert Enabled(s, Complete(k));
    }
  }

  // ------------------------------------------------------------------ asleep in virtio_disk_rw

  /** The driver and the device, and which processes are asleep on &disk.free[0], and on their buffers. */
  datatype Sleepers = Sleepers(disk: State, wanting: set<int>, waiting: set<int>)

  /** A process may be woken by a kill, and test b->disk once more. */
  datatype Turn = Do(step: Step) | Rouse(p: int) | Retest(p: int)

  predicate MayTurn(x: Sleepers, turn: Turn) {
    match turn
    case Do(step) =>
      Enabled(x.disk, step) && (step.Submit? ==> step.p !in x.wanting) && (step.Return? ==> step.p !in x.waiting)
    case Rouse(p) => true
    case Retest(p) =>
      && IsCall(x.disk, p) && x.disk.calls[p].stage.Waiting? && p !in x.waiting && x.disk.lock == NONE
      && 0 <= x.disk.calls[p].b < |x.disk.busy|
  }

  /** The processes in waiting that sleep on buffer b. */
  function OnBuffer(s: State, waiting: set<int>, b: int): set<int> {
    set p | p in waiting && IsCall(s, p) && s.calls[p].b == b
  }

  /** A step wakes: alloc3_desc and free_chain those on &disk.free[0], the interrupt those on its buffer. */
  function After(x: Sleepers, turn: Turn): Sleepers
    requires MayTurn(x, turn)
  {
    match turn
    case Rouse(p) => x.(wanting := x.wanting - {p}, waiting := x.waiting - {p})
    case Retest(p) => if x.disk.busy[x.disk.calls[p].b] then x.(waiting := x.waiting + {p}) else x
    case Do(step) =>
      var s, t := x.disk, Apply(x.disk, step);
      match step
      case Submit(p) =>
        var three := Three(s.free);
        if three.2 != -1 then x.(disk := t)
        else Sleepers(t, (if three.0 != -1 then {} else x.wanting) + {p}, x.waiting)
      case Publish(p) =>
        var b := s.calls[p].b;
        Sleepers(t, x.wanting, if 0 <= b < |s.busy| && s.busy[b] then x.waiting + {p} else x.waiting)
      case Interrupt =>
        var id := s.used[s.usedIdx % NUM];
        Sleepers(t, x.wanting, if IsDesc(id) then x.waiting - OnBuffer(s, x.waiting, s.info[id].b) else x.waiting)
      case Return(p) => Sleepers(t, {}, x.waiting)
      case _ => x.(disk := t)
  }

  /** Whoever sleeps has nothing to go on with. */
  ghost predicate SleepOk(x: Sleepers) {
    && (forall p :: p in x.wanting ==>
          IsCall(x.disk, p) && x.disk.calls[p].stage.Wanting? && Three(x.disk.free).2 == -1)
    && (forall p :: p in x.waiting ==>
          IsCall(x.disk, p) && x.disk.calls[p].stage.Waiting? && !x.disk.calls[p].place.Seen?)
  }

  lemma MoveKeeps(s: State, h: int, place: Place, p: int)
    requires Tables(s) && IsCall(s, p)
    ensures IsCall(Move(s, h, place), p) && Move(s, h, place).free == s.free
    ensures Move(s, h, place).calls[p] == s.calls[p] || Move(s, h, place).calls[p] == s.calls[p].(place := place)
  {
  }

  /** A step of the device leaves a call where it is, or takes it on, but not to Seen. */
  lemma DeviceKeepsSleep(s: State, step: Step, p: int)
    requires Tables(s) && Enabled(s, step) && (step.Take? || step.Perform? || step.Complete?) && IsCall(s, p)
    ensures IsCall(Apply(s, step), p) && Apply(s, step).free == s.free
    ensures var a, b := s.calls[p], Apply(s, step).calls[p];
      b.stage == a.stage && b.b == a.b && (b.place.Seen? ==> a.place.Seen?)
  {
    match step
    case Take =>
      var h := s.avail[s.lastAvail % NUM];
      MoveKeeps(s.(lastAvail := Bump(s.lastAvail), taken := s.taken + [h]), h, Taken, p);
    case Perform(k) =>
      var h := s.taken[k];
      MoveKeeps(Performing(s, h).(taken := Without(s.taken, k), performed := s.performed + [h]), h, Performed, p);
    case Complete(k) =>
      var h := s.performed[k];
      MoveKeeps(s.(performed := Without(s.performed, k), used := s.used[s.devUsedIdx % NUM := h],
        devUsedIdx := Bump(s.devUsedIdx)), h, Used, p);
    case _ =>
  }

  /** The interrupt takes on the request whose buffer it wakes, and no other. */
  lemma InterruptWakes(s: State, p: int)
    requires Inv(s) && Enabled(s, Interrupt) && IsCall(s, p)
    ensures var id := s.used[s.usedIdx % NUM]; var t := Apply(s, Interrupt);
      && IsDesc(id) && IsCall(t, p) && t.free == s.free && t.calls[p].stage == s.calls[p].stage
      && t.calls[p].b == s.calls[p].b && (t.calls[p] != s.calls[p] ==> s.calls[p].b == s.info[id].b)
  {
    SeeingIs(s);
    var id := s.used[s.usedIdx % NUM];
    assert ChainOk(s, s.owner[id]);
    MoveKeeps(s.(busy := s.busy[s.info[id].b := false], usedIdx := Bump(s.usedIdx)), id, Seen, p);
  }

  lemma TurnKeepsSleep(x: Sleepers, turn: Turn)
    requires Inv(x.disk) && SleepOk(x) && MayTurn(x, turn)
    ensures SleepOk(After(x, turn))
  {
    match turn
    case Rouse(_) =>
    case Retest(p) =>
      assert CallOk(x.disk, p);
    case Do(step) =>
      if step.Take? || step.Perform? || step.Complete? {
        forall p | p in x.wanting || p in x.waiting
          ensures IsCall(After(x, turn).disk, p) && After(x, turn).disk.free == x.disk.free
          ensures var a, b := x.disk.calls[p], After(x, turn).disk.calls[p];
            b.stage == a.stage && (b.place.Seen? ==> a.place.Seen?)
        {
          DeviceKeepsSleep(x.disk, step, p);
        }
      } else if step.Interrupt? {
        InterruptKeepsSleep(x);
      } else {
        DriverKeepsSleep(x, step);
      }
  }

  lemma InterruptKeepsSleep(x: Sleepers)
    requires Inv(x.disk) && SleepOk(x) && Enabled(x.disk, Interrupt)
    ensures SleepOk(After(x, Do(Interrupt)))
  {
    forall p | p in x.wanting || p in x.waiting
      ensures var id := x.disk.used[x.disk.usedIdx % NUM]; var t := Apply(x.disk, Interrupt);
        && IsDesc(id) && IsCall(t, p) && t.free == x.disk.free && t.calls[p].stage == x.disk.calls[p].stage
        && (t.calls[p] != x.disk.calls[p] ==> x.disk.calls[p].b == x.disk.info[id].b)
    {
      InterruptWakes(x.disk, p);
    }
  }

  lemma DriverKeepsSleep(x: Sleepers, step: Step)
    requires Inv(x.disk) && SleepOk(x) && MayTurn(x, Do(step))
    requires step.Modify? || step.Begin? || step.Submit? || step.Publish? || step.Return?
    ensures SleepOk(After(x, Do(step)))
  {
  }

  ghost predicate Turns(x: Sleepers, turns: seq<Turn>, y: Sleepers)
    decreases |turns|
  {
    if turns == [] then x == y
    else MayTurn(x, turns[0]) && Turns(After(x, turns[0]), turns[1..], y)
  }

  lemma {:induction false} TurnsKeepSleep(x: Sleepers, turns: seq<Turn>, y: Sleepers)
    requires Inv(x.disk) && !x.disk.panicked && SleepOk(x) && Turns(x, turns, y)
    ensures Inv(y.disk) && !y.disk.panicked && SleepOk(y)
    decreases |turns|
  {
    if turns != [] {
      TurnKeepsSleep(x, turns[0]);
      if turns[0].Do? {
        StepKeepsInv(x.disk, turns[0].step);
      }
      TurnsKeepSleep(After(x, turns[0]), turns[1..], y);
    }
  }

  /**
   No lost wakeup, in every interleaving: as long as a process is asleep on &disk.free[0] there are not three
   free descriptors, and as long as one is asleep on its buffer the interrupt has yet to see its request.
   */
  lemma NoLostWakeup(s: State, turns: seq<Turn>, x: Sleepers)
    requires Initial(s) && Turns(Sleepers(s, {}, {}), turns, x)
    ensures Tables(x.disk)
    ensures forall p :: p in x.wanting ==>
      && IsCall(x.disk, p) && x.disk.calls[p].stage.Wanting?
      && !exists i, j, k :: 0 <= i < j < k < NUM && x.disk.free[i] && x.disk.free[j] && x.disk.free[k]
    ensures forall p :: p in x.waiting ==>
      && IsCall(x.disk, p) && x.disk.calls[p].stage.Waiting?
      && 0 <= x.disk.calls[p].b < |x.disk.busy| && x.disk.busy[x.disk.calls[p].b]
  {
    Reachable(s, [], s);
    TurnsKeepSleep(Sleepers(s, {}, {}), turns, x);
    forall p | p in x.wanting
      ensures !exists i, j, k :: 0 <= i < j < k < NUM && x.disk.free[i] && x.disk.free[j] && x.disk.free[k]
    {
      forall i, j, k | 0 <= i < j < k < NUM && x.disk.free[i] && x.disk.free[j]
        ensures !x.disk.free[k]
      {
        if x.disk.free[k] {
          ThreeWhenFree(x.disk.free, i, j, k);
        }
      }
    }
    forall p | p in x.waiting
      ensures 0 <= x.disk.calls[p].b < |x.disk.busy| && x.disk.busy[x.disk.calls[p].b]
    {
      assert CallOk(x.disk, p);
    }
  }
}
