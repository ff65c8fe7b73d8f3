/**
 The descriptor pool of kernel/virtio_disk.c, as the driver's loops change it. `next` fields that
 lead out of the table do not occur in a chain.
 */
module VirtioPool {
  const NUM := 8
  datatype Addr = Null | Ops(i: int) | Data(b: int) | Status(i: int)

  datatype Desc = Desc(addr: Addr, len: int, hasNext: bool, deviceWrites: bool, next: int)

  const EMPTY := Desc(Null, 0, false, false, 0)

  predicate IsDesc(i: int) {
    0 <= i < NUM
  }

  /** The first free descriptor at or after i, -1 if there is none. */
  function FirstFree(free: seq<bool>, i: int): (r: int)
    requires 0 <= i <= |free|
    ensures r == -1 || (i <= r < |free| && free[r])
    ensures forall j :: i <= j < (if r == -1 then |free| else r) ==> !free[j]
    decreases |free| - i
  {
    if i == |free| then -1 else if free[i] then i else FirstFree(free, i + 1)
  }

  /** The three descriptors a request gets; the last is -1 when there are not three. */
  function Three(free: seq<bool>): (r: (int, int, int))
    ensures r.2 != -1 ==>
      0 <= r.0 < r.1 < r.2 < |free| && free[r.0] && free[r.1] && free[r.2]
  {
    var a := FirstFree(free, 0);
    if a == -1 then (-1, -1, -1)
    else
      var b := FirstFree(free[a := false], 0);
      if b == -1 then (a, -1, -1) else (a, b, FirstFree(free[a := false][b := false], 0))
  }

  /** The chain of descriptors that starts at its first element. */
  ghost predicate IsChain(desc: seq<Desc>, chain: seq<int>) {
    && chain != []
    && (forall k :: 0 <= k < |chain| ==> 0 <= chain[k] < |desc|)
    && (forall j, k :: 0 <= j < k < |chain| ==> chain[j] != chain[k])
    && (forall k :: 0 <= k < |chain| ==> (desc[chain[k]].hasNext <==> k + 1 < |chain|))
    && (forall j, k :: 0 <= j < k < |chain| && k == j + 1 ==> desc[chain[j]].next == chain[k])
  }

  class Pool {
    var desc: seq<Desc>
    var free: seq<bool>

    ghost predicate Valid()
      reads this
    {
      |desc| == |free| == NUM
    }

    /** The pool virtio_disk_init leaves. */
    constructor ()
      ensures Valid() && free == seq(NUM, _ => true) && desc == seq(NUM, _ => EMPTY)
    {
      desc, free := seq(NUM, _ => EMPTY), seq(NUM, _ => true);
    }

    /** alloc_desc. */
    method AllocDesc() returns (r: int)
      requires Valid()
      modifies this`free
      ensures Valid() && r == FirstFree(old(free), 0)
      ensures free == if r == -1 then old(free) else old(free)[r := false]
    {
      var i := 0;
      while i < NUM
        invariant 0 <= i <= NUM && free == old(free)
        invariant FirstFree(free, 0) == FirstFree(free, i)
      {
        if free[i] {
          free := free[i := false];
          return i;
        }
        i := i + 1;
      }
      return -1;
    }

    /** free_desc; its two panics are its preconditions. */
    method FreeDesc(i: int)
      requires Valid() && IsDesc(i) && !free[i]
      modifies this
      ensures Valid() && desc == old(desc)[i := EMPTY] && free == old(free)[i := true]
    {
      desc := desc[i := EMPTY];
      free := free[i := true];
    }

    /** free_chain: exactly the descriptors of the chain become free. */
    method FreeChain(i: int, ghost chain: seq<int>)
      requires Valid() && IsChain(desc, chain) && chain[0] == i
      requires forall k :: 0 <= k < |chain| ==> !free[chain[k]]
      modifies this
      ensures Valid()
      ensures forall c :: 0 <= c < NUM ==> free[c] == (c in chain || old(free)[c])
      ensures forall c :: 0 <= c < NUM ==> desc[c] == if c in chain then EMPTY else old(desc)[c]
    {
      var c := i;
      ghost var k := 0;
      var more := true;
      while more
        invariant Valid() && 0 <= k <= |chain| && (more <==> k < |chain|)
        invariant more ==> c == chain[k]
        invariant forall d :: 0 <= d < NUM ==> free[d] == (d in chain[..k] || old(free)[d])
        invariant forall d :: 0 <= d < NUM ==> desc[d] == if d in chain[..k] then EMPTY else old(desc)[d]
        decreases |chain| - k
      {
        assert c !in chain[..k];
        var flag := desc[c].hasNext;
        var nxt := desc[c].next;
        FreeDesc(c);
        assert chain[..k + 1] == chain[..k] + [c];
        k := k + 1;
        if flag {
          c := nxt;
        } else {
          more := false;
        }
      }
      assert chain[..k] == chain;
    }

    /** alloc3_desc: three descriptors, or none and the pool as it was. */
    method Alloc3Desc() returns (idx: seq<int>)
      requires Valid()
      modifies this
      ensures Valid()
      ensures var t := Three(old(free));
        if t.2 == -1 then idx == [] && free == old(free)
        else idx == [t.0, t.1, t.2] && desc == old(desc)
             && free == old(free)[t.0 := false][t.1 := false][t.2 := false]
      ensures idx == [] ==> forall c :: 0 <= c < NUM ==> desc[c] == old(desc)[c] || (desc[c] == EMPTY && free[c])
    {
      idx := [];
      var i := 0;
      while i < 3
        invariant 0 <= i <= 3 && |idx| == i && Valid() && desc == old(desc)
        invariant var t := Three(old(free));
          match i
          case 0 => free == old(free)
          case 1 => t.0 != -1 && idx == [t.0] && free == old(free)[t.0 := false]
          case 2 => t.1 != -1 && idx == [t.0, t.1] && free == old(free)[t.0 := false][t.1 := false]
          case _ => t.2 != -1 && idx == [t.0, t.1, t.2] && free == old(free)[t.0 := false][t.1 := false][t.2 := false]
      {
        var d := AllocDesc();
        if d < 0 {
          Rollback(idx);
          assert free == old(free);
          return [];
        }
        idx := idx + [d];
        i := i + 1;
      }
    }

    /** The inner loop of alloc3_desc. */
    method Rollback(idx: seq<int>)
      requires Valid() && |idx| <= 3
      requires forall j :: 0 <= j < |idx| ==> IsDesc(idx[j]) && !free[idx[j]]
      requires forall j, k :: 0 <= j < k < |idx| ==> idx[j] != idx[k]
      modifies this
      ensures Valid()
      ensures forall c :: 0 <= c < NUM ==> free[c] == (c in idx || old(free)[c])
      ensures forall c :: 0 <= c < NUM ==> desc[c] == if c in idx then EMPTY else old(desc)[c]
    {
      var j := 0;
      while j < |idx|
        invariant 0 <= j <= |idx| && Valid()
        invariant forall c :: 0 <= c < NUM ==> free[c] == (c in idx[..j] || old(free)[c])
        invariant forall c :: 0 <= c < NUM ==> desc[c] == if c in idx[..j] then EMPTY else old(desc)[c]
      {
        assert idx[..j + 1] == idx[..j] + [idx[j]];
        FreeDesc(idx[j]);
        j := j + 1;
      }
      assert idx[..j] == idx;
    }
  }
}
