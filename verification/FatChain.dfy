/**
 Cluster chains inside a file allocation table, as used by fat_table.c and fat_file.c.

 A table is the sequence of its 32-bit entries; the data clusters are 2..n+2. Files are named by
 numbers. `owner` and `pos` say of every data cluster which file's chain it is on and where.
 */
module FatChain {
  const FREE := 0
  const BAD_SECTOR := 0x0FFF_FFF7
  const EOC_MIN := 0x0FFF_FFF8
  const EOC_MAX := 0x0FFF_FFFF
  const NOBODY := -1

  type Table = seq<int>
  type Chain = seq<int>

  /** fat_table_is_valid_cluster_number. */
  predicate IsClusterNumber(n: int, c: int) {
    1 <= c < n + 2
  }

  predicate IsEoc(c: int) {
    EOC_MIN <= c <= EOC_MAX
  }

  /** fat_table_cluster_is_valid: neither end of chain nor bad; 0 passes. */
  predicate IsValid(c: int) {
    !IsEoc(c) && c != BAD_SECTOR
  }

  /** fat_table_get_next_cluster: every entry that is no cluster number reads as end of chain. */
  function GetNext(fat: Table, n: int, c: int): int
    requires 0 <= c < |fat|
  {
    if IsClusterNumber(n, fat[c]) then fat[c] else EOC_MAX
  }

  predicate DataCluster(n: int, c: int) {
    2 <= c < n + 2
  }

  /** The entries of the chain lead from each cluster to the next and end after the last. */
  ghost predicate ChainOk(fat: Table, n: int, chain: Chain) {
    && |fat| >= n + 2
    && (forall i :: 0 <= i < |chain| ==> DataCluster(n, chain[i]))
    && (forall i, j :: 0 <= i < j < |chain| && j == i + 1 ==> fat[chain[i]] == chain[j])
    && (chain != [] ==> fat[chain[|chain| - 1]] >= n + 2 && fat[chain[|chain| - 1]] != BAD_SECTOR)
  }

  /** Every cluster of the chain is registered to f at its position: no repeats, no sharing. */
  ghost predicate Owned(owner: seq<int>, pos: seq<int>, n: int, f: int, chain: Chain) {
    && |owner| == |pos| == n + 2
    && (forall i :: 0 <= i < |chain| ==> DataCluster(n, chain[i]))
    && (forall i :: 0 <= i < |chain| ==> owner[chain[i]] == f && pos[chain[i]] == i)
  }

  /** Every data cluster is free, bad, or at one place of one chain. */
  ghost predicate Accounted(fat: Table, n: int, chains: seq<Chain>, owner: seq<int>, pos: seq<int>) {
    && |fat| >= n + 2 && |owner| == |pos| == n + 2
    && (forall c :: DataCluster(n, c) ==> (owner[c] == NOBODY <==> fat[c] == FREE || fat[c] == BAD_SECTOR))
    && (forall c :: DataCluster(n, c) && owner[c] != NOBODY ==>
          0 <= owner[c] < |chains| && 0 <= pos[c] < |chains[owner[c]]| && chains[owner[c]][pos[c]] == c)
  }

  ghost predicate TableOk(fat: Table, n: int, chains: seq<Chain>, owner: seq<int>, pos: seq<int>) {
    && 0 <= n && n + 2 <= BAD_SECTOR
    && (forall f :: 0 <= f < |chains| ==> ChainOk(fat, n, chains[f]))
    && (forall f :: 0 <= f < |chains| ==> Owned(owner, pos, n, f, chains[f]))
    && Accounted(fat, n, chains, owner, pos)
  }

  /** The marks in a table: what ends a chain, what a cluster is not to be followed from, and what nobody owns. */
  lemma MarksAre(fat: Table, n: int, chains: seq<Chain>, owner: seq<int>, pos: seq<int>, c: int)
    requires TableOk(fat, n, chains, owner, pos)
    ensures IsEoc(c) <==> 0x0FFF_FFF8 <= c <= 0x0FFF_FFFF
    ensures IsValid(c) <==> c < 0x0FFF_FFF7 || c > 0x0FFF_FFFF
    ensures n + 2 <= 0x0FFF_FFF7
    ensures 2 <= c < n + 2 ==>
      ((forall f, i :: 0 <= f < |chains| && 0 <= i < |chains[f]| ==> chains[f][i] != c)
       <==> fat[c] == 0 || fat[c] == 0x0FFF_FFF7)
  {
    if 2 <= c < n + 2 {
      if owner[c] == NOBODY {
        forall f, i | 0 <= f < |chains| && 0 <= i < |chains[f]|
          ensures chains[f][i] != c
        {
          assert Owned(owner, pos, n, f, chains[f]);
        }
      } else {
        assert chains[owner[c]][pos[c]] == c;
      }
    }
  }

  /** Chains are acyclic and disjoint: one cluster is at most one place of one file. */
  lemma ChainsDisjoint(fat: Table, n: int, chains: seq<Chain>, owner: seq<int>, pos: seq<int>, f: int, g: int, i: int,
                       j: int)
    requires TableOk(fat, n, chains, owner, pos) && 0 <= f < |chains| && 0 <= g < |chains|
    requires 0 <= i < |chains[f]| && 0 <= j < |chains[g]| && chains[f][i] == chains[g][j]
    ensures f == g && i == j
  {
    assert Owned(owner, pos, n, f, chains[f]) && Owned(owner, pos, n, g, chains[g]);
  }

  /** A change of the table that leaves chain alone leaves it a chain. */
  lemma ChainAgrees(fat: Table, fat': Table, n: int, chain: Chain)
    requires ChainOk(fat, n, chain) && |fat'| == |fat|
    requires forall i :: 0 <= i < |chain| ==> fat'[chain[i]] == fat[chain[i]]
    ensures ChainOk(fat', n, chain)
  {
  }

  // ------------------------------------------------------------------ extending a chain

  lemma ExtendChain(fat: Table, fat': Table, n: int, chain: Chain, c: int)
    requires ChainOk(fat, n, chain) && chain != [] && DataCluster(n, c) && c !in chain && n + 2 <= BAD_SECTOR
    requires forall i, j :: 0 <= i < j < |chain| ==> chain[i] != chain[j]
    requires fat' == fat[chain[|chain| - 1] := c][c := EOC_MAX]
    ensures ChainOk(fat', n, chain + [c])
  {
    var l := chain + [c];
    assert forall i :: 0 <= i < |chain| ==> l[i] == chain[i] && chain[i] != c;
  }

  lemma ExtendTable(fat: Table, n: int, chains: seq<Chain>, owner: seq<int>, pos: seq<int>, f: int, c: int,
                    fat': Table, chains': seq<Chain>, owner': seq<int>, pos': seq<int>)
    requires TableOk(fat, n, chains, owner, pos) && 0 <= f < |chains| && chains[f] != []
    requires DataCluster(n, c) && fat[c] == FREE
    requires fat' == fat[chains[f][|chains[f]| - 1] := c][c := EOC_MAX]
    requires chains' == chains[f := chains[f] + [c]]
    requires owner' == owner[c := f] && pos' == pos[c := |chains[f]|]
    ensures TableOk(fat', n, chains', owner', pos')
  {
    var chain := chains[f];
    assert Owned(owner, pos, n, f, chain) && ChainOk(fat, n, chain);
    assert c !in chain;
    ExtendChain(fat, fat', n, chain, c);
    ExtendOwned(owner, pos, n, f, chain, c);
    forall g | 0 <= g < |chains| && g != f
      ensures ChainOk(fat', n, chains[g]) && Owned(owner', pos', n, g, chains[g])
    {
      assert Owned(owner, pos, n, g, chains[g]) && ChainOk(fat, n, chains[g]);
      OtherChain(fat, fat', n, owner, pos, f, chain, g, chains[g], c);
    }
    ExtendAccounted(fat, n, chains, owner, pos, f, c);
  }

  lemma ExtendOwned(owner: seq<int>, pos: seq<int>, n: int, f: int, chain: Chain, c: int)
    requires Owned(owner, pos, n, f, chain) && DataCluster(n, c) && c !in chain
    ensures Owned(owner[c := f], pos[c := |chain|], n, f, chain + [c])
  {
    assert forall i :: 0 <= i < |chain| ==> (chain + [c])[i] == chain[i] && chain[i] != c;
  }

  lemma OtherChain(fat: Table, fat': Table, n: int, owner: seq<int>, pos: seq<int>, f: int, chain: Chain, g: int,
                   other: Chain, c: int)
    requires Owned(owner, pos, n, f, chain) && Owned(owner, pos, n, g, other) && f != g && chain != []
    requires ChainOk(fat, n, other) && DataCluster(n, c) && owner[c] != g
    requires fat' == fat[chain[|chain| - 1] := c][c := EOC_MAX]
    ensures ChainOk(fat', n, other) && Owned(owner[c := f], pos[c := |chain|], n, g, other)
  {
    forall i | 0 <= i < |other|
      ensures fat'[other[i]] == fat[other[i]] && other[i] != c
    {
      assert owner[other[i]] == g;
      assert owner[chain[|chain| - 1]] == f;
    }
    ChainAgrees(fat, fat', n, other);
  }

  lemma ExtendAccounted(fat: Table, n: int, chains: seq<Chain>, owner: seq<int>, pos: seq<int>, f: int, c: int)
    requires Accounted(fat, n, chains, owner, pos) && 0 <= f < |chains| && f != NOBODY && n + 2 <= BAD_SECTOR
    requires ChainOk(fat, n, chains[f]) && Owned(owner, pos, n, f, chains[f]) && chains[f] != []
    requires DataCluster(n, c) && fat[c] == FREE
    ensures Accounted(fat[chains[f][|chains[f]| - 1] := c][c := EOC_MAX], n, chains[f := chains[f] + [c]],
                      owner[c := f], pos[c := |chains[f]|])
  {
    assert owner[chains[f][|chains[f]| - 1]] == f;
  }

  // ------------------------------------------------------------------ starting a chain

  lemma CreateTable(fat: Table, n: int, chains: seq<Chain>, owner: seq<int>, pos: seq<int>, c: int,
                    fat': Table, chains': seq<Chain>, owner': seq<int>, pos': seq<int>)
    requires TableOk(fat, n, chains, owner, pos)
    requires DataCluster(n, c) && fat[c] == FREE
    requires fat' == fat[c := EOC_MAX] && chains' == chains + [[c]]
    requires owner' == owner[c := |chains|] && pos' == pos[c := 0]
    ensures TableOk(fat', n, chains', owner', pos')
  {
    forall g | 0 <= g < |chains|
      ensures ChainOk(fat', n, chains[g]) && Owned(owner', pos', n, g, chains[g])
    {
      assert Owned(owner, pos, n, g, chains[g]) && ChainOk(fat, n, chains[g]);
      ChainAgrees(fat, fat', n, chains[g]);
    }
  }

  // ------------------------------------------------------------------ freeing the tail of a chain

  /** c is on f's chain at position lo or later, and before position hi. */
  predicate OnTail(owner: seq<int>, pos: seq<int>, n: int, f: int, lo: int, hi: int, c: int)
    requires |owner| == |pos| == n + 2
  {
    DataCluster(n, c) && owner[c] == f && lo <= pos[c] < hi
  }

  /** fat' is fat with the clusters at positions lo..hi of f's chain freed, and an end put before them. */
  ghost predicate TailFreed(fat: Table, fat': Table, n: int, owner: seq<int>, pos: seq<int>, f: int, chain: Chain,
                            lo: int, hi: int) {
    && |owner| == |pos| == n + 2 && |fat'| == |fat| && 0 <= lo <= hi <= |chain|
    && (forall c :: 0 <= c < |fat| ==>
          fat'[c] == if OnTail(owner, pos, n, f, lo, hi, c) then FREE
                     else if lo > 0 && c == chain[lo - 1] then EOC_MAX else fat[c])
  }

  lemma CutChain(fat: Table, fat': Table, n: int, owner: seq<int>, pos: seq<int>, f: int, chain: Chain, lo: int)
    requires ChainOk(fat, n, chain) && Owned(owner, pos, n, f, chain) && n + 2 <= BAD_SECTOR
    requires TailFreed(fat, fat', n, owner, pos, f, chain, lo, |chain|)
    ensures ChainOk(fat', n, chain[..lo])
  {
    assert forall i :: 0 <= i < lo ==> chain[..lo][i] == chain[i] && pos[chain[i]] == i;
  }

  lemma CutOther(fat: Table, fat': Table, n: int, owner: seq<int>, pos: seq<int>, f: int, chain: Chain, lo: int,
                 g: int, other: Chain)
    requires Owned(owner, pos, n, f, chain) && Owned(owner, pos, n, g, other) && f != g && g != NOBODY
    requires ChainOk(fat, n, other) && |fat| >= n + 2
    requires TailFreed(fat, fat', n, owner, pos, f, chain, lo, |chain|)
    ensures ChainOk(fat', n, other)
  {
    forall i | 0 <= i < |other|
      ensures fat'[other[i]] == fat[other[i]]
    {
      assert owner[other[i]] == g;
      assert lo > 0 ==> owner[chain[lo - 1]] == f;
    }
    ChainAgrees(fat, fat', n, other);
  }

  /** owner' forgets the freed clusters. */
  ghost predicate OwnersCut(owner: seq<int>, owner': seq<int>, pos: seq<int>, n: int, f: int, lo: int, hi: int) {
    && |owner| == |owner'| == |pos| == n + 2
    && (forall c :: 0 <= c < n + 2 ==>
          owner'[c] == if OnTail(owner, pos, n, f, lo, hi, c) then NOBODY else owner[c])
  }

  lemma CutTable(fat: Table, n: int, chains: seq<Chain>, owner: seq<int>, pos: seq<int>, f: int, lo: int,
                 fat': Table, owner': seq<int>)
    requires TableOk(fat, n, chains, owner, pos) && 0 <= f < |chains| && 0 <= lo <= |chains[f]|
    requires TailFreed(fat, fat', n, owner, pos, f, chains[f], lo, |chains[f]|)
    requires OwnersCut(owner, owner', pos, n, f, lo, |chains[f]|)
    ensures TableOk(fat', n, chains[f := chains[f][..lo]], owner', pos)
  {
    var chain := chains[f];
    assert Owned(owner, pos, n, f, chain) && ChainOk(fat, n, chain);
    CutChain(fat, fat', n, owner, pos, f, chain, lo);
    assert forall i :: 0 <= i < lo ==> chain[..lo][i] == chain[i];
    assert Owned(owner', pos, n, f, chain[..lo]);
    forall g | 0 <= g < |chains| && g != f
      ensures ChainOk(fat', n, chains[g]) && Owned(owner', pos, n, g, chains[g])
    {
      assert Owned(owner, pos, n, g, chains[g]) && ChainOk(fat, n, chains[g]);
      CutOther(fat, fat', n, owner, pos, f, chain, lo, g, chains[g]);
    }
    CutAccounted(fat, n, chains, owner, pos, f, lo, fat', owner');
  }

  lemma CutAccounted(fat: Table, n: int, chains: seq<Chain>, owner: seq<int>, pos: seq<int>, f: int, lo: int,
                     fat': Table, owner': seq<int>)
    requires Accounted(fat, n, chains, owner, pos) && 0 <= f < |chains| && 0 <= lo <= |chains[f]| && f != NOBODY
    requires Owned(owner, pos, n, f, chains[f])
    requires TailFreed(fat, fat', n, owner, pos, f, chains[f], lo, |chains[f]|)
    requires OwnersCut(owner, owner', pos, n, f, lo, |chains[f]|)
    ensures Accounted(fat', n, chains[f := chains[f][..lo]], owner', pos)
  {
    var chains' := chains[f := chains[f][..lo]];
    forall c | DataCluster(n, c)
      ensures owner'[c] == NOBODY <==> fat'[c] == FREE || fat'[c] == BAD_SECTOR
      ensures owner'[c] != NOBODY ==>
        0 <= owner'[c] < |chains'| && 0 <= pos[c] < |chains'[owner'[c]]| && chains'[owner'[c]][pos[c]] == c
    {
      if lo > 0 && c == chains[f][lo - 1] {
        assert owner[c] == f && pos[c] == lo - 1;
      }
    }
  }
}
