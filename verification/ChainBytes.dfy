/** The bytes of a file: the concatenation of the clusters of its chain. */
module ChainBytes {
  import opened LittleEndian
  import opened Sequences
  import opened BlockCaches
  import opened FatVolumes
  import opened FatChains
  import opened FileSystems

  /** How many bytes the chain `cs` has room for. */
  function Capacity(g: Geometry, cs: seq<nat>): nat {
    |cs| * g.ClusterSize()
  }

  /** All clusters of `cs` are data clusters, each listed once. */
  ghost predicate InData(g: Geometry, cs: seq<nat>) {
    NoDuplicates(cs) && (forall i :: 0 <= i < |cs| ==> 2 <= cs[i] < g.Clusters())
  }

  /** The number in the chain of the cluster that holds byte `k`. */
  function ClusterIndex(g: Geometry, k: nat): nat
    requires g.perCluster > 0
  {
    k / g.ClusterSize()
  }

  /** The block of that cluster. */
  function BlockIndex(g: Geometry, k: nat): nat
    requires g.perCluster > 0
  {
    k % g.ClusterSize() / BLOCK_SIZE
  }

  /** Byte `k` of the chain. */
  ghost function ByteAt(g: Geometry, d: Blocks, cs: seq<nat>, k: nat): Byte
    requires g.perCluster > 0 && k < Capacity(g, cs) && InData(g, cs)
  {
    ChainIndex(g, |cs|, k);
    var b := ClusterBlock(g, cs[ClusterIndex(g, k)], BlockIndex(g, k));
    if b in d then d[b][k % BLOCK_SIZE] else 0
  }

  lemma ChainIndex(g: Geometry, n: nat, k: nat)
    requires g.perCluster > 0 && k < n * g.ClusterSize()
    ensures ClusterIndex(g, k) < n && BlockIndex(g, k) < g.perCluster
  {
    DivBelow(k, n, g.ClusterSize());
    DivBelow(k % g.ClusterSize(), g.perCluster, BLOCK_SIZE);
  }

  lemma DivBelow(k: nat, n: nat, size: nat)
    requires size > 0 && k < n * size
    ensures k / size < n
  {
    DivMulBelow(k, size);
    if k / size >= n {
      MulMonotone(n, k / size, size);
    }
  }

  lemma DivModUnique(k: nat, size: nat, q: nat, r: nat)
    requires size > 0 && k == q * size + r && r < size
    ensures k / size == q && k % size == r
  {
    if k / size < q {
      MulMonotone(k / size + 1, q, size);
    } else if k / size > q {
      MulMonotone(q + 1, k / size, size);
    }
  }

  /** The bytes of block `j` of cluster number `ci` of a chain. */
  lemma BlockPosition(g: Geometry, ci: nat, j: nat, k: nat)
    requires g.perCluster > 0 && j < g.perCluster
    requires ci * g.ClusterSize() + j * BLOCK_SIZE <= k < ci * g.ClusterSize() + j * BLOCK_SIZE + BLOCK_SIZE
    ensures ClusterIndex(g, k) == ci && BlockIndex(g, k) == j
    ensures k % BLOCK_SIZE == k - (ci * g.ClusterSize() + j * BLOCK_SIZE)
  {
    var r := k - ci * g.ClusterSize();
    MulMonotone(j + 1, g.perCluster, BLOCK_SIZE);
    DivModUnique(k, g.ClusterSize(), ci, r);
    DivModUnique(r, BLOCK_SIZE, j, r - j * BLOCK_SIZE);
    assert k == (ci * g.perCluster + j) * BLOCK_SIZE + (r - j * BLOCK_SIZE);
    DivModUnique(k, BLOCK_SIZE, ci * g.perCluster + j, r - j * BLOCK_SIZE);
  }

  /** Reading the block where bytes of the chain lie. */
  lemma ByteInBlock(g: Geometry, d: Blocks, cs: seq<nat>, ci: nat, j: nat, k: nat)
    requires g.perCluster > 0 && InData(g, cs) && ci < |cs| && j < g.perCluster
    requires ci * g.ClusterSize() + j * BLOCK_SIZE <= k < ci * g.ClusterSize() + j * BLOCK_SIZE + BLOCK_SIZE
    requires ClusterBlock(g, cs[ci], j) in d
    ensures k < Capacity(g, cs)
    ensures ByteAt(g, d, cs, k) == d[ClusterBlock(g, cs[ci], j)][k - (ci * g.ClusterSize() + j * BLOCK_SIZE)]
  {
    hide ClusterIndex, BlockIndex;
    WithinCapacity(g, |cs|, ci, j, k);
    BlockPosition(g, ci, j, k);
  }

  lemma WithinCapacity(g: Geometry, n: nat, ci: nat, j: nat, k: nat)
    requires ci < n && j < g.perCluster
    requires ci * g.ClusterSize() + j * BLOCK_SIZE <= k < ci * g.ClusterSize() + j * BLOCK_SIZE + BLOCK_SIZE
    ensures k < n * g.ClusterSize()
  {
    MulMonotone(j + 1, g.perCluster, BLOCK_SIZE);
    MulMonotone(ci + 1, n, g.ClusterSize());
    assert (ci + 1) * g.ClusterSize() == ci * g.ClusterSize() + g.ClusterSize();
  }

  /** Writing part of that block changes those bytes of the chain and no other. */
  lemma WriteShows(g: Geometry, d: Blocks, cs: seq<nat>, ci: nat, j: nat, from: nat, bytes: seq<Byte>, k: nat)
    requires g.perCluster > 0 && InData(g, cs) && ci < |cs| && j < g.perCluster && k < Capacity(g, cs)
    requires ClusterBlock(g, cs[ci], j) in d && from + |bytes| <= BLOCK_SIZE
    ensures var b := ClusterBlock(g, cs[ci], j);
            var start := ci * g.ClusterSize() + j * BLOCK_SIZE + from;
            ByteAt(g, d[b := Splice(d[b], from, bytes)], cs, k) ==
            if start <= k < start + |bytes| then bytes[k - start] else ByteAt(g, d, cs, k)
  {
    hide ClusterIndex, BlockIndex, ClusterBlock, Geometry.ClusterSize, Capacity;
    var b := ClusterBlock(g, cs[ci], j);
    var left := ci * g.ClusterSize() + j * BLOCK_SIZE;
    CapacityIndex(g, cs, k);
    var ci', j' := ClusterIndex(g, k), BlockIndex(g, k);
    if ci' == ci && j' == j {
      BlockStart(g, k);
      ByteInBlock(g, d, cs, ci, j, k);
      ByteInBlock(g, d[b := Splice(d[b], from, bytes)], cs, ci, j, k);
    } else {
      ClusterBlocksApart(g, cs[ci], j, cs[ci'], j');
      assert ci != ci' ==> cs[ci] != cs[ci'];
      if left + from <= k < left + from + |bytes| {
        BlockPosition(g, ci, j, k);
      }
    }
  }

  lemma BlockStart(g: Geometry, k: nat)
    requires g.perCluster > 0
    ensures var left := ClusterIndex(g, k) * g.ClusterSize() + BlockIndex(g, k) * BLOCK_SIZE;
            left <= k < left + BLOCK_SIZE
  {
    DivMulBelow(k, g.ClusterSize());
    DivMulBelow(k % g.ClusterSize(), BLOCK_SIZE);
    assert k == k / g.ClusterSize() * g.ClusterSize() + k % g.ClusterSize();
  }

  /** A chain whose clusters kept their data has the bytes it had. */
  lemma BytesKept(g: Geometry, d: Blocks, d': Blocks, touched: set<nat>, cs: seq<nat>, k: nat)
    requires g.Ok() && DataKept(g, d, d', touched) && InData(g, cs) && k < Capacity(g, cs)
    requires Elements(cs) !! touched
    ensures ByteAt(g, d', cs, k) == ByteAt(g, d, cs, k)
  {
    hide ClusterIndex, BlockIndex, ClusterBlock, Capacity, Geometry.Clusters, Geometry.ClusterSize;
    CapacityIndex(g, cs, k);
    var c := cs[ClusterIndex(g, k)];
    assert c in Elements(cs);
  }

  lemma CapacityIndex(g: Geometry, cs: seq<nat>, k: nat)
    requires g.perCluster > 0 && k < Capacity(g, cs)
    ensures ClusterIndex(g, k) < |cs| && BlockIndex(g, k) < g.perCluster
  {
    ChainIndex(g, |cs|, k);
  }

  /** The bytes of a longer chain: those of the first part, then those of the second. */
  lemma BytesOfJoined(g: Geometry, d: Blocks, a: seq<nat>, b: seq<nat>, k: nat)
    requires g.perCluster > 0 && InData(g, a + b) && InData(g, a) && InData(g, b) && k < Capacity(g, a + b)
    ensures k < Capacity(g, a) ==> ByteAt(g, d, a + b, k) == ByteAt(g, d, a, k)
    ensures k >= Capacity(g, a) ==> k - Capacity(g, a) < Capacity(g, b) && ByteAt(g, d, a + b, k) == ByteAt(g, d, b, k - Capacity(g, a))
  {
    hide ClusterIndex, BlockIndex, ClusterBlock, Geometry.ClusterSize, Capacity, Geometry.Clusters;
    CapacityIndex(g, a + b, k);
    if k < Capacity(g, a) {
      CapacityIndex(g, a, k);
    } else {
      CapacityJoined(g, a, b);
      SecondPart(g, |a|, k);
      var k' := k - Capacity(g, a);
      CapacityIndex(g, b, k');
      assert (a + b)[|a| + ClusterIndex(g, k')] == b[ClusterIndex(g, k')];
    }
  }

  lemma CapacityJoined(g: Geometry, a: seq<nat>, b: seq<nat>)
    ensures Capacity(g, a + b) == Capacity(g, a) + Capacity(g, b)
    ensures Capacity(g, a) == |a| * g.ClusterSize() && Capacity(g, b) == |b| * g.ClusterSize()
  {
    assert |a + b| * g.ClusterSize() == |a| * g.ClusterSize() + |b| * g.ClusterSize();
  }

  /** Where a byte behind the first `m` clusters lies. */
  lemma SecondPart(g: Geometry, m: nat, k: nat)
    requires g.perCluster > 0 && m * g.ClusterSize() <= k
    ensures var k' := k - m * g.ClusterSize();
            && ClusterIndex(g, k) == m + ClusterIndex(g, k') && BlockIndex(g, k) == BlockIndex(g, k')
            && k % BLOCK_SIZE == k' % BLOCK_SIZE
  {
    var size := g.ClusterSize();
    var k' := k - m * size;
    DivMulBelow(k', size);
    assert k' == k' / size * size + k' % size;
    assert (m + k' / size) * size == m * size + k' / size * size;
    DivModUnique(k, size, m + k' / size, k' % size);
    assert m * size == m * g.perCluster * BLOCK_SIZE;
    SameInBlock(k', m * g.perCluster);
  }

  lemma SameInBlock(k: nat, n: nat)
    ensures (n * BLOCK_SIZE + k) % BLOCK_SIZE == k % BLOCK_SIZE
  {
    DivModUnique(n * BLOCK_SIZE + k, BLOCK_SIZE, n + k / BLOCK_SIZE, k % BLOCK_SIZE);
  }

  /** Cleared clusters read as zeros. */
  lemma ZeroedBytes(g: Geometry, d: Blocks, cs: seq<nat>, k: nat)
    requires g.Ok() && InData(g, cs) && k < Capacity(g, cs) && AllZeroed(g, d, cs)
    ensures ByteAt(g, d, cs, k) == 0
  {
    CapacityIndex(g, cs, k);
    var c := cs[ClusterIndex(g, k)];
    assert c in cs;
    assert Zeroed(g, d, c);
  }
}
