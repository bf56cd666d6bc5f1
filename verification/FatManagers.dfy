/** The manager of the file allocation table and the cluster vector of a file
    (crates/fat32/src/fat.rs), over the block cache. */
module FatManagers {
  import opened LittleEndian
  import opened Options
  import opened Sequences
  import opened BlockCaches
  import opened FatVolumes
  import opened FatChains

  /** `cluster & CLUSTER_MASK`. */
  function Masked(cluster: nat): nat {
    cluster % (CLUSTER_MASK + 1)
  }

  lemma AheadInFat(g: Geometry, c: nat)
    requires g.Ok() && c < g.Clusters()
    ensures EntryBlock(g, c) < g.sectors && c <= CLUSTER_MASK
  {
    EntryInFat(g, c);
  }

  lemma InTable(g: Geometry, d: Blocks, c: nat)
    ensures c in Fat(g, d) <==> c < g.Clusters()
  {
  }

  lemma MaskedSame(cluster: nat)
    requires cluster <= CLUSTER_MASK
    ensures Masked(cluster) == cluster
  {
  }

  /** `r` is the least free cluster above the cursor. */
  ghost predicate LeastFree(fat: FatTable, start: nat, r: nat) {
    && start < r && r in fat && fat[r] == FREE_CLUSTER
    && (forall c :: start < c < r ==> c in fat && fat[c] != FREE_CLUSTER)
  }

  /** What follows a cluster; a free or reserved entry is not one of a chain. */
  datatype Successor = Next(value: nat) | EndOfChain | NotAChain

  class FATManager {
    const cache: BlockCacheManager
    const geometry: Geometry
    var recycledCluster: seq<nat>

    ghost predicate Valid()
      reads this, cache, cache.device, cache.lru
    {
      && cache.Valid() && geometry.Ok() && geometry.On(cache.device.blocks)
    }

    /** The table on the disk that the users of the cache see. */
    ghost function Table(): FatTable
      reads cache, cache.device
    {
      Fat(geometry, cache.Disk())
    }

    /** `open`. */
    constructor (cache: BlockCacheManager, geometry: Geometry)
      requires cache.Valid() && geometry.Ok() && geometry.On(cache.device.blocks)
      ensures Valid() && this.cache == cache && this.geometry == geometry && recycledCluster == []
    {
      this.cache, this.geometry := cache, geometry;
      recycledCluster := [];
    }

    /** `cluster_id_pos`: the block and the offset of an entry. */
    function ClusterIdPos(index: nat): (r: (nat, nat))
      ensures r == (EntryBlock(geometry, index), EntryOffset(index))
    {
      EntryPosition(geometry, index);
      var offset := index * 4 + geometry.Fat1Offset();
      (offset / BLOCK_SIZE, offset % BLOCK_SIZE)
    }

    method ReadEntry(cluster: nat) returns (v: nat)
      requires Valid() && cluster < geometry.Clusters()
      modifies cache.Repr()
      ensures Valid() && fresh(cache.Repr() - old(cache.Repr())) && cache.Disk() == old(cache.Disk())
      ensures cluster in Table() && v == Table()[cluster]
    {
      EntryInFat(geometry, cluster);
      var pos := ClusterIdPos(cluster);
      var b := cache.ReadBlock(pos.0);
      v := Get(b, pos.1, 4);
    }

    /** `get_next_cluster`: the cluster after `cluster`, unless it is the last one.  A free or reserved entry is a
        panic. */
    method GetNextCluster(cluster: nat) returns (next: Successor)
      requires Valid() && cluster in Table()
      modifies cache.Repr()
      ensures Valid() && fresh(cache.Repr() - old(cache.Repr())) && cache.Disk() == old(cache.Disk())
      ensures next.NotAChain? <==> Table()[cluster] < 2
      ensures next.EndOfChain? <==> Table()[cluster] >= END_OF_CLUSTER
      ensures next.Next? ==> next.value == Table()[cluster]
    {
      var v := ReadEntry(cluster);
      if v < 2 {
        return NotAChain;
      }
      next := if v >= END_OF_CLUSTER then EndOfChain else Next(v);
    }

    method SetNextCluster(cluster: nat, next: nat)
      requires Valid() && cluster < geometry.Clusters() && next < 0x1_0000_0000
      modifies cache.Repr()
      ensures Valid() && fresh(cache.Repr() - old(cache.Repr()))
      ensures Table() == old(Table())[cluster := next]
      ensures EntryBlock(geometry, cluster) in old(cache.Disk()) && cache.Disk() == WithEntry(geometry, old(cache.Disk()), cluster, next)
    {
      hide Logical, CacheOk, Fat;
      EntryInFat(geometry, cluster);
      cache.SameBlocks();
      SetEntry(geometry, cache.Disk(), cluster, next);
      var pos := ClusterIdPos(cluster);
      cache.ModifyBlock(pos.0, pos.1, ToBytes(next, 4));
    }

    /** The entries of one block of the table, from the entry of `first` on. */
    method ScanBlock(buffer: Block, first: nat, offset: nat, ghost startFrom: nat, ghost ahead: nat, ghost d: Blocks)
      returns (cluster: nat, done: bool)
      requires geometry.Ok() && geometry.On(d) && startFrom < first <= ahead < geometry.Clusters()
      requires EntryBlock(geometry, first) in d && buffer == d[EntryBlock(geometry, first)] && offset == EntryOffset(first)
      requires ahead in Fat(geometry, d) && Fat(geometry, d)[ahead] == FREE_CLUSTER
      requires forall c :: startFrom < c < first ==> c in Fat(geometry, d) && Fat(geometry, d)[c] != FREE_CLUSTER
      ensures first <= cluster <= ahead && (done || first < cluster)
      ensures forall c :: startFrom < c < cluster ==> c in Fat(geometry, d) && Fat(geometry, d)[c] != FREE_CLUSTER
      ensures done ==> cluster in Fat(geometry, d) && Fat(geometry, d)[cluster] == FREE_CLUSTER
    {
      hide Fat, Get, EntryBlock, EntryOffset, Geometry.Ok, Geometry.On;
      cluster, done := first, false;
      var i := offset;
      while i < BLOCK_SIZE
        invariant offset <= i <= BLOCK_SIZE && i % 4 == 0
        invariant first <= cluster <= ahead && cluster - first == (i - offset) / 4
        invariant forall c :: startFrom < c < cluster ==> c in Fat(geometry, d) && Fat(geometry, d)[c] != FREE_CLUSTER
        invariant !done
      {
        ScannedEntry(geometry, d, buffer, first, cluster, i, ahead);
        if Get(buffer, i, 4) == FREE_CLUSTER {
          done := true;
          break;
        }
        cluster := cluster + 1;
        i := i + 4;
      }
    }

    /** `find_blank_cluster`: block by block, forward from the cursor, without an end. */
    method FindBlankCluster(startFrom: nat) returns (cluster: nat)
      requires Valid()
      requires exists c :: startFrom < c && c in Table() && Table()[c] == FREE_CLUSTER
      modifies cache.Repr()
      ensures Valid() && fresh(cache.Repr() - old(cache.Repr())) && cache.Disk() == old(cache.Disk())
      ensures LeastFree(Table(), startFrom, cluster)
    {
      hide Logical, CacheOk, BlockCacheManager.Valid, BlockCacheManager.Disk, EntryBlock, EntryOffset, Fat, Get, FATManager.ClusterIdPos,
        Masked, Geometry.Clusters, Geometry.FatEntries;
      ghost var ahead :| startFrom < ahead && ahead in Table() && Table()[ahead] == FREE_CLUSTER;
      ghost var fat, d := Table(), cache.Disk();
      cache.SameBlocks();
      InTable(geometry, d, ahead);
      cluster := startFrom + 1;
      var done := false;
      while !done
        invariant Valid() && fresh(cache.Repr() - old(cache.Repr())) && cache.Disk() == old(cache.Disk())
        invariant startFrom < cluster <= ahead
        invariant forall c :: startFrom < c < cluster ==> c in fat && fat[c] != FREE_CLUSTER
        invariant done ==> cluster in fat && fat[cluster] == FREE_CLUSTER
        decreases ahead - cluster, !done
      {
        var pos := ClusterIdPos(cluster);
        AheadInFat(geometry, cluster);
        var buffer := cache.ReadBlock(pos.0);
        cluster, done := ScanBlock(buffer, cluster, pos.1, startFrom, ahead, d);
      }
      AheadInFat(geometry, cluster);
      MaskedSame(cluster);
      cluster := Masked(cluster);
    }

    /** `get_blank_cluster`: recycled clusters first, in the order they were given back. */
    method GetBlankCluster(startFrom: nat) returns (cluster: nat)
      requires Valid() && (recycledCluster != [] ==> recycledCluster[0] <= CLUSTER_MASK)
      requires recycledCluster == [] ==>
                 exists c :: startFrom < c && c in Table() && Table()[c] == FREE_CLUSTER
      modifies this, cache.Repr()
      ensures Valid() && fresh(cache.Repr() - old(cache.Repr())) && cache.Disk() == old(cache.Disk())
      ensures old(recycledCluster) != [] ==> old(recycledCluster) == [cluster] + recycledCluster
      ensures old(recycledCluster) == [] ==>
                recycledCluster == [] && LeastFree(Table(), startFrom, cluster)
    {
      if recycledCluster != [] {
        cluster := Masked(recycledCluster[0]);
        recycledCluster := recycledCluster[1..];
      } else {
        cluster := FindBlankCluster(startFrom);
      }
    }

    method Recycle(cluster: nat)
      modifies this
      ensures recycledCluster == old(recycledCluster) + [cluster]
    {
      recycledCluster := recycledCluster + [cluster];
    }

    /** Cluster number `index` of the chain `cs`. */
    method GetClusterAt(startCluster: nat, index: nat, ghost cs: seq<nat>) returns (r: Option<nat>)
      requires Valid() && Chain(Table(), cs) && cs[0] == startCluster
      modifies cache.Repr()
      ensures Valid() && fresh(cache.Repr() - old(cache.Repr())) && cache.Disk() == old(cache.Disk())
      ensures r == if index < |cs| then Some(cs[index]) else None
    {
      hide Logical, CacheOk, Fat, BlockCacheManager.Valid;
      var cluster := startCluster;
      var i := 0;
      while i < index
        invariant Valid() && fresh(cache.Repr() - old(cache.Repr())) && cache.Disk() == old(cache.Disk())
        invariant 0 <= i <= index && i < |cs| && cluster == cs[i]
      {
        ChainEntry(Table(), cs, i);
        var next := GetNextCluster(cluster);
        if next.EndOfChain? {
          return None;
        }
        cluster := next.value;
        i := i + 1;
      }
      return Some(Masked(cluster));
    }

    /** The last cluster of the chain `cs`. */
    method ClusterChainTail(startCluster: nat, ghost cs: seq<nat>) returns (r: nat)
      requires Valid() && Chain(Table(), cs) && cs[0] == startCluster
      modifies cache.Repr()
      ensures Valid() && fresh(cache.Repr() - old(cache.Repr())) && cache.Disk() == old(cache.Disk())
      ensures r == cs[|cs| - 1]
    {
      hide Logical, CacheOk, Fat, BlockCacheManager.Valid;
      var cluster := startCluster;
      ghost var i := 0;
      while true
        invariant Valid() && fresh(cache.Repr() - old(cache.Repr())) && cache.Disk() == old(cache.Disk())
        invariant 0 <= i < |cs| && cluster == cs[i]
        decreases |cs| - i
      {
        ChainEntry(Table(), cs, i);
        var next := GetNextCluster(cluster);
        if next.EndOfChain? {
          return Masked(cluster);
        }
        cluster := next.value;
        i := i + 1;
      }
    }

    /** All clusters of the chain `cs`. */
    method GetAllClusterId(startCluster: nat, ghost cs: seq<nat>) returns (r: seq<nat>)
      requires Valid() && Chain(Table(), cs) && cs[0] == startCluster
      modifies cache.Repr()
      ensures Valid() && fresh(cache.Repr() - old(cache.Repr())) && cache.Disk() == old(cache.Disk())
      ensures r == cs
    {
      hide Logical, CacheOk, Fat, BlockCacheManager.Valid;
      var cluster := startCluster;
      r := [];
      while true
        invariant Valid() && fresh(cache.Repr() - old(cache.Repr())) && cache.Disk() == old(cache.Disk())
        invariant |r| < |cs| && cluster == cs[|r|] && r == cs[..|r|]
        decreases |cs| - |r|
      {
        ChainEntry(Table(), cs, |r|);
        r := r + [Masked(cluster)];
        assert r == cs[..|r|];
        var next := GetNextCluster(cluster);
        if next.EndOfChain? {
          return;
        }
        cluster := next.value;
      }
    }

    method ClusterChainLen(startCluster: nat, ghost cs: seq<nat>) returns (len: nat)
      requires Valid() && Chain(Table(), cs) && cs[0] == startCluster
      modifies cache.Repr()
      ensures Valid() && fresh(cache.Repr() - old(cache.Repr())) && cache.Disk() == old(cache.Disk())
      ensures len == |cs|
    {
      hide Logical, CacheOk, Fat, BlockCacheManager.Valid;
      var cluster := startCluster;
      len := 0;
      while true
        invariant Valid() && fresh(cache.Repr() - old(cache.Repr())) && cache.Disk() == old(cache.Disk())
        invariant len < |cs| && cluster == cs[len]
        decreases |cs| - len
      {
        ChainEntry(Table(), cs, len);
        len := len + 1;
        var next := GetNextCluster(cluster);
        if next.EndOfChain? {
          return;
        }
        cluster := next.value;
      }
    }
  }

  lemma ScannedEntry(g: Geometry, d: Blocks, buffer: Block, first: nat, cluster: nat, i: nat, ahead: nat)
    requires g.Ok() && g.On(d) && cluster <= ahead < g.Clusters()
    requires EntryBlock(g, first) in d && buffer == d[EntryBlock(g, first)]
    requires first <= cluster && i < BLOCK_SIZE && EntryOffset(first) <= i && i % 4 == 0
    requires cluster - first == (i - EntryOffset(first)) / 4
    ensures i + 4 <= BLOCK_SIZE && cluster in Fat(g, d) && Get(buffer, i, 4) == Fat(g, d)[cluster]
  {
    SameBlock(g, first, cluster, i);
    EntryInFat(g, cluster);
  }

  /** Scanning on inside a block of the table. */
  lemma SameBlock(g: Geometry, first: nat, cluster: nat, i: nat)
    requires first <= cluster && i < BLOCK_SIZE && EntryOffset(first) <= i && i % 4 == 0
    requires cluster - first == (i - EntryOffset(first)) / 4
    ensures EntryBlock(g, cluster) == EntryBlock(g, first) && EntryOffset(cluster) == i
  {
    var q, r := first / ENTRIES_PER_BLOCK, first % ENTRIES_PER_BLOCK;
    assert first == q * ENTRIES_PER_BLOCK + r;
    assert i == r * 4 + (cluster - first) * 4;
    assert cluster == q * ENTRIES_PER_BLOCK + (r + (cluster - first));
  }

  class ClusterChain {
    const fat: FATManager
    var clusterVec: seq<nat>

    constructor (fat: FATManager, cluster: nat)
      ensures this.fat == fat && clusterVec == if cluster >= 2 then [cluster] else []
    {
      this.fat := fat;
      clusterVec := if cluster >= 2 then [cluster] else [];
    }

    method Refresh(startCluster: nat)
      modifies this
      ensures clusterVec == [startCluster]
    {
      clusterVec := [startCluster];
    }

    method Truncate(newSize: nat)
      modifies this
      ensures clusterVec == old(if newSize < |clusterVec| then clusterVec[..newSize] else clusterVec)
    {
      if newSize < |clusterVec| {
        clusterVec := clusterVec[..newSize];
      }
    }

    /** `generate`: the vector is completed from the table.  Each turn visits a cluster of the chain that was
        not visited before. */
    method Generate(ghost cs: seq<nat>)
      requires fat.Valid()
      requires clusterVec != [] ==> Chain(fat.Table(), cs) && clusterVec <= cs
      modifies this, fat.cache.Repr()
      ensures fat.Valid() && fresh(fat.cache.Repr() - old(fat.cache.Repr())) && fat.cache.Disk() == old(fat.cache.Disk())
      ensures clusterVec == if old(clusterVec) == [] then [] else cs
    {
      hide Logical, CacheOk, BlockCacheManager.Valid, Chain, NoDuplicates;
      if clusterVec == [] {
        return;
      }
      ghost var table := fat.Table();
      while true
        invariant fat.Valid() && fresh(fat.cache.Repr() - old(fat.cache.Repr())) && fat.cache.Disk() == old(fat.cache.Disk())
        invariant clusterVec != [] && clusterVec <= cs
        decreases |cs| - |clusterVec|
      {
        var current := clusterVec[|clusterVec| - 1];
        ChainEntry(table, cs, |clusterVec| - 1);
        EntryPosition(fat.geometry, current);
        EntryInFat(fat.geometry, current);
        var offset := current * 4;
        var block := fat.cache.ReadBlock(fat.geometry.Fat1Offset() / BLOCK_SIZE + offset / BLOCK_SIZE);
        var next := Get(block, offset % BLOCK_SIZE, 4);
        if next >= END_OF_CLUSTER {
          assert clusterVec == cs;
          break;
        }
        clusterVec := clusterVec + [next];
      }
    }
  }
}
