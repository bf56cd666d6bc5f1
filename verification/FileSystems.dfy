/** Cluster allocation of the mounted volume (crates/fat32/src/fs.rs). */
module FileSystems {
  import opened LittleEndian
  import opened Options
  import opened Sequences
  import opened BlockCaches
  import opened DirEntries
  import opened FatVolumes
  import opened FatChains
  import opened FatManagers
  import opened FatAllocation

  /** Where the FSInfo sector keeps the number of free clusters. */
  const FREE_COUNT_OFFSET: nat := 488

  function ZeroBlock(): Block {
    seq(512, _ => 0)
  }

  /** All blocks of cluster `c` are zero. */
  ghost predicate Zeroed(g: Geometry, d: Blocks, c: nat)
    requires c >= 2
  {
    forall i: nat :: i < g.perCluster ==> ClusterBlock(g, c, i) in d && d[ClusterBlock(g, c, i)] == ZeroBlock()
  }

  /** The data of clusters outside `cs` is what it was. */
  ghost predicate DataKept(g: Geometry, d: Blocks, d': Blocks, cs: set<nat>)
    requires g.perCluster > 0
  {
    && d'.Keys == d.Keys
    && (forall c: nat, i: nat :: 2 <= c < g.Clusters() && c !in cs && i < g.perCluster && ClusterBlock(g, c, i) in d ==>
          d'[ClusterBlock(g, c, i)] == d[ClusterBlock(g, c, i)])
  }

  /** Only blocks before the data region changed. */
  lemma MetaKeepsData(g: Geometry, d: Blocks, d': Blocks, b: nat)
    requires g.Ok() && d'.Keys == d.Keys && b < g.FirstDataSector()
    requires forall e :: e in d && e != b ==> d'[e] == d[e]
    ensures DataKept(g, d, d', {})
    ensures forall c: nat :: 2 <= c < g.Clusters() && Zeroed(g, d, c) ==> Zeroed(g, d', c)
  {
    forall c: nat, i: nat | 2 <= c < g.Clusters() && i < g.perCluster
      ensures ClusterBlock(g, c, i) != b
    {
      ClusterBlockInVolume(g, c, i);
    }
  }

  /** Only the blocks of one cluster changed. */
  lemma ClusterKeepsData(g: Geometry, d: Blocks, d': Blocks, cluster: nat)
    requires g.Ok() && d'.Keys == d.Keys && 2 <= cluster < g.Clusters()
    requires forall b: nat :: b in d && !(g.FirstSectorOfCluster(cluster) <= b < g.FirstSectorOfCluster(cluster) + g.perCluster) ==> d'[b] == d[b]
    ensures DataKept(g, d, d', {cluster}) && Fat(g, d') == Fat(g, d)
  {
    forall c: nat, i: nat | 2 <= c < g.Clusters() && c != cluster && i < g.perCluster
      ensures !(g.FirstSectorOfCluster(cluster) <= ClusterBlock(g, c, i) < g.FirstSectorOfCluster(cluster) + g.perCluster)
    {
      var b := ClusterBlock(g, c, i);
      if g.FirstSectorOfCluster(cluster) <= b < g.FirstSectorOfCluster(cluster) + g.perCluster {
        ClusterBlocksApart(g, c, i, cluster, b - g.FirstSectorOfCluster(cluster));
      }
    }
    FatBeforeData(g, cluster);
    FatFrame(g, d, d');
  }

  lemma FatBeforeData(g: Geometry, cluster: nat)
    requires g.Ok() && cluster >= 2
    ensures g.reserved + g.fatSectors <= g.FirstSectorOfCluster(cluster)
  {
    MulMonotone(1, g.fats, g.fatSectors);
  }

  lemma DataKeptTwice(g: Geometry, d: Blocks, d': Blocks, d'': Blocks, a: set<nat>, b: set<nat>)
    requires g.perCluster > 0 && DataKept(g, d, d', a) && DataKept(g, d', d'', b)
    ensures DataKept(g, d, d'', a + b)
  {
  }

  lemma DataStaysKept(g: Geometry, d: Blocks, d': Blocks, d'': Blocks)
    requires g.perCluster > 0 && DataKept(g, d, d', {}) && DataKept(g, d', d'', {})
    ensures DataKept(g, d, d'', {})
  {
  }

  lemma StaysZeroed(g: Geometry, d: Blocks, d': Blocks, cs: set<nat>, c: nat)
    requires g.Ok() && DataKept(g, d, d', cs) && 2 <= c < g.Clusters() && c !in cs && Zeroed(g, d, c)
    ensures Zeroed(g, d', c)
  {
  }

  class FileSystem {
    const cache: BlockCacheManager
    const geometry: Geometry
    const fat: FATManager
    var freeClusterCnt: nat
    /** The entry of the root directory, which is not on the disk. */
    var rootDirEntry: DirEntry

    ghost predicate Valid()
      reads this, fat, cache, cache.device, cache.lru
    {
      fat.cache == cache && fat.geometry == geometry && fat.Valid()
    }

    ghost function Vol(): Volume
      reads this, fat, cache, cache.device
      requires fat.cache == cache
    {
      Volume(fat.Table(), fat.recycledCluster, freeClusterCnt)
    }

    /** `open`. */
    constructor (fat: FATManager, freeClusterCnt: nat, rootDirEntry: DirEntry)
      requires fat.Valid()
      ensures Valid() && this.rootDirEntry == rootDirEntry && this.fat == fat && cache == fat.cache && geometry == fat.geometry && this.freeClusterCnt == freeClusterCnt
    {
      this.fat, cache, geometry := fat, fat.cache, fat.geometry;
      this.freeClusterCnt, this.rootDirEntry := freeClusterCnt, rootDirEntry;
    }

    /** `set_free_clusters`: in memory, and in the FSInfo sector, which has 32 bits for it. */
    method SetFreeClusters(cnt: nat)
      requires Valid()
      modifies this, cache.Repr()
      ensures Valid() && fresh(cache.Repr() - old(cache.Repr())) && freeClusterCnt == cnt && rootDirEntry == old(rootDirEntry)
      ensures fat.Table() == old(fat.Table()) && DataKept(geometry, old(cache.Disk()), cache.Disk(), {})
      ensures geometry.infoSector in cache.Disk() && Get(cache.Disk()[geometry.infoSector], FREE_COUNT_OFFSET, 4) == cnt % 0x1_0000_0000
    {
      hide Logical, CacheOk, Fat;
      cache.SameBlocks();
      ghost var d := cache.Disk();
      cache.ModifyBlock(geometry.infoSector, FREE_COUNT_OFFSET, ToBytes(cnt % 0x1_0000_0000, 4));
      freeClusterCnt := cnt;
      InfoSectorKeeps(geometry, d, cache.Disk());
      SpliceIsPut(d[geometry.infoSector], FREE_COUNT_OFFSET, 4, cnt % 0x1_0000_0000);
      Pow256Values();
      GetPutSame(d[geometry.infoSector], FREE_COUNT_OFFSET, 4, cnt % 0x1_0000_0000);
    }

    /** `clear_cluster`. */
    method ClearCluster(cluster: nat)
      requires Valid() && 2 <= cluster < geometry.Clusters()
      modifies cache.Repr()
      ensures Valid() && fresh(cache.Repr() - old(cache.Repr())) && fat.Table() == old(fat.Table())
      ensures Zeroed(geometry, cache.Disk(), cluster) && DataKept(geometry, old(cache.Disk()), cache.Disk(), {cluster})
    {
      hide Logical, CacheOk, Fat, BlockCacheManager.Valid, Splice, DataKept, ZeroBlock;
      cache.SameBlocks();
      ghost var d := cache.Disk();
      var first := geometry.FirstSectorOfCluster(cluster);
      var i := 0;
      while i < geometry.perCluster
        invariant i <= geometry.perCluster
        invariant Valid() && fresh(cache.Repr() - old(cache.Repr())) && cache.Disk().Keys == d.Keys
        invariant forall b: nat :: b in d && !(first <= b < first + i) ==> cache.Disk()[b] == d[b]
        invariant forall j: nat :: j < i ==> ClusterBlock(geometry, cluster, j) in d && cache.Disk()[ClusterBlock(geometry, cluster, j)] == ZeroBlock()
      {
        ClusterBlockInVolume(geometry, cluster, i);
        cache.SameBlocks();
        FullSplice(cache.Disk()[first + i]);
        cache.ModifyBlock(first + i, 0, ZeroBlock());
        cache.SameBlocks();
        i := i + 1;
      }
      ClusterKeepsData(geometry, d, cache.Disk(), cluster);
    }

    /** The next cluster of a chain in the making, cleared. */
    method TakeCluster(curr: nat, ghost fat0: FatTable, ghost q0: seq<nat>, ghost d0: Blocks, ghost start: nat, ghost num: nat,
                       ghost cs: seq<nat>) returns (cluster: nat)
      requires Valid() && |cs| < num && curr == Last(cs, start)
      requires Taking(fat0, q0, start, num, cs, fat.Table(), fat.recycledCluster)
      requires QueueOk(fat0, q0) && Room(fat0, q0, start, num) && ReservedEntries(fat0)
      requires Filling(geometry, d0, cache.Disk(), cs) && Handing(fat0, q0, start, cs, fat.Table(), fat.recycledCluster)
      modifies fat, cache.Repr()
      ensures Valid() && fresh(cache.Repr() - old(cache.Repr())) && fat.Table() == old(fat.Table())
      ensures Taking(fat0, q0, start, num, cs + [cluster], Hang(fat.Table(), cs, cluster), fat.recycledCluster)
      ensures Handing(fat0, q0, start, cs + [cluster], Hang(fat.Table(), cs, cluster), fat.recycledCluster)
      ensures Filling(geometry, d0, cache.Disk(), cs + [cluster]) && cluster < geometry.Clusters()
    {
      hide Logical, CacheOk, Fat, BlockCacheManager.Valid, Taking, Filling, Room, ReservedEntries, LeastFree, Hang, QueueOk, Handing;
      ghost var fat1, q, d := fat.Table(), fat.recycledCluster, cache.Disk();
      TableKeys(geometry, d);
      BeforeTake(fat0, q0, start, num, cs, fat1, q);
      cluster := fat.GetBlankCluster(curr);
      TakeAny(fat0, q0, start, num, cs, fat1, q, cluster, fat.recycledCluster);
      HandMore(fat0, q0, start, cs, fat1, q, cluster, fat.recycledCluster);
      ClearCluster(cluster);
      FillOne(geometry, d0, d, cs, cluster, cache.Disk());
    }

    /** The end of a chain in the making. */
    method FinishChain(curr: nat, ghost fat0: FatTable, ghost q0: seq<nat>, ghost d0: Blocks, ghost start: nat, ghost num: nat,
                       ghost cs: seq<nat>)
      requires Valid() && cs != [] && curr == Last(cs, start) && curr < geometry.Clusters()
      requires Taking(fat0, q0, start, num, cs, fat.Table(), fat.recycledCluster)
      requires QueueOk(fat0, q0) && Filling(geometry, d0, cache.Disk(), cs)
      modifies cache.Repr()
      ensures Valid() && fresh(cache.Repr() - old(cache.Repr()))
      ensures Allocated(fat0, q0, cs, fat.Table(), fat.recycledCluster) && Filling(geometry, d0, cache.Disk(), cs)
    {
      hide Logical, CacheOk, Fat, BlockCacheManager.Valid, Taking, Filling, QueueOk, Allocated, DataKept, WithEntry;
      ghost var d, fat1 := cache.Disk(), fat.Table();
      fat.SetNextCluster(curr, END_OF_CLUSTER);
      EntryKeepsFilling(geometry, d0, d, cs, curr, END_OF_CLUSTER);
      FinishTaking(fat0, q0, start, num, cs, fat1, fat.recycledCluster);
    }

    /** `alloc_cluster_chain`: `num` clusters, cleared and linked, or nothing if fewer are counted as free. */
    method AllocClusterChain(num: nat, startCluster: nat) returns (r: Option<nat>, ghost cs: seq<nat>)
      requires Valid() && num > 0
      requires QueueOk(fat.Table(), fat.recycledCluster) && ReservedEntries(fat.Table())
      requires num <= freeClusterCnt ==> Room(fat.Table(), fat.recycledCluster, startCluster, num)
      modifies this, fat, cache.Repr()
      ensures Valid() && fresh(cache.Repr() - old(cache.Repr()))
      ensures (r == None <==> old(freeClusterCnt) < num) && rootDirEntry == old(rootDirEntry)
      ensures r == None ==> Vol() == old(Vol()) && cache.Disk() == old(cache.Disk())
      ensures r.Some? ==>
                && |cs| == num && r.value == cs[0] && HandedOut(old(fat.Table()), old(fat.recycledCluster), startCluster, cs)
                && Allocated(old(fat.Table()), old(fat.recycledCluster), cs, fat.Table(), fat.recycledCluster)
                && freeClusterCnt == old(freeClusterCnt) - num
                && Filling(geometry, old(cache.Disk()), cache.Disk(), cs)
    {
      hide Logical, CacheOk, Fat, BlockCacheManager.Valid, Taking, Filling, Room, ReservedEntries, QueueOk, Allocated, DataKept, WithEntry, Handing;
      ghost var fat0, q0, d0 := fat.Table(), fat.recycledCluster, cache.Disk();
      cs := [];
      var free := freeClusterCnt;
      if free < num {
        return None, [];
      }
      StartTaking(fat0, q0, startCluster, num);
      StartFilling(geometry, d0);
      StartHanding(fat0, q0, startCluster);
      var first := TakeCluster(startCluster, fat0, q0, d0, startCluster, num, []);
      assert [] + [first] == [first];
      cs := [first];
      var curr := first;
      var i := 1;
      while i < num
        invariant 1 <= i <= num && |cs| == i && curr == cs[i - 1] && first == cs[0]
        invariant Valid() && fresh(cache.Repr() - old(cache.Repr())) && freeClusterCnt == old(freeClusterCnt) && rootDirEntry == old(rootDirEntry)
        invariant Taking(fat0, q0, startCluster, num, cs, fat.Table(), fat.recycledCluster)
        invariant Handing(fat0, q0, startCluster, cs, fat.Table(), fat.recycledCluster)
        invariant Filling(geometry, d0, cache.Disk(), cs) && curr < geometry.Clusters()
      {
        var cluster := TakeCluster(curr, fat0, q0, d0, startCluster, num, cs);
        ghost var d := cache.Disk();
        fat.SetNextCluster(curr, cluster);
        cs := cs + [cluster];
        EntryKeepsFilling(geometry, d0, d, cs, curr, cluster);
        curr := cluster;
        i := i + 1;
      }
      HandedAll(fat0, q0, startCluster, cs, fat.Table(), fat.recycledCluster);
      FinishChain(curr, fat0, q0, d0, startCluster, num, cs);
      ghost var d := cache.Disk();
      SetFreeClusters(free - num);
      KeptFilling(geometry, d0, d, cs, cache.Disk());
      return Some(first), cs;
    }

    /** `dealloc_cluster`: the clusters are freed and queued in their order. */
    method DeallocCluster(clusters: seq<nat>)
      requires Valid() && forall c :: c in clusters ==> c in fat.Table()
      modifies this, fat, cache.Repr()
      ensures Valid() && fresh(cache.Repr() - old(cache.Repr()))
      ensures Released(old(fat.Table()), old(fat.recycledCluster), clusters, fat.Table(), fat.recycledCluster)
      ensures freeClusterCnt == old(freeClusterCnt) + |clusters| && rootDirEntry == old(rootDirEntry)
      ensures DataKept(geometry, old(cache.Disk()), cache.Disk(), {})
    {
      hide Logical, CacheOk, Fat, BlockCacheManager.Valid, Released, DataKept, WithEntry;
      var num := |clusters|;
      ghost var fat0, q0, d0 := fat.Table(), fat.recycledCluster, cache.Disk();
      StartReleasing(geometry, fat0, q0, d0);
      if num == 0 {
        assert clusters == [];
        return;
      }
      var free := freeClusterCnt;
      var i := 0;
      assert clusters[..0] == [];
      while i < num
        invariant 0 <= i <= num
        invariant Valid() && fresh(cache.Repr() - old(cache.Repr())) && freeClusterCnt == old(freeClusterCnt) && rootDirEntry == old(rootDirEntry)
        invariant Released(fat0, q0, clusters[..i], fat.Table(), fat.recycledCluster)
        invariant DataKept(geometry, d0, cache.Disk(), {})
      {
        ghost var d, fat1, q1 := cache.Disk(), fat.Table(), fat.recycledCluster;
        TableKeys(geometry, d);
        ReleasedKeys(fat0, q0, clusters[..i], fat1, q1);
        assert clusters[i] in clusters && clusters[i] in fat1;
        fat.SetNextCluster(clusters[i], FREE_CLUSTER);
        fat.Recycle(clusters[i]);
        ReleaseOne(fat0, q0, clusters, i, fat1, q1);
        EntryKeepsData(geometry, d0, d, clusters[i], FREE_CLUSTER);
        i := i + 1;
      }
      assert clusters[..num] == clusters;
      ghost var d := cache.Disk();
      SetFreeClusters(free + num);
      DataStaysKept(geometry, d0, d, cache.Disk());
    }
  }

  lemma StartReleasing(g: Geometry, fat: FatTable, q: seq<nat>, d: Blocks)
    requires g.perCluster > 0
    ensures Released(fat, q, [], fat, q) && DataKept(g, d, d, {})
  {
  }

  lemma ReleasedKeys(fat0: FatTable, q0: seq<nat>, cs: seq<nat>, fat: FatTable, q: seq<nat>)
    requires Released(fat0, q0, cs, fat, q)
    ensures fat.Keys == fat0.Keys
  {
  }

  lemma ReleaseOne(fat0: FatTable, q0: seq<nat>, clusters: seq<nat>, i: nat, fat: FatTable, q: seq<nat>)
    requires i < |clusters| && Released(fat0, q0, clusters[..i], fat, q) && clusters[i] in fat
    ensures Released(fat0, q0, clusters[..i + 1], fat[clusters[i] := FREE_CLUSTER], q + [clusters[i]])
  {
    assert clusters[..i + 1] == clusters[..i] + [clusters[i]];
  }

  lemma EntryKeepsData(g: Geometry, d0: Blocks, d: Blocks, c: nat, v: nat)
    requires g.Ok() && DataKept(g, d0, d, {}) && c < g.Clusters() && EntryBlock(g, c) in d
    ensures DataKept(g, d0, WithEntry(g, d, c, v), {})
  {
    hide DataKept;
    EntryInFat(g, c);
    MetaKeepsData(g, d, WithEntry(g, d, c, v), EntryBlock(g, c));
    DataStaysKept(g, d0, d, WithEntry(g, d, c, v));
  }

  lemma TableKeys(g: Geometry, d: Blocks)
    requires g.Ok()
    ensures forall c :: c in Fat(g, d) <==> 0 <= c < g.Clusters()
    ensures g.Clusters() <= END_OF_CLUSTER
  {
  }

  /** On every disk: the scans and the queue can give `num` clusters in a row if and only if there is room. */
  lemma DiskAllocationSucceedsIff(g: Geometry, d: Blocks, q: seq<nat>, start: nat, num: nat)
    requires g.Ok() && QueueOk(Fat(g, d), q)
    ensures (exists cs :: |cs| == num && HandedOut(Fat(g, d), q, start, cs)) <==> Room(Fat(g, d), q, start, num)
  {
    hide Fat, QueueOk, HandedOut, Room, LeastFree;
    TableKeys(g, d);
    AllocationSucceedsIff(Fat(g, d), q, start, num);
  }

  lemma BeforeTake(fat0: FatTable, q0: seq<nat>, start: nat, num: nat, cs: seq<nat>, fat: FatTable, q: seq<nat>)
    requires Taking(fat0, q0, start, num, cs, fat, q) && |cs| < num && QueueOk(fat0, q0)
    requires forall c :: c in fat ==> c < END_OF_CLUSTER
    ensures fat0.Keys == fat.Keys
    ensures q != [] ==> q[0] <= CLUSTER_MASK
    ensures q == [] ==> exists c :: Last(cs, start) < c && c in fat && fat[c] == FREE_CLUSTER
  {
    if q != [] {
      assert q[0] in q0;
    } else {
      SomethingAhead(fat0, q0, start, num, cs, fat);
    }
  }

  /** The clusters `cs` are zero, and all other data is what it was. */
  ghost predicate Filling(g: Geometry, d0: Blocks, d: Blocks, cs: seq<nat>)
    requires g.perCluster > 0
  {
    AllZeroed(g, d, cs) && DataKept(g, d0, d, Elements(cs))
  }

  lemma StartFilling(g: Geometry, d: Blocks)
    requires g.perCluster > 0
    ensures Filling(g, d, d, [])
  {
  }

  lemma FillOne(g: Geometry, d0: Blocks, d: Blocks, cs: seq<nat>, c: nat, d': Blocks)
    requires g.Ok() && Filling(g, d0, d, cs) && 2 <= c < g.Clusters() && c !in cs
    requires Zeroed(g, d', c) && DataKept(g, d, d', {c})
    ensures Filling(g, d0, d', cs + [c])
  {
    hide DataKept, Zeroed;
    DataKeptTwice(g, d0, d, d', Elements(cs), {c});
    assert Elements(cs + [c]) == Elements(cs) + {c};
    forall e | e in cs
      ensures Zeroed(g, d', e)
    {
      StaysZeroed(g, d, d', {c}, e);
    }
  }

  lemma KeptFilling(g: Geometry, d0: Blocks, d: Blocks, cs: seq<nat>, d': Blocks)
    requires g.Ok() && Filling(g, d0, d, cs) && DataKept(g, d, d', {})
    ensures Filling(g, d0, d', cs)
  {
    hide DataKept, Zeroed;
    DataKeptTwice(g, d0, d, d', Elements(cs), {});
    assert Elements(cs) + {} == Elements(cs);
    forall e | e in cs
      ensures Zeroed(g, d', e)
    {
      StaysZeroed(g, d, d', {}, e);
    }
  }

  lemma EntryKeepsFilling(g: Geometry, d0: Blocks, d: Blocks, cs: seq<nat>, c: nat, v: nat)
    requires g.Ok() && Filling(g, d0, d, cs) && c < g.Clusters() && EntryBlock(g, c) in d
    ensures Filling(g, d0, WithEntry(g, d, c, v), cs)
  {
    hide DataKept, Zeroed;
    EntryInFat(g, c);
    MetaKeepsData(g, d, WithEntry(g, d, c, v), EntryBlock(g, c));
    DataKeptTwice(g, d0, d, WithEntry(g, d, c, v), Elements(cs), {});
    assert Elements(cs) + {} == Elements(cs);
  }

  ghost predicate AllZeroed(g: Geometry, d: Blocks, cs: seq<nat>) {
    forall c :: c in cs ==> 2 <= c < g.Clusters() && Zeroed(g, d, c)
  }

  lemma FullSplice(b: Block)
    ensures Splice(b, 0, ZeroBlock()) == ZeroBlock()
  {
  }

  lemma InfoSectorKeeps(g: Geometry, d: Blocks, d': Blocks)
    requires g.Ok() && d'.Keys == d.Keys
    requires forall e :: e in d && e != g.infoSector ==> d'[e] == d[e]
    ensures DataKept(g, d, d', {}) && Fat(g, d') == Fat(g, d)
  {
    MetaKeepsData(g, d, d', g.infoSector);
    FatFrame(g, d, d');
  }
}
