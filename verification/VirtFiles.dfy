/** Files as their users see them: bytes read and written at offsets (crates/fat32/src/vf.rs). */
module VirtFiles {
  import opened LittleEndian
  import opened Options
  import opened Sequences
  import opened BlockCaches
  import opened DirEntries
  import opened FatVolumes
  import opened FatChains
  import opened FatManagers
  import opened FatAllocation
  import opened FileSystems
  import opened ChainBytes

  function Min(a: nat, b: nat): nat {
    if a < b then a else b
  }

  /** How many of `len` bytes from `offset` on there are. */
  function Available(capacity: nat, offset: nat, len: nat): nat {
    if offset >= capacity then 0 else Min(len, capacity - offset)
  }

  function Max(a: nat, b: nat): nat {
    if a < b then b else a
  }

  /** The offset of the first byte of cluster number `ci` of a file. */
  function ClusterStart(g: Geometry, ci: nat): nat {
    ci * g.ClusterSize()
  }

  /** The first `n` bytes of the buffer are those of the chain from `offset` on, the others are as before. */
  ghost predicate ReadSoFar(g: Geometry, d: Blocks, cs: seq<nat>, offset: nat, before: seq<Byte>, s: seq<Byte>, n: nat)
    requires g.perCluster > 0 && InData(g, cs)
  {
    && |s| == |before| && n <= |s|
    && (n > 0 ==> offset + n <= Capacity(g, cs))
    && (forall i :: 0 <= i < n ==> s[i] == ByteAt(g, d, cs, offset + i))
    && (forall i :: n <= i < |s| ==> s[i] == before[i])
  }

  /** `len` more bytes were copied out of block `j` of cluster number `ci`. */
  lemma ReadMore(g: Geometry, d: Blocks, cs: seq<nat>, offset: nat, before: seq<Byte>, s: seq<Byte>, n: nat,
                 ci: nat, j: nat, left: nat, len: nat, s': seq<Byte>)
    requires g.perCluster > 0 && InData(g, cs) && ReadSoFar(g, d, cs, offset, before, s, n)
    requires ci < |cs| && j < g.perCluster && ClusterBlock(g, cs[ci], j) in d
    requires left == ClusterStart(g, ci) + j * BLOCK_SIZE
    requires 0 < len && left <= offset + n && offset + n + len <= left + BLOCK_SIZE && n + len <= |s|
    requires var from := offset + n - left;
             s' == s[..n] + d[ClusterBlock(g, cs[ci], j)][from..from + len] + s[n + len..]
    ensures ReadSoFar(g, d, cs, offset, before, s', n + len)
  {
    hide ByteAt, Capacity, Geometry.ClusterSize, ClusterBlock;
    forall i | 0 <= i < n + len
      ensures offset + i < Capacity(g, cs) && s'[i] == ByteAt(g, d, cs, offset + i)
    {
      if i >= n {
        ByteInBlock(g, d, cs, ci, j, offset + i);
      } else {
        assert s'[i] == s[i];
      }
    }
    assert s'[n + len - 1] == s'[n + len - 1];
    ByteInBlock(g, d, cs, ci, j, offset + (n + len - 1));
  }

  /** Which block of the disk the loops look at. */
  lemma BlockOf(g: Geometry, d: Blocks, cs: seq<nat>, ci: nat, j: nat)
    requires g.Ok() && g.On(d) && InData(g, cs) && ci < |cs| && j < g.perCluster
    ensures g.Offset(cs[ci]) / BLOCK_SIZE + j == ClusterBlock(g, cs[ci], j) && ClusterBlock(g, cs[ci], j) in d
  {
    OffsetIsFirstSector(g, cs[ci]);
    ClusterBlockInVolume(g, cs[ci], j);
  }

  lemma NextCluster(g: Geometry, ci: nat)
    ensures ClusterStart(g, ci + 1) == ClusterStart(g, ci) + g.ClusterSize() == ClusterStart(g, ci) + g.perCluster * BLOCK_SIZE
  {
  }

  lemma FirstCluster(g: Geometry, offset: nat)
    requires g.perCluster > 0
    ensures g.ClusterSize() > 0
    ensures var ci := offset / g.ClusterSize();
            ci * g.ClusterSize() == ClusterStart(g, ci) <= offset < ClusterStart(g, ci) + g.ClusterSize()
  {
    DivMulBelow(offset, g.ClusterSize());
  }

  /** The loops have run out of clusters. */
  lemma OutOfClusters(g: Geometry, cs: seq<nat>, ci: nat, offset: nat, left: nat)
    requires ci >= |cs| && left == ClusterStart(g, ci) && (ci > |cs| ==> left <= offset)
    ensures ci == |cs| ==> left == Capacity(g, cs)
    ensures left <= offset ==> Capacity(g, cs) <= offset
  {
    MulMonotone(|cs|, ci, g.ClusterSize());
  }

  /** The chain now holds the first `n` bytes of `buf` from `offset` on; its other bytes, the data of other
      clusters and the table are as before. */
  ghost predicate WrittenSoFar(g: Geometry, d0: Blocks, d: Blocks, cs: seq<nat>, offset: nat, buf: seq<Byte>, n: nat)
    requires g.perCluster > 0 && InData(g, cs)
  {
    && n <= |buf|
    && DataKept(g, d0, d, Elements(cs)) && Fat(g, d) == Fat(g, d0)
    && (forall k: nat :: k < Capacity(g, cs) ==>
          ByteAt(g, d, cs, k) == if offset <= k < offset + n then buf[k - offset] else ByteAt(g, d0, cs, k))
  }

  /** `len` more bytes were copied into block `j` of cluster number `ci`. */
  lemma WriteMore(g: Geometry, d0: Blocks, d: Blocks, cs: seq<nat>, offset: nat, buf: seq<Byte>, n: nat,
                  ci: nat, j: nat, left: nat, len: nat)
    requires g.Ok() && InData(g, cs) && WrittenSoFar(g, d0, d, cs, offset, buf, n)
    requires ci < |cs| && j < g.perCluster && ClusterBlock(g, cs[ci], j) in d
    requires left == ClusterStart(g, ci) + j * BLOCK_SIZE
    requires 0 < len && left <= offset + n && offset + n + len <= left + BLOCK_SIZE && n + len <= |buf|
    ensures var b := ClusterBlock(g, cs[ci], j);
            WrittenSoFar(g, d0, d[b := Splice(d[b], offset + n - left, buf[n..n + len])], cs, offset, buf, n + len)
  {
    hide ByteAt, Capacity, Geometry.ClusterSize, ClusterBlock, Splice, Fat, DataKept, Elements;
    var b := ClusterBlock(g, cs[ci], j);
    var d' := d[b := Splice(d[b], offset + n - left, buf[n..n + len])];
    BlockOfChainKept(g, d, cs, ci, j, d');
    DataKeptAgain(g, d0, d, d', cs);
    forall k: nat | k < Capacity(g, cs)
      ensures ByteAt(g, d', cs, k) == if offset <= k < offset + n + len then buf[k - offset] else ByteAt(g, d0, cs, k)
    {
      WriteShows(g, d, cs, ci, j, offset + n - left, buf[n..n + len], k);
    }
  }

  lemma DataKeptAgain(g: Geometry, d: Blocks, d': Blocks, d'': Blocks, cs: seq<nat>)
    requires g.perCluster > 0 && DataKept(g, d, d', Elements(cs)) && DataKept(g, d', d'', Elements(cs))
    ensures DataKept(g, d, d'', Elements(cs))
  {
    DataKeptTwice(g, d, d', d'', Elements(cs), Elements(cs));
    assert Elements(cs) + Elements(cs) == Elements(cs);
  }

  /** A write into a cluster of the chain keeps the data of other clusters, and the table. */
  lemma BlockOfChainKept(g: Geometry, d: Blocks, cs: seq<nat>, ci: nat, j: nat, d': Blocks)
    requires g.Ok() && InData(g, cs) && ci < |cs| && j < g.perCluster
    requires d'.Keys == d.Keys && forall e :: e in d && e != ClusterBlock(g, cs[ci], j) ==> d'[e] == d[e]
    ensures DataKept(g, d, d', Elements(cs)) && Fat(g, d') == Fat(g, d)
  {
    hide Fat;
    ClusterKeepsData(g, d, d', cs[ci]);
    assert cs[ci] in Elements(cs);
    DataKeptMore(g, d, d', {cs[ci]}, Elements(cs));
  }

  lemma DataKeptMore(g: Geometry, d: Blocks, d': Blocks, a: set<nat>, b: set<nat>)
    requires g.perCluster > 0 && DataKept(g, d, d', a) && a <= b
    ensures DataKept(g, d, d', b)
  {
  }

  lemma NothingWritten(g: Geometry, d: Blocks, cs: seq<nat>, offset: nat, buf: seq<Byte>)
    requires g.perCluster > 0 && InData(g, cs)
    ensures WrittenSoFar(g, d, d, cs, offset, buf, 0)
  {
  }

  /** There is still a cluster to write to. */
  lemma RoomLeft(g: Geometry, cs: seq<nat>, ci: nat, index: nat, left: nat, end: nat)
    requires index < end <= Capacity(g, cs) && left == ClusterStart(g, ci) && left <= index
    ensures ci < |cs|
  {
    if ci >= |cs| {
      MulMonotone(|cs|, ci, g.ClusterSize());
    }
  }

  // ---------------------------------------------------------------- the entry of a file

  const ROOT_DIR_ENTRY_CLUSTER: nat := 0

  /** Where the directory entry of a file is: in a cluster of its directory, or nowhere for the root. */
  datatype DirEntryPos = DirEntryPos(cluster: nat, offset: nat)

  predicate PlaceOk(g: Geometry, pos: DirEntryPos) {
    || pos.cluster == ROOT_DIR_ENTRY_CLUSTER
    || (2 <= pos.cluster < g.Clusters() && pos.offset + DIRENT_SIZE <= g.ClusterSize() && pos.offset % DIRENT_SIZE == 0)
  }

  /** `sde_pos`: the block of the entry and its offset there. */
  function SdePos(g: Geometry, pos: DirEntryPos): (nat, nat)
    requires pos.cluster >= 2
  {
    var offset := pos.offset + g.Offset(pos.cluster);
    (offset / BLOCK_SIZE, offset % BLOCK_SIZE)
  }

  lemma PlaceInBlock(g: Geometry, pos: DirEntryPos)
    requires g.Ok() && PlaceOk(g, pos) && pos.cluster != ROOT_DIR_ENTRY_CLUSTER
    ensures pos.offset / BLOCK_SIZE < g.perCluster
    ensures SdePos(g, pos).0 == ClusterBlock(g, pos.cluster, pos.offset / BLOCK_SIZE) < g.sectors
    ensures SdePos(g, pos).1 == pos.offset % BLOCK_SIZE && SdePos(g, pos).1 + DIRENT_SIZE <= BLOCK_SIZE
  {
    DivBelow(pos.offset, g.perCluster, BLOCK_SIZE);
    OffsetIsFirstSector(g, pos.cluster);
    ClusterBlockInVolume(g, pos.cluster, pos.offset / BLOCK_SIZE);
    BehindBlocks(g.FirstSectorOfCluster(pos.cluster), pos.offset);
    AlignedEntry(pos.offset);
  }

  lemma BehindBlocks(first: nat, offset: nat)
    ensures (offset + first * BLOCK_SIZE) / BLOCK_SIZE == first + offset / BLOCK_SIZE
    ensures (offset + first * BLOCK_SIZE) % BLOCK_SIZE == offset % BLOCK_SIZE
  {
    DivModUnique(offset + first * BLOCK_SIZE, BLOCK_SIZE, first + offset / BLOCK_SIZE, offset % BLOCK_SIZE);
  }

  lemma AlignedEntry(offset: nat)
    requires offset % DIRENT_SIZE == 0
    ensures offset % BLOCK_SIZE + DIRENT_SIZE <= BLOCK_SIZE
  {
    var i := offset / DIRENT_SIZE;
    DivModUnique(offset, BLOCK_SIZE, i / 16, i % 16 * DIRENT_SIZE);
  }

  /** The entry as it is on the disk. */
  ghost function EntryIn(g: Geometry, d: Blocks, pos: DirEntryPos): DirEntry
    requires g.Ok() && PlaceOk(g, pos) && pos.cluster != ROOT_DIR_ENTRY_CLUSTER
  {
    PlaceInBlock(g, pos);
    var p := SdePos(g, pos);
    if p.0 in d then d[p.0][p.1..p.1 + DIRENT_SIZE] else seq(32, _ => 0)
  }

  /** Block `i` of the cluster that holds the entry, with the entry blanked. */
  ghost function Blanked(g: Geometry, d: Blocks, pos: DirEntryPos, i: nat): Block
    requires g.Ok() && PlaceOk(g, pos) && pos.cluster != ROOT_DIR_ENTRY_CLUSTER && i < g.perCluster
  {
    PlaceInBlock(g, pos);
    var b := ClusterBlock(g, pos.cluster, i);
    if b !in d then ZeroBlock()
    else if i == pos.offset / BLOCK_SIZE then Splice(d[b], pos.offset % BLOCK_SIZE, ZeroEntry())
    else d[b]
  }

  /** What is around the entry in its cluster: other entries of the directory. */
  ghost function RestIn(g: Geometry, d: Blocks, pos: DirEntryPos): seq<Block>
    requires g.Ok() && PlaceOk(g, pos) && pos.cluster != ROOT_DIR_ENTRY_CLUSTER
  {
    seq(g.perCluster, i requires 0 <= i < g.perCluster => Blanked(g, d, pos, i))
  }

  lemma EntryKept(g: Geometry, d: Blocks, d': Blocks, touched: set<nat>, pos: DirEntryPos)
    requires g.Ok() && PlaceOk(g, pos) && pos.cluster != ROOT_DIR_ENTRY_CLUSTER
    requires DataKept(g, d, d', touched) && pos.cluster !in touched
    ensures EntryIn(g, d', pos) == EntryIn(g, d, pos) && RestIn(g, d', pos) == RestIn(g, d, pos)
  {
    PlaceInBlock(g, pos);
    RestKept(g, d, d', touched, pos);
  }

  lemma RestKept(g: Geometry, d: Blocks, d': Blocks, touched: set<nat>, pos: DirEntryPos)
    requires g.Ok() && PlaceOk(g, pos) && pos.cluster != ROOT_DIR_ENTRY_CLUSTER
    requires DataKept(g, d, d', touched) && pos.cluster !in touched
    ensures RestIn(g, d', pos) == RestIn(g, d, pos)
  {
    hide ClusterBlock, Splice, SdePos;
    forall i | 0 <= i < g.perCluster
      ensures Blanked(g, d', pos, i) == Blanked(g, d, pos, i)
    {
    }
  }

  lemma SpliceTwice(b: Block, at: nat, e: DirEntry, e': DirEntry)
    requires at + DIRENT_SIZE <= BLOCK_SIZE
    ensures Splice(Splice(b, at, e), at, e') == Splice(b, at, e')
  {
  }

  lemma RestStored(g: Geometry, d: Blocks, pos: DirEntryPos, e: DirEntry)
    requires g.Ok() && g.On(d) && PlaceOk(g, pos) && pos.cluster != ROOT_DIR_ENTRY_CLUSTER
    requires SdePos(g, pos).0 in d && SdePos(g, pos).1 + DIRENT_SIZE <= BLOCK_SIZE
    ensures var p := SdePos(g, pos);
            RestIn(g, d[p.0 := Splice(d[p.0], p.1, e)], pos) == RestIn(g, d, pos)
  {
    hide ClusterBlock, Splice, SdePos;
    PlaceInBlock(g, pos);
    var p := SdePos(g, pos);
    var d' := d[p.0 := Splice(d[p.0], p.1, e)];
    SpliceTwice(d[p.0], p.1, e, ZeroEntry());
    forall i | 0 <= i < g.perCluster
      ensures Blanked(g, d', pos, i) == Blanked(g, d, pos, i)
    {
      ClusterBlocksApart(g, pos.cluster, i, pos.cluster, pos.offset / BLOCK_SIZE);
    }
  }

  /** Storing an entry: it is there, the data of other clusters and the table are not touched. */
  lemma EntryStored(g: Geometry, d: Blocks, pos: DirEntryPos, e: DirEntry)
    requires g.Ok() && g.On(d) && PlaceOk(g, pos) && pos.cluster != ROOT_DIR_ENTRY_CLUSTER
    ensures SdePos(g, pos).0 in d && SdePos(g, pos).1 + DIRENT_SIZE <= BLOCK_SIZE
    ensures var p := SdePos(g, pos);
            var d' := d[p.0 := Splice(d[p.0], p.1, e)];
            EntryIn(g, d', pos) == e && DataKept(g, d, d', {pos.cluster}) && Fat(g, d') == Fat(g, d)
            && RestIn(g, d', pos) == RestIn(g, d, pos)
  {
    PlaceInBlock(g, pos);
    var p := SdePos(g, pos);
    RestStored(g, d, pos, e);
    ClusterKeepsData(g, d, d[p.0 := Splice(d[p.0], p.1, e)], pos.cluster);
  }

  lemma SizeKeepsHead(e: DirEntry, size: nat)
    ensures WithFileSize(e, size)[..20] == e[..20]
  {
    FileSizeStored(e, size % 0x1_0000_0000);
  }

  /** The disk after `bytes` were stored at the place of an entry. */
  ghost function EntryWritten(g: Geometry, d: Blocks, pos: DirEntryPos, bytes: seq<Byte>): Blocks
    requires g.Ok() && PlaceOk(g, pos) && pos.cluster != ROOT_DIR_ENTRY_CLUSTER && |bytes| <= DIRENT_SIZE
  {
    PlaceInBlock(g, pos);
    var p := SdePos(g, pos);
    if p.0 in d then d[p.0 := Splice(d[p.0], p.1, bytes)] else d
  }

  // ---------------------------------------------------------------- growing

  /** How many clusters `size` bytes take. */
  function ClustersFor(g: Geometry, size: nat): nat
    requires g.perCluster > 0
  {
    (size + g.ClusterSize() - 1) / g.ClusterSize()
  }

  lemma ClustersForEnough(g: Geometry, size: nat, n: nat)
    requires g.perCluster > 0
    ensures ClustersFor(g, size) <= n <==> size <= n * g.ClusterSize()
  {
    var k := g.ClusterSize();
    var q := (size + k - 1) / k;
    DivMulBelow(size + k - 1, k);
    assert (q + 1) * k == q * k + k;
    if q <= n {
      MulMonotone(q, n, k);
    } else {
      MulMonotone(n + 1, q, k);
      assert (n + 1) * k == n * k + k;
    }
  }

  lemma ClustersForGrows(g: Geometry, size: nat, size': nat)
    requires g.perCluster > 0 && size <= size'
    ensures ClustersFor(g, size) <= ClustersFor(g, size')
    ensures ClustersFor(g, size) == 0 <==> size == 0
  {
    ClustersForEnough(g, size', ClustersFor(g, size'));
    ClustersForEnough(g, size, ClustersFor(g, size'));
    ClustersForEnough(g, size, 0);
  }

  /** The vector of the file, its chain in the table and its entry say the same.  A file without clusters is
      empty, and its vector is stale. */
  ghost predicate Agree(g: Geometry, fat: FatTable, e: DirEntry, vec: seq<nat>, isDir: bool, pos: DirEntryPos)
    requires g.perCluster > 0
  {
    && (if FirstClusterOf(e) == NEW_VIRT_FILE_CLUSTER then FileSizeOf(e) == 0
        else
          && Chain(fat, vec) && vec[0] == FirstClusterOf(e) && pos.cluster !in vec
          && (!isDir ==> |vec| == ClustersFor(g, FileSizeOf(e))))
    && (isDir ==> FileSizeOf(e) == 0)
    && (pos.cluster != ROOT_DIR_ENTRY_CLUSTER ==> pos.cluster in fat && fat[pos.cluster] != FREE_CLUSTER)
  }

  /** The clusters that a file has according to its entry. */
  function Owned(e: DirEntry, vec: seq<nat>): seq<nat> {
    if FirstClusterOf(e) == NEW_VIRT_FILE_CLUSTER then [] else vec
  }

  /** File `id` has the chain `cs`, or none. */
  ghost predicate Owns(chains: Chains, id: nat, cs: seq<nat>) {
    if cs == [] then id !in chains else id in chains && chains[id] == cs
  }

  /** How many clusters are missing for `newSize` bytes. */
  function Need(g: Geometry, cs: seq<nat>, newSize: nat): nat
    requires g.perCluster > 0
  {
    if ClustersFor(g, newSize) > |cs| then ClustersFor(g, newSize) - |cs| else 0
  }

  /** The table after the chain `cs` was hung behind the clusters a file has. */
  ghost function Joined(fat: FatTable, owned: seq<nat>, cs: seq<nat>): FatTable
    requires cs != []
  {
    if owned == [] then fat else fat[owned[|owned| - 1] := cs[0]]
  }

  /** New clusters behind those of file `id` make a longer chain, and the step is one of the volume. */
  lemma GrowStep(v: Volume, chains: Chains, id: nat, owned: seq<nat>, cs: seq<nat>, fat1: FatTable, recycled': seq<nat>)
    requires VolumeOk(v, chains) && Owns(chains, id, owned) && cs != []
    requires Allocated(v.fat, v.recycled, cs, fat1, recycled')
    ensures Chain(Joined(fat1, owned, cs), owned + cs)
    ensures Step(v, chains, Grow(id, |cs|), Volume(Joined(fat1, owned, cs), recycled', v.free - |cs|), chains[id := owned + cs])
    ensures Elements(owned) !! Elements(cs)
  {
    hide Chain, QueueOk, Allocated;
    AllocatedKeepsChains(v, chains, cs, fat1, recycled');
    NewIsChain(v.fat, v.recycled, cs, fat1, recycled');
    if owned == [] {
      assert owned + cs == cs;
    } else {
      ChainNotEmpty(v.fat, owned);
      GrownTail(fat1, chains, id, cs, Joined(fat1, owned, cs), recycled');
    }
    var v' := Volume(Joined(fat1, owned, cs), recycled', v.free - |cs|);
    assert Grown(v, chains, id, |cs|, v', chains[id := owned + cs]);
  }

  lemma NewIsChain(fat: FatTable, recycled: seq<nat>, cs: seq<nat>, fat1: FatTable, recycled': seq<nat>)
    requires Allocated(fat, recycled, cs, fat1, recycled')
    ensures Chain(fat1, cs)
  {
  }

  lemma ChainNotEmpty(fat: FatTable, cs: seq<nat>)
    requires Chain(fat, cs)
    ensures cs != []
  {
  }

  lemma ExtendedKeepsData(g: Geometry, d0: Blocks, d: Blocks, owned: seq<nat>, cs: seq<nat>, home: set<nat>)
    requires g.perCluster > 0 && Extended(g, d0, d, cs, home)
    ensures DataKept(g, d0, d, Elements(owned + cs) + home)
  {
    DataKeptMore(g, d0, d, Elements(cs) + home, Elements(owned + cs) + home);
  }

  /** The clusters `cs` are zero, and apart from them and `home` the data is what it was. */
  ghost predicate Extended(g: Geometry, d0: Blocks, d: Blocks, cs: seq<nat>, home: set<nat>)
    requires g.perCluster > 0
  {
    AllZeroed(g, d, cs) && DataKept(g, d0, d, Elements(cs) + home)
  }

  lemma ExtendedFirst(g: Geometry, d0: Blocks, d: Blocks, cs: seq<nat>, home: set<nat>)
    requires g.perCluster > 0 && Filling(g, d0, d, cs)
    ensures Extended(g, d0, d, cs, home)
  {
    DataKeptMore(g, d0, d, Elements(cs), Elements(cs) + home);
  }

  lemma ExtendedAgain(g: Geometry, d0: Blocks, d: Blocks, cs: seq<nat>, home: set<nat>, d': Blocks)
    requires g.Ok() && Extended(g, d0, d, cs, home) && DataKept(g, d, d', home) && Elements(cs) !! home
    ensures Extended(g, d0, d', cs, home)
  {
    hide DataKept, Zeroed;
    DataKeptTwice(g, d0, d, d', Elements(cs) + home, home);
    assert Elements(cs) + home + home == Elements(cs) + home;
    forall c | c in cs
      ensures Zeroed(g, d', c)
    {
      assert c in Elements(cs);
      StaysZeroed(g, d, d', home, c);
    }
  }

  lemma EntryTouchesNoData(g: Geometry, d: Blocks, c: nat, v: nat)
    requires g.Ok() && c < g.Clusters() && EntryBlock(g, c) in d
    ensures DataKept(g, d, WithEntry(g, d, c, v), {})
  {
    EntryInFat(g, c);
    MetaKeepsData(g, d, WithEntry(g, d, c, v), EntryBlock(g, c));
  }

  /** The file reads as before, and zeros behind. */
  ghost predicate LongerByZeros(g: Geometry, d0: Blocks, d: Blocks, owned: seq<nat>, longer: seq<nat>)
    requires g.perCluster > 0 && InData(g, owned) && InData(g, longer)
  {
    && Capacity(g, owned) <= Capacity(g, longer)
    && (forall k: nat :: k < Capacity(g, longer) ==>
          ByteAt(g, d, longer, k) == if k < Capacity(g, owned) then ByteAt(g, d0, owned, k) else 0)
  }

  lemma GrownBytes(g: Geometry, d0: Blocks, d: Blocks, owned: seq<nat>, cs: seq<nat>, home: set<nat>)
    requires g.Ok() && InData(g, owned) && InData(g, cs) && InData(g, owned + cs)
    requires Extended(g, d0, d, cs, home) && Elements(owned) !! Elements(cs) + home
    ensures LongerByZeros(g, d0, d, owned, owned + cs)
  {
    hide ByteAt, DataKept, AllZeroed, InData, Elements, Capacity;
    CapacityJoined(g, owned, cs);
    forall k: nat | k < Capacity(g, owned + cs)
      ensures ByteAt(g, d, owned + cs, k) == if k < Capacity(g, owned) then ByteAt(g, d0, owned, k) else 0
    {
      BytesOfJoined(g, d, owned, cs, k);
      if k < Capacity(g, owned) {
        BytesKept(g, d0, d, Elements(cs) + home, owned, k);
      } else {
        ZeroedBytes(g, d, cs, k - Capacity(g, owned));
      }
    }
  }

  class VirtFile {
    const fs: FileSystem
    const clusterChain: ClusterChain
    const sdePos: DirEntryPos
    const ldePos: seq<DirEntryPos>
    const isDir: bool

    constructor (fs: FileSystem, clusterChain: ClusterChain, sdePos: DirEntryPos, ldePos: seq<DirEntryPos>, isDir: bool)
      ensures this.fs == fs && this.clusterChain == clusterChain
      ensures this.sdePos == sdePos && this.ldePos == ldePos && this.isDir == isDir
    {
      this.fs, this.clusterChain, this.sdePos, this.ldePos, this.isDir := fs, clusterChain, sdePos, ldePos, isDir;
    }

    ghost predicate Valid()
      reads fs, fs.fat, fs.cache, fs.cache.device, fs.cache.lru, clusterChain
    {
      && fs.Valid() && clusterChain.fat == fs.fat
      && InData(fs.geometry, clusterChain.clusterVec)
      && PlaceOk(fs.geometry, sdePos)
    }

    /** The directory entry of the file. */
    ghost function Sde(): DirEntry
      reads fs, fs.cache, fs.cache.device
      requires fs.geometry.Ok() && PlaceOk(fs.geometry, sdePos)
    {
      if sdePos.cluster == ROOT_DIR_ENTRY_CLUSTER then fs.rootDirEntry else EntryIn(fs.geometry, fs.cache.Disk(), sdePos)
    }

    /** The part of it with the name and the attributes. */
    ghost function Head(): seq<Byte>
      reads fs, fs.cache, fs.cache.device
      requires fs.geometry.Ok() && PlaceOk(fs.geometry, sdePos)
    {
      Sde()[..20]
    }

    /** What is around it, and the entry of the root directory if that is another one. */
    ghost function Rest(): (seq<Block>, Option<DirEntry>)
      reads fs, fs.cache, fs.cache.device
      requires fs.geometry.Ok() && PlaceOk(fs.geometry, sdePos)
    {
      if sdePos.cluster == ROOT_DIR_ENTRY_CLUSTER then ([], None)
      else (RestIn(fs.geometry, fs.cache.Disk(), sdePos), Some(fs.rootDirEntry))
    }

    /** The cluster that a change of the entry touches. */
    ghost function Home(): set<nat> {
      if sdePos.cluster == ROOT_DIR_ENTRY_CLUSTER then {} else {sdePos.cluster}
    }

    method ReadSde() returns (e: DirEntry)
      requires Valid()
      modifies fs.cache.Repr()
      ensures Valid() && fresh(fs.cache.Repr() - old(fs.cache.Repr())) && fs.cache.Disk() == old(fs.cache.Disk())
      ensures e == Sde()
    {
      hide Logical, CacheOk, Fat, BlockCacheManager.Valid, InData, ByteAt;
      if sdePos.cluster == ROOT_DIR_ENTRY_CLUSTER {
        return fs.rootDirEntry;
      }
      PlaceInBlock(fs.geometry, sdePos);
      fs.cache.SameBlocks();
      var p := SdePos(fs.geometry, sdePos);
      var b := fs.cache.ReadBlock(p.0);
      e := b[p.1..p.1 + DIRENT_SIZE];
    }

    method WriteSde(e: DirEntry)
      requires Valid()
      modifies fs`rootDirEntry, fs.cache.Repr()
      ensures Valid() && Rest() == old(Rest()) && fresh(fs.cache.Repr() - old(fs.cache.Repr()))
      ensures Sde() == e && fs.Vol() == old(fs.Vol())
      ensures DataKept(fs.geometry, old(fs.cache.Disk()), fs.cache.Disk(), Home())
      ensures fs.cache.Disk() == if sdePos.cluster == ROOT_DIR_ENTRY_CLUSTER then old(fs.cache.Disk())
                                 else EntryWritten(fs.geometry, old(fs.cache.Disk()), sdePos, e)
    {
      hide Logical, CacheOk, Fat, BlockCacheManager.Valid, InData, ByteAt, DataKept, RestIn;
      fs.cache.SameBlocks();
      if sdePos.cluster == ROOT_DIR_ENTRY_CLUSTER {
        NothingTouched(fs.geometry, fs.cache.Disk());
        fs.rootDirEntry := e;
        return;
      }
      EntryStored(fs.geometry, fs.cache.Disk(), sdePos, e);
      var p := SdePos(fs.geometry, sdePos);
      fs.cache.ModifyBlock(p.0, p.1, e);
    }

    /** The blocks of one cluster that lie in the range are copied to the buffer. */
    method ReadCluster(buf: array<Byte>, offset: nat, curr: nat, index0: nat, left0: nat, ghost ci: nat, ghost before: seq<Byte>)
      returns (index: nat, left: nat)
      requires Valid() && ci < |clusterChain.clusterVec| && curr == clusterChain.clusterVec[ci]
      requires left0 == ClusterStart(fs.geometry, ci) && index0 == Max(offset, left0) < offset + buf.Length
      requires offset < left0 + fs.geometry.ClusterSize()
      requires ReadSoFar(fs.geometry, fs.cache.Disk(), clusterChain.clusterVec, offset, before, buf[..], index0 - offset)
      modifies buf, fs.cache.Repr()
      ensures Valid() && fresh(fs.cache.Repr() - old(fs.cache.Repr())) && fs.cache.Disk() == old(fs.cache.Disk())
      ensures offset <= index <= offset + buf.Length
      ensures ReadSoFar(fs.geometry, fs.cache.Disk(), clusterChain.clusterVec, offset, before, buf[..], index - offset)
      ensures index < offset + buf.Length ==> left == left0 + fs.geometry.ClusterSize() && index == Max(offset, left)
    {
      hide Logical, CacheOk, Fat, BlockCacheManager.Valid, BlockCacheManager.Disk, Geometry.Ok, ByteAt, Capacity, ClusterBlock, InData, ReadSoFar, Geometry.Offset, ClusterStart, Geometry.ClusterSize, PlaceOk;
      var g := fs.geometry;
      var end := offset + buf.Length;
      ghost var cs, d := clusterChain.clusterVec, fs.cache.Disk();
      fs.cache.SameBlocks();
      index, left := index0, left0;
      ClusterIsData(g, cs, ci);
      NextCluster(g, ci);
      var right := left + BLOCK_SIZE;
      var start := g.Offset(curr) / BLOCK_SIZE;
      var blockId := start;
      while blockId < start + g.perCluster
        invariant Valid() && fresh(fs.cache.Repr() - old(fs.cache.Repr())) && fs.cache.Disk() == d && clusterChain.clusterVec == cs
        invariant start <= blockId <= start + g.perCluster
        invariant left == left0 + (blockId - start) * BLOCK_SIZE && right == left + BLOCK_SIZE
        invariant index == Max(offset, left) && index < end
        invariant ReadSoFar(g, d, cs, offset, before, buf[..], index - offset)
      {
        if index >= left && index < right && index < end {
          var offsetInBlock := index - left;
          var len := Min(BLOCK_SIZE - offsetInBlock, end - index);
          BlockOf(g, d, cs, ci, blockId - start);
          fs.cache.SameBlocks();
          var cache := fs.cache.ReadBlock(blockId);
          ghost var s := buf[..];
          forall i | 0 <= i < len {
            buf[index - offset + i] := cache[offsetInBlock + i];
          }
          assert buf[..] == s[..index - offset] + cache[offsetInBlock..offsetInBlock + len] + s[index - offset + len..];
          ReadMore(g, d, cs, offset, before, s, index - offset, ci, blockId - start, left, len, buf[..]);
          index := index + len;
          if index >= end {
            break;
          }
        }
        left := left + BLOCK_SIZE;
        right := right + BLOCK_SIZE;
        blockId := blockId + 1;
      }
    }

    /** `read_at`: cluster by cluster and block by block, from the cluster of the offset on. */
    method ReadAt(offset: nat, buf: array<Byte>) returns (alreadyRead: nat)
      requires Valid()
      modifies buf, fs.cache.Repr()
      ensures Valid() && fresh(fs.cache.Repr() - old(fs.cache.Repr())) && fs.cache.Disk() == old(fs.cache.Disk())
      ensures alreadyRead == Available(Capacity(fs.geometry, clusterChain.clusterVec), offset, buf.Length)
      ensures ReadSoFar(fs.geometry, fs.cache.Disk(), clusterChain.clusterVec, offset, old(buf[..]), buf[..], alreadyRead)
    {
      hide Logical, CacheOk, Fat, BlockCacheManager.Valid, BlockCacheManager.Disk, ByteAt, Capacity, ClusterBlock, InData, ReadSoFar, Geometry.Offset, ClusterStart, Geometry.ClusterSize, PlaceOk;
      var g := fs.geometry;
      var clusterSize := g.ClusterSize();
      ghost var cs, d, before := clusterChain.clusterVec, fs.cache.Disk(), buf[..];
      NothingRead(g, d, cs, offset, before);
      var index: nat, end: nat := offset, offset + buf.Length;
      if buf.Length == 0 {
        return 0;
      }
      FirstCluster(g, offset);
      var next: nat := offset / clusterSize;
      var left: nat := next * clusterSize;
      while index < end
        invariant Valid() && fresh(fs.cache.Repr() - old(fs.cache.Repr())) && fs.cache.Disk() == d && clusterChain.clusterVec == cs
        invariant offset <= index <= end
        invariant index < end ==>
                    left == ClusterStart(g, next) && index == Max(offset, left) && index < left + clusterSize && (next > |cs| ==> left <= offset)
        invariant ReadSoFar(g, d, cs, offset, before, buf[..], index - offset)
        decreases end - index, |cs| - next
      {
        if next >= |clusterChain.clusterVec| {
          OutOfClusters(g, cs, next, offset, left);
          break;
        }
        var curr := clusterChain.clusterVec[next];
        NextCluster(g, next);
        index, left := ReadCluster(buf, offset, curr, index, left, next, before);
        next := next + 1;
      }
      ReadCapacity(g, d, cs, offset, before, buf[..], index - offset);
      return index - offset;
    }

    /** The part of the buffer that goes to one cluster is copied there. */
    method WriteCluster(buf: seq<Byte>, offset: nat, curr: nat, index0: nat, left0: nat, ghost ci: nat, ghost d0: Blocks)
      returns (index: nat, left: nat)
      requires Valid() && ci < |clusterChain.clusterVec| && curr == clusterChain.clusterVec[ci]
      requires left0 == ClusterStart(fs.geometry, ci) && index0 == Max(offset, left0) < offset + |buf|
      requires offset < left0 + fs.geometry.ClusterSize()
      requires WrittenSoFar(fs.geometry, d0, fs.cache.Disk(), clusterChain.clusterVec, offset, buf, index0 - offset)
      modifies fs.cache.Repr()
      ensures Valid() && fresh(fs.cache.Repr() - old(fs.cache.Repr()))
      ensures offset <= index <= offset + |buf|
      ensures WrittenSoFar(fs.geometry, d0, fs.cache.Disk(), clusterChain.clusterVec, offset, buf, index - offset)
      ensures index < offset + |buf| ==> left == left0 + fs.geometry.ClusterSize() && index == Max(offset, left)
    {
      hide Logical, CacheOk, Fat, BlockCacheManager.Valid, BlockCacheManager.Disk, Geometry.Ok, ByteAt, Capacity, ClusterBlock, InData,
        WrittenSoFar, Geometry.Offset, ClusterStart, PlaceOk, Geometry.ClusterSize, Splice;
      var g := fs.geometry;
      var end := offset + |buf|;
      ghost var cs := clusterChain.clusterVec;
      index, left := index0, left0;
      ClusterIsData(g, cs, ci);
      NextCluster(g, ci);
      var right := left + BLOCK_SIZE;
      var start := g.Offset(curr) / BLOCK_SIZE;
      var blockId := start;
      while blockId < start + g.perCluster
        invariant Valid() && fresh(fs.cache.Repr() - old(fs.cache.Repr())) && clusterChain.clusterVec == cs
        invariant start <= blockId <= start + g.perCluster
        invariant left == left0 + (blockId - start) * BLOCK_SIZE && right == left + BLOCK_SIZE
        invariant index == Max(offset, left) && index < end
        invariant WrittenSoFar(g, d0, fs.cache.Disk(), cs, offset, buf, index - offset)
      {
        if index >= left && index < right && index < end {
          var offsetInBlock := index - left;
          var len := Min(BLOCK_SIZE - offsetInBlock, end - index);
          ghost var d := fs.cache.Disk();
          fs.cache.SameBlocks();
          BlockOf(g, d, cs, ci, blockId - start);
          fs.cache.ModifyBlock(blockId, offsetInBlock, buf[index - offset..index - offset + len]);
          WriteMore(g, d0, d, cs, offset, buf, index - offset, ci, blockId - start, left, len);
          index := index + len;
          if index >= end {
            break;
          }
        }
        left := left + BLOCK_SIZE;
        right := right + BLOCK_SIZE;
        blockId := blockId + 1;
      }
    }

    /** The loops of `write_at`, over a chain that is long enough. */
    method WriteData(offset: nat, buf: seq<Byte>)
      requires Valid() && offset + |buf| <= Capacity(fs.geometry, clusterChain.clusterVec)
      modifies fs.cache.Repr()
      ensures Valid() && fresh(fs.cache.Repr() - old(fs.cache.Repr()))
      ensures WrittenSoFar(fs.geometry, old(fs.cache.Disk()), fs.cache.Disk(), clusterChain.clusterVec, offset, buf, |buf|)
    {
      hide Logical, CacheOk, Fat, BlockCacheManager.Valid, BlockCacheManager.Disk, ByteAt, Capacity, ClusterBlock, InData,
        WrittenSoFar, Geometry.Offset, ClusterStart, PlaceOk, Geometry.ClusterSize;
      var g := fs.geometry;
      var clusterSize := g.ClusterSize();
      ghost var cs, d0 := clusterChain.clusterVec, fs.cache.Disk();
      NothingWritten(g, d0, cs, offset, buf);
      var index: nat, end: nat := offset, offset + |buf|;
      FirstCluster(g, offset);
      var next: nat := offset / clusterSize;
      var left: nat := next * clusterSize;
      while index < end
        invariant Valid() && fresh(fs.cache.Repr() - old(fs.cache.Repr())) && clusterChain.clusterVec == cs
        invariant offset <= index <= end
        invariant index < end ==>
                    left == ClusterStart(g, next) && index == Max(offset, left) && index < left + clusterSize
        invariant WrittenSoFar(g, d0, fs.cache.Disk(), cs, offset, buf, index - offset)
        decreases end - index, |cs| - next
      {
        RoomLeft(g, cs, next, index, left, end);
        var curr := clusterChain.clusterVec[next];
        NextCluster(g, next);
        index, left := WriteCluster(buf, offset, curr, index, left, next, d0);
        next := next + 1;
      }
    }

    // ---------------------------------------------------------------- sizes

    ghost predicate Agrees()
      requires Valid()
      reads fs, fs.fat, fs.cache, fs.cache.device, fs.cache.lru, clusterChain
    {
      Agree(fs.geometry, fs.fat.Table(), Sde(), clusterChain.clusterVec, isDir, sdePos)
    }

    /** The clusters the file has. */
    ghost function Clusters(): seq<nat>
      requires Valid()
      reads fs, fs.fat, fs.cache, fs.cache.device, fs.cache.lru, clusterChain
    {
      Owned(Sde(), clusterChain.clusterVec)
    }

    method SetFirstCluster(cluster: nat)
      requires Valid() && cluster < 0x1_0000_0000
      modifies fs`rootDirEntry, fs.cache.Repr()
      ensures Valid() && Rest() == old(Rest()) && Head() == old(Head()) && fresh(fs.cache.Repr() - old(fs.cache.Repr())) && fs.Vol() == old(fs.Vol())
      ensures Sde() == WithFirstCluster(old(Sde()), cluster)
      ensures DataKept(fs.geometry, old(fs.cache.Disk()), fs.cache.Disk(), Home())
    {
      hide Logical, CacheOk, Fat, BlockCacheManager.Valid, InData, ByteAt, DataKept, WithFirstCluster, PlaceOk, RestIn;
      var e := ReadSde();
      FirstClusterStored(e, cluster);
      WriteSde(WithFirstCluster(e, cluster));
    }

    method SetFileSize(size: nat)
      requires Valid()
      modifies fs`rootDirEntry, fs.cache.Repr()
      ensures Valid() && Rest() == old(Rest()) && Head() == old(Head()) && fresh(fs.cache.Repr() - old(fs.cache.Repr())) && fs.Vol() == old(fs.Vol())
      ensures Sde() == WithFileSize(old(Sde()), size)
      ensures DataKept(fs.geometry, old(fs.cache.Disk()), fs.cache.Disk(), Home())
    {
      hide Logical, CacheOk, Fat, BlockCacheManager.Valid, InData, ByteAt, DataKept, WithFileSize, PlaceOk, RestIn;
      var e := ReadSde();
      SizeKeepsHead(e, size);
      WriteSde(WithFileSize(e, size));
    }

    /** The new chain becomes the chain of the file, or is linked behind its last cluster. */
    method HangChain(firstCluster: nat, start: nat, ghost owned: seq<nat>, ghost cs: seq<nat>)
      requires Valid() && cs != [] && start == cs[0] && 2 <= start < fs.geometry.Clusters()
      requires owned == if firstCluster == NEW_VIRT_FILE_CLUSTER then [] else clusterChain.clusterVec
      requires firstCluster != NEW_VIRT_FILE_CLUSTER ==> owned != []
      modifies fs`rootDirEntry, clusterChain, fs.cache.Repr()
      ensures Valid() && Rest() == old(Rest()) && Head() == old(Head()) && fresh(fs.cache.Repr() - old(fs.cache.Repr()))
      ensures fs.fat.Table() == Joined(old(fs.fat.Table()), owned, cs)
      ensures clusterChain.clusterVec == if owned == [] then [start] else owned
      ensures Sde() == if owned == [] then WithFirstCluster(old(Sde()), start) else old(Sde())
      ensures DataKept(fs.geometry, old(fs.cache.Disk()), fs.cache.Disk(), Home())
    {
      hide Logical, CacheOk, Fat, BlockCacheManager.Valid, ByteAt, DataKept, WithFirstCluster, PlaceOk, WithEntry, RestIn;
      if firstCluster == NEW_VIRT_FILE_CLUSTER {
        clusterChain.Refresh(start);
        assert InData(fs.geometry, [start]);
        SetFirstCluster(start);
      } else {
        var last := clusterChain.clusterVec[|clusterChain.clusterVec| - 1];
        ghost var d := fs.cache.Disk();
        fs.fat.SetNextCluster(last, start);
        EntryTouchesNoData(fs.geometry, d, last, start);
        DataKeptMore(fs.geometry, d, fs.cache.Disk(), {}, Home());
        if sdePos.cluster != ROOT_DIR_ENTRY_CLUSTER {
          EntryKept(fs.geometry, d, fs.cache.Disk(), {}, sdePos);
        }
      }
    }

    /** Growth inside the clusters that are there. */
    method GrowInPlace(newSize: nat)
      requires Valid() && Agrees() && FileSizeOf(Sde()) < newSize < 0x1_0000_0000
      requires Need(fs.geometry, Clusters(), newSize) == 0
      modifies fs`rootDirEntry, clusterChain, fs.cache.Repr()
      ensures Valid() && Rest() == old(Rest()) && Head() == old(Head()) && fresh(fs.cache.Repr() - old(fs.cache.Repr())) && Agrees() && Clusters() == old(Clusters())
      ensures fs.Vol() == old(fs.Vol()) && FileSizeOf(Sde()) == (if isDir then 0 else newSize)
      ensures DataKept(fs.geometry, old(fs.cache.Disk()), fs.cache.Disk(), Home())
    {
      hide Logical, CacheOk, Fat, BlockCacheManager.Valid, ByteAt, DataKept, PlaceOk, FirstClusterOf, FileSizeOf, WithFileSize, Chain, ClustersFor,
        InData, RestIn;
      ghost var g, e := fs.geometry, Sde();
      ghost var owned := Clusters();
      AgreeSized(g, fs.fat.Table(), e, clusterChain.clusterVec, isDir, sdePos, newSize);
      DataKeptMore(g, fs.cache.Disk(), fs.cache.Disk(), {}, Home()) by { NothingTouched(g, fs.cache.Disk()); }
      if !isDir {
        SetFileSize(newSize);
      }
      ghost var d := fs.cache.Disk();
      clusterChain.Generate(owned);
      if sdePos.cluster != ROOT_DIR_ENTRY_CLUSTER {
        assert fs.cache.Disk() == d;
      }
    }

    /** `need` new clusters are taken and hung behind those of the file. */
    method TakeAndHang(need: nat, newSize: nat, ghost chains: Chains, ghost id: nat) returns (ghost cs: seq<nat>)
      requires Valid() && Agrees() && FileSizeOf(Sde()) < newSize < 0x1_0000_0000
      requires VolumeOk(fs.Vol(), chains) && Owns(chains, id, Clusters())
      requires need == Need(fs.geometry, Clusters(), newSize) > 0 && GrowRoom(fs.geometry, fs.Vol(), Sde(), Clusters(), newSize)
      modifies fs, fs.fat, clusterChain, fs.cache.Repr()
      ensures Valid() && Rest() == old(Rest()) && Head() == old(Head()) && fresh(fs.cache.Repr() - old(fs.cache.Repr()))
      ensures |cs| == need && clusterChain.clusterVec == if old(Clusters()) == [] then [cs[0]] else old(Clusters())
      ensures Sde() == if old(Clusters()) == [] then WithFirstCluster(old(Sde()), cs[0]) else old(Sde())
      ensures Hung(fs.geometry, fs.Vol(), old(Clusters()), cs, sdePos)
      ensures Step(old(fs.Vol()), chains, Grow(id, |cs|), fs.Vol(), chains[id := old(Clusters()) + cs])
      ensures Extended(fs.geometry, old(fs.cache.Disk()), fs.cache.Disk(), cs, Home())
    {
      hide Logical, CacheOk, Fat, BlockCacheManager.Valid, ByteAt, DataKept, WithFirstCluster, PlaceOk, WithEntry, FirstClusterOf, FileSizeOf,
        WithFileSize, Chain, QueueOk, Allocated, Extended, Filling, ClustersFor, Room, ReservedEntries, Joined, Step, VolumeOk, InData, Agree, Hung, RestIn, HandedOut;
      ghost var g, v0, d0, e0, vec0 := fs.geometry, fs.Vol(), fs.cache.Disk(), Sde(), clusterChain.clusterVec;
      ghost var owned := Clusters();
      var e := ReadSde();
      var start;
      VolumeParts(v0, chains);
      start, cs := fs.AllocClusterChain(need, FirstClusterOf(e));
      ghost var d1, fat1, q1 := fs.cache.Disk(), fs.fat.Table(), fs.fat.recycledCluster;
      NewClusters(g, v0, chains, id, e0, vec0, isDir, sdePos, cs, fat1, q1, d0, d1);
      HangChain(FirstClusterOf(e), start.value, owned, cs);
      ExtendedAgain(g, d0, d1, cs, Home(), fs.cache.Disk());
    }

    /** Growth by `need` new clusters. */
    method GrowByClusters(newSize: nat, need: nat, ghost chains: Chains, ghost id: nat) returns (ghost cs: seq<nat>)
      requires Valid() && Agrees() && FileSizeOf(Sde()) < newSize < 0x1_0000_0000
      requires VolumeOk(fs.Vol(), chains) && Owns(chains, id, Clusters())
      requires need == Need(fs.geometry, Clusters(), newSize) > 0 && GrowRoom(fs.geometry, fs.Vol(), Sde(), Clusters(), newSize)
      modifies fs, fs.fat, clusterChain, fs.cache.Repr()
      ensures Valid() && Rest() == old(Rest()) && Head() == old(Head()) && fresh(fs.cache.Repr() - old(fs.cache.Repr())) && Agrees()
      ensures |cs| == need && Clusters() == clusterChain.clusterVec == old(Clusters()) + cs
      ensures FileSizeOf(Sde()) == if isDir then 0 else newSize
      ensures Step(old(fs.Vol()), chains, Grow(id, |cs|), fs.Vol(), chains[id := old(Clusters()) + cs])
      ensures Extended(fs.geometry, old(fs.cache.Disk()), fs.cache.Disk(), cs, Home())
    {
      hide Logical, CacheOk, Fat, BlockCacheManager.Valid, ByteAt, DataKept, WithFirstCluster, PlaceOk, WithEntry, FirstClusterOf, FileSizeOf,
        WithFileSize, Chain, Extended, ClustersFor, Step, VolumeOk, Agree, Elements, RestIn;
      ghost var g, fat0, d0, e0, vec0 := fs.geometry, fs.fat.Table(), fs.cache.Disk(), Sde(), clusterChain.clusterVec;
      ghost var owned := Clusters();
      cs := TakeAndHang(need, newSize, chains, id);
      AgreeGrown(g, fat0, e0, vec0, isDir, sdePos, newSize, cs, fs.fat.Table());
      ghost var d1 := fs.cache.Disk();
      if !isDir {
        SetFileSize(newSize);
        ExtendedAgain(g, d0, d1, cs, Home(), fs.cache.Disk());
      }
      clusterChain.Generate(owned + cs);
    }

    /** `incerase_size`: nothing unless the file gets longer; then the clusters that are missing are taken,
        cleared and linked, and the vector is completed. */
    method IncreaseSize(newSize: nat, ghost chains: Chains, ghost id: nat) returns (ghost cs: seq<nat>)
      requires Valid() && Agrees() && newSize < 0x1_0000_0000
      requires VolumeOk(fs.Vol(), chains) && Owns(chains, id, Clusters())
      requires GrowRoom(fs.geometry, fs.Vol(), Sde(), Clusters(), newSize)
      modifies fs, fs.fat, clusterChain, fs.cache.Repr()
      ensures Valid() && Rest() == old(Rest()) && Head() == old(Head()) && fresh(fs.cache.Repr() - old(fs.cache.Repr())) && Agrees()
      ensures cs == [] ==> fs.Vol() == old(fs.Vol())
      ensures cs != [] ==> Step(old(fs.Vol()), chains, Grow(id, |cs|), fs.Vol(), chains[id := old(Clusters()) + cs])
      ensures Clusters() == old(Clusters()) + cs
      ensures FileSizeOf(Sde()) == if newSize <= FileSizeOf(old(Sde())) || isDir then FileSizeOf(old(Sde())) else newSize
      ensures |cs| == if newSize <= FileSizeOf(old(Sde())) then 0 else Need(fs.geometry, old(Clusters()), newSize)
      ensures newSize <= FileSizeOf(old(Sde())) ==> fs.cache.Disk() == old(fs.cache.Disk())
      ensures newSize > 0 ==>
                Clusters() == clusterChain.clusterVec != [] && newSize <= Capacity(fs.geometry, clusterChain.clusterVec)
      ensures Extended(fs.geometry, old(fs.cache.Disk()), fs.cache.Disk(), cs, Home())
    {
      hide Logical, CacheOk, Fat, BlockCacheManager.Valid, ByteAt, DataKept, PlaceOk, FirstClusterOf, FileSizeOf,
        Chain, Extended, ClustersFor, Step, VolumeOk, Agree, Elements, Capacity, GrowRoom, Owned, RestIn;
      ghost var g, fat0, d0, e0, vec0 := fs.geometry, fs.fat.Table(), fs.cache.Disk(), Sde(), clusterChain.clusterVec;
      ghost var owned := Clusters();
      var e := ReadSde();
      var firstCluster, oldSize := FirstClusterOf(e), FileSizeOf(e);
      cs := [];
      StartExtending(g, d0, Home());
      AgreeDir(g, fat0, e0, vec0, isDir, sdePos);
      assert owned + [] == owned;
      if newSize <= oldSize {
        EnoughRoom(g, fat0, e0, vec0, isDir, sdePos, newSize);
        return;
      }
      var need := ClustersFor(fs.geometry, newSize);
      if firstCluster != NEW_VIRT_FILE_CLUSTER {
        var oldCnt := |clusterChain.clusterVec|;
        need := if need > oldCnt then need - oldCnt else 0;
      }
      assert need == Need(g, owned, newSize) by { OwnedIs(e0, vec0); }
      if need == 0 {
        GrowInPlace(newSize);
        InPlaceExtends(g, d0, fs.cache.Disk(), Home());
      } else {
        cs := GrowByClusters(newSize, need, chains, id);
      }
      RoomAfterGrowth(g, owned, cs, newSize);
      AgreeOwned(g, fs.fat.Table(), Sde(), clusterChain.clusterVec, isDir, sdePos, owned + cs);
    }

    /** `write_at`: the file is made long enough, then the bytes are copied in. */
    method WriteAt(offset: nat, buf: seq<Byte>, ghost chains: Chains, ghost id: nat) returns (alreadyWrite: nat, ghost cs: seq<nat>)
      requires Valid() && Agrees() && offset + |buf| < 0x1_0000_0000
      requires VolumeOk(fs.Vol(), chains) && Owns(chains, id, Clusters())
      requires buf != [] ==> GrowRoom(fs.geometry, fs.Vol(), Sde(), Clusters(), offset + |buf|)
      modifies fs, fs.fat, clusterChain, fs.cache.Repr()
      ensures Valid() && Rest() == old(Rest()) && Head() == old(Head()) && fresh(fs.cache.Repr() - old(fs.cache.Repr())) && Agrees()
      ensures alreadyWrite == |buf|
      ensures cs == [] ==> fs.Vol() == old(fs.Vol())
      ensures cs != [] ==> Step(old(fs.Vol()), chains, Grow(id, |cs|), fs.Vol(), chains[id := old(Clusters()) + cs])
      ensures Clusters() == old(Clusters()) + cs
      ensures |cs| == if offset + |buf| <= FileSizeOf(old(Sde())) || buf == [] then 0 else Need(fs.geometry, old(Clusters()), offset + |buf|)
      ensures FileSizeOf(Sde()) == if buf == [] || isDir then FileSizeOf(old(Sde())) else Max(FileSizeOf(old(Sde())), offset + |buf|)
      ensures buf == [] ==> fs.cache.Disk() == old(fs.cache.Disk()) && clusterChain.clusterVec == old(clusterChain.clusterVec)
      ensures buf != [] ==>
                && Clusters() == clusterChain.clusterVec && InData(fs.geometry, old(Clusters()))
                && Written(fs.geometry, old(fs.cache.Disk()), fs.cache.Disk(), old(Clusters()), clusterChain.clusterVec, offset, buf, Home())
    {
      hide Logical, CacheOk, Fat, BlockCacheManager.Valid, ByteAt, DataKept, PlaceOk, FirstClusterOf, FileSizeOf,
        Chain, Extended, Step, VolumeOk, Agree, Elements, Capacity, GrowRoom, Owned, WrittenSoFar, Written, InData, RestIn;
      ghost var g, fat0, d0, e0, vec0 := fs.geometry, fs.fat.Table(), fs.cache.Disk(), Sde(), clusterChain.clusterVec;
      ghost var owned := Clusters();
      cs := [];
      assert owned + [] == owned;
      AgreeDir(g, fat0, e0, vec0, isDir, sdePos);
      if |buf| == 0 {
        return 0, cs;
      }
      OwnedInData(g, e0, vec0);
      cs := IncreaseSize(offset + |buf|, chains, id);
      ghost var d1, e1, fat1 := fs.cache.Disk(), Sde(), fs.fat.Table();
      WriteData(offset, buf);
      WriteIntoGrown(g, fat0, fat1, d0, d1, fs.cache.Disk(), e0, vec0, owned, cs, clusterChain.clusterVec, isDir, sdePos, e1, offset, buf, Home());
      return |buf|, cs;
    }

    /** The clusters of the file, by the table, are given back. */
    method ReleaseAll(firstCluster: nat, ghost chains: Chains, ghost id: nat) returns (clusterCnt: nat)
      requires Valid() && Agrees() && VolumeOk(fs.Vol(), chains) && Owns(chains, id, Clusters())
      requires firstCluster == FirstClusterOf(Sde())
      modifies fs, fs.fat, fs.cache.Repr()
      ensures Valid() && Rest() == old(Rest()) && fresh(fs.cache.Repr() - old(fs.cache.Repr())) && Sde() == old(Sde())
      ensures PlaceInUse(fs.fat.Table(), sdePos) && clusterCnt == |old(Clusters())|
      ensures old(Clusters()) == [] ==> fs.Vol() == old(fs.Vol())
      ensures old(Clusters()) != [] ==> Step(old(fs.Vol()), chains, Delete(id), fs.Vol(), chains - {id})
      ensures DataKept(fs.geometry, old(fs.cache.Disk()), fs.cache.Disk(), {})
    {
      hide Logical, CacheOk, Fat, BlockCacheManager.Valid, ByteAt, DataKept, PlaceOk, FirstClusterOf, FileSizeOf,
        WithFileSize, WithFirstCluster, Chain, ClustersFor, VolumeOk, Agree, InData, Released, Step, PlaceInUse, Owned, RestIn;
      ghost var g, v0, d0, e0, vec := fs.geometry, fs.Vol(), fs.cache.Disk(), Sde(), clusterChain.clusterVec;
      NothingTouched(g, d0);
      FirstOf(g, v0, d0, e0, vec, isDir, sdePos);
      if firstCluster >= 2 && firstCluster < END_OF_CLUSTER {
        var allClusters := fs.fat.GetAllClusterId(firstCluster, vec);
        clusterCnt := |allClusters|;
        fs.DeallocCluster(allClusters);
        DeleteStep(v0, chains, id, vec, fs.Vol());
        AgreeAfterRelease(g, v0.fat, v0.recycled, e0, vec, isDir, sdePos, fs.fat.Table(), fs.fat.recycledCluster);
        if sdePos.cluster != ROOT_DIR_ENTRY_CLUSTER {
          EntryKept(g, d0, fs.cache.Disk(), {}, sdePos);
        }
      } else {
        clusterCnt := 0;
        EmptyEntry(g, v0.fat, e0, vec, isDir, sdePos);
      }
    }

    /** `clear_content`: all clusters are given back; the vector is left as it is. */
    method ClearContent(ghost chains: Chains, ghost id: nat) returns (clusterCnt: nat)
      requires Valid() && Agrees() && VolumeOk(fs.Vol(), chains) && Owns(chains, id, Clusters())
      modifies fs, fs.fat, fs.cache.Repr()
      ensures Valid() && Rest() == old(Rest()) && Head() == old(Head()) && fresh(fs.cache.Repr() - old(fs.cache.Repr())) && Agrees()
      ensures clusterCnt == |old(Clusters())| && Clusters() == [] && FileSizeOf(Sde()) == 0
      ensures old(Clusters()) == [] ==> fs.Vol() == old(fs.Vol())
      ensures old(Clusters()) != [] ==> Step(old(fs.Vol()), chains, Delete(id), fs.Vol(), chains - {id})
      ensures DataKept(fs.geometry, old(fs.cache.Disk()), fs.cache.Disk(), Home())
    {
      hide Logical, CacheOk, Fat, BlockCacheManager.Valid, ByteAt, DataKept, PlaceOk, FirstClusterOf, FileSizeOf,
        WithFileSize, WithFirstCluster, Chain, ClustersFor, VolumeOk, Agree, InData, Step, PlaceInUse, Owned, RestIn;
      ghost var g, d0, e0, vec := fs.geometry, fs.cache.Disk(), Sde(), clusterChain.clusterVec;
      var e := ReadSde();
      clusterCnt := ReleaseAll(FirstClusterOf(e), chains, id);
      ghost var d1 := fs.cache.Disk();
      DataKeptMore(g, d0, d1, {}, Home());
      SetFileSize(0);
      ghost var d2 := fs.cache.Disk();
      HomeTwice(g, d0, d1, d2, Home());
      SetFirstCluster(NEW_VIRT_FILE_CLUSTER);
      HomeTwice(g, d0, d2, fs.cache.Disk(), Home());
      AgreeEmpty(g, fs.fat.Table(), e0, vec, isDir, sdePos);
    }

    /** The clusters behind the first `left` ones are given back. */
    method CutVector(left: nat, right: nat, ghost chains: Chains, ghost id: nat)
      requires Valid() && Agrees() && VolumeOk(fs.Vol(), chains) && Owns(chains, id, Clusters())
      requires Clusters() == clusterChain.clusterVec && 1 <= left <= right == |clusterChain.clusterVec|
      modifies fs, fs.fat, clusterChain, fs.cache.Repr()
      ensures Valid() && Rest() == old(Rest()) && fresh(fs.cache.Repr() - old(fs.cache.Repr())) && Sde() == old(Sde())
      ensures clusterChain.clusterVec == old(clusterChain.clusterVec)[..left]
      ensures Released(old(fs.fat.Table()), old(fs.fat.recycledCluster), old(clusterChain.clusterVec)[left..], fs.fat.Table(), fs.fat.recycledCluster)
      ensures fs.freeClusterCnt == old(fs.freeClusterCnt) + |old(clusterChain.clusterVec)[left..]|
      ensures DataKept(fs.geometry, old(fs.cache.Disk()), fs.cache.Disk(), {})
    {
      hide Logical, CacheOk, Fat, BlockCacheManager.Valid, ByteAt, DataKept, PlaceOk, FirstClusterOf, FileSizeOf, Chain, ClustersFor, VolumeOk,
        Agree, Released, Owned, RestIn;
      ghost var g, fat0, d0, vec, e0 := fs.geometry, fs.fat.Table(), fs.cache.Disk(), clusterChain.clusterVec, Sde();
      AgreeOwned(g, fat0, e0, vec, isDir, sdePos, vec);
      VecInTable(fat0, vec);
      var releaseVec: seq<nat> := [];
      var i := left;
      while i < right
        invariant left <= i <= right && releaseVec == vec[left..i] && clusterChain.clusterVec == vec
      {
        releaseVec := releaseVec + [clusterChain.clusterVec[i]];
        i := i + 1;
      }
      assert releaseVec == vec[left..];
      clusterChain.Truncate(left);
      assert vec[..left] == clusterChain.clusterVec;
      PrefixInData(g, vec, left);
      fs.DeallocCluster(releaseVec);
      if sdePos.cluster != ROOT_DIR_ENTRY_CLUSTER {
        EntryKept(g, d0, fs.cache.Disk(), {}, sdePos);
      }
    }

    /** The chain ends at `last`. */
    method EndAt(last: nat)
      requires Valid() && last < fs.geometry.Clusters()
      modifies fs.cache.Repr()
      ensures Valid() && Rest() == old(Rest()) && fresh(fs.cache.Repr() - old(fs.cache.Repr())) && Sde() == old(Sde())
      ensures last in old(fs.fat.Table()) && fs.fat.Table() == old(fs.fat.Table())[last := END_OF_CLUSTER]
      ensures DataKept(fs.geometry, old(fs.cache.Disk()), fs.cache.Disk(), Home())
    {
      hide Logical, CacheOk, Fat, BlockCacheManager.Valid, DataKept, PlaceOk, WithEntry, RestIn;
      ghost var g, d := fs.geometry, fs.cache.Disk();
      TableKeys(g, d);
      fs.fat.SetNextCluster(last, END_OF_CLUSTER);
      EntryTouchesNoData(g, d, last, END_OF_CLUSTER);
      DataKeptMore(g, d, fs.cache.Disk(), {}, Home());
      if sdePos.cluster != ROOT_DIR_ENTRY_CLUSTER {
        EntryKept(g, d, fs.cache.Disk(), {}, sdePos);
      }
    }

    /** A file gets shorter but not empty: clusters behind the new end are given back, and the last one that is
        left ends the chain. */
    method Shrink(newSize: nat, ghost chains: Chains, ghost id: nat) returns (ghost left: nat)
      requires Valid() && Agrees() && VolumeOk(fs.Vol(), chains) && Owns(chains, id, Clusters())
      requires 0 < newSize < FileSizeOf(Sde())
      modifies fs, fs.fat, clusterChain, fs.cache.Repr()
      ensures Valid() && Rest() == old(Rest()) && Head() == old(Head()) && fresh(fs.cache.Repr() - old(fs.cache.Repr())) && Agrees()
      ensures FileSizeOf(Sde()) == newSize && left == ClustersFor(fs.geometry, newSize)
      ensures left <= |old(Clusters())| && Clusters() == clusterChain.clusterVec == old(Clusters())[..left]
      ensures Step(old(fs.Vol()), chains, FatChains.Shrink(id, left), fs.Vol(), chains[id := old(Clusters())[..left]])
      ensures DataKept(fs.geometry, old(fs.cache.Disk()), fs.cache.Disk(), Home())
    {
      hide Logical, CacheOk, Fat, BlockCacheManager.Valid, ByteAt, DataKept, PlaceOk, FirstClusterOf, FileSizeOf, WithFileSize, Chain, ClustersFor,
        VolumeOk, Agree, Released, Owned, Step, InData, WithEntry, RestIn;
      ghost var g, v0, d0, vec, e0 := fs.geometry, fs.Vol(), fs.cache.Disk(), clusterChain.clusterVec, Sde();
      var e := ReadSde();
      var oldSize := FileSizeOf(e);
      left := ClustersFor(fs.geometry, newSize);
      var right := ClustersFor(fs.geometry, oldSize);
      var keep := ClustersFor(fs.geometry, newSize);
      ShrinkFacts(g, v0.fat, e0, vec, isDir, sdePos, newSize);
      CutVector(keep, right, chains, id);
      ghost var d1, fat1, q1 := fs.cache.Disk(), fs.fat.Table(), fs.fat.recycledCluster;
      DataKeptMore(g, d0, d1, {}, Home());
      SetFileSize(newSize);
      ghost var d2 := fs.cache.Disk();
      HomeTwice(g, d0, d1, d2, Home());
      var last := clusterChain.clusterVec[|clusterChain.clusterVec| - 1];
      ShrunkTable(g, v0, chains, id, e0, vec, isDir, sdePos, newSize, left, fat1, q1, d0);
      EndAt(last);
      HomeTwice(g, d0, d2, fs.cache.Disk(), Home());
    }

    /** `modify_size`. */
    method ModifySize(newSize: nat, ghost chains: Chains, ghost id: nat)
      requires Valid() && Agrees() && newSize < 0x1_0000_0000
      requires VolumeOk(fs.Vol(), chains) && Owns(chains, id, Clusters())
      requires GrowRoom(fs.geometry, fs.Vol(), Sde(), Clusters(), newSize)
      modifies fs, fs.fat, clusterChain, fs.cache.Repr()
      ensures Valid() && Rest() == old(Rest()) && Head() == old(Head()) && fresh(fs.cache.Repr() - old(fs.cache.Repr())) && Agrees()
      ensures FileSizeOf(Sde()) == if isDir then 0 else newSize
      ensures newSize == 0 ==> Clusters() == []
      ensures fs.Vol() == old(fs.Vol()) || exists e :: Step(old(fs.Vol()), chains, e, fs.Vol(), ChainsAfter(chains, id, Clusters()))
      ensures InData(fs.geometry, old(Clusters())) && InData(fs.geometry, Clusters())
      ensures KeepsBytes(fs.geometry, old(fs.cache.Disk()), fs.cache.Disk(), old(Clusters()), Clusters())
      ensures newSize > 0 && newSize >= FileSizeOf(old(Sde())) ==> old(Clusters()) <= Clusters()
      ensures newSize < FileSizeOf(old(Sde())) ==>
                ClustersFor(fs.geometry, newSize) <= |old(Clusters())| && Clusters() == old(Clusters())[..ClustersFor(fs.geometry, newSize)]
      ensures DataKept(fs.geometry, old(fs.cache.Disk()), fs.cache.Disk(), Elements(Clusters()) + Home())
    {
      hide Logical, CacheOk, Fat, BlockCacheManager.Valid, ByteAt, DataKept, PlaceOk, FirstClusterOf, FileSizeOf, Chain, ClustersFor,
        VolumeOk, Agree, Owned, Step, InData, GrowRoom, KeepsBytes, Extended, Capacity, Elements, RestIn;
      ghost var g, fat0, d0, e0, vec0 := fs.geometry, fs.fat.Table(), fs.cache.Disk(), Sde(), clusterChain.clusterVec;
      ghost var owned := Clusters();
      OwnedInData(g, e0, vec0);
      AgreeDir(g, fat0, e0, vec0, isDir, sdePos);
      OwnedApart(g, fat0, e0, vec0, isDir, sdePos);
      var e := ReadSde();
      var oldSize := FileSizeOf(e);
      if newSize == 0 {
        var cnt := ClearContent(chains, id);
        NoBytes(g, d0, fs.cache.Disk(), owned);
        assert chains - {id} == ChainsAfter(chains, id, []);
        ClustersForGrows(g, 0, 0);
        DataKeptMore(g, d0, fs.cache.Disk(), Home(), Elements([]) + Home());
      } else if newSize >= oldSize {
        ghost var cs := IncreaseSize(newSize, chains, id);
        OwnedInData(g, Sde(), clusterChain.clusterVec);
        OwnedApart(g, fs.fat.Table(), Sde(), clusterChain.clusterVec, isDir, sdePos);
        GrownKeepsBytes(g, d0, fs.cache.Disk(), owned, cs, Home());
        ExtendedKeepsData(g, d0, fs.cache.Disk(), owned, cs, Home());
        assert cs != [] ==> ChainsAfter(chains, id, owned + cs) == chains[id := owned + cs];
      } else {
        ghost var left := Shrink(newSize, chains, id);
        OwnedInData(g, Sde(), clusterChain.clusterVec);
        ShrunkKeepsBytes(g, d0, fs.cache.Disk(), owned, left, Home());
        DataKeptMore(g, d0, fs.cache.Disk(), Home(), Elements(Clusters()) + Home());
        ClustersForGrows(g, newSize, newSize);
        assert ChainsAfter(chains, id, owned[..left]) == chains[id := owned[..left]];
      }
    }

    /** The clusters where the long entries of the file are. */
    ghost function LongHome(): set<nat> {
      set i | 0 <= i < |ldePos| :: ldePos[i].cluster
    }

    /** Every long entry gets the mark of an unused one; the short entry is another one. */
    method DeleteLongEntries()
      requires Valid() && LongPlacesOk(fs.geometry, ldePos, sdePos)
      modifies fs.cache.Repr()
      ensures Valid() && fresh(fs.cache.Repr() - old(fs.cache.Repr())) && Sde() == old(Sde()) && fs.Vol() == old(fs.Vol())
      ensures DataKept(fs.geometry, old(fs.cache.Disk()), fs.cache.Disk(), LongHome())
      ensures LongDeleted(fs.geometry, old(fs.cache.Disk()), fs.cache.Disk(), ldePos, |ldePos|)
      ensures fs.cache.Disk() == AllMarked(fs.geometry, old(fs.cache.Disk()), ldePos, |ldePos|)
    {
      hide Logical, CacheOk, Fat, BlockCacheManager.Valid, DataKept, PlaceOk, InData, LongDeleted, LongPlacesOk, EntryIn, Splice;
      ghost var g, d0 := fs.geometry, fs.cache.Disk();
      NothingTouched(g, d0);
      DataKeptMore(g, d0, d0, {}, LongHome());
      NoneDeleted(g, d0, ldePos, sdePos);
      var i := 0;
      while i < |ldePos|
        invariant 0 <= i <= |ldePos|
        invariant Valid() && fresh(fs.cache.Repr() - old(fs.cache.Repr())) && Sde() == old(Sde()) && fs.Vol() == old(fs.Vol())
        invariant DataKept(g, d0, fs.cache.Disk(), LongHome())
        invariant LongDeleted(g, d0, fs.cache.Disk(), ldePos, i)
        invariant fs.cache.Disk() == AllMarked(g, d0, ldePos, i)
      {
        ghost var d := fs.cache.Disk();
        fs.cache.SameBlocks();
        DeleteOne(g, d0, d, ldePos, sdePos, i, LongHome());
        var pos := SdePos(fs.geometry, ldePos[i]);
        fs.cache.ModifyBlock(pos.0, pos.1, [DIR_ENTRY_UNUSED]);
        i := i + 1;
      }
    }

    /** The clusters in the vector are given back. */
    method ReleaseVector(firstCluster: nat, ghost chains: Chains, ghost id: nat) returns (clusterCnt: nat)
      requires Valid() && VolumeOk(fs.Vol(), chains)
      requires 2 <= firstCluster < END_OF_CLUSTER ==>
                 && clusterChain.clusterVec != [] && Owns(chains, id, clusterChain.clusterVec)
                 && (forall c :: c in clusterChain.clusterVec ==> c in fs.fat.Table())
      modifies fs, fs.fat, clusterChain, fs.cache.Repr()
      ensures Valid() && Rest() == old(Rest()) && fresh(fs.cache.Repr() - old(fs.cache.Repr())) && Sde() == old(Sde())
      ensures DataKept(fs.geometry, old(fs.cache.Disk()), fs.cache.Disk(), {})
      ensures !(2 <= firstCluster < END_OF_CLUSTER) ==> clusterCnt == 0 && fs.Vol() == old(fs.Vol())
      ensures 2 <= firstCluster < END_OF_CLUSTER ==>
                && clusterCnt == |old(clusterChain.clusterVec)| && clusterChain.clusterVec == []
                && Step(old(fs.Vol()), chains, Delete(id), fs.Vol(), chains - {id})
    {
      hide Logical, CacheOk, Fat, BlockCacheManager.Valid, DataKept, PlaceOk, VolumeOk, Released, Step, RestIn;
      ghost var g, v0, d0 := fs.geometry, fs.Vol(), fs.cache.Disk();
      NothingTouched(g, d0);
      if firstCluster >= 2 && firstCluster < END_OF_CLUSTER {
        var allClusters := clusterChain.clusterVec;
        clusterChain.clusterVec := [];
        clusterCnt := |allClusters|;
        fs.DeallocCluster(allClusters);
        DeleteStep(v0, chains, id, allClusters, fs.Vol());
        if sdePos.cluster != ROOT_DIR_ENTRY_CLUSTER {
          EntryKept(g, d0, fs.cache.Disk(), {}, sdePos);
        }
      } else {
        clusterCnt := 0;
      }
    }

    /** `clear_direntry`: all entries of the file are marked unused. */
    method ClearDirEntry()
      requires Valid() && LongPlacesOk(fs.geometry, ldePos, sdePos)
      modifies fs`rootDirEntry, fs.cache.Repr()
      ensures Valid() && fresh(fs.cache.Repr() - old(fs.cache.Repr())) && fs.Vol() == old(fs.Vol())
      ensures Sde() == MarkedUnused(old(Sde()))
      ensures sdePos.cluster != ROOT_DIR_ENTRY_CLUSTER ==> fs.rootDirEntry == old(fs.rootDirEntry)
      ensures DataKept(fs.geometry, old(fs.cache.Disk()), fs.cache.Disk(), LongHome() + Home())
      ensures fs.cache.Disk() == Cleared(fs.geometry, old(fs.cache.Disk()), ldePos, sdePos, old(Sde()))
    {
      hide Logical, CacheOk, Fat, BlockCacheManager.Valid, DataKept, PlaceOk, MarkedUnused, LongPlacesOk, LongDeleted, InData, EntryIn;
      ghost var g, d0 := fs.geometry, fs.cache.Disk();
      DeleteLongEntries();
      ghost var d1 := fs.cache.Disk();
      var e := ReadSde();
      WriteSde(MarkedUnused(e));
      DataKeptTwice(g, d0, d1, fs.cache.Disk(), LongHome(), Home());
    }

    /** `clear`: the entries of the file are marked unused, and its clusters are given back. */
    method Clear(ghost chains: Chains, ghost id: nat) returns (clusterCnt: nat)
      requires Valid() && Agrees() && LongPlacesOk(fs.geometry, ldePos, sdePos)
      requires VolumeOk(fs.Vol(), chains) && Owns(chains, id, Clusters())
      modifies fs, fs.fat, clusterChain, fs.cache.Repr()
      ensures Valid() && fresh(fs.cache.Repr() - old(fs.cache.Repr()))
      ensures Sde() == MarkedUnused(old(Sde()))
      ensures sdePos.cluster != ROOT_DIR_ENTRY_CLUSTER ==> fs.rootDirEntry == old(fs.rootDirEntry)
      ensures clusterCnt == |old(Clusters())| && (clusterCnt > 0 ==> clusterChain.clusterVec == [])
      ensures old(Clusters()) == [] ==> fs.Vol() == old(fs.Vol())
      ensures old(Clusters()) != [] ==> Step(old(fs.Vol()), chains, Delete(id), fs.Vol(), chains - {id})
      ensures DataKept(fs.geometry, old(fs.cache.Disk()), fs.cache.Disk(), LongHome() + Home())
      ensures DataKept(fs.geometry, Cleared(fs.geometry, old(fs.cache.Disk()), ldePos, sdePos, old(Sde())), fs.cache.Disk(), {})
    {
      hide Logical, CacheOk, Fat, BlockCacheManager.Valid, DataKept, PlaceOk, FirstClusterOf, FileSizeOf, MarkedUnused, LongPlacesOk,
        Chain, ClustersFor, VolumeOk, Agree, Step, Owned, Owns, InData, EntryIn;
      ghost var g, v0, d0, e0, vec := fs.geometry, fs.Vol(), fs.cache.Disk(), Sde(), clusterChain.clusterVec;
      ReadyToRelease(g, v0, d0, e0, vec, isDir, sdePos, chains, id);
      var e := ReadSde();
      var firstCluster := FirstClusterOf(e);
      ClearDirEntry();
      ghost var d2 := fs.cache.Disk();
      clusterCnt := ReleaseVector(firstCluster, chains, id);
      DataKeptTwice(g, d0, d2, fs.cache.Disk(), LongHome() + Home(), {});
      assert LongHome() + Home() + {} == LongHome() + Home();
    }

    /** `dirent_cluster_pos`: the cluster of byte `offset`, by the table, and the offset there. */
    method DirentClusterPos(offset: nat) returns (pos: DirEntryPos)
      requires Valid() && Agrees() && offset < Capacity(fs.geometry, Clusters())
      modifies fs.cache.Repr()
      ensures Valid() && fresh(fs.cache.Repr() - old(fs.cache.Repr())) && fs.cache.Disk() == old(fs.cache.Disk())
      ensures ClusterIndex(fs.geometry, offset) < |Clusters()|
      ensures pos == DirEntryPos(Clusters()[ClusterIndex(fs.geometry, offset)], offset % fs.geometry.ClusterSize())
    {
      hide Logical, CacheOk, Fat, BlockCacheManager.Valid, Agree, Chain, InData, EntryIn, FirstClusterOf, PlaceOk, BlockIndex;
      ghost var g, v, d, e0, vec := fs.geometry, fs.Vol(), fs.cache.Disk(), Sde(), clusterChain.clusterVec;
      FirstOf(g, v, d, e0, vec, isDir, sdePos);
      CapacityIndex(g, Clusters(), offset);
      var clusterSize := fs.geometry.ClusterSize();
      FirstCluster(g, offset);
      var e := ReadSde();
      var cluster := fs.fat.GetClusterAt(FirstClusterOf(e), offset / clusterSize, vec);
      return DirEntryPos(cluster.value, offset % clusterSize);
    }

    /** `dirent_block_pos`: the block and the offset there from which `read_at` copies byte `offset`. */
    method DirentBlockPos(offset: nat) returns (pos: (nat, nat))
      requires Valid() && Agrees() && offset < Capacity(fs.geometry, Clusters())
      modifies fs.cache.Repr()
      ensures Valid() && fresh(fs.cache.Repr() - old(fs.cache.Repr())) && fs.cache.Disk() == old(fs.cache.Disk())
      ensures InData(fs.geometry, Clusters()) && pos.0 in fs.cache.Disk() && pos.1 < BLOCK_SIZE
      ensures fs.geometry.ClusterSize() > 0 && pos.1 == offset % fs.geometry.ClusterSize() % BLOCK_SIZE
      ensures BlockReads(fs.geometry, fs.cache.Disk(), Clusters(), offset, fs.cache.Disk()[pos.0], pos.1)
    {
      hide Logical, CacheOk, Fat, BlockCacheManager.Valid, Agree, Chain, InData, EntryIn, FirstClusterOf, PlaceOk, ByteAt, Capacity, Owned,
        ClusterIndex, ClusterBlock, Geometry.Offset, Geometry.ClusterSize, BlockReads;
      ghost var g, d, cs := fs.geometry, fs.cache.Disk(), Clusters();
      OwnedInData(g, Sde(), clusterChain.clusterVec);
      FirstCluster(g, offset);
      fs.cache.SameBlocks();
      var at := DirentClusterPos(offset);
      ClusterIsData(g, cs, ClusterIndex(g, offset));
      var offsetInDisk := fs.geometry.Offset(at.cluster);
      pos := (offsetInDisk / BLOCK_SIZE + at.offset / BLOCK_SIZE, at.offset % BLOCK_SIZE);
      BlockPosReads(g, d, cs, offset);
    }
  }

  /** The bytes of the range are those of the buffer; before and behind, the file reads as it did, and zero
      where it had no clusters.  Data outside its clusters and the place of its entry is as before. */
  ghost predicate Written(g: Geometry, d0: Blocks, d: Blocks, owned: seq<nat>, vec: seq<nat>, offset: nat, buf: seq<Byte>, home: set<nat>)
    requires g.perCluster > 0 && InData(g, owned) && InData(g, vec)
  {
    && DataKept(g, d0, d, Elements(vec) + home)
    && offset + |buf| <= Capacity(g, vec) && Capacity(g, owned) <= Capacity(g, vec)
    && (forall k: nat :: k < Capacity(g, vec) ==>
          ByteAt(g, d, vec, k) ==
          if offset <= k < offset + |buf| then buf[k - offset]
          else if k < Capacity(g, owned) then ByteAt(g, d0, owned, k)
          else 0)
  }

  lemma OwnedInData(g: Geometry, e: DirEntry, vec: seq<nat>)
    requires InData(g, vec)
    ensures InData(g, Owned(e, vec))
  {
  }

  lemma WriteIntoGrown(g: Geometry, fat0: FatTable, fat1: FatTable, d0: Blocks, d1: Blocks, d2: Blocks, e0: DirEntry, vec0: seq<nat>,
                       owned: seq<nat>, cs: seq<nat>, vec: seq<nat>, isDir: bool, pos: DirEntryPos, e1: DirEntry,
                       offset: nat, buf: seq<Byte>, home: set<nat>)
    requires g.Ok() && PlaceOk(g, pos) && Agree(g, fat0, e0, vec0, isDir, pos) && owned == Owned(e0, vec0)
    requires home == if pos.cluster == ROOT_DIR_ENTRY_CLUSTER then {} else {pos.cluster}
    requires Agree(g, fat1, e1, vec, isDir, pos) && Owned(e1, vec) == owned + cs == vec && vec != []
    requires InData(g, vec) && InData(g, owned)
    requires Extended(g, d0, d1, cs, home) && WrittenSoFar(g, d1, d2, vec, offset, buf, |buf|) && offset + |buf| <= Capacity(g, vec)
    ensures Written(g, d0, d2, owned, vec, offset, buf, home)
    ensures pos.cluster != ROOT_DIR_ENTRY_CLUSTER ==> EntryIn(g, d2, pos) == EntryIn(g, d1, pos) && RestIn(g, d2, pos) == RestIn(g, d1, pos)
    ensures Fat(g, d2) == Fat(g, d1)
  {
    hide ByteAt, FirstClusterOf, FileSizeOf, Chain, Capacity, ClustersFor, Fat, DataKept, AllZeroed;
    AgreeOwned(g, fat1, e1, vec, isDir, pos, vec);
    PartsInData(g, owned, cs);
    assert Elements(vec) == Elements(owned) + Elements(cs);
    PartsApart(owned, cs, vec);
    assert Elements(owned) !! Elements(cs) + home;
    GrownBytes(g, d0, d1, owned, cs, home);
    if pos.cluster != ROOT_DIR_ENTRY_CLUSTER {
      EntryKept(g, d1, d2, Elements(vec), pos);
    }
    DataKeptTwice(g, d0, d1, d2, Elements(cs) + home, Elements(vec));
    assert Elements(cs) + home + Elements(vec) == Elements(vec) + home;
  }

  lemma PartsInData(g: Geometry, a: seq<nat>, b: seq<nat>)
    requires InData(g, a + b)
    ensures InData(g, a) && InData(g, b)
  {
    forall i | 0 <= i < |a|
      ensures a[i] == (a + b)[i]
    {
    }
    forall i | 0 <= i < |b|
      ensures b[i] == (a + b)[|a| + i]
    {
    }
  }

  lemma PartsApart(a: seq<nat>, b: seq<nat>, ab: seq<nat>)
    requires ab == a + b && NoDuplicates(ab)
    ensures Elements(a) !! Elements(b)
  {
    forall x | x in a
      ensures x !in b
    {
      var i :| 0 <= i < |a| && a[i] == x;
      forall j | 0 <= j < |b|
        ensures b[j] != x
      {
        assert ab[i] != ab[|a| + j];
      }
    }
  }

  lemma VecInTable(fat: FatTable, cs: seq<nat>)
    requires Chain(fat, cs)
    ensures forall c :: c in cs ==> c in fat
  {
  }

  lemma PrefixInData(g: Geometry, cs: seq<nat>, n: nat)
    requires InData(g, cs) && n <= |cs|
    ensures InData(g, cs[..n])
  {
  }

  /** A file that can be made shorter has its clusters. */
  lemma ShrinkFacts(g: Geometry, fat: FatTable, e: DirEntry, vec: seq<nat>, isDir: bool, pos: DirEntryPos, newSize: nat)
    requires g.perCluster > 0 && Agree(g, fat, e, vec, isDir, pos) && 0 < newSize < FileSizeOf(e)
    ensures !isDir && Owned(e, vec) == vec && |vec| == ClustersFor(g, FileSizeOf(e))
    ensures 1 <= ClustersFor(g, newSize) <= |vec|
  {
    hide FirstClusterOf, FileSizeOf, Chain, ClustersFor;
    ClustersForGrows(g, newSize, FileSizeOf(e));
  }

  lemma ShrunkTable(g: Geometry, v: Volume, chains: Chains, id: nat, e: DirEntry, vec: seq<nat>, isDir: bool, pos: DirEntryPos,
                    newSize: nat, left: nat, fat1: FatTable, q1: seq<nat>, d: Blocks)
    requires g.Ok() && v.fat == Fat(g, d) && Agree(g, v.fat, e, vec, isDir, pos) && 0 < newSize < FileSizeOf(e) && left == ClustersFor(g, newSize)
    requires VolumeOk(v, chains) && Owns(chains, id, Owned(e, vec))
    requires left <= |vec| && Released(v.fat, v.recycled, vec[left..], fat1, q1)
    ensures left >= 1 && vec[left - 1] < g.Clusters()
    ensures var fat2 := fat1[vec[left - 1] := END_OF_CLUSTER];
            var e' := WithFileSize(e, newSize);
            && Agree(g, fat2, e', vec[..left], isDir, pos) && FileSizeOf(e') == newSize && Owned(e', vec[..left]) == vec[..left]
            && Step(v, chains, FatChains.Shrink(id, left), Volume(fat2, q1, v.free + |vec[left..]|), chains[id := vec[..left]])
  {
    hide FirstClusterOf, FileSizeOf, Chain, ClustersFor, WithFileSize, VolumeOk, Fat;
    ShrinkFacts(g, v.fat, e, vec, isDir, pos, newSize);
    EntryBounds(e);
    FileSizeStored(e, newSize);
    var fat2 := fat1[vec[left - 1] := END_OF_CLUSTER];
    AgreeOwned(g, v.fat, e, vec, isDir, pos, vec);
    ShrunkHead(v.fat, v.recycled, chains, id, left, fat1, q1);
    VecInTable(v.fat, vec);
    assert vec[left - 1] in vec;
    TableKeys(g, d);
  }

  ghost function ChainsAfter(chains: Chains, id: nat, cs: seq<nat>): Chains {
    if cs == [] then chains - {id} else chains[id := cs]
  }

  /** As far as the file goes now, it reads as it did, and zero where it had no clusters. */
  ghost predicate KeepsBytes(g: Geometry, d0: Blocks, d: Blocks, owned: seq<nat>, cs: seq<nat>)
    requires g.perCluster > 0 && InData(g, owned) && InData(g, cs)
  {
    forall k: nat :: k < Capacity(g, cs) ==>
      ByteAt(g, d, cs, k) == if k < Capacity(g, owned) then ByteAt(g, d0, owned, k) else 0
  }

  lemma NoBytes(g: Geometry, d0: Blocks, d: Blocks, owned: seq<nat>)
    requires g.perCluster > 0 && InData(g, owned)
    ensures InData(g, []) && KeepsBytes(g, d0, d, owned, [])
  {
  }

  /** The entry lies outside the clusters of its file. */
  lemma OwnedApart(g: Geometry, fat: FatTable, e: DirEntry, vec: seq<nat>, isDir: bool, pos: DirEntryPos)
    requires g.perCluster > 0 && Agree(g, fat, e, vec, isDir, pos)
    ensures pos.cluster !in Elements(Owned(e, vec))
  {
    hide FirstClusterOf, FileSizeOf, Chain;
  }

  lemma GrownKeepsBytes(g: Geometry, d0: Blocks, d: Blocks, owned: seq<nat>, cs: seq<nat>, home: set<nat>)
    requires g.Ok() && InData(g, owned + cs) && InData(g, owned) && Extended(g, d0, d, cs, home) && Elements(owned) !! home
    ensures KeepsBytes(g, d0, d, owned, owned + cs)
  {
    hide ByteAt, Extended, Capacity;
    PartsInData(g, owned, cs);
    PartsApart(owned, cs, owned + cs);
    GrownBytes(g, d0, d, owned, cs, home);
  }

  lemma ShrunkKeepsBytes(g: Geometry, d0: Blocks, d: Blocks, owned: seq<nat>, left: nat, home: set<nat>)
    requires g.Ok() && InData(g, owned) && left <= |owned| && DataKept(g, d0, d, home) && Elements(owned) !! home
    ensures InData(g, owned[..left]) && KeepsBytes(g, d0, d, owned, owned[..left])
  {
    hide ByteAt, DataKept, Capacity;
    var a, b := owned[..left], owned[left..];
    assert owned == a + b;
    PartsInData(g, a, b);
    CapacityJoined(g, a, b);
    assert Elements(a) <= Elements(owned);
    forall k: nat | k < Capacity(g, a)
      ensures ByteAt(g, d, a, k) == ByteAt(g, d0, owned, k)
    {
      BytesOfJoined(g, d0, a, b, k);
      BytesKept(g, d0, d, home, a, k);
    }
  }

  /** The places of the long entries are places on the disk, and none is that of the short entry. */
  ghost predicate LongPlacesOk(g: Geometry, ldePos: seq<DirEntryPos>, sdePos: DirEntryPos) {
    && (forall i :: 0 <= i < |ldePos| ==>
          PlaceOk(g, ldePos[i]) && ldePos[i].cluster != ROOT_DIR_ENTRY_CLUSTER && ldePos[i] != sdePos)
    && (forall i, j :: 0 <= i < j < |ldePos| ==> ldePos[i] != ldePos[j])
  }

  /** The first `n` long entries are marked unused and otherwise as before. */
  ghost predicate LongDeleted(g: Geometry, d0: Blocks, d: Blocks, ldePos: seq<DirEntryPos>, n: nat)
    requires g.Ok() && n <= |ldePos|
    requires forall i :: 0 <= i < |ldePos| ==> PlaceOk(g, ldePos[i]) && ldePos[i].cluster != ROOT_DIR_ENTRY_CLUSTER
  {
    forall i :: 0 <= i < |ldePos| ==>
      EntryIn(g, d, ldePos[i]) == if i < n then EntryIn(g, d0, ldePos[i])[0 := DIR_ENTRY_UNUSED] else EntryIn(g, d0, ldePos[i])
  }

  /** The disk after the first `n` long entries were marked unused. */
  ghost function AllMarked(g: Geometry, d: Blocks, ldePos: seq<DirEntryPos>, n: nat): Blocks
    requires g.Ok() && n <= |ldePos|
    requires forall i :: 0 <= i < |ldePos| ==> PlaceOk(g, ldePos[i]) && ldePos[i].cluster != ROOT_DIR_ENTRY_CLUSTER
  {
    if n == 0 then d else EntryWritten(g, AllMarked(g, d, ldePos, n - 1), ldePos[n - 1], [DIR_ENTRY_UNUSED])
  }

  /** The disk after all entries of a file were marked unused. */
  ghost function Cleared(g: Geometry, d: Blocks, ldePos: seq<DirEntryPos>, sdePos: DirEntryPos, e: DirEntry): Blocks
    requires g.Ok() && PlaceOk(g, sdePos)
    requires forall i :: 0 <= i < |ldePos| ==> PlaceOk(g, ldePos[i]) && ldePos[i].cluster != ROOT_DIR_ENTRY_CLUSTER
  {
    var d' := AllMarked(g, d, ldePos, |ldePos|);
    if sdePos.cluster == ROOT_DIR_ENTRY_CLUSTER then d' else EntryWritten(g, d', sdePos, MarkedUnused(e))
  }

  lemma NoneDeleted(g: Geometry, d: Blocks, ldePos: seq<DirEntryPos>, sdePos: DirEntryPos)
    requires g.Ok() && LongPlacesOk(g, ldePos, sdePos)
    ensures forall i :: 0 <= i < |ldePos| ==> PlaceOk(g, ldePos[i]) && ldePos[i].cluster != ROOT_DIR_ENTRY_CLUSTER
    ensures LongDeleted(g, d, d, ldePos, 0)
  {
    hide EntryIn;
  }

  /** Entries at different places do not overlap. */
  lemma PlacesApart(g: Geometry, a: DirEntryPos, b: DirEntryPos)
    requires g.Ok() && PlaceOk(g, a) && PlaceOk(g, b) && a != b
    requires a.cluster != ROOT_DIR_ENTRY_CLUSTER && b.cluster != ROOT_DIR_ENTRY_CLUSTER
    ensures SdePos(g, a).0 == SdePos(g, b).0 ==>
              SdePos(g, a).1 + DIRENT_SIZE <= SdePos(g, b).1 || SdePos(g, b).1 + DIRENT_SIZE <= SdePos(g, a).1
  {
    hide SdePos;
    PlaceInBlock(g, a);
    PlaceInBlock(g, b);
    ClusterBlocksApart(g, a.cluster, a.offset / BLOCK_SIZE, b.cluster, b.offset / BLOCK_SIZE);
    if SdePos(g, a).0 == SdePos(g, b).0 {
      OffsetsApart(a.offset, b.offset);
    }
  }

  lemma OffsetsApart(a: nat, b: nat)
    requires a != b && a % DIRENT_SIZE == 0 && b % DIRENT_SIZE == 0 && a / BLOCK_SIZE == b / BLOCK_SIZE
    ensures a % BLOCK_SIZE + DIRENT_SIZE <= b % BLOCK_SIZE || b % BLOCK_SIZE + DIRENT_SIZE <= a % BLOCK_SIZE
  {
    assert a == a / BLOCK_SIZE * BLOCK_SIZE + a % BLOCK_SIZE;
    assert b == b / BLOCK_SIZE * BLOCK_SIZE + b % BLOCK_SIZE;
  }

  /** A change of the first byte of one entry, seen from every place. */
  lemma FirstByteStored(g: Geometry, d: Blocks, at: DirEntryPos, v: Byte, pos: DirEntryPos)
    requires g.Ok() && g.On(d) && PlaceOk(g, at) && at.cluster != ROOT_DIR_ENTRY_CLUSTER
    requires PlaceOk(g, pos) && pos.cluster != ROOT_DIR_ENTRY_CLUSTER
    ensures SdePos(g, at).0 in d && SdePos(g, at).1 + DIRENT_SIZE <= BLOCK_SIZE
    ensures var p := SdePos(g, at);
            var d' := d[p.0 := Splice(d[p.0], p.1, [v])];
            EntryIn(g, d', pos) == if pos == at then EntryIn(g, d, pos)[0 := v] else EntryIn(g, d, pos)
  {
    hide SdePos, Splice, ClusterBlock, Geometry.Ok, Geometry.On;
    PlaceInBlock(g, at);
    PlaceInBlock(g, pos);
    BlockThere(g, d, at);
    if pos != at {
      PlacesApart(g, at, pos);
    }
    if SdePos(g, pos).0 == SdePos(g, at).0 {
      SpliceByte(d[SdePos(g, at).0], SdePos(g, at).1, v, SdePos(g, pos).1);
    }
  }

  lemma BlockThere(g: Geometry, d: Blocks, pos: DirEntryPos)
    requires g.Ok() && g.On(d) && PlaceOk(g, pos) && pos.cluster != ROOT_DIR_ENTRY_CLUSTER
    ensures SdePos(g, pos).0 in d
  {
    PlaceInBlock(g, pos);
  }

  lemma SpliceByte(b: Block, p: nat, v: Byte, q: nat)
    requires p + DIRENT_SIZE <= BLOCK_SIZE && q + DIRENT_SIZE <= BLOCK_SIZE
    requires p == q || p + DIRENT_SIZE <= q || q + DIRENT_SIZE <= p
    ensures Splice(b, p, [v])[q..q + DIRENT_SIZE] == if p == q then b[q..q + DIRENT_SIZE][0 := v] else b[q..q + DIRENT_SIZE]
  {
  }

  lemma DeleteOne(g: Geometry, d0: Blocks, d: Blocks, ldePos: seq<DirEntryPos>, sdePos: DirEntryPos, i: nat, home: set<nat>)
    requires g.Ok() && g.On(d) && LongPlacesOk(g, ldePos, sdePos) && PlaceOk(g, sdePos) && i < |ldePos|
    requires LongDeleted(g, d0, d, ldePos, i) && DataKept(g, d0, d, home)
    requires ldePos[i].cluster in home
    ensures ldePos[i].cluster >= 2 && SdePos(g, ldePos[i]).0 in d && SdePos(g, ldePos[i]).1 + DIRENT_SIZE <= BLOCK_SIZE
    ensures var p := SdePos(g, ldePos[i]);
            var d' := d[p.0 := Splice(d[p.0], p.1, [DIR_ENTRY_UNUSED])];
            && LongDeleted(g, d0, d', ldePos, i + 1)
            && DataKept(g, d0, d', home) && Fat(g, d') == Fat(g, d)
            && (sdePos.cluster != ROOT_DIR_ENTRY_CLUSTER ==> EntryIn(g, d', sdePos) == EntryIn(g, d, sdePos))
  {
    hide EntryIn, Fat, DataKept, Splice;
    PlaceInBlock(g, ldePos[i]);
    var p := SdePos(g, ldePos[i]);
    var d' := d[p.0 := Splice(d[p.0], p.1, [DIR_ENTRY_UNUSED])];
    forall j | 0 <= j < |ldePos|
      ensures EntryIn(g, d', ldePos[j]) == if j == i then EntryIn(g, d, ldePos[j])[0 := DIR_ENTRY_UNUSED] else EntryIn(g, d, ldePos[j])
    {
      FirstByteStored(g, d, ldePos[i], DIR_ENTRY_UNUSED, ldePos[j]);
      assert j < i ==> ldePos[j] != ldePos[i];
    }
    if sdePos.cluster != ROOT_DIR_ENTRY_CLUSTER {
      FirstByteStored(g, d, ldePos[i], DIR_ENTRY_UNUSED, sdePos);
    }
    ClusterKeepsData(g, d, d', ldePos[i].cluster);
    DataKeptMore(g, d, d', {ldePos[i].cluster}, home);
    HomeTwice(g, d0, d, d', home);
  }

  /** From `at` on, `block` holds the bytes of the chain from `offset` on. */
  ghost predicate BlockReads(g: Geometry, d: Blocks, cs: seq<nat>, offset: nat, block: Block, at: nat)
    requires g.perCluster > 0 && InData(g, cs) && at < BLOCK_SIZE
  {
    && offset + (BLOCK_SIZE - at) <= Capacity(g, cs)
    && (forall k: nat :: offset <= k < offset + (BLOCK_SIZE - at) ==> block[at + (k - offset)] == ByteAt(g, d, cs, k))
  }

  /** The block that is computed from an offset holds the bytes of the chain from there on. */
  lemma BlockPosReads(g: Geometry, d: Blocks, cs: seq<nat>, offset: nat)
    requires g.Ok() && g.On(d) && InData(g, cs) && offset < Capacity(g, cs)
    ensures g.ClusterSize() > 0 && ClusterIndex(g, offset) < |cs| && 2 <= cs[ClusterIndex(g, offset)]
    ensures var inCluster := offset % g.ClusterSize();
            var block := g.Offset(cs[ClusterIndex(g, offset)]) / BLOCK_SIZE + inCluster / BLOCK_SIZE;
            block in d && BlockReads(g, d, cs, offset, d[block], inCluster % BLOCK_SIZE)
  {
    hide ByteAt, Capacity, ClusterBlock, Geometry.Offset, InData, Geometry.ClusterSize;
    CapacityIndex(g, cs, offset);
    FirstCluster(g, offset);
    ClusterIsData(g, cs, ClusterIndex(g, offset));
    BlockStart(g, offset);
    var inCluster := offset % g.ClusterSize();
    var ci, j := ClusterIndex(g, offset), BlockIndex(g, offset);
    BlockOf(g, d, cs, ci, j);
    forall k: nat | offset <= k < offset + (BLOCK_SIZE - inCluster % BLOCK_SIZE)
      ensures k < Capacity(g, cs)
      ensures d[ClusterBlock(g, cs[ci], j)][inCluster % BLOCK_SIZE + (k - offset)] == ByteAt(g, d, cs, k)
    {
      InSameBlock(offset, g.ClusterSize(), k - offset);
      ByteInBlock(g, d, cs, ci, j, k);
    }
    assert offset + (BLOCK_SIZE - inCluster % BLOCK_SIZE) - 1 < Capacity(g, cs) by {
      var k := offset + (BLOCK_SIZE - inCluster % BLOCK_SIZE) - 1;
      InSameBlock(offset, g.ClusterSize(), k - offset);
      ByteInBlock(g, d, cs, ci, j, k);
    }
  }

  lemma InSameBlock(offset: nat, size: nat, i: nat)
    requires size > 0 && offset % size % BLOCK_SIZE + i < BLOCK_SIZE
    ensures var left := offset / size * size + offset % size / BLOCK_SIZE * BLOCK_SIZE;
            left <= offset + i < left + BLOCK_SIZE && offset + i - left == offset % size % BLOCK_SIZE + i
  {
    assert offset == offset / size * size + offset % size;
  }

  /** What the first cluster in the entry tells. */
  lemma FirstOf(g: Geometry, v: Volume, d: Blocks, e: DirEntry, vec: seq<nat>, isDir: bool, pos: DirEntryPos)
    requires g.Ok() && Agree(g, v.fat, e, vec, isDir, pos) && v.fat == Fat(g, d)
    ensures var first := FirstClusterOf(e);
            && (first == NEW_VIRT_FILE_CLUSTER || 2 <= first < END_OF_CLUSTER)
            && (first != NEW_VIRT_FILE_CLUSTER ==>
                  Owned(e, vec) == vec != [] && Chain(v.fat, vec) && vec[0] == first && (forall c :: c in vec ==> c in v.fat) && pos.cluster !in vec)
            && (first == NEW_VIRT_FILE_CLUSTER ==> Owned(e, vec) == [])
  {
    hide FirstClusterOf, FileSizeOf;
  }

  lemma ReadyToRelease(g: Geometry, v: Volume, d: Blocks, e: DirEntry, vec: seq<nat>, isDir: bool, pos: DirEntryPos, chains: Chains, id: nat)
    requires g.Ok() && Agree(g, v.fat, e, vec, isDir, pos) && v.fat == Fat(g, d) && Owns(chains, id, Owned(e, vec))
    ensures 2 <= FirstClusterOf(e) < END_OF_CLUSTER ==>
              Owned(e, vec) == vec != [] && Owns(chains, id, vec) && (forall c :: c in vec ==> c in v.fat)
    ensures !(2 <= FirstClusterOf(e) < END_OF_CLUSTER) ==> Owned(e, vec) == []
  {
    hide FirstClusterOf, FileSizeOf;
    FirstOf(g, v, d, e, vec, isDir, pos);
  }

  lemma DeleteStep(v: Volume, chains: Chains, id: nat, cs: seq<nat>, v': Volume)
    requires VolumeOk(v, chains) && cs != [] && Owns(chains, id, cs)
    requires Released(v.fat, v.recycled, cs, v'.fat, v'.recycled) && v'.free == v.free + |cs|
    ensures Step(v, chains, Delete(id), v', chains - {id})
  {
  }

  /** The place of the entry stays in use when the clusters of the file are given back. */
  ghost predicate PlaceInUse(fat: FatTable, pos: DirEntryPos) {
    pos.cluster != ROOT_DIR_ENTRY_CLUSTER ==> pos.cluster in fat && fat[pos.cluster] != FREE_CLUSTER
  }

  lemma AgreeAfterRelease(g: Geometry, fat: FatTable, q: seq<nat>, e: DirEntry, vec: seq<nat>, isDir: bool, pos: DirEntryPos,
                          fat': FatTable, q': seq<nat>)
    requires g.perCluster > 0 && Agree(g, fat, e, vec, isDir, pos) && FirstClusterOf(e) != NEW_VIRT_FILE_CLUSTER
    requires Released(fat, q, vec, fat', q')
    ensures PlaceInUse(fat', pos)
  {
    hide FirstClusterOf, FileSizeOf, Chain;
  }

  lemma EmptyEntry(g: Geometry, fat: FatTable, e: DirEntry, vec: seq<nat>, isDir: bool, pos: DirEntryPos)
    requires g.perCluster > 0 && Agree(g, fat, e, vec, isDir, pos)
    ensures PlaceInUse(fat, pos)
  {
    hide FirstClusterOf, FileSizeOf, Chain;
  }

  lemma AgreeEmpty(g: Geometry, fat: FatTable, e: DirEntry, vec: seq<nat>, isDir: bool, pos: DirEntryPos)
    requires g.perCluster > 0 && PlaceInUse(fat, pos)
    ensures var e' := WithFirstCluster(WithFileSize(e, 0), NEW_VIRT_FILE_CLUSTER);
            Agree(g, fat, e', vec, isDir, pos) && Owned(e', vec) == [] && FileSizeOf(e') == 0
  {
    hide FirstClusterOf, FileSizeOf, Chain, WithFileSize, WithFirstCluster;
    FileSizeStored(e, 0);
    FirstClusterStored(WithFileSize(e, 0), NEW_VIRT_FILE_CLUSTER);
  }

  lemma HomeTwice(g: Geometry, d: Blocks, d': Blocks, d'': Blocks, home: set<nat>)
    requires g.perCluster > 0 && DataKept(g, d, d', home) && DataKept(g, d', d'', home)
    ensures DataKept(g, d, d'', home)
  {
    DataKeptTwice(g, d, d', d'', home, home);
    assert home + home == home;
  }

  lemma OwnedIs(e: DirEntry, vec: seq<nat>)
    ensures Owned(e, vec) == if FirstClusterOf(e) == NEW_VIRT_FILE_CLUSTER then [] else vec
  {
  }

  lemma AgreeDir(g: Geometry, fat: FatTable, e: DirEntry, vec: seq<nat>, isDir: bool, pos: DirEntryPos)
    requires g.perCluster > 0 && Agree(g, fat, e, vec, isDir, pos)
    ensures isDir ==> FileSizeOf(e) == 0
  {
  }

  /** A file that is not empty has its vector, and the clusters hold its size. */
  lemma EnoughRoom(g: Geometry, fat: FatTable, e: DirEntry, vec: seq<nat>, isDir: bool, pos: DirEntryPos, newSize: nat)
    requires g.perCluster > 0 && Agree(g, fat, e, vec, isDir, pos) && newSize <= FileSizeOf(e)
    ensures newSize > 0 ==> Owned(e, vec) == vec != [] && newSize <= Capacity(g, vec)
  {
    hide FirstClusterOf, FileSizeOf, Chain, ClustersFor;
    if newSize > 0 {
      ClustersForEnough(g, FileSizeOf(e), |vec|);
    }
  }

  lemma RoomAfterGrowth(g: Geometry, owned: seq<nat>, cs: seq<nat>, newSize: nat)
    requires g.perCluster > 0 && |cs| == Need(g, owned, newSize) && newSize > 0
    ensures newSize <= Capacity(g, owned + cs) && owned + cs != []
  {
    hide ClustersFor;
    ClustersForEnough(g, newSize, |owned + cs|);
    ClustersForGrows(g, newSize, newSize);
  }

  lemma AgreeOwned(g: Geometry, fat: FatTable, e: DirEntry, vec: seq<nat>, isDir: bool, pos: DirEntryPos, owned: seq<nat>)
    requires g.perCluster > 0 && Agree(g, fat, e, vec, isDir, pos) && Owned(e, vec) == owned && owned != []
    ensures owned == vec && FirstClusterOf(e) != NEW_VIRT_FILE_CLUSTER && Chain(fat, vec) && pos.cluster !in vec
  {
  }

  lemma InPlaceExtends(g: Geometry, d0: Blocks, d: Blocks, home: set<nat>)
    requires g.perCluster > 0 && DataKept(g, d0, d, home)
    ensures Extended(g, d0, d, [], home)
  {
    assert Elements([]) + home == home;
  }

  /** The clusters `cs` hang behind `owned`, apart from the place of the entry. */
  ghost predicate Hung(g: Geometry, v: Volume, owned: seq<nat>, cs: seq<nat>, pos: DirEntryPos) {
    && cs != [] && Chain(v.fat, owned + cs) && InData(g, owned + cs) && pos.cluster !in cs
    && 2 <= cs[0] < END_OF_CLUSTER
    && Elements(cs) !! (if pos.cluster == ROOT_DIR_ENTRY_CLUSTER then {} else {pos.cluster})
    && (pos.cluster != ROOT_DIR_ENTRY_CLUSTER ==> pos.cluster in v.fat && v.fat[pos.cluster] != FREE_CLUSTER)
  }

  lemma LastInTable(fat1: FatTable, owned: seq<nat>, fat: FatTable)
    requires Chain(fat, owned) && fat1.Keys == fat.Keys
    ensures owned != [] && owned[|owned| - 1] in fat1
  {
  }

  lemma ChainInData(g: Geometry, d: Blocks, cs: seq<nat>, fat: FatTable)
    requires Chain(fat, cs) && fat.Keys == Fat(g, d).Keys
    ensures InData(g, cs)
  {
    forall i | 0 <= i < |cs|
      ensures cs[i] < g.Clusters()
    {
      assert cs[i] in Fat(g, d);
    }
  }

  lemma VolumeParts(v: Volume, chains: Chains)
    requires VolumeOk(v, chains)
    ensures QueueOk(v.fat, v.recycled)
  {
  }

  /** What the clusters from the allocator are to the file. */
  lemma NewClusters(g: Geometry, v: Volume, chains: Chains, id: nat, e: DirEntry, vec: seq<nat>, isDir: bool, pos: DirEntryPos,
                    cs: seq<nat>, fat1: FatTable, recycled': seq<nat>, d0: Blocks, d1: Blocks)
    requires g.Ok() && PlaceOk(g, pos) && Agree(g, v.fat, e, vec, isDir, pos) && v.fat == Fat(g, d0)
    requires VolumeOk(v, chains) && Owns(chains, id, Owned(e, vec)) && cs != []
    requires Allocated(v.fat, v.recycled, cs, fat1, recycled') && Filling(g, d0, d1, cs)
    ensures var owned := Owned(e, vec);
            var home := if pos.cluster == ROOT_DIR_ENTRY_CLUSTER then {} else {pos.cluster};
            && Extended(g, d0, d1, cs, home) && Elements(cs) !! home && pos.cluster !in cs
            && Chain(Joined(fat1, owned, cs), owned + cs)
            && Step(v, chains, Grow(id, |cs|), Volume(Joined(fat1, owned, cs), recycled', v.free - |cs|), chains[id := owned + cs])
            && 2 <= cs[0] < g.Clusters() <= END_OF_CLUSTER
            && Hung(g, Volume(Joined(fat1, owned, cs), recycled', v.free - |cs|), owned, cs, pos)
            && (FirstClusterOf(e) != NEW_VIRT_FILE_CLUSTER ==> owned != [])
            && (pos.cluster != ROOT_DIR_ENTRY_CLUSTER ==> EntryIn(g, d1, pos) == EntryIn(g, d0, pos) && RestIn(g, d1, pos) == RestIn(g, d0, pos))
  {
    hide VolumeOk, Step, Chain, QueueOk, Zeroed, FirstClusterOf, FileSizeOf, ClustersFor, EntryIn, DataKept;
    var owned := Owned(e, vec);
    var home := if pos.cluster == ROOT_DIR_ENTRY_CLUSTER then {} else {pos.cluster};
    GrowStep(v, chains, id, owned, cs, fat1, recycled');
    ExtendedFirst(g, d0, d1, cs, home);
    if owned != [] {
      LastInTable(fat1, owned, v.fat);
    }
    ChainInData(g, d0, owned + cs, Joined(fat1, owned, cs));
    if FirstClusterOf(e) != NEW_VIRT_FILE_CLUSTER {
      ChainNotEmpty(v.fat, vec);
    }
    assert cs[0] in cs;
    assert pos.cluster !in cs;
    if pos.cluster != ROOT_DIR_ENTRY_CLUSTER {
      EntryKept(g, d0, d1, Elements(cs), pos);
    }
  }

  /** A larger size that the clusters have room for. */
  lemma AgreeSized(g: Geometry, fat: FatTable, e: DirEntry, vec: seq<nat>, isDir: bool, pos: DirEntryPos, newSize: nat)
    requires g.perCluster > 0 && Agree(g, fat, e, vec, isDir, pos)
    requires FileSizeOf(e) < newSize < 0x1_0000_0000 && Need(g, Owned(e, vec), newSize) == 0
    ensures FirstClusterOf(e) != NEW_VIRT_FILE_CLUSTER && Chain(fat, vec)
    ensures var e' := WithFileSize(e, newSize);
            FileSizeOf(e') == newSize && FirstClusterOf(e') == FirstClusterOf(e)
            && (!isDir ==> Agree(g, fat, e', vec, isDir, pos))
    ensures isDir ==> FileSizeOf(e) == 0
  {
    hide Chain, ClustersFor, FirstClusterOf, FileSizeOf, WithFileSize;
    FileSizeStored(e, newSize);
    ClustersForGrows(g, FileSizeOf(e), newSize);
    ClustersForGrows(g, newSize, newSize);
  }

  /** The entry after the file got the clusters `cs`. */
  function GrownEntry(e: DirEntry, owned: seq<nat>, cs: seq<nat>, isDir: bool, newSize: nat): DirEntry
    requires cs != []
  {
    var e1 := if owned == [] then WithFirstCluster(e, cs[0]) else e;
    if isDir then e1 else WithFileSize(e1, newSize)
  }

  lemma AgreeGrown(g: Geometry, fat: FatTable, e: DirEntry, vec: seq<nat>, isDir: bool, pos: DirEntryPos, newSize: nat,
                   cs: seq<nat>, fat': FatTable)
    requires g.perCluster > 0 && Agree(g, fat, e, vec, isDir, pos) && FileSizeOf(e) < newSize < 0x1_0000_0000
    requires cs != [] && |cs| == Need(g, Owned(e, vec), newSize)
    requires Chain(fat', Owned(e, vec) + cs) && 2 <= cs[0] < END_OF_CLUSTER
    requires pos.cluster !in cs
    requires pos.cluster != ROOT_DIR_ENTRY_CLUSTER ==> pos.cluster in fat' && fat'[pos.cluster] != FREE_CLUSTER
    ensures var owned := Owned(e, vec);
            var e' := GrownEntry(e, owned, cs, isDir, newSize);
            && Agree(g, fat', e', owned + cs, isDir, pos)
            && FirstClusterOf(e') != NEW_VIRT_FILE_CLUSTER && FileSizeOf(e') == if isDir then 0 else newSize
  {
    hide ClustersFor, FirstClusterOf, FileSizeOf, WithFileSize, WithFirstCluster;
    var owned := Owned(e, vec);
    var e1 := if owned == [] then WithFirstCluster(e, cs[0]) else e;
    FirstClusterStored(e, cs[0]);
    FileSizeStored(e1, newSize);
    ClustersForGrows(g, FileSizeOf(e), newSize);
  }

  /** If the file needs more clusters, they are to be had. */
  ghost predicate GrowRoom(g: Geometry, v: Volume, e: DirEntry, owned: seq<nat>, newSize: nat)
    requires g.perCluster > 0
  {
    newSize > FileSizeOf(e) && Need(g, owned, newSize) > 0 ==>
      && ReservedEntries(v.fat) && Need(g, owned, newSize) <= v.free
      && Room(v.fat, v.recycled, FirstClusterOf(e), Need(g, owned, newSize))
  }

  lemma StartExtending(g: Geometry, d: Blocks, home: set<nat>)
    requires g.perCluster > 0
    ensures Extended(g, d, d, [], home)
  {
  }

  lemma NothingTouched(g: Geometry, d: Blocks)
    requires g.perCluster > 0
    ensures DataKept(g, d, d, {})
  {
  }

  lemma ClusterIsData(g: Geometry, cs: seq<nat>, ci: nat)
    requires InData(g, cs) && ci < |cs|
    ensures 2 <= cs[ci] < g.Clusters()
  {
  }

  lemma NothingRead(g: Geometry, d: Blocks, cs: seq<nat>, offset: nat, before: seq<Byte>)
    requires g.perCluster > 0 && InData(g, cs)
    ensures ReadSoFar(g, d, cs, offset, before, before, 0)
  {
  }

  lemma ReadCapacity(g: Geometry, d: Blocks, cs: seq<nat>, offset: nat, before: seq<Byte>, s: seq<Byte>, n: nat)
    requires g.perCluster > 0 && InData(g, cs) && ReadSoFar(g, d, cs, offset, before, s, n)
    ensures n > 0 ==> offset + n <= Capacity(g, cs)
  {
  }
}
