/** The entries of a directory in its clusters: entry `i` is the 32 bytes from offset `32 * i` on. */
module DirectoryEntries {
  import opened LittleEndian
  import opened Sequences
  import opened BlockCaches
  import opened DirEntries
  import opened FatVolumes
  import opened FatChains
  import opened FileSystems
  import opened ChainBytes
  import opened VirtFiles
  import opened DirectoryContents

  /** How many entries the clusters have room for. */
  function EntryRoom(g: Geometry, cs: seq<nat>): nat {
    Capacity(g, cs) / DIRENT_SIZE
  }

  lemma EntryInRoom(g: Geometry, cs: seq<nat>, i: nat)
    requires g.perCluster > 0
    ensures i < EntryRoom(g, cs) <==> i * DIRENT_SIZE < Capacity(g, cs)
    ensures i < EntryRoom(g, cs) <==> i * DIRENT_SIZE + DIRENT_SIZE <= Capacity(g, cs)
    ensures EntryRoom(g, cs) * DIRENT_SIZE == Capacity(g, cs)
  {
    assert Capacity(g, cs) == |cs| * g.perCluster * 16 * DIRENT_SIZE;
  }

  /** The place of entry `i`. */
  function Place(g: Geometry, cs: seq<nat>, i: nat): DirEntryPos
    requires g.perCluster > 0 && i < EntryRoom(g, cs)
  {
    EntryInRoom(g, cs, i);
    CapacityIndex(g, cs, i * DIRENT_SIZE);
    DirEntryPos(cs[ClusterIndex(g, i * DIRENT_SIZE)], i * DIRENT_SIZE % g.ClusterSize())
  }

  lemma PlaceIsOk(g: Geometry, cs: seq<nat>, i: nat)
    requires g.perCluster > 0 && InData(g, cs) && i < EntryRoom(g, cs)
    ensures PlaceOk(g, Place(g, cs, i)) && 2 <= Place(g, cs, i).cluster && Place(g, cs, i).cluster in cs
    ensures Place(g, cs, i).offset / BLOCK_SIZE == BlockIndex(g, i * DIRENT_SIZE)
  {
    EntryInRoom(g, cs, i);
    CapacityIndex(g, cs, i * DIRENT_SIZE);
    InClusterOffset(i, g.perCluster);
  }

  lemma InClusterOffset(i: nat, perCluster: nat)
    requires perCluster > 0
    ensures var o := i * DIRENT_SIZE % (perCluster * BLOCK_SIZE);
            o % DIRENT_SIZE == 0 && o + DIRENT_SIZE <= perCluster * BLOCK_SIZE
  {
    EntriesInCluster(perCluster);
    EntryInCluster(i, perCluster * 16, perCluster * BLOCK_SIZE);
  }

  lemma EntriesInCluster(perCluster: nat)
    ensures perCluster * BLOCK_SIZE == perCluster * 16 * DIRENT_SIZE
  {
  }

  lemma EntryInCluster(i: nat, n: nat, size: nat)
    requires n > 0 && size == n * DIRENT_SIZE
    ensures i * DIRENT_SIZE % size == i % n * DIRENT_SIZE && i % n < n
  {
    var q, r := i / n, i % n;
    var m := q * n;
    assert i == m + r;
    Regroup(q, n);
    DivModUnique(i * DIRENT_SIZE, size, q, r * DIRENT_SIZE);
  }

  lemma Regroup(q: nat, n: nat)
    ensures q * n * DIRENT_SIZE == q * (n * DIRENT_SIZE)
  {
  }

  /** Different entries are at different places. */
  lemma PlacesDiffer(g: Geometry, cs: seq<nat>, i: nat, j: nat)
    requires g.perCluster > 0 && InData(g, cs) && i < EntryRoom(g, cs) && j < EntryRoom(g, cs) && i != j
    ensures Place(g, cs, i) != Place(g, cs, j)
  {
    var a, b := i * DIRENT_SIZE, j * DIRENT_SIZE;
    EntryInRoom(g, cs, i);
    EntryInRoom(g, cs, j);
    CapacityIndex(g, cs, a);
    CapacityIndex(g, cs, b);
    DivModTell(a, b, g.ClusterSize());
  }

  lemma DivModTell(a: nat, b: nat, size: nat)
    requires size > 0 && a != b
    ensures a / size != b / size || a % size != b % size
  {
    DivMulBelow(a, size);
    DivMulBelow(b, size);
    assert a == a / size * size + a % size && b == b / size * size + b % size;
  }

  ghost function EntryAt(g: Geometry, d: Blocks, cs: seq<nat>, i: nat): DirEntry
    requires g.Ok() && InData(g, cs) && i < EntryRoom(g, cs)
  {
    PlaceIsOk(g, cs, i);
    EntryIn(g, d, Place(g, cs, i))
  }

  /** The entries in the clusters. */
  ghost function Entries(g: Geometry, d: Blocks, cs: seq<nat>): (es: seq<DirEntry>)
    requires g.Ok() && InData(g, cs)
    ensures |es| == EntryRoom(g, cs)
  {
    seq(EntryRoom(g, cs), i requires 0 <= i < EntryRoom(g, cs) => EntryAt(g, d, cs, i))
  }

  /** The block and the offset there of byte `j` of entry `i`. */
  lemma EntryByteIndex(g: Geometry, i: nat, j: nat)
    requires g.perCluster > 0 && j < DIRENT_SIZE
    ensures var k := i * DIRENT_SIZE;
            && ClusterIndex(g, k + j) == ClusterIndex(g, k) && BlockIndex(g, k + j) == BlockIndex(g, k)
            && (k + j) % BLOCK_SIZE == k % BLOCK_SIZE + j && k % BLOCK_SIZE + DIRENT_SIZE <= BLOCK_SIZE
            && k % g.ClusterSize() % BLOCK_SIZE == k % BLOCK_SIZE
  {
    hide ClusterIndex, BlockIndex, Geometry.ClusterSize;
    var k := i * DIRENT_SIZE;
    var ci, b := ClusterIndex(g, k), BlockIndex(g, k);
    BlockStart(g, k);
    assert b < g.perCluster by { BlockInCluster(g, k); }
    BlockPosition(g, ci, b, k);
    AlignedInBlock(i);
    BlockPosition(g, ci, b, k + j);
    OffsetInBlock(g, k);
  }

  lemma BlockInCluster(g: Geometry, k: nat)
    requires g.perCluster > 0
    ensures BlockIndex(g, k) < g.perCluster
  {
    DivBelow(k % g.ClusterSize(), g.perCluster, BLOCK_SIZE);
  }

  lemma OffsetInBlock(g: Geometry, k: nat)
    requires g.perCluster > 0
    ensures k % g.ClusterSize() % BLOCK_SIZE == k % BLOCK_SIZE
  {
    ModOfMod(k, g.perCluster);
  }

  lemma ModOfMod(k: nat, n: nat)
    requires n > 0
    ensures k % (n * BLOCK_SIZE) % BLOCK_SIZE == k % BLOCK_SIZE
  {
    var size := n * BLOCK_SIZE;
    var q, r := k / size, k % size;
    DivMulBelow(k, size);
    MulTwice(q, n);
    SameInBlock(r, q * n);
  }

  lemma MulTwice(q: nat, n: nat)
    ensures q * (n * BLOCK_SIZE) == q * n * BLOCK_SIZE
  {
  }

  lemma AlignedInBlock(i: nat)
    ensures i * DIRENT_SIZE % BLOCK_SIZE + DIRENT_SIZE <= BLOCK_SIZE
  {
    DivModUnique(i * DIRENT_SIZE, BLOCK_SIZE, i / 16, i % 16 * DIRENT_SIZE);
  }

  /** The bytes of the entries are those of the chain. */
  lemma EntryByte(g: Geometry, d: Blocks, cs: seq<nat>, i: nat, j: nat)
    requires g.Ok() && InData(g, cs) && i < EntryRoom(g, cs) && j < DIRENT_SIZE
    ensures i * DIRENT_SIZE + j < Capacity(g, cs)
    ensures Entries(g, d, cs)[i][j] == ByteAt(g, d, cs, i * DIRENT_SIZE + j)
  {
    hide ClusterIndex, BlockIndex, ClusterBlock, SdePos, Capacity;
    var k := i * DIRENT_SIZE;
    EntryInRoom(g, cs, i);
    EntryByteIndex(g, i, j);
    CapacityIndex(g, cs, k);
    PlaceIsOk(g, cs, i);
    PlaceInBlock(g, Place(g, cs, i));
  }

  /** Entries are equal if their bytes are. */
  lemma EntryFromBytes(g: Geometry, d: Blocks, cs: seq<nat>, i: nat, e: DirEntry)
    requires g.Ok() && InData(g, cs) && i < EntryRoom(g, cs)
    requires forall k: nat :: i * DIRENT_SIZE <= k < i * DIRENT_SIZE + DIRENT_SIZE && k < Capacity(g, cs) ==>
               ByteAt(g, d, cs, k) == e[k - i * DIRENT_SIZE]
    ensures Entries(g, d, cs)[i] == e
  {
    hide ByteAt, Capacity, Entries;
    forall j | 0 <= j < DIRENT_SIZE
      ensures Entries(g, d, cs)[i][j] == e[j]
    {
      EntryByte(g, d, cs, i, j);
    }
  }

  /** A directory whose clusters kept their data has the entries it had. */
  lemma EntriesKept(g: Geometry, d: Blocks, d': Blocks, touched: set<nat>, cs: seq<nat>)
    requires g.Ok() && DataKept(g, d, d', touched) && InData(g, cs) && Elements(cs) !! touched
    ensures Entries(g, d', cs) == Entries(g, d, cs)
  {
    hide DataKept, EntryIn, Place, InData;
    forall i | 0 <= i < EntryRoom(g, cs)
      ensures Entries(g, d', cs)[i] == Entries(g, d, cs)[i]
    {
      PlaceIsOk(g, cs, i);
      assert Place(g, cs, i).cluster in Elements(cs);
      EntryKept(g, d, d', touched, Place(g, cs, i));
    }
  }

  /** Writing one entry. */
  lemma EntriesWritten(g: Geometry, d0: Blocks, d: Blocks, owned: seq<nat>, vec: seq<nat>, at: nat, e: DirEntry, home: set<nat>)
    requires g.Ok() && InData(g, owned) && InData(g, vec)
    requires Written(g, d0, d, owned, vec, at * DIRENT_SIZE, e, home)
    ensures StoredFrom(Entries(g, d0, owned), at, [e], Entries(g, d, vec))
  {
    hide ByteAt, Capacity, Entries, DataKept, Elements;
    EntryInRoom(g, owned, 0);
    EntryInRoom(g, vec, at);
    RoomGrows(g, owned, vec);
    var es, es' := Entries(g, d0, owned), Entries(g, d, vec);
    forall i | 0 <= i < |es'|
      ensures es'[i] == if i == at then e else if i < |es| then es[i] else ZeroEntry()
    {
      WrittenEntry(g, d0, d, owned, vec, at, e, home, i);
    }
  }

  lemma RoomGrows(g: Geometry, owned: seq<nat>, vec: seq<nat>)
    requires Capacity(g, owned) <= Capacity(g, vec)
    ensures EntryRoom(g, owned) <= EntryRoom(g, vec)
  {
  }

  lemma WrittenEntry(g: Geometry, d0: Blocks, d: Blocks, owned: seq<nat>, vec: seq<nat>, at: nat, e: DirEntry, home: set<nat>, i: nat)
    requires g.Ok() && InData(g, owned) && InData(g, vec) && i < EntryRoom(g, vec)
    requires Written(g, d0, d, owned, vec, at * DIRENT_SIZE, e, home)
    ensures Entries(g, d, vec)[i] ==
            if i == at then e else if i < EntryRoom(g, owned) then Entries(g, d0, owned)[i] else ZeroEntry()
  {
    hide ByteAt, Capacity, Entries, DataKept, Elements;
    EntryInRoom(g, vec, i);
    EntryInRoom(g, owned, i);
    var want := if i == at then e else if i < EntryRoom(g, owned) then Entries(g, d0, owned)[i] else ZeroEntry();
    forall k: nat | i * DIRENT_SIZE <= k < i * DIRENT_SIZE + DIRENT_SIZE && k < Capacity(g, vec)
      ensures ByteAt(g, d, vec, k) == want[k - i * DIRENT_SIZE]
    {
      if i != at && i < EntryRoom(g, owned) {
        EntryByte(g, d0, owned, i, k - i * DIRENT_SIZE);
      }
    }
    EntryFromBytes(g, d, vec, i, want);
  }

  /** Storing bytes at the place of an entry changes that entry and no other. */
  lemma EntryStoredHere(g: Geometry, d: Blocks, cs: seq<nat>, at: nat, bytes: seq<Byte>)
    requires g.Ok() && g.On(d) && InData(g, cs) && at < EntryRoom(g, cs) && |bytes| <= DIRENT_SIZE
    ensures PlaceOk(g, Place(g, cs, at)) && Place(g, cs, at).cluster != ROOT_DIR_ENTRY_CLUSTER
    ensures var d' := EntryWritten(g, d, Place(g, cs, at), bytes);
            var es := Entries(g, d, cs);
            && d'.Keys == d.Keys && g.On(d')
            && Entries(g, d', cs) == es[at := bytes + es[at][|bytes|..]]
  {
    hide ByteAt, Capacity, Entries, ClusterBlock, SdePos, Splice, ClusterIndex, BlockIndex;
    PlaceIsOk(g, cs, at);
    var pos := Place(g, cs, at);
    var d' := EntryWritten(g, d, pos, bytes);
    PlaceInBlock(g, pos);
    BlockThere(g, d, pos);
    var es := Entries(g, d, cs);
    var e := bytes + es[at][|bytes|..];
    forall i | 0 <= i < |es|
      ensures Entries(g, d', cs)[i] == if i == at then e else es[i]
    {
      StoredEntry(g, d, cs, at, bytes, i);
    }
    assert Entries(g, d', cs) == es[at := e];
  }

  lemma StoredEntry(g: Geometry, d: Blocks, cs: seq<nat>, at: nat, bytes: seq<Byte>, i: nat)
    requires g.Ok() && g.On(d) && InData(g, cs) && at < EntryRoom(g, cs) && |bytes| <= DIRENT_SIZE && i < EntryRoom(g, cs)
    requires PlaceOk(g, Place(g, cs, at)) && Place(g, cs, at).cluster != ROOT_DIR_ENTRY_CLUSTER
    ensures var d' := EntryWritten(g, d, Place(g, cs, at), bytes);
            var es := Entries(g, d, cs);
            Entries(g, d', cs)[i] == if i == at then bytes + es[at][|bytes|..] else es[i]
  {
    hide ByteAt, Capacity, Entries, ClusterBlock, SdePos, Splice, ClusterIndex, BlockIndex;
    var pos := Place(g, cs, at);
    var d' := EntryWritten(g, d, pos, bytes);
    var es := Entries(g, d, cs);
    var want := if i == at then bytes + es[at][|bytes|..] else es[i];
    forall k: nat | i * DIRENT_SIZE <= k < i * DIRENT_SIZE + DIRENT_SIZE && k < Capacity(g, cs)
      ensures ByteAt(g, d', cs, k) == want[k - i * DIRENT_SIZE]
    {
      StoredByte(g, d, cs, at, bytes, k);
      EntryByte(g, d, cs, i, k - i * DIRENT_SIZE);
    }
    EntryFromBytes(g, d', cs, i, want);
  }

  lemma StoredByte(g: Geometry, d: Blocks, cs: seq<nat>, at: nat, bytes: seq<Byte>, k: nat)
    requires g.Ok() && g.On(d) && InData(g, cs) && at < EntryRoom(g, cs) && |bytes| <= DIRENT_SIZE && k < Capacity(g, cs)
    requires PlaceOk(g, Place(g, cs, at)) && Place(g, cs, at).cluster != ROOT_DIR_ENTRY_CLUSTER
    ensures ByteAt(g, EntryWritten(g, d, Place(g, cs, at), bytes), cs, k) ==
            if at * DIRENT_SIZE <= k < at * DIRENT_SIZE + |bytes| then bytes[k - at * DIRENT_SIZE] else ByteAt(g, d, cs, k)
  {
    hide ByteAt, Capacity, ClusterBlock, SdePos, Splice, ClusterIndex, BlockIndex;
    var pos := Place(g, cs, at);
    PlaceIsOk(g, cs, at);
    PlaceInBlock(g, pos);
    BlockThere(g, d, pos);
    EntryInRoom(g, cs, at);
    CapacityIndex(g, cs, at * DIRENT_SIZE);
    EntryByteIndex(g, at, 0);
    BlockStart(g, at * DIRENT_SIZE);
    BlockPosition(g, ClusterIndex(g, at * DIRENT_SIZE), BlockIndex(g, at * DIRENT_SIZE), at * DIRENT_SIZE);
    WriteShows(g, d, cs, ClusterIndex(g, at * DIRENT_SIZE), BlockIndex(g, at * DIRENT_SIZE), pos.offset % BLOCK_SIZE, bytes, k);
  }

  /** A file that changes its own entry and data outside the directory changes no other entry of the directory. */
  lemma OwnEntryChanged(g: Geometry, d: Blocks, d': Blocks, touched: set<nat>, cs: seq<nat>, at: nat)
    requires g.Ok() && InData(g, cs) && at < EntryRoom(g, cs) && Elements(cs) !! touched
    requires PlaceOk(g, Place(g, cs, at)) && Place(g, cs, at).cluster != ROOT_DIR_ENTRY_CLUSTER
    requires DataKept(g, d, d', touched + {Place(g, cs, at).cluster})
    requires RestIn(g, d', Place(g, cs, at)) == RestIn(g, d, Place(g, cs, at))
    ensures Entries(g, d', cs) == Entries(g, d, cs)[at := EntryIn(g, d', Place(g, cs, at))]
  {
    hide DataKept, EntryIn, Place, InData, RestIn;
    var pos := Place(g, cs, at);
    forall i | 0 <= i < EntryRoom(g, cs) && i != at
      ensures Entries(g, d', cs)[i] == Entries(g, d, cs)[i]
    {
      PlaceIsOk(g, cs, i);
      PlacesDiffer(g, cs, i, at);
      var p := Place(g, cs, i);
      assert p.cluster in Elements(cs);
      if p.cluster != pos.cluster {
        EntryKept(g, d, d', touched + {pos.cluster}, p);
      } else {
        NeighbourKept(g, d, d', touched + {pos.cluster}, pos, p);
      }
    }
    assert Entries(g, d', cs) == Entries(g, d, cs)[at := EntryIn(g, d', pos)];
  }

  /** Another entry in the same cluster. */
  lemma NeighbourKept(g: Geometry, d: Blocks, d': Blocks, touched: set<nat>, pos: DirEntryPos, p: DirEntryPos)
    requires g.Ok() && PlaceOk(g, pos) && PlaceOk(g, p) && pos != p && pos.cluster == p.cluster != ROOT_DIR_ENTRY_CLUSTER
    requires DataKept(g, d, d', touched) && RestIn(g, d', pos) == RestIn(g, d, pos)
    ensures EntryIn(g, d', p) == EntryIn(g, d, p)
  {
    hide ClusterBlock, Splice, SdePos;
    PlaceInBlock(g, pos);
    PlaceInBlock(g, p);
    var i := p.offset / BLOCK_SIZE;
    assert RestIn(g, d', pos)[i] == RestIn(g, d, pos)[i];
    assert Blanked(g, d', pos, i) == Blanked(g, d, pos, i);
    var b := ClusterBlock(g, p.cluster, i);
    if b in d && i == pos.offset / BLOCK_SIZE {
      OffsetsApart(pos.offset, p.offset);
      SpliceKeeps(d[b], pos.offset % BLOCK_SIZE, p.offset % BLOCK_SIZE);
      SpliceKeeps(d'[b], pos.offset % BLOCK_SIZE, p.offset % BLOCK_SIZE);
    }
  }

  lemma SpliceKeeps(b: Block, at: nat, p: nat)
    requires at + DIRENT_SIZE <= BLOCK_SIZE && p + DIRENT_SIZE <= BLOCK_SIZE
    requires at + DIRENT_SIZE <= p || p + DIRENT_SIZE <= at
    ensures Splice(b, at, ZeroEntry())[p..p + DIRENT_SIZE] == b[p..p + DIRENT_SIZE]
  {
  }

  /** The entries of a file without clusters: none. */
  lemma NoEntries(g: Geometry, d: Blocks)
    requires g.Ok()
    ensures InData(g, []) && Entries(g, d, []) == []
  {
    assert Capacity(g, []) == 0;
  }

  /** The places of the entries from `from` on, `n` of them. */
  ghost predicate PlacesFrom(g: Geometry, cs: seq<nat>, from: nat, n: nat, ps: seq<DirEntryPos>)
    requires g.perCluster > 0
  {
    && |ps| == n && from + n <= EntryRoom(g, cs)
    && (forall i :: 0 <= i < n ==> ps[i] == Place(g, cs, from + i))
  }

  lemma PlacesFromOk(g: Geometry, cs: seq<nat>, from: nat, n: nat, ps: seq<DirEntryPos>)
    requires g.perCluster > 0 && InData(g, cs) && PlacesFrom(g, cs, from, n, ps) && from + n < EntryRoom(g, cs)
    ensures LongPlacesOk(g, ps, Place(g, cs, from + n)) && PlaceOk(g, Place(g, cs, from + n))
    ensures Place(g, cs, from + n).cluster != ROOT_DIR_ENTRY_CLUSTER && Place(g, cs, from + n).cluster in cs
    ensures forall i :: 0 <= i < n ==> ps[i].cluster in cs && ps[i].cluster != ROOT_DIR_ENTRY_CLUSTER && PlaceOk(g, ps[i])
  {
    hide Place, PlaceOk, InData, EntryRoom;
    PlaceIsOk(g, cs, from + n);
    forall i | 0 <= i < n
      ensures PlaceOk(g, ps[i]) && ps[i].cluster in cs && ps[i].cluster >= 2 && ps[i] != Place(g, cs, from + n)
    {
      PlaceIsOk(g, cs, from + i);
      PlacesDiffer(g, cs, from + i, from + n);
    }
    forall i, j | 0 <= i < j < n
      ensures ps[i] != ps[j]
    {
      PlacesDiffer(g, cs, from + i, from + j);
    }
  }

  /** The entries after the first `m` long entries were marked. */
  ghost predicate MarkedFrom(es: seq<DirEntry>, from: nat, m: nat, es': seq<DirEntry>) {
    && |es'| == |es|
    && forall i :: 0 <= i < |es| ==> es'[i] == if from <= i < from + m then es[i][0 := DIR_ENTRY_UNUSED] else es[i]
  }

  lemma {:induction false} MarkedEntries(g: Geometry, d: Blocks, cs: seq<nat>, from: nat, n: nat, ps: seq<DirEntryPos>, m: nat)
    requires g.Ok() && g.On(d) && InData(g, cs) && PlacesFrom(g, cs, from, n, ps) && m <= n
    requires forall i :: 0 <= i < |ps| ==> PlaceOk(g, ps[i]) && ps[i].cluster != ROOT_DIR_ENTRY_CLUSTER
    ensures g.On(AllMarked(g, d, ps, m)) && MarkedFrom(Entries(g, d, cs), from, m, Entries(g, AllMarked(g, d, ps, m), cs))
  {
    hide Place, PlaceOk, InData, EntryRoom, EntryWritten, Entries, Geometry.On;
    if m > 0 {
      MarkedEntries(g, d, cs, from, n, ps, m - 1);
      var d1 := AllMarked(g, d, ps, m - 1);
      EntryStoredHere(g, d1, cs, from + (m - 1), [DIR_ENTRY_UNUSED]);
      assert AllMarked(g, d, ps, m) == EntryWritten(g, d1, ps[m - 1], [DIR_ENTRY_UNUSED]);
      FirstByteOf(Entries(g, d1, cs)[from + (m - 1)]);
    }
  }

  lemma FirstByteOf(e: DirEntry)
    ensures [DIR_ENTRY_UNUSED] + e[1..] == e[0 := DIR_ENTRY_UNUSED]
  {
  }

  /** What `clear` does to the entries of the directory. */
  lemma ClearedEntries(g: Geometry, d: Blocks, cs: seq<nat>, from: nat, n: nat, ps: seq<DirEntryPos>)
    requires g.Ok() && g.On(d) && InData(g, cs) && PlacesFrom(g, cs, from, n, ps) && from + n < EntryRoom(g, cs)
    requires PlaceOk(g, Place(g, cs, from + n)) && Place(g, cs, from + n).cluster != ROOT_DIR_ENTRY_CLUSTER
    requires forall i :: 0 <= i < |ps| ==> PlaceOk(g, ps[i]) && ps[i].cluster != ROOT_DIR_ENTRY_CLUSTER
    ensures var es := Entries(g, d, cs);
            DeletedFrom(es, from, n, Entries(g, Cleared(g, d, ps, Place(g, cs, from + n), es[from + n]), cs))
  {
    hide Place, PlaceOk, InData, EntryRoom, EntryWritten, Entries, Geometry.On, MarkedUnused;
    MarkedEntries(g, d, cs, from, n, ps, n);
    var d1, e := AllMarked(g, d, ps, n), MarkedUnused(Entries(g, d, cs)[from + n]);
    EntryStoredHere(g, d1, cs, from + n, e);
    assert e + Entries(g, d1, cs)[from + n][DIRENT_SIZE..] == e;
  }
}
