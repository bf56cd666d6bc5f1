/** Where a FAT32 volume keeps its parts (crates/fat32/src/bpb.rs), and the file allocation table as a
    function of the blocks of the disk. */
module FatVolumes {
  import opened LittleEndian
  import opened BlockCaches

  const END_OF_CLUSTER: nat := 0x0FFF_FFF8
  const CLUSTER_MASK: nat := 0x0FFF_FFFF
  const FREE_CLUSTER: nat := 0
  const NEW_VIRT_FILE_CLUSTER: nat := 0
  const ENTRIES_PER_BLOCK: nat := 128

  /** The BIOS parameter block, for sectors of 512 bytes. */
  datatype Geometry = Geometry(reserved: nat, fats: nat, fatSectors: nat, perCluster: nat, rootEntries: nat,
                               sectors: nat, infoSector: nat) {
    function RootDirSectors(): nat {
      (rootEntries * 32 + (BLOCK_SIZE - 1)) / BLOCK_SIZE
    }

    function FirstDataSector(): nat {
      reserved + fats * fatSectors + RootDirSectors()
    }

    function FirstSectorOfCluster(cluster: nat): nat
      requires cluster >= 2
    {
      FirstDataSector() + (cluster - 2) * perCluster
    }

    /** The address of the first byte of a cluster. */
    function Offset(cluster: nat): nat
      requires cluster >= 2
    {
      (reserved + fats * fatSectors + (cluster - 2) * perCluster) * BLOCK_SIZE
    }

    function Fat1Offset(): nat {
      reserved * BLOCK_SIZE
    }

    function ClusterSize(): nat {
      perCluster * BLOCK_SIZE
    }

    /** One more than the largest number of a data cluster. */
    function Clusters(): nat {
      if perCluster == 0 || sectors < FirstDataSector() then 2 else (sectors - FirstDataSector()) / perCluster + 2
    }

    function FatEntries(): nat {
      fatSectors * ENTRIES_PER_BLOCK
    }

    predicate Ok() {
      && rootEntries == 0 && perCluster > 0 && fats > 0
      && infoSector < reserved
      && Clusters() <= FatEntries() && FatEntries() < 0x0FFF_FFF7
      && FirstDataSector() <= sectors
    }

    /** The disk has all sectors of the volume. */
    ghost predicate On(d: Blocks) {
      forall b :: 0 <= b < sectors ==> b in d
    }
  }

  /** The two formulas for the start of a cluster agree if and only if there is no root directory region. */
  lemma OffsetIsFirstSector(g: Geometry, cluster: nat)
    requires cluster >= 2
    ensures g.Offset(cluster) == g.FirstSectorOfCluster(cluster) * BLOCK_SIZE <==> g.rootEntries == 0
    ensures g.rootEntries == 0 ==> g.Offset(cluster) % BLOCK_SIZE == 0 && g.Offset(cluster) / BLOCK_SIZE == g.FirstSectorOfCluster(cluster)
  {
    assert g.RootDirSectors() == 0 <==> g.rootEntries == 0;
    var a := g.reserved + g.fats * g.fatSectors + (cluster - 2) * g.perCluster;
    assert g.FirstSectorOfCluster(cluster) == a + g.RootDirSectors();
    assert a * BLOCK_SIZE / BLOCK_SIZE == a && a * BLOCK_SIZE % BLOCK_SIZE == 0;
  }

  // ---------------------------------------------------------------- blocks of clusters

  /** Block `i` of a cluster. */
  function ClusterBlock(g: Geometry, cluster: nat, i: nat): nat
    requires cluster >= 2
  {
    g.FirstSectorOfCluster(cluster) + i
  }

  lemma ClusterBlockInVolume(g: Geometry, cluster: nat, i: nat)
    requires g.Ok() && 2 <= cluster < g.Clusters() && i < g.perCluster
    ensures g.FirstDataSector() <= ClusterBlock(g, cluster, i) < g.sectors
  {
    var n := (g.sectors - g.FirstDataSector()) / g.perCluster;
    var c := cluster - 2;
    MulMonotone(c + 1, n, g.perCluster);
    OneMore(c, g.perCluster);
    DivMulBelow(g.sectors - g.FirstDataSector(), g.perCluster);
  }

  lemma OneMore(c: nat, k: nat)
    ensures (c + 1) * k == c * k + k
  {
  }

  lemma MulMonotone(a: nat, b: nat, k: nat)
    requires a <= b
    ensures a * k <= b * k
  {
  }

  lemma DivMulBelow(a: nat, k: nat)
    requires k > 0
    ensures a / k * k <= a < (a / k + 1) * k
  {
  }

  /** Different blocks of clusters are different blocks of the disk. */
  lemma ClusterBlocksApart(g: Geometry, c: nat, i: nat, c': nat, i': nat)
    requires g.perCluster > 0 && c >= 2 && c' >= 2 && i < g.perCluster && i' < g.perCluster
    ensures ClusterBlock(g, c, i) == ClusterBlock(g, c', i') <==> c == c' && i == i'
  {
    var a, b := c - 2, c' - 2;
    if a < b {
      MulMonotone(a + 1, b, g.perCluster);
      assert (a + 1) * g.perCluster == a * g.perCluster + g.perCluster;
    } else if b < a {
      MulMonotone(b + 1, a, g.perCluster);
      assert (b + 1) * g.perCluster == b * g.perCluster + g.perCluster;
    }
  }

  // ---------------------------------------------------------------- the table

  /** The block of the table that holds the entry of `c`. */
  function EntryBlock(g: Geometry, c: nat): nat {
    g.reserved + c / ENTRIES_PER_BLOCK
  }

  function EntryOffset(c: nat): (r: nat)
    ensures r + 4 <= BLOCK_SIZE && r % 4 == 0
  {
    c % ENTRIES_PER_BLOCK * 4
  }

  lemma EntryInFat(g: Geometry, c: nat)
    requires g.Ok() && c < g.Clusters()
    ensures g.reserved <= EntryBlock(g, c) < g.reserved + g.fatSectors <= g.FirstDataSector() <= g.sectors
  {
    MulMonotone(1, g.fats, g.fatSectors);
  }

  /** The address computed byte-wise falls on the entry. */
  lemma EntryPosition(g: Geometry, c: nat)
    ensures (c * 4 + g.Fat1Offset()) / BLOCK_SIZE == EntryBlock(g, c)
    ensures (c * 4 + g.Fat1Offset()) % BLOCK_SIZE == EntryOffset(c)
    ensures g.Fat1Offset() / BLOCK_SIZE + c * 4 / BLOCK_SIZE == EntryBlock(g, c)
    ensures c * 4 % BLOCK_SIZE == EntryOffset(c)
  {
    var q, r := c / ENTRIES_PER_BLOCK, c % ENTRIES_PER_BLOCK;
    assert c == q * ENTRIES_PER_BLOCK + r;
    assert c * 4 + g.reserved * BLOCK_SIZE == (g.reserved + q) * BLOCK_SIZE + r * 4;
    assert c * 4 == q * BLOCK_SIZE + r * 4;
  }

  /** Two entries in the same block have different offsets. */
  lemma EntriesApart(g: Geometry, c: nat, c': nat)
    requires c != c' && EntryBlock(g, c) == EntryBlock(g, c')
    ensures EntryOffset(c) + 4 <= EntryOffset(c') || EntryOffset(c') + 4 <= EntryOffset(c)
  {
    assert c == c / ENTRIES_PER_BLOCK * ENTRIES_PER_BLOCK + c % ENTRIES_PER_BLOCK;
    assert c' == c' / ENTRIES_PER_BLOCK * ENTRIES_PER_BLOCK + c' % ENTRIES_PER_BLOCK;
  }

  ghost function FatAt(g: Geometry, d: Blocks, c: nat): nat {
    if EntryBlock(g, c) in d then Get(d[EntryBlock(g, c)], EntryOffset(c), 4) else 0
  }

  type FatTable = map<nat, nat>

  /** The first file allocation table, entry by entry. */
  ghost function Fat(g: Geometry, d: Blocks): FatTable {
    map c: nat | 0 <= c < g.Clusters() :: FatAt(g, d, c)
  }

  /** The disk after entry `c` was set to `v`. */
  ghost function WithEntry(g: Geometry, d: Blocks, c: nat, v: nat): Blocks
    requires EntryBlock(g, c) in d
  {
    d[EntryBlock(g, c) := Splice(d[EntryBlock(g, c)], EntryOffset(c), ToBytes(v, 4))]
  }

  lemma SpliceIsPut(b: Block, off: nat, n: nat, v: nat)
    requires off + n <= BLOCK_SIZE
    ensures Splice(b, off, ToBytes(v, n)) == Put(b, off, n, v)
  {
  }

  /** Setting an entry changes that entry and no other, and touches one block of the table. */
  lemma SetEntry(g: Geometry, d: Blocks, c: nat, v: nat)
    requires g.Ok() && g.On(d) && c < g.Clusters() && v < 0x1_0000_0000
    ensures EntryBlock(g, c) in d
    ensures Fat(g, WithEntry(g, d, c, v)) == Fat(g, d)[c := v]
  {
    EntryInFat(g, c);
    var d' := WithEntry(g, d, c, v);
    forall e: nat | e < g.Clusters()
      ensures FatAt(g, d', e) == if e == c then v else FatAt(g, d, e)
    {
      SpliceIsPut(d[EntryBlock(g, c)], EntryOffset(c), 4, v);
      if e == c {
        Pow256Values();
        GetPutSame(d[EntryBlock(g, c)], EntryOffset(c), 4, v);
      } else if EntryBlock(g, e) == EntryBlock(g, c) {
        EntriesApart(g, c, e);
        GetPutOther(d[EntryBlock(g, c)], EntryOffset(c), 4, v, EntryOffset(e), 4);
      }
    }
  }

  /** Blocks outside the table do not matter to it. */
  lemma FatFrame(g: Geometry, d: Blocks, d': Blocks)
    requires g.Ok() && d'.Keys == d.Keys
    requires forall b :: b in d && g.reserved <= b < g.reserved + g.fatSectors ==> d'[b] == d[b]
    ensures Fat(g, d') == Fat(g, d)
  {
    forall c: nat | c < g.Clusters()
      ensures FatAt(g, d', c) == FatAt(g, d, c)
    {
      EntryInFat(g, c);
    }
  }
}
