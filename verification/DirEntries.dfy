/** The 32-byte directory entries (crates/fat32/src/entry.rs), as the bytes they are on disk. */
module DirEntries {
  import opened LittleEndian

  const DIRENT_SIZE: nat := 32
  const DIR_ENTRY_UNUSED: Byte := 0xE5
  const DIR_ENTRY_LAST_AND_UNUSED: Byte := 0x00
  const ATTR_DIRECTORY: Byte := 0x10
  const ATTR_ARCHIVE: Byte := 0x20
  const ATTR_LONG_NAME: Byte := 0x0F
  const SPACE: Byte := 0x20

  type DirEntry = e: seq<Byte> | |e| == 32 witness seq(32, _ => 0)

  function ZeroEntry(): DirEntry {
    seq(32, _ => 0)
  }

  /** `is_deleted`. */
  predicate IsDeleted(e: DirEntry) {
    e[0] == DIR_ENTRY_UNUSED
  }

  /** `is_empty`. */
  predicate IsEmpty(e: DirEntry) {
    e[0] == DIR_ENTRY_LAST_AND_UNUSED
  }

  /** `first_cluster`: the high half at offset 20, the low half at offset 26. */
  function FirstClusterOf(e: DirEntry): nat {
    Get(e, 20, 2) * 0x1_0000 + Get(e, 26, 2)
  }

  function WithFirstCluster(e: DirEntry, cluster: nat): DirEntry {
    Put(Put(e, 20, 2, cluster / 0x1_0000 % 0x1_0000), 26, 2, cluster % 0x1_0000)
  }

  function FileSizeOf(e: DirEntry): nat {
    Get(e, 28, 4)
  }

  function WithFileSize(e: DirEntry, size: nat): DirEntry {
    Put(e, 28, 4, size % 0x1_0000_0000)
  }

  /** `delete`: no size, no clusters, and the mark of an unused entry. */
  function MarkedUnused(e: DirEntry): DirEntry {
    WithFirstCluster(WithFileSize(e, 0), 0)[0 := DIR_ENTRY_UNUSED]
  }

  /** The two halves put together again are the cluster that was stored; the size is another field. */
  lemma FirstClusterStored(e: DirEntry, cluster: nat)
    requires cluster < 0x1_0000_0000
    ensures FirstClusterOf(WithFirstCluster(e, cluster)) == cluster
    ensures FileSizeOf(WithFirstCluster(e, cluster)) == FileSizeOf(e)
    ensures forall i :: 0 <= i < 20 ==> WithFirstCluster(e, cluster)[i] == e[i]
  {
    Pow256Values();
    var hi, lo := cluster / 0x1_0000 % 0x1_0000, cluster % 0x1_0000;
    var e1 := Put(e, 20, 2, hi);
    GetPutSame(e, 20, 2, hi);
    GetPutOther(e1, 26, 2, lo, 20, 2);
    GetPutSame(e1, 26, 2, lo);
    GetPutOther(e, 20, 2, hi, 28, 4);
    GetPutOther(e1, 26, 2, lo, 28, 4);
  }

  lemma FileSizeStored(e: DirEntry, size: nat)
    requires size < 0x1_0000_0000
    ensures FileSizeOf(WithFileSize(e, size)) == size
    ensures FirstClusterOf(WithFileSize(e, size)) == FirstClusterOf(e)
    ensures forall i :: 0 <= i < 28 ==> WithFileSize(e, size)[i] == e[i]
  {
    Pow256Values();
    GetPutSame(e, 28, 4, size);
    GetPutOther(e, 28, 4, size, 20, 2);
    GetPutOther(e, 28, 4, size, 26, 2);
  }

  /** A deleted entry has no clusters and no size, and is marked. */
  lemma DeletedEntry(e: DirEntry)
    ensures FirstClusterOf(MarkedUnused(e)) == 0 && FileSizeOf(MarkedUnused(e)) == 0 && MarkedUnused(e)[0] == DIR_ENTRY_UNUSED
    ensures forall i :: 1 <= i < 20 ==> MarkedUnused(e)[i] == e[i]
  {
    FileSizeStored(e, 0);
    var e1 := WithFileSize(e, 0);
    FirstClusterStored(e1, 0);
    var e2 := WithFirstCluster(e1, 0);
    assert MarkedUnused(e)[20..22] == e2[20..22] && MarkedUnused(e)[26..28] == e2[26..28] && MarkedUnused(e)[28..32] == e2[28..32];
  }

  lemma EntryBounds(e: DirEntry)
    ensures FirstClusterOf(e) < 0x1_0000_0000 && FileSizeOf(e) < 0x1_0000_0000
  {
    Pow256Values();
    FromBytesBound(e[20..22]);
    FromBytesBound(e[26..28]);
    FromBytesBound(e[28..32]);
  }
}
