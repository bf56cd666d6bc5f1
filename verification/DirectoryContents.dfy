/** What a directory holds (crates/fat32/src/dir.rs): its entries, and the files they stand for.

    A file has long entries, the last chunk of its name first, and a short entry behind them.  Deleted entries
    stay where they are, and behind the last entry in use everything is zero. */
module DirectoryContents {
  import opened LittleEndian
  import opened Options
  import opened DirEntries
  import opened LongNames
  import opened ShortNames

  function Units(name: seq<Byte>): seq<Unit> {
    name
  }

  // ---------------------------------------------------------------- what the searches look for

  /** Entry `i` makes `find_by_sfn` stop. */
  predicate ShortHit(es: seq<DirEntry>, i: nat, upper: seq<Byte>) {
    i < |es| && !IsDeleted(es[i]) && ShownName(es[i]) == upper
  }

  ghost predicate LongPart(e: DirEntry, chunk: seq<Unit>) {
    e[11] == ATTR_LONG_NAME && NameUtf16(e) == chunk
  }

  /** Entry `k` behind entry `i` has the chunk that belongs there. */
  ghost predicate PartAt(es: seq<DirEntry>, i: nat, cs: seq<seq<Unit>>, k: nat) {
    k < |cs| && i + k < |es| && LongPart(es[i + k], cs[|cs| - 1 - k])
  }

  /** The entries from `i` on make `find_by_lfn` stop: the marked last chunk, the other chunks down to the
      first, and a short entry in use whose checksum is the one in the entry of the first chunk. */
  ghost predicate LongHit(es: seq<DirEntry>, i: nat, cs: seq<seq<Unit>>) {
    var n := |cs|;
    && n > 0 && i + n < |es|
    && LongPart(es[i], cs[n - 1])
    && es[i][0] / LAST_LONG_ENTRY % 2 == 1 && !IsDeleted(es[i]) && es[i][0] - LAST_LONG_ENTRY == n
    && (forall k :: 1 <= k < n ==> PartAt(es, i, cs, k))
    && !IsDeleted(es[i + n]) && es[i + n - 1][13] == CheckSum(es[i + n][..11], 0)
  }

  /** `find_by_name`: by the short entries if the name fits one. */
  ghost predicate Hit(es: seq<DirEntry>, i: nat, name: seq<Byte>) {
    if FitsShort(name) then ShortHit(es, i, UpperAll(name)) else LongHit(es, i, Chunks(Units(name)))
  }

  /** How many long entries lie between where the search stops and the short entry it is for. */
  ghost function LongsOf(name: seq<Byte>): nat {
    if FitsShort(name) then 0 else |Chunks(Units(name))|
  }

  // ---------------------------------------------------------------- files

  /** A file with its entries, or the remains of one. */
  datatype Item =
    | File(chunks: seq<seq<Unit>>, sum: Byte, short: DirEntry)
    | Dead(entry: DirEntry)

  /** The file is there: its short entry is not deleted. */
  predicate Live(x: Item) {
    x.File? && !IsDeleted(x.short)
  }

  /** A chunk of an ASCII name without spaces, or its padding. */
  ghost predicate ChunkOk(c: seq<Unit>) {
    && |c| == LONG_NAME_LEN_CAP && 0x21 <= c[0] < 0x80
    && (forall j :: 0 <= j < |c| ==> c[j] < 0x80 || c[j] == 0xFFFF)
  }

  ghost predicate ItemOk(x: Item) {
    match x
    case Dead(e) => IsDeleted(e)
    case File(cs, sum, short) =>
      && |cs| < LAST_LONG_ENTRY && (forall i :: 0 <= i < |cs| ==> ChunkOk(cs[i]))
      && short[11] != ATTR_LONG_NAME && !IsEmpty(short)
  }

  ghost predicate AllOk(xs: seq<Item>) {
    forall k :: 0 <= k < |xs| ==> ItemOk(xs[k])
  }

  /** The entries of an item, as they are stored. */
  ghost function EntriesOf(x: Item): (es: seq<DirEntry>)
    requires ItemOk(x)
    ensures |es| == if x.File? then |x.chunks| + 1 else 1
  {
    match x
    case Dead(e) => [e]
    case File(cs, sum, short) => Stored(cs, |cs|, sum) + [short]
  }

  ghost function Flat(xs: seq<Item>): seq<DirEntry>
    requires AllOk(xs)
  {
    if xs == [] then [] else Flat(xs[..|xs| - 1]) + EntriesOf(xs[|xs| - 1])
  }

  /** Where the entries of item `k` begin. */
  ghost function Start(xs: seq<Item>, k: nat): nat
    requires AllOk(xs) && k <= |xs|
  {
    |Flat(xs[..k])|
  }

  /** The entries of the directory are those of the items, and zeros. */
  ghost predicate Holds(es: seq<DirEntry>, xs: seq<Item>) {
    && AllOk(xs) && |Flat(xs)| <= |es| && es[..|Flat(xs)|] == Flat(xs)
    && (forall i :: |Flat(xs)| <= i < |es| ==> es[i] == ZeroEntry())
  }

  lemma EntriesOfAt(x: Item, p: nat)
    requires ItemOk(x)
    ensures x.Dead? && p == 0 ==> EntriesOf(x)[p] == x.entry
    ensures x.File? && p == |x.chunks| ==> EntriesOf(x)[p] == x.short
    ensures x.File? && p < |x.chunks| ==>
              var n := |x.chunks|;
              EntriesOf(x)[p] == LongEntry(if p == 0 then n + LAST_LONG_ENTRY else n - p, x.chunks[n - 1 - p], x.sum)
  {
    if x.File? && p < |x.chunks| {
      StoredAt(x.chunks, |x.chunks|, x.sum, p);
    }
  }

  lemma StartNext(xs: seq<Item>, k: nat)
    requires AllOk(xs) && k < |xs|
    ensures Start(xs, k + 1) == Start(xs, k) + |EntriesOf(xs[k])| && |EntriesOf(xs[k])| > 0
    ensures Flat(xs[..k + 1]) == Flat(xs[..k]) + EntriesOf(xs[k])
  {
    EntriesOfAt(xs[k], 0);
    assert xs[..k + 1][..k] == xs[..k];
  }

  lemma {:induction false} FlatPrefix(xs: seq<Item>, j: nat, k: nat)
    requires AllOk(xs) && j <= k <= |xs|
    ensures Start(xs, j) <= Start(xs, k) && Flat(xs[..k])[..Start(xs, j)] == Flat(xs[..j])
    ensures j < k ==> Start(xs, j) < Start(xs, k)
    decreases k
  {
    hide Flat, EntriesOf, ItemOk;
    if j < k {
      FlatPrefix(xs, j, k - 1);
      StartNext(xs, k - 1);
    }
  }

  /** The entries of item `k` in the directory. */
  lemma ItemAt(es: seq<DirEntry>, xs: seq<Item>, k: nat)
    requires Holds(es, xs) && k < |xs|
    ensures Start(xs, k) + |EntriesOf(xs[k])| == Start(xs, k + 1) <= |Flat(xs)| <= |es|
    ensures forall p :: 0 <= p < |EntriesOf(xs[k])| ==> es[Start(xs, k) + p] == EntriesOf(xs[k])[p]
  {
    hide Flat, EntriesOf, ItemOk;
    StartNext(xs, k);
    FlatPrefix(xs, k + 1, |xs|);
    assert xs[..|xs|] == xs;
    forall p | 0 <= p < |EntriesOf(xs[k])|
      ensures es[Start(xs, k) + p] == EntriesOf(xs[k])[p]
    {
      assert Flat(xs[..k + 1])[Start(xs, k) + p] == EntriesOf(xs[k])[p];
      assert Flat(xs)[..Start(xs, k + 1)][Start(xs, k) + p] == Flat(xs)[Start(xs, k) + p];
      assert es[..|Flat(xs)|][Start(xs, k) + p] == es[Start(xs, k) + p];
    }
  }

  /** Every entry in use is one of an item. */
  lemma {:induction false} Locate(xs: seq<Item>, i: nat) returns (k: nat, p: nat)
    requires AllOk(xs) && i < |Flat(xs)|
    ensures k < |xs| && p < |EntriesOf(xs[k])| && i == Start(xs, k) + p
    decreases |xs|
  {
    var n := |xs| - 1;
    assert xs[..n + 1] == xs;
    StartNext(xs, n);
    if i >= Start(xs, n) {
      return n, i - Start(xs, n);
    }
    k, p := Locate(xs[..n], i);
    assert xs[..n][..k] == xs[..k];
  }

  /** Entry `i` of the directory is entry `p` of item `k`, or zero. */
  lemma EntryIs(es: seq<DirEntry>, xs: seq<Item>, i: nat) returns (k: nat, p: nat)
    requires Holds(es, xs) && i < |es|
    ensures i >= |Flat(xs)| ==> es[i] == ZeroEntry()
    ensures i < |Flat(xs)| ==> k < |xs| && p < |EntriesOf(xs[k])| && i == Start(xs, k) + p && es[i] == EntriesOf(xs[k])[p]
  {
    k, p := 0, 0;
    if i < |Flat(xs)| {
      k, p := Locate(xs, i);
      ItemAt(es, xs, k);
    }
  }

  /** The first empty entry is right behind the items. */
  lemma FirstEmpty(es: seq<DirEntry>, xs: seq<Item>)
    requires Holds(es, xs)
    ensures forall i :: 0 <= i < |Flat(xs)| ==> !IsEmpty(es[i])
    ensures |Flat(xs)| < |es| ==> IsEmpty(es[|Flat(xs)|])
  {
    hide ShownName, LongEntry;
    forall i | 0 <= i < |Flat(xs)|
      ensures !IsEmpty(es[i])
    {
      var k, p := EntryIs(es, xs, i);
      EntriesOfAt(xs[k], p);
      if xs[k].File? && p < |xs[k].chunks| {
        LongEntryHead(xs[k], p);
      }
    }
  }

  /** The fields of the long entries of an item. */
  lemma LongEntryHead(x: Item, p: nat)
    requires ItemOk(x) && x.File? && p < |x.chunks|
    ensures p < |EntriesOf(x)|
    ensures var e, n := EntriesOf(x)[p], |x.chunks|;
            && e[0] == (if p == 0 then n + LAST_LONG_ENTRY else n - p) && e[11] == ATTR_LONG_NAME && e[13] == x.sum
            && NameUtf16(e) == x.chunks[n - 1 - p]
  {
    hide LongEntry, NameUtf16;
    var n := |x.chunks|;
    EntriesOfAt(x, p);
    LongEntryUnpacks(if p == 0 then n + LAST_LONG_ENTRY else n - p, x.chunks[n - 1 - p], x.sum);
  }

  // ---------------------------------------------------------------- what the searches find

  /** No control characters, and ASCII only. */
  predicate Printable(s: seq<Byte>) {
    forall i :: 0 <= i < |s| ==> 0 < s[i] < 0x80
  }

  /** A name of ASCII characters, none of them a space or a control character. */
  predicate Clean(name: seq<Byte>) {
    name != [] && forall i :: 0 <= i < |name| ==> 0x21 <= name[i] < 0x80
  }

  lemma CleanUpper(name: seq<Byte>)
    requires Clean(name)
    ensures Printable(UpperAll(name)) && SPACE !in name
  {
    forall i | 0 <= i < |name|
      ensures 0 < UpperAll(name)[i] < 0x80
    {
      UpperAllAt(name, i);
    }
  }

  /** A long entry, taken for a short one, shows no printable name. */
  lemma LongShowsNoName(order: Byte, chunk: seq<Unit>, sum: Byte, upper: seq<Byte>)
    requires ChunkOk(chunk) && Printable(upper)
    ensures ShownName(LongEntry(order, chunk, sum)) != upper
  {
    hide UpToSpace, UnitsToBytes;
    var e := LongEntry(order, chunk, sum);
    var units := UnitsToBytes(chunk[..5]);
    UnitBytes(chunk[..5], 0);
    UnitBytes(chunk[..5], 3);
    assert e[1] == units[0] && e[2] == units[1] == 0 && e[8] == units[7];
    if order != SPACE {
      var s := e[..8];
      assert s[..3] == [order, e[1], 0];
      ReadOn(s, 3);
      assert UpToSpace(s)[2] == 0;
      assert ShownName(e)[2] == 0;
    } else {
      ReadEnd(e[..8], 0);
      var t := e[8..11];
      ReadOn(t, 1);
      assert UpToSpace(t)[0] == e[8];
      assert ShownName(e) == [] + [DOT] + UpToSpace(t);
      assert ShownName(e)[1] == e[8];
    }
  }

  lemma ZeroShowsNoName(upper: seq<Byte>)
    requires Printable(upper)
    ensures ShownName(ZeroEntry()) != upper
  {
    hide UpToSpace;
    ReadOn(ZeroEntry()[..8], 1);
    assert ShownName(ZeroEntry())[0] == 0;
  }

  /** `find_by_sfn` stops at short entries of files only. */
  lemma ShortHitIs(es: seq<DirEntry>, xs: seq<Item>, i: nat, upper: seq<Byte>) returns (k: nat)
    requires Holds(es, xs) && Printable(upper) && ShortHit(es, i, upper)
    ensures k < |xs| && Live(xs[k]) && ShownName(xs[k].short) == upper && i == Start(xs, k) + |xs[k].chunks|
  {
    hide ShownName, LongEntry, Flat, EntriesOf, Start, ChunkOk, Holds;
    ZeroShowsNoName(upper);
    HoldsOk(es, xs);
    var p;
    k, p := EntryIs(es, xs, i);
    EntriesOfAt(xs[k], p);
    if xs[k].File? && p < |xs[k].chunks| {
      var n := |xs[k].chunks|;
      LongShowsNoName(if p == 0 then n + LAST_LONG_ENTRY else n - p, xs[k].chunks[n - 1 - p], xs[k].sum, upper);
    }
  }

  lemma ShortHitAt(es: seq<DirEntry>, xs: seq<Item>, k: nat)
    requires Holds(es, xs) && k < |xs| && Live(xs[k])
    ensures ShortHit(es, Start(xs, k) + |xs[k].chunks|, ShownName(xs[k].short))
  {
    hide ShownName, LongEntry;
    ItemAt(es, xs, k);
    EntriesOfAt(xs[k], |xs[k].chunks|);
  }

  /** `find_by_lfn` stops at the first entry of a file with these chunks. */
  lemma LongHitIs(es: seq<DirEntry>, xs: seq<Item>, i: nat, cs: seq<seq<Unit>>) returns (k: nat)
    requires Holds(es, xs) && LongHit(es, i, cs)
    ensures k < |xs| && Live(xs[k]) && xs[k].chunks == cs && xs[k].sum == CheckSum(xs[k].short[..11], 0) && i == Start(xs, k)
  {
    hide NameUtf16, CheckSum, LongEntry, EntriesOf, Flat, Holds, Start;
    var p;
    k, p := EntryIs(es, xs, i);
    HoldsOk(es, xs);
    EntriesOfAt(xs[k], p);
    LongEntryHead(xs[k], p);
    assert p == 0;
    var n := |cs|;
    ItemAt(es, xs, k);
    forall j | 0 <= j < n
      ensures xs[k].chunks[j] == cs[j]
    {
      var q := n - 1 - j;
      LongEntryHead(xs[k], q);
      assert q > 0 ==> PartAt(es, i, cs, q);
    }
    assert xs[k].chunks == cs;
    EntriesOfAt(xs[k], n);
    LongEntryHead(xs[k], n - 1);
  }

  lemma HoldsOk(es: seq<DirEntry>, xs: seq<Item>)
    requires Holds(es, xs)
    ensures AllOk(xs)
  {
  }

  lemma LongHitAt(es: seq<DirEntry>, xs: seq<Item>, k: nat)
    requires Holds(es, xs) && k < |xs| && Live(xs[k]) && xs[k].chunks != [] && xs[k].sum == CheckSum(xs[k].short[..11], 0)
    ensures LongHit(es, Start(xs, k), xs[k].chunks)
  {
    hide NameUtf16, CheckSum, LongEntry, EntriesOf, Flat, Holds, Start;
    HoldsOk(es, xs);
    var i, cs := Start(xs, k), xs[k].chunks;
    var n := |cs|;
    ItemAt(es, xs, k);
    EntriesOfAt(xs[k], n);
    forall q | 0 <= q < n
      ensures PartAt(es, i, cs, q)
    {
      LongEntryHead(xs[k], q);
    }
    LongEntryHead(xs[k], 0);
    LongEntryHead(xs[k], n - 1);
    assert PartAt(es, i, cs, 0);
  }

  // ---------------------------------------------------------------- lookups

  /** The file is the one that `name` is for: by its short entry if the name fits one, else by its chunks,
      whose checksum must be that of the short entry. */
  ghost predicate Named(x: Item, name: seq<Byte>) {
    && Live(x)
    && (if FitsShort(name) then ShownName(x.short) == UpperAll(name)
        else x.chunks == Chunks(Units(name)) && x.sum == CheckSum(x.short[..11], 0))
  }

  /** The first file that `name` is for. */
  ghost function Lookup(xs: seq<Item>, name: seq<Byte>): Option<nat> {
    if xs == [] then None
    else
      var r := Lookup(xs[..|xs| - 1], name);
      if r.Some? then r else if Named(xs[|xs| - 1], name) then Some(|xs| - 1) else None
  }

  lemma {:induction false} LookupFirst(xs: seq<Item>, name: seq<Byte>, k: nat)
    ensures Lookup(xs, name) == Some(k) <==> k < |xs| && Named(xs[k], name) && forall j :: 0 <= j < k ==> !Named(xs[j], name)
    ensures Lookup(xs, name) == None <==> forall j :: 0 <= j < |xs| ==> !Named(xs[j], name)
    decreases |xs|
  {
    hide Named;
    if xs != [] {
      var init := xs[..|xs| - 1];
      LookupFirst(init, name, k);
      var r := Lookup(init, name);
      if r.Some? {
        LookupFirst(init, name, r.value);
      }
    }
  }

  /** Where the search stops for item `k`. */
  ghost function HitIndex(xs: seq<Item>, k: nat, name: seq<Byte>): nat
    requires AllOk(xs) && k < |xs| && Live(xs[k])
  {
    if FitsShort(name) then Start(xs, k) + |xs[k].chunks| else Start(xs, k)
  }

  lemma HitIs(es: seq<DirEntry>, xs: seq<Item>, i: nat, name: seq<Byte>) returns (k: nat)
    requires Holds(es, xs) && Clean(name) && Hit(es, i, name)
    ensures AllOk(xs) && k < |xs| && Named(xs[k], name) && i == HitIndex(xs, k, name)
  {
    hide ShownName, LongHit, ShortHit, UpperAll, FitsShort, Holds, Start, Flat;
    CleanUpper(name);
    if FitsShort(name) {
      k := ShortHitIs(es, xs, i, UpperAll(name));
    } else {
      k := LongHitIs(es, xs, i, Chunks(Units(name)));
    }
    HoldsOk(es, xs);
  }

  lemma HitAt(es: seq<DirEntry>, xs: seq<Item>, k: nat, name: seq<Byte>)
    requires Holds(es, xs) && Clean(name) && k < |xs| && Named(xs[k], name)
    ensures AllOk(xs) && Hit(es, HitIndex(xs, k, name), name)
  {
    hide ShownName, LongHit, ShortHit, UpperAll, FitsShort, Holds, Start, Flat;
    HoldsOk(es, xs);
    if FitsShort(name) {
      ShortHitAt(es, xs, k);
    } else {
      LongHitAt(es, xs, k);
    }
  }

  lemma HitsInOrder(xs: seq<Item>, j: nat, k: nat, name: seq<Byte>)
    requires AllOk(xs) && j < k < |xs| && Live(xs[j]) && Live(xs[k])
    ensures HitIndex(xs, j, name) < HitIndex(xs, k, name)
  {
    hide Flat, EntriesOf, ItemOk;
    StartNext(xs, j);
    EntriesOfAt(xs[j], 0);
    FlatPrefix(xs, j + 1, k);
  }

  /** The search stops at `at`, and not before. */
  ghost predicate FirstHit(es: seq<DirEntry>, at: nat, name: seq<Byte>) {
    Hit(es, at, name) && forall j :: 0 <= j < at ==> !Hit(es, j, name)
  }

  /** The search through the entries finds the first file that the name is for. */
  lemma SearchIsLookup(es: seq<DirEntry>, xs: seq<Item>, at: nat, name: seq<Byte>) returns (k: nat)
    requires Holds(es, xs) && Clean(name) && FirstHit(es, at, name)
    ensures AllOk(xs) && k < |xs| && Live(xs[k]) && Lookup(xs, name) == Some(k) && at == HitIndex(xs, k, name)
  {
    hide Hit, Holds, Named, HitIndex, Live, Lookup;
    k := HitIs(es, xs, at, name);
    NamedIsLive(xs[k], name);
    forall j | 0 <= j < k
      ensures !Named(xs[j], name)
    {
      if Named(xs[j], name) {
        HitAt(es, xs, j, name);
        NamedIsLive(xs[j], name);
        HitsInOrder(xs, j, k, name);
      }
    }
    LookupFirst(xs, name, k);
  }

  lemma NamedIsLive(x: Item, name: seq<Byte>)
    requires Named(x, name)
    ensures Live(x)
  {
  }

  /** If it stops nowhere, there is no such file. */
  lemma NoHitNoFile(es: seq<DirEntry>, xs: seq<Item>, name: seq<Byte>)
    requires Holds(es, xs) && Clean(name) && forall i: nat :: i < |es| ==> !Hit(es, i, name)
    ensures Lookup(xs, name) == None
  {
    hide Holds, Named, HitIndex, Live, Lookup, LongHit;
    forall k | 0 <= k < |xs|
      ensures !Named(xs[k], name)
    {
      if Named(xs[k], name) {
        HitAt(es, xs, k, name);
        NamedIsLive(xs[k], name);
        HitInside(es, HitIndex(xs, k, name), name);
      }
    }
    LookupFirst(xs, name, 0);
  }

  lemma HitInside(es: seq<DirEntry>, i: nat, name: seq<Byte>)
    requires Hit(es, i, name)
    ensures i + LongsOf(name) < |es|
  {
  }

  // ---------------------------------------------------------------- new files

  /** A name that can be stored whole: not too long, and if it fits a short entry, without a second dot or a dot
      at the end. */
  ghost predicate Valid(name: seq<Byte>) {
    Clean(name) && EntryCount(|name|) < LAST_LONG_ENTRY && (FitsShort(name) ==> DotsFit(name))
  }

  /** The short entry that is made for `name`. */
  function NewShort(name: seq<Byte>, attr: Byte): DirEntry {
    var short := if FitsShort(name) then name else Alias(name);
    ShortEntry(Field(SplitNameExt(short).0, 8), Field(SplitNameExt(short).1, 3), attr, 0)
  }

  /** The entries that are made for `name`: of a name that fits a short entry only the first chunk is stored. */
  ghost function NewFile(name: seq<Byte>, attr: Byte): Item
    requires name != []
  {
    var short, cs := NewShort(name, attr), Chunks(Units(name));
    File(if FitsShort(name) then [cs[0]] else cs, CheckSum(short[..11], 0), short)
  }

  lemma ChunksOk(name: seq<Byte>, i: nat)
    requires Clean(name) && i < |Chunks(Units(name))|
    ensures ChunkOk(Chunks(Units(name))[i])
  {
    var u := Units(name);
    var c := Chunks(u)[i];
    assert IsChunk(Padded(u), i, c);
    var from := i * LONG_NAME_LEN_CAP;
    assert from < |name|;
    forall j | 0 <= j < |c|
      ensures c[j] < 0x80 || c[j] == 0xFFFF
      ensures j == 0 ==> c[j] == name[from]
    {
      assert c[j] == Padded(u)[from + j];
    }
  }

  lemma NewShortFields(name: seq<Byte>, attr: Byte)
    requires Clean(name)
    ensures var e := NewShort(name, attr);
            e[11] == attr && 0 < e[0] < 0x80 && FirstClusterOf(e) == 0 && FileSizeOf(e) == 0
    ensures FitsShort(name) ==> ShownName(NewShort(name, attr)) == UpperAll(Kept(name))
  {
    hide UpToSpace, SplitNameExt, UpperAll, Field, FirstClusterOf, FileSizeOf, WithFirstCluster, ShownName, Kept, Alias;
    CleanUpper(name);
    var short := if FitsShort(name) then name else Alias(name);
    var (base, ext) := SplitNameExt(short);
    EntryFields(Field(base, 8), Field(ext, 3), attr, 0);
    var e := NewShort(name, attr);
    assert e[0] == e[..8][0] == UpperAll(Field(base, 8))[0];
    UpperAllAt(Field(base, 8), 0);
    FieldAt(base, 8);
    if FitsShort(name) {
      ShownWhenFormatted(name, attr, 0);
      PartsIn(name);
      assert base != [] ==> base[0] in base;
    } else {
      LongIsLong(name);
      AliasFormatted(name);
      assert base == Alias(name);
    }
  }

  lemma LongIsLong(name: seq<Byte>)
    requires !FitsShort(name)
    ensures |name| > 2
  {
  }

  lemma NewFileOk(name: seq<Byte>, attr: Byte)
    requires Clean(name) && EntryCount(|name|) < LAST_LONG_ENTRY && attr != ATTR_LONG_NAME
    ensures ItemOk(NewFile(name, attr)) && Live(NewFile(name, attr))
  {
    hide NewShort, FitsShort, CheckSum, ChunkOk;
    NewShortFields(name, attr);
    forall i | 0 <= i < |Chunks(Units(name))|
      ensures ChunkOk(Chunks(Units(name))[i])
    {
      ChunksOk(name, i);
    }
  }

  /** A new file is found by its name exactly if the name is a long one or has no second dot and no dot at the
      end. */
  lemma NewFileFoundIff(name: seq<Byte>, attr: Byte)
    requires Clean(name) && attr != ATTR_LONG_NAME
    ensures Named(NewFile(name, attr), name) <==> !FitsShort(name) || DotsFit(name)
  {
    hide NewShort, FitsShort, CheckSum, ShownName, UpperAll, Kept, FirstClusterOf, FileSizeOf, DotsFit;
    KeptIff(name);
    NewShortFields(name, attr);
    PartsIn(name);
    if FitsShort(name) && UpperAll(Kept(name)) == UpperAll(name) {
      assert |Kept(name)| == |UpperAll(Kept(name))| == |name|;
    }
  }

  /** `a.`: the dot at the end is lost, and the file is not found again. */
  lemma DotAtTheEndIsLost(attr: Byte)
    requires attr != ATTR_LONG_NAME
    ensures var name: seq<Byte> := [0x61, DOT];
            Clean(name) && !Named(NewFile(name, attr), name)
  {
    var name: seq<Byte> := [0x61, DOT];
    assert FirstPart([DOT]) == [];
    assert FirstPart(name) == [0x61];
    assert name[2..] == [];
    NewFileFoundIff(name, attr);
  }

  /** Which names a new file answers to: its own; and, as a short name, what its short entry shows. */
  lemma NewFileAnswersTo(name: seq<Byte>, attr: Byte, m: seq<Byte>)
    requires Valid(name) && attr != ATTR_LONG_NAME && Clean(m)
    ensures Named(NewFile(name, attr), m) <==>
            if FitsShort(m) then UpperAll(m) == ShownName(NewShort(name, attr)) else m == name
    ensures FitsShort(name) ==> ShownName(NewShort(name, attr)) == UpperAll(name)
  {
    hide NewShort, FitsShort, CheckSum, ShownName, UpperAll, Kept, FirstClusterOf, DotsFit;
    NewShortFields(name, attr);
    KeptIff(name);
    if !FitsShort(m) {
      if FitsShort(name) {
        KeptIsShort(name);
        assert [Chunks(Units(name))[0]] == Chunks(Units(name));
      }
      if Chunks(Units(m)) == Chunks(Units(name)) {
        assert 0 !in Units(m) && 0 !in Units(name);
        SplitInjective(Units(m), Units(name), Chunks(Units(m)));
      }
    }
  }

  lemma KeptIsShort(name: seq<Byte>)
    requires FitsShort(name) && Kept(name) == name
    ensures |name| <= 12
  {
  }

  /** The new file with another short entry. */
  ghost function NewFileWith(name: seq<Byte>, attr: Byte, e: DirEntry): Item
    requires name != []
  {
    var x := NewFile(name, attr);
    File(x.chunks, x.sum, e)
  }

  // ---------------------------------------------------------------- changes of the entries

  /** The entry at `at` is the first empty one, or there is none. */
  ghost predicate EmptyIndex(es: seq<DirEntry>, at: nat) {
    && at <= |es| && (at < |es| ==> IsEmpty(es[at]))
    && forall i :: 0 <= i < at ==> !IsEmpty(es[i])
  }

  /** `group` was stored from `at` on; where the directory had no entries before, there are zeros. */
  ghost predicate StoredFrom(es: seq<DirEntry>, at: nat, group: seq<DirEntry>, es': seq<DirEntry>) {
    && |es| <= |es'| && at + |group| <= |es'|
    && forall i :: 0 <= i < |es'| ==>
         es'[i] == if at <= i < at + |group| then group[i - at] else if i < |es| then es[i] else ZeroEntry()
  }

  /** Entries `from` on, `n` of them, are marked unused, and entry `from + n` is deleted as a short one. */
  ghost predicate DeletedFrom(es: seq<DirEntry>, from: nat, n: nat, es': seq<DirEntry>) {
    && from + n < |es| == |es'|
    && forall i :: 0 <= i < |es| ==>
         es'[i] == if from <= i < from + n then es[i][0 := DIR_ENTRY_UNUSED]
                   else if i == from + n then MarkedUnused(es[i]) else es[i]
  }

  lemma FlatMore(xs: seq<Item>, x: Item)
    requires AllOk(xs) && ItemOk(x)
    ensures AllOk(xs + [x]) && Flat(xs + [x]) == Flat(xs) + EntriesOf(x)
  {
    hide EntriesOf, ItemOk;
    assert (xs + [x])[..|xs|] == xs;
  }

  /** New entries behind the others make a new file. */
  lemma InsertHolds(es: seq<DirEntry>, xs: seq<Item>, at: nat, x: Item, es': seq<DirEntry>)
    requires Holds(es, xs) && EmptyIndex(es, at) && ItemOk(x) && StoredFrom(es, at, EntriesOf(x), es')
    ensures Holds(es', xs + [x])
  {
    hide EntriesOf, ItemOk, Flat, IsEmpty;
    FirstEmpty(es, xs);
    assert at == |Flat(xs)|;
    FlatMore(xs, x);
    var f' := Flat(xs + [x]);
    forall i | 0 <= i < |f'|
      ensures es'[i] == f'[i]
    {
      assert i < at ==> es[..at][i] == Flat(xs)[i];
    }
  }

  lemma {:induction false} FlatConcat(a: seq<Item>, b: seq<Item>)
    requires AllOk(a) && AllOk(b)
    ensures AllOk(a + b) && Flat(a + b) == Flat(a) + Flat(b)
    decreases |b|
  {
    hide EntriesOf, ItemOk;
    if b == [] {
      assert a + b == a;
    } else {
      var init := b[..|b| - 1];
      FlatConcat(a, init);
      assert (a + b)[..|a + b| - 1] == a + init;
    }
  }

  /** Items in place of item `k`, with as many entries. */
  lemma ReplaceHolds(es: seq<DirEntry>, xs: seq<Item>, k: nat, ys: seq<Item>, es': seq<DirEntry>)
    requires Holds(es, xs) && k < |xs| && AllOk(ys) && |Flat(ys)| == |EntriesOf(xs[k])| && |es'| == |es|
    requires forall i :: 0 <= i < |es| && !(Start(xs, k) <= i < Start(xs, k) + |Flat(ys)|) ==> es'[i] == es[i]
    requires forall p :: 0 <= p < |Flat(ys)| && Start(xs, k) + p < |es| ==> es'[Start(xs, k) + p] == Flat(ys)[p]
    ensures Holds(es', xs[..k] + ys + xs[k + 1..])
  {
    hide EntriesOf, ItemOk, Flat;
    var a, b := xs[..k], xs[k + 1..];
    ItemAt(es, xs, k);
    FlatConcat(xs[..k + 1], b);
    assert xs[..k + 1] + b == xs;
    StartNext(xs, k);
    FlatConcat(a, ys);
    FlatConcat(a + ys, b);
    var f, f' := Flat(xs), Flat(a + ys + b);
    assert |f'| == |f|;
    forall i | 0 <= i < |f'|
      ensures es'[i] == f'[i]
    {
      var q := i - Start(xs, k);
      if 0 <= q < |Flat(ys)| {
        assert es'[Start(xs, k) + q] == Flat(ys)[q];
      } else {
        assert es[..|f|][i] == f[i];
      }
    }
  }

  /** What is left of a file: nothing but deleted entries, or, if its long entries were not looked at, those and
      a deleted short entry. */
  ghost function Remains(x: Item, name: seq<Byte>): seq<Item>
    requires ItemOk(x) && Live(x)
  {
    if FitsShort(name) then [x.(short := MarkedUnused(x.short))] else Corpses(x, |x.chunks|) + [Dead(MarkedUnused(x.short))]
  }

  ghost function Corpses(x: Item, n: nat): seq<Item>
    requires ItemOk(x) && n <= |EntriesOf(x)|
  {
    if n == 0 then [] else Corpses(x, n - 1) + [Dead(EntriesOf(x)[n - 1][0 := DIR_ENTRY_UNUSED])]
  }

  lemma {:induction false} CorpsesFlat(x: Item, n: nat)
    requires ItemOk(x) && n <= |EntriesOf(x)|
    ensures AllOk(Corpses(x, n)) && |Flat(Corpses(x, n))| == n
    ensures forall p :: 0 <= p < n ==> Flat(Corpses(x, n))[p] == EntriesOf(x)[p][0 := DIR_ENTRY_UNUSED]
  {
    hide EntriesOf, ItemOk;
    if n > 0 {
      CorpsesFlat(x, n - 1);
      var e := EntriesOf(x)[n - 1][0 := DIR_ENTRY_UNUSED];
      DeadEntry(e);
      FlatMore(Corpses(x, n - 1), Dead(e));
    }
  }

  lemma DeadEntry(e: DirEntry)
    requires IsDeleted(e)
    ensures ItemOk(Dead(e)) && EntriesOf(Dead(e)) == [e]
  {
  }

  /** The items after file `k` was removed. */
  ghost function Removed(xs: seq<Item>, k: nat, name: seq<Byte>): seq<Item>
    requires AllOk(xs) && k < |xs| && Live(xs[k])
  {
    xs[..k] + Remains(xs[k], name) + xs[k + 1..]
  }

  /** A file whose short entry got other contents behind its name and attributes. */
  lemma SameHead(x: Item, e: DirEntry)
    requires ItemOk(x) && x.File? && 0 < e[0] && e[11] == x.short[11]
    ensures var y := x.(short := e);
            && ItemOk(y) && |EntriesOf(y)| == |EntriesOf(x)| && EntriesOf(y)[|x.chunks|] == e
            && (forall p :: 0 <= p < |x.chunks| ==> EntriesOf(y)[p] == EntriesOf(x)[p])
            && AllOk([y]) && Flat([y]) == EntriesOf(y)
  {
    var y := x.(short := e);
    FlatMore([], y);
    assert [] + [y] == [y];
  }

  lemma RemainsFlat(x: Item, name: seq<Byte>)
    requires ItemOk(x) && Live(x)
    ensures AllOk(Remains(x, name)) && |Flat(Remains(x, name))| == |x.chunks| + 1
    ensures forall p :: 0 <= p <= |x.chunks| ==>
              Flat(Remains(x, name))[p] ==
              if p == |x.chunks| then MarkedUnused(EntriesOf(x)[p])
              else if FitsShort(name) then EntriesOf(x)[p] else EntriesOf(x)[p][0 := DIR_ENTRY_UNUSED]
  {
    hide MarkedUnused, Flat, AllOk, ItemOk, EntriesOf, FitsShort;
    var n := |x.chunks|;
    EntriesOfAt(x, n);
    DeletedEntry(x.short);
    if FitsShort(name) {
      SameHead(x, MarkedUnused(x.short));
    } else {
      CorpsesFlat(x, n);
      DeadEntry(MarkedUnused(x.short));
      FlatMore(Corpses(x, n), Dead(MarkedUnused(x.short)));
    }
  }

  /** Deleting the entries of a file removes the file. */
  lemma RemoveHolds(es: seq<DirEntry>, xs: seq<Item>, k: nat, name: seq<Byte>, es': seq<DirEntry>)
    requires Holds(es, xs) && k < |xs| && Live(xs[k])
    requires DeletedFrom(es, HitIndex(xs, k, name), if FitsShort(name) then 0 else |xs[k].chunks|, es')
    ensures Holds(es', Removed(xs, k, name))
  {
    hide MarkedUnused, Flat, ItemOk, EntriesOf, FitsShort, Remains, Holds, Start;
    HoldsOk(es, xs);
    var x, ys := xs[k], Remains(xs[k], name);
    RemainsFlat(x, name);
    ItemAt(es, xs, k);
    forall p | 0 <= p < |Flat(ys)| && Start(xs, k) + p < |es|
      ensures es'[Start(xs, k) + p] == Flat(ys)[p]
    {
      assert es[Start(xs, k) + p] == EntriesOf(x)[p];
    }
    ReplaceHolds(es, xs, k, ys, es');
  }

  /** The short entry of a file gets another first cluster or size. */
  lemma TouchHolds(es: seq<DirEntry>, xs: seq<Item>, k: nat, e: DirEntry)
    requires Holds(es, xs) && k < |xs| && Live(xs[k]) && e[..20] == xs[k].short[..20]
    ensures Start(xs, k) + |xs[k].chunks| < |es| && es[Start(xs, k) + |xs[k].chunks|] == xs[k].short
    ensures Holds(es[Start(xs, k) + |xs[k].chunks| := e], xs[..k] + [xs[k].(short := e)] + xs[k + 1..])
    ensures Live(xs[k].(short := e))
  {
    hide Flat, EntriesOf, FitsShort, Holds, Start;
    HoldsOk(es, xs);
    var x := xs[k];
    var n := |x.chunks|;
    assert e[0] == e[..20][0] == x.short[0] && e[11] == e[..20][11] == x.short[11];
    ItemAt(es, xs, k);
    EntriesOfAt(x, n);
    SameHead(x, e);
    var es' := es[Start(xs, k) + n := e];
    forall p | 0 <= p < |EntriesOf(x)| && Start(xs, k) + p < |es|
      ensures es'[Start(xs, k) + p] == Flat([x.(short := e)])[p]
    {
      assert es[Start(xs, k) + p] == EntriesOf(x)[p];
    }
    ReplaceHolds(es, xs, k, [x.(short := e)], es');
  }

  // ---------------------------------------------------------------- the files of a directory

  /** The files that are there, in order. */
  ghost function LiveOf(xs: seq<Item>): seq<Item> {
    if xs == [] then [] else LiveOf(xs[..|xs| - 1]) + (if Live(xs[|xs| - 1]) then [xs[|xs| - 1]] else [])
  }

  lemma {:induction false} LiveConcat(a: seq<Item>, b: seq<Item>)
    ensures LiveOf(a + b) == LiveOf(a) + LiveOf(b)
    decreases |b|
  {
    if b == [] {
      assert a + b == a;
    } else {
      LiveConcat(a, b[..|b| - 1]);
      assert (a + b)[..|a + b| - 1] == a + b[..|b| - 1];
    }
  }

  lemma LiveOne(x: Item)
    ensures LiveOf([x]) == if Live(x) then [x] else []
  {
    assert [x][..0] == [];
  }

  /** Items in place of item `k`. */
  lemma LiveReplaced(xs: seq<Item>, k: nat, ys: seq<Item>)
    requires k < |xs|
    ensures LiveOf(xs) == LiveOf(xs[..k]) + LiveOf([xs[k]]) + LiveOf(xs[k + 1..])
    ensures LiveOf(xs[..k] + ys + xs[k + 1..]) == LiveOf(xs[..k]) + LiveOf(ys) + LiveOf(xs[k + 1..])
  {
    assert xs == xs[..k] + [xs[k]] + xs[k + 1..];
    LiveConcat(xs[..k], [xs[k]]);
    LiveConcat(xs[..k] + [xs[k]], xs[k + 1..]);
    LiveConcat(xs[..k], ys);
    LiveConcat(xs[..k] + ys, xs[k + 1..]);
  }

  lemma {:induction false} CorpsesDead(x: Item, n: nat)
    requires ItemOk(x) && n <= |EntriesOf(x)|
    ensures LiveOf(Corpses(x, n)) == []
  {
    if n > 0 {
      CorpsesDead(x, n - 1);
      var d := Dead(EntriesOf(x)[n - 1][0 := DIR_ENTRY_UNUSED]);
      LiveConcat(Corpses(x, n - 1), [d]);
      LiveOne(d);
    }
  }

  lemma RemainsDead(x: Item, name: seq<Byte>)
    requires ItemOk(x) && Live(x)
    ensures LiveOf(Remains(x, name)) == []
  {
    hide EntriesOf, MarkedUnused;
    DeletedEntry(x.short);
    if FitsShort(name) {
      LiveOne(x.(short := MarkedUnused(x.short)));
    } else {
      CorpsesDead(x, |x.chunks|);
      var d := Dead(MarkedUnused(x.short));
      LiveConcat(Corpses(x, |x.chunks|), [d]);
      LiveOne(d);
    }
  }

  /** A lookup among the items is one among the files. */
  lemma {:induction false} LookupLive(xs: seq<Item>, name: seq<Byte>)
    ensures Lookup(xs, name) == None ==> Lookup(LiveOf(xs), name) == None
    ensures Lookup(xs, name).Some? ==>
              var k := Lookup(xs, name).value;
              k < |xs| && Live(xs[k]) && Lookup(LiveOf(xs), name) == Some(|LiveOf(xs[..k])|)
    decreases |xs|
  {
    hide FitsShort, ShownName, UpperAll, CheckSum;
    if xs != [] {
      var init, x := xs[..|xs| - 1], xs[|xs| - 1];
      LookupLive(init, name);
      LookupMore(LiveOf(init), x, name);
      assert LiveOf(init) + [] == LiveOf(init);
      if Lookup(init, name).Some? {
        var k := Lookup(init, name).value;
        assert init[..k] == xs[..k];
      } else {
        assert xs[..|xs| - 1] == init;
      }
    }
  }

  lemma LookupMore(fs: seq<Item>, x: Item, name: seq<Byte>)
    ensures Lookup(fs + [x], name) ==
            if Lookup(fs, name).Some? then Lookup(fs, name) else if Named(x, name) then Some(|fs|) else None
  {
    assert (fs + [x])[..|fs|] == fs;
  }

  /** The search at the end of `create` finds the new file if and only if no file had that name, of whatever type,
      and its dots fit; otherwise what it finds is an old file, which is then taken for the new one. */
  lemma FoundIsNewIff(xs: seq<Item>, name: seq<Byte>, attr: Byte)
    requires Clean(name) && attr != ATTR_LONG_NAME
    ensures Lookup(xs + [NewFile(name, attr)], name) == Some(|xs|) <==> Lookup(xs, name) == None && (!FitsShort(name) || DotsFit(name))
    ensures Lookup(xs, name).Some? ==> Lookup(xs + [NewFile(name, attr)], name) == Lookup(xs, name) && Lookup(xs, name).value < |xs|
  {
    hide NewFile, Named, FitsShort, DotsFit;
    NewFileFoundIff(name, attr);
    LookupMore(xs, NewFile(name, attr), name);
    if Lookup(xs, name).Some? {
      LookupFirst(xs, name, Lookup(xs, name).value);
    }
  }
}
