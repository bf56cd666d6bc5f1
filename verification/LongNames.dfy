/** Long file names in directory entries (crates/fat32/src/lib.rs and entry.rs), at the level of UTF-16 units.

    A name is cut into chunks of 13 units, the last one padded; each chunk is packed into an entry, and the
    entries are stored last chunk first.  Reading them in stored order and prepending gives the name back. */
module LongNames {
  import opened LittleEndian
  import opened DirEntries

  type Unit = u: int | 0 <= u < 0x1_0000

  const LONG_NAME_LEN_CAP: nat := 13
  const LAST_LONG_ENTRY: nat := 0x40

  /** How many long entries a name of `len` units takes. */
  function EntryCount(len: nat): nat {
    (len + LONG_NAME_LEN_CAP - 1) / LONG_NAME_LEN_CAP
  }

  /** The name followed by a zero unit and 0xFFFF units, unless it fills its last chunk. */
  function Padded(name: seq<Unit>): seq<Unit> {
    var room := EntryCount(|name|) * LONG_NAME_LEN_CAP;
    if |name| < room then name + [0] + seq(room - |name| - 1, _ => 0xFFFF) else name
  }

  /** `c` is chunk number `i` of the units `s`. */
  ghost predicate IsChunk(s: seq<Unit>, i: nat, c: seq<Unit>) {
    && i * LONG_NAME_LEN_CAP + LONG_NAME_LEN_CAP <= |s|
    && c == s[i * LONG_NAME_LEN_CAP..i * LONG_NAME_LEN_CAP + LONG_NAME_LEN_CAP]
  }

  /** `cs` is the name cut into chunks. */
  ghost predicate Splits(name: seq<Unit>, cs: seq<seq<Unit>>) {
    && |cs| == EntryCount(|name|)
    && (forall i :: 0 <= i < |cs| ==> IsChunk(Padded(name), i, cs[i]))
  }

  /** `long_name_split`. */
  method LongNameSplit(name: seq<Unit>) returns (chunks: seq<seq<Unit>>)
    ensures Splits(name, chunks)
  {
    var units := name;
    var len := |name|;
    var lfnCnt := EntryCount(len);
    if len < lfnCnt * LONG_NAME_LEN_CAP {
      units := units + [0];
      while |units| < lfnCnt * LONG_NAME_LEN_CAP
        invariant len < |units| <= lfnCnt * LONG_NAME_LEN_CAP
        invariant units[..len] == name && units[len] == 0
        invariant forall i :: len < i < |units| ==> units[i] == 0xFFFF
      {
        units := units + [0xFFFF];
      }
    }
    assert units == Padded(name);
    chunks := [];
    while |chunks| < lfnCnt
      invariant |chunks| <= lfnCnt
      invariant forall i :: 0 <= i < |chunks| ==> IsChunk(units, i, chunks[i])
    {
      var k := |chunks| * LONG_NAME_LEN_CAP;
      chunks := chunks + [units[k..k + LONG_NAME_LEN_CAP]];
    }
  }

  /** The chunks of a name. */
  ghost function Chunks(name: seq<Unit>): (cs: seq<seq<Unit>>)
    ensures Splits(name, cs)
  {
    var p := Padded(name);
    seq(EntryCount(|name|), i requires 0 <= i < EntryCount(|name|) => p[i * LONG_NAME_LEN_CAP..i * LONG_NAME_LEN_CAP + LONG_NAME_LEN_CAP])
  }

  lemma SplitsUnique(name: seq<Unit>, cs: seq<seq<Unit>>)
    requires Splits(name, cs)
    ensures cs == Chunks(name)
  {
    forall i | 0 <= i < |cs|
      ensures cs[i] == Chunks(name)[i]
    {
      assert IsChunk(Padded(name), i, cs[i]) && IsChunk(Padded(name), i, Chunks(name)[i]);
    }
  }

  // ---------------------------------------------------------------- entries

  /** The offset of unit `i` in a long entry: five, six and two units, with other fields between. */
  function UnitOffset(i: nat): (off: nat)
    requires i < LONG_NAME_LEN_CAP
    ensures 1 <= off && off + 2 <= DIRENT_SIZE && (off + 2 <= 11 || 14 <= off)
  {
    if i < 5 then 1 + 2 * i else if i < 11 then 14 + 2 * (i - 5) else 28 + 2 * (i - 11)
  }

  function UnitsToBytes(us: seq<Unit>): (bs: seq<Byte>)
    ensures |bs| == 2 * |us|
  {
    if us == [] then [] else ToBytes(us[0], 2) + UnitsToBytes(us[1..])
  }

  /** `new_form_name_slice`. */
  function LongEntry(order: Byte, chunk: seq<Unit>, checkSum: Byte): DirEntry
    requires |chunk| == LONG_NAME_LEN_CAP
  {
    [order] + UnitsToBytes(chunk[..5]) + [ATTR_LONG_NAME, 0, checkSum] + UnitsToBytes(chunk[5..11]) + [0, 0] + UnitsToBytes(chunk[11..])
  }

  function UnitAt(e: DirEntry, i: nat): Unit
    requires i < LONG_NAME_LEN_CAP
  {
    UnitBound(e, i);
    Get(e, UnitOffset(i), 2)
  }

  lemma UnitBound(e: DirEntry, i: nat)
    requires i < LONG_NAME_LEN_CAP
    ensures Get(e, UnitOffset(i), 2) < 0x1_0000
  {
    Pow256Values();
    FromBytesBound(e[UnitOffset(i)..UnitOffset(i) + 2]);
  }

  /** `name_utf16`. */
  function NameUtf16(e: DirEntry): (r: seq<Unit>)
    ensures |r| == LONG_NAME_LEN_CAP
  {
    [UnitAt(e, 0), UnitAt(e, 1), UnitAt(e, 2), UnitAt(e, 3), UnitAt(e, 4)]
    + [UnitAt(e, 5), UnitAt(e, 6), UnitAt(e, 7), UnitAt(e, 8), UnitAt(e, 9), UnitAt(e, 10)]
    + [UnitAt(e, 11), UnitAt(e, 12)]
  }

  lemma {:induction false} UnitsStored(us: seq<Unit>, i: nat)
    requires i < |us|
    ensures FromBytes(UnitsToBytes(us)[2 * i..2 * i + 2]) == us[i]
  {
    if i == 0 {
      Pow256Values();
      FromToBytes(us[0], 2);
      assert UnitsToBytes(us)[0..2] == ToBytes(us[0], 2);
    } else {
      UnitsStored(us[1..], i - 1);
      assert UnitsToBytes(us)[2 * i..2 * i + 2] == UnitsToBytes(us[1..])[2 * (i - 1)..2 * (i - 1) + 2];
    }
  }

  lemma {:induction false} UnitBytes(us: seq<Unit>, i: nat)
    requires i < |us|
    ensures UnitsToBytes(us)[2 * i] == us[i] % 256 && UnitsToBytes(us)[2 * i + 1] == us[i] / 256
  {
    if i == 0 {
      assert ToBytes(us[0], 2) == [us[0] % 256] + ToBytes(us[0] / 256, 1);
      assert ToBytes(us[0] / 256, 1) == [us[0] / 256 % 256] + ToBytes(us[0] / 256 / 256, 0);
    } else {
      UnitBytes(us[1..], i - 1);
    }
  }

  /** An entry gives its chunk back, and its other fields are where readers look for them. */
  lemma LongEntryUnpacks(order: Byte, chunk: seq<Unit>, checkSum: Byte)
    requires |chunk| == LONG_NAME_LEN_CAP
    ensures NameUtf16(LongEntry(order, chunk, checkSum)) == chunk
    ensures var e := LongEntry(order, chunk, checkSum); e[0] == order && e[11] == ATTR_LONG_NAME && e[13] == checkSum
  {
    var e := LongEntry(order, chunk, checkSum);
    forall i | 0 <= i < LONG_NAME_LEN_CAP
      ensures UnitAt(e, i) == chunk[i]
    {
      UnitOfEntry(order, chunk, checkSum, i);
    }
    assert NameUtf16(e) == chunk;
  }

  lemma SubSlice(e: seq<Byte>, from: nat, to: nat, k: nat)
    requires from + k + 2 <= to <= |e|
    ensures e[from..to][k..k + 2] == e[from + k..from + k + 2]
  {
    var part := e[from..to];
    assert part[k] == e[from + k] && part[k + 1] == e[from + k + 1];
    assert part[k..k + 2] == [part[k], part[k + 1]];
    assert e[from + k..from + k + 2] == [e[from + k], e[from + k + 1]];
  }

  lemma UnitOfEntry(order: Byte, chunk: seq<Unit>, checkSum: Byte, i: nat)
    requires |chunk| == LONG_NAME_LEN_CAP && i < LONG_NAME_LEN_CAP
    ensures UnitAt(LongEntry(order, chunk, checkSum), i) == chunk[i]
  {
    hide UnitsToBytes, FromBytes;
    var e := LongEntry(order, chunk, checkSum);
    if i < 5 {
      UnitsStored(chunk[..5], i);
      assert e[1..11] == UnitsToBytes(chunk[..5]);
      SubSlice(e, 1, 11, 2 * i);
    } else if i < 11 {
      UnitsStored(chunk[5..11], i - 5);
      assert e[14..26] == UnitsToBytes(chunk[5..11]);
      SubSlice(e, 14, 26, 2 * (i - 5));
    } else {
      UnitsStored(chunk[11..], i - 11);
      assert e[28..32] == UnitsToBytes(chunk[11..]);
      SubSlice(e, 28, 32, 2 * (i - 11));
    }
  }

  // ---------------------------------------------------------------- reading a name

  /** The units before the first zero. */
  function UpToZero(s: seq<Unit>): seq<Unit> {
    if s == [] || s[0] == 0 then [] else [s[0]] + UpToZero(s[1..])
  }

  /** `name`, without the decoding to characters: the loop looks for the first zero unit. */
  method NameUnits(e: DirEntry) returns (r: seq<Unit>)
    ensures r == UpToZero(NameUtf16(e))
  {
    var all := NameUtf16(e);
    var len := 0;
    while len < |all| && all[len] != 0
      invariant 0 <= len <= |all|
      invariant UpToZero(all) == all[..len] + UpToZero(all[len..])
    {
      len := len + 1;
      assert all[..len] == all[..len - 1] + [all[len - 1]];
    }
    assert UpToZero(all[len..]) == [];
    return all[..len];
  }

  /** The entries of a name as they are stored: the last chunk first, marked, then down to the first. */
  ghost function Stored(cs: seq<seq<Unit>>, n: nat, checkSum: Byte): (es: seq<DirEntry>)
    requires n <= |cs| < LAST_LONG_ENTRY && forall i :: 0 <= i < |cs| ==> |cs[i]| == LONG_NAME_LEN_CAP
    ensures |es| == n
  {
    if n == 0 then []
    else [LongEntry(if n == |cs| then n + LAST_LONG_ENTRY else n, cs[n - 1], checkSum)] + Stored(cs, n - 1, checkSum)
  }

  lemma {:induction false} StoredAt(cs: seq<seq<Unit>>, n: nat, checkSum: Byte, p: nat)
    requires p < n <= |cs| < LAST_LONG_ENTRY && forall i :: 0 <= i < |cs| ==> |cs[i]| == LONG_NAME_LEN_CAP
    ensures Stored(cs, n, checkSum)[p] == LongEntry(if n - p == |cs| then n - p + LAST_LONG_ENTRY else n - p, cs[n - 1 - p], checkSum)
  {
    if p > 0 {
      StoredAt(cs, n - 1, checkSum, p - 1);
    } else if n > 1 {
      StoredAt(cs, n - 1, checkSum, 0);
    }
  }

  /** What reading entries in stored order and prepending each name yields. */
  ghost function Prepended(es: seq<DirEntry>, acc: seq<Unit>): seq<Unit> {
    if es == [] then acc else Prepended(es[1..], UpToZero(NameUtf16(es[0])) + acc)
  }

  lemma {:induction false} UpToZeroWhole(s: seq<Unit>)
    requires 0 !in s
    ensures UpToZero(s) == s
  {
    if s != [] {
      UpToZeroWhole(s[1..]);
    }
  }

  lemma {:induction false} UpToZeroCut(a: seq<Unit>, b: seq<Unit>)
    requires 0 !in a
    ensures UpToZero(a + [0] + b) == a
  {
    if a != [] {
      UpToZeroCut(a[1..], b);
      assert (a + [0] + b)[1..] == a[1..] + [0] + b;
    }
  }

  /** The part of the name in chunk `i`. */
  lemma ChunkName(name: seq<Unit>, cs: seq<seq<Unit>>, i: nat)
    requires 0 !in name && Splits(name, cs) && i < |cs|
    ensures i * LONG_NAME_LEN_CAP < |name|
    ensures var from := i * LONG_NAME_LEN_CAP;
            UpToZero(cs[i]) == if from + LONG_NAME_LEN_CAP <= |name| then name[from..from + LONG_NAME_LEN_CAP] else name[from..]
  {
    var p := Padded(name);
    var from := i * LONG_NAME_LEN_CAP;
    assert IsChunk(p, i, cs[i]);
    assert from < |name|;
    if from + LONG_NAME_LEN_CAP <= |name| {
      assert cs[i] == name[from..from + LONG_NAME_LEN_CAP];
      UpToZeroWhole(cs[i]);
    } else {
      var a, b := name[from..], p[|name| + 1..from + LONG_NAME_LEN_CAP];
      assert cs[i] == a + [0] + b;
      UpToZeroCut(a, b);
    }
  }

  lemma {:induction false} PrependedChunks(name: seq<Unit>, cs: seq<seq<Unit>>, n: nat, checkSum: Byte, acc: seq<Unit>)
    requires 0 !in name && Splits(name, cs) && n <= |cs| < LAST_LONG_ENTRY
    requires forall i :: 0 <= i < |cs| ==> |cs[i]| == LONG_NAME_LEN_CAP
    ensures Prepended(Stored(cs, n, checkSum), acc) ==
            (if n * LONG_NAME_LEN_CAP <= |name| then name[..n * LONG_NAME_LEN_CAP] else name) + acc
  {
    hide UpToZero, NameUtf16, LongEntry, Padded, Splits;
    if n > 0 {
      var order := if n == |cs| then n + LAST_LONG_ENTRY else n;
      LongEntryUnpacks(order, cs[n - 1], checkSum);
      ChunkName(name, cs, n - 1);
      PrependedChunks(name, cs, n - 1, checkSum, UpToZero(cs[n - 1]) + acc);
      StoredFirst(cs, n, checkSum, acc);
      TakeMore(name, n - 1, UpToZero(cs[n - 1]), acc);
    } else {
      assert name[..0] + acc == acc;
    }
  }

  lemma StoredFirst(cs: seq<seq<Unit>>, n: nat, checkSum: Byte, acc: seq<Unit>)
    requires 0 < n <= |cs| < LAST_LONG_ENTRY && forall i :: 0 <= i < |cs| ==> |cs[i]| == LONG_NAME_LEN_CAP
    ensures var e := LongEntry(if n == |cs| then n + LAST_LONG_ENTRY else n, cs[n - 1], checkSum);
            Prepended(Stored(cs, n, checkSum), acc) == Prepended(Stored(cs, n - 1, checkSum), UpToZero(NameUtf16(e)) + acc)
  {
    hide UpToZero, NameUtf16, LongEntry;
    assert Stored(cs, n, checkSum)[1..] == Stored(cs, n - 1, checkSum);
  }

  lemma TakeMore(name: seq<Unit>, i: nat, part: seq<Unit>, acc: seq<Unit>)
    requires var from := i * LONG_NAME_LEN_CAP;
             from < |name| && part == if from + LONG_NAME_LEN_CAP <= |name| then name[from..from + LONG_NAME_LEN_CAP] else name[from..]
    ensures name[..i * LONG_NAME_LEN_CAP] + (part + acc) ==
            (if (i + 1) * LONG_NAME_LEN_CAP <= |name| then name[..(i + 1) * LONG_NAME_LEN_CAP] else name) + acc
  {
    var from := i * LONG_NAME_LEN_CAP;
    if from + LONG_NAME_LEN_CAP <= |name| {
      assert name[..from] + part == name[..from + LONG_NAME_LEN_CAP];
    } else {
      assert name[..from] + part == name;
    }
    assert name[..from] + (part + acc) == name[..from] + part + acc;
  }

  /** Splitting, packing, storing in reverse and reading back is the identity, whatever the length. */
  lemma LongNameRoundTrip(name: seq<Unit>, cs: seq<seq<Unit>>, checkSum: Byte)
    requires name != [] && 0 !in name && Splits(name, cs) && |cs| < LAST_LONG_ENTRY
    ensures forall i :: 0 <= i < |cs| ==> |cs[i]| == LONG_NAME_LEN_CAP
    ensures Prepended(Stored(cs, |cs|, checkSum), []) == name
  {
    forall i | 0 <= i < |cs|
      ensures |cs[i]| == LONG_NAME_LEN_CAP
    {
      assert IsChunk(Padded(name), i, cs[i]);
    }
    PrependedChunks(name, cs, |cs|, checkSum, []);
  }

  /** Different names are split differently. */
  lemma SplitInjective(a: seq<Unit>, b: seq<Unit>, cs: seq<seq<Unit>>)
    requires a != [] && b != [] && 0 !in a && 0 !in b && |cs| < LAST_LONG_ENTRY
    requires Splits(a, cs) && Splits(b, cs)
    ensures a == b
  {
    LongNameRoundTrip(a, cs, 0);
    LongNameRoundTrip(b, cs, 0);
  }
}
