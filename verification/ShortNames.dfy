/** Short file names in directory entries (crates/fat32/src/lib.rs and entry.rs), for ASCII names. */
module ShortNames {
  import opened LittleEndian
  import opened DirEntries

  const DOT: Byte := 0x2E

  function Upper(b: Byte): Byte {
    if 0x61 <= b <= 0x7A then b - 0x20 else b
  }

  function UpperAll(s: seq<Byte>): (r: seq<Byte>)
    ensures |r| == |s|
  {
    if s == [] then [] else [Upper(s[0])] + UpperAll(s[1..])
  }

  /** The first dot-separated part of a name. */
  function FirstPart(s: seq<Byte>): (r: seq<Byte>)
    ensures |r| <= |s| && r == s[..|r|] && DOT !in r && (|r| < |s| ==> s[|r|] == DOT)
  {
    if s == [] || s[0] == DOT then [] else [s[0]] + FirstPart(s[1..])
  }

  /** `split_name_ext`: the first two parts of the name; the names of a directory itself and of its parent
      are not split. */
  function SplitNameExt(name: seq<Byte>): (seq<Byte>, seq<Byte>) {
    if name == [DOT] || name == [DOT, DOT] then (name, [])
    else
      var base := FirstPart(name);
      if |base| == |name| then (base, []) else (base, FirstPart(name[|base| + 1..]))
  }

  /** The part, or its beginning, in upper case and filled with spaces. */
  function Field(part: seq<Byte>, size: nat): (r: seq<Byte>)
    ensures |r| == size
  {
    if |part| >= size then UpperAll(part[..size]) else UpperAll(part) + seq(size - |part|, _ => SPACE)
  }

  /** `short_name_format`. */
  method ShortNameFormat(name: seq<Byte>) returns (fName: seq<Byte>, fExt: seq<Byte>)
    ensures fName == Field(SplitNameExt(name).0, 8) && fExt == Field(SplitNameExt(name).1, 3)
  {
    var parts := SplitNameExt(name);
    fName := FillField(parts.0, 8);
    fExt := FillField(parts.1, 3);
  }

  /** One of the loops of `short_name_format`. */
  method FillField(part: seq<Byte>, size: nat) returns (f: seq<Byte>)
    ensures f == Field(part, size)
  {
    f := [];
    while |f| < size
      invariant |f| <= size
      invariant forall i :: 0 <= i < |f| ==> f[i] == if i >= |part| then SPACE else Upper(part[i])
    {
      f := f + [if |f| >= |part| then SPACE else Upper(part[|f|])];
    }
    FieldAt(part, size);
    assert f == Field(part, size);
  }

  lemma {:induction false} UpperAllAt(s: seq<Byte>, i: nat)
    requires i < |s|
    ensures UpperAll(s)[i] == Upper(s[i])
  {
    if i > 0 {
      UpperAllAt(s[1..], i - 1);
    }
  }

  lemma FieldAt(part: seq<Byte>, size: nat)
    ensures forall i :: 0 <= i < size ==> Field(part, size)[i] == if i >= |part| then SPACE else Upper(part[i])
  {
    forall i | 0 <= i < size
      ensures Field(part, size)[i] == if i >= |part| then SPACE else Upper(part[i])
    {
      if i < |part| {
        UpperAllAt(if |part| >= size then part[..size] else part, i);
      }
    }
  }

  // ---------------------------------------------------------------- entries

  /** `ShortDirEntry::new`, for name fields that are already formatted. */
  function ShortEntry(fName: seq<Byte>, fExt: seq<Byte>, attr: Byte, cluster: nat): DirEntry
    requires |fName| == 8 && |fExt| == 3
  {
    WithFirstCluster(RawEntry(UpperAll(fName), UpperAll(fExt), attr), cluster)
  }

  /** An entry of which only the name and the attributes are set. */
  function RawEntry(fName: seq<Byte>, fExt: seq<Byte>, attr: Byte): (e: DirEntry)
    requires |fName| == 8 && |fExt| == 3
    ensures e[..8] == fName && e[8..11] == fExt && e[11] == attr
  {
    fName + fExt + [attr] + seq(20, _ => 0)
  }

  /** The bytes before the first space. */
  function UpToSpace(s: seq<Byte>): seq<Byte> {
    if s == [] || s[0] == SPACE then [] else [s[0]] + UpToSpace(s[1..])
  }

  /** The name that an entry shows: base, and the extension behind a dot if there is one. */
  function ShownName(e: DirEntry): seq<Byte> {
    var base, ext := UpToSpace(e[..8]), UpToSpace(e[8..11]);
    if ext == [] then base else base + [DOT] + ext
  }

  /** Reading up to the first space from the front of `s`, `k` bytes are read. */
  lemma ReadOn(s: seq<Byte>, k: nat)
    requires k <= |s| && SPACE !in s[..k]
    ensures UpToSpace(s) == s[..k] + UpToSpace(s[k..])
    decreases k
  {
    if k > 0 {
      assert s[0] == s[..k][0];
      assert s[1..][..k - 1] == s[..k][1..];
      ReadOn(s[1..], k - 1);
      assert s[1..][k - 1..] == s[k..];
      assert s[..k] == [s[0]] + s[1..][..k - 1];
    } else {
      assert s[0..] == s;
    }
  }

  /** The reading stops at a space or at the end. */
  lemma ReadEnd(s: seq<Byte>, k: nat)
    requires k <= |s| && SPACE !in s[..k] && (k < |s| ==> s[k] == SPACE)
    ensures UpToSpace(s) == s[..k]
  {
    ReadOn(s, k);
    assert s[..k] + [] == s[..k];
  }

  /** `get_name_uppercase`. */
  method GetNameUppercase(e: DirEntry) returns (name: seq<Byte>)
    ensures name == ShownName(e)
  {
    hide UpToSpace;
    name := [];
    var i := 0;
    while i < 8
      invariant 0 <= i <= 8 && name == e[..i] && SPACE !in name
    {
      if e[i] == SPACE {
        break;
      }
      name := name + [e[i]];
      i := i + 1;
    }
    ReadEnd(e[..8], i);
    assert e[..8][..i] == e[..i];
    ghost var base := name;
    var ext := e[8..11];
    i := 0;
    while i < 3
      invariant 0 <= i <= 3 && SPACE !in ext[..i]
      invariant name == if i == 0 then base else base + [DOT] + ext[..i]
    {
      if ext[i] == SPACE {
        break;
      }
      if i == 0 {
        name := name + [DOT];
      }
      name := name + [ext[i]];
      assert ext[..i + 1] == ext[..i] + [ext[i]];
      i := i + 1;
    }
    ReadEnd(ext, i);
  }

  /** A name of at most eight and three characters, without spaces, with at most one dot and something on
      both sides of it. */
  ghost predicate Valid83(name: seq<Byte>) {
    var (base, ext) := SplitNameExt(name);
    && 1 <= |base| <= 8 && |ext| <= 3
    && SPACE !in name && DOT !in base
    && (name == base || (ext != [] && name == base + [DOT] + ext))
  }

  lemma {:induction false} UpToSpaceField(part: seq<Byte>, pad: seq<Byte>)
    requires SPACE !in part && forall i :: 0 <= i < |pad| ==> pad[i] == SPACE
    ensures UpToSpace(UpperAll(UpperAll(part) + pad)) == UpperAll(part)
  {
    if part != [] {
      UpToSpaceField(part[1..], pad);
      assert Upper(Upper(part[0])) == Upper(part[0]) && Upper(part[0]) != SPACE by { assert part[0] in part; }
      assert (UpperAll(part) + pad)[1..] == UpperAll(part[1..]) + pad;
    } else {
      assert UpperAll(part) + pad == pad;
    }
  }

  lemma {:induction false} UpperAllConcat(a: seq<Byte>, b: seq<Byte>)
    ensures UpperAll(a + b) == UpperAll(a) + UpperAll(b)
  {
    if a == [] {
      assert a + b == b;
    } else {
      UpperAllConcat(a[1..], b);
      assert (a + b)[1..] == a[1..] + b;
    }
  }

  /** What of a name the two fields of an entry can hold: the base, and behind a dot the extension if there
      is one. */
  function Kept(name: seq<Byte>): seq<Byte> {
    var (base, ext) := SplitNameExt(name);
    if ext == [] then base else base + [DOT] + ext
  }

  /** The parts of the name fit the fields of an entry. */
  predicate FitsShort(name: seq<Byte>) {
    |SplitNameExt(name).0| <= 8 && |SplitNameExt(name).1| <= 3
  }

  /** Formatting a name, building its entry and reading the entry back gives what was kept, in upper case. */
  lemma ShownWhenFormatted(name: seq<Byte>, attr: Byte, cluster: nat)
    requires SPACE !in name && FitsShort(name) && cluster < 0x1_0000_0000
    ensures var (base, ext) := SplitNameExt(name);
            ShownName(ShortEntry(Field(base, 8), Field(ext, 3), attr, cluster)) == UpperAll(Kept(name))
  {
    hide UpToSpace, UpperAll, Field, SplitNameExt, WithFirstCluster, FirstClusterOf, FileSizeOf;
    var (base, ext) := SplitNameExt(name);
    PartsIn(name);
    EntryFields(Field(base, 8), Field(ext, 3), attr, cluster);
    FieldShown(base, 8, name);
    FieldShown(ext, 3, name);
    JoinUpper(base, ext);
  }

  /** The parts are parts of the name, and what is kept of it is a beginning of it. */
  lemma PartsIn(name: seq<Byte>)
    ensures var (base, ext) := SplitNameExt(name);
            (forall b :: b in base ==> b in name) && (forall b :: b in ext ==> b in name)
    ensures |Kept(name)| <= |name| && Kept(name) == name[..|Kept(name)|]
  {
    if name != [DOT] && name != [DOT, DOT] {
      var base := FirstPart(name);
      if |base| < |name| {
        var rest := name[|base| + 1..];
        var ext := FirstPart(rest);
        assert ext == name[|base| + 1..|base| + 1 + |ext|];
        if ext != [] {
          assert base + [DOT] + ext == name[..|base| + 1 + |ext|];
        }
      }
    }
  }

  /** The dots of the name: none, or one that is not at the end; or the name is that of a directory itself or of
      its parent. */
  predicate DotsFit(name: seq<Byte>) {
    || name == [DOT] || name == [DOT, DOT] || DOT !in name
    || exists i :: 0 <= i < |name| - 1 && OnlyDot(name, i)
  }

  predicate OnlyDot(name: seq<Byte>, i: nat)
    requires i < |name|
  {
    name[i] == DOT && forall j :: 0 <= j < |name| && name[j] == DOT ==> j == i
  }

  /** Nothing of a name is dropped exactly if its dots are where they may be. */
  lemma KeptIff(name: seq<Byte>)
    ensures Kept(name) == name <==> DotsFit(name)
  {
    var base := FirstPart(name);
    var d := |base|;
    if name != [DOT] && name != [DOT, DOT] && d < |name| {
      var rest := name[d + 1..];
      var ext := FirstPart(rest);
      assert name[d] in name && name == base + [DOT] + rest;
      if DOT !in rest {
        NoDotWhole(rest);
        forall j | 0 <= j < |name| && j != d
          ensures name[j] != DOT
        {
          OneDot(base, rest, j);
        }
        assert OnlyDot(name, d);
      } else {
        var k :| 0 <= k < |rest| && rest[k] == DOT;
        assert name[d + 1 + k] == DOT;
        assert |Kept(name)| < |name| by { ShorterPart(rest); }
      }
    } else if name != [DOT] && name != [DOT, DOT] {
      assert name == base;
    }
  }

  lemma OneDot(base: seq<Byte>, rest: seq<Byte>, j: nat)
    requires DOT !in base && DOT !in rest && j < |base| + 1 + |rest| && j != |base|
    ensures (base + [DOT] + rest)[j] != DOT
  {
    if j < |base| {
      assert (base + [DOT] + rest)[j] == base[j];
    } else {
      assert (base + [DOT] + rest)[j] == rest[j - |base| - 1];
    }
  }

  lemma ShorterPart(s: seq<Byte>)
    requires DOT in s
    ensures |FirstPart(s)| < |s|
  {
    assert |FirstPart(s)| == |s| ==> FirstPart(s) == s;
  }

  /** The name is read back in upper case exactly if it has no second dot and no dot at the end. */
  lemma ShortNameReadBackIff(name: seq<Byte>, attr: Byte, cluster: nat)
    requires SPACE !in name && FitsShort(name) && cluster < 0x1_0000_0000
    ensures var (base, ext) := SplitNameExt(name);
            ShownName(ShortEntry(Field(base, 8), Field(ext, 3), attr, cluster)) == UpperAll(name) <==> DotsFit(name)
  {
    hide UpToSpace, UpperAll, Field, SplitNameExt, WithFirstCluster, FirstClusterOf, FileSizeOf, Kept, DotsFit;
    KeptIff(name);
    ShownWhenFormatted(name, attr, cluster);
    PartsIn(name);
    if UpperAll(Kept(name)) == UpperAll(name) {
      assert |Kept(name)| == |UpperAll(Kept(name))| == |name|;
    }
  }

  /** For a valid name that is always so. */
  lemma ShortNameRoundTrip(name: seq<Byte>, attr: Byte, cluster: nat)
    requires Valid83(name) && cluster < 0x1_0000_0000
    ensures var (base, ext) := SplitNameExt(name);
            ShownName(ShortEntry(Field(base, 8), Field(ext, 3), attr, cluster)) == UpperAll(name)
  {
    hide UpToSpace, UpperAll, Field, SplitNameExt, WithFirstCluster, FirstClusterOf, FileSizeOf, ShortEntry, DotsFit;
    KeptIff(name);
    ShortNameReadBackIff(name, attr, cluster);
    if name == SplitNameExt(name).0 {
      NoDotNoExt(name);
    }
  }

  lemma NoDotNoExt(name: seq<Byte>)
    requires name == SplitNameExt(name).0
    ensures SplitNameExt(name).1 == []
  {
  }

  lemma EntryFields(fName: seq<Byte>, fExt: seq<Byte>, attr: Byte, cluster: nat)
    requires |fName| == 8 && |fExt| == 3 && cluster < 0x1_0000_0000
    ensures var e := ShortEntry(fName, fExt, attr, cluster);
            e[..8] == UpperAll(fName) && e[8..11] == UpperAll(fExt) && e[11] == attr && FirstClusterOf(e) == cluster
    ensures FileSizeOf(ShortEntry(fName, fExt, attr, cluster)) == 0
  {
    hide UpperAll, WithFirstCluster, FirstClusterOf, FileSizeOf;
    var raw := RawEntry(UpperAll(fName), UpperAll(fExt), attr);
    FirstClusterStored(raw, cluster);
    RawSize(raw);
    var e := WithFirstCluster(raw, cluster);
    assert forall i :: 0 <= i < 20 ==> e[i] == raw[i];
    assert e[..8] == raw[..8];
    assert e[8..11] == raw[8..11];
  }

  lemma RawSize(e: DirEntry)
    requires forall i :: 28 <= i < 32 ==> e[i] == 0
    ensures FileSizeOf(e) == 0
  {
    FromZeros(4);
    assert e[28..32] == seq(4, _ => 0);
  }

  lemma JoinUpper(base: seq<Byte>, ext: seq<Byte>)
    ensures UpperAll(base + [DOT] + ext) == UpperAll(base) + [DOT] + UpperAll(ext)
    ensures UpperAll([]) == [] && (UpperAll(ext) == [] <==> ext == [])
  {
    UpperAllConcat(base, [DOT] + ext);
    UpperAllConcat([DOT], ext);
    assert base + [DOT] + ext == base + ([DOT] + ext);
    assert UpperAll([DOT]) == [DOT];
  }

  lemma FieldShown(part: seq<Byte>, size: nat, name: seq<Byte>)
    requires |part| <= size && SPACE !in name && forall b :: b in part ==> b in name
    ensures UpToSpace(UpperAll(Field(part, size))) == UpperAll(part)
  {
    var pad: seq<Byte> := seq(size - |part|, _ => SPACE);
    assert part[..|part|] == part;
    assert Field(part, size) == UpperAll(part) + pad;
    UpToSpaceField(part, pad);
  }

  // ---------------------------------------------------------------- short names for long ones

  const TILDE: Byte := 0x7E
  const ONE: Byte := 0x31

  /** The short name that stands in for a long one: up to six characters of the base, `~1`, spaces up to
      eight, and the extension, cut or filled to three. */
  function Alias(name: seq<Byte>): seq<Byte> {
    var (base, ext) := SplitNameExt(name);
    var head := UpperAll(if |base| > 6 then base[..6] else base) + [TILDE, ONE];
    head + seq(8 - |head|, _ => SPACE) + Field(ext, 3)
  }

  /** `generate_short_name`. */
  method GenerateShortName(name: seq<Byte>) returns (short: seq<Byte>)
    ensures short == Alias(name) && |short| == 11
  {
    var parts := SplitNameExt(name);
    var cut := if |parts.0| > 6 then parts.0[..6] else parts.0;
    short := [];
    while |short| < |cut|
      invariant |short| <= |cut|
      invariant forall i :: 0 <= i < |short| ==> short[i] == Upper(cut[i])
    {
      short := short + [Upper(cut[|short|])];
    }
    forall i | 0 <= i < |cut|
      ensures UpperAll(cut)[i] == short[i]
    {
      UpperAllAt(cut, i);
    }
    assert short == UpperAll(cut);
    short := short + [TILDE] + [ONE];
    ghost var head := short;
    assert head == UpperAll(cut) + [TILDE, ONE];
    while |short| < 8
      invariant |head| <= |short| <= 8
      invariant short == head + seq(|short| - |head|, _ => SPACE)
    {
      short := short + [SPACE];
    }
    var ext := FillField(parts.1, 3);
    short := short + ext;
  }

  /** The alias has no dot, so formatting it keeps its first eight characters and drops its extension. */
  lemma AliasFormatted(name: seq<Byte>)
    requires |name| > 2
    ensures SplitNameExt(Alias(name)) == (Alias(name), [])
    ensures Field(Alias(name), 8) == UpperAll(Alias(name)[..8]) && |Alias(name)| == 11
    ensures Alias(name)[0] == TILDE || (name != [] && Alias(name)[0] == Upper(name[0]))
  {
    var (base, ext) := SplitNameExt(name);
    assert |Alias(name)| == 11;
    forall i | 0 <= i < 11
      ensures Alias(name)[i] != DOT
    {
      AliasAt(name, i);
    }
    NoDotWhole(Alias(name));
    AliasAt(name, 0);
    PartsIn(name);
  }

  lemma NoDotWhole(s: seq<Byte>)
    requires DOT !in s
    ensures FirstPart(s) == s
  {
  }

  lemma AliasAt(name: seq<Byte>, i: nat)
    requires |name| > 2 && i < 11 && |Alias(name)| == 11
    ensures Alias(name)[i] != DOT
    ensures i == 0 ==> Alias(name)[0] == TILDE || (name != [] && Alias(name)[0] == Upper(name[0]))
  {
    var (base, ext) := SplitNameExt(name);
    var cut := if |base| > 6 then base[..6] else base;
    if i < |cut| {
      UpperAllAt(cut, i);
      assert Alias(name)[i] == Upper(cut[i]);
      assert cut[i] == base[i] && base[i] in base && base[i] == name[i];
    } else if i >= 8 {
      FieldAt(ext, 3);
      assert Alias(name)[i] == Field(ext, 3)[i - 8];
    }
  }

  // ---------------------------------------------------------------- checksum

  /** One turn of the checksum: rotate right, add, and keep eight bits. */
  function Rotate(sum: Byte): Byte {
    sum % 2 * 128 + sum / 2
  }

  function SumStep(sum: Byte, b: Byte): Byte {
    (Rotate(sum) + b) % 256
  }

  function CheckSum(name: seq<Byte>, sum: Byte): Byte {
    if name == [] then sum else CheckSum(name[1..], SumStep(sum, name[0]))
  }

  /** `gen_check_sum`: over the eight and three bytes of the name. */
  method GenCheckSum(e: DirEntry) returns (sum: Byte)
    ensures sum == CheckSum(e[..11], 0)
  {
    var name := e[..8] + e[8..11];
    assert name == e[..11];
    sum := 0;
    var i := 0;
    while i < 11
      invariant 0 <= i <= 11
      invariant CheckSum(name[i..], sum) == CheckSum(name, 0)
    {
      assert name[i..][1..] == name[i + 1..];
      sum := (sum % 2 * 128 + sum / 2 + name[i]) % 256;
      i := i + 1;
    }
  }

  lemma Halves(s: Byte)
    ensures s == s / 2 * 2 + s % 2 && 0 <= s / 2 < 128 && 0 <= s % 2 < 2
  {
  }

  lemma HighBitTells(p: nat, a: nat, q: nat, b: nat)
    requires p < 2 && q < 2 && a < 128 && b < 128 && p * 128 + a == q * 128 + b
    ensures p == q && a == b
  {
  }

  lemma RotateInjective(s: Byte, t: Byte)
    requires Rotate(s) == Rotate(t)
    ensures s == t
  {
    Halves(s);
    Halves(t);
    HighBitTells(s % 2, s / 2, t % 2, t / 2);
  }

  lemma SameMod(a: Byte, b: Byte, c: Byte)
    requires (a + c) % 256 == (b + c) % 256
    ensures a == b
  {
    assert (a + c) % 256 == if a + c < 256 then a + c else a + c - 256;
    assert (b + c) % 256 == if b + c < 256 then b + c else b + c - 256;
  }

  lemma SumStepInjective(s: Byte, t: Byte, b: Byte, c: Byte)
    requires (s == t && b != c) || (s != t && b == c)
    ensures SumStep(s, b) != SumStep(t, c)
  {
    hide Rotate;
    if SumStep(s, b) == SumStep(t, c) {
      if s == t {
        SameMod(b, c, Rotate(s));
      } else {
        SameMod(Rotate(s), Rotate(t), b);
        RotateInjective(s, t);
      }
    }
  }

  lemma {:induction false} CheckSumInjective(name: seq<Byte>, s: Byte, t: Byte)
    requires s != t
    ensures CheckSum(name, s) != CheckSum(name, t)
  {
    hide SumStep;
    if name != [] {
      SumStepInjective(s, t, name[0], name[0]);
      CheckSumInjective(name[1..], SumStep(s, name[0]), SumStep(t, name[0]));
    }
  }

  /** Names that differ in one byte have different checksums. */
  lemma {:induction false} CheckSumTellsOneByte(name: seq<Byte>, i: nat, b: Byte, sum: Byte)
    requires i < |name| && b != name[i]
    ensures CheckSum(name[i := b], sum) != CheckSum(name, sum)
  {
    hide SumStep;
    var name' := name[i := b];
    if i == 0 {
      assert name'[1..] == name[1..];
      SumStepInjective(sum, sum, b, name[0]);
      CheckSumInjective(name[1..], SumStep(sum, b), SumStep(sum, name[0]));
    } else {
      assert name'[1..] == name[1..][i - 1 := b];
      CheckSumTellsOneByte(name[1..], i - 1, b, SumStep(sum, name[0]));
    }
  }
}
