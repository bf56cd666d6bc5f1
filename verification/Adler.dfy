/** The Adler-32 checksum of lzop (testsuits/busybox/archival/lzop.c), defined in section 2.2 of RFC 1950.

    The program adds in 32-bit words and takes remainders once per 5552 bytes; the definition takes them
    after every byte. */
module Adler {
  import opened LittleEndian
  import opened Options

  const BASE: nat := 65521
  const NMAX: nat := 5552
  const WORD: nat := 0x1_0000_0000

  /** The two sums. */
  datatype Sums = Sums(s1: nat, s2: nat)

  /** One byte, by the definition. */
  function Add(s: Sums, b: Byte): Sums {
    var s1 := (s.s1 + b) % BASE;
    Sums(s1, (s.s2 + s1) % BASE)
  }

  function AddAll(s: Sums, buf: seq<Byte>): Sums
    decreases |buf|
  {
    if buf == [] then s else Add(AddAll(s, buf[..|buf| - 1]), buf[|buf| - 1])
  }

  function Low(adler: nat): (r: nat)
    ensures r < 0x1_0000
  {
    adler % 0x1_0000
  }

  function High(adler: nat): (r: nat)
    ensures r < 0x1_0000
  {
    adler / 0x1_0000 % 0x1_0000
  }

  function Unpack(adler: nat): Sums {
    Sums(Low(adler), High(adler))
  }

  function Pack(s: Sums): nat {
    s.s2 * 0x1_0000 + s.s1
  }

  /** The checksum of `buf` continued from `adler`; without a buffer it is 1. */
  function Checksum(adler: nat, buf: Option<seq<Byte>>): nat {
    match buf
    case None => 1
    case Some(bytes) => Pack(AddAll(Unpack(adler), bytes))
  }

  lemma {:induction false} AddAllBounds(s: Sums, buf: seq<Byte>)
    requires s.s1 < 0x1_0000 && s.s2 < 0x1_0000
    ensures AddAll(s, buf).s1 < 0x1_0000 && AddAll(s, buf).s2 < 0x1_0000
  {
    if buf != [] {
      AddAllBounds(s, buf[..|buf| - 1]);
    }
  }

  lemma {:induction false} AddAllConcat(s: Sums, a: seq<Byte>, b: seq<Byte>)
    ensures AddAll(s, a + b) == AddAll(AddAll(s, a), b)
    decreases |b|
  {
    if b == [] {
      assert a + b == a;
    } else {
      AddAllConcat(s, a, b[..|b| - 1]);
      assert (a + b)[..|a + b| - 1] == a + b[..|b| - 1];
    }
  }

  /** Checksumming `a` and then `b` from where that left off is checksumming both at once. */
  lemma ChecksumComposes(adler: nat, a: seq<Byte>, b: seq<Byte>)
    ensures Checksum(Checksum(adler, Some(a)), Some(b)) == Checksum(adler, Some(a + b))
  {
    hide AddAll;
    var s := AddAll(Unpack(adler), a);
    AddAllBounds(Unpack(adler), a);
    AddAllConcat(Unpack(adler), a, b);
    assert Unpack(Pack(s)) == s;
  }

  // ---------------------------------------------------------------- sums without remainders

  /** The sums after `n` bytes without a remainder are at most these. */
  ghost predicate Within(s: Sums, n: nat) {
    s.s1 <= 0xFFFF + 255 * n && 2 * s.s2 <= 2 * 0xFFFF * (n + 1) + 255 * n * (n + 1)
  }

  lemma WithinNext(s: Sums, n: nat, b: Byte)
    requires Within(s, n)
    ensures Within(Sums(s.s1 + b, s.s2 + (s.s1 + b)), n + 1)
  {
    assert 255 * (n + 1) * (n + 2) == 255 * n * (n + 1) + 2 * 255 * (n + 1);
    assert 2 * 0xFFFF * (n + 2) == 2 * 0xFFFF * (n + 1) + 2 * 0xFFFF;
  }

  /** Over a chunk nothing overflows a word, from whatever sums of 16 bits it starts. */
  lemma ChunkFits(s: Sums, n: nat)
    requires Within(s, n) && n <= NMAX
    ensures s.s1 < WORD && s.s2 < WORD
  {
    assert 255 * n * (n + 1) <= 255 * NMAX * (NMAX + 1) by {
      MulUp(n, NMAX, n + 1, NMAX + 1);
    }
  }

  lemma MulUp(a: nat, b: nat, c: nat, d: nat)
    requires a <= b && c <= d
    ensures 255 * a * c <= 255 * b * d
  {
    assert a * c <= b * c <= b * d;
  }

  /** The sums of `n` bytes of value 255, without a remainder. */
  ghost function Worst(s: Sums, n: nat): Sums
    decreases n
  {
    if n == 0 then s else var t := Worst(s, n - 1); Sums(t.s1 + 255, t.s2 + (t.s1 + 255))
  }

  lemma {:induction false} WorstSums(s: Sums, n: nat)
    ensures Worst(s, n).s1 == s.s1 + 255 * n
    ensures 2 * Worst(s, n).s2 == 2 * s.s2 + 2 * s.s1 * n + 255 * n * (n + 1)
  {
    if n > 0 {
      WorstSums(s, n - 1);
      assert 255 * n * (n + 1) == 255 * (n - 1) * n + 2 * 255 * n;
      assert 2 * s.s1 * n == 2 * s.s1 * (n - 1) + 2 * s.s1;
    }
  }

  /** One more byte than the chunk size can overflow, even from reduced sums. */
  lemma ChunkIsTight()
    ensures Worst(Sums(BASE - 1, BASE - 1), NMAX + 1).s2 >= WORD
  {
    WorstSums(Sums(BASE - 1, BASE - 1), NMAX + 1);
  }

  /** The sums have the remainders of the defined ones. */
  ghost predicate Congruent(s: Sums, t: Sums) {
    s.s1 % BASE == t.s1 % BASE && s.s2 % BASE == t.s2 % BASE
  }

  lemma ModAdd(a: nat, b: nat, c: nat)
    requires a % BASE == b % BASE
    ensures (a + c) % BASE == (b + c) % BASE
    ensures (b + c) % BASE % BASE == (b + c) % BASE
  {
    var k := if a >= b then (a - b) / BASE else (b - a) / BASE;
    if a >= b {
      assert a == b + k * BASE;
      ModShift(b + c, k);
    } else {
      assert b == a + k * BASE;
      ModShift(a + c, k);
    }
  }

  lemma ModShift(x: nat, k: nat)
    ensures (x + k * BASE) % BASE == x % BASE
  {
  }

  lemma CongruentNext(s: Sums, t: Sums, b: Byte)
    requires Congruent(s, t)
    ensures Congruent(Sums(s.s1 + b, s.s2 + (s.s1 + b)), Add(t, b))
  {
    ModAdd(s.s1, t.s1, b);
    var t1 := (t.s1 + b) % BASE;
    ModAdd(s.s2, t.s2, s.s1 + b);
    ModAdd(s.s1 + b, t1, t.s2);
  }

  /** What a 32-bit word keeps of `x`. */
  function Word(x: nat): (w: nat)
    ensures x < WORD ==> w == x
  {
    x % WORD
  }

  function Rem(x: nat): (r: nat)
    ensures r < BASE
  {
    x % BASE
  }

  /** `lzo_adler32`, in 32-bit words. */
  method LzoAdler32(adler: nat, buf: Option<seq<Byte>>) returns (r: nat)
    requires adler < WORD
    ensures r == Checksum(adler, buf) < WORD
  {
    hide AddAll, Within, Add, Congruent, Word, Rem, Low, High;
    var s1: nat, s2: nat := Low(adler), High(adler);
    if buf == None {
      return 1;
    }
    var bytes := buf.value;
    var pos: nat, len: nat := 0, |bytes|;
    ghost var start := Unpack(adler);
    NoBytes(start);
    assert bytes[..0] == [];
    while len > 0
      invariant 0 <= len && pos + len == |bytes|
      invariant Sums(s1, s2) == AddAll(start, bytes[..pos]) && s1 < 0x1_0000 && s2 < 0x1_0000
    {
      var k := if len < NMAX then len else NMAX;
      len := len - k;
      ghost var n := 0;
      CongruentSelf(Sums(s1, s2));
      assert Within(Sums(s1, s2), 0) by { WithinStart(Sums(s1, s2)); }
      ghost var from := pos;
      while k > 0
        invariant 0 <= k && n + k <= NMAX && pos == from + n && pos + k + len == |bytes|
        invariant Within(Sums(s1, s2), n) && s1 < WORD && s2 < WORD
        invariant Congruent(Sums(s1, s2), AddAll(start, bytes[..pos]))
        invariant n + k > 0
      {
        WithinNext(Sums(s1, s2), n, bytes[pos]);
        ChunkFits(Sums(s1 + bytes[pos], s2 + (s1 + bytes[pos])), n + 1);
        CongruentNext(Sums(s1, s2), AddAll(start, bytes[..pos]), bytes[pos]);
        OneMore(start, bytes, pos);
        s1 := Word(s1 + bytes[pos]);
        s2 := Word(s2 + s1);
        pos := pos + 1;
        n := n + 1;
        k := k - 1;
      }
      Reduced(start, bytes, pos, Sums(s1, s2));
      s1 := Rem(s1);
      s2 := Rem(s2);
    }
    assert bytes[..pos] == bytes;
    r := s2 * 0x1_0000 + s1;
  }

  lemma NoBytes(s: Sums)
    ensures AddAll(s, []) == s
  {
  }

  lemma WithinStart(s: Sums)
    requires s.s1 < 0x1_0000 && s.s2 < 0x1_0000
    ensures Within(s, 0)
  {
  }

  lemma OneMore(s: Sums, bytes: seq<Byte>, pos: nat)
    requires pos < |bytes|
    ensures AddAll(s, bytes[..pos + 1]) == Add(AddAll(s, bytes[..pos]), bytes[pos])
  {
    assert bytes[..pos + 1][..pos] == bytes[..pos];
  }

  /** After at least one byte the defined sums are remainders already. */
  lemma Reduced(s: Sums, bytes: seq<Byte>, pos: nat, t: Sums)
    requires 0 < pos <= |bytes| && Congruent(t, AddAll(s, bytes[..pos]))
    ensures Sums(Rem(t.s1), Rem(t.s2)) == AddAll(s, bytes[..pos])
  {
    hide AddAll;
    OneMore(s, bytes, pos - 1);
  }

  lemma CongruentSelf(s: Sums)
    ensures Congruent(s, s)
  {
  }
}
