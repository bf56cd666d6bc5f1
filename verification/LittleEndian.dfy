/** Little-endian integers inside byte sequences, as the RISC-V and FAT32 layouts store them. */
module LittleEndian {

  type Byte = b: int | 0 <= b < 256

  function Pow256(n: nat): (p: nat)
    ensures p >= 1
  {
    if n == 0 then 1 else 256 * Pow256(n - 1)
  }

  function FromBytes(bs: seq<Byte>): nat {
    if bs == [] then 0 else bs[0] + 256 * FromBytes(bs[1..])
  }

  function ToBytes(w: nat, n: nat): (bs: seq<Byte>)
    ensures |bs| == n
  {
    if n == 0 then [] else [w % 256] + ToBytes(w / 256, n - 1)
  }

  lemma {:induction false} FromToBytes(w: nat, n: nat)
    requires w < Pow256(n)
    ensures FromBytes(ToBytes(w, n)) == w
  {
    if n > 0 {
      FromToBytes(w / 256, n - 1);
      assert ToBytes(w, n)[1..] == ToBytes(w / 256, n - 1);
    }
  }

  lemma {:induction false} FromBytesBound(bs: seq<Byte>)
    ensures FromBytes(bs) < Pow256(|bs|)
  {
    if bs != [] {
      FromBytesBound(bs[1..]);
    }
  }

  lemma {:induction false} FromZeros(n: nat)
    ensures FromBytes(seq(n, _ => 0)) == 0
  {
    if n > 0 {
      FromZeros(n - 1);
      assert seq(n, _ => 0)[1..] == seq(n - 1, _ => 0);
    }
  }

  lemma Pow256Values()
    ensures Pow256(2) == 0x1_0000
    ensures Pow256(4) == 0x1_0000_0000
    ensures Pow256(8) == 0x1_0000_0000_0000_0000
  {
    assert Pow256(3) == 0x100_0000;
    assert Pow256(5) == 0x100_0000_0000;
    assert Pow256(6) == 0x1_0000_0000_0000;
    assert Pow256(7) == 0x100_0000_0000_0000;
  }

  /** The `n`-byte integer stored in `page` from byte `off` on. */
  function Get(page: seq<Byte>, off: nat, n: nat): nat
    requires off + n <= |page|
  {
    FromBytes(page[off..off + n])
  }

  function Put(page: seq<Byte>, off: nat, n: nat, w: nat): (r: seq<Byte>)
    requires off + n <= |page|
    ensures |r| == |page|
  {
    page[..off] + ToBytes(w, n) + page[off + n..]
  }

  lemma GetPutSame(page: seq<Byte>, off: nat, n: nat, w: nat)
    requires off + n <= |page|
    requires w < Pow256(n)
    ensures Get(Put(page, off, n, w), off, n) == w
  {
    assert Put(page, off, n, w)[off..off + n] == ToBytes(w, n);
    FromToBytes(w, n);
  }

  lemma GetPutOther(page: seq<Byte>, off: nat, n: nat, w: nat, off': nat, n': nat)
    requires off + n <= |page|
    requires off' + n' <= |page|
    requires off + n <= off' || off' + n' <= off
    ensures Get(Put(page, off, n, w), off', n') == Get(page, off', n')
  {
    assert Put(page, off, n, w)[off'..off' + n'] == page[off'..off' + n'];
  }
}
