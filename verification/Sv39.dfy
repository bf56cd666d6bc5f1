/** Sv39 page tables as they lie in memory (section 4.4 of the RISC-V Privileged Architecture):
    entries, indexes, and the walk through three levels of table frames. */
module Sv39 {
  import opened LittleEndian
  import opened Options

  const PAGE_SIZE: nat := 4096
  const ENTRIES: nat := 512
  /** Number of virtual page numbers an Sv39 table can tell apart. */
  const VPN_LIMIT: nat := 0x800_0000
  const PPN_LIMIT: nat := 0x1000_0000_0000

  type Page = p: seq<Byte> | |p| == 4096 witness seq(4096, _ => 0)
  type Memory = map<nat, Page>

  /** A zeroed frame. */
  function ZeroPage(): Page {
    seq(4096, _ => 0)
  }

  // ---------------------------------------------------------------- entries

  type Flags = bv10
  const V: Flags := 1
  const R: Flags := 2
  const W: Flags := 4
  const X: Flags := 8
  const U: Flags := 16
  const COW: Flags := 256

  datatype Pte = Pte(ppn: nat, flags: Flags) {
    predicate Valid() { flags & V == V }
    predicate Writable() { flags & W == W }
    predicate Readable() { flags & R == R }
    predicate IsCow() { flags & COW == COW }
  }

  function AddFlags(f: Flags, more: Flags): Flags { f | more }

  function ClearFlags(f: Flags, less: Flags): Flags { f & !less }

  function Encode(p: Pte): nat {
    p.ppn * 1024 + p.flags as nat
  }

  function Decode(w: nat): Pte {
    Pte(w / 1024 % PPN_LIMIT, (w % 1024) as bv10)
  }

  lemma DecodeEncode(p: Pte)
    requires p.ppn < PPN_LIMIT
    ensures Decode(Encode(p)) == p
    ensures Encode(p) < 0x1_0000_0000_0000_0000
  {
    var f := p.flags as nat;
    assert (p.ppn * 1024 + f) / 1024 == p.ppn;
    assert (p.ppn * 1024 + f) % 1024 == f;
  }

  /** `set_flags` on the raw word keeps everything above the low ten bits. */
  function SetFlagBits(w: nat, flags: Flags): nat {
    w - w % 1024 + flags as nat
  }

  lemma DecodeSetFlagBits(w: nat, flags: Flags)
    requires w < 0x1_0000_0000_0000_0000
    ensures Decode(SetFlagBits(w, flags)) == Decode(w).(flags := flags)
    ensures SetFlagBits(w, flags) < 0x1_0000_0000_0000_0000
  {
    var f := flags as nat;
    var q := w / 1024;
    assert w - w % 1024 == q * 1024;
    assert (q * 1024 + f) / 1024 == q;
    assert (q * 1024 + f) % 1024 == f;
  }

  function Word(page: Page, i: nat): nat
    requires i < ENTRIES
  {
    Get(page, 8 * i, 8)
  }

  function PutWord(page: Page, i: nat, w: nat): Page
    requires i < ENTRIES
  {
    Put(page, 8 * i, 8, w)
  }

  lemma WordPutWord(page: Page, i: nat, w: nat, j: nat)
    requires i < ENTRIES && j < ENTRIES && w < 0x1_0000_0000_0000_0000
    ensures Word(PutWord(page, i, w), j) == if j == i then w else Word(page, j)
  {
    Pow256Values();
    if j == i {
      GetPutSame(page, 8 * i, 8, w);
    } else {
      GetPutOther(page, 8 * i, 8, w, 8 * j, 8);
    }
  }

  lemma WordBound(page: Page, i: nat)
    requires i < ENTRIES
    ensures Word(page, i) < 0x1_0000_0000_0000_0000
  {
    Pow256Values();
    FromBytesBound(page[8 * i..8 * i + 8]);
  }

  // ---------------------------------------------------------------- tables

  type Table = t: seq<Pte> | |t| == 512 witness seq(512, _ => Pte(0, 0))
  type Tables = map<nat, Table>

  /** A frame read as a page table. */
  function TableOf(page: Page): Table {
    seq(512, i requires 0 <= i < 512 => Decode(Word(page, i)))
  }

  /** The frames `ts` of memory, read as page tables. */
  ghost function TablesOf(mem: Memory, ts: set<nat>): Tables {
    map t | t in ts && t in mem :: TableOf(mem[t])
  }

  lemma TableOfPutWord(page: Page, i: nat, w: nat)
    requires i < ENTRIES && w < 0x1_0000_0000_0000_0000
    ensures TableOf(PutWord(page, i, w)) == TableOf(page)[i := Decode(w)]
  {
    forall j | 0 <= j < 512
      ensures TableOf(PutWord(page, i, w))[j] == TableOf(page)[i := Decode(w)][j]
    {
      WordPutWord(page, i, w, j);
    }
  }

  ghost predicate Blank(t: Table) {
    forall i :: 0 <= i < ENTRIES ==> !t[i].Valid()
  }

  /** A zeroed frame is a table without a valid entry. */
  lemma ZeroTableBlank()
    ensures Blank(TableOf(ZeroPage()))
  {
    forall i | 0 <= i < ENTRIES
      ensures !TableOf(ZeroPage())[i].Valid()
    {
      assert ZeroPage()[8 * i..8 * i + 8] == seq(8, _ => 0);
      FromZeros(8);
      assert Decode(0) == Pte(0, 0);
    }
  }

  // ---------------------------------------------------------------- indexes

  /** The three nine-bit indexes of a virtual page number, from the root level down. */
  function Indexes(vpn: nat): (idx: seq<nat>)
    ensures |idx| == 3 && forall i :: 0 <= i < 3 ==> idx[i] < ENTRIES
  {
    [vpn / 0x4_0000 % 512, vpn / 512 % 512, vpn % 512]
  }

  lemma FromIndexes(v: nat)
    requires v < VPN_LIMIT
    ensures v == Indexes(v)[0] * 0x4_0000 + Indexes(v)[1] * 512 + Indexes(v)[2]
  {
    assert v / 512 / 512 == v / 0x4_0000;
  }

  lemma IndexesInjective(v: nat, w: nat)
    requires v < VPN_LIMIT && w < VPN_LIMIT
    requires Indexes(v) == Indexes(w)
    ensures v == w
  {
    assert Indexes(v)[0] == Indexes(w)[0];
    assert Indexes(v)[1] == Indexes(w)[1];
    assert Indexes(v)[2] == Indexes(w)[2];
    FromIndexes(v);
    FromIndexes(w);
  }

  /** `indexes` takes the low nine bits and shifts, filling the array from its end. */
  method ComputeIndexes(vpn: nat) returns (idx: seq<nat>)
    ensures idx == Indexes(vpn)
  {
    var v := vpn;
    idx := [];
    var i := 3;
    while i > 0
      invariant 0 <= i <= 3
      invariant v == [vpn / 0x800_0000, vpn / 0x4_0000, vpn / 512, vpn][i]
      invariant idx == Indexes(vpn)[i..]
    {
      i := i - 1;
      idx := [v % 512] + idx;
      v := v / 512;
    }
  }

  // ---------------------------------------------------------------- walk

  /** The second-level table on the way to `vpn`. */
  ghost function MidTable(tm: Tables, root: nat, vpn: nat): Option<nat> {
    if root in tm && tm[root][Indexes(vpn)[0]].Valid()
    then Some(tm[root][Indexes(vpn)[0]].ppn) else None
  }

  /** The third-level table that holds the entry of `vpn`. */
  ghost function LeafTable(tm: Tables, root: nat, vpn: nat): Option<nat> {
    match MidTable(tm, root, vpn)
    case None => None
    case Some(t) =>
      if t in tm && tm[t][Indexes(vpn)[1]].Valid()
      then Some(tm[t][Indexes(vpn)[1]].ppn) else None
  }

  ghost function Walk(tm: Tables, root: nat, vpn: nat): Option<Pte> {
    match LeafTable(tm, root, vpn)
    case None => None
    case Some(t) =>
      if t in tm && tm[t][Indexes(vpn)[2]].Valid()
      then Some(tm[t][Indexes(vpn)[2]]) else None
  }

  /** What the radix tree under `root` means: the finite map from page numbers to valid entries. */
  ghost function Meaning(tm: Tables, root: nat): map<nat, Pte> {
    map v: nat | v < VPN_LIMIT && Walk(tm, root, v).Some? :: Walk(tm, root, v).value
  }

  // ---------------------------------------------------------------- trees

  /** The place of a table frame in the tree. */
  datatype Slot = Root | Mid(i: nat) | Leaf(i: nat, j: nat)

  function Child(s: Slot, i: nat): Slot
    requires !s.Leaf?
  {
    if s.Root? then Mid(i) else Leaf(s.i, i)
  }

  ghost predicate Linked(tm: Tables, slots: map<nat, Slot>, t: nat)
    requires t in slots && t in tm && !slots[t].Leaf?
  {
    forall i :: 0 <= i < ENTRIES && tm[t][i].Valid() ==>
      tm[t][i].ppn in slots && slots[tm[t][i].ppn] == Child(slots[t], i)
  }

  /** Every inner entry leads to a table frame that belongs in just that place: tables are never shared. */
  ghost predicate Tree(tm: Tables, root: nat, slots: map<nat, Slot>) {
    && root in slots && slots[root] == Root
    && tm.Keys == slots.Keys
    && (forall t :: t in slots && !slots[t].Leaf? ==> Linked(tm, slots, t))
  }

  lemma WalkSlots(tm: Tables, root: nat, slots: map<nat, Slot>, vpn: nat)
    requires Tree(tm, root, slots)
    ensures var m := MidTable(tm, root, vpn);
            m.Some? ==> m.value in slots && slots[m.value] == Mid(Indexes(vpn)[0])
    ensures var l := LeafTable(tm, root, vpn);
            l.Some? ==> l.value in slots && slots[l.value] == Leaf(Indexes(vpn)[0], Indexes(vpn)[1])
  {
    assert Linked(tm, slots, root);
    var m := MidTable(tm, root, vpn);
    if m.Some? {
      assert Linked(tm, slots, m.value);
    }
  }

  /** A single blank table is the empty tree. */
  lemma EmptyTree(tm: Tables, root: nat)
    requires tm.Keys == {root} && Blank(tm[root])
    ensures Tree(tm, root, map[root := Root])
    ensures Meaning(tm, root) == map[]
  {
  }

  /** Hanging a blank, unused table under an invalid inner entry keeps the tree and every binding. */
  lemma AddTable(tm: Tables, root: nat, slots: map<nat, Slot>, t: nat, i: nat, f: nat, blank: Table, tm': Tables)
    requires Tree(tm, root, slots)
    requires t in slots && !slots[t].Leaf? && i < ENTRIES
    requires !tm[t][i].Valid()
    requires f !in slots && Blank(blank)
    requires tm' == tm[f := blank][t := tm[t][i := Pte(f, V)]]
    ensures Tree(tm', root, slots[f := Child(slots[t], i)])
    ensures Meaning(tm', root) == Meaning(tm, root)
  {
    var slots' := slots[f := Child(slots[t], i)];
    forall u | u in slots' && !slots'[u].Leaf?
      ensures Linked(tm', slots', u)
    {
      if u in slots {
        assert Linked(tm, slots, u);
      }
    }
    forall vpn: nat
      ensures Walk(tm', root, vpn) == Walk(tm, root, vpn)
    {
      WalkSlots(tm, root, slots, vpn);
    }
  }

  /** Writing the leaf entry of `vpn` leaves every other walk as it was. */
  lemma PutLeafWalk(tm: Tables, root: nat, slots: map<nat, Slot>, vpn: nat, t: nat, e: Pte, v: nat)
    requires Tree(tm, root, slots)
    requires vpn < VPN_LIMIT
    requires LeafTable(tm, root, vpn) == Some(t) && t in tm
    ensures var tm' := tm[t := tm[t][Indexes(vpn)[2] := e]];
            && LeafTable(tm', root, v) == LeafTable(tm, root, v)
            && (v < VPN_LIMIT && v != vpn ==> Walk(tm', root, v) == Walk(tm, root, v))
  {
    WalkSlots(tm, root, slots, vpn);
    WalkSlots(tm, root, slots, v);
    var l := LeafTable(tm, root, v);
    if v < VPN_LIMIT && v != vpn && l == Some(t) && Indexes(v)[2] == Indexes(vpn)[2] {
      assert Indexes(v) == Indexes(vpn);
      IndexesInjective(v, vpn);
    }
  }

  lemma PutLeafTree(tm: Tables, root: nat, slots: map<nat, Slot>, t: nat, i: nat, e: Pte)
    requires Tree(tm, root, slots)
    requires t in slots && slots[t].Leaf? && i < ENTRIES
    ensures Tree(tm[t := tm[t][i := e]], root, slots)
  {
    var tm' := tm[t := tm[t][i := e]];
    forall u | u in slots && !slots[u].Leaf?
      ensures Linked(tm', slots, u)
    {
      assert Linked(tm, slots, u);
    }
  }

  lemma MeaningUpdate(tm: Tables, tm': Tables, root: nat, vpn: nat, e: Pte)
    requires vpn < VPN_LIMIT
    requires forall v :: 0 <= v < VPN_LIMIT && v != vpn ==> Walk(tm', root, v) == Walk(tm, root, v)
    requires Walk(tm', root, vpn) == if e.Valid() then Some(e) else None
    ensures Meaning(tm', root) ==
            if e.Valid() then Meaning(tm, root)[vpn := e] else Meaning(tm, root) - {vpn}
  {
  }

  /** Writing the leaf entry of `vpn` changes the binding of `vpn` and no other. */
  lemma PutLeaf(tm: Tables, root: nat, slots: map<nat, Slot>, vpn: nat, t: nat, e: Pte)
    requires Tree(tm, root, slots)
    requires vpn < VPN_LIMIT
    requires LeafTable(tm, root, vpn) == Some(t) && t in tm
    ensures var tm' := tm[t := tm[t][Indexes(vpn)[2] := e]];
            && Tree(tm', root, slots)
            && LeafTable(tm', root, vpn) == Some(t)
            && Meaning(tm', root) ==
               if e.Valid() then Meaning(tm, root)[vpn := e] else Meaning(tm, root) - {vpn}
  {
    var tm' := tm[t := tm[t][Indexes(vpn)[2] := e]];
    WalkSlots(tm, root, slots, vpn);
    PutLeafTree(tm, root, slots, t, Indexes(vpn)[2], e);
    forall v | 0 <= v < VPN_LIMIT && v != vpn
      ensures Walk(tm', root, v) == Walk(tm, root, v)
    {
      PutLeafWalk(tm, root, slots, vpn, t, e, v);
    }
    PutLeafWalk(tm, root, slots, vpn, t, e, vpn);
    MeaningUpdate(tm, tm', root, vpn, e);
  }
}
