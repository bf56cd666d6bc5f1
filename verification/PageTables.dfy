/** The page table of one address space, stored in physical frames (kernel/src/mm/page_table.rs).

    `Bindings(ram)` is what the in-memory radix tree means; every method states its effect on that finite
    map, the frames it took, and that no byte outside the table frames has changed. */
module PageTables {
  import opened Options
  import opened LittleEndian
  import opened FrameAllocator
  import opened Sequences
  import opened Sv39
  import opened PhysicalMemory

  /** The binding of `vpn` after its entry became `e`. */
  ghost function Bind(m: map<nat, Pte>, vpn: nat, e: Pte): map<nat, Pte> {
    if e.Valid() then m[vpn := e] else m - {vpn}
  }

  lemma FlagsStayValid(e: Pte)
    ensures e.(flags := AddFlags(e.flags, COW)).Valid() == e.Valid()
    ensures e.(flags := ClearFlags(e.flags, COW)).Valid() == e.Valid()
    ensures e.(flags := AddFlags(e.flags, W)).Valid() == e.Valid()
    ensures e.(flags := ClearFlags(e.flags, W)).Valid() == e.Valid()
    ensures forall f :: Pte(f, AddFlags(e.flags, W)).Valid() == e.Valid()
  {
  }

  /** From one state to the next the table frames grew from `ts` to `ts'` by frames nobody held, each
      with one tracker; no other count changed and no byte outside the table frames. */
  ghost predicate Grew(refs: map<nat, nat>, mem: Memory, ts: set<nat>, refs': map<nat, nat>, mem': Memory, ts': set<nat>) {
    && ts <= ts'
    && (forall t :: t in ts' && t !in ts ==> t !in refs && t in mem)
    && (forall f :: f in refs' <==> f in refs || (f in ts' && f !in ts))
    && (forall f :: f in refs' ==> refs'[f] == if f in refs then refs[f] else 1)
    && mem'.Keys == mem.Keys
    && (forall f :: f in mem && f !in ts' ==> mem'[f] == mem[f])
  }

  /** After the tables grew and were written to, a frame gets the bytes of another. */
  lemma GrewThenCopied(refs: map<nat, nat>, mem: Memory, ts: set<nat>, refs': map<nat, nat>, mem1: Memory, ts': set<nat>,
                       mem2: Memory, to: nat, from: nat)
    requires Grew(refs, mem, ts, refs', mem1, ts')
    requires mem2.Keys == mem1.Keys && forall f :: f in mem2 && f !in ts' ==> mem2[f] == mem1[f]
    requires to in mem && to in refs && to !in ts && from in mem && from in refs && from !in ts
    ensures to in mem2 && from in mem2 && to !in ts' && from !in ts'
    ensures Grew(refs, mem[to := mem[from]], ts, refs', mem2[to := mem2[from]], ts')
  {
  }

  lemma GrewReflexive(refs: map<nat, nat>, mem: Memory, ts: set<nat>)
    ensures Grew(refs, mem, ts, refs, mem, ts)
  {
  }

  lemma GrewTransitive(refs: map<nat, nat>, mem: Memory, ts: set<nat>,
                       refs': map<nat, nat>, mem': Memory, ts': set<nat>,
                       refs'': map<nat, nat>, mem'': Memory, ts'': set<nat>)
    requires Grew(refs, mem, ts, refs', mem', ts')
    requires Grew(refs', mem', ts', refs'', mem'', ts'')
    ensures Grew(refs, mem, ts, refs'', mem'', ts'')
  {
  }

  lemma AddTableWalk(tm: Tables, root: nat, slots: map<nat, Slot>, vpn: nat, i: nat, t: nat, f: nat, blank: Table)
    requires Tree(tm, root, slots)
    requires i < 2 && WalkDown(tm, root, slots, vpn, i, t)
    requires f !in slots
    ensures !slots[t].Leaf?
    ensures var tm' := tm[f := blank][t := tm[t][Indexes(vpn)[i] := Pte(f, V)]];
            WalkDown(tm', root, slots[f := Child(slots[t], Indexes(vpn)[i])], vpn, i + 1, f)
  {
    hide Indexes;
    WalkSlots(tm, root, slots, vpn);
  }

  /** Taking the free frame `f`, zeroing it and hanging it under the invalid inner entry `i` of table `t`. */
  lemma TakeTable(refs: map<nat, nat>, mem: Memory, root: nat, slots: map<nat, Slot>,
                  t: nat, vpn: nat, level: nat, f: nat, zeroed: Memory, mem': Memory)
    requires slots.Keys <= mem.Keys && slots.Keys <= refs.Keys
    requires Tree(TablesOf(mem, slots.Keys), root, slots)
    requires level < 2 && WalkDown(TablesOf(mem, slots.Keys), root, slots, vpn, level, t)
    requires !TablesOf(mem, slots.Keys)[t][Indexes(vpn)[level]].Valid()
    requires f in mem && f !in refs && f < PPN_LIMIT
    requires zeroed == mem[f := ZeroPage()]
    requires mem' == zeroed[t := PutWord(zeroed[t], Indexes(vpn)[level], Encode(Pte(f, V)))]
    ensures !slots[t].Leaf?
    ensures var slots' := slots[f := Child(slots[t], Indexes(vpn)[level])];
            && slots'.Keys == slots.Keys + {f}
            && Tree(TablesOf(mem', slots'.Keys), root, slots')
            && WalkDown(TablesOf(mem', slots'.Keys), root, slots', vpn, level + 1, f)
            && Meaning(TablesOf(mem', slots'.Keys), root) == Meaning(TablesOf(mem, slots.Keys), root)
            && Grew(refs, mem, slots.Keys, refs[f := 1], mem', slots'.Keys)
  {
    hide Decode, Encode, TableOf, Meaning, Put, Tree, Blank, Indexes, MidTable, LeafTable;
    var i := Indexes(vpn)[level];
    var tm := TablesOf(mem, slots.Keys);
    AddTableWalk(tm, root, slots, vpn, level, t, f, TableOf(ZeroPage()));
    var slots' := slots[f := Child(slots[t], i)];
    DecodeEncode(Pte(f, V));
    ZeroTableBlank();
    TableOfPutWord(mem[t], i, Encode(Pte(f, V)));
    assert tm.Keys == slots.Keys;
    assert TablesOf(mem', slots'.Keys) == tm[f := TableOf(ZeroPage())][t := tm[t][i := Pte(f, V)]];
    AddTable(tm, root, slots, t, i, f, TableOf(ZeroPage()), TablesOf(mem', slots'.Keys));
  }

  /** After `i` steps down from the root, the walk to `vpn` stands at table `t`. */
  ghost predicate WalkDown(tm: Tables, root: nat, slots: map<nat, Slot>, vpn: nat, i: nat, t: nat) {
    && t in slots && t in tm
    && (i == 0 ==> t == root && slots[t] == Root)
    && (i == 1 ==> MidTable(tm, root, vpn) == Some(t) && slots[t].Mid?)
    && (i == 2 ==> LeafTable(tm, root, vpn) == Some(t))
  }

  lemma WalkDownRoot(tm: Tables, root: nat, slots: map<nat, Slot>, vpn: nat)
    requires Tree(tm, root, slots)
    ensures WalkDown(tm, root, slots, vpn, 0, root)
  {
  }

  lemma WalkDownStep(tm: Tables, root: nat, slots: map<nat, Slot>, vpn: nat, i: nat, t: nat)
    requires Tree(tm, root, slots)
    requires i < 2 && WalkDown(tm, root, slots, vpn, i, t)
    ensures t in slots && t in tm && !slots[t].Leaf?
    ensures var e := tm[t][Indexes(vpn)[i]];
            && (e.Valid() ==> WalkDown(tm, root, slots, vpn, i + 1, e.ppn))
            && (vpn in Meaning(tm, root) ==> e.Valid())
  {
    WalkSlots(tm, root, slots, vpn);
    if vpn in Meaning(tm, root) {
      assert Walk(tm, root, vpn).Some?;
    }
  }

  lemma WalkDownBlocked(tm: Tables, root: nat, slots: map<nat, Slot>, vpn: nat, i: nat, t: nat)
    requires i < 3 && WalkDown(tm, root, slots, vpn, i, t)
    requires !tm[t][Indexes(vpn)[i]].Valid()
    ensures vpn !in Meaning(tm, root)
  {
    assert Walk(tm, root, vpn) == None;
  }

  lemma LeafMeaning(tm: Tables, root: nat, slots: map<nat, Slot>, vpn: nat, t: nat)
    requires Tree(tm, root, slots) && vpn < VPN_LIMIT
    requires LeafTable(tm, root, vpn) == Some(t)
    ensures t in tm
    ensures tm[t][Indexes(vpn)[2]].Valid() <==> vpn in Meaning(tm, root)
    ensures vpn in Meaning(tm, root) ==> Meaning(tm, root)[vpn] == tm[t][Indexes(vpn)[2]]
  {
    WalkSlots(tm, root, slots, vpn);
    assert Walk(tm, root, vpn) == if tm[t][Indexes(vpn)[2]].Valid() then Some(tm[t][Indexes(vpn)[2]]) else None;
  }

  /** The entries of the table frames decide the bindings; other frames do not matter. */
  lemma BindingsFrame(mem: Memory, mem': Memory, ts: set<nat>)
    requires ts <= mem.Keys && ts <= mem'.Keys
    requires forall t :: t in ts ==> mem'[t] == mem[t]
    ensures TablesOf(mem', ts) == TablesOf(mem, ts)
  {
    hide TableOf;
  }

  lemma MeaningBound(tm: Tables, root: nat)
    ensures forall v :: v in Meaning(tm, root) ==> v < VPN_LIMIT && Meaning(tm, root)[v].Valid()
  {
  }

  lemma InTables(mem: Memory, ts: set<nat>, t: nat)
    ensures t in TablesOf(mem, ts) <==> t in ts && t in mem
  {
  }

  class PageTable {
    var rootPpn: nat
    /** The trackers of the table frames. */
    var frames: seq<nat>
    /** The place of each table frame in the tree. */
    ghost var slots: map<nat, Slot>

    ghost function Tabs(ram: Ram): Tables
      reads this, ram
    {
      TablesOf(ram.mem, slots.Keys)
    }

    ghost predicate Valid(ram: Ram)
      reads this, ram, ram.allocator
    {
      && ram.Valid()
      && (forall t :: t in slots ==> t in ram.mem && t in ram.Refs())
      && Tree(Tabs(ram), rootPpn, slots)
      && NoDuplicates(frames)
      && (forall t :: t in frames <==> t in slots)
    }

    /** The finite map from page numbers to entries that the tree in memory stands for. */
    ghost function Bindings(ram: Ram): map<nat, Pte>
      reads this, ram
    {
      Meaning(Tabs(ram), rootPpn)
    }

    lemma BindingsBound(ram: Ram)
      ensures forall v :: v in Bindings(ram) ==> v < VPN_LIMIT && Bindings(ram)[v].Valid()
    {
      hide TablesOf, Walk, Pte.Valid;
      MeaningBound(Tabs(ram), rootPpn);
    }

    constructor (ram: Ram, frame: nat)
      requires ram.Valid() && frame in ram.mem && frame in ram.Refs() && ram.mem[frame] == ZeroPage()
      ensures Valid(ram) && slots.Keys == {frame} && Bindings(ram) == map[]
    {
      rootPpn := frame;
      frames := [frame];
      slots := map[frame := Root];
      new;
      ZeroTableBlank();
      EmptyTree(Tabs(ram), frame);
    }

    /** Writes the word at index `i` of table `t`, one of ours. */
    method WriteEntry(ram: Ram, t: nat, i: nat, w: nat)
      requires ram.Valid() && t in slots && t in ram.mem && i < ENTRIES && w < 0x1_0000_0000_0000_0000
      modifies ram
      ensures ram.Valid()
      ensures ram.mem.Keys == old(ram.mem.Keys)
      ensures forall f :: f in ram.mem && f != t ==> ram.mem[f] == old(ram.mem[f])
      ensures Tabs(ram) == old(Tabs(ram))[t := old(Tabs(ram))[t][i := Decode(w)]]
    {
      TableOfPutWord(ram.mem[t], i, w);
      ram.WritePage(t, PutWord(ram.mem[t], i, w));
    }

    method ReadEntry(ram: Ram, t: nat, i: nat) returns (w: nat)
      requires ram.Valid() && t in slots && t in ram.mem && i < ENTRIES
      ensures w < 0x1_0000_0000_0000_0000
      ensures Decode(w) == Tabs(ram)[t][i]
    {
      WordBound(ram.mem[t], i);
      w := Word(ram.mem[t], i);
    }

    /** One level down towards `vpn`, hanging a zeroed frame where the entry is invalid. */
    method StepDown(ram: Ram, vpn: nat, level: nat, idx: nat, t: nat) returns (o: Outcome, next: nat)
      requires Valid(ram) && level < 2 && idx == Indexes(vpn)[level]
      requires WalkDown(Tabs(ram), rootPpn, slots, vpn, level, t)
      modifies this, ram.Repr
      ensures ram.Valid()
      ensures o.Panicked? ==> ram.Exhausted()
      ensures o.Running? ==>
                && Valid(ram) && rootPpn == old(rootPpn)
                && WalkDown(Tabs(ram), rootPpn, slots, vpn, level + 1, next)
                && Bindings(ram) == old(Bindings(ram))
                && Grew(old(ram.Refs()), old(ram.mem), old(slots.Keys), ram.Refs(), ram.mem, slots.Keys)
      ensures vpn in old(Bindings(ram)) ==>
                o.Running? && ram.Refs() == old(ram.Refs()) && ram.mem == old(ram.mem) && slots == old(slots)
    {
      hide Decode, Encode, TableOf, TablesOf, Meaning, Put, PutWord, Tree, Partition, Pte.Valid, Grew, MidTable, LeafTable, Indexes;
      WalkDownStep(Tabs(ram), rootPpn, slots, vpn, level, t);
      GrewReflexive(ram.Refs(), ram.mem, slots.Keys);
      var w := ReadEntry(ram, t, idx);
      if Decode(w).Valid() {
        return Running, Decode(w).ppn;
      }
      var got := ram.AllocFrame();
      if got == None {
        return Panicked, 0;
      }
      var f := got.value;
      ghost var zeroed := ram.mem;
      ram.WritePage(t, PutWord(ram.mem[t], idx, Encode(Pte(f, V))));
      frames := frames + [f];
      slots := slots[f := Child(slots[t], idx)];
      TakeTable(old(ram.Refs()), old(ram.mem), rootPpn, old(slots), t, vpn, level, f, zeroed, ram.mem);
      return Running, f;
    }

    /** The frame that holds the leaf entry of `vpn`, building the missing inner tables. */
    method FindPteCreate(ram: Ram, vpn: nat) returns (o: Outcome, t: nat)
      requires Valid(ram) && vpn < VPN_LIMIT
      modifies this, ram.Repr
      ensures ram.Valid()
      ensures o.Panicked? ==> ram.Exhausted()
      ensures o.Running? ==> Valid(ram) && LeafTable(Tabs(ram), rootPpn, vpn) == Some(t)
      ensures o.Running? ==> Bindings(ram) == old(Bindings(ram))
      ensures o.Running? ==> Grew(old(ram.Refs()), old(ram.mem), old(slots.Keys), ram.Refs(), ram.mem, slots.Keys)
      ensures vpn in old(Bindings(ram)) ==>
                o.Running? && ram.Refs() == old(ram.Refs()) && ram.mem == old(ram.mem) && slots == old(slots)
    {
      hide TablesOf, Meaning, Tree, Partition, Grew, LeafTable, MidTable, Indexes;
      var idxs := ComputeIndexes(vpn);
      var ppn := rootPpn;
      var i := 0;
      GrewReflexive(ram.Refs(), ram.mem, slots.Keys);
      WalkDownRoot(Tabs(ram), rootPpn, slots, vpn);
      while i < 2
        invariant 0 <= i <= 2
        invariant Valid(ram) && rootPpn == old(rootPpn)
        invariant WalkDown(Tabs(ram), rootPpn, slots, vpn, i, ppn)
        invariant Bindings(ram) == old(Bindings(ram))
        invariant Grew(old(ram.Refs()), old(ram.mem), old(slots.Keys), ram.Refs(), ram.mem, slots.Keys)
        invariant vpn in old(Bindings(ram)) ==>
                    ram.Refs() == old(ram.Refs()) && ram.mem == old(ram.mem) && slots == old(slots)
      {
        ghost var refs1, mem1, ts1 := ram.Refs(), ram.mem, slots.Keys;
        o, ppn := StepDown(ram, vpn, i, idxs[i], ppn);
        if o.Panicked? {
          return Panicked, 0;
        }
        GrewTransitive(old(ram.Refs()), old(ram.mem), old(slots.Keys), refs1, mem1, ts1, ram.Refs(), ram.mem, slots.Keys);
        i := i + 1;
      }
      return Running, ppn;
    }

    /** The frame that holds the valid leaf entry of `vpn`, if there is one. */
    method FindPte(ram: Ram, vpn: nat) returns (r: Option<nat>)
      requires Valid(ram) && vpn < VPN_LIMIT
      ensures r.Some? <==> vpn in Bindings(ram)
      ensures r.Some? ==> LeafTable(Tabs(ram), rootPpn, vpn) == r
    {
      hide Decode, TablesOf, Meaning, Tree, LeafTable, MidTable, Indexes, Pte.Valid;
      var idxs := ComputeIndexes(vpn);
      var ppn := rootPpn;
      WalkDownRoot(Tabs(ram), rootPpn, slots, vpn);
      var i := 0;
      while i < 3
        invariant 0 <= i <= 2
        invariant WalkDown(Tabs(ram), rootPpn, slots, vpn, i, ppn)
        decreases 3 - i
      {
        var w := ReadEntry(ram, ppn, idxs[i]);
        if !Decode(w).Valid() {
          WalkDownBlocked(Tabs(ram), rootPpn, slots, vpn, i, ppn);
          return None;
        }
        if i == 2 {
          break;
        }
        WalkDownStep(Tabs(ram), rootPpn, slots, vpn, i, ppn);
        ppn := Decode(w).ppn;
        i := i + 1;
      }
      LeafMeaning(Tabs(ram), rootPpn, slots, vpn, ppn);
      return Some(ppn);
    }

    /** Writes the leaf entry of `vpn`, which lies in table `t`. */
    method PutLeafEntry(ram: Ram, vpn: nat, t: nat, w: nat)
      requires Valid(ram) && vpn < VPN_LIMIT && w < 0x1_0000_0000_0000_0000
      requires LeafTable(Tabs(ram), rootPpn, vpn) == Some(t)
      modifies ram
      ensures Valid(ram) && ram.mem.Keys == old(ram.mem.Keys)
      ensures LeafTable(Tabs(ram), rootPpn, vpn) == Some(t)
      ensures forall f :: f in ram.mem && f !in slots ==> ram.mem[f] == old(ram.mem[f])
      ensures Bindings(ram) == Bind(old(Bindings(ram)), vpn, Decode(w))
    {
      hide Decode, TableOf, TablesOf, Meaning, Tree, LeafTable, Indexes, Partition, Pte.Valid;
      LeafMeaning(Tabs(ram), rootPpn, slots, vpn, t);
      PutLeaf(Tabs(ram), rootPpn, slots, vpn, t, Decode(w));
      InTables(ram.mem, slots.Keys, t);
      var idxs := ComputeIndexes(vpn);
      WriteEntry(ram, t, idxs[2], w);
    }

    /** The leaf entry of `vpn`: its table, made where it is missing, and its word. */
    method LeafEntry(ram: Ram, vpn: nat) returns (o: Outcome, t: nat, w: nat)
      requires Valid(ram) && vpn < VPN_LIMIT
      modifies this, ram.Repr
      ensures ram.Valid()
      ensures o.Panicked? ==> ram.Exhausted() && vpn !in old(Bindings(ram))
      ensures o.Running? ==> Valid(ram) && LeafTable(Tabs(ram), rootPpn, vpn) == Some(t) && w < 0x1_0000_0000_0000_0000
      ensures o.Running? ==> Bindings(ram) == old(Bindings(ram))
      ensures o.Running? ==> Grew(old(ram.Refs()), old(ram.mem), old(slots.Keys), ram.Refs(), ram.mem, slots.Keys)
      ensures o.Running? ==>
                if vpn in old(Bindings(ram)) then Decode(w) == old(Bindings(ram))[vpn] && Decode(w).Valid() else !Decode(w).Valid()
      ensures vpn in old(Bindings(ram)) ==> ram.Refs() == old(ram.Refs()) && slots == old(slots)
    {
      hide Decode, TablesOf, Meaning, Tree, LeafTable, Indexes, Partition, Grew, Pte.Valid;
      w := 0;
      o, t := FindPteCreate(ram, vpn);
      if o.Running? {
        LeafMeaning(Tabs(ram), rootPpn, slots, vpn, t);
        InTables(ram.mem, slots.Keys, t);
        var idxs := ComputeIndexes(vpn);
        w := ReadEntry(ram, t, idxs[2]);
      }
    }

    /** Maps page `vpn`, which must not be mapped. */
    method Map(ram: Ram, vpn: nat, ppn: nat, flags: Flags) returns (o: Outcome)
      requires Valid(ram) && vpn < VPN_LIMIT && ppn < PPN_LIMIT
      modifies this, ram.Repr
      ensures ram.Valid()
      ensures o.Panicked? <== vpn in old(Bindings(ram))
      ensures o.Panicked? ==> vpn in old(Bindings(ram)) || ram.Exhausted()
      ensures o.Running? ==> Valid(ram) && Bindings(ram) == old(Bindings(ram))[vpn := Pte(ppn, AddFlags(flags, V))]
      ensures o.Running? ==> Grew(old(ram.Refs()), old(ram.mem), old(slots.Keys), ram.Refs(), ram.mem, slots.Keys)
    {
      hide Encode, Decode, TablesOf, Meaning, Tree, LeafTable, Indexes, Partition;
      var t, w;
      o, t, w := LeafEntry(ram, vpn);
      if o.Panicked? {
        return;
      }
      if Decode(w).Valid() {
        return Panicked;
      }
      DecodeEncode(Pte(ppn, AddFlags(flags, V)));
      PutLeafEntry(ram, vpn, t, Encode(Pte(ppn, AddFlags(flags, V))));
    }

    method Unmap(ram: Ram, vpn: nat)
      requires Valid(ram) && vpn < VPN_LIMIT
      modifies ram
      ensures Valid(ram) && ram.mem.Keys == old(ram.mem.Keys)
      ensures forall f :: f in ram.mem && f !in slots ==> ram.mem[f] == old(ram.mem[f])
      ensures Bindings(ram) == old(Bindings(ram)) - {vpn}
    {
      hide TablesOf, Meaning, Tree, LeafTable, Indexes, Partition;
      var t := FindPte(ram, vpn);
      if t.Some? {
        assert Decode(0) == Pte(0, 0);
        PutLeafEntry(ram, vpn, t.value, 0);
      }
    }

    method Translate(ram: Ram, vpn: nat) returns (r: Option<Pte>)
      requires Valid(ram) && vpn < VPN_LIMIT
      ensures r == if vpn in Bindings(ram) then Some(Bindings(ram)[vpn]) else None
    {
      hide Decode, TablesOf, Meaning, Tree, LeafTable, Indexes;
      var t := FindPte(ram, vpn);
      if t == None {
        return None;
      }
      LeafMeaning(Tabs(ram), rootPpn, slots, vpn, t.value);
      InTables(ram.mem, slots.Keys, t.value);
      var idxs := ComputeIndexes(vpn);
      var w := ReadEntry(ram, t.value, idxs[2]);
      return Some(Decode(w));
    }

    /** Rewrites the low ten bits of the entry of a page; that may even map it. */
    method SetFlags(ram: Ram, vpn: nat, flags: Flags) returns (o: Outcome)
      requires Valid(ram) && vpn < VPN_LIMIT
      modifies this, ram.Repr
      ensures ram.Valid()
      ensures o.Panicked? ==> ram.Exhausted() && vpn !in old(Bindings(ram))
      ensures o.Running? ==> Valid(ram) && Grew(old(ram.Refs()), old(ram.mem), old(slots.Keys), ram.Refs(), ram.mem, slots.Keys)
      ensures vpn in old(Bindings(ram)) ==> ram.Refs() == old(ram.Refs()) && slots == old(slots)
      ensures o.Running? && vpn in old(Bindings(ram)) ==>
                Bindings(ram) == Bind(old(Bindings(ram)), vpn, old(Bindings(ram))[vpn].(flags := flags))
      ensures o.Running? ==> exists f :: Bindings(ram) == Bind(old(Bindings(ram)), vpn, Pte(f, flags))
    {
      hide Decode, SetFlagBits, TablesOf, Tree, LeafTable, Indexes, Partition, Meaning, Bind, Pte.Valid;
      var t, w;
      o, t, w := LeafEntry(ram, vpn);
      if o.Running? {
        DecodeSetFlagBits(w, flags);
        PutLeafEntry(ram, vpn, t, SetFlagBits(w, flags));
      }
    }

    /** Marks the entry of a page COW; a page that is not mapped stays so. */
    method SetCow(ram: Ram, vpn: nat) returns (o: Outcome)
      requires Valid(ram) && vpn < VPN_LIMIT
      modifies this, ram.Repr
      ensures ram.Valid()
      ensures o.Panicked? ==> ram.Exhausted() && vpn !in old(Bindings(ram))
      ensures o.Running? ==> Valid(ram) && Grew(old(ram.Refs()), old(ram.mem), old(slots.Keys), ram.Refs(), ram.mem, slots.Keys)
      ensures vpn in old(Bindings(ram)) ==> ram.Refs() == old(ram.Refs()) && slots == old(slots)
      ensures o.Running? ==>
                if vpn in old(Bindings(ram)) then
                  var e := old(Bindings(ram))[vpn];
                  Bindings(ram) == old(Bindings(ram))[vpn := e.(flags := AddFlags(e.flags, COW))]
                else Bindings(ram) == old(Bindings(ram))
    {
      hide AddFlags, ClearFlags, Decode, SetFlagBits, TablesOf, Tree, LeafTable, Indexes, Partition, Meaning, Pte.Valid;
      var t, w;
      o, t, w := LeafEntry(ram, vpn);
      if o.Running? {
        FlagsStayValid(Decode(w));
        DecodeSetFlagBits(w, AddFlags(Decode(w).flags, COW));
        PutLeafEntry(ram, vpn, t, SetFlagBits(w, AddFlags(Decode(w).flags, COW)));
      }
    }

    /** Takes the COW mark from the entry of a page; a page that is not mapped stays so. */
    method ResetCow(ram: Ram, vpn: nat) returns (o: Outcome)
      requires Valid(ram) && vpn < VPN_LIMIT
      modifies this, ram.Repr
      ensures ram.Valid()
      ensures o.Panicked? ==> ram.Exhausted() && vpn !in old(Bindings(ram))
      ensures o.Running? ==> Valid(ram) && Grew(old(ram.Refs()), old(ram.mem), old(slots.Keys), ram.Refs(), ram.mem, slots.Keys)
      ensures vpn in old(Bindings(ram)) ==> ram.Refs() == old(ram.Refs()) && slots == old(slots)
      ensures o.Running? ==>
                if vpn in old(Bindings(ram)) then
                  var e := old(Bindings(ram))[vpn];
                  Bindings(ram) == old(Bindings(ram))[vpn := e.(flags := ClearFlags(e.flags, COW))]
                else Bindings(ram) == old(Bindings(ram))
    {
      hide AddFlags, ClearFlags, Decode, SetFlagBits, TablesOf, Tree, LeafTable, Indexes, Partition, Meaning, Pte.Valid;
      var t, w;
      o, t, w := LeafEntry(ram, vpn);
      if o.Running? {
        FlagsStayValid(Decode(w));
        DecodeSetFlagBits(w, ClearFlags(Decode(w).flags, COW));
        PutLeafEntry(ram, vpn, t, SetFlagBits(w, ClearFlags(Decode(w).flags, COW)));
      }
    }

    /** Points a page at the frame `ppn`, adds W, and copies the former frame into it. */
    method RemapCow(ram: Ram, vpn: nat, ppn: nat, formerPpn: nat) returns (o: Outcome)
      requires Valid(ram) && vpn < VPN_LIMIT && ppn < PPN_LIMIT
      requires ppn in ram.mem && ppn in ram.Refs() && ppn !in slots
      requires formerPpn in ram.mem && formerPpn in ram.Refs() && formerPpn !in slots
      modifies this, ram.Repr
      ensures ram.Valid()
      ensures o.Panicked? ==> ram.Exhausted() && vpn !in old(Bindings(ram))
      ensures o.Running? ==>
                && Valid(ram)
                && Grew(old(ram.Refs()), old(ram.mem)[ppn := old(ram.mem)[formerPpn]], old(slots.Keys), ram.Refs(), ram.mem, slots.Keys)
      ensures vpn in old(Bindings(ram)) ==> ram.Refs() == old(ram.Refs()) && slots == old(slots)
      ensures o.Running? ==>
                if vpn in old(Bindings(ram)) then
                  Bindings(ram) == old(Bindings(ram))[vpn := Pte(ppn, AddFlags(old(Bindings(ram))[vpn].flags, W))]
                else Bindings(ram) == old(Bindings(ram))
    {
      hide AddFlags, Decode, Encode, TablesOf, Tree, LeafTable, Indexes, Partition, Meaning, Pte.Valid, Grew;
      var t, w;
      o, t, w := LeafEntry(ram, vpn);
      if o.Running? {
        ghost var mem1 := ram.mem;
        FlagsStayValid(Decode(w));
        DecodeEncode(Pte(ppn, AddFlags(Decode(w).flags, W)));
        PutLeafEntry(ram, vpn, t, Encode(Pte(ppn, AddFlags(Decode(w).flags, W))));
        ghost var mem := ram.mem;
        GrewThenCopied(old(ram.Refs()), old(ram.mem), old(slots.Keys), ram.Refs(), mem1, slots.Keys, mem, ppn, formerPpn);
        ram.WritePage(ppn, ram.mem[formerPpn]);
        BindingsFrame(mem, ram.mem, slots.Keys);
      }
    }
  }
}
