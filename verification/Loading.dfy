/** Areas that enter an address space: loaded segments, whose pages get frames at once, and lazy areas
    (`insert_and_map`, `inflate_pagetable`, `copy_data`, `MmapManager::push`). */
module Loading {
  import opened LittleEndian
  import opened Options
  import opened Sv39
  import opened FrameAllocator
  import opened PhysicalMemory
  import opened PageTables
  import opened CowSystem
  import opened CowSteps
  import opened MemoryLayout
  import opened MemorySets
  import opened CowRuns

  // ---------------------------------------------------------------- what a segment is

  /** The byte at virtual address `a` of a segment that starts at `startVa` and of which the first `len`
      bytes are those of the file from `dataStart` on. */
  function SegmentByte(file: seq<Byte>, startVa: nat, dataStart: nat, len: nat, a: int): Byte
    requires dataStart + len <= |file|
  {
    if startVa <= a < startVa + len then file[dataStart + (a - startVa)] else 0
  }

  /** The place of address `a` in the page at `base`, or the nearest end of the page. */
  function Clamp(base: nat, a: nat): (k: nat)
    ensures k <= PAGE_SIZE
  {
    if a < base then 0 else if a > base + PAGE_SIZE then PAGE_SIZE else a - base
  }

  /** The page of the segment that starts at address `base`. */
  function SegmentSlice(file: seq<Byte>, startVa: nat, dataStart: nat, len: nat, base: nat): (page: Page)
    requires dataStart + len <= |file|
  {
    var lo, hi := Clamp(base, startVa), Clamp(base, startVa + len);
    if lo >= hi then ZeroPage()
    else
      ZeroPage()[..lo] + file[dataStart + (base + lo - startVa)..dataStart + (base + hi - startVa)] + ZeroPage()[hi..]
  }

  /** Byte for byte: the file where the data goes, zero elsewhere. */
  lemma SegmentSliceAt(file: seq<Byte>, startVa: nat, dataStart: nat, len: nat, base: nat, j: nat)
    requires dataStart + len <= |file| && j < PAGE_SIZE
    ensures SegmentSlice(file, startVa, dataStart, len, base)[j] == SegmentByte(file, startVa, dataStart, len, base + j)
  {
    var lo, hi := Clamp(base, startVa), Clamp(base, startVa + len);
    if lo < hi {
      assert |ZeroPage()[..lo]| == lo;
    }
  }

  /** Page `v` of the segment. */
  function SegmentPage(file: seq<Byte>, startVa: nat, dataStart: nat, len: nat, v: nat): (page: Page)
    requires dataStart + len <= |file|
  {
    SegmentSlice(file, startVa, dataStart, len, v * PAGE_SIZE)
  }

  lemma SegmentPageAt(file: seq<Byte>, startVa: nat, dataStart: nat, len: nat, v: nat, j: nat)
    requires dataStart + len <= |file| && j < PAGE_SIZE
    ensures SegmentPage(file, startVa, dataStart, len, v)[j] == SegmentByte(file, startVa, dataStart, len, v * PAGE_SIZE + j)
  {
    hide SegmentSlice, SegmentByte;
    SegmentSliceAt(file, startVa, dataStart, len, v * PAGE_SIZE, j);
  }

  ghost function SegmentPages(file: seq<Byte>, startVa: nat, dataStart: nat, len: nat, vs: set<nat>): map<nat, Page>
    requires dataStart + len <= |file|
  {
    map v | v in vs :: SegmentPage(file, startVa, dataStart, len, v)
  }

  lemma NoDataYet(file: seq<Byte>, startVa: nat, dataStart: nat, v: nat)
    requires dataStart <= |file|
    ensures SegmentPage(file, startVa, dataStart, 0, v) == ZeroPage()
  {
  }

  /** The page after the bytes `src` were copied to its offset `po`. */
  function Overlay(page: Page, po: nat, src: seq<Byte>): Page
    requires po + |src| <= PAGE_SIZE
  {
    page[..po] + src + page[po + |src|..]
  }

  /** One turn of the copy: the next `n` bytes of the file go to the page where the data ends. */
  lemma CopyTurn(file: seq<Byte>, startVa: nat, dataStart: nat, done: nat, n: nat, cur: nat, po: nat, v: nat)
    requires dataStart + done + n <= |file|
    requires startVa + done == cur * PAGE_SIZE + po && po + n <= PAGE_SIZE
    ensures SegmentPage(file, startVa, dataStart, done + n, v) ==
            if v == cur then
              Overlay(SegmentPage(file, startVa, dataStart, done, v), po, file[dataStart + done..dataStart + done + n])
            else SegmentPage(file, startVa, dataStart, done, v)
  {
    hide SegmentPage;
    var before, after := SegmentPage(file, startVa, dataStart, done, v), SegmentPage(file, startVa, dataStart, done + n, v);
    if v == cur {
      var over := Overlay(before, po, file[dataStart + done..dataStart + done + n]);
      forall j | 0 <= j < PAGE_SIZE
        ensures after[j] == over[j]
      {
        SegmentPageAt(file, startVa, dataStart, done, v, j);
        SegmentPageAt(file, startVa, dataStart, done + n, v, j);
      }
      assert after == over;
    } else {
      forall j | 0 <= j < PAGE_SIZE
        ensures after[j] == before[j]
      {
        SegmentPageAt(file, startVa, dataStart, done, v, j);
        SegmentPageAt(file, startVa, dataStart, done + n, v, j);
        PagesApart(cur, po, n, v, j);
      }
      assert after == before;
    }
  }

  lemma PagesApart(cur: nat, po: nat, n: nat, v: nat, j: nat)
    requires v != cur && po + n <= PAGE_SIZE && j < PAGE_SIZE
    ensures !(cur * PAGE_SIZE + po <= v * PAGE_SIZE + j < cur * PAGE_SIZE + po + n)
  {
  }

  // ---------------------------------------------------------------- one more page

  /** The entries of the pages `nf` joined those of `sp`. */
  ghost predicate EntriesAdded(sp: Space, nf: map<nat, nat>, pt: map<nat, Pte>) {
    && (forall v :: v in nf ==> v in sp.pages && v !in sp.pt)
    && pt.Keys == sp.pt.Keys + nf.Keys
    && (forall v :: v in sp.pt ==> pt[v] == sp.pt[v])
    && (forall v :: v in nf ==> pt[v].ppn == nf[v] && FreshFlags(sp.pages[v], pt[v].flags))
  }

  lemma AddEntry(sp: Space, nf: map<nat, nat>, pt: map<nat, Pte>, v: nat, f: nat, flags: Flags)
    requires EntriesAdded(sp, nf, pt) && v in sp.pages && v !in pt && FreshFlags(sp.pages[v], flags)
    ensures v !in nf && EntriesAdded(sp, nf[v := f], pt[v := Pte(f, flags)])
  {
    hide FreshFlags;
  }

  /** The frames `nf` are apart from the tables. */
  ghost predicate FramesBeside(mem: Memory, nf: map<nat, nat>, ts: set<nat>) {
    && (forall v :: v in nf ==> nf[v] in mem && nf[v] !in ts)
    && (forall t :: t in ts ==> t in mem)
  }

  lemma PopulatedIff(refs: map<nat, nat>, mem: Memory, sp: Space, nf: map<nat, nat>,
                     refs': map<nat, nat>, mem': Memory, sp': Space)
    ensures Populated(refs, mem, sp, nf, refs', mem', sp') <==>
            && Injective(nf) && sp.tables <= sp'.tables
            && FramesBeside(mem, nf, sp'.tables)
            && Taken(refs, refs', nf.Values + (sp'.tables - sp.tables))
            && Kept(mem, mem', nf.Values + sp'.tables)
            && sp'.pages == sp.pages && sp'.frames == sp.frames + nf
            && EntriesAdded(sp, nf, sp'.pt)
  {
    hide Injective, Taken, Kept, FreshFlags;
  }

  /** Frame `f` joins the frames `nf` that a space got, at page `v`. */
  lemma PopulateOne(refs: map<nat, nat>, mem: Memory, sp: Space, nf: map<nat, nat>,
                    refs1: map<nat, nat>, mem1: Memory, sp1: Space, v: nat, f: nat, flags: Flags,
                    refs2: map<nat, nat>, mem2: Memory, sp2: Space)
    requires Populated(refs, mem, sp, nf, refs1, mem1, sp1)
    requires v in sp.pages && v !in sp1.pt && f in mem1 && f !in refs1
    requires forall t :: t in sp1.tables ==> t in mem1 && t in refs1
    requires FreshFlags(sp.pages[v], flags)
    requires Grew(refs1[f := 1], mem1[f := ZeroPage()], sp1.tables, refs2, mem2, sp2.tables)
    requires sp2 == Space(sp1.pt[v := Pte(f, flags)], sp2.tables, sp1.frames[v := f], sp.pages)
    ensures v !in nf && f !in nf.Values
    ensures Populated(refs, mem, sp, nf[v := f], refs2, mem2, sp2)
    ensures Contents(mem2, nf[v := f]) == Contents(mem1, nf)[v := ZeroPage()]
  {
    hide FreshFlags, Grew, Injective, Taken, Kept, Populated, EntriesAdded, Contents;
    PopulatedIff(refs, mem, sp, nf, refs1, mem1, sp1);
    TakenAndGrew(refs1, mem1, sp1.tables, f, ZeroPage(), refs2, mem2, sp2.tables);
    var nf' := nf[v := f];
    var taken := nf.Values + (sp1.tables - sp.tables);
    AddEntry(sp, nf, sp1.pt, v, f, flags);
    NotTakenTwice(refs, refs1, taken, f);
    NewValue(nf, v, f);
    SetsJoin(nf.Values, sp.tables, sp1.tables, sp2.tables, f);
    FramesJoin(sp.frames, nf, v, f);
    TakenTwice(refs, refs1, refs2, taken, {f} + (sp2.tables - sp1.tables));
    KeptTwice(mem, mem1, mem2, nf.Values + sp1.tables, {f} + sp2.tables);
    NewFramesKept(refs, refs1, mem1, nf, taken, sp1.tables, f, refs2, mem2, sp2.tables);
    ContentsOne(mem1, mem2, nf, v, f);
    PopulatedIff(refs, mem, sp, nf', refs2, mem2, sp2);
  }

  lemma SetsJoin(values: set<nat>, ts: set<nat>, ts1: set<nat>, ts2: set<nat>, f: nat)
    requires ts <= ts1 <= ts2
    ensures values + (ts1 - ts) + ({f} + (ts2 - ts1)) == values + {f} + (ts2 - ts)
    ensures values + ts1 + ({f} + ts2) == values + {f} + ts2
  {
  }

  lemma FramesJoin(frames: map<nat, nat>, nf: map<nat, nat>, v: nat, f: nat)
    ensures frames + nf[v := f] == (frames + nf)[v := f]
  {
  }

  lemma NewFramesKept(refs: map<nat, nat>, refs1: map<nat, nat>, mem1: Memory, nf: map<nat, nat>, taken: set<nat>, ts1: set<nat>,
                      f: nat, refs2: map<nat, nat>, mem2: Memory, ts2: set<nat>)
    requires Taken(refs, refs1, taken) && nf.Values <= taken && f !in refs1
    requires forall u :: u in nf ==> nf[u] in mem1 && nf[u] !in ts1
    requires Grew(refs1[f := 1], mem1[f := ZeroPage()], ts1, refs2, mem2, ts2)
    ensures forall u :: u in nf ==> nf[u] !in ts2 && nf[u] in mem2 && mem2[nf[u]] == mem1[nf[u]]
  {
    forall u | u in nf
      ensures nf[u] in refs1 && nf[u] != f
    {
      assert nf[u] in nf.Values;
    }
  }

  lemma ContentsOne(mem1: Memory, mem2: Memory, nf: map<nat, nat>, v: nat, f: nat)
    requires forall u :: u in nf ==> nf[u] in mem1 && nf[u] in mem2 && mem2[nf[u]] == mem1[nf[u]]
    requires f in mem2 && mem2[f] == ZeroPage()
    ensures v !in nf ==> Contents(mem2, nf[v := f]) == Contents(mem1, nf)[v := ZeroPage()]
  {
  }

  lemma NotTakenTwice(refs: map<nat, nat>, refs1: map<nat, nat>, taken: set<nat>, f: nat)
    requires Taken(refs, refs1, taken) && f !in refs1
    ensures f !in taken && f !in refs
  {
  }

  lemma TakenTwice(refs: map<nat, nat>, refs1: map<nat, nat>, refs2: map<nat, nat>, a: set<nat>, b: set<nat>)
    requires Taken(refs, refs1, a) && Taken(refs1, refs2, b)
    ensures Taken(refs, refs2, a + b)
  {
  }

  lemma KeptTwice(mem: Memory, mem1: Memory, mem2: Memory, a: set<nat>, b: set<nat>)
    requires Kept(mem, mem1, a) && Kept(mem1, mem2, b)
    ensures Kept(mem, mem2, a + b) && mem1.Keys == mem.Keys
  {
  }

  lemma NewValue(m: map<nat, nat>, v: nat, f: nat)
    requires v !in m && f !in m.Values
    ensures m[v := f].Values == m.Values + {f}
    ensures Injective(m) ==> Injective(m[v := f])
  {
    var m' := m[v := f];
    forall x | x in m.Values + {f}
      ensures x in m'.Values
    {
      if x == f {
        assert m'[v] == f;
      } else {
        var u :| u in m && m[u] == x;
        assert m'[u] == x;
      }
    }
    forall u | u in m
      ensures m[u] in m.Values
    {
    }
  }

  /** Writing into one of the new frames. */
  lemma PopulateWrite(refs: map<nat, nat>, mem: Memory, sp: Space, nf: map<nat, nat>,
                      refs': map<nat, nat>, mem': Memory, sp': Space, v: nat, page: Page)
    requires Populated(refs, mem, sp, nf, refs', mem', sp') && v in nf
    ensures nf[v] in mem' && nf[v] !in sp'.tables
    ensures Populated(refs, mem, sp, nf, refs', mem'[nf[v] := page], sp')
    ensures Contents(mem'[nf[v] := page], nf) == Contents(mem', nf)[v := page]
  {
    hide FreshFlags, Taken;
    assert nf[v] in nf.Values;
  }

  lemma NothingPopulated(refs: map<nat, nat>, mem: Memory, sp: Space)
    requires forall f :: f in refs ==> refs[f] > 0
    requires forall t :: t in sp.tables ==> t in mem
    ensures Populated(refs, mem, sp, map[], refs, mem, sp)
    ensures Contents(mem, map[]) == map[]
  {
    assert sp.frames + map[] == sp.frames;
  }

  // ---------------------------------------------------------------- the loops

  /** The space after the frames `nf` were mapped, as the page table has it. */
  ghost function Mapped(sp: Space, nf: map<nat, nat>, pt: PageTable, ram: Ram): Space
    reads pt, ram
  {
    Space(pt.Bindings(ram), pt.slots.Keys, sp.frames + nf, sp.pages)
  }

  ghost predicate AllZero(mem: Memory, nf: map<nat, nat>) {
    forall v :: v in nf ==> v in Contents(mem, nf) && Contents(mem, nf)[v] == ZeroPage()
  }

  /** The pages of `area` are ones of `sp` that have no entry. */
  ghost predicate Unmapped(sp: Space, area: VmArea) {
    forall v :: area.Contains(v) ==> v in sp.pages && v !in sp.pt && sp.pages[v] == area.PageKind()
  }

  /** `inflate_pagetable`: a zeroed frame for every page of the area. */
  method InflatePagetable(area: VmArea, pt: PageTable, ram: Ram, ghost sp: Space) returns (o: Outcome, a: VmArea)
    requires pt.Valid(ram) && AreaOk(area) && area.frameMap == map[]
    requires sp.pt == pt.Bindings(ram) && sp.tables == pt.slots.Keys && Unmapped(sp, area)
    requires forall f :: f in ram.Refs() ==> ram.Refs()[f] > 0
    modifies pt, ram.Repr
    ensures ram.Valid()
    ensures o.Panicked? ==> ram.Exhausted()
    ensures o.Running? ==>
              && pt.Valid(ram) && a == area.(frameMap := a.frameMap)
              && (forall v :: v in a.frameMap <==> area.Contains(v))
              && Populated(old(ram.Refs()), old(ram.mem), sp, a.frameMap, ram.Refs(), ram.mem, Mapped(sp, a.frameMap, pt, ram))
              && AllZero(ram.mem, a.frameMap)
  {
    hide Populated, Contents, FreshFlags, FromMapPermission, Meaning, TablesOf, Tree, Partition, Grew, AllZero;
    a := area;
    NothingPopulated(ram.Refs(), ram.mem, sp);
    assert AllZero(ram.mem, map[]) by { NoneZero(ram.mem); }
    assert Mapped(sp, map[], pt, ram) == sp by { assert sp.frames + map[] == sp.frames; }
    var vpn := area.start;
    while vpn < area.end
      invariant area.start <= vpn <= area.end
      invariant pt.Valid(ram) && a == area.(frameMap := a.frameMap)
      invariant forall v :: v in a.frameMap <==> area.start <= v < vpn
      invariant Populated(old(ram.Refs()), old(ram.mem), sp, a.frameMap, ram.Refs(), ram.mem, Mapped(sp, a.frameMap, pt, ram))
      invariant AllZero(ram.mem, a.frameMap)
    {
      ghost var refs1, mem1, sp1 := ram.Refs(), ram.mem, Mapped(sp, a.frameMap, pt, ram);
      NotYetMapped(old(ram.Refs()), old(ram.mem), sp, a.frameMap, refs1, mem1, sp1, vpn);
      AreaFlags(a);
      var f;
      o, f := MapOne(pt, ram, vpn, FromMapPermission(area.permission));
      if o.Panicked? {
        return;
      }
      FramesJoin(sp.frames, a.frameMap, vpn, f);
      PopulateOne(old(ram.Refs()), old(ram.mem), sp, a.frameMap, refs1, mem1, sp1, vpn, f,
                  AddFlags(FromMapPermission(area.permission), V), ram.Refs(), ram.mem, Mapped(sp, a.frameMap[vpn := f], pt, ram));
      MoreZero(mem1, a.frameMap, ram.mem, vpn, f);
      a := WithFrame(a, vpn, f);
      vpn := vpn + 1;
    }
    o := Running;
  }

  lemma NoneZero(mem: Memory)
    ensures AllZero(mem, map[])
  {
  }

  lemma MoreZero(mem1: Memory, nf: map<nat, nat>, mem2: Memory, v: nat, f: nat)
    requires AllZero(mem1, nf) && Contents(mem2, nf[v := f]) == Contents(mem1, nf)[v := ZeroPage()]
    ensures AllZero(mem2, nf[v := f])
  {
    hide Contents;
    var nf' := nf[v := f];
    forall u | u in nf'
      ensures u in Contents(mem2, nf') && Contents(mem2, nf')[u] == ZeroPage()
    {
    }
  }

  lemma NotYetMapped(refs: map<nat, nat>, mem: Memory, sp: Space, nf: map<nat, nat>,
                     refs': map<nat, nat>, mem': Memory, sp': Space, v: nat)
    requires Populated(refs, mem, sp, nf, refs', mem', sp')
    requires v !in sp.pt && v !in nf
    ensures v !in sp'.pt
  {
  }

  // ---------------------------------------------------------------- the data

  /** The part of a file that fills a segment, and the offset of its first byte in the first page. */
  datatype Source = Source(file: seq<Byte>, dataStart: nat, dataLen: nat, pageOffset: nat)

  /** The file has the data, and the area of the segment at `startVa` has room for it. */
  ghost predicate Fits(d: Source, startVa: nat, area: VmArea) {
    && d.dataStart + d.dataLen <= |d.file|
    && d.pageOffset == startVa % PAGE_SIZE && area.start == startVa / PAGE_SIZE
    && area.start < area.end && startVa + d.dataLen <= area.end * PAGE_SIZE
  }

  /** Bytes `[..done]` of the data are in place in the frames `nf`. */
  ghost predicate Copied(d: Source, startVa: nat, mem: Memory, nf: map<nat, nat>, done: nat) {
    && d.dataStart + done <= |d.file|
    && Contents(mem, nf) == SegmentPages(d.file, startVa, d.dataStart, done, nf.Keys)
  }

  lemma CopyStart(d: Source, startVa: nat, mem: Memory, nf: map<nat, nat>)
    requires AllZero(mem, nf) && d.dataStart <= |d.file|
    ensures Copied(d, startVa, mem, nf, 0)
  {
    hide SegmentPage;
    forall v | v in nf
      ensures SegmentPage(d.file, startVa, d.dataStart, 0, v) == ZeroPage()
    {
      NoDataYet(d.file, startVa, d.dataStart, v);
    }
  }

  /** The next `n` bytes of the data, overlaid on page `cur`. */
  lemma CopyMore(d: Source, startVa: nat, mem: Memory, nf: map<nat, nat>, done: nat, n: nat, cur: nat, po: nat, mem': Memory, page: Page)
    requires Copied(d, startVa, mem, nf, done) && d.dataStart + done + n <= |d.file|
    requires startVa + done == cur * PAGE_SIZE + po && po + n <= PAGE_SIZE
    requires cur in nf && nf[cur] in mem
    requires page == Overlay(mem[nf[cur]], po, d.file[d.dataStart + done..d.dataStart + done + n])
    requires Contents(mem', nf) == Contents(mem, nf)[cur := page]
    ensures Copied(d, startVa, mem', nf, done + n)
  {
    hide SegmentPage, Overlay;
    assert Contents(mem, nf)[cur] == mem[nf[cur]];
    forall v | v in nf
      ensures Contents(mem', nf)[v] == SegmentPage(d.file, startVa, d.dataStart, done + n, v)
    {
      CopyTurn(d.file, startVa, d.dataStart, done, n, cur, po, v);
    }
  }

  /** `copy_data`: the data is copied page by page through the page table. */
  method CopyData(d: Source, area: VmArea, pt: PageTable, ram: Ram, ghost startVa: nat,
                  ghost refs: map<nat, nat>, ghost mem: Memory, ghost sp: Space)
    requires pt.Valid(ram) && Fits(d, startVa, area) && (forall v :: v in area.frameMap <==> area.Contains(v))
    requires Populated(refs, mem, sp, area.frameMap, ram.Refs(), ram.mem, Mapped(sp, area.frameMap, pt, ram))
    requires AllZero(ram.mem, area.frameMap) && area.end <= VPN_LIMIT
    modifies ram
    ensures pt.Valid(ram)
    ensures Populated(refs, mem, sp, area.frameMap, ram.Refs(), ram.mem, Mapped(sp, area.frameMap, pt, ram))
    ensures Contents(ram.mem, area.frameMap) == SegmentPages(d.file, startVa, d.dataStart, d.dataLen, area.frameMap.Keys)
  {
    hide Populated, Contents, Meaning, TablesOf, Tree, Partition, AllZero, Copied, SegmentPages, Overlay;
    CopyStart(d, startVa, ram.mem, area.frameMap);
    var dataLen: nat, pageOffset: nat, offset: nat, current: nat := d.dataLen, d.pageOffset, 0, area.start;
    while true
      invariant dataLen <= d.dataLen && pageOffset < PAGE_SIZE && area.Contains(current)
      invariant offset == d.dataLen - dataLen && startVa + offset == current * PAGE_SIZE + pageOffset
      invariant pt.Valid(ram)
      invariant Populated(refs, mem, sp, area.frameMap, ram.Refs(), ram.mem, Mapped(sp, area.frameMap, pt, ram))
      invariant Copied(d, startVa, ram.mem, area.frameMap, d.dataLen - dataLen)
      decreases dataLen
    {
      var data := d.file[d.dataStart + offset..][..Min(dataLen, PAGE_SIZE)];
      var src := data[..Min(dataLen, PAGE_SIZE - pageOffset)];
      ghost var mem1, done := ram.mem, d.dataLen - dataLen;
      Sliced(d.file, d.dataStart + offset, Min(dataLen, PAGE_SIZE), Min(dataLen, PAGE_SIZE - pageOffset));
      PopulatedEntry(refs, mem, sp, area.frameMap, ram.Refs(), ram.mem, Mapped(sp, area.frameMap, pt, ram), current);
      var pte := pt.Translate(ram, current);
      var page := Overlay(ram.mem[pte.value.ppn], pageOffset, src);
      PopulateWrite(refs, mem, sp, area.frameMap, ram.Refs(), ram.mem, Mapped(sp, area.frameMap, pt, ram), current, page);
      ram.WritePage(pte.value.ppn, page);
      BindingsFrame(mem1, ram.mem, pt.slots.Keys);
      CopyMore(d, startVa, mem1, area.frameMap, done, |src|, current, pageOffset, ram.mem, page);
      offset := offset + (PAGE_SIZE - pageOffset);
      pageOffset := 0;
      dataLen := dataLen - |src|;
      if dataLen == 0 {
        break;
      }
      current := current + 1;
    }
    CopyEnd(d, startVa, ram.mem, area.frameMap);
  }

  lemma CopyEnd(d: Source, startVa: nat, mem: Memory, nf: map<nat, nat>)
    requires Copied(d, startVa, mem, nf, d.dataLen)
    ensures Contents(mem, nf) == SegmentPages(d.file, startVa, d.dataStart, d.dataLen, nf.Keys)
  {
  }

  lemma Sliced(file: seq<Byte>, from: nat, k: nat, n: nat)
    requires n <= k && from + k <= |file|
    ensures file[from..][..k][..n] == file[from..from + n]
  {
  }

  lemma PopulatedEntry(refs: map<nat, nat>, mem: Memory, sp: Space, nf: map<nat, nat>,
                       refs': map<nat, nat>, mem': Memory, sp': Space, v: nat)
    requires Populated(refs, mem, sp, nf, refs', mem', sp') && v in nf
    ensures v in sp'.pt && sp'.pt[v].ppn == nf[v] && nf[v] in mem'
  {
    hide FreshFlags, Taken;
  }

  function Min(a: nat, b: nat): nat {
    if a < b then a else b
  }

  // ---------------------------------------------------------------- the new area

  /** An area that lies apart from all others may join them. */
  lemma PushArea(l: Layout, a: VmArea)
    requires LayoutOk(l) && AreaOk(a) && Inflated(a) && a.areaType != UserHeap
    requires forall v :: a.Contains(v) ==> v !in AllPages(l)
    ensures var l' := l.(areas := l.areas + [a]);
            LayoutOk(l') && TrackedFrames(l') == TrackedFrames(l) + a.frameMap && AllPages(l') == AllPages(l) + RangePages(a)
  {
    hide TrackedFrames, AllPages, VmArea.PageKind, ProtKind;
    var l' := l.(areas := l.areas + [a]);
    PushedOk(l, a);
    forall v
      ensures v in TrackedFrames(l') <==> v in TrackedFrames(l) || v in a.frameMap
      ensures v in TrackedFrames(l') ==> TrackedFrames(l')[v] == (TrackedFrames(l) + a.frameMap)[v]
      ensures v in AllPages(l') <==> v in AllPages(l) || a.Contains(v)
      ensures v in AllPages(l') ==> AllPages(l')[v] == if a.Contains(v) then a.PageKind() else AllPages(l)[v]
    {
      PushedAt(l, a, v);
    }
    assert TrackedFrames(l') == TrackedFrames(l) + a.frameMap;
    assert AllPages(l') == AllPages(l) + RangePages(a);
  }

  lemma PushedOk(l: Layout, a: VmArea)
    requires LayoutOk(l) && AreaOk(a) && Inflated(a) && a.areaType != UserHeap
    requires forall v :: a.Contains(v) ==> v !in AllPages(l)
    ensures LayoutOk(l.(areas := l.areas + [a]))
  {
    hide TrackedFrames, AllPages, VmArea.PageKind, ProtKind;
    var l' := l.(areas := l.areas + [a]);
    forall v | a.Contains(v)
      ensures !l.stack.Contains(v) && !l.heap.Contains(v) && !l.mmap.Contains(v)
      ensures forall i :: 0 <= i < |l.areas| ==> !l.areas[i].Contains(v)
    {
      FramesAt(l, v);
    }
    forall i, j | 0 <= i < j < |l'.areas|
      ensures MemoryLayout.Apart(l'.areas[i], l'.areas[j])
    {
      if j < |l.areas| {
        assert MemoryLayout.Apart(l.areas[i], l.areas[j]);
      }
    }
  }

  lemma PushedAt(l: Layout, a: VmArea, v: nat)
    requires LayoutOk(l) && AreaOk(a) && Inflated(a) && LayoutOk(l.(areas := l.areas + [a]))
    requires forall v :: a.Contains(v) ==> v !in AllPages(l)
    ensures var l' := l.(areas := l.areas + [a]);
            && (v in TrackedFrames(l') <==> v in TrackedFrames(l) || v in a.frameMap)
            && (v in TrackedFrames(l') ==> TrackedFrames(l')[v] == (TrackedFrames(l) + a.frameMap)[v])
            && (v in AllPages(l') <==> v in AllPages(l) || a.Contains(v))
            && (v in AllPages(l') ==> AllPages(l')[v] == if a.Contains(v) then a.PageKind() else AllPages(l)[v])
  {
    hide TrackedFrames, AllPages, VmArea.PageKind, ProtKind, LayoutOk, Apart;
    var l' := l.(areas := l.areas + [a]);
    FramesAt(l, v);
    FramesAt(l', v);
    if a.Contains(v) {
      assert l'.areas[|l.areas|].Contains(v);
    } else if InSomeArea(l.areas, v) {
      var i :| 0 <= i < |l.areas| && l.areas[i].Contains(v);
      assert l'.areas[i] == l.areas[i];
    } else {
      assert !InSomeArea(l'.areas, v);
    }
  }

  /** What the pages of a new area read as. */
  ghost function AreaBytes(area: VmArea, data: Option<Source>, startVa: nat): map<nat, Page>
    requires data.Some? ==> Fits(data.value, startVa, area)
  {
    match data
    case None => map v: nat | v in RangePages(area) :: ZeroPage()
    case Some(d) => SegmentPages(d.file, startVa, d.dataStart, d.dataLen, RangePages(area).Keys)
  }

  /** The area can be new: none of its pages is a page already, or mapped. */
  ghost predicate Vacant(sp: Space, area: VmArea) {
    && AreaOk(area) && area.frameMap == map[]
    && (forall v :: area.Contains(v) ==> v !in sp.pages && v !in sp.pt)
  }

  ghost function WithArea(sp: Space, area: VmArea): Space {
    sp.(pages := sp.pages + RangePages(area))
  }

  lemma VacantIsUnmapped(sp: Space, area: VmArea)
    requires Vacant(sp, area)
    ensures Unmapped(WithArea(sp, area), area) && Reserved(sp, RangePages(area), WithArea(sp, area))
  {
  }

  lemma AreaFilled(area: VmArea, a: VmArea, data: Option<Source>, startVa: nat, refs: map<nat, nat>, mem: Memory, sp: Space,
                   refs': map<nat, nat>, mem': Memory, sp': Space)
    requires Populated(refs, mem, sp, a.frameMap, refs', mem', sp')
    requires forall v :: v in a.frameMap <==> area.Contains(v)
    requires data.Some? ==> Fits(data.value, startVa, area)
    requires match data
             case None => AllZero(mem', a.frameMap)
             case Some(d) => Contents(mem', a.frameMap) == SegmentPages(d.file, startVa, d.dataStart, d.dataLen, a.frameMap.Keys)
    ensures Filled(refs, mem, sp, AreaBytes(area, data, startVa), refs', mem', sp')
  {
    hide Populated, SegmentPage, VmArea.PageKind;
    assert a.frameMap.Keys == RangePages(area).Keys;
    assert Contents(mem', a.frameMap) == AreaBytes(area, data, startVa);
  }

  /** `insert_and_map`: an area whose pages all get frames, with the data of a file where there is one. */
  method InsertAndMap(ms: MemorySet, ram: Ram, area: VmArea, data: Option<Source>, ghost startVa: nat) returns (o: Outcome)
    requires ms.InOrder(ram) && area.areaType != UserHeap && Vacant(ms.View(ram), area)
    requires data.Some? ==> Fits(data.value, startVa, area)
    modifies ms`mapAreas, ms.pageTable, ram.Repr
    ensures ram.Valid()
    ensures o.Panicked? ==> ram.Exhausted()
    ensures o.Running? ==> ms.Valid(ram)
    ensures o.Running? ==>
              Filled(old(ram.Refs()), old(ram.mem), WithArea(old(ms.View(ram)), area), AreaBytes(area, data, startVa),
                     ram.Refs(), ram.mem, ms.View(ram))
  {
    hide Populated, Contents, Meaning, TablesOf, Tree, Partition, AllZero, SegmentPages, TrackedFrames, AllPages, LayoutOk, SpaceOk,
      Filled, AreaBytes, Unmapped, RangePages, Fits;
    ghost var refs, mem, sp := ram.Refs(), ram.mem, WithArea(ms.View(ram), area);
    VacantIsUnmapped(ms.View(ram), area);
    var a;
    o, a := InflatePagetable(area, ms.pageTable, ram, sp);
    if o.Panicked? {
      return;
    }
    if data.Some? {
      FitsBoth(data.value, startVa, area, a);
      CopyData(data.value, a, ms.pageTable, ram, startVa, refs, mem, sp);
    }
    PushArea(ms.Areas(), a);
    AreaFilled(area, a, data, startVa, refs, mem, sp, ram.Refs(), ram.mem, Mapped(sp, a.frameMap, ms.pageTable, ram));
    ms.mapAreas := ms.mapAreas + [a];
    SameRange(area, a);
    assert ms.View(ram) == Mapped(sp, a.frameMap, ms.pageTable, ram);
  }

  lemma FitsBoth(d: Source, startVa: nat, area: VmArea, a: VmArea)
    requires Fits(d, startVa, area) && SameArea(area, a)
    ensures Fits(d, startVa, a)
  {
  }

  lemma SameRange(area: VmArea, a: VmArea)
    requires SameArea(area, a)
    ensures RangePages(a) == RangePages(area)
  {
  }

  // ---------------------------------------------------------------- lazy areas

  const USER_STACK_SIZE: nat := 4096 * 2048

  /** The area of the addresses from `startVa` up to `endVa`, readable and writable by the user. */
  function LazyArea(areaType: AreaType, startVa: nat, endVa: nat): VmArea {
    VmArea(areaType, startVa / PAGE_SIZE, Ceil(endVa), R | W | U, map[])
  }

  /** Pages apart from those of `c` and `d` may join at the end. */
  lemma JoinLater(a: map<nat, Kind>, b: map<nat, Kind>, n: map<nat, Kind>, c: map<nat, Kind>, d: map<nat, Kind>)
    requires n.Keys !! c.Keys && n.Keys !! d.Keys
    ensures a + (b + n) + c + d == a + b + c + d + n
  {
  }

  lemma StackApart(l: Layout, a: VmArea)
    requires LayoutOk(l) && l.stack.start == l.stack.end
    requires AreaOk(a) && a.areaType == UserStack && a.frameMap == map[]
    requires forall v :: a.Contains(v) ==> v !in AllPages(l)
    ensures LayoutOk(l.(stack := a)) && l.stack.frameMap == map[] && RangePages(l.stack) == map[]
  {
    hide VmArea.PageKind, ProtKind, AreaFrames, AreaPages, MmapPages;
    forall v | a.Contains(v)
      ensures !l.heap.Contains(v) && !l.mmap.Contains(v)
      ensures forall i :: 0 <= i < |l.areas| ==> !l.areas[i].Contains(v)
    {
      FramesAt(l, v);
    }
    assert l.stack.frameMap == map[];
    assert RangePages(l.stack) == map[];
  }

  lemma PlaceStack(l: Layout, a: VmArea)
    requires LayoutOk(l) && l.stack.start == l.stack.end
    requires AreaOk(a) && a.areaType == UserStack && a.frameMap == map[]
    requires forall v :: a.Contains(v) ==> v !in AllPages(l)
    ensures var l' := l.(stack := a);
            LayoutOk(l') && TrackedFrames(l') == TrackedFrames(l) && AllPages(l') == AllPages(l) + RangePages(a)
  {
    hide VmArea.PageKind, ProtKind, AreaFrames, AreaPages, MmapPages, LayoutOk;
    StackApart(l, a);
    NewStackPages(l, a);
    JoinLater(AreaPages(l.areas), MmapPages(l.mmap), RangePages(a), map[], RangePages(l.heap));
  }

  /** No page of the new stack is one of the heap. */
  lemma NewStackPages(l: Layout, a: VmArea)
    requires LayoutOk(l) && AreaOk(a) && forall v :: a.Contains(v) ==> v !in AllPages(l)
    ensures RangePages(a).Keys !! RangePages(l.heap).Keys
  {
    hide VmArea.PageKind, ProtKind, AreaFrames, AreaPages, MmapPages, LayoutOk;
    assert forall v :: v in RangePages(l.heap) ==> v in AllPages(l);
  }

  lemma PlaceHeap(l: Layout, a: VmArea)
    requires LayoutOk(l) && l.heap.start == l.heap.end
    requires AreaOk(a) && a.areaType == UserHeap && a.frameMap == map[]
    requires forall v :: a.Contains(v) ==> v !in AllPages(l)
    ensures var l' := l.(heap := a);
            LayoutOk(l') && TrackedFrames(l') == TrackedFrames(l) && AllPages(l') == AllPages(l) + RangePages(a)
  {
    hide VmArea.PageKind, ProtKind, AreaFrames, AreaPages;
    forall v | a.Contains(v)
      ensures !l.stack.Contains(v) && !l.mmap.Contains(v)
      ensures forall i :: 0 <= i < |l.areas| ==> !l.areas[i].Contains(v)
    {
      FramesAt(l, v);
    }
    assert l.heap.frameMap == map[];
    assert RangePages(l.heap) == map[];
  }

  ghost function StackAndHeap(stackTop: nat, heapBottom: nat): map<nat, Kind>
    requires USER_STACK_SIZE <= stackTop
  {
    RangePages(LazyArea(UserStack, stackTop - USER_STACK_SIZE, stackTop))
    + RangePages(LazyArea(UserHeap, heapBottom, heapBottom + USER_HEAP_SIZE))
  }

  /** The end of `load_elf`: the stack and the heap become lazy areas. */
  method PlaceStackAndHeap(ms: MemorySet, ram: Ram, stackTop: nat, heapBottom: nat)
    requires ms.Valid(ram) && stackTop % PAGE_SIZE == 0 && USER_STACK_SIZE <= stackTop
    requires ms.userStackAreas.start == ms.userStackAreas.end && ms.heapAreas.start == ms.heapAreas.end
    requires var stack := LazyArea(UserStack, stackTop - USER_STACK_SIZE, stackTop);
             var heap := LazyArea(UserHeap, heapBottom, heapBottom + USER_HEAP_SIZE);
             Vacant(ms.View(ram), stack) && Vacant(ms.View(ram), heap) && MemoryLayout.Apart(stack, heap)
    modifies ms
    ensures ms.Valid(ram) && ms.Loaded()
    ensures Reserved(old(ms.View(ram)), StackAndHeap(stackTop, heapBottom), ms.View(ram))
  {
    hide TrackedFrames, AllPages, LayoutOk, Meaning, TablesOf, Tree, Partition, RangePages, AreaOk, Apart, StackAndHeap;
    var stack := LazyArea(UserStack, stackTop - USER_STACK_SIZE, stackTop);
    var heap := LazyArea(UserHeap, heapBottom, heapBottom + USER_HEAP_SIZE);
    PlaceBoth(ms.View(ram), ms.Areas(), stackTop, heapBottom);
    ms.userStackStart := stackTop - USER_STACK_SIZE;
    ms.userStackEnd := stackTop;
    ms.userStackAreas := stack;
    ms.heapAreas := heap;
    ms.brk := heapBottom;
    ms.brkStart := heapBottom;
  }

  lemma PlaceBoth(sp: Space, l: Layout, stackTop: nat, heapBottom: nat)
    requires LayoutOk(l) && USER_STACK_SIZE <= stackTop && sp.pages == AllPages(l)
    requires l.stack.start == l.stack.end && l.heap.start == l.heap.end
    requires var stack := LazyArea(UserStack, stackTop - USER_STACK_SIZE, stackTop);
             var heap := LazyArea(UserHeap, heapBottom, heapBottom + USER_HEAP_SIZE);
             Vacant(sp, stack) && Vacant(sp, heap) && MemoryLayout.Apart(stack, heap)
    ensures var stack := LazyArea(UserStack, stackTop - USER_STACK_SIZE, stackTop);
            var heap := LazyArea(UserHeap, heapBottom, heapBottom + USER_HEAP_SIZE);
            var l' := l.(stack := stack, heap := heap);
            && LayoutOk(l') && TrackedFrames(l') == TrackedFrames(l)
            && Reserved(sp, StackAndHeap(stackTop, heapBottom), sp.(pages := AllPages(l')))
  {
    hide LayoutOk, TrackedFrames, AllPages;
    var stack := LazyArea(UserStack, stackTop - USER_STACK_SIZE, stackTop);
    var heap := LazyArea(UserHeap, heapBottom, heapBottom + USER_HEAP_SIZE);
    PlaceStack(l, stack);
    RangeKeys(stack);
    PlaceHeap(l.(stack := stack), heap);
    assert l.(stack := stack).(heap := heap) == l.(stack := stack, heap := heap);
    assert AllPages(l) + RangePages(stack) + RangePages(heap) == AllPages(l) + StackAndHeap(stackTop, heapBottom);
  }

  /** `count` pages from page `first` on. */
  ghost function NewMapping(first: nat, count: nat, prot: Prot): map<nat, Kind> {
    map v: nat | first <= v < first + count && Among(first, count, v) :: ProtKind(prot)
  }

  predicate Among(first: nat, count: nat, v: nat) {
    first <= v < first + count
  }

  lemma PushMapping(l: Layout, pages: map<nat, MmapPage>, first: nat, count: nat, prot: Prot)
    requires LayoutOk(l) && l.mmap.top == first * PAGE_SIZE && first + count <= VPN_LIMIT
    requires forall v :: Among(first, count, v) ==> v !in AllPages(l)
    requires forall v :: v in pages <==> v in l.mmap.pages || Among(first, count, v)
    requires forall v :: v in pages ==> pages[v] == if Among(first, count, v) then MmapPage(false, prot) else l.mmap.pages[v]
    ensures var l' := l.(mmap := l.mmap.(top := (first + count) * PAGE_SIZE, pages := pages));
            LayoutOk(l') && TrackedFrames(l') == TrackedFrames(l) && AllPages(l') == AllPages(l) + NewMapping(first, count, prot)
  {
    hide LayoutOk, TrackedFrames, ProtKind, AreaPages, RangePages;
    var m' := l.mmap.(top := (first + count) * PAGE_SIZE, pages := pages);
    MappingOk(l, pages, first, count, prot);
    assert TrackedFrames(l.(mmap := m')) == TrackedFrames(l) by { SameTrackers(l, m'); }
    assert MmapPages(m') == MmapPages(l.mmap) + NewMapping(first, count, prot);
    RangeKeys(l.stack);
    RangeKeys(l.heap);
    JoinLater(AreaPages(l.areas), MmapPages(l.mmap), NewMapping(first, count, prot), RangePages(l.stack), RangePages(l.heap));
  }

  lemma SameTrackers(l: Layout, m: MmapManager)
    requires m.frameMap == l.mmap.frameMap
    ensures TrackedFrames(l.(mmap := m)) == TrackedFrames(l)
  {
  }

  lemma MappingOk(l: Layout, pages: map<nat, MmapPage>, first: nat, count: nat, prot: Prot)
    requires LayoutOk(l) && l.mmap.top == first * PAGE_SIZE && first + count <= VPN_LIMIT
    requires forall v :: Among(first, count, v) ==> v !in AllPages(l)
    requires forall v :: v in pages <==> v in l.mmap.pages || Among(first, count, v)
    requires forall v :: v in pages ==> pages[v] == if Among(first, count, v) then MmapPage(false, prot) else l.mmap.pages[v]
    ensures LayoutOk(l.(mmap := l.mmap.(top := (first + count) * PAGE_SIZE, pages := pages)))
    ensures forall v :: Among(first, count, v) ==> !l.stack.Contains(v) && !l.heap.Contains(v) && v !in l.mmap.pages
  {
    hide TrackedFrames, AllPages, VmArea.PageKind, ProtKind;
    var m' := l.mmap.(top := (first + count) * PAGE_SIZE, pages := pages);
    forall v | Among(first, count, v)
      ensures !l.stack.Contains(v) && !l.heap.Contains(v) && v !in l.mmap.pages
      ensures forall i :: 0 <= i < |l.areas| ==> !l.areas[i].Contains(v)
    {
      FramesAt(l, v);
    }
    forall v
      ensures m'.Contains(v) <==> l.mmap.Contains(v) || Among(first, count, v)
    {
    }
  }

  lemma RangeKeys(a: VmArea)
    ensures forall v :: v in RangePages(a) <==> a.Contains(v)
  {
  }

  /** Rounding a length up to whole pages. */
  lemma Padded(length: nat, padding: nat)
    requires padding == if length % PAGE_SIZE == 0 then 0 else PAGE_SIZE - length % PAGE_SIZE
    ensures length + padding == Ceil(length) * PAGE_SIZE
  {
  }

  lemma MmapStart(l: Layout)
    requires LayoutOk(l)
    ensures l.mmap.top == l.mmap.top / PAGE_SIZE * PAGE_SIZE
    ensures forall v :: v in l.mmap.pages ==> v < l.mmap.top / PAGE_SIZE
  {
  }

  /** `mmap` of an anonymous mapping without an address: its pages follow the ones mapped before. */
  method MapAnonymous(ms: MemorySet, ram: Ram, length: nat, prot: Prot) returns (start: nat)
    requires ms.Valid(ram) && ms.mmapManager.top / PAGE_SIZE + Ceil(length) <= VPN_LIMIT
    requires forall v :: Among(ms.mmapManager.top / PAGE_SIZE, Ceil(length), v) ==> v !in ms.View(ram).pages && v !in ms.View(ram).pt
    modifies ms`mmapManager
    ensures ms.Valid(ram) && start == old(ms.mmapManager.top)
    ensures Reserved(old(ms.View(ram)), NewMapping(start / PAGE_SIZE, Ceil(length), prot), ms.View(ram))
  {
    hide TrackedFrames, AllPages, LayoutOk, Meaning, TablesOf, Tree, Partition, ProtKind;
    var padding := PAGE_SIZE - length % PAGE_SIZE;
    if padding == PAGE_SIZE {
      padding := 0;
    }
    Padded(length, padding);
    var len := length + padding;
    MmapStart(ms.Areas());
    start := ms.mmapManager.top;
    ghost var m, first, count := ms.mmapManager, start / PAGE_SIZE, Ceil(length);
    var pages: map<nat, MmapPage> := ms.mmapManager.pages;
    var vpn: nat := start / PAGE_SIZE;
    while vpn < Ceil(start + len)
      invariant 0 <= first <= vpn <= Ceil(start + len) == first + count
      invariant forall v :: v in pages <==> v in m.pages || Among(first, vpn - first, v)
      invariant forall v :: v in pages ==> pages[v] == if Among(first, vpn - first, v) then MmapPage(false, prot) else m.pages[v]
    {
      pages := pages[vpn := MmapPage(false, prot)];
      vpn := vpn + 1;
    }
    PushMapping(ms.Areas(), pages, first, count, prot);
    ms.mmapManager := ms.mmapManager.(pages := pages, top := start + len);
  }
}
