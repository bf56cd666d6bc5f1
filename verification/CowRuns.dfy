/** Every run of the memory manager behaves like a machine without sharing.

    The specification machine gives every process its own copy of every page, made at fork.  Page
    faults, lazy allocation and the breaking of sharing are invisible in it. */
module CowRuns {
  import opened LittleEndian
  import opened Sv39
  import opened CowSystem
  import opened CowSteps
  import opened CowFork

  datatype Event =
    // an address space with nothing in it but the fixed mappings
    | Create(p: nat)
    // lazy pages: the heap, the stack, an anonymous mapping
    | Reserve(p: nat, kinds: map<nat, Kind>)
    // pages that get frames with given bytes: a loaded segment, a trap context
    | Fill(p: nat, bytes: map<nat, Page>)
    // page fault on a page that has no frame yet
    | PageIn(p: nat, v: nat)
    // store fault on a COW page
    | CowFault(p: nat, v: nat)
    | Store(p: nat, v: nat, off: nat, b: Byte)
    | Fork(p: nat, c: nat)
    | Exit(p: nat)

  /** A bare address space: some table frames, and only fixed mappings. */
  ghost predicate Bare(refs: map<nat, nat>, mem: Memory, refs': map<nat, nat>, mem': Memory, sp': Space) {
    && sp'.frames == map[] && sp'.pages == map[]
    && (forall v :: v in sp'.pt ==> Fixed(sp', v))
    && (forall t :: t in sp'.tables ==> t in mem)
    && Taken(refs, refs', sp'.tables)
    && Kept(mem, mem', sp'.tables)
  }

  /** A zeroed frame was mapped at a page that had none. */
  ghost predicate PagedIn(refs: map<nat, nat>, mem: Memory, sp: Space, v: nat,
                          refs': map<nat, nat>, mem': Memory, sp': Space) {
    exists f ::
      && Populated(refs, mem, sp, map[v := f], refs', mem', sp')
      && Contents(mem', map[v := f]) == map[v := ZeroPage()]
  }

  /** Frames with the given bytes were mapped at pages that had none. */
  ghost predicate Filled(refs: map<nat, nat>, mem: Memory, sp: Space, bytes: map<nat, Page>,
                         refs': map<nat, nat>, mem': Memory, sp': Space) {
    exists nf ::
      && Populated(refs, mem, sp, nf, refs', mem', sp')
      && Contents(mem', nf) == bytes
  }

  /** `cow_alloc`: the entry is made writable again, or the page gets a copy. */
  ghost predicate CowServed(refs: map<nat, nat>, mem: Memory, sp: Space, v: nat,
                            refs': map<nat, nat>, mem': Memory, sp': Space) {
    || Upgraded(refs, mem, sp, v, refs', mem', sp')
    || exists f :: Broken(refs, mem, sp, v, f, refs', mem', sp')
  }

  /** One step of the kernel, or of the program it runs. */
  ghost predicate Step(s: State, e: Event, s': State) {
    match e
    case Create(p) =>
      && p !in s.spaces && p in s'.spaces
      && s'.spaces == s.spaces[p := s'.spaces[p]]
      && Bare(s.refs, s.mem, s'.refs, s'.mem, s'.spaces[p])
    case Reserve(p, kinds) =>
      && p in s.spaces && p in s'.spaces
      && s' == s.(spaces := s.spaces[p := s'.spaces[p]])
      && Reserved(s.spaces[p], kinds, s'.spaces[p])
    case Fill(p, bytes) =>
      && p in s.spaces && p in s'.spaces
      && s'.spaces == s.spaces[p := s'.spaces[p]]
      && Filled(s.refs, s.mem, s.spaces[p], bytes, s'.refs, s'.mem, s'.spaces[p])
    case PageIn(p, v) =>
      && p in s.spaces && p in s'.spaces
      && s'.spaces == s.spaces[p := s'.spaces[p]]
      && PagedIn(s.refs, s.mem, s.spaces[p], v, s'.refs, s'.mem, s'.spaces[p])
    case CowFault(p, v) =>
      && p in s.spaces && p in s'.spaces
      && s'.spaces == s.spaces[p := s'.spaces[p]]
      && v in s.spaces[p].pt && s.spaces[p].pt[v].IsCow()
      && CowServed(s.refs, s.mem, s.spaces[p], v, s'.refs, s'.mem, s'.spaces[p])
    case Store(p, v, off, b) =>
      && p in s.spaces && p in s'.spaces
      && s'.spaces == s.spaces[p := s'.spaces[p]]
      && Stored(s.refs, s.mem, s.spaces[p], v, off, b, s'.refs, s'.mem, s'.spaces[p])
    case Fork(p, c) =>
      && p in s.spaces && c !in s.spaces && p in s'.spaces && c in s'.spaces
      && s'.spaces == s.spaces[p := s'.spaces[p]][c := s'.spaces[c]]
      && ForkedFrom(s.refs, s.mem, s.spaces[p], s'.refs, s'.mem, s'.spaces[p], s'.spaces[c])
    case Exit(p) =>
      && p in s.spaces
      && s'.spaces == s.spaces - {p}
      && Dropped(s.refs, s.mem, s.spaces[p], s'.refs, s'.mem)
  }

  /** The memory manager adds W whatever the area allows, so COW faults are only raised on writable areas. */
  ghost predicate Permitted(s: State, e: Event) {
    e.CowFault? && e.p in s.spaces ==>
      e.v in s.spaces[e.p].pages && s.spaces[e.p].pages[e.v].writable
  }

  /** The same step of the machine in which nothing is shared. */
  ghost function EagerStep(m: Eager, e: Event): Eager {
    match e
    case Create(p) => m[p := map[]]
    case Reserve(p, kinds) => if p in m then m[p := m[p] + map v: nat | v in kinds :: ZeroPage()] else m
    case Fill(p, bytes) => if p in m then m[p := m[p] + bytes] else m
    case PageIn(p, v) => m
    case CowFault(p, v) => m
    case Store(p, v, off, b) =>
      if p in m && v in m[p] && off < PAGE_SIZE then
        var page: Page := m[p][v][off := b];
        var pages: map<nat, Page> := m[p][v := page];
        m[p := pages]
      else m
    case Fork(p, c) => if p in m then m[c := m[p]] else m
    case Exit(p) => m - {p}
  }

  /** Making a COW page writable again is right if and only if its area may be written: on a read-only
      page the entry ends up writable all the same, which breaks the invariant. */
  lemma CowFaultRightIff(s: State, p: nat, v: nat, s': State)
    requires Inv(s) && Step(s, CowFault(p, v), s')
    ensures v in s.spaces[p].pages
    ensures v in s'.spaces[p].pt && s'.spaces[p].pt[v].Writable()
    ensures Inv(s') <==> s.spaces[p].pages[v].writable
  {
    hide Exact, Pte.IsCow, Pte.Writable, Pte.Valid, Unprotect, Adopt, Kept;
    CowPageKind(s, p, v, s');
    var e := s.spaces[p].pt[v];
    UpgradedFlags(e);
    forall f
      ensures Adopt(e, f).Writable()
    {
      BrokenFlags(e, f);
    }
    if s.spaces[p].pages[v].writable {
      CowFaultRefines(s, p, v, s');
    } else {
      assert !PageOk(s'.refs, s'.mem, s'.spaces[p], v);
    }
  }

  // ---------------------------------------------------------------- one step

  lemma CreateRefines(s: State, p: nat, s': State)
    requires Inv(s) && Step(s, Create(p), s')
    ensures Inv(s') && Abstract(s') == EagerStep(Abstract(s), Create(p))
  {
    hide Exact, Fixed, Pte.Writable, Pte.IsCow, Pte.Valid, Mine, Abstract;
    PositiveCounts(s.refs, s.spaces);
    var sp' := s'.spaces[p];
    forall f
      ensures Count(EMPTY, f) == 0
      ensures Count(sp', f) == if f in sp'.tables then 1 else 0
    {
      EmptyCount(f);
      assert Mine(sp', f) == {} by { NoMine(sp', f); }
    }
    EffectStep(s, p, s'.refs, s'.mem, sp', map[]);
  }

  lemma NoMine(sp: Space, f: nat)
    requires sp.frames == map[]
    ensures Mine(sp, f) == {}
  {
  }

  lemma PageInRefines(s: State, p: nat, v: nat, s': State)
    requires Inv(s) && Step(s, PageIn(p, v), s')
    ensures Inv(s') && Abstract(s') == EagerStep(Abstract(s), PageIn(p, v))
  {
    hide Exact, Populated, Effect, SpaceOk, Contents, Bytes;
    PositiveCounts(s.refs, s.spaces);
    var sp, sp' := s.spaces[p], s'.spaces[p];
    var f :| Populated(s.refs, s.mem, sp, map[v := f], s'.refs, s'.mem, sp') && Contents(s'.mem, map[v := f]) == map[v := ZeroPage()];
    PopulatedEffect(s.refs, s.mem, sp, map[v := f], s'.refs, s'.mem, sp');
    EffectStep(s, p, s'.refs, s'.mem, sp', Bytes(s.mem, sp) + map[v := ZeroPage()]);
    UntouchedIsZero(s.refs, s.mem, sp, map[v := f], s'.refs, s'.mem, sp', v);
    assert Abstract(s)[p] == Bytes(s.mem, sp);
  }

  lemma UntouchedIsZero(refs: map<nat, nat>, mem: Memory, sp: Space, nf: map<nat, nat>,
                        refs': map<nat, nat>, mem': Memory, sp': Space, v: nat)
    requires Populated(refs, mem, sp, nf, refs', mem', sp') && v in nf
    ensures Bytes(mem, sp) + map[v := ZeroPage()] == Bytes(mem, sp)
  {
    assert View(mem, sp, v) == ZeroPage();
  }

  lemma FillRefines(s: State, p: nat, bytes: map<nat, Page>, s': State)
    requires Inv(s) && Step(s, Fill(p, bytes), s')
    ensures Inv(s') && Abstract(s') == EagerStep(Abstract(s), Fill(p, bytes))
  {
    hide Exact, Populated, Effect, SpaceOk, Contents, Bytes;
    PositiveCounts(s.refs, s.spaces);
    var sp, sp' := s.spaces[p], s'.spaces[p];
    var nf :| Populated(s.refs, s.mem, sp, nf, s'.refs, s'.mem, sp') && Contents(s'.mem, nf) == bytes;
    PopulatedEffect(s.refs, s.mem, sp, nf, s'.refs, s'.mem, sp');
    EffectStep(s, p, s'.refs, s'.mem, sp', Bytes(s.mem, sp) + bytes);
  }

  lemma CowFaultRefines(s: State, p: nat, v: nat, s': State)
    requires Inv(s) && Step(s, CowFault(p, v), s') && Permitted(s, CowFault(p, v))
    ensures Inv(s') && Abstract(s') == EagerStep(Abstract(s), CowFault(p, v))
  {
    hide Exact, Upgraded, Broken, Effect, Bytes, Pte.IsCow, Pte.Writable, Pte.Valid;
    PositiveCounts(s.refs, s.spaces);
    var sp, sp' := s.spaces[p], s'.spaces[p];
    CowPageKind(s, p, v, s');
    if Upgraded(s.refs, s.mem, sp, v, s'.refs, s'.mem, sp') {
      UpgradedEffect(s.refs, s.mem, sp, v, s'.refs, s'.mem, sp');
    } else {
      var f :| Broken(s.refs, s.mem, sp, v, f, s'.refs, s'.mem, sp');
      BrokenEffect(s.refs, s.mem, sp, v, f, s'.refs, s'.mem, sp');
    }
    EffectStep(s, p, s'.refs, s'.mem, sp', Bytes(s.mem, sp));
    assert Abstract(s)[p] == Bytes(s.mem, sp);
  }

  /** COW pages with a frame are never trap contexts. */
  lemma CowPageKind(s: State, p: nat, v: nat, s': State)
    requires Inv(s) && Step(s, CowFault(p, v), s')
    ensures v in s.spaces[p].frames && v in s.spaces[p].pages && !s.spaces[p].pages[v].trap
  {
    hide Exact, Pte.IsCow, Pte.Writable, Pte.Valid;
    var sp := s.spaces[p];
    assert v in sp.frames;
    assert PageOk(s.refs, s.mem, sp, v);
  }

  lemma StoreRefines(s: State, p: nat, v: nat, off: nat, b: Byte, s': State)
    requires Inv(s) && Step(s, Store(p, v, off, b), s')
    ensures Inv(s') && Abstract(s') == EagerStep(Abstract(s), Store(p, v, off, b))
  {
    hide Exact, Effect, Bytes, Bounded, SpaceOk;
    PositiveCounts(s.refs, s.spaces);
    BoundedAt(s, p);
    var sp := s.spaces[p];
    StoredEffect(s.refs, s.mem, sp, v, off, b, s'.refs, s'.mem, s'.spaces[p]);
    EffectStep(s, p, s'.refs, s'.mem, s'.spaces[p], Bytes(s.mem, sp)[v := Bytes(s.mem, sp)[v][off := b]]);
    assert Abstract(s)[p] == Bytes(s.mem, sp);
  }

  lemma ReserveRefines(s: State, p: nat, kinds: map<nat, Kind>, s': State)
    requires Inv(s) && Step(s, Reserve(p, kinds), s')
    ensures Inv(s') && Abstract(s') == EagerStep(Abstract(s), Reserve(p, kinds))
  {
    hide Exact, Effect, Bytes, SpaceOk, Reserved;
    PositiveCounts(s.refs, s.spaces);
    ReservedEffect(s.refs, s.mem, s.spaces[p], kinds, s'.spaces[p]);
    EffectStep(s, p, s'.refs, s'.mem, s'.spaces[p], Bytes(s.mem, s.spaces[p]) + map v: nat | v in kinds :: ZeroPage());
    assert Abstract(s)[p] == Bytes(s.mem, s.spaces[p]);
  }

  /** Each step keeps the sharing invariant and is the corresponding step of the eager machine. */
  lemma StepRefines(s: State, e: Event, s': State)
    requires Inv(s) && Step(s, e, s') && Permitted(s, e)
    ensures Inv(s')
    ensures Abstract(s') == EagerStep(Abstract(s), e)
  {
    hide Inv, Abstract, Populated, Contents, ForkedFrom, Dropped, Stored, CowServed, Bare, Reserved, Pte.IsCow;
    match e
    case Create(p) => CreateRefines(s, p, s');
    case Reserve(p, kinds) => ReserveRefines(s, p, kinds, s');
    case Fill(p, bytes) => FillRefines(s, p, bytes, s');
    case PageIn(p, v) => PageInRefines(s, p, v, s');
    case CowFault(p, v) => CowFaultRefines(s, p, v, s');
    case Store(p, v, off, b) => StoreRefines(s, p, v, off, b, s');
    case Fork(p, c) =>
      ForkStep(s, p, c, s'.refs, s'.mem, s'.spaces[p], s'.spaces[c]);
      AbstractHas(s, p);
    case Exit(p) => ExitStep(s, p, s'.refs, s'.mem);
  }

  lemma AbstractHas(s: State, p: nat)
    requires p in s.spaces
    ensures p in Abstract(s)
  {
  }

  // ---------------------------------------------------------------- runs

  ghost function EagerRun(m: Eager, es: seq<Event>): Eager
    decreases |es|
  {
    if es == [] then m else EagerRun(EagerStep(m, es[0]), es[1..])
  }

  /** `states` is a run of the kernel over the events `es`. */
  ghost predicate IsRun(states: seq<State>, es: seq<Event>) {
    && |states| == |es| + 1
    && (forall i :: 0 <= i < |es| ==> Step(states[i], es[i], states[i + 1]) && Permitted(states[i], es[i]))
  }

  /** Over every run, from any state in order, each process reads exactly the bytes it would read if every
      fork had copied all pages. */
  lemma {:induction false} CowRefinesEagerCopy(states: seq<State>, es: seq<Event>)
    requires IsRun(states, es) && Inv(states[0])
    ensures Inv(states[|es|])
    ensures Abstract(states[|es|]) == EagerRun(Abstract(states[0]), es)
    decreases |es|
  {
    hide Inv, Abstract, Step, EagerStep, Permitted;
    if es != [] {
      StepRefines(states[0], es[0], states[1]);
      CowRefinesEagerCopy(states[1..], es[1..]);
    }
  }

  /** A run over `es` leads from `s` to `s'`, and the machine without sharing keeps up with it. */
  ghost predicate Ran(s: State, es: seq<Event>, s': State) {
    && (exists states :: IsRun(states, es) && states[0] == s && states[|es|] == s')
    && Abstract(s') == EagerRun(Abstract(s), es)
  }

  /** A run of one event is one step. */
  lemma RanOnce(s: State, e: Event, s': State)
    ensures Ran(s, [e], s') <==> Step(s, e, s') && Permitted(s, e) && Abstract(s') == EagerStep(Abstract(s), e)
  {
    hide Step, Permitted, Abstract, EagerStep;
    assert EagerRun(Abstract(s), [e]) == EagerStep(Abstract(s), e);
    if Step(s, e, s') && Permitted(s, e) {
      assert IsRun([s, s'], [e]);
    }
  }

  /** Runs go on from where others ended. */
  lemma RanOn(s: State, es: seq<Event>, s1: State, fs: seq<Event>, s2: State)
    requires Ran(s, es, s1) && Ran(s1, fs, s2)
    ensures Ran(s, es + fs, s2)
  {
    hide Step, Permitted, Abstract, EagerStep;
    var a :| IsRun(a, es) && a[0] == s && a[|es|] == s1;
    var b :| IsRun(b, fs) && b[0] == s1 && b[|fs|] == s2;
    var c := a[..|es|] + b;
    forall i | 0 <= i < |es + fs|
      ensures Step(c[i], (es + fs)[i], c[i + 1]) && Permitted(c[i], (es + fs)[i])
    {
      if i < |es| {
        assert c[i] == a[i] && c[i + 1] == a[i + 1];
      } else {
        assert c[i] == b[i - |es|] && c[i + 1] == b[i + 1 - |es|];
      }
    }
    assert IsRun(c, es + fs) && c[0] == s && c[|es + fs|] == s2;
    EagerRunOn(Abstract(s), es, fs);
  }

  lemma {:induction false} EagerRunOn(m: Eager, es: seq<Event>, fs: seq<Event>)
    ensures EagerRun(m, es + fs) == EagerRun(EagerRun(m, es), fs)
    decreases |es|
  {
    hide EagerStep;
    if es == [] {
      assert es + fs == fs;
    } else {
      assert (es + fs)[1..] == es[1..] + fs;
      EagerRunOn(EagerStep(m, es[0]), es[1..], fs);
    }
  }

  /** From a state in order any run keeps up with the machine without sharing, and ends in order. */
  lemma RanIff(s: State, es: seq<Event>, s': State)
    requires Inv(s)
    ensures Ran(s, es, s') <==> exists states :: IsRun(states, es) && states[0] == s && states[|es|] == s'
    ensures Ran(s, es, s') ==> Inv(s')
  {
    hide Step, Permitted, EagerStep, Inv, Abstract;
    forall states | IsRun(states, es) && states[0] == s && states[|es|] == s'
      ensures Inv(s') && Abstract(s') == EagerRun(Abstract(s), es)
    {
      CowRefinesEagerCopy(states, es);
    }
  }

  /** The machine right after boot, with all frames free. */
  lemma BootState(mem: Memory)
    ensures Inv(State(map[], mem, map[])) && Abstract(State(map[], mem, map[])) == map[]
  {
  }

  /** In every reachable state a page that may be written lies in a frame no other mapping shows. */
  lemma WritableIsPrivate(states: seq<State>, es: seq<Event>, p: nat, v: nat, q: nat, u: nat)
    requires IsRun(states, es) && Inv(states[0])
    requires var s := states[|es|];
             && p in s.spaces && v in s.spaces[p].frames && v in s.spaces[p].pt && s.spaces[p].pt[v].Writable()
             && q in s.spaces && u in s.spaces[q].frames && u in s.spaces[q].pt
             && s.spaces[q].pt[u].ppn == s.spaces[p].pt[v].ppn
    ensures p == q && u == v
    ensures states[|es|].spaces[p].frames[v] in states[|es|].refs && states[|es|].refs[states[|es|].spaces[p].frames[v]] == 1
  {
    hide Exact, Mine, Count, Pte.Writable, Pte.IsCow, Pte.Valid, Step, Abstract;
    CowRefinesEagerCopy(states, es);
    var s := states[|es|];
    assert PageOk(s.refs, s.mem, s.spaces[p], v);
    assert PageOk(s.refs, s.mem, s.spaces[q], u);
    Holds(s.spaces[p], v);
    Holds(s.spaces[q], u);
    if p != q {
      SingleHolder(s.refs, s.spaces, p, q, s.spaces[p].frames[v]);
    } else {
      BoundedAt(s, p);
      OnePage(s.refs, s.spaces[p], u, v);
    }
  }
}
