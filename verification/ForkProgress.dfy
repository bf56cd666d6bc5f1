/** How far the loops of `from_copy_on_write` have come, and what each of their turns adds. */
module ForkProgress {
  import opened Sequences
  import opened Sv39
  import opened CowSystem
  import opened CowSteps
  import opened CowFork

  /** Where fork started: the machine, the parent, and the fixed mappings of the bare child. */
  datatype Start = Start(refs: map<nat, nat>, mem: Memory, par: Space, fixed: map<nat, Pte>)

  /** Where it is now: the machine, the meaning of both page tables, the child's table frames and trackers,
      and the trap-context pages copied so far. */
  datatype Now = Now(refs: map<nat, nat>, mem: Memory, ppt: map<nat, Pte>, cpt: map<nat, Pte>,
                     tables: set<nat>, frames: map<nat, nat>, mapped: set<nat>, copied: set<nat>)

  ghost function SharedIn(par: Space, f: nat, d: set<nat>): set<nat> {
    set v | v in d && Shared(par, v) && par.frames[v] == f
  }

  ghost predicate IsTrap(par: Space, v: nat) {
    v in par.frames && v in par.pages && par.pages[v].trap
  }

  ghost function OwnOf(par: Space, frames: map<nat, nat>): map<nat, nat> {
    map v | v in frames && !Shared(par, v) :: frames[v]
  }

  ghost predicate StartOk(a: Start) {
    && (forall v :: v in a.par.frames ==>
          && v in a.par.pages && v in a.par.pt && a.par.pt[v].ppn == a.par.frames[v]
          && a.par.frames[v] in a.mem && a.par.frames[v] in a.refs)
    && (forall v :: v in a.par.frames ==> a.par.frames[v] !in a.par.tables)
    && (forall t :: t in a.par.tables ==> t in a.mem && t in a.refs)
    && (forall v :: v in a.fixed ==> v !in a.par.pages && !a.fixed[v].Writable() && !a.fixed[v].IsCow())
  }

  /** Page `v` of the child's table. */
  ghost predicate EntryOk(a: Start, n: Now, v: nat) {
    && v in a.par.frames && v in a.par.pt && v in n.cpt && v in a.par.pages
    && (if Shared(a.par, v) then
          n.cpt[v] == Protect(a.par.pt[v])
        else
          v in n.frames && n.cpt[v].ppn == n.frames[v] && FreshFlags(a.par.pages[v], n.cpt[v].flags))
  }

  /** Page `v` of the child's trackers. */
  ghost predicate TrackerOk(a: Start, n: Now, v: nat)
    requires v in n.frames
  {
    && v in a.par.frames
    && (if Shared(a.par, v) then
          n.frames[v] == a.par.frames[v]
        else
          n.frames[v] in a.mem && n.frames[v] !in a.refs && n.frames[v] !in n.tables)
  }

  ghost predicate CountsOk(a: Start, n: Now) {
    && (forall f :: f in n.refs <==> f in a.refs || f in n.tables || f in OwnOf(a.par, n.frames).Values)
    && (forall f :: f in n.refs ==>
          n.refs[f] == if f in a.refs then a.refs[f] + |SharedIn(a.par, f, n.frames.Keys)| else 1)
  }

  ghost function ParentTable(a: Start, mapped: set<nat>): map<nat, Pte> {
    map v | v in a.par.pt :: if v in mapped && Shared(a.par, v) then Protect(a.par.pt[v]) else a.par.pt[v]
  }

  ghost predicate EntriesOk(a: Start, n: Now) {
    && n.ppt == ParentTable(a, n.mapped)
    && n.cpt.Keys == a.fixed.Keys + n.mapped
    && (forall v :: v in a.fixed ==> n.cpt[v] == a.fixed[v])
    && (forall v :: v in n.mapped ==> EntryOk(a, n, v))
  }

  ghost predicate TrackersOk(a: Start, n: Now) {
    && (forall v :: v in n.frames ==> TrackerOk(a, n, v))
    && Injective(OwnOf(a.par, n.frames))
    && (forall t :: t in n.tables ==> t in a.mem && t !in a.refs)
  }

  ghost predicate BytesKept(a: Start, n: Now) {
    Kept(a.mem, n.mem, a.par.tables + n.tables + OwnOf(a.par, n.frames).Values)
  }

  ghost predicate CopiesOk(a: Start, n: Now) {
    forall v :: v in n.copied ==>
      v in a.par.frames && v in n.frames && n.frames[v] in n.mem && a.par.frames[v] in a.mem
      && n.mem[n.frames[v]] == a.mem[a.par.frames[v]]
  }

  ghost predicate Progress(a: Start, n: Now) {
    EntriesOk(a, n) && TrackersOk(a, n) && BytesKept(a, n) && CountsOk(a, n) && CopiesOk(a, n)
  }

  /** The child's table frames grew from `n.tables` to `tables` while only they and the parent's table frames
      were written. */
  ghost predicate Spread(a: Start, n: Now, refs: map<nat, nat>, mem: Memory, tables: set<nat>) {
    && n.tables <= tables
    && (forall t :: t in tables && t !in n.tables ==> t !in n.refs && t in a.mem)
    && (forall f :: f in refs <==> f in n.refs || f in tables)
    && (forall f :: f in refs ==> refs[f] == if f in n.refs then n.refs[f] else 1)
    && Kept(n.mem, mem, a.par.tables + tables)
  }

  // ---------------------------------------------------------------- frames of the child

  /** The child's own frames are new, and no table lies in one. */
  lemma OwnApart(a: Start, n: Now)
    requires TrackersOk(a, n) && CountsOk(a, n)
    ensures forall v :: v in OwnOf(a.par, n.frames) ==>
              OwnOf(a.par, n.frames)[v] in n.refs && OwnOf(a.par, n.frames)[v] !in n.tables && OwnOf(a.par, n.frames)[v] !in a.refs
  {
    hide SharedIn, Injective;
    forall v | v in OwnOf(a.par, n.frames)
      ensures OwnOf(a.par, n.frames)[v] in n.refs && OwnOf(a.par, n.frames)[v] !in n.tables && OwnOf(a.par, n.frames)[v] !in a.refs
    {
      assert TrackerOk(a, n, v);
    }
  }

  lemma FramesCounted(a: Start, n: Now)
    requires StartOk(a) && TrackersOk(a, n) && CountsOk(a, n)
    ensures forall v :: v in n.frames ==> n.frames[v] in n.refs && n.frames[v] !in n.tables && n.frames[v] !in a.par.tables
  {
    hide SharedIn, Injective, Pte.Writable, Pte.IsCow;
    forall v | v in n.frames
      ensures n.frames[v] in n.refs && n.frames[v] !in n.tables && n.frames[v] !in a.par.tables
    {
      assert TrackerOk(a, n, v);
      if !Shared(a.par, v) {
        assert v in OwnOf(a.par, n.frames);
      }
    }
  }

  lemma OwnValues(par: Space, frames: map<nat, nat>, v: nat, f: nat)
    requires v !in frames
    ensures Shared(par, v) ==> OwnOf(par, frames[v := f]) == OwnOf(par, frames)
    ensures !Shared(par, v) ==> OwnOf(par, frames[v := f]) == OwnOf(par, frames)[v := f]
    ensures !Shared(par, v) ==> OwnOf(par, frames[v := f]).Values == OwnOf(par, frames).Values + {f}
  {
    hide Shared;
    var own, own' := OwnOf(par, frames), OwnOf(par, frames[v := f]);
    if !Shared(par, v) {
      assert own' == own[v := f];
      assert own'[v] == f;
      forall g | g in own.Values
        ensures g in own'.Values
      {
        var u :| u in own && own[u] == g;
        assert own'[u] == g;
      }
    }
  }

  // ---------------------------------------------------------------- growing tables

  lemma SpreadTrackers(a: Start, n: Now, n': Now)
    requires TrackersOk(a, n) && CountsOk(a, n) && Spread(a, n, n'.refs, n'.mem, n'.tables)
    requires n'.frames == n.frames
    ensures TrackersOk(a, n')
  {
    hide Injective, SharedIn, Shared, Kept;
    OwnApart(a, n);
    forall v | v in n'.frames
      ensures TrackerOk(a, n', v)
    {
      assert TrackerOk(a, n, v);
      if !Shared(a.par, v) {
        assert OwnOf(a.par, n.frames)[v] == n.frames[v];
      }
    }
  }

  lemma SpreadCounts(a: Start, n: Now, n': Now)
    requires CountsOk(a, n) && Spread(a, n, n'.refs, n'.mem, n'.tables)
    requires n'.frames == n.frames
    ensures CountsOk(a, n')
  {
    hide SharedIn, OwnOf, Kept;
  }

  lemma SpreadBytes(a: Start, n: Now, n': Now)
    requires BytesKept(a, n) && Spread(a, n, n'.refs, n'.mem, n'.tables)
    requires n'.frames == n.frames
    ensures BytesKept(a, n')
  {
    hide OwnOf;
  }

  lemma SpreadCopies(a: Start, n: Now, n': Now)
    requires StartOk(a) && TrackersOk(a, n) && CountsOk(a, n) && CopiesOk(a, n) && Spread(a, n, n'.refs, n'.mem, n'.tables)
    requires n'.frames == n.frames && n'.copied == n.copied
    ensures CopiesOk(a, n')
  {
    hide TrackersOk, CountsOk, StartOk;
    FramesCounted(a, n);
  }

  lemma SameEntry(a: Start, n: Now, n': Now, u: nat)
    requires EntryOk(a, n, u)
    requires u in n'.cpt && n'.cpt[u] == n.cpt[u]
    requires u in n.frames ==> u in n'.frames && n'.frames[u] == n.frames[u]
    ensures EntryOk(a, n', u)
  {
    hide Protect, FreshFlags, Shared;
  }

  // ---------------------------------------------------------------- turns

  lemma SharedFacts(a: Start, v: nat)
    requires StartOk(a) && Shared(a.par, v)
    ensures v in a.par.frames && v in a.par.pt && v in a.par.pages && v !in a.fixed
    ensures a.par.frames[v] in a.refs
  {
    hide Pte.Writable, Pte.IsCow;
  }

  /** A shared page was protected on both sides. */
  lemma ShareTurn(a: Start, n: Now, v: nat, n': Now)
    requires StartOk(a) && Progress(a, n) && Spread(a, n, n'.refs, n'.mem, n'.tables)
    requires Shared(a.par, v) && v !in n.mapped && v in n.ppt
    requires n' == n.(refs := n'.refs, mem := n'.mem, tables := n'.tables, mapped := n.mapped + {v},
                      ppt := n.ppt[v := Protect(n.ppt[v])], cpt := n.cpt[v := Protect(n.ppt[v])])
    ensures Progress(a, n')
  {
    hide StartOk, TrackersOk, CountsOk, BytesKept, CopiesOk, Spread, EntryOk, Protect, Shared;
    SpreadTrackers(a, n, n');
    SpreadCounts(a, n, n');
    SpreadBytes(a, n, n');
    SpreadCopies(a, n, n');
    SharedFacts(a, v);
    assert n.ppt[v] == a.par.pt[v];
    assert n'.ppt == ParentTable(a, n'.mapped);
    forall u | u in n'.mapped
      ensures EntryOk(a, n', u)
    {
      if u != v {
        assert EntryOk(a, n, u);
        SameEntry(a, n, n', u);
      } else {
        NewSharedEntry(a, n', v);
      }
    }
  }

  lemma NewSharedEntry(a: Start, n: Now, v: nat)
    requires StartOk(a) && Shared(a.par, v) && v in a.par.pt
    requires v in n.cpt && n.cpt[v] == Protect(a.par.pt[v])
    ensures EntryOk(a, n, v)
  {
    hide Protect;
  }

  /** The tracker of a shared page was cloned. */
  lemma CloneTurn(a: Start, n: Now, v: nat)
    requires StartOk(a) && Progress(a, n)
    requires Shared(a.par, v) && v !in n.frames
    ensures var f := a.par.frames[v];
            f in n.refs && Progress(a, n.(refs := n.refs[f := n.refs[f] + 1], frames := n.frames[v := f]))
  {
    hide StartOk, Shared, CountsOk, EntryOk, ParentTable, Kept, Protect, Injective, TrackerOk;
    SharedFacts(a, v);
    CloneCounts(a, n, v);
    var f := a.par.frames[v];
    var n' := n.(refs := n.refs[f := n.refs[f] + 1], frames := n.frames[v := f]);
    OwnValues(a.par, n.frames, v, f);
    forall u | u in n'.mapped
      ensures EntryOk(a, n', u)
    {
      assert EntryOk(a, n, u);
      SameEntry(a, n, n', u);
    }
    forall u | u in n'.frames
      ensures TrackerOk(a, n', u)
    {
      if u != v {
        assert TrackerOk(a, n, u);
        SameTracker(a, n, n', u);
      } else {
        NewSharedTracker(a, n', v);
      }
    }
  }

  lemma SameTracker(a: Start, n: Now, n': Now, u: nat)
    requires u in n.frames && TrackerOk(a, n, u)
    requires u in n'.frames && n'.frames[u] == n.frames[u] && n'.tables == n.tables
    ensures TrackerOk(a, n', u)
  {
    hide Shared;
  }

  lemma NewSharedTracker(a: Start, n: Now, v: nat)
    requires Shared(a.par, v) && v in n.frames && n.frames[v] == a.par.frames[v]
    ensures TrackerOk(a, n, v)
  {
  }

  lemma CloneShared(par: Space, frames: map<nat, nat>, v: nat, g: nat)
    requires v !in frames
    ensures var d' := SharedIn(par, g, frames[v := g].Keys);
            |d'| == |SharedIn(par, g, frames.Keys)| + (if Shared(par, v) && par.frames[v] == g then 1 else 0)
  {
    var d, d' := SharedIn(par, g, frames.Keys), SharedIn(par, g, frames[v := g].Keys);
    if Shared(par, v) && par.frames[v] == g {
      assert d' == d + {v};
    } else {
      assert d' == d;
    }
  }

  lemma CloneCounts(a: Start, n: Now, v: nat)
    requires StartOk(a) && CountsOk(a, n)
    requires Shared(a.par, v) && v !in n.frames
    ensures var f := a.par.frames[v];
            f in n.refs && CountsOk(a, n.(refs := n.refs[f := n.refs[f] + 1], frames := n.frames[v := f]))
  {
    hide StartOk, SharedIn;
    SharedFacts(a, v);
    var f := a.par.frames[v];
    var frames' := n.frames[v := f];
    OwnValues(a.par, n.frames, v, f);
    forall g
      ensures |SharedIn(a.par, g, frames'.Keys)| == |SharedIn(a.par, g, n.frames.Keys)| + (if g == f then 1 else 0)
    {
      CloneShared(a.par, n.frames, v, g);
      assert n.frames[v := g].Keys == frames'.Keys;
    }
  }

  /** The counts of shared frames never pass what fork ends with. */
  lemma RoomToClone(a: Start, n: Now, v: nat)
    requires StartOk(a) && CountsOk(a, n)
    requires Shared(a.par, v) && v !in n.frames
    ensures var f := a.par.frames[v];
            f in n.refs && f in a.refs && n.refs[f] < a.refs[f] + |SharedMine(a.par, f)|
  {
    hide StartOk, OwnOf;
    SharedFacts(a, v);
    var f := a.par.frames[v];
    var done := SharedIn(a.par, f, n.frames.Keys);
    assert done + {v} <= SharedMine(a.par, f);
    SubsetSize(done + {v}, SharedMine(a.par, f));
    assert |done + {v}| == |done| + 1;
  }

  /** A trap-context page got a frame of its own: the frame was taken, then the tables grew. */
  lemma TrapTurn(a: Start, n: Now, v: nat, f: nat, flags: Flags, n': Now)
    requires StartOk(a) && Progress(a, n)
    requires IsTrap(a.par, v) && v !in n.mapped && v !in n.frames
    requires f in a.mem && f !in n.refs && FreshFlags(a.par.pages[v], flags)
    requires Spread(a, n.(refs := n.refs[f := 1], mem := n.mem[f := ZeroPage()]), n'.refs, n'.mem, n'.tables)
    requires n' == n.(refs := n'.refs, mem := n'.mem, tables := n'.tables, mapped := n.mapped + {v},
                      cpt := n.cpt[v := Pte(f, flags)], frames := n.frames[v := f])
    ensures Progress(a, n')
  {
    hide StartOk, TrackersOk, CountsOk, BytesKept, CopiesOk, EntriesOk, Spread, FreshFlags;
    var n1 := n.(refs := n.refs[f := 1], mem := n.mem[f := ZeroPage()], frames := n.frames[v := f]);
    TakeCounts(a, n, v, f, n1);
    TakeTrackers(a, n, v, f, n1);
    TakeBytes(a, n, v, f, n1);
    TakeCopies(a, n, v, f, n1);
    SpreadSame(a, n.(refs := n.refs[f := 1], mem := n.mem[f := ZeroPage()]), n1, n');
    SpreadTrackers(a, n1, n');
    SpreadCounts(a, n1, n');
    SpreadBytes(a, n1, n');
    SpreadCopies(a, n1, n');
    TrapEntries(a, n, v, f, flags, n');
  }

  /** Growing the tables does not depend on the trackers. */
  lemma SpreadSame(a: Start, n: Now, n1: Now, n': Now)
    requires Spread(a, n, n'.refs, n'.mem, n'.tables)
    requires n1 == n.(frames := n1.frames)
    ensures Spread(a, n1, n'.refs, n'.mem, n'.tables)
  {
    hide Kept;
  }

  lemma TrapEntries(a: Start, n: Now, v: nat, f: nat, flags: Flags, n': Now)
    requires StartOk(a) && EntriesOk(a, n)
    requires IsTrap(a.par, v) && v !in n.mapped && v !in n.frames
    requires FreshFlags(a.par.pages[v], flags)
    requires n' == n.(refs := n'.refs, mem := n'.mem, tables := n'.tables, mapped := n.mapped + {v},
                      cpt := n.cpt[v := Pte(f, flags)], frames := n.frames[v := f])
    ensures EntriesOk(a, n')
  {
    hide EntryOk, FreshFlags, Protect, Pte.Writable, Pte.IsCow;
    assert ParentTable(a, n'.mapped) == ParentTable(a, n.mapped);
    forall u | u in n'.mapped
      ensures EntryOk(a, n', u)
    {
      if u != v {
        assert EntryOk(a, n, u);
        SameEntry(a, n, n', u);
      } else {
        NewTrapEntry(a, n', v, f, flags);
      }
    }
  }

  lemma NewTrapEntry(a: Start, n: Now, v: nat, f: nat, flags: Flags)
    requires StartOk(a) && IsTrap(a.par, v) && FreshFlags(a.par.pages[v], flags)
    requires v in n.cpt && n.cpt[v] == Pte(f, flags) && v in n.frames && n.frames[v] == f
    ensures EntryOk(a, n, v)
  {
    hide FreshFlags, Pte.Writable, Pte.IsCow;
  }

  lemma TakeCounts(a: Start, n: Now, v: nat, f: nat, n1: Now)
    requires CountsOk(a, n) && IsTrap(a.par, v) && v !in n.frames && f !in n.refs
    requires n1 == n.(refs := n.refs[f := 1], mem := n1.mem, frames := n.frames[v := f])
    ensures CountsOk(a, n1)
  {
    hide SharedIn;
    OwnValues(a.par, n.frames, v, f);
    forall g
      ensures |SharedIn(a.par, g, n1.frames.Keys)| == |SharedIn(a.par, g, n.frames.Keys)|
    {
      CloneShared(a.par, n.frames, v, g);
      assert n.frames[v := g].Keys == n1.frames.Keys;
    }
  }

  lemma TakeTrackers(a: Start, n: Now, v: nat, f: nat, n1: Now)
    requires StartOk(a) && TrackersOk(a, n) && CountsOk(a, n) && IsTrap(a.par, v) && v !in n.frames && f !in n.refs && f in a.mem
    requires n1 == n.(refs := n1.refs, mem := n1.mem, frames := n.frames[v := f])
    ensures TrackersOk(a, n1)
  {
    hide SharedIn, StartOk;
    OwnApart(a, n);
    OwnValues(a.par, n.frames, v, f);
    forall u | u in n1.frames
      ensures TrackerOk(a, n1, u)
    {
      if u != v {
        assert TrackerOk(a, n, u);
        SameTracker(a, n, n1, u);
      }
    }
    InjectiveWith(OwnOf(a.par, n.frames), v, f);
  }

  lemma InjectiveWith(m: map<nat, nat>, v: nat, f: nat)
    requires Injective(m) && v !in m && (forall u :: u in m ==> m[u] != f)
    ensures Injective(m[v := f])
  {
  }

  lemma TakeBytes(a: Start, n: Now, v: nat, f: nat, n1: Now)
    requires BytesKept(a, n) && IsTrap(a.par, v) && v !in n.frames && f in a.mem
    requires f in n1.mem && n1 == n.(refs := n1.refs, mem := n.mem[f := n1.mem[f]], frames := n.frames[v := f])
    ensures BytesKept(a, n1)
  {
    OwnValues(a.par, n.frames, v, f);
    hide OwnOf;
  }

  lemma TakeCopies(a: Start, n: Now, v: nat, f: nat, n1: Now)
    requires StartOk(a) && TrackersOk(a, n) && CountsOk(a, n) && CopiesOk(a, n) && v !in n.frames && f !in n.refs
    requires f in n1.mem && n1 == n.(refs := n1.refs, mem := n.mem[f := n1.mem[f]], frames := n.frames[v := f])
    ensures CopiesOk(a, n1)
  {
    hide TrackersOk, CountsOk, StartOk;
    FramesCounted(a, n);
  }

  /** The bytes of a trap-context page were copied. */
  lemma CopyTurn(a: Start, n: Now, v: nat, n': Now)
    requires StartOk(a) && Progress(a, n)
    requires IsTrap(a.par, v) && v in n.frames && n.frames[v] in n.mem && a.par.frames[v] in n.mem
    requires n' == n.(mem := n.mem[n.frames[v] := n.mem[a.par.frames[v]]], copied := n.copied + {v})
    ensures Progress(a, n')
  {
    hide CountsOk, EntriesOk, TrackersOk, BytesKept, CopiesOk, StartOk, IsTrap;
    CopyEntries(a, n, n');
    TrapSource(a, n, v);
    CopyTrackers(a, n, n');
    CopyBytes(a, n, v, n');
    CopyCopies(a, n, v, n');
  }

  lemma CopyEntries(a: Start, n: Now, n': Now)
    requires EntriesOk(a, n) && n' == n.(mem := n'.mem, copied := n'.copied)
    ensures EntriesOk(a, n')
  {
    hide EntryOk, ParentTable;
    forall u | u in n'.mapped
      ensures EntryOk(a, n', u)
    {
      assert EntryOk(a, n, u);
      SameEntry(a, n, n', u);
    }
  }

  lemma CopyTrackers(a: Start, n: Now, n': Now)
    requires TrackersOk(a, n) && CountsOk(a, n) && n' == n.(mem := n'.mem, copied := n'.copied)
    ensures TrackersOk(a, n') && CountsOk(a, n')
  {
    hide TrackerOk, OwnOf, SharedIn, Injective;
    forall u | u in n'.frames
      ensures TrackerOk(a, n', u)
    {
      assert TrackerOk(a, n, u);
      SameTracker(a, n, n', u);
    }
  }

  /** The parent's trap context still has the bytes it had when fork began. */
  lemma TrapSource(a: Start, n: Now, v: nat)
    requires StartOk(a) && Progress(a, n) && IsTrap(a.par, v)
    ensures a.par.frames[v] in a.mem && a.par.frames[v] in n.mem && n.mem[a.par.frames[v]] == a.mem[a.par.frames[v]]
  {
    hide CountsOk, EntriesOk, TrackersOk, CopiesOk, Pte.Writable, Pte.IsCow, OwnOf;
    OwnApart(a, n);
    TablesNew(a, n);
    OwnNew(a, n);
  }

  lemma TablesNew(a: Start, n: Now)
    requires TrackersOk(a, n)
    ensures forall t :: t in n.tables ==> t !in a.refs
  {
    hide TrackerOk, OwnOf, Injective;
  }

  lemma OwnNew(a: Start, n: Now)
    requires TrackersOk(a, n) && CountsOk(a, n)
    ensures forall f :: f in OwnOf(a.par, n.frames).Values ==> f !in a.refs
  {
    hide TrackersOk, CountsOk, OwnOf;
    OwnApart(a, n);
  }

  lemma CopyBytes(a: Start, n: Now, v: nat, n': Now)
    requires BytesKept(a, n) && IsTrap(a.par, v) && v in n.frames && n.frames[v] in n.mem && a.par.frames[v] in n.mem
    requires n' == n.(mem := n.mem[n.frames[v] := n.mem[a.par.frames[v]]], copied := n.copied + {v})
    ensures BytesKept(a, n')
  {
    assert OwnOf(a.par, n.frames)[v] == n.frames[v];
  }

  lemma CopyCopies(a: Start, n: Now, v: nat, n': Now)
    requires StartOk(a) && TrackersOk(a, n) && CountsOk(a, n) && CopiesOk(a, n)
    requires IsTrap(a.par, v) && v in n.frames && n.frames[v] in n.mem && a.par.frames[v] in n.mem
    requires n.mem[a.par.frames[v]] == a.mem[a.par.frames[v]]
    requires n' == n.(mem := n.mem[n.frames[v] := n.mem[a.par.frames[v]]], copied := n.copied + {v})
    ensures CopiesOk(a, n')
  {
    hide CountsOk, Pte.Writable, Pte.IsCow;
    OwnApart(a, n);
    assert OwnOf(a.par, n.frames)[v] == n.frames[v];
    forall u | u in n.copied && u != v
      ensures n.frames[u] != n.frames[v]
    {
      assert TrackerOk(a, n, u);
      if !Shared(a.par, u) {
        assert OwnOf(a.par, n.frames)[u] == n.frames[u];
      }
    }
  }

  // ---------------------------------------------------------------- the two ends

  /** A bare child, before the first turn. */
  lemma StartProgress(a: Start, tables: set<nat>, refs: map<nat, nat>, mem: Memory)
    requires StartOk(a)
    requires forall t :: t in tables ==> t in a.mem
    requires Taken(a.refs, refs, tables) && Kept(a.mem, mem, tables)
    ensures Progress(a, Now(refs, mem, a.par.pt, a.fixed, tables, map[], {}, {}))
  {
    hide Protect, Pte.Writable, Pte.IsCow;
    var n := Now(refs, mem, a.par.pt, a.fixed, tables, map[], {}, {});
    assert OwnOf(a.par, map[]) == map[];
    forall f
      ensures SharedIn(a.par, f, n.frames.Keys) == {}
    {
    }
    assert ParentTable(a, {}) == a.par.pt;
  }

  /** When every page has had its turn, the child is a fork of the parent. */
  lemma FinishProgress(a: Start, n: Now, child: Space)
    requires StartOk(a) && Progress(a, n)
    requires n.mapped == a.par.frames.Keys && n.frames.Keys == a.par.frames.Keys
    requires forall v :: IsTrap(a.par, v) ==> v in n.copied
    requires child == Space(n.cpt, n.tables, n.frames, a.par.pages)
    ensures ForkedFrom(a.refs, a.mem, a.par, n.refs, n.mem, a.par.(pt := n.ppt), child)
  {
    hide Protect, Pte.Writable, Pte.IsCow, FreshFlags, Kept, Injective, SharedIn, SharedMine, ParentTable, ChildPage, Fixed, EntryOk, TrackerOk;
    assert OwnFrames(a.par, child) == OwnOf(a.par, n.frames);
    assert ParentTable(a, n.mapped) == Forked(a.par).pt by { FinishedTable(a, n); }
    FinishedPages(a, n, child);
    FinishedCounts(a, n);
  }

  lemma FinishedPages(a: Start, n: Now, child: Space)
    requires StartOk(a) && Progress(a, n)
    requires n.mapped == a.par.frames.Keys && n.frames.Keys == a.par.frames.Keys
    requires forall v :: IsTrap(a.par, v) ==> v in n.copied
    requires child == Space(n.cpt, n.tables, n.frames, a.par.pages)
    ensures forall v :: v in child.frames ==> ChildPage(a.refs, a.mem, a.par, n.mem, child, v)
    ensures forall v :: v in child.pt && v !in child.frames ==> Fixed(child, v)
  {
    hide Protect, Pte.Writable, Pte.IsCow, FreshFlags, Kept, Injective, SharedIn, SharedMine, ParentTable;
    forall v | v in child.frames
      ensures ChildPage(a.refs, a.mem, a.par, n.mem, child, v)
    {
      assert EntryOk(a, n, v) && TrackerOk(a, n, v);
    }
    forall v | v in child.pt && v !in child.frames
      ensures Fixed(child, v)
    {
      assert v in a.fixed;
    }
  }

  lemma FinishedTable(a: Start, n: Now)
    requires n.mapped == a.par.frames.Keys
    ensures ParentTable(a, n.mapped) == Forked(a.par).pt
  {
    hide Protect;
  }

  lemma FinishedCounts(a: Start, n: Now)
    requires n.frames.Keys == a.par.frames.Keys
    ensures forall f :: SharedIn(a.par, f, n.frames.Keys) == SharedMine(a.par, f)
  {
  }
}
