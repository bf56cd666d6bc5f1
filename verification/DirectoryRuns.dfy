/** A directory over time: files are created in it and removed from it, and their clusters and sizes change.

    The entries on the disk refine the list of the files that are there. */
module DirectoryRuns {
  import opened LittleEndian
  import opened Options
  import opened DirEntries
  import opened LongNames
  import opened ShortNames
  import opened DirectoryContents

  datatype Event =
    | Create(name: seq<Byte>, attr: Byte)
    | Remove(name: seq<Byte>)
    | Touch(at: nat, entry: DirEntry)

  /** A short entry in use. */
  predicate Used(e: DirEntry) {
    !IsDeleted(e) && !IsEmpty(e) && e[11] != ATTR_LONG_NAME
  }

  ghost predicate Absent(es: seq<DirEntry>, name: seq<Byte>) {
    forall i: nat :: i < |es| ==> !Hit(es, i, name)
  }

  /** The entries of a new file were stored behind the others. */
  ghost predicate Created(es: seq<DirEntry>, name: seq<Byte>, attr: Byte, es': seq<DirEntry>) {
    && Valid(name) && attr != ATTR_LONG_NAME && Absent(es, name)
    && (NewFileOk(name, attr);
        exists at :: EmptyIndex(es, at) && StoredFrom(es, at, EntriesOf(NewFile(name, attr)), es'))
  }

  /** What happens to the entries. */
  ghost predicate EntriesStep(es: seq<DirEntry>, ev: Event, es': seq<DirEntry>) {
    match ev
    case Create(name, attr) => Created(es, name, attr, es')
    case Remove(name) =>
      Clean(name) && exists at :: FirstHit(es, at, name) && DeletedFrom(es, at, LongsOf(name), es')
    case Touch(at, e) =>
      at < |es| && Used(es[at]) && Used(e) && e[..20] == es[at][..20] && es' == es[at := e]
  }

  /** What happens to the files. */
  ghost predicate FilesStep(fs: seq<Item>, ev: Event, fs': seq<Item>) {
    match ev
    case Create(name, attr) => name != [] && Lookup(fs, name) == None && fs' == fs + [NewFile(name, attr)]
    case Remove(name) =>
      exists j :: Lookup(fs, name) == Some(j) && j < |fs| && fs' == fs[..j] + fs[j + 1..]
    case Touch(at, e) =>
      exists j :: 0 <= j < |fs| && Live(fs[j]) && e[..20] == fs[j].short[..20] && fs' == fs[j := fs[j].(short := e)]
  }

  lemma CreateRefines(es: seq<DirEntry>, xs: seq<Item>, name: seq<Byte>, attr: Byte, es': seq<DirEntry>)
    requires Holds(es, xs) && Created(es, name, attr, es')
    ensures Holds(es', xs + [NewFile(name, attr)])
    ensures FilesStep(LiveOf(xs), Create(name, attr), LiveOf(xs + [NewFile(name, attr)]))
  {
    hide Holds, EntriesOf, StoredFrom, EmptyIndex, NewFile, Lookup, LiveOf, Hit, FitsShort, Kept, ItemOk;
    NewFileOk(name, attr);
    var x := NewFile(name, attr);
    var at :| EmptyIndex(es, at) && StoredFrom(es, at, EntriesOf(x), es');
    InsertHolds(es, xs, at, x, es');
    NoHitNoFile(es, xs, name);
    LookupLive(xs, name);
    LiveConcat(xs, [x]);
    LiveOne(x);
  }

  lemma RemoveRefines(es: seq<DirEntry>, xs: seq<Item>, name: seq<Byte>, es': seq<DirEntry>) returns (xs': seq<Item>)
    requires Holds(es, xs) && EntriesStep(es, Remove(name), es')
    ensures Holds(es', xs') && FilesStep(LiveOf(xs), Remove(name), LiveOf(xs'))
  {
    hide Holds, DeletedFrom, Lookup, LiveOf, FirstHit, FitsShort, HitIndex, ItemOk, Remains, Start;
    var at :| FirstHit(es, at, name) && DeletedFrom(es, at, LongsOf(name), es');
    var k := SearchIsLookup(es, xs, at, name);
    LongsOfIs(xs, name, k);
    RemoveHolds(es, xs, k, name, es');
    xs' := Removed(xs, k, name);
    RemainsDead(xs[k], name);
    LiveReplaced(xs, k, Remains(xs[k], name));
    LiveOne(xs[k]);
    LookupLive(xs, name);
    var j := |LiveOf(xs[..k])|;
    assert LiveOf(xs)[..j] == LiveOf(xs[..k]) && LiveOf(xs)[j + 1..] == LiveOf(xs[k + 1..]);
    assert LiveOf(xs') == LiveOf(xs)[..j] + LiveOf(xs)[j + 1..];
  }

  lemma LongsOfIs(xs: seq<Item>, name: seq<Byte>, k: nat)
    requires AllOk(xs) && k < |xs| && Live(xs[k]) && Lookup(xs, name) == Some(k)
    ensures LongsOf(name) == if FitsShort(name) then 0 else |xs[k].chunks|
  {
    hide Lookup, FitsShort, ShownName, CheckSum;
    LookupFirst(xs, name, k);
  }

  /** A short entry in use is that of a file. */
  lemma UsedIsLive(es: seq<DirEntry>, xs: seq<Item>, at: nat) returns (k: nat)
    requires Holds(es, xs) && at < |es| && Used(es[at])
    ensures AllOk(xs) && k < |xs| && Live(xs[k]) && xs[k].short == es[at] && at == Start(xs, k) + |xs[k].chunks|
  {
    hide LongEntry, Flat, Start, EntriesOf;
    var p;
    k, p := EntryIs(es, xs, at);
    EntriesOfAt(xs[k], p);
    if xs[k].File? && p < |xs[k].chunks| {
      LongEntryHead(xs[k], p);
    }
  }

  lemma TouchRefines(es: seq<DirEntry>, xs: seq<Item>, at: nat, e: DirEntry, es': seq<DirEntry>) returns (xs': seq<Item>)
    requires Holds(es, xs) && EntriesStep(es, Touch(at, e), es')
    ensures Holds(es', xs') && FilesStep(LiveOf(xs), Touch(at, e), LiveOf(xs'))
  {
    hide Holds, LiveOf, ItemOk, Start;
    var k := UsedIsLive(es, xs, at);
    TouchHolds(es, xs, k, e);
    var y := xs[k].(short := e);
    xs' := xs[..k] + [y] + xs[k + 1..];
    LiveReplaced(xs, k, [y]);
    LiveOne(xs[k]);
    LiveOne(y);
    var j := |LiveOf(xs[..k])|;
    assert LiveOf(xs)[j] == xs[k];
    assert LiveOf(xs') == LiveOf(xs)[j := LiveOf(xs)[j].(short := e)];
  }

  /** Every change of the entries is one of the list of files. */
  lemma StepRefines(es: seq<DirEntry>, xs: seq<Item>, ev: Event, es': seq<DirEntry>) returns (xs': seq<Item>)
    requires Holds(es, xs) && EntriesStep(es, ev, es')
    ensures Holds(es', xs') && FilesStep(LiveOf(xs), ev, LiveOf(xs'))
  {
    hide Holds, LiveOf, FilesStep;
    match ev
    case Create(name, attr) =>
      CreateRefines(es, xs, name, attr, es');
      xs' := xs + [NewFile(name, attr)];
    case Remove(name) =>
      xs' := RemoveRefines(es, xs, name, es');
    case Touch(at, e) =>
      xs' := TouchRefines(es, xs, at, e, es');
  }

  ghost predicate IsRun(ess: seq<seq<DirEntry>>, evs: seq<Event>) {
    && |ess| == |evs| + 1
    && (forall i :: 0 <= i < |evs| ==> EntriesStep(ess[i], evs[i], ess[i + 1]))
  }

  ghost predicate FilesRun(xss: seq<seq<Item>>, evs: seq<Event>) {
    && |xss| == |evs| + 1
    && (forall i :: 0 <= i < |evs| ==> FilesStep(LiveOf(xss[i]), evs[i], LiveOf(xss[i + 1])))
  }

  /** Over all runs the entries stay those of files and remains with zeros behind, and the list of files goes
      through the same creations and removals. */
  lemma {:induction false} RunsKeepDirectory(ess: seq<seq<DirEntry>>, evs: seq<Event>, xs: seq<Item>)
      returns (xss: seq<seq<Item>>)
    requires IsRun(ess, evs) && Holds(ess[0], xs)
    ensures FilesRun(xss, evs) && xss[0] == xs
    ensures forall i :: 0 <= i < |ess| ==> Holds(ess[i], xss[i])
    decreases |evs|
  {
    hide Holds, LiveOf, FilesStep, EntriesStep;
    if evs == [] {
      return [xs];
    }
    var xs' := StepRefines(ess[0], xs, evs[0], ess[1]);
    var rest := RunsKeepDirectory(ess[1..], evs[1..], xs');
    xss := [xs] + rest;
    forall i | 0 <= i < |ess|
      ensures Holds(ess[i], xss[i])
    {
      if i > 0 {
        assert ess[1..][i - 1] == ess[i] && rest[i - 1] == xss[i];
      }
    }
    forall i | 0 <= i < |evs|
      ensures FilesStep(LiveOf(xss[i]), evs[i], LiveOf(xss[i + 1]))
    {
      if i > 0 {
        assert evs[1..][i - 1] == evs[i] && rest[i - 1] == xss[i] && rest[i] == xss[i + 1];
      }
    }
  }

  // ---------------------------------------------------------------- what lookups give afterwards

  /** A file that was created is found, and what was found before still is. */
  lemma CreatedIsFound(fs: seq<Item>, name: seq<Byte>, attr: Byte, fs': seq<Item>, m: seq<Byte>)
    requires Valid(name) && attr != ATTR_LONG_NAME && FilesStep(fs, Create(name, attr), fs')
    ensures Lookup(fs', name) == Some(|fs|)
    ensures Lookup(fs, m).Some? ==> Lookup(fs', m) == Lookup(fs, m)
    ensures Clean(m) && Lookup(fs, m) == None ==>
              Lookup(fs', m) == if (if FitsShort(m) then UpperAll(m) == ShownName(NewShort(name, attr)) else m == name)
                                then Some(|fs|) else None
  {
    hide Lookup, NewFile, NewShort, FitsShort, UpperAll, ShownName, Kept;
    LookupMore(fs, NewFile(name, attr), name);
    LookupMore(fs, NewFile(name, attr), m);
    NewFileFoundIff(name, attr);
    if Clean(m) {
      NewFileAnswersTo(name, attr, m);
    }
  }

  /** After the removal of file `j` the other files are found as before, a place earlier if they were behind. */
  lemma OthersAfterRemove(fs: seq<Item>, j: nat, m: seq<Byte>)
    requires j < |fs| && Lookup(fs, m).Some? && Lookup(fs, m) != Some(j)
    ensures var i := Lookup(fs, m).value;
            var fs' := fs[..j] + fs[j + 1..];
            var i' := if i < j then i else i - 1;
            Lookup(fs', m) == Some(i') && i < |fs| && i' < |fs'| && fs'[i'] == fs[i]
  {
    hide Lookup, Named;
    var i := Lookup(fs, m).value;
    var fs' := fs[..j] + fs[j + 1..];
    var i' := if i < j then i else i - 1;
    LookupFirst(fs, m, i);
    forall l | 0 <= l < i'
      ensures !Named(fs'[l], m)
    {
      assert fs'[l] == fs[if l < j then l else l + 1];
    }
    LookupFirst(fs', m, i');
  }

  /** At most one file answers to `m`. */
  ghost predicate Unique(fs: seq<Item>, m: seq<Byte>) {
    forall i, j :: 0 <= i < j < |fs| ==> !(Named(fs[i], m) && Named(fs[j], m))
  }

  /** After the removal the name is not found any more exactly if no other file answered to it. */
  lemma RemovedIsGoneIff(fs: seq<Item>, name: seq<Byte>, fs': seq<Item>)
    requires FilesStep(fs, Remove(name), fs')
    ensures Lookup(fs', name) == None <==> Unique(fs, name)
  {
    hide Lookup, Named;
    var j :| Lookup(fs, name) == Some(j) && j < |fs| && fs' == fs[..j] + fs[j + 1..];
    LookupFirst(fs, name, j);
    if Lookup(fs', name) == None {
      forall b | 0 <= b < |fs| && b != j
        ensures !Named(fs[b], name)
      {
        LookupFirst(fs', name, 0);
        assert fs'[if b < j then b else b - 1] == fs[b];
      }
    } else {
      var k := Lookup(fs', name).value;
      LookupFirst(fs', name, k);
      assert fs'[k] == fs[if k < j then k else k + 1];
    }
  }

  /** No two files come to answer to the same name, unless a long name gets a short alias that is already in
      use. */
  lemma UniqueAfterCreate(fs: seq<Item>, name: seq<Byte>, attr: Byte, fs': seq<Item>, m: seq<Byte>)
    requires Valid(name) && attr != ATTR_LONG_NAME && FilesStep(fs, Create(name, attr), fs')
    requires Clean(m) && Unique(fs, m)
    ensures Unique(fs', m) <==>
            Lookup(fs, m) == None || FitsShort(name) || !FitsShort(m) || UpperAll(m) != ShownName(NewShort(name, attr))
  {
    hide Lookup, NewFile, NewShort, UpperAll, ShownName, Kept, FitsShort, CheckSum, Chunks;
    var x := NewFile(name, attr);
    NewFileAnswersTo(name, attr, m);
    LookupFirst(fs, name, 0);
    LookupFirst(fs, m, 0);
    if FitsShort(name) && FitsShort(m) && UpperAll(m) == UpperAll(name) {
      forall i | 0 <= i < |fs|
        ensures !Named(fs[i], m)
      {
        assert !Named(fs[i], name);
      }
    }
    assert fs'[|fs|] == x;
    if Named(x, m) && Lookup(fs, m).Some? {
      var i :| 0 <= i < |fs| && Named(fs[i], m);
      assert fs'[i] == fs[i];
    }
  }

  lemma UniqueAfterRemove(fs: seq<Item>, j: nat, m: seq<Byte>)
    requires j < |fs| && Unique(fs, m)
    ensures Unique(fs[..j] + fs[j + 1..], m)
  {
    hide Named;
    var fs' := fs[..j] + fs[j + 1..];
    forall l | 0 <= l < |fs'|
      ensures fs'[l] == fs[if l < j then l else l + 1]
    {
    }
  }

  /** Changes of the cluster and the size of a file change no lookup. */
  lemma TouchKeepsLookups(fs: seq<Item>, at: nat, e: DirEntry, fs': seq<Item>, m: seq<Byte>)
    requires FilesStep(fs, Touch(at, e), fs')
    ensures Lookup(fs', m) == Lookup(fs, m) && |fs'| == |fs|
  {
    hide Lookup, FitsShort, UpperAll, CheckSum;
    var j :| 0 <= j < |fs| && Live(fs[j]) && e[..20] == fs[j].short[..20] && fs' == fs[j := fs[j].(short := e)];
    SameHeadNamed(fs[j], e, m);
    forall i | 0 <= i < |fs|
      ensures Named(fs'[i], m) <==> Named(fs[i], m)
    {
    }
    var r := Lookup(fs, m);
    LookupFirst(fs, m, if r.Some? then r.value else 0);
    LookupFirst(fs', m, if r.Some? then r.value else 0);
  }

  lemma SameHeadNamed(x: Item, e: DirEntry, m: seq<Byte>)
    requires Live(x) && e[..20] == x.short[..20]
    ensures Named(x.(short := e), m) <==> Named(x, m)
  {
    hide FitsShort, UpperAll, CheckSum, UpToSpace, Chunks;
    assert e[..8] == e[..20][..8] == x.short[..8];
    assert e[8..11] == e[..20][8..11] == x.short[8..11];
    assert e[..11] == e[..20][..11] == x.short[..11];
    assert e[0] == e[..8][0] == x.short[0];
  }

  // ---------------------------------------------------------------- names over runs

  lemma TouchKeepsUnique(fs: seq<Item>, at: nat, e: DirEntry, fs': seq<Item>, m: seq<Byte>)
    requires FilesStep(fs, Touch(at, e), fs') && Unique(fs, m)
    ensures Unique(fs', m)
  {
    hide Named;
    var j :| 0 <= j < |fs| && Live(fs[j]) && e[..20] == fs[j].short[..20] && fs' == fs[j := fs[j].(short := e)];
    SameHeadNamed(fs[j], e, m);
    assert forall i :: 0 <= i < |fs| ==> (Named(fs'[i], m) <==> Named(fs[i], m));
  }

  /** The event creates no long name that gets `m` as its alias. */
  ghost predicate NoAlias(ev: Event, m: seq<Byte>) {
    ev.Create? ==> FitsShort(ev.name) || !FitsShort(m) || UpperAll(m) != ShownName(NewShort(ev.name, ev.attr))
  }

  ghost predicate ValidNames(ev: Event) {
    ev.Create? ==> Valid(ev.name) && ev.attr != ATTR_LONG_NAME
  }

  lemma StepKeepsUnique(fs: seq<Item>, ev: Event, fs': seq<Item>, m: seq<Byte>)
    requires FilesStep(fs, ev, fs') && ValidNames(ev) && NoAlias(ev, m) && Clean(m) && Unique(fs, m)
    ensures Unique(fs', m)
  {
    hide Unique, Lookup, NewShort, FitsShort, UpperAll, ShownName, NewFile;
    match ev
    case Create(name, attr) => UniqueAfterCreate(fs, name, attr, fs', m);
    case Remove(name) =>
      var j :| Lookup(fs, name) == Some(j) && j < |fs| && fs' == fs[..j] + fs[j + 1..];
      UniqueAfterRemove(fs, j, m);
    case Touch(at, e) => TouchKeepsUnique(fs, at, e, fs', m);
  }

  /** At most one file answers to `m` throughout a run that creates no alias `m`. */
  lemma {:induction false} RunsKeepUnique(xss: seq<seq<Item>>, evs: seq<Event>, m: seq<Byte>)
    requires FilesRun(xss, evs) && Clean(m) && Unique(LiveOf(xss[0]), m)
    requires forall i :: 0 <= i < |evs| ==> ValidNames(evs[i]) && NoAlias(evs[i], m)
    ensures forall i :: 0 <= i < |xss| ==> Unique(LiveOf(xss[i]), m)
    decreases |evs|
  {
    hide LiveOf, FilesStep, Unique, NoAlias, ValidNames;
    if evs != [] {
      var n := |evs| - 1;
      RunsKeepUnique(xss[..n + 1], evs[..n], m);
      assert xss[..n + 1][n] == xss[n];
      StepKeepsUnique(LiveOf(xss[n]), evs[n], LiveOf(xss[n + 1]), m);
      forall i | 0 <= i < |xss|
        ensures Unique(LiveOf(xss[i]), m)
      {
        if i <= n {
          assert xss[..n + 1][i] == xss[i];
        }
      }
    }
  }

  lemma RunIsValid(ess: seq<seq<DirEntry>>, evs: seq<Event>)
    requires IsRun(ess, evs)
    ensures forall i :: 0 <= i < |evs| ==> ValidNames(evs[i])
  {
    hide Valid, Absent;
    forall i | 0 <= i < |evs|
      ensures ValidNames(evs[i])
    {
      assert EntriesStep(ess[i], evs[i], ess[i + 1]);
    }
  }

  lemma NoFileNoHit(es: seq<DirEntry>, xs: seq<Item>, name: seq<Byte>)
    requires Holds(es, xs) && Clean(name) && Lookup(xs, name) == None
    ensures Absent(es, name)
  {
    hide Holds, Lookup, Hit, Named;
    forall i: nat | i < |es|
      ensures !Hit(es, i, name)
    {
      if Hit(es, i, name) {
        var k := HitIs(es, xs, i, name);
        LookupFirst(xs, name, k);
      }
    }
  }

  /** After any run that ends with the removal of `name` no search finds that name: always if it is a long one, and
      for a short one if none of the long names created in the run got it as an alias. */
  lemma RemovedIsAbsent(ess: seq<seq<DirEntry>>, evs: seq<Event>, xs: seq<Item>, name: seq<Byte>)
    requires IsRun(ess, evs) && Holds(ess[0], xs) && Unique(LiveOf(xs), name)
    requires evs != [] && evs[|evs| - 1] == Remove(name)
    requires forall i :: 0 <= i < |evs| ==> NoAlias(evs[i], name)
    ensures Absent(ess[|evs|], name)
    ensures forall ev: Event :: !FitsShort(name) ==> NoAlias(ev, name)
  {
    hide Holds, LiveOf, Unique, Lookup, Absent, FilesStep, NoAlias, ValidNames;
    var n := |evs| - 1;
    var xss := RunsKeepDirectory(ess, evs, xs);
    RunIsValid(ess, evs);
    RemovedIsClean(ess, evs, n, name);
    RunsKeepUnique(xss, evs, name);
    RemovedIsGoneIff(LiveOf(xss[n]), name, LiveOf(xss[n + 1]));
    LookupLive(xss[n + 1], name);
    NoFileNoHit(ess[n + 1], xss[n + 1], name);
    LongIsNoAlias(name);
  }

  lemma RemovedIsClean(ess: seq<seq<DirEntry>>, evs: seq<Event>, n: nat, name: seq<Byte>)
    requires IsRun(ess, evs) && n < |evs| && evs[n] == Remove(name)
    ensures Clean(name)
  {
    assert EntriesStep(ess[n], evs[n], ess[n + 1]);
  }

  lemma LongIsNoAlias(name: seq<Byte>)
    ensures forall ev: Event :: !FitsShort(name) ==> NoAlias(ev, name)
  {
  }

  // ---------------------------------------------------------------- listing

  /** The next file from item `k` on. */
  ghost function NextLive(xs: seq<Item>, k: nat): (r: Option<nat>)
    requires k <= |xs|
    ensures r == None <==> forall j :: k <= j < |xs| ==> !Live(xs[j])
    ensures r.Some? ==> k <= r.value < |xs| && Live(xs[r.value]) && forall j :: k <= j < r.value ==> !Live(xs[j])
    decreases |xs| - k
  {
    if k == |xs| then None else if Live(xs[k]) then Some(k) else NextLive(xs, k + 1)
  }

  /** What asking for the next file again and again from item `k` on yields. */
  ghost function Listed(xs: seq<Item>, k: nat): seq<Item>
    requires k <= |xs|
    decreases |xs| - k
  {
    var r := NextLive(xs, k);
    if r == None then [] else [xs[r.value]] + Listed(xs, r.value + 1)
  }

  /** It yields the files that are there, in order. */
  lemma {:induction false} ListedAll(xs: seq<Item>, k: nat)
    requires k <= |xs|
    ensures Listed(xs, k) == LiveOf(xs[k..])
    decreases |xs| - k
  {
    hide LiveOf, Live;
    var r := NextLive(xs, k);
    if r.Some? {
      var j := r.value;
      LiveFrom(xs, k, j);
      ListedAll(xs, j + 1);
      LiveHead(xs, j);
    } else {
      LiveFrom(xs, k, |xs|);
      assert xs[|xs|..] == [];
      LiveOfNothing();
    }
  }

  lemma LiveHead(xs: seq<Item>, j: nat)
    requires j < |xs| && Live(xs[j])
    ensures LiveOf(xs[j..]) == [xs[j]] + LiveOf(xs[j + 1..])
  {
    hide LiveOf, Live;
    LiveConcat([xs[j]], xs[j + 1..]);
    LiveOne(xs[j]);
    assert [xs[j]] + xs[j + 1..] == xs[j..];
  }

  /** Items that are not there do not count. */
  lemma LiveFrom(xs: seq<Item>, k: nat, j: nat)
    requires k <= j <= |xs| && forall l :: k <= l < j ==> !Live(xs[l])
    ensures LiveOf(xs[k..]) == LiveOf(xs[j..])
  {
    hide LiveOf, Live;
    forall l | 0 <= l < |xs[k..j]|
      ensures !Live(xs[k..j][l])
    {
      assert xs[k..j][l] == xs[k + l];
    }
    NoneLive(xs[k..j]);
    LiveConcat(xs[k..j], xs[j..]);
    assert xs[k..j] + xs[j..] == xs[k..];
  }

  lemma LiveOfNothing()
    ensures LiveOf([]) == []
  {
  }

  lemma {:induction false} NoneLive(xs: seq<Item>)
    requires forall j :: 0 <= j < |xs| ==> !Live(xs[j])
    ensures LiveOf(xs) == []
  {
    if xs != [] {
      NoneLive(xs[..|xs| - 1]);
    }
  }

  function Lower(b: Byte): Byte {
    if 0x41 <= b <= 0x5A then b + 0x20 else b
  }

  function LowerAll(s: seq<Byte>): (r: seq<Byte>)
    ensures |r| == |s|
  {
    if s == [] then [] else [Lower(s[0])] + LowerAll(s[1..])
  }

  /** The name that a listing shows: that of the long entries if there are any, else that of the short one in
      lower case. */
  ghost function ListedName(x: Item): seq<Unit>
    requires ItemOk(x) && x.File?
  {
    if x.chunks == [] then LowerAll(ShownName(x.short)) else Prepended(Stored(x.chunks, |x.chunks|, x.sum), [])
  }

  /** A file is listed under the name it was created with. */
  lemma ListedUnderItsName(name: seq<Byte>, attr: Byte)
    requires Valid(name) && attr != ATTR_LONG_NAME
    ensures ItemOk(NewFile(name, attr)) && ListedName(NewFile(name, attr)) == name
  {
    hide NewShort, FitsShort, Kept, DotsFit, CheckSum, Prepended, Stored;
    NewFileOk(name, attr);
    KeptIff(name);
    var cs := Chunks(Units(name));
    if FitsShort(name) {
      KeptIsShort(name);
      assert [cs[0]] == cs;
    }
    assert 0 !in Units(name);
    LongNameRoundTrip(Units(name), cs, NewFile(name, attr).sum);
  }
}
