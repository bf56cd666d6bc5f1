/** How a new cluster chain is put together from the recycle queue and the forward scan. */
module FatAllocation {
  import opened Sequences
  import opened FatVolumes
  import opened FatChains
  import opened FatManagers

  /** The free clusters above the cursor that are not queued. */
  ghost function FreeAbove(fat: FatTable, recycled: seq<nat>, cursor: nat): set<nat> {
    set c | c in fat && cursor < c && fat[c] == FREE_CLUSTER && c !in recycled
  }

  /** Where the scan starts once the queue is empty. */
  ghost function Cursor(recycled: seq<nat>, start: nat): nat {
    if recycled == [] then start else recycled[|recycled| - 1]
  }

  /** `num` clusters can be had: what the queue does not hold lies above the cursor. */
  ghost predicate Room(fat: FatTable, recycled: seq<nat>, start: nat, num: nat) {
    num <= |recycled| || num - |recycled| <= |FreeAbove(fat, recycled, Cursor(recycled, start))|
  }

  /** The clusters `cs` were taken and linked so far; the entry of the last one is still free. */
  ghost predicate Linking(fat0: FatTable, cs: seq<nat>, fat: FatTable) {
    && NoDuplicates(cs) && fat.Keys == fat0.Keys
    && (forall c :: c in cs ==> c in fat0 && fat0[c] == FREE_CLUSTER && 2 <= c < END_OF_CLUSTER)
    && (forall i :: 0 <= i < |cs| - 1 ==> fat[cs[i]] == cs[i + 1])
    && (forall c :: c in fat0 && (c in cs ==> c == cs[|cs| - 1]) ==> fat[c] == fat0[c])
  }

  ghost predicate Taking(fat0: FatTable, q0: seq<nat>, start: nat, num: nat, cs: seq<nat>, fat: FatTable, q: seq<nat>) {
    && Linking(fat0, cs, fat)
    && (if |cs| <= |q0| then cs == q0[..|cs|] && q == q0[|cs|..]
        else cs[..|q0|] == q0 && q == [] && Ascending(cs, |q0|))
    && (|cs| >= |q0| ==>
          num - |cs| <= |FreeAbove(fat0, q0, Last(cs, start))|)
  }

  ghost function Last(cs: seq<nat>, start: nat): nat {
    if cs == [] then start else cs[|cs| - 1]
  }

  /** The table after cluster `c` was hung behind the ones taken before. */
  ghost function Hang(fat: FatTable, cs: seq<nat>, c: nat): FatTable {
    if cs == [] then fat else fat[cs[|cs| - 1] := c]
  }

  lemma HangLinks(fat0: FatTable, cs: seq<nat>, fat: FatTable, c: nat)
    requires Linking(fat0, cs, fat) && c !in cs && c in fat0 && fat0[c] == FREE_CLUSTER && 2 <= c < END_OF_CLUSTER
    ensures Linking(fat0, cs + [c], Hang(fat, cs, c))
  {
    var cs' := cs + [c];
    var fat' := Hang(fat, cs, c);
    if cs != [] {
      assert cs[|cs| - 1] in cs;
      forall i | 0 <= i < |cs'| - 1
        ensures fat'[cs'[i]] == cs'[i + 1]
      {
      }
    }
  }

  lemma StartTaking(fat0: FatTable, q0: seq<nat>, start: nat, num: nat)
    requires Room(fat0, q0, start, num) && num > 0
    ensures Taking(fat0, q0, start, num, [], fat0, q0)
  {
  }

  /** The next cluster comes from the queue. */
  lemma TakeQueued(fat0: FatTable, q0: seq<nat>, start: nat, num: nat, cs: seq<nat>, fat: FatTable, q: seq<nat>)
    requires Taking(fat0, q0, start, num, cs, fat, q) && q != [] && |cs| < num
    requires QueueOk(fat0, q0) && Room(fat0, q0, start, num)
    ensures Taking(fat0, q0, start, num, cs + [q[0]], Hang(fat, cs, q[0]), q[1..])
  {
    assert |cs| < |q0| && q[0] == q0[|cs|];
    assert q[0] in q0;
    HangLinks(fat0, cs, fat, q[0]);
    assert q0[..|cs| + 1] == q0[..|cs|] + [q0[|cs|]];
  }

  /** With an empty queue, something above the cursor is free in the table as it is now. */
  lemma SomethingAhead(fat0: FatTable, q0: seq<nat>, start: nat, num: nat, cs: seq<nat>, fat: FatTable)
    requires Taking(fat0, q0, start, num, cs, fat, []) && |cs| < num
    ensures exists c :: Last(cs, start) < c && c in fat && fat[c] == FREE_CLUSTER
  {
    var ahead := FreeAbove(fat0, q0, Last(cs, start));
    assert |ahead| >= 1;
    var c :| c in ahead;
    NotTaken(fat0, q0, start, num, cs, fat, c);
  }

  /** Clusters above the last one taken, and not queued at first, were not taken yet. */
  lemma NotTaken(fat0: FatTable, q0: seq<nat>, start: nat, num: nat, cs: seq<nat>, fat: FatTable, c: nat)
    requires Taking(fat0, q0, start, num, cs, fat, []) && Last(cs, start) < c
    requires Ascending(cs, |q0|)
    requires c !in q0
    ensures c !in cs
  {
  }

  ghost predicate Ascending(cs: seq<nat>, k: nat) {
    forall i, j :: k <= i < j < |cs| ==> cs[i] < cs[j]
  }

  /** Clusters 0 and 1 are reserved: their entries are never free. */
  ghost predicate ReservedEntries(fat: FatTable) {
    0 in fat && 1 in fat && fat[0] != FREE_CLUSTER && fat[1] != FREE_CLUSTER
  }

  /** What the scan found is new, and the next one above it is still to be had. */
  lemma ScannedIsNew(fat0: FatTable, q0: seq<nat>, start: nat, num: nat, cs: seq<nat>, fat: FatTable, r: nat)
    requires Taking(fat0, q0, start, num, cs, fat, []) && |cs| < num && ReservedEntries(fat0)
    requires LeastFree(fat, Last(cs, start), r) && r < END_OF_CLUSTER
    ensures r !in cs && r !in q0 && r in fat0 && fat0[r] == FREE_CLUSTER && 2 <= r
    ensures FreeAbove(fat0, q0, Last(cs, start)) == FreeAbove(fat0, q0, r) + {r}
  {
    forall i | 0 <= i < |cs|
      ensures cs[i] != r
    {
      assert cs[i] in cs;
      if i < |cs| - 1 {
        assert cs[i + 1] in cs;
      }
    }
    forall c | c in q0
      ensures c in cs
    {
      var i :| 0 <= i < |q0| && q0[i] == c;
      assert cs[i] == q0[i];
    }
    forall c | c in FreeAbove(fat0, q0, Last(cs, start))
      ensures r <= c
    {
      NotTaken(fat0, q0, start, num, cs, fat, c);
    }
  }

  lemma TakeScanned(fat0: FatTable, q0: seq<nat>, start: nat, num: nat, cs: seq<nat>, fat: FatTable, r: nat)
    requires Taking(fat0, q0, start, num, cs, fat, []) && |cs| < num && ReservedEntries(fat0)
    requires LeastFree(fat, Last(cs, start), r) && r < END_OF_CLUSTER
    ensures Taking(fat0, q0, start, num, cs + [r], Hang(fat, cs, r), [])
  {
    hide LeastFree, Linking, FreeAbove, ReservedEntries;
    ScannedIsNew(fat0, q0, start, num, cs, fat, r);
    HangLinks(fat0, cs, fat, r);
    assert r !in FreeAbove(fat0, q0, r) by { NotAboveItself(fat0, q0, r); }
    LastLess(fat, cs, start, r);
  }

  lemma NotAboveItself(fat: FatTable, q: seq<nat>, r: nat)
    ensures r !in FreeAbove(fat, q, r)
  {
  }

  lemma LastLess(fat: FatTable, cs: seq<nat>, start: nat, r: nat)
    requires LeastFree(fat, Last(cs, start), r)
    ensures Last(cs, start) < r
  {
  }

  /** The next cluster, wherever it came from, is new. */
  lemma TakeAny(fat0: FatTable, q0: seq<nat>, start: nat, num: nat, cs: seq<nat>, fat: FatTable, q: seq<nat>, c: nat, q': seq<nat>)
    requires Taking(fat0, q0, start, num, cs, fat, q) && |cs| < num
    requires QueueOk(fat0, q0) && Room(fat0, q0, start, num) && ReservedEntries(fat0)
    requires forall e :: e in fat0 ==> e < END_OF_CLUSTER
    requires q != [] ==> q == [c] + q'
    requires q == [] ==> q' == [] && LeastFree(fat, Last(cs, start), c)
    ensures Taking(fat0, q0, start, num, cs + [c], Hang(fat, cs, c), q')
    ensures c in fat0 && 2 <= c && c !in cs
  {
    hide QueueOk, Room, ReservedEntries, LeastFree, FreeAbove;
    if q != [] {
      TakeQueued(fat0, q0, start, num, cs, fat, q);
      assert q[1..] == q';
    } else {
      LeastInTable(fat, Last(cs, start), c);
      TakeScanned(fat0, q0, start, num, cs, fat, c);
    }
    var cs' := cs + [c];
    assert cs'[|cs|] == c;
    assert c in cs';
    forall i | 0 <= i < |cs|
      ensures cs[i] != c
    {
      assert cs'[i] != cs'[|cs|];
    }
  }

  lemma LeastInTable(fat: FatTable, start: nat, r: nat)
    requires LeastFree(fat, start, r)
    ensures r in fat
  {
  }

  /** The mark at the end completes the chain. */
  lemma FinishTaking(fat0: FatTable, q0: seq<nat>, start: nat, num: nat, cs: seq<nat>, fat: FatTable, q: seq<nat>)
    requires Taking(fat0, q0, start, num, cs, fat, q) && cs != [] && QueueOk(fat0, q0)
    ensures Allocated(fat0, q0, cs, fat[cs[|cs| - 1] := END_OF_CLUSTER], q)
  {
    var last := cs[|cs| - 1];
    var fat' := fat[last := END_OF_CLUSTER];
    assert last in cs;
    forall i | 0 <= i < |cs|
      ensures cs[i] in fat' && 2 <= cs[i] < END_OF_CLUSTER
    {
      assert cs[i] in cs;
    }
  }

  lemma {:induction false} ScanMeets(fat: FatTable, start: nat, c: nat)
    requires (forall e: nat :: start < e <= c ==> e in fat)
    requires start < c && fat[c] == FREE_CLUSTER
    ensures exists r: nat :: LeastFree(fat, start, r) && r <= c
    decreases c - start
  {
    if fat[start + 1] == FREE_CLUSTER {
      assert LeastFree(fat, start, start + 1);
    } else {
      ScanMeets(fat, start + 1, c);
      var r: nat :| LeastFree(fat, start + 1, r) && r <= c;
      assert LeastFree(fat, start, r);
    }
  }

  /** If something above the cursor is free, the scan meets it or something before it. */
  lemma ScanFinds(fat: FatTable, start: nat)
    requires Closed(fat) && FreeAbove(fat, [], start) != {}
    ensures exists r: nat :: LeastFree(fat, start, r)
  {
    var c :| c in FreeAbove(fat, [], start);
    ScanMeets(fat, start, c);
  }

  // ---------------------------------------------------------------- when there are enough

  /** The table has the entries of all clusters up to the last one. */
  ghost predicate Closed(fat: FatTable) {
    forall c, e: nat :: c in fat && e < c ==> e in fat
  }

  /** The cluster that is handed out next: the oldest queued one, or else the least free one above the cursor. */
  ghost predicate NextIs(fat: FatTable, q: seq<nat>, cursor: nat, c: nat) {
    if q != [] then c == q[0] else LeastFree(fat, cursor, c)
  }

  /** The table after the clusters `cs` were handed out: each but the last is linked to the one after it. */
  ghost function TableAfter(fat: FatTable, cs: seq<nat>): FatTable {
    if cs == [] then fat else Hang(TableAfter(fat, cs[..|cs| - 1]), cs[..|cs| - 1], cs[|cs| - 1])
  }

  function Smaller(a: nat, b: nat): nat {
    if a < b then a else b
  }

  /** What is left of the queue after `n` clusters were handed out. */
  ghost function QueueAfter(q: seq<nat>, n: nat): seq<nat> {
    q[Smaller(n, |q|)..]
  }

  /** `cs` are handed out one after the other, the cursor moving along. */
  ghost predicate HandedOut(fat: FatTable, q: seq<nat>, start: nat, cs: seq<nat>) {
    cs == [] ||
    (var init := cs[..|cs| - 1];
     && HandedOut(fat, q, start, init)
     && NextIs(TableAfter(fat, init), QueueAfter(q, |init|), Last(init, start), cs[|cs| - 1]))
  }

  /** All but the last of the clusters handed out are linked, and no other entry changed. */
  ghost predicate Linked(fat: FatTable, cs: seq<nat>, now: FatTable) {
    && now.Keys == fat.Keys
    && (forall i :: 0 <= i < |cs| ==> cs[i] in fat && cs[i] > 0)
    && (forall c :: c in fat && c !in cs ==> now[c] == fat[c])
    && (forall i :: 0 <= i < |cs| - 1 ==> now[cs[i]] != FREE_CLUSTER)
  }

  /** What is known after `cs` were handed out. */
  ghost predicate Standing(fat: FatTable, q: seq<nat>, start: nat, cs: seq<nat>) {
    && Linked(fat, cs, TableAfter(fat, cs))
    && (if |cs| <= |q| then cs == q[..|cs|] else cs[..|q|] == q && Ascending(cs, |q|))
    && (|cs| >= |q| ==> |FreeAbove(fat, q, Cursor(q, start))| == (|cs| - |q|) + |FreeAbove(fat, q, Last(cs, start))|)
  }

  lemma LinkedMore(fat: FatTable, cs: seq<nat>, now: FatTable, c: nat)
    requires Linked(fat, cs, now) && c in fat && c > 0
    ensures Linked(fat, cs + [c], Hang(now, cs, c))
  {
    var cs' := cs + [c];
    if cs != [] {
      assert cs[|cs| - 1] in cs;
    }
    forall e | e in cs
      ensures e in cs'
    {
      var i :| 0 <= i < |cs| && cs[i] == e;
      assert cs'[i] == e;
    }
  }

  lemma TableAfterMore(fat: FatTable, cs: seq<nat>, c: nat)
    ensures TableAfter(fat, cs + [c]) == Hang(TableAfter(fat, cs), cs, c)
  {
    assert (cs + [c])[..|cs|] == cs;
  }

  lemma AscendingBelow(cs: seq<nat>, k: nat)
    requires k < |cs| && Ascending(cs, k)
    ensures forall i :: k <= i < |cs| ==> cs[i] <= cs[|cs| - 1]
  {
  }

  /** Behind the queue, what is free above the cursor now is what was free and not queued at first. */
  lemma SameAhead(fat: FatTable, q: seq<nat>, start: nat, cs: seq<nat>)
    requires Standing(fat, q, start, cs) && |cs| >= |q|
    ensures FreeAbove(TableAfter(fat, cs), [], Last(cs, start)) == FreeAbove(fat, q, Last(cs, start))
  {
    hide Ascending;
    var now, cursor := TableAfter(fat, cs), Last(cs, start);
    if |cs| > |q| {
      AscendingBelow(cs, |q|);
    }
    forall c | c in fat && cursor < c
      ensures (now[c] == FREE_CLUSTER) <==> (fat[c] == FREE_CLUSTER && c !in q)
    {
      if c in cs {
        var i :| 0 <= i < |cs| && cs[i] == c;
        assert i < |cs| - 1;
        assert cs[..|q|][i] == c;
      } else {
        assert c in q ==> c in cs by { QueueTaken(q, cs, c); }
      }
    }
  }

  lemma QueueTaken(q: seq<nat>, cs: seq<nat>, c: nat)
    requires |cs| >= |q| && (if |cs| <= |q| then cs == q[..|cs|] else cs[..|q|] == q)
    ensures c in q ==> c in cs
  {
    assert cs[..|q|] == q;
  }

  lemma NothingHandedOut(fat: FatTable, q: seq<nat>, start: nat)
    ensures HandedOut(fat, q, start, []) && Standing(fat, q, start, [])
  {
  }

  /** The next cluster comes from the queue. */
  lemma QueuedNext(fat: FatTable, q: seq<nat>, start: nat, cs: seq<nat>)
    requires Standing(fat, q, start, cs) && QueueOk(fat, q) && |cs| < |q|
    ensures Standing(fat, q, start, cs + [q[|cs|]])
  {
    hide FreeAbove, Linked, TableAfter;
    var c, cs' := q[|cs|], cs + [q[|cs|]];
    assert c in q;
    LinkedMore(fat, cs, TableAfter(fat, cs), c);
    TableAfterMore(fat, cs, c);
    assert cs' == q[..|cs'|];
  }

  /** The next cluster comes from the scan. */
  lemma ScannedNext(fat: FatTable, q: seq<nat>, start: nat, cs: seq<nat>, c: nat)
    requires Standing(fat, q, start, cs) && |cs| >= |q| && LeastFree(TableAfter(fat, cs), Last(cs, start), c)
    ensures Standing(fat, q, start, cs + [c])
  {
    hide FreeAbove, Linked, TableAfter;
    var cs' := cs + [c];
    KeysKept(fat, cs, TableAfter(fat, cs));
    LinkedMore(fat, cs, TableAfter(fat, cs), c);
    TableAfterMore(fat, cs, c);
    LeastTaken(fat, q, start, cs, c);
    assert cs'[..|q|] == q;
  }

  lemma KeysKept(fat: FatTable, cs: seq<nat>, now: FatTable)
    requires Linked(fat, cs, now)
    ensures now.Keys == fat.Keys
  {
  }

  /** What was above the cursor is the cluster that was scanned and what is above that. */
  lemma LeastTaken(fat: FatTable, q: seq<nat>, start: nat, cs: seq<nat>, c: nat)
    requires Standing(fat, q, start, cs) && |cs| >= |q| && LeastFree(TableAfter(fat, cs), Last(cs, start), c)
    ensures |FreeAbove(fat, q, Last(cs, start))| == 1 + |FreeAbove(fat, q, c)|
  {
    var now, cursor := TableAfter(fat, cs), Last(cs, start);
    SameAhead(fat, q, start, cs);
    assert c in FreeAbove(now, [], cursor);
    forall e | e in FreeAbove(fat, q, cursor) && e != c
      ensures e in FreeAbove(fat, q, c)
    {
      assert e in FreeAbove(now, [], cursor);
    }
    assert FreeAbove(fat, q, cursor) == FreeAbove(fat, q, c) + {c};
  }

  lemma {:induction false} HandedOutStands(fat: FatTable, q: seq<nat>, start: nat, cs: seq<nat>)
    requires QueueOk(fat, q) && HandedOut(fat, q, start, cs)
    ensures Standing(fat, q, start, cs)
    decreases |cs|
  {
    hide Standing, QueueOk, LeastFree;
    if cs == [] {
      NothingHandedOut(fat, q, start);
    } else {
      var init := cs[..|cs| - 1];
      HandedOutStands(fat, q, start, init);
      assert cs == init + [cs[|cs| - 1]];
      if |init| < |q| {
        QueuedNext(fat, q, start, init);
      } else {
        ScannedNext(fat, q, start, init, cs[|cs| - 1]);
      }
    }
  }

  /** As long as there is room, there is a next cluster. */
  lemma {:induction false} CanHandOut(fat: FatTable, q: seq<nat>, start: nat, num: nat) returns (cs: seq<nat>)
    requires QueueOk(fat, q) && Closed(fat) && Room(fat, q, start, num)
    ensures |cs| == num && HandedOut(fat, q, start, cs)
  {
    hide QueueOk, FreeAbove, LeastFree;
    cs := [];
    if num > 0 {
      var init := CanHandOut(fat, q, start, num - 1);
      HandedOutStands(fat, q, start, init);
      var c: nat;
      if |init| < |q| {
        c := q[|init|];
      } else {
        SameAhead(fat, q, start, init);
        NotEmpty(FreeAbove(fat, q, Last(init, start)));
        ScanFinds(TableAfter(fat, init), Last(init, start));
        c :| LeastFree(TableAfter(fat, init), Last(init, start), c);
      }
      cs := init + [c];
      assert cs[..|init|] == init;
    }
  }

  lemma NotEmpty(s: set<nat>)
    requires |s| > 0
    ensures s != {}
  {
  }

  /** Clusters for `num` requests in a row can be had if and only if what the queue does not hold is free above
      the last queued cluster, or above the start if none is queued.  How many are free in all does not matter. */
  lemma AllocationSucceedsIff(fat: FatTable, q: seq<nat>, start: nat, num: nat)
    requires QueueOk(fat, q) && Closed(fat)
    ensures (exists cs :: |cs| == num && HandedOut(fat, q, start, cs)) <==> Room(fat, q, start, num)
  {
    hide QueueOk, FreeAbove, HandedOut;
    if Room(fat, q, start, num) {
      var cs := CanHandOut(fat, q, start, num);
    }
    if cs :| |cs| == num && HandedOut(fat, q, start, cs) {
      HandedOutStands(fat, q, start, cs);
    }
  }

  /** Two free clusters, and not one can be had: both lie below the cursor. */
  lemma FreeButBehind()
    ensures var fat: FatTable := map[0 := END_OF_CLUSTER, 1 := END_OF_CLUSTER, 2 := 0, 3 := 0, 4 := END_OF_CLUSTER];
            |Zeros(fat)| == 2 && !exists cs :: |cs| == 1 && HandedOut(fat, [], 4, cs)
  {
    hide HandedOut;
    var fat: FatTable := map[0 := END_OF_CLUSTER, 1 := END_OF_CLUSTER, 2 := 0, 3 := 0, 4 := END_OF_CLUSTER];
    assert Zeros(fat) == {2, 3};
    assert FreeAbove(fat, [], 4) == {};
    AllocationSucceedsIff(fat, [], 4, 1);
  }

  /** Where an allocation stands: `cs` were handed out, the table and the queue are as that leaves them. */
  ghost predicate Handing(fat0: FatTable, q0: seq<nat>, start: nat, cs: seq<nat>, fat: FatTable, q: seq<nat>) {
    HandedOut(fat0, q0, start, cs) && fat == TableAfter(fat0, cs) && q == QueueAfter(q0, |cs|)
  }

  lemma StartHanding(fat0: FatTable, q0: seq<nat>, start: nat)
    ensures Handing(fat0, q0, start, [], fat0, q0)
  {
  }

  lemma HandMore(fat0: FatTable, q0: seq<nat>, start: nat, cs: seq<nat>, fat: FatTable, q: seq<nat>, c: nat, q': seq<nat>)
    requires Handing(fat0, q0, start, cs, fat, q)
    requires q != [] ==> q == [c] + q'
    requires q == [] ==> q' == [] && LeastFree(fat, Last(cs, start), c)
    ensures Handing(fat0, q0, start, cs + [c], Hang(fat, cs, c), q')
  {
    hide LeastFree;
    TableAfterMore(fat0, cs, c);
    assert (cs + [c])[..|cs|] == cs;
    if q != [] {
      assert q' == q[1..];
    }
  }

  lemma HandedAll(fat0: FatTable, q0: seq<nat>, start: nat, cs: seq<nat>, fat: FatTable, q: seq<nat>)
    requires Handing(fat0, q0, start, cs, fat, q)
    ensures HandedOut(fat0, q0, start, cs)
  {
  }
}
