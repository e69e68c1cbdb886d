/** The in-memory FAT of include/fat12.h: cluster chains, first-fit allocation and
    deletion.  The file system keeps one entry per cluster; an entry holds the number of
    the next cluster of the same file, 0 when the cluster is free, or a value >= 0xFF0 at
    the end of a file. */
module FatTable {
  import opened Basics

  const ENTRIES := 3072
  const FIRST_DATA := 2
  const FIRST_END := 0xFF0
  const LAST_CLUSTER := 0xFFF

  type Table = f: seq<nat> | |f| == ENTRIES witness seq(ENTRIES, _ => 0)

  // ---------------------------------------------------------------- chains

  /** The test of fat12_next_sector: 0 and everything from 0xFF0 upwards stop a walk. */
  predicate Stops(v: nat) {
    v == 0 || v >= FIRST_END
  }

  predicate DataCluster(c: nat) {
    FIRST_DATA <= c < ENTRIES
  }

  /** c lists distinct data clusters, each of which points to the next one. */
  predicate Linked(f: Table, c: seq<nat>) {
    && |c| > 0
    && (forall i :: 0 <= i < |c| ==> DataCluster(c[i]))
    && Distinct(c)
    && (forall i :: 0 <= i < |c| - 1 ==> f[c[i]] == c[i+1])
  }

  /** c is everything a walk from c[0] visits. */
  predicate Walk(f: Table, c: seq<nat>) {
    Linked(f, c) && Stops(f[c[|c|-1]])
  }

  /** c is the chain of a file: a walk that ends in an end-of-file mark. */
  predicate Chain(f: Table, c: seq<nat>) {
    Linked(f, c) && f[c[|c|-1]] >= FIRST_END
  }

  ghost function Members(c: seq<nat>): set<nat> {
    set x | x in c
  }

  lemma WalkPrefixesAgree(f: Table, c: seq<nat>, d: seq<nat>, k: nat)
    requires Linked(f, c) && Linked(f, d) && c[0] == d[0]
    requires k < |c| && k < |d|
    ensures c[k] == d[k]
  {
    if k > 0 {
      WalkPrefixesAgree(f, c, d, k - 1);
    }
  }

  /** Only the last cluster of a walk can stop it. */
  lemma InnerGoesOn(f: Table, c: seq<nat>)
    requires Linked(f, c)
    ensures forall k :: 0 <= k < |c| - 1 ==> !Stops(f[c[k]])
  {
    forall k | 0 <= k < |c| - 1 ensures !Stops(f[c[k]]) {
      assert f[c[k]] == c[k+1];
    }
  }

  /** The start cluster determines the walk. */
  lemma WalkUnique(f: Table, c: seq<nat>, d: seq<nat>)
    requires Walk(f, c) && Walk(f, d) && c[0] == d[0]
    ensures c == d
  {
    forall k: nat | k < |c| && k < |d| ensures c[k] == d[k] {
      WalkPrefixesAgree(f, c, d, k);
    }
    InnerGoesOn(f, c);
    InnerGoesOn(f, d);
    var m := if |c| <= |d| then |c| - 1 else |d| - 1;
    assert c[m] == d[m];
  }

  // ---------------------------------------------------------------- allocation

  predicate InTable(xs: seq<nat>) {
    forall k :: 0 <= k < |xs| ==> xs[k] < ENTRIES
  }

  predicate Ascending(xs: seq<nat>) {
    forall j, k :: 0 <= j < k < |xs| ==> xs[j] < xs[k]
  }

  /** The free data clusters at or above i, lowest first. */
  function FreeFrom(f: Table, i: nat): (r: seq<nat>)
    requires i <= ENTRIES
    ensures Ascending(r)
    ensures forall k :: 0 <= k < |r| ==> i <= r[k] < ENTRIES && f[r[k]] == 0
    decreases ENTRIES - i
  {
    if i == ENTRIES then []
    else if f[i] == 0 then [i] + FreeFrom(f, i + 1)
    else FreeFrom(f, i + 1)
  }

  /** No free cluster is missing from the list. */
  lemma FreeFromComplete(f: Table, i: nat, x: nat)
    requires i <= x < ENTRIES && f[x] == 0
    ensures x in FreeFrom(f, i)
    decreases ENTRIES - i
  {
    if i < x {
      FreeFromComplete(f, i + 1, x);
    }
  }

  function FreeList(f: Table): seq<nat> {
    FreeFrom(f, FIRST_DATA)
  }

  /** f with every cluster of xs made to point to its successor in xs, and the last to t. */
  function Link(f: Table, xs: seq<nat>, t: nat): (r: Table)
    requires InTable(xs)
    ensures forall i :: 0 <= i < ENTRIES && i !in xs ==> r[i] == f[i]
  {
    if xs == [] then f
    else
      var n := |xs| - 1;
      Link(f, xs[..n], xs[n])[xs[n] := t]
  }

  lemma LinkAt(f: Table, xs: seq<nat>, t: nat, k: nat)
    requires InTable(xs)
    requires Distinct(xs) && k < |xs|
    ensures Link(f, xs, t)[xs[k]] == if k == |xs| - 1 then t else xs[k+1]
  {
    var n := |xs| - 1;
    if k < n {
      LinkAt(f, xs[..n], xs[n], k);
      assert xs[..n][k] == xs[k];
    }
  }

  /** C's truncating division of a signed int by the sector size, rounded up as
      fat12_create_file does it. */
  function ClustersFor(size: int): (n: int)
    ensures size >= 0 ==> 512 * (n - 1) < size <= 512 * n
    ensures size < 0 ==> n <= 1 && (n == 1 <==> -512 < size)
  {
    var q := if size >= 0 then size / 512 else -((-size) / 512);
    if size == 512 * q then q else q + 1
  }

  /** The clusters the allocation loop takes when asked for n.  It stops on the n-th free
      one; when n is not in 1..free it never stops early and takes them all. */
  function Taken(f: Table, n: int): (xs: seq<nat>)
    ensures forall k :: 0 <= k < |xs| ==> DataCluster(xs[k]) && f[xs[k]] == 0
    ensures Distinct(xs) && InTable(xs)
  {
    if 1 <= n <= |FreeList(f)| then FreeList(f)[..n] else FreeList(f)
  }

  /** The table the allocation loop leaves: the clusters taken are linked in ascending
      order, and the end mark is written only if the n-th free cluster was reached. */
  function Allocated(f: Table, n: int): Table {
    Link(f, Taken(f, n), if 1 <= n <= |FreeList(f)| then LAST_CLUSTER else 0)
  }

  /** The start cluster recorded in the directory: 0 when nothing was free. */
  function AllocatedStart(f: Table, n: int): nat {
    if Taken(f, n) == [] then 0 else Taken(f, n)[0]
  }

  /** The entries of the clusters taken, whether or not the loop ran out of free ones. */
  lemma AllocatedAt(f: Table, n: int, k: nat)
    requires k < |Taken(f, n)|
    ensures Allocated(f, n)[Taken(f, n)[k]] ==
            if k < |Taken(f, n)| - 1 then Taken(f, n)[k+1]
            else if 1 <= n <= |FreeList(f)| then LAST_CLUSTER else 0
  {
    hide Link, FreeList;
    LinkAt(f, Taken(f, n), if 1 <= n <= |FreeList(f)| then LAST_CLUSTER else 0, k);
  }

  lemma LinkedUp(g: Table, xs: seq<nat>)
    requires xs != [] && Distinct(xs) && InTable(xs)
    requires forall k :: 0 <= k < |xs| ==> DataCluster(xs[k])
    requires forall k :: 0 <= k < |xs| - 1 ==> g[xs[k]] == xs[k+1]
    ensures Linked(g, xs)
  {
  }

  /** What the loop links up is a walk even when it ran out of free clusters. */
  lemma AllocatedWalk(f: Table, n: int)
    requires Taken(f, n) != []
    ensures Walk(Allocated(f, n), Taken(f, n))
    ensures Chain(Allocated(f, n), Taken(f, n)) <==> 1 <= n <= |FreeList(f)|
  {
    hide Link, FreeList, Linked, Distinct;
    var xs, g := Taken(f, n), Allocated(f, n);
    forall k: nat | k < |xs| - 1 ensures g[xs[k]] == xs[k+1] {
      AllocatedAt(f, n, k);
    }
    AllocatedAt(f, n, |xs| - 1);
    LinkedUp(g, xs);
  }

  /** Exactly when there are between 1 and all of the free clusters to take does the
      allocator hand out a chain; the chain is the n lowest free clusters in ascending
      order, ends in 0xFFF, and nothing else changes. */
  lemma AllocationMakesChain(f: Table, n: int)
    ensures (exists c :: Chain(Allocated(f, n), c) && c[0] == AllocatedStart(f, n)) <==>
            1 <= n <= |FreeList(f)|
    ensures 1 <= n <= |FreeList(f)| ==>
            && Chain(Allocated(f, n), FreeList(f)[..n])
            && FreeList(f)[0] == AllocatedStart(f, n)
            && Allocated(f, n)[FreeList(f)[n-1]] == 0xFFF
            && (forall i :: 0 <= i < ENTRIES && i !in FreeList(f)[..n] ==> Allocated(f, n)[i] == f[i])
  {
    hide FreeList, Link, Chain, Walk;
    if 1 <= n <= |FreeList(f)| {
      AllocatedWalk(f, n);
      AllocatedAt(f, n, n - 1);
    } else {
      NoChainWithout(f, n);
    }
  }

  lemma NoChainWithout(f: Table, n: int)
    requires !(1 <= n <= |FreeList(f)|)
    ensures !exists c :: Chain(Allocated(f, n), c) && c[0] == AllocatedStart(f, n)
  {
    hide FreeList, Link, Allocated;
    if c :| Chain(Allocated(f, n), c) && c[0] == AllocatedStart(f, n) {
      if Taken(f, n) != [] {
        AllocatedWalk(f, n);
        WalkUnique(Allocated(f, n), c, Taken(f, n));
      }
    }
  }

  /** No free cluster below the last one taken is left over. */
  lemma TakenAreLowest(f: Table, n: int, x: nat)
    requires 1 <= n <= |FreeList(f)| && DataCluster(x) && f[x] == 0 && x !in Taken(f, n)
    ensures forall k :: 0 <= k < n ==> Taken(f, n)[k] < x
  {
    FreeFromComplete(f, FIRST_DATA, x);
    var m :| 0 <= m < |FreeList(f)| && FreeList(f)[m] == x;
    TakenPrefix(f, n, m);
  }

  lemma TakenPrefix(f: Table, n: int, m: nat)
    requires 1 <= n <= |FreeList(f)| && m < |FreeList(f)|
    ensures m < n ==> FreeList(f)[m] in Taken(f, n)
  {
    if m < n {
      assert Taken(f, n)[m] == FreeList(f)[m];
    }
  }

  // ---------------------------------------------------------------- deletion

  function Clear(f: Table, xs: seq<nat>): (r: Table)
    requires InTable(xs)
    ensures forall i :: 0 <= i < ENTRIES ==> r[i] == if i in xs then 0 else f[i]
    decreases |xs|
  {
    if xs == [] then f else Clear(f[xs[0] := 0], xs[1..])
  }

  /** No walk can leave the table. */
  predicate InRange(f: Table) {
    forall i :: 0 <= i < ENTRIES ==> f[i] < ENTRIES || Stops(f[i])
  }

  function Occupied(f: Table): set<nat> {
    set i | 0 <= i < ENTRIES && f[i] != 0
  }

  lemma OccupiedShrinks(f: Table, c: nat)
    requires c < ENTRIES && f[c] != 0
    ensures |Occupied(f[c := 0])| < |Occupied(f)|
  {
    assert Occupied(f[c := 0]) == Occupied(f) - {c};
  }

  /** The table after fat12_del_fat_entry(c), with each visited entry set to 0.  Zeroing
      makes even a cyclic walk stop: an entry met again reads 0. */
  function Deleted(f: Table, c: nat): Table
    requires InRange(f) && c < ENTRIES
    decreases |Occupied(f)|
  {
    if Stops(f[c]) then f[c := 0]
    else
      OccupiedShrinks(f, c);
      Deleted(f[c := 0], f[c])
  }

  /** On a walk, deletion frees exactly the clusters of the walk. */
  lemma {:induction false} DeletedClearsWalk(f: Table, c: seq<nat>)
    requires InRange(f) && Walk(f, c)
    ensures Deleted(f, c[0]) == Clear(f, c)
    decreases |c|
  {
    if |c| == 1 {
      assert Clear(f[c[0] := 0], c[1..]) == f[c[0] := 0];
    } else {
      var g := f[c[0] := 0];
      assert forall i :: 0 <= i < |c[1..]| ==> c[1..][i] == c[i+1];
      assert Walk(g, c[1..]);
      DeletedClearsWalk(g, c[1..]);
    }
  }

  lemma AllocatedInRange(f: Table, n: int)
    requires InRange(f)
    ensures InRange(Allocated(f, n))
  {
    hide Taken, FreeList;
    var xs := Taken(f, n);
    var g := Allocated(f, n);
    forall i | 0 <= i < ENTRIES ensures g[i] < ENTRIES || Stops(g[i]) {
      if i in xs {
        var k :| 0 <= k < |xs| && xs[k] == i;
        AllocatedAt(f, n, k);
      }
    }
  }

  lemma TakenWasFree(f: Table, n: int, x: nat)
    requires x in Taken(f, n)
    ensures DataCluster(x) && f[x] == 0
  {
  }

  /** Freeing what was just allocated restores the table entry for entry; this even holds
      when the allocator ran out of free clusters. */
  lemma FreeUndoesAllocate(f: Table, n: int)
    requires InRange(f) && Taken(f, n) != []
    ensures InRange(Allocated(f, n)) && Deleted(Allocated(f, n), AllocatedStart(f, n)) == f
  {
    var xs := Taken(f, n);
    AllocatedInRange(f, n);
    AllocatedWalk(f, n);
    DeletedClearsWalk(Allocated(f, n), xs);
    hide Walk, Linked, FreeList;
    forall i | 0 <= i < ENTRIES ensures Clear(Allocated(f, n), xs)[i] == f[i] {
      if i in xs {
        TakenWasFree(f, n, i);
      }
    }
  }

  // ---------------------------------------------------------------- volumes

  /** A FAT together with the start cluster of every live file, by directory slot. */
  datatype Volume = Volume(fat: Table, start: map<nat, nat>)

  ghost predicate HasChain(f: Table, s: nat) {
    exists c :: Chain(f, c) && c[0] == s
  }

  ghost function ChainOf(f: Table, s: nat): (c: seq<nat>)
    ensures HasChain(f, s) ==> Chain(f, c) && c[0] == s
    ensures !HasChain(f, s) ==> c == []
  {
    if HasChain(f, s) then
      var c :| Chain(f, c) && c[0] == s; c
    else []
  }

  lemma ChainOfIs(f: Table, c: seq<nat>)
    requires Chain(f, c)
    ensures HasChain(f, c[0]) && ChainOf(f, c[0]) == c
  {
    WalkUnique(f, ChainOf(f, c[0]), c);
  }

  /** Every live file has an acyclic chain that ends in an end mark, and no two live files
      share a cluster. */
  ghost predicate WellFormed(v: Volume) {
    && InRange(v.fat)
    && (forall x :: x in v.start ==> HasChain(v.fat, v.start[x]))
    && (forall x, y :: x in v.start && y in v.start && x != y ==>
          Members(ChainOf(v.fat, v.start[x])) !! Members(ChainOf(v.fat, v.start[y])))
  }

  ghost function FreeClusters(f: Table): set<nat> {
    set i: nat | FIRST_DATA <= i < ENTRIES && f[i] == 0
  }

  ghost function UsedClusters(v: Volume): set<nat> {
    set x, c | x in v.start && c in ChainOf(v.fat, v.start[x]) :: c
  }

  /** The clusters the file system can still give away or give back. */
  ghost function Accounted(v: Volume): set<nat> {
    FreeClusters(v.fat) + UsedClusters(v)
  }

  lemma ChainMembers(f: Table, c: seq<nat>)
    requires Chain(f, c)
    ensures forall x :: x in c ==> DataCluster(x) && f[x] != 0
  {
    forall x | x in c ensures DataCluster(x) && f[x] != 0 {
      var k :| 0 <= k < |c| && c[k] == x;
      assert k < |c| - 1 ==> f[x] == c[k+1];
    }
  }

  lemma FreeAndUsedDisjoint(v: Volume)
    requires WellFormed(v)
    ensures FreeClusters(v.fat) !! UsedClusters(v)
    ensures |Accounted(v)| == |FreeClusters(v.fat)| + |UsedClusters(v)|
  {
    forall c | c in UsedClusters(v) ensures c !in FreeClusters(v.fat) {
      var x :| x in v.start && c in ChainOf(v.fat, v.start[x]);
      ChainMembers(v.fat, ChainOf(v.fat, v.start[x]));
    }
  }

  /** A chain none of whose entries changed is still the chain of its start cluster. */
  lemma ChainFrame(f: Table, g: Table, s: nat)
    requires HasChain(f, s)
    requires forall c :: c in ChainOf(f, s) ==> g[c] == f[c]
    ensures HasChain(g, s) && ChainOf(g, s) == ChainOf(f, s)
  {
    var c := ChainOf(f, s);
    assert forall i :: 0 <= i < |c| ==> c[i] in c;
    assert Chain(g, c);
    ChainOfIs(g, c);
  }

  function Without(v: Volume, slot: nat): Volume {
    v.(start := v.start - {slot})
  }

  lemma UsedSplit(v: Volume, slot: nat)
    requires slot in v.start
    ensures UsedClusters(v) == UsedClusters(Without(v, slot)) + Members(ChainOf(v.fat, v.start[slot]))
  {
    hide ChainOf;
    var w := Without(v, slot);
    forall c | c in UsedClusters(v)
      ensures c in UsedClusters(w) + Members(ChainOf(v.fat, v.start[slot]))
    {
      var x :| x in v.start && c in ChainOf(v.fat, v.start[x]);
      assert x != slot ==> x in w.start && c in ChainOf(w.fat, w.start[x]);
    }
  }

  lemma UsedFrame(v: Volume, w: Volume)
    requires v.start == w.start
    requires forall x :: x in v.start ==> ChainOf(w.fat, v.start[x]) == ChainOf(v.fat, v.start[x])
    ensures UsedClusters(v) == UsedClusters(w)
  {
    hide ChainOf;
    forall c ensures c in UsedClusters(v) <==> c in UsedClusters(w) {
      if c in UsedClusters(v) {
        var x :| x in v.start && c in ChainOf(v.fat, v.start[x]);
        assert c in ChainOf(w.fat, w.start[x]);
      }
      if c in UsedClusters(w) {
        var x :| x in w.start && c in ChainOf(w.fat, w.start[x]);
        assert c in ChainOf(v.fat, v.start[x]);
      }
    }
  }

  function Create(v: Volume, slot: nat, n: int): Volume {
    Volume(Allocated(v.fat, n), v.start[slot := AllocatedStart(v.fat, n)])
  }

  function Remove(v: Volume, slot: nat): Volume
    requires InRange(v.fat) && slot in v.start && v.start[slot] < ENTRIES
  {
    Volume(Deleted(v.fat, v.start[slot]), v.start - {slot})
  }

  /** The chains of the files that were there before an allocation survive it. */
  lemma CreateKeepsChain(v: Volume, n: int, s: nat)
    requires HasChain(v.fat, s)
    ensures HasChain(Allocated(v.fat, n), s)
    ensures ChainOf(Allocated(v.fat, n), s) == ChainOf(v.fat, s)
    ensures Members(ChainOf(v.fat, s)) !! Members(Taken(v.fat, n))
  {
    ChainMembers(v.fat, ChainOf(v.fat, s));
    ChainFrame(v.fat, Allocated(v.fat, n), s);
  }

  /** Creating a file keeps the volume well formed exactly when the number of clusters
      asked for lies between 1 and the number of free clusters. */
  lemma CreateWellFormed(v: Volume, slot: nat, n: int)
    requires WellFormed(v) && slot !in v.start
    ensures WellFormed(Create(v, slot, n)) <==> 1 <= n <= |FreeList(v.fat)|
    ensures 1 <= n <= |FreeList(v.fat)| ==>
            && ChainOf(Create(v, slot, n).fat, AllocatedStart(v.fat, n)) == FreeList(v.fat)[..n]
            && Accounted(Create(v, slot, n)) == Accounted(v)
  {
    AllocationMakesChain(v.fat, n);
    var w := Create(v, slot, n);
    if 1 <= n <= |FreeList(v.fat)| {
      ChainOfIs(w.fat, FreeList(v.fat)[..n]);
      CreateKeeps(v, slot, n);
    } else {
      assert slot in w.start;
    }
  }

  lemma CreateKeeps(v: Volume, slot: nat, n: int)
    requires WellFormed(v) && slot !in v.start && 1 <= n <= |FreeList(v.fat)|
    requires HasChain(Allocated(v.fat, n), AllocatedStart(v.fat, n))
    requires ChainOf(Allocated(v.fat, n), AllocatedStart(v.fat, n)) == Taken(v.fat, n)
    ensures WellFormed(Create(v, slot, n)) && Accounted(Create(v, slot, n)) == Accounted(v)
  {
    hide ChainOf, FreeList, Taken, Allocated, AllocatedStart, InRange, HasChain, Accounted;
    AllocatedInRange(v.fat, n);
    var w := Create(v, slot, n);
    forall x | x in v.start
      ensures HasChain(w.fat, v.start[x]) && ChainOf(w.fat, v.start[x]) == ChainOf(v.fat, v.start[x])
      ensures Members(ChainOf(v.fat, v.start[x])) !! Members(Taken(v.fat, n))
    {
      CreateKeepsChain(v, n, v.start[x]);
    }
    CreateAccounts(v, w, slot, n);
  }

  lemma CreateAccounts(v: Volume, w: Volume, slot: nat, n: int)
    requires slot !in v.start && 1 <= n <= |FreeList(v.fat)| && w == Create(v, slot, n)
    requires forall x :: x in v.start ==> ChainOf(w.fat, v.start[x]) == ChainOf(v.fat, v.start[x])
    requires ChainOf(w.fat, w.start[slot]) == Taken(v.fat, n)
    ensures Accounted(w) == Accounted(v)
  {
    hide FreeClusters, UsedClusters, FreeList, Taken, Allocated, AllocatedStart, ChainOf, Members;
    UsedSplit(w, slot);
    assert Without(w, slot).start == v.start;
    UsedFrame(v, Without(w, slot));
    CreateFrees(v.fat, n);
  }

  /** Allocation takes its clusters out of the free set and nothing else. */
  lemma CreateFrees(f: Table, n: int)
    requires 1 <= n <= |FreeList(f)|
    ensures FreeClusters(Allocated(f, n)) == FreeClusters(f) - Members(Taken(f, n))
    ensures Members(Taken(f, n)) <= FreeClusters(f)
  {
    var xs, g := Taken(f, n), Allocated(f, n);
    AllocationMakesChain(f, n);
    ChainMembers(g, xs);
  }

  /** Removing a live file keeps the volume well formed and gives back exactly the
      clusters of its chain. */
  lemma RemoveWellFormed(v: Volume, slot: nat)
    requires WellFormed(v) && slot in v.start
    ensures v.start[slot] < ENTRIES
    ensures WellFormed(Remove(v, slot))
    ensures Accounted(Remove(v, slot)) == Accounted(v)
    ensures FreeClusters(Remove(v, slot).fat) == FreeClusters(v.fat) + Members(ChainOf(v.fat, v.start[slot]))
  {
    var c := ChainOf(v.fat, v.start[slot]);
    ChainMembers(v.fat, c);
    assert c[0] in c;
    DeletedClearsWalk(v.fat, c);
    RemoveKeeps(v, slot);
  }

  lemma RemoveKeeps(v: Volume, slot: nat)
    requires WellFormed(v) && slot in v.start && v.start[slot] < ENTRIES
    requires forall x :: x in ChainOf(v.fat, v.start[slot]) ==> DataCluster(x) && v.fat[x] != 0
    requires InTable(ChainOf(v.fat, v.start[slot]))
    requires Remove(v, slot).fat == Clear(v.fat, ChainOf(v.fat, v.start[slot]))
    ensures WellFormed(Remove(v, slot))
    ensures Accounted(Remove(v, slot)) == Accounted(v)
    ensures FreeClusters(Remove(v, slot).fat) == FreeClusters(v.fat) + Members(ChainOf(v.fat, v.start[slot]))
  {
    hide ChainOf, Deleted, HasChain, InRange, FreeClusters, UsedClusters;
    var c, w := ChainOf(v.fat, v.start[slot]), Remove(v, slot);
    ClearInRange(v.fat, c);
    ClearFrees(v.fat, c);
    forall x | x in w.start
      ensures HasChain(w.fat, v.start[x]) && ChainOf(w.fat, v.start[x]) == ChainOf(v.fat, v.start[x])
    {
      assert Members(ChainOf(v.fat, v.start[x])) !! Members(c);
      forall k | k in ChainOf(v.fat, v.start[x]) ensures k < ENTRIES && w.fat[k] == v.fat[k] {
        ChainOfMembers(v.fat, v.start[x]);
        assert k in Members(ChainOf(v.fat, v.start[x])) && k !in Members(c);
      }
      ChainFrame(v.fat, w.fat, v.start[x]);
    }
    UsedSplit(v, slot);
    UsedFrame(Without(v, slot), w);
  }

  lemma ClearInRange(f: Table, xs: seq<nat>)
    requires InRange(f) && InTable(xs)
    ensures InRange(Clear(f, xs))
  {
  }

  lemma ClearFrees(f: Table, xs: seq<nat>)
    requires InTable(xs) && forall x :: x in xs ==> DataCluster(x) && f[x] != 0
    ensures FreeClusters(Clear(f, xs)) == FreeClusters(f) + Members(xs)
  {
  }

  lemma ChainOfMembers(f: Table, s: nat)
    ensures forall x :: x in ChainOf(f, s) ==> DataCluster(x) && f[x] != 0
  {
    if HasChain(f, s) {
      ChainMembers(f, ChainOf(f, s));
    }
  }

  datatype Op = CreateOp(slot: nat, size: int) | RemoveOp(slot: nat)

  /** What a caller can check before the call: the file fits and its slot is unused, or
      the file to remove is live. */
  predicate Enabled(v: Volume, op: Op) {
    match op
    case CreateOp(slot, size) =>
      slot !in v.start && 1 <= ClustersFor(size) <= |FreeList(v.fat)|
    case RemoveOp(slot) => slot in v.start
  }

  ghost function Apply(v: Volume, op: Op): Volume
    requires WellFormed(v) && Enabled(v, op)
  {
    match op
    case CreateOp(slot, size) => Create(v, slot, ClustersFor(size))
    case RemoveOp(slot) => RemoveWellFormed(v, slot); Remove(v, slot)
  }

  lemma ApplyWellFormed(v: Volume, op: Op)
    requires WellFormed(v) && Enabled(v, op)
    ensures WellFormed(Apply(v, op)) && Accounted(Apply(v, op)) == Accounted(v)
  {
    match op
    case CreateOp(slot, size) => CreateWellFormed(v, slot, ClustersFor(size));
    case RemoveOp(slot) => RemoveWellFormed(v, slot);
  }

  /** One step of a run: the operation was enabled and w is its result. */
  ghost predicate Step(v: Volume, op: Op, w: Volume) {
    WellFormed(v) ==> Enabled(v, op) && w == Apply(v, op)
  }

  ghost predicate Run(vs: seq<Volume>, ops: seq<Op>) {
    && |vs| == |ops| + 1
    && forall i :: 0 <= i < |ops| ==> Step(vs[i], ops[i], vs[i+1])
  }

  /** Safety and conservation over whole runs: from a well-formed volume, any sequence of
      creations and removals keeps all chains acyclic, terminated and disjoint, and never
      loses or invents a cluster. */
  lemma {:induction false} RunSafe(vs: seq<Volume>, ops: seq<Op>, i: nat)
    requires Run(vs, ops) && WellFormed(vs[0]) && i < |vs|
    ensures WellFormed(vs[i]) && Accounted(vs[i]) == Accounted(vs[0])
    ensures |FreeClusters(vs[i].fat)| + |UsedClusters(vs[i])| ==
            |FreeClusters(vs[0].fat)| + |UsedClusters(vs[0])|
  {
    hide WellFormed, Accounted, Apply, Enabled, FreeClusters, UsedClusters;
    if i > 0 {
      RunSafe(vs, ops, i - 1);
      assert Step(vs[i-1], ops[i-1], vs[i-1+1]);
      ApplyWellFormed(vs[i-1], ops[i-1]);
    }
    FreeAndUsedDisjoint(vs[i]);
    FreeAndUsedDisjoint(vs[0]);
  }

  /** The clusters fat12_del_fat_entry(c) comes to. */
  ghost function Visited(f: Table, c: nat): (r: set<nat>)
    requires InRange(f) && c < ENTRIES
    ensures c in r
    decreases |Occupied(f)|
  {
    if Stops(f[c]) then {c}
    else
      OccupiedShrinks(f, c);
      {c} + Visited(f[c := 0], f[c])
  }

  lemma {:induction false} DeletedVisited(f: Table, c: nat)
    requires InRange(f) && c < ENTRIES
    ensures forall k :: 0 <= k < ENTRIES ==> Deleted(f, c)[k] == if k in Visited(f, c) then 0 else f[k]
    ensures InRange(Deleted(f, c)) && forall k :: k in Visited(f, c) ==> k < ENTRIES
    decreases |Occupied(f)|
  {
    if !Stops(f[c]) {
      OccupiedShrinks(f, c);
      DeletedVisited(f[c := 0], f[c]);
    }
  }

  /** Deletion from any cluster leaves all files of a volume in order exactly when it comes to
      none of their clusters. */
  lemma DeletionHarmlessIff(v: Volume, c: nat)
    requires WellFormed(v) && c < ENTRIES
    ensures WellFormed(Volume(Deleted(v.fat, c), v.start)) <==> Visited(v.fat, c) !! UsedClusters(v)
  {
    hide Deleted, Visited, ChainOf, HasChain;
    DeletedVisited(v.fat, c);
    var g := Deleted(v.fat, c);
    if Visited(v.fat, c) !! UsedClusters(v) {
      forall x | x in v.start ensures HasChain(g, v.start[x]) && ChainOf(g, v.start[x]) == ChainOf(v.fat, v.start[x]) {
        UntouchedChain(v, g, x);
      }
    } else {
      var k :| k in Visited(v.fat, c) && k in UsedClusters(v);
      var x :| x in v.start && k in ChainOf(v.fat, v.start[x]);
      ClearedChain(v.fat, g, v.start[x], k);
    }
  }

  lemma UntouchedChain(v: Volume, g: Table, x: nat)
    requires WellFormed(v) && x in v.start
    requires forall k :: k in UsedClusters(v) && k < ENTRIES ==> g[k] == v.fat[k]
    ensures HasChain(g, v.start[x]) && ChainOf(g, v.start[x]) == ChainOf(v.fat, v.start[x])
  {
    hide ChainOf, HasChain;
    ChainOfMembers(v.fat, v.start[x]);
    forall k | k in ChainOf(v.fat, v.start[x]) ensures g[k] == v.fat[k] {
      assert k in UsedClusters(v);
    }
    ChainFrame(v.fat, g, v.start[x]);
  }

  /** A chain none of whose clusters may read 0 does not survive the clearing of one. */
  lemma ClearedChain(f: Table, g: Table, s: nat, k: nat)
    requires HasChain(f, s) && k in ChainOf(f, s) && k < ENTRIES && g[k] == 0
    requires forall i :: 0 <= i < ENTRIES ==> g[i] == 0 || g[i] == f[i]
    ensures !HasChain(g, s)
  {
    hide ChainOf;
    if d :| Chain(g, d) && d[0] == s {
      ChainMembers(g, d);
      assert forall i :: 0 <= i < |d| ==> d[i] in d;
      assert Chain(f, d);
      WalkUnique(f, ChainOf(f, s), d);
      assert false;
    }
  }

  /** Deletion that starts at any cluster of a chain leaves its file without one. */
  lemma CutDestroysChain(f: Table, c: seq<nat>, p: nat)
    requires InRange(f) && Chain(f, c) && p < |c|
    ensures c[p] < ENTRIES && !HasChain(Deleted(f, c[p]), c[0])
  {
    hide Deleted, Visited;
    DeletedVisited(f, c[p]);
    ChainOfIs(f, c);
    ClearedChain(f, Deleted(f, c[p]), c[0], c[p]);
  }

  /** The clusters a deletion frees that belong to no file come back to the free ones. */
  lemma DeletionFrees(v: Volume, c: nat)
    requires WellFormed(v) && c < ENTRIES && Visited(v.fat, c) !! UsedClusters(v)
    ensures var w := Volume(Deleted(v.fat, c), v.start);
            Accounted(w) == Accounted(v) + set k | k in Visited(v.fat, c) && k >= FIRST_DATA
  {
    hide Deleted, Visited, ChainOf, HasChain;
    DeletedVisited(v.fat, c);
    var w := Volume(Deleted(v.fat, c), v.start);
    forall x | x in v.start ensures ChainOf(w.fat, v.start[x]) == ChainOf(v.fat, v.start[x]) {
      UntouchedChain(v, w.fat, x);
    }
    UsedFrame(v, w);
  }

  // ---------------------------------------------------------------- deletion as written

  /** The cluster the loop of fat12_del_fat_entry is at in round k when it stores nothing in
      the table; it stays where it stops. */
  function Round(f: Table, c: nat, k: nat): (r: nat)
    requires InRange(f) && c < ENTRIES
    ensures r < ENTRIES
  {
    if k == 0 then c
    else
      var d := Round(f, c, k - 1);
      if Stops(f[d]) then d else f[d]
  }

  /** The loop stops in round n and not before. */
  ghost predicate EndsIn(f: Table, c: nat, n: nat)
    requires InRange(f) && c < ENTRIES
  {
    Stops(f[Round(f, c, n)]) && forall k :: 0 <= k < n ==> !Stops(f[Round(f, c, k)])
  }

  /** A loop that comes back to a cluster never stops. */
  lemma {:induction false} Repeats(f: Table, c: nat, i: nat, j: nat, d: nat)
    requires InRange(f) && c < ENTRIES && Round(f, c, i) == Round(f, c, j)
    ensures Round(f, c, i + d) == Round(f, c, j + d)
  {
    if d > 0 {
      Repeats(f, c, i, j, d - 1);
    }
  }

  lemma RoundsDistinct(f: Table, c: nat, n: nat)
    requires InRange(f) && c < ENTRIES && EndsIn(f, c, n)
    ensures Distinct(seq(n + 1, k requires 0 <= k => Round(f, c, k)))
  {
    hide Round;
    var xs := seq(n + 1, k requires 0 <= k => Round(f, c, k));
    forall i, j | 0 <= i < j < |xs| ensures xs[i] != xs[j] {
      if xs[i] == xs[j] {
        Repeats(f, c, i, j, n - j);
        assert false;
      }
    }
  }

  /** The literal deletion loop ends exactly when it ends within as many rounds as the table
      has entries. */
  lemma EndsSoonIff(f: Table, c: nat)
    requires InRange(f) && c < ENTRIES
    ensures (exists n: nat :: EndsIn(f, c, n)) <==> (exists n: nat :: n < ENTRIES && EndsIn(f, c, n))
  {
    hide Round, EndsIn;
    if n: nat :| EndsIn(f, c, n) {
      var xs := seq(n + 1, k requires 0 <= k => Round(f, c, k));
      RoundsDistinct(f, c, n);
      MembersCount(xs);
      assert Members(xs) <= Below(ENTRIES);
      SubsetCount(Members(xs), Below(ENTRIES));
    }
  }

  ghost function Below(n: nat): (r: set<nat>)
    ensures |r| == n && forall x: nat :: x in r <==> x < n
  {
    if n == 0 then {} else Below(n - 1) + {n - 1}
  }

  lemma SubsetCount(a: set<nat>, b: set<nat>)
    requires a <= b
    ensures |a| <= |b|
  {
    assert b == a + (b - a);
  }

  /** Distinct entries, each of which points to the next one, up to one that stops. */
  predicate Trail(f: Table, w: seq<nat>) {
    && |w| > 0 && InTable(w) && Distinct(w) && Stops(f[w[|w|-1]])
    && forall i :: 0 <= i < |w| - 1 ==> !Stops(f[w[i]]) && f[w[i]] == w[i+1]
  }

  lemma {:induction false} OnTrail(f: Table, w: seq<nat>, k: nat)
    requires InRange(f) && Trail(f, w) && k < |w|
    ensures Round(f, w[0], k) == w[k]
  {
    if k > 0 {
      OnTrail(f, w, k - 1);
      assert !Stops(f[w[k-1]]) && f[w[k-1]] == w[k-1+1];
    }
  }

  /** The literal deletion loop ends exactly when such a trail starts at its first cluster, as
      it does for a walk. */
  lemma EndsOnTrailIff(f: Table, c: nat)
    requires InRange(f) && c < ENTRIES
    ensures (exists n: nat :: EndsIn(f, c, n)) <==> (exists w :: Trail(f, w) && w[0] == c)
    ensures forall w :: Walk(f, w) ==> Trail(f, w)
  {
    if n: nat :| EndsIn(f, c, n) {
      RoundsDistinct(f, c, n);
      RoundsTrail(f, c, n);
    }
    if w :| Trail(f, w) && w[0] == c {
      TrailEnds(f, w);
    }
    forall w | Walk(f, w) ensures Trail(f, w) {
      InnerGoesOn(f, w);
      assert forall i :: 0 <= i < |w| - 1 ==> f[w[i]] == w[i+1];
    }
  }

  lemma RoundsTrail(f: Table, c: nat, n: nat)
    requires InRange(f) && c < ENTRIES && EndsIn(f, c, n)
    requires Distinct(seq(n + 1, k requires 0 <= k => Round(f, c, k)))
    ensures exists w :: Trail(f, w) && w[0] == c
  {
    var w := seq(n + 1, k requires 0 <= k => Round(f, c, k));
    forall i | 0 <= i < |w| - 1 ensures !Stops(f[w[i]]) && f[w[i]] == w[i+1] {
      assert w[i+1] == Round(f, c, i + 1);
    }
    assert Trail(f, w) && w[0] == c;
  }

  lemma TrailEnds(f: Table, w: seq<nat>)
    requires InRange(f) && Trail(f, w)
    ensures EndsIn(f, w[0], |w| - 1)
  {
    hide Round;
    forall k: nat | k < |w| ensures Round(f, w[0], k) == w[k] {
      OnTrail(f, w, k);
    }
  }

  /** include/fat12.h:406 hands memset the value of the entry as an address, so the stores
      land below 0x1004 and the table keeps its contents.  Only the directory entry goes:
      the remaining chains stay sound, but the removed chain, and nothing else, leaks; its
      clusters are neither free nor reachable any more. */
  lemma RemoveAsWrittenLeaks(v: Volume, slot: nat)
    requires WellFormed(v) && slot in v.start
    ensures WellFormed(Without(v, slot))
    ensures Accounted(Without(v, slot)) == Accounted(v) - Members(ChainOf(v.fat, v.start[slot]))
    ensures |Accounted(Without(v, slot))| == |Accounted(v)| - |ChainOf(v.fat, v.start[slot])|
    ensures |ChainOf(v.fat, v.start[slot])| > 0
  {
    hide FreeClusters, UsedClusters, Members, InRange;
    MembersCount(ChainOf(v.fat, v.start[slot]));
    ChainNotFree(v.fat, v.start[slot]);
    WithoutDisjoint(v, slot);
    UsedSplit(v, slot);
    assert Accounted(Without(v, slot)) == Accounted(v) - Members(ChainOf(v.fat, v.start[slot]));
  }

  lemma ChainNotFree(f: Table, s: nat)
    ensures FreeClusters(f) !! Members(ChainOf(f, s))
  {
    ChainOfMembers(f, s);
  }

  lemma WithoutDisjoint(v: Volume, slot: nat)
    requires WellFormed(v) && slot in v.start
    ensures UsedClusters(Without(v, slot)) !! Members(ChainOf(v.fat, v.start[slot]))
  {
    hide ChainOf, HasChain, InRange;
    forall k | k in UsedClusters(Without(v, slot)) ensures k !in Members(ChainOf(v.fat, v.start[slot])) {
      var x :| x in Without(v, slot).start && k in ChainOf(v.fat, v.start[x]);
      assert k in Members(ChainOf(v.fat, v.start[x]));
    }
  }

  lemma MembersCount(c: seq<nat>)
    requires Distinct(c)
    ensures |Members(c)| == |c|
  {
    if c == [] {
    } else {
      var n := |c| - 1;
      MembersCount(c[..n]);
      assert Members(c) == Members(c[..n]) + {c[n]};
    }
  }
}
