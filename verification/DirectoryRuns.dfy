/** What fat12_find_entry finds, dead entries included, and whole runs of fat12_create_file and
    fat12_rm by name on the root directory and the FAT. */
module DirectoryRuns {
  import opened Basics
  import opened CString
  import opened FatNames
  import opened FatDirectory
  import opened FatTable
  import FatPath

  // ---------------------------------------------------------------- finding dead entries

  /** A zeroed entry is found under "." or something before it is. */
  lemma ZeroEntryFound(d: seq<Slot>, i: nat)
    requires SlotsOk(d) && i < |d| && d[i].raw == Zeros(RAW_BYTES)
    ensures 0 <= Lookup(d, [DOT], 0) <= i
  {
    DecodedDot(d[i].raw);
  }

  /** A name that starts neither with a dot nor with the mark 0xE5 finds live entries only,
      and one that starts with the mark finds none of them. */
  lemma FoundLive(d: seq<Slot>, name: seq<char>)
    requires SlotsOk(d) && Lookup(d, name, 0) != NULL && name != [] && name[0] != DOT
    ensures Live(d[Lookup(d, name, 0)]) <==> name[0] != DELETED
  {
    DecodedFirst(d[Lookup(d, name, 0)].raw);
  }

  /** A directory as formatting and the file system leave it: never-used entries have no
      extension, live ones have one (be it blank), and there are no dot entries. */
  predicate Orderly(d: seq<Slot>) {
    && SlotsOk(d)
    && forall i :: 0 <= i < |d| ==>
         && (d[i].raw[0] == NUL ==> d[i].raw[NAME_BYTES] == NUL)
         && (Live(d[i]) ==> d[i].raw[NAME_BYTES] != NUL && d[i].raw[0] != DOT)
  }

  /** The names under which a caller can only find live entries. */
  predicate Proper(name: seq<char>) {
    name != [DOT] && (name == [] || name[0] != DELETED)
  }

  /** In an orderly directory a found entry is live exactly when the name is proper. */
  lemma FoundLiveIff(d: seq<Slot>, name: seq<char>)
    requires Orderly(d) && Lookup(d, name, 0) != NULL
    ensures Live(d[Lookup(d, name, 0)]) <==> Proper(name)
  {
    hide DecodedName;
    var raw := d[Lookup(d, name, 0)].raw;
    DecodedFirst(raw);
    if raw[0] == NUL || raw[0] == SPACE {
      DecodedDot(raw);
    }
  }

  /** In an orderly directory "." finds the first entry that was never used. */
  lemma DotFindsBlank(d: seq<Slot>)
    requires Orderly(d)
    ensures Lookup(d, [DOT], 0) == FirstBlank(d, 0)
  {
    hide DecodedName;
    forall i | 0 <= i < |d| ensures DecodedName(d[i].raw) == [DOT] <==> d[i].raw[0] == NUL {
      DecodedFirst(d[i].raw);
      if d[i].raw[0] == NUL || d[i].raw[0] == SPACE {
        DecodedDot(d[i].raw);
      }
    }
    SameFirst(d, 0);
  }

  /** cd . at the root takes the first never-used entry: in a zeroed one it finds start 0, and
      curr_dir and curr_path stand for no directory any more. */
  lemma CdDotAtRoot(d: seq<Slot>, stack: seq<FatPath.Dir>)
    requires Orderly(d) && FirstBlank(d, 0) != NULL && d[FirstBlank(d, 0)].start == 0 && FatPath.StackOk(stack)
    ensures Lookup(d, [DOT], 0) == FirstBlank(d, 0)
    ensures var start := d[Lookup(d, [DOT], 0)].start;
            && FatPath.NewDir(FatPath.ROOT, start) == 0 != FatPath.ROOT
            && FatPath.NewPath("/", FatPath.ROOT, start, [DOT]) == "/." != FatPath.PathOf(stack)
  {
    DotFindsBlank(d);
    FatPath.DotsAtRoot(0, ".", stack);
  }

  /** cd by name at the root stays in step exactly when the entry found starts neither at
      cluster 19 nor at cluster 0. */
  lemma CdAtRootExact(d: seq<Slot>, name: seq<char>)
    requires SlotsOk(d) && Lookup(d, name, 0) != NULL && FatPath.NameOk(name)
    ensures var start := d[Lookup(d, name, 0)].start;
            FatPath.StaysInStep([FatPath.Dir(name, start)], FatPath.NewPath("/", FatPath.ROOT, start, name),
                                FatPath.NewDir(FatPath.ROOT, start))
            <==> start != FatPath.ROOT && start != 0
  {
    var e := FatPath.Dir(name, d[Lookup(d, name, 0)].start);
    assert [] + [e] == [e];
    FatPath.IntoExact([], e);
  }

  lemma SameFirst(d: seq<Slot>, i: nat)
    requires SlotsOk(d) && forall j :: 0 <= j < |d| ==> (DecodedName(d[j].raw) == [DOT] <==> d[j].raw[0] == NUL)
    ensures Lookup(d, [DOT], i) == FirstBlank(d, i)
    decreases |d| - i
  {
    hide DecodedName;
    if i < |d| {
      SameFirst(d, i + 1);
    }
  }

  // ---------------------------------------------------------------- steps

  /** The FAT and the root directory. */
  datatype State = State(fat: Table, dir: seq<Slot>)

  datatype Call = CreateFileCall(name: seq<char>, size: int) | RmCall(name: seq<char>)

  /** The clusters that are free or belong to a file. */
  ghost function Kept(s: State): set<nat>
    requires SlotsOk(s.dir)
  {
    Accounted(VolumeOf(s.fat, s.dir))
  }

  ghost predicate Sound(s: State) {
    Orderly(s.dir) && WellFormed(VolumeOf(s.fat, s.dir))
  }

  function Created(s: State, name: seq<char>, size: int): State
    requires SlotsOk(s.dir) && (FirstBlank(s.dir, 0) != NULL ==> Encodable(name))
  {
    var n := ClustersFor(size);
    State(Allocated(s.fat, n), Entered(s.dir, name, AllocatedStart(s.fat, n), size))
  }

  /** fat12_rm: the entry the name finds, whatever it is. */
  function Removed(s: State, name: seq<char>): State
    requires SlotsOk(s.dir) && InRange(s.fat)
    requires Lookup(s.dir, name, 0) != NULL ==> s.dir[Lookup(s.dir, name, 0)].start < ENTRIES
  {
    var i := Lookup(s.dir, name, 0);
    if i == NULL then s else State(Deleted(s.fat, s.dir[i].start), Struck(s.dir, i))
  }

  ghost predicate NewName(name: seq<char>) {
    Encodable(name) && Plain(name) && name != [] && name[0] != DELETED
  }

  lemma EnteredOrderly(d: seq<Slot>, name: seq<char>, cstart: nat, size: int)
    requires Orderly(d) && (FirstBlank(d, 0) != NULL ==> NewName(name))
    ensures Orderly(Entered(d, name, cstart, size))
  {
    hide Encoded;
    var i := FirstBlank(d, 0);
    if i != NULL {
      EncodedFirst(name, d[i].raw);
      EncodedEighth(name, d[i].raw);
    }
  }

  lemma EncodedEighth(name: seq<char>, old12: seq<char>)
    requires Encodable(name) && Plain(name) && |old12| == RAW_BYTES
    ensures Encoded(name, old12)[NAME_BYTES] != NUL
  {
    var e := Pad(Ext(name), EXT_BYTES);
    assert Encoded(name, old12)[NAME_BYTES] == e[0];
    assert Ext(name) != [] ==> Ext(name)[0] in name;
  }

  lemma StruckOrderly(d: seq<Slot>, i: nat)
    requires Orderly(d) && i < |d|
    ensures Orderly(Struck(d, i))
  {
    assert !Live(Struck(d, i)[i]);
  }

  /** Creation with an entry to spare keeps the volume sound exactly when there are enough
      clusters. */
  lemma CreateSound(s: State, name: seq<char>, size: int)
    requires Sound(s) && FirstBlank(s.dir, 0) != NULL && NewName(name)
    ensures var t := Created(s, name, size);
            && (Sound(t) <==> 1 <= ClustersFor(size) <= |FreeList(s.fat)|)
            && (Sound(t) ==> Accounted(VolumeOf(t.fat, t.dir)) == Accounted(VolumeOf(s.fat, s.dir)))
  {
    hide Orderly, NewName, Encodable, FreeList, Allocated, AllocatedStart, WellFormed, Accounted;
    CreateNames(s.dir, name);
    DirectoryKeepsVolume(s.fat, s.dir, name, size, |s.dir|);
    EnteredOrderly(s.dir, name, AllocatedStart(s.fat, ClustersFor(size)), size);
  }

  lemma CreateNames(d: seq<Slot>, name: seq<char>)
    requires Orderly(d) && NewName(name)
    ensures SlotsOk(d) && Encodable(name) && Plain(name) && name != [] && name[0] != DELETED
  {
  }

  /** The file gets no entry that counts: the directory is full, or the name carries the mark
      of a deleted one. */
  predicate Unlisted(s: State, name: seq<char>)
    requires SlotsOk(s.dir)
  {
    FirstBlank(s.dir, 0) == NULL || (name != [] && name[0] == DELETED)
  }

  lemma UnlistedFiles(s: State, name: seq<char>, size: int)
    requires Orderly(s.dir) && Unlisted(s, name) && (FirstBlank(s.dir, 0) != NULL ==> Encodable(name) && Plain(name))
    ensures var t := Created(s, name, size); Orderly(t.dir) && Files(t.dir) == Files(s.dir)
  {
    hide Encoded, Files, Allocated, AllocatedStart, Encodable;
    var i, t := FirstBlank(s.dir, 0), Created(s, name, size);
    if i != NULL {
      EncodedFirst(name, s.dir[i].raw);
      assert !Live(t.dir[i]);
      SameFiles(s.dir, t.dir, i);
    }
  }

  lemma SameFiles(d: seq<Slot>, e: seq<Slot>, i: nat)
    requires SlotsOk(d) && SlotsOk(e) && |e| == |d| && i < |d| && !Live(d[i]) && !Live(e[i])
    requires forall j :: 0 <= j < |d| && j != i ==> e[j] == d[j]
    ensures Files(e) == Files(d)
  {
  }

  /** Creation without an entry that counts harms no file, but its clusters are lost. */
  lemma CreateUnlisted(s: State, name: seq<char>, size: int)
    requires Sound(s) && Unlisted(s, name) && (FirstBlank(s.dir, 0) != NULL ==> Encodable(name) && Plain(name))
    ensures var t := Created(s, name, size);
            && Sound(t)
            && Accounted(VolumeOf(t.fat, t.dir)) <= Accounted(VolumeOf(s.fat, s.dir))
            && (1 <= ClustersFor(size) <= |FreeList(s.fat)| ==>
                  Accounted(VolumeOf(t.fat, t.dir)) ==
                  Accounted(VolumeOf(s.fat, s.dir)) - Members(Taken(s.fat, ClustersFor(size))))
  {
    hide FreeList, Allocated, Taken, ChainOf, FreeClusters, UsedClusters, Members, InRange, Unlisted, Encodable, Entered;
    var n := ClustersFor(size);
    var v, w := VolumeOf(s.fat, s.dir), VolumeOf(Allocated(s.fat, n), s.dir);
    UnlistedFiles(s, name, size);
    AllocatedInRange(s.fat, n);
    forall x | x in v.start
      ensures HasChain(w.fat, v.start[x]) && ChainOf(w.fat, v.start[x]) == ChainOf(v.fat, v.start[x])
    {
      CreateKeepsChain(v, n, v.start[x]);
    }
    UsedFrame(v, w);
    FreeShrinks(s.fat, n);
    if 1 <= n <= |FreeList(s.fat)| {
      CreateFrees(s.fat, n);
      TakenUnused(v, n);
    }
  }

  lemma FreeShrinks(f: Table, n: int)
    ensures FreeClusters(Allocated(f, n)) <= FreeClusters(f)
  {
    hide FreeList, Link;
    forall c | c in FreeClusters(Allocated(f, n)) ensures c in FreeClusters(f) {
      if c in Taken(f, n) {
        TakenWasFree(f, n, c);
      }
    }
  }

  lemma TakenUnused(v: Volume, n: int)
    requires WellFormed(v)
    ensures UsedClusters(v) !! Members(Taken(v.fat, n))
  {
    hide Taken, ChainOf;
    forall c | c in Members(Taken(v.fat, n)) ensures c !in UsedClusters(v) {
      TakenWasFree(v.fat, n, c);
      FreeAndUsedDisjoint(v);
      assert c in FreeClusters(v.fat);
    }
  }

  /** Removal under a proper name keeps the volume sound and loses no cluster. */
  lemma RmSound(s: State, name: seq<char>)
    requires Sound(s) && (Lookup(s.dir, name, 0) != NULL ==> Proper(name))
    ensures InRange(s.fat)
    ensures Lookup(s.dir, name, 0) != NULL ==> s.dir[Lookup(s.dir, name, 0)].start < ENTRIES
    ensures var t := Removed(s, name);
            Sound(t) && Accounted(VolumeOf(t.fat, t.dir)) == Accounted(VolumeOf(s.fat, s.dir))
  {
    hide Lookup, Proper, Deleted, Accounted, ChainOf;
    var i := Lookup(s.dir, name, 0);
    if i != NULL {
      FoundLiveIff(s.dir, name);
      DirectoryKeepsVolume(s.fat, s.dir, name, 0, i);
      StruckOrderly(s.dir, i);
    }
  }

  // ---------------------------------------------------------------- removing a dead entry

  /** What a removal by name may not do: come to a cluster of a file other than through a
      live entry. */
  ghost predicate Harmless(s: State, i: nat)
    requires SlotsOk(s.dir) && InRange(s.fat) && i < |s.dir| && s.dir[i].start < ENTRIES
  {
    Visited(s.fat, s.dir[i].start) !! UsedClusters(VolumeOf(s.fat, s.dir))
  }

  /** Removal of a dead entry is harmless exactly when the walk from its start cluster meets
      no cluster of a file; then all clusters it does meet are free again. */
  lemma DeadRmHarmlessIff(s: State, i: nat)
    requires Sound(s) && i < |s.dir| && !Live(s.dir[i]) && s.dir[i].start < ENTRIES
    ensures InRange(s.fat)
    ensures var v, t := VolumeOf(s.fat, s.dir), State(Deleted(s.fat, s.dir[i].start), Struck(s.dir, i));
            && (Sound(t) <==> Harmless(s, i))
            && (Sound(t) ==> Accounted(VolumeOf(t.fat, t.dir)) ==
                             Accounted(v) + set k | k in Visited(s.fat, s.dir[i].start) && k >= FIRST_DATA)
  {
    hide Deleted, Visited, ChainOf, HasChain, WellFormed, UsedClusters, Accounted;
    var c, d := s.dir[i].start, Struck(s.dir, i);
    StruckOrderly(s.dir, i);
    SameFiles(s.dir, d, i);
    VolumeInRange(VolumeOf(s.fat, s.dir));
    DeletionHarmlessIff(VolumeOf(s.fat, s.dir), c);
    if Harmless(s, i) {
      DeletionFrees(VolumeOf(s.fat, s.dir), c);
    }
  }

  /** In particular, an entry whose start cluster is free or belongs to a file may be removed
      again exactly while that cluster is free. */
  lemma DeadRmIff(s: State, i: nat)
    requires Sound(s) && i < |s.dir| && !Live(s.dir[i])
    requires DataCluster(s.dir[i].start) && s.dir[i].start in Accounted(VolumeOf(s.fat, s.dir))
    ensures InRange(s.fat)
    ensures Sound(State(Deleted(s.fat, s.dir[i].start), Struck(s.dir, i))) <==> s.fat[s.dir[i].start] == 0
  {
    hide Deleted, UsedClusters;
    DeadRmHarmlessIff(s, i);
    FreeAndUsedDisjoint(VolumeOf(s.fat, s.dir));
  }

  lemma VolumeInRange(v: Volume)
    requires WellFormed(v)
    ensures InRange(v.fat)
  {
  }

  /** The name "." on a formatted disk: the entry it finds has start 0, so that the removal
      clears the media entry of the FAT and spends the entry, but harms no file. */
  lemma DotRemoved(s: State, i: nat)
    requires Sound(s) && SlotsOk(s.dir) && InRange(s.fat)
    requires Lookup(s.dir, [DOT], 0) == i && s.dir[i].start == 0 && Stops(s.fat[0])
    ensures var t := Removed(s, [DOT]);
            && Sound(t) && t.fat == s.fat[0 := 0] && t.dir == Struck(s.dir, i) && i == FirstBlank(s.dir, 0)
            && SlotsOk(t.dir) && Kept(t) == Kept(s)
  {
    hide Lookup, FirstBlank, UsedClusters, Accounted, Deleted, Visited, WellFormed, Orderly, Struck, Sound;
    SoundOpen(s);
    FoundLiveIff(s.dir, [DOT]);
    DotFindsBlank(s.dir);
    DeadRmHarmlessIff(s, i);
    StoppedAtOnce(s.fat, 0);
    UsedAreData(VolumeOf(s.fat, s.dir));
    var none := set k | k in Visited(s.fat, 0) && k >= FIRST_DATA;
    assert none == {};
    SoundSlots(Removed(s, [DOT]));
  }

  lemma StoppedAtOnce(f: Table, c: nat)
    requires InRange(f) && c < ENTRIES && Stops(f[c])
    ensures Deleted(f, c) == f[c := 0] && Visited(f, c) == {c}
  {
  }

  lemma UsedAreData(v: Volume)
    ensures forall k :: k in UsedClusters(v) ==> DataCluster(k)
  {
    hide ChainOf;
    forall k | k in UsedClusters(v) ensures DataCluster(k) {
      var x :| x in v.start && k in ChainOf(v.fat, v.start[x]);
      ChainOfMembers(v.fat, v.start[x]);
    }
  }

  /** rm by name, whatever it finds: it keeps the volume sound exactly when it finds nothing,
      has a proper name, or meets no cluster of a file. */
  lemma RmSoundIff(s: State, name: seq<char>)
    requires Sound(s)
    requires Lookup(s.dir, name, 0) != NULL ==> s.dir[Lookup(s.dir, name, 0)].start < ENTRIES
    ensures InRange(s.fat)
    ensures var i := Lookup(s.dir, name, 0);
            Sound(Removed(s, name)) <==> i == NULL || Proper(name) || Harmless(s, i)
  {
    hide Lookup, Proper, Deleted, Harmless, Accounted, WellFormed, UsedClusters;
    VolumeInRange(VolumeOf(s.fat, s.dir));
    var i := Lookup(s.dir, name, 0);
    if i != NULL {
      FoundLiveIff(s.dir, name);
      if Proper(name) {
        RmSound(s, name);
      } else {
        DeadRmHarmlessIff(s, i);
      }
    }
  }

  /** The name a removed file answers to. */
  function Marked(name: seq<char>): seq<char>
    requires name != []
  {
    [DELETED] + name[1..]
  }

  /** The struck entry of a file decodes to its marked name. */
  lemma StruckDecodes(name: seq<char>, old12: seq<char>)
    requires Encodable(name) && Plain(name) && RoundTrips(name) && |old12| == RAW_BYTES
    requires name != [] && name[0] != DOT
    ensures DecodedName(Encoded(name, old12)[0 := DELETED]) == Marked(name)
  {
    hide DecodedName;
    MarkedParts(name);
    var m := Marked(name);
    assert Encoded(m, old12) == Encoded(name, old12)[0 := DELETED];
    NameRoundTrip(m, old12);
  }

  lemma MarkedParts(name: seq<char>)
    requires Encodable(name) && Plain(name) && RoundTrips(name) && name != [] && name[0] != DOT
    ensures var m := Marked(name);
            && Encodable(m) && Plain(m) && RoundTrips(m)
            && Ext(m) == Ext(name) && |Base(m)| == |Base(name)| >= 1 && Base(m) == Base(name)[0 := DELETED]
  {
    hide Find, NoCapitals, Plain;
    MarkedChars(name);
    MarkedDot(name);
  }

  lemma MarkedChars(name: seq<char>)
    requires name != []
    ensures Plain(name) ==> Plain(Marked(name))
    ensures NoCapitals(name) ==> NoCapitals(Marked(name))
    ensures SPACE !in name ==> SPACE !in Marked(name)
  {
  }

  lemma MarkedDot(name: seq<char>)
    requires name != [] && name[0] != DOT && DOT in name
    ensures var m, k := Marked(name), Find(name, DOT);
            DOT in m && Find(m, DOT) == k >= 1 && m[k + 1..] == name[k + 1..] && m[..k] == name[..k][0 := DELETED]
  {
    hide Find;
    var m, k := Marked(name), Find(name, DOT);
    FoundAt(m, DOT, k);
    assert m[k] == DOT;
  }

  /** The first half: the file comes and goes, and leaves a dead entry with the lowest free
      cluster as its start. */
  lemma CreateAndRemove(s: State, one: seq<char>, size: int)
    requires Sound(s) && NewName(one) && RoundTrips(one) && Lookup(s.dir, one, 0) == NULL
    requires FirstBlank(s.dir, 0) != NULL && 1 <= ClustersFor(size) <= |FreeList(s.fat)|
    ensures var i, a := FirstBlank(s.dir, 0), Created(s, one, size);
            && Sound(a) && Lookup(a.dir, one, 0) == i && a.dir[i].start < ENTRIES
            && var b := Removed(a, one);
               && Sound(b) && b.fat == s.fat && |b.dir| == |s.dir|
               && b.dir[i].raw == Encoded(one, s.dir[i].raw)[0 := DELETED]
               && b.dir[i].start == AllocatedStart(s.fat, ClustersFor(size))
               && forall j :: 0 <= j < |s.dir| && j != i ==> b.dir[j] == s.dir[j]
  {
    hide DecodedName, Encoded, Encodable, FreeList, Allocated, AllocatedStart, Deleted, WellFormed, Accounted, InRange;
    CreateNames(s.dir, one);
    CreateSound(s, one, size);
    VolumeInRange(VolumeOf(s.fat, s.dir));
    CreateFindRemoveFind(s.fat, s.dir, one, size);
    var a := Created(s, one, size);
    FoundLiveIff(a.dir, one);
    RmSound(a, one);
  }

  /** The second half: another file takes the clusters, and the dead entry is removed. */
  lemma RemoveDead(b: State, i: nat, two: seq<char>, size: int)
    requires Sound(b) && i < |b.dir| && b.dir[i].raw[0] == DELETED && NewName(two) && FirstBlank(b.dir, 0) != NULL
    requires 1 <= ClustersFor(size) <= |FreeList(b.fat)| && b.dir[i].start == AllocatedStart(b.fat, ClustersFor(size))
    ensures var c := Created(b, two, size);
            && Sound(c) && |c.dir| == |b.dir| && c.dir[i].start < ENTRIES
            && (forall j :: 0 <= j < |b.dir| && j != FirstBlank(b.dir, 0) ==> c.dir[j] == b.dir[j])
            && !Sound(State(Deleted(c.fat, c.dir[i].start), Struck(c.dir, i)))
  {
    hide DecodedName, Encoded, Encodable, FreeList, Allocated, AllocatedStart, Deleted, WellFormed, Accounted, InRange;
    CreateNames(b.dir, two);
    CreateSound(b, two, size);
    var c, j := Created(b, two, size), FirstBlank(b.dir, 0);
    EncodedFirst(two, b.dir[j].raw);
    assert Live(c.dir[j]) && c.dir[j].start == c.dir[i].start;
    SharedStart(VolumeOf(c.fat, c.dir), j);
    DeadRmIff(c, i);
  }

  /** Two creations around a removal, then a removal under the marked name: the second file
      has the clusters of the first, the dead entry of the first is found, and its removal
      destroys the second file.  Everything before that last call is as it should be. */
  lemma DeadEntryDestroysFile(s: State, one: seq<char>, two: seq<char>, size1: int, size2: int)
    requires Sound(s) && NewName(one) && NewName(two) && RoundTrips(one) && one[0] != DOT
    requires Lookup(s.dir, one, 0) == NULL && Lookup(s.dir, Marked(one), 0) == NULL
    requires FirstBlank(s.dir, 0) != NULL && FirstBlank(s.dir, FirstBlank(s.dir, 0) + 1) != NULL
    requires 1 <= ClustersFor(size1) <= |FreeList(s.fat)| && 1 <= ClustersFor(size2) <= |FreeList(s.fat)|
    ensures var a := Created(s, one, size1);
            && Sound(a) && Lookup(a.dir, one, 0) == FirstBlank(s.dir, 0)
            && a.dir[Lookup(a.dir, one, 0)].start < ENTRIES
            && var b := Removed(a, one);
               && Sound(b) && FirstBlank(b.dir, 0) != NULL
               && var c := Created(b, two, size2);
                  && Sound(c) && Lookup(c.dir, Marked(one), 0) == FirstBlank(s.dir, 0)
                  && c.dir[Lookup(c.dir, Marked(one), 0)].start < ENTRIES
                  && !Sound(Removed(c, Marked(one)))
  {
    hide DecodedName, Encoded, Encodable, FreeList, AllocatedStart, Deleted, Sound, Created, Removed, Orderly,
      Lookup, FirstBlank, ClustersFor;
    SoundSlots(s);
    var i := FirstBlank(s.dir, 0);
    CreateAndRemove(s, one, size1);
    var a := Created(s, one, size1);
    SoundSlots(a);
    var b := Removed(a, one);
    SoundSlots(b);
    StruckDecodes(one, s.dir[i].raw);
    BlankAfter(s.dir, b.dir, i);
    SameStart(s.fat, ClustersFor(size1), ClustersFor(size2));
    StillStruck(s.dir[i].raw, one);
    RemoveDead(b, i, two, size2);
    var c := Created(b, two, size2);
    SoundSlots(c);
    MarkedFound(s.dir, c.dir, i, Marked(one));
    RemovedIs(c, Marked(one));
  }

  lemma StillStruck(raw: seq<char>, name: seq<char>)
    requires Encodable(name) && |raw| == RAW_BYTES
    ensures Encoded(name, raw)[0 := DELETED][0] == DELETED != NUL
  {
  }

  lemma RemovedIs(s: State, name: seq<char>)
    requires SlotsOk(s.dir) && InRange(s.fat) && Lookup(s.dir, name, 0) != NULL
    requires s.dir[Lookup(s.dir, name, 0)].start < ENTRIES
    ensures var i := Lookup(s.dir, name, 0);
            Removed(s, name) == State(Deleted(s.fat, s.dir[i].start), Struck(s.dir, i))
  {
  }

  lemma BlankAfter(d: seq<Slot>, e: seq<Slot>, i: nat)
    requires SlotsOk(d) && SlotsOk(e) && |e| == |d| && i == FirstBlank(d, 0)
    requires e[i].raw[0] != NUL && forall j :: 0 <= j < |d| && j != i ==> e[j] == d[j]
    ensures FirstBlank(e, 0) == FirstBlank(d, i + 1)
  {
  }

  lemma MarkedFound(d: seq<Slot>, e: seq<Slot>, i: nat, name: seq<char>)
    requires SlotsOk(d) && SlotsOk(e) && |e| == |d| && i < |d| && Lookup(d, name, 0) == NULL
    requires DecodedName(e[i].raw) == name && forall j :: 0 <= j < i ==> e[j] == d[j]
    ensures Lookup(e, name, 0) == i
  {
    hide DecodedName;
  }

  lemma SameStart(f: Table, n: int, m: int)
    requires 1 <= n <= |FreeList(f)| && 1 <= m <= |FreeList(f)|
    ensures AllocatedStart(f, n) == AllocatedStart(f, m)
  {
  }

  lemma SharedStart(v: Volume, x: nat)
    requires WellFormed(v) && x in v.start
    ensures DataCluster(v.start[x]) && v.start[x] in Accounted(v) && v.fat[v.start[x]] != 0
  {
    var c := ChainOf(v.fat, v.start[x]);
    ChainOfMembers(v.fat, v.start[x]);
    assert c[0] in c;
  }

  // ---------------------------------------------------------------- runs

  /** What the code demands: a name that fits, and an entry that points into the table. */
  ghost predicate Demands(s: State, call: Call)
    requires SlotsOk(s.dir)
  {
    match call
    case CreateFileCall(name, size) => FirstBlank(s.dir, 0) != NULL ==> Encodable(name) && Plain(name)
    case RmCall(name) => Lookup(s.dir, name, 0) != NULL ==> s.dir[Lookup(s.dir, name, 0)].start < ENTRIES
  }

  /** What a caller can check before the call. */
  ghost predicate Allowed(s: State, call: Call)
    requires SlotsOk(s.dir) && InRange(s.fat) && Demands(s, call)
  {
    match call
    case CreateFileCall(name, size) => Unlisted(s, name) || 1 <= ClustersFor(size) <= |FreeList(s.fat)|
    case RmCall(name) =>
      Lookup(s.dir, name, 0) == NULL || Proper(name) || Harmless(s, Lookup(s.dir, name, 0))
  }

  ghost function Effect(s: State, call: Call): State
    requires SlotsOk(s.dir) && InRange(s.fat) && Demands(s, call)
  {
    match call
    case CreateFileCall(name, size) => Created(s, name, size)
    case RmCall(name) => Removed(s, name)
  }

  /** A call keeps directory and volume sound exactly when it is allowed. */
  lemma CallSoundIff(s: State, call: Call)
    requires Sound(s) && SlotsOk(s.dir) && InRange(s.fat) && Demands(s, call)
    ensures Sound(Effect(s, call)) <==> Allowed(s, call)
  {
    hide Lookup, FirstBlank, FreeList, Created, Removed, Proper, Harmless, Sound, Encodable;
    match call
    case CreateFileCall(name, size) =>
      CreateCases(s, name, size);
    case RmCall(name) => SoundOpen(s); RmSoundIff(s, name);
  }

  lemma SoundOpen(s: State)
    requires Sound(s)
    ensures Orderly(s.dir)
  {
  }

  lemma CreateCases(s: State, name: seq<char>, size: int)
    requires Sound(s) && SlotsOk(s.dir) && (FirstBlank(s.dir, 0) != NULL ==> Encodable(name) && Plain(name))
    ensures Sound(Created(s, name, size)) <==> Unlisted(s, name) || 1 <= ClustersFor(size) <= |FreeList(s.fat)|
    ensures var t := Created(s, name, size);
            Sound(t) ==> SlotsOk(t.dir) && Kept(t) <= Kept(s) && (!Unlisted(s, name) ==> Kept(t) == Kept(s))
  {
    hide FreeList, Created, Sound, Accounted;
    if Sound(Created(s, name, size)) {
      SoundSlots(Created(s, name, size));
    }
    if Unlisted(s, name) {
      CreateUnlisted(s, name, size);
    } else {
      CreateSound(s, name, size);
    }
  }

  /** A call that takes clusters without listing a file, and one that removes a dead entry. */
  predicate Loses(s: State, call: Call)
    requires SlotsOk(s.dir)
  {
    call.CreateFileCall? && Unlisted(s, call.name)
  }

  predicate Regains(s: State, call: Call)
    requires SlotsOk(s.dir)
  {
    call.RmCall? && Lookup(s.dir, call.name, 0) != NULL && !Proper(call.name)
  }

  ghost predicate CallStep(s: State, call: Call, t: State) {
    Sound(s) ==>
      && SlotsOk(s.dir) && InRange(s.fat) && Demands(s, call) && Allowed(s, call)
      && t == Effect(s, call)
  }

  ghost predicate CallRun(ss: seq<State>, calls: seq<Call>) {
    && |ss| == |calls| + 1
    && forall i :: 0 <= i < |calls| ==> CallStep(ss[i], calls[i], ss[i+1])
  }

  lemma StepKeeps(s: State, call: Call)
    requires Sound(s) && SlotsOk(s.dir) && InRange(s.fat) && Demands(s, call) && Allowed(s, call)
    ensures var t := Effect(s, call);
            && Sound(t) && SlotsOk(t.dir) && InRange(t.fat)
            && (!Loses(s, call) ==> Kept(s) <= Kept(t))
            && (!Regains(s, call) ==> Kept(t) <= Kept(s))
  {
    hide Kept, FreeList, WellFormed, Created, Removed, Proper, Lookup, FirstBlank, Harmless, Encodable;
    CallSoundIff(s, call);
    SoundSlots(Effect(s, call));
    match call
    case CreateFileCall(name, size) => CreateCases(s, name, size);
    case RmCall(name) => RmKeeps(s, name);
  }

  lemma RmKeeps(s: State, name: seq<char>)
    requires Sound(s) && SlotsOk(s.dir) && InRange(s.fat) && Demands(s, RmCall(name)) && Allowed(s, RmCall(name))
    ensures var t := Removed(s, name);
            && SlotsOk(t.dir) && Kept(s) <= Kept(t) && (!Regains(s, RmCall(name)) ==> Kept(t) == Kept(s))
  {
    hide Accounted, Proper, Lookup, Harmless, Deleted, Visited;
    CallSoundIff(s, RmCall(name));
    var i := Lookup(s.dir, name, 0);
    if i == NULL || Proper(name) {
      RmSound(s, name);
    } else {
      FoundLiveIff(s.dir, name);
      DeadRmHarmlessIff(s, i);
    }
  }

  /** Over every run of allowed creations and removals by name the directory stays orderly and
      the chains of its live files acyclic, terminated and disjoint.  Clusters are lost only
      by creations that list no file, and lost ones come back only by the removal of dead
      entries. */
  lemma {:induction false} DirectoryRunSafe(ss: seq<State>, calls: seq<Call>, i: nat)
    requires CallRun(ss, calls) && Sound(ss[0]) && i < |ss|
    ensures Sound(ss[i]) && forall k :: 0 <= k <= i ==> SlotsOk(ss[k].dir)
    ensures (forall k :: 0 <= k < i ==> !Loses(ss[k], calls[k])) ==> Kept(ss[0]) <= Kept(ss[i])
    ensures (forall k :: 0 <= k < i ==> !Regains(ss[k], calls[k])) ==> Kept(ss[i]) <= Kept(ss[0])
  {
    hide Sound, Kept, Effect, Allowed, Demands, Loses, Regains, SlotsOk;
    SoundSlots(ss[0]);
    if i > 0 {
      DirectoryRunSafe(ss, calls, i - 1);
      SoundSlots(ss[i-1]);
      assert CallStep(ss[i-1], calls[i-1], ss[i-1+1]);
      StepKeeps(ss[i-1], calls[i-1]);
    }
    SoundSlots(ss[i]);
  }

  lemma SoundSlots(s: State)
    requires Sound(s)
    ensures SlotsOk(s.dir) && InRange(s.fat)
  {
  }

  // ---------------------------------------------------------------- a formatted volume

  ghost predicate Formatted(s: State) {
    && InRange(s.fat) && SlotsOk(s.dir)
    && forall i :: 0 <= i < |s.dir| ==> s.dir[i].raw == Zeros(RAW_BYTES)
  }

  lemma FormattedSound(s: State)
    requires Formatted(s)
    ensures Sound(s) && forall name :: name != [DOT] ==> Lookup(s.dir, name, 0) == NULL
  {
    hide DecodedName;
    forall i | 0 <= i < |s.dir| ensures DecodedName(s.dir[i].raw) == [DOT] {
      DecodedDot(s.dir[i].raw);
    }
    assert Files(s.dir) == map[];
  }

  /** Names may occur twice: after two creations of a.b the first one is found, and after one
      removal the second. */
  lemma DuplicateSurvives(s: State)
    requires Formatted(s) && |s.dir| >= 2
    ensures NewName("a.b")
    ensures var a := Created(s, "a.b", 1);
            SlotsOk(a.dir)
            && var b := Created(a, "a.b", 1);
               && SlotsOk(b.dir) && Lookup(b.dir, "a.b", 0) == 0
               && SlotsOk(Struck(b.dir, 0)) && Lookup(Struck(b.dir, 0), "a.b", 0) == 1
  {
    hide DecodedName, Encoded, FreeList, Allocated, AllocatedStart, RoundTrips;
    var n := "a.b";
    ShortNames(n);
    FormattedSound(s);
    NameRoundTrip(n, s.dir[0].raw);
    NameRoundTrip(n, s.dir[1].raw);
    EncodedFirst(n, s.dir[0].raw);
    assert s.dir[0].raw[0] == NUL && s.dir[1].raw[0] == NUL;
    var a := Created(s, n, 1);
    var b := Created(a, n, 1);
    assert FirstBlank(s.dir, 0) == 0 && FirstBlank(a.dir, 0) == 1;
    assert DecodedName(b.dir[0].raw) == n && DecodedName(b.dir[1].raw) == n by { RoundTripDecodes(n); }
    RemoveThenFind(b.dir, n, 0);
  }

  lemma RoundTripDecodes(name: seq<char>)
    requires Encodable(name) && Plain(name) && RoundTrips(name)
    ensures forall old12: seq<char> :: |old12| == RAW_BYTES ==> DecodedName(Encoded(name, old12)) == name
  {
    hide DecodedName, Encoded;
    forall old12: seq<char> | |old12| == RAW_BYTES ensures DecodedName(Encoded(name, old12)) == name {
      NameRoundTrip(name, old12);
    }
  }

  /** The failing input from a fresh volume: create a.b, rm a.b, create c.d, and rm under the
      marked name. */
  lemma DeadEntryReachable(s: State)
    requires Formatted(s) && |s.dir| >= 2 && FreeList(s.fat) != []
    ensures NewName("a.b") && NewName("c.d") && Sound(s)
    ensures var a := Created(s, "a.b", 1);
            && Sound(a) && InRange(a.fat)
            && Lookup(a.dir, "a.b", 0) == 0 && a.dir[0].start < ENTRIES
            && var b := Removed(a, "a.b");
               && Sound(b)
               && var c := Created(b, "c.d", 1);
                  && Sound(c) && InRange(c.fat)
                  && Lookup(c.dir, Marked("a.b"), 0) == 0 && c.dir[0].start < ENTRIES
                  && !Sound(Removed(c, Marked("a.b")))
  {
    hide DecodedName, Encoded, FreeList, Created, Removed, Sound, Lookup;
    FormattedSound(s);
    ShortNames("a.b");
    ShortNames("c.d");
    assert s.dir[0].raw[0] == NUL && s.dir[1].raw[0] == NUL;
    assert ClustersFor(1) == 1;
    assert Marked("a.b")[0] == DELETED;
    DeadEntryDestroysFile(s, "a.b", "c.d", 1, 1);
    var a := Created(s, "a.b", 1);
    SoundSlots(a);
    var b := Removed(a, "a.b");
    SoundSlots(b);
    SoundSlots(Created(b, "c.d", 1));
  }

  lemma ShortNames(name: seq<char>)
    requires |name| == 3 && name[1] == DOT && 'a' <= name[0] <= 'z' && 'a' <= name[2] <= 'z'
    ensures NewName(name) && RoundTrips(name)
  {
    FoundAt(name, DOT, 1);
    assert Ext(name) == [name[2]];
  }
}
