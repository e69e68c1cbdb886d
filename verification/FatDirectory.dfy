/** The root directory of include/fat12.h: looking a name up, creating a file and removing it,
    with the FAT changes that go with them. */
module FatDirectory {
  import opened Basics
  import opened CString
  import opened FatNames
  import FatTable
  import FatPacking
  import Fat12

  const DELETED := 0xE5 as char

  // ---------------------------------------------------------------- the directory as a value

  /** The first bytes of an entry, its start cluster and its length. */
  datatype Slot = Slot(raw: seq<char>, start: nat, length: int)

  predicate SlotOk(s: Slot) {
    |s.raw| == RAW_BYTES
  }

  predicate SlotsOk(d: seq<Slot>) {
    forall i :: 0 <= i < |d| ==> SlotOk(d[i])
  }

  /** The first entry whose decoded name is the given one. */
  function Lookup(d: seq<Slot>, name: seq<char>, i: nat): (r: int)
    requires SlotsOk(d)
    ensures r == NULL || (i <= r < |d| && DecodedName(d[r].raw) == name)
    ensures forall j :: i <= j < |d| && (r == NULL || j < r) ==> DecodedName(d[j].raw) != name
    decreases |d| - i
  {
    if i >= |d| then NULL
    else if DecodedName(d[i].raw) == name then i
    else Lookup(d, name, i + 1)
  }

  /** The first entry that was never used: deleted ones do not come back. */
  function FirstBlank(d: seq<Slot>, i: nat): (r: int)
    requires SlotsOk(d)
    ensures r == NULL || (i <= r < |d| && d[r].raw[0] == NUL)
    ensures forall j :: i <= j < |d| && (r == NULL || j < r) ==> d[j].raw[0] != NUL
    decreases |d| - i
  {
    if i >= |d| then NULL
    else if d[i].raw[0] == NUL then i
    else FirstBlank(d, i + 1)
  }

  /** fat12_create_file on the directory. */
  function Entered(d: seq<Slot>, name: seq<char>, cstart: nat, size: int): seq<Slot>
    requires SlotsOk(d) && (FirstBlank(d, 0) != NULL ==> Encodable(name))
  {
    var i := FirstBlank(d, 0);
    if i == NULL then d else d[i := Slot(Encoded(name, d[i].raw), cstart, size)]
  }

  /** fat12_rm on the directory. */
  function Struck(d: seq<Slot>, i: nat): seq<Slot>
    requires i < |d| && SlotOk(d[i])
  {
    d[i := d[i].(raw := d[i].raw[0 := DELETED])]
  }

  predicate Live(s: Slot)
    requires SlotOk(s)
  {
    s.raw[0] != NUL && s.raw[0] != DELETED
  }

  /** The files of the directory, by slot. */
  function Files(d: seq<Slot>): map<nat, nat>
    requires SlotsOk(d)
  {
    map i: nat | i < |d| && Live(d[i]) :: d[i].start
  }

  // ---------------------------------------------------------------- the code

  class Directory {
    const fat: Fat12.Fat
    const names: array<char>
    const start: array<nat>
    const length: array<int>

    /** A directory whose entries have never been used. */
    constructor (f: Fat12.Fat, entries: nat)
      requires f.Valid()
      ensures Valid() && fat == f && fresh(names) && fresh(start) && fresh(length) && start.Length == entries
      ensures forall i :: 0 <= i < entries ==> Slots()[i] == Slot(Zeros(RAW_BYTES), 0, 0)
    {
      fat := f;
      names := new char[entries * RAW_BYTES](_ => NUL);
      start := new nat[entries](_ => 0);
      length := new int[entries](_ => 0);
    }

    ghost predicate Valid() {
      && fat.Valid()
      && names.Length == start.Length * RAW_BYTES && length.Length == start.Length
      && start != fat.entry
    }

    ghost function SlotAt(i: nat): Slot
      requires Valid() && i < start.Length
      reads names, start, length
    {
      Slot(names[i * RAW_BYTES..(i + 1) * RAW_BYTES], start[i], length[i])
    }

    ghost function Slots(): (d: seq<Slot>)
      requires Valid()
      ensures |d| == start.Length && SlotsOk(d)
      ensures forall i :: 0 <= i < |d| ==> d[i] == SlotAt(i)
      reads names, start, length
    {
      seq(start.Length, i requires 0 <= i < start.Length reads names, start, length => SlotAt(i))
    }

    /** fat12_find_entry at the root. */
    method FindEntry(folder: array<char>, ghost name: seq<char>) returns (r: int)
      requires Valid() && Holds(folder[..], 0, name)
      ensures r == Lookup(Slots(), name, 0)
    {
      hide DecodedName, Holds;
      for i := 0 to start.Length
        invariant Lookup(Slots(), name, i) == Lookup(Slots(), name, 0)
        invariant Slots() == old(Slots()) && folder[..] == old(folder[..])
      {
        var entryName := new char[TEXT_BYTES];
        ConstructFileName(entryName, names, i * RAW_BYTES);
        assert names[i * RAW_BYTES..i * RAW_BYTES + RAW_BYTES] == Slots()[i].raw;
        var c := StrCmp(folder, 0, entryName, 0, name, DecodedName(Slots()[i].raw));
        if c == 0 {
          return i;
        }
      }
      return NULL;
    }

    /** fat12_create_file: the clusters, then the first entry that was never used.  When there
        is none the clusters stay taken. */
    method CreateFile(size: int, name: array<char>, ghost text: seq<char>)
      requires Valid() && name != names && Holds(name[..], 0, text)
      requires FirstBlank(Slots(), 0) != NULL ==> Encodable(text) && |text| < 20
      modifies fat.entry, names, start, length
      ensures fat.Table() == FatTable.Allocated(old(fat.Table()), FatTable.ClustersFor(size))
      ensures Slots() == Entered(old(Slots()), text,
                                 FatTable.AllocatedStart(old(fat.Table()), FatTable.ClustersFor(size)), size)
    {
      hide Holds, Encodable, Encoded, FatTable.Allocated, FatTable.AllocatedStart, FatTable.ClustersFor;
      var numCluster := FatTable.ClustersFor(size);
      var cstart := fat.Allocate(numCluster);
      for i := 0 to start.Length
        invariant names[..] == old(names[..]) && start[..] == old(start[..]) && length[..] == old(length[..])
        invariant Slots() == old(Slots()) && name[..] == old(name[..])
        invariant FirstBlank(Slots(), i) == FirstBlank(Slots(), 0)
        invariant fat.Table() == FatTable.Allocated(old(fat.Table()), numCluster)
      {
        assert names[i * RAW_BYTES] == Slots()[i].raw[0];
        if names[i * RAW_BYTES] == NUL {
          assert i == FirstBlank(old(Slots()), 0);
          FillName(i, name, text);
          start[i] := cstart;
          length[i] := size;
          ghost var e := Encoded(text, old(SlotAt(i).raw));
          forall j | 0 <= j < start.Length
            ensures Slots()[j] == if j == i then Slot(e, cstart, size) else old(Slots())[j]
          {
            SliceAfter(old(names[..]), names[..], i, e, j);
          }
          break;
        }
      }
    }

    /** fat12_rm at the root, with the deletion of the chain as it was meant to be. */
    method Rm(filename: array<char>, ghost name: seq<char>) returns (ok: bool)
      requires Valid() && Holds(filename[..], 0, name)
      requires FatTable.InRange(fat.Table())
      requires Lookup(Slots(), name, 0) != NULL ==> Slots()[Lookup(Slots(), name, 0)].start < FatTable.ENTRIES
      modifies fat.entry, fat.phys, names
      ensures ok <==> Lookup(old(Slots()), name, 0) != NULL
      ensures if ok then
                var i := Lookup(old(Slots()), name, 0);
                && Slots() == Struck(old(Slots()), i)
                && fat.Table() == FatTable.Deleted(old(fat.Table()), old(Slots())[i].start)
                && fat.phys[..] == FatPacking.Pack(fat.Table())
              else Slots() == old(Slots()) && fat.Table() == old(fat.Table()) && fat.phys[..] == old(fat.phys[..])
    {
      hide Holds, FatTable.Deleted, DecodedName;
      var i := FindEntry(filename, name);
      if i == NULL {
        return false;
      }
      names[i * RAW_BYTES] := DELETED;
      forall j | 0 <= j < start.Length
        ensures Slots()[j] == if j == i then Struck(old(Slots()), i)[i] else old(Slots())[j]
      {
        SliceUpdated(old(names[..]), names[..], i, DELETED, j);
      }
      fat.DelFatEntry(start[i]);
      return true;
    }

    /** The name fields of entry i: strcpy of the part before the dot, padding, strcpy of the
        rest, padding, and the archive bit. */
    method FillName(i: nat, name: array<char>, ghost text: seq<char>)
      requires Valid() && i < start.Length && name != names
      requires Holds(name[..], 0, text) && Encodable(text) && |text| < 20
      modifies names
      ensures names[..] == old(names[..i * RAW_BYTES]) + Encoded(text, old(SlotAt(i).raw)) + old(names[(i + 1) * RAW_BYTES..])
    {
      hide Stored, Holds, Encoded, Pad, Base, Ext, Archived, Encodable, FindAny, Find;
      EncodableIs(text);
      var p := i * RAW_BYTES;
      var tmp := new char[20];
      ghost var blank := tmp[..];
      StrCpy(tmp, 0, name, 0, text);
      var dot := new char[2] [DOT, NUL];
      OneChar(dot[..], DOT);
      StoredText(tmp[..], blank, name[..], text);
      ghost var whole := tmp[..];
      FindOne(text, DOT);
      var more, next := StrSep(tmp, 0, dot, [DOT], text);
      SplitName(tmp[..], whole, text);
      CopyPadded(p, NAME_BYTES, tmp, 0, Base(text));
      ghost var named := names[..];
      SplitName(tmp[..], whole, text);
      CopyPadded(p + NAME_BYTES, EXT_BYTES, tmp, next, Ext(text));
      Assembled(old(names[..]), named, names[..], p, text);
      names[p + 11] := Archived(names[p + 11]);
    }

    /** strcpy to a field of n bytes, then spaces from strlen of the field up to n. */
    method CopyPadded(p: nat, n: nat, s: array<char>, q: nat, ghost t: seq<char>)
      requires s != names && Holds(s[..], q, t) && |t| <= n && p + n < names.Length
      modifies names
      ensures forall k :: 0 <= k < names.Length ==>
                names[k] == if p <= k < p + n then Pad(t, n)[k - p]
                            else if k == p + n && |t| == n then NUL else old(names[k])
    {
      hide Stored, Holds;
      StrCpy(names, p, s, q, t);
      CopiedText(names[..], old(names[..]), p, s[..], q, t);
      var j := StrLen(names, p, t);
      while j < n
        invariant |t| <= j <= n
        invariant forall k :: 0 <= k < names.Length ==>
                    names[k] == if p <= k < p + |t| then t[k - p]
                                else if p + |t| <= k < p + j then SPACE
                                else if k == p + |t| then NUL else old(names[k])
      {
        names[p + j] := SPACE;
        j := j + 1;
      }
    }
  }

  lemma SliceAfter(o: seq<char>, m: seq<char>, i: nat, e: seq<char>, j: nat)
    requires (i + 1) * RAW_BYTES <= |o| && (j + 1) * RAW_BYTES <= |o| && |e| == RAW_BYTES
    requires m == o[..i * RAW_BYTES] + e + o[(i + 1) * RAW_BYTES..]
    ensures m[j * RAW_BYTES..(j + 1) * RAW_BYTES] == if j == i then e else o[j * RAW_BYTES..(j + 1) * RAW_BYTES]
  {
  }

  lemma SliceUpdated(o: seq<char>, m: seq<char>, i: nat, c: char, j: nat)
    requires (i + 1) * RAW_BYTES <= |o| && (j + 1) * RAW_BYTES <= |o| && m == o[i * RAW_BYTES := c]
    ensures var old0 := o[j * RAW_BYTES..(j + 1) * RAW_BYTES];
            m[j * RAW_BYTES..(j + 1) * RAW_BYTES] == if j == i then old0[0 := c] else old0
  {
  }

  lemma EncodableIs(text: seq<char>)
    requires Encodable(text)
    ensures DOT in text && |Base(text)| <= NAME_BYTES && |Ext(text)| <= EXT_BYTES
  {
  }

  /** What one CopyPadded leaves. */
  ghost predicate Padded(o: seq<char>, m: seq<char>, p: nat, n: nat, t: seq<char>) {
    && |m| == |o| && |t| <= n && p + n < |o|
    && forall k :: 0 <= k < |o| ==>
         m[k] == if p <= k < p + n then Pad(t, n)[k - p] else if k == p + n && |t| == n then NUL else o[k]
  }

  lemma Assembled(o: seq<char>, a: seq<char>, b: seq<char>, p: nat, text: seq<char>)
    requires Encodable(text) && p + RAW_BYTES <= |o|
    requires Padded(o, a, p, NAME_BYTES, Base(text)) && Padded(a, b, p + NAME_BYTES, EXT_BYTES, Ext(text))
    ensures |b| == |o|
    ensures b[p + 11 := Archived(b[p + 11])] == o[..p] + Encoded(text, o[p..p + RAW_BYTES]) + o[p + RAW_BYTES..]
  {
    hide Base, Ext, Archived;
  }

  lemma StoredText(m: seq<char>, old0: seq<char>, s: seq<char>, t: seq<char>)
    requires |t| < |old0| && Holds(s, 0, t) && m == Stored(old0, 0, t)
    ensures |m| == |old0| && Holds(m, 0, t)
  {
  }

  lemma CopiedText(m: seq<char>, old0: seq<char>, p: nat, s: seq<char>, q: nat, t: seq<char>)
    requires Holds(s, q, t) && p + |t| < |old0| && m == Stored(old0, p, t)
    ensures |m| == |old0| && Holds(m, p, t)
    ensures forall k :: 0 <= k < |m| ==>
              m[k] == if p <= k < p + |t| then t[k - p] else if k == p + |t| then NUL else old0[k]
  {
  }

  /** After strsep the buffer holds the base at its start and the extension behind the dot. */
  lemma SplitName(m: seq<char>, whole: seq<char>, text: seq<char>)
    requires DOT in text && Holds(whole, 0, text) && |text| < |whole| && m == whole[Find(text, DOT) := NUL]
    ensures Holds(m, 0, Base(text)) && Holds(m, Find(text, DOT) + 1, Ext(text))
  {
    hide Find;
  }

  // ---------------------------------------------------------------- create, find, remove, find

  predicate RoundTrips(name: seq<char>) {
    NoCapitals(name) && SPACE !in name && Ext(name) != []
  }

  /** What is found under its name after a creation, whatever was there before: an earlier
      entry of that name if there is one, else the new entry if the name survives the
      encoding, else a later one.  The new entry has its start and length. */
  lemma CreateThenFind(d: seq<Slot>, name: seq<char>, cstart: nat, size: int)
    requires SlotsOk(d) && FirstBlank(d, 0) != NULL && Encodable(name) && Plain(name)
    ensures var e, i, before := Entered(d, name, cstart, size), FirstBlank(d, 0), Lookup(d, name, 0);
            && SlotsOk(e)
            && e[i].start == cstart && e[i].length == size
            && Lookup(e, name, 0) == (if 0 <= before < i then before
                                      else if RoundTrips(name) then i else Lookup(d, name, i + 1))
            && (Lookup(e, name, 0) == i <==> RoundTrips(name) && !(0 <= before < i))
  {
    hide DecodedName, Encoded, Encodable;
    var e, i := Entered(d, name, cstart, size), FirstBlank(d, 0);
    NameRoundTrip(name, d[i].raw);
    assert DecodedName(e[i].raw) == name <==> RoundTrips(name);
    LookupChanged(d, e, name, i);
  }

  /** A file created under a name with an extension and without spaces is found under the
      lower-case spelling of that name, and its entry under no other name. */
  lemma FoundUnderSpelling(d: seq<Slot>, name: seq<char>, cstart: nat, size: int, q: seq<char>)
    requires SlotsOk(d) && FirstBlank(d, 0) != NULL && Encodable(name) && Plain(name)
    requires SPACE !in name && Ext(name) != [] && Lookup(d, q, 0) == NULL
    ensures var e := Entered(d, name, cstart, size);
            SlotsOk(e) && Lookup(e, q, 0) == if q == Lowered(name) then FirstBlank(d, 0) else NULL
  {
    hide DecodedName, Encoded, Encodable, Lowered;
    var e, i := Entered(d, name, cstart, size), FirstBlank(d, 0);
    DecodedSpelling(name, d[i].raw);
    LookupChanged(d, e, q, i);
  }

  /** Lookup in a directory of which entry i changed. */
  lemma LookupChanged(d: seq<Slot>, e: seq<Slot>, name: seq<char>, i: nat)
    requires SlotsOk(d) && SlotsOk(e) && |e| == |d| && i < |d|
    requires forall j :: 0 <= j < |d| && j != i ==> e[j] == d[j]
    ensures var before := Lookup(d, name, 0);
            Lookup(e, name, 0) == if 0 <= before < i then before
                                  else if DecodedName(e[i].raw) == name then i else Lookup(d, name, i + 1)
  {
    hide DecodedName;
    SameLookup(d, e, name, i + 1);
    forall j | 0 <= j < i ensures DecodedName(e[j].raw) == DecodedName(d[j].raw) {
      assert e[j] == d[j];
    }
    LookupFrom(e, name, 0, i);
  }

  lemma SameLookup(d: seq<Slot>, e: seq<Slot>, name: seq<char>, k: nat)
    requires SlotsOk(d) && SlotsOk(e) && |e| == |d| && forall j :: k <= j < |d| ==> e[j] == d[j]
    ensures Lookup(e, name, k) == Lookup(d, name, k)
    decreases |d| - k
  {
    hide DecodedName;
    if k < |d| {
      SameLookup(d, e, name, k + 1);
    }
  }

  /** When nothing below i has the name, the search may start at i. */
  lemma LookupFrom(d: seq<Slot>, name: seq<char>, k: nat, i: nat)
    requires SlotsOk(d) && k <= i <= |d|
    ensures (forall j :: k <= j < i ==> DecodedName(d[j].raw) != name) ==> Lookup(d, name, k) == Lookup(d, name, i)
    decreases i - k
  {
    hide DecodedName;
    if k < i {
      LookupFrom(d, name, k + 1, i);
    }
  }

  /** The first character of a decoded name. */
  lemma DecodedFirst(raw: seq<char>)
    requires |raw| == RAW_BYTES
    ensures var t := DecodedName(raw);
            if raw[0] == SPACE || raw[0] == NUL then t == [] || t[0] == DOT
            else t != [] && t[0] == Lower(raw[0])
  {
    hide Lowered;
    var b, m := NameBuffer(raw), FullBuffer(raw)[TEXT_BYTES - 1 := NUL];
    assert raw[..NAME_BYTES][0] == raw[0];
    assert raw[0] != SPACE ==> Find(raw[..NAME_BYTES], SPACE) >= 1 && b[0] == raw[0];
    assert raw[0] == SPACE ==> b[0] == NUL;
    assert b[0] == NUL ==> Cut(b) == [];
    assert b[0] != NUL ==> |Cut(b)| >= 1;
    assert m[0] == FullAt(raw, 0);
    assert m[0] == NUL <==> Cut(m) == [];
  }

  /** What an entry decodes to whose name starts with NUL, as a never-used one, or with a
      space: "." exactly if its extension starts with NUL, and nothing exactly if its
      extension starts with a space. */
  lemma DecodedDot(raw: seq<char>)
    requires |raw| == RAW_BYTES && (raw[0] == NUL || raw[0] == SPACE)
    ensures DecodedName(raw) == [DOT] <==> raw[NAME_BYTES] == NUL
    ensures DecodedName(raw) == [] <==> raw[NAME_BYTES] == SPACE
  {
    hide Lowered;
    var b, m := NameBuffer(raw), FullBuffer(raw)[TEXT_BYTES - 1 := NUL];
    assert raw[..NAME_BYTES][0] == raw[0];
    assert b[0] == NUL;
    assert Cut(b) == [] by { CutAt(b, []); }
    assert Extension(raw)[0] == raw[NAME_BYTES];
    assert m[0] == FullAt(raw, 0) && m[1] == FullAt(raw, 1);
    if raw[NAME_BYTES] == SPACE {
      CutAt(m, []);
    } else {
      assert m[0] == DOT && m[1] == raw[NAME_BYTES];
      if raw[NAME_BYTES] == NUL {
        CutAt(m, [DOT]);
      } else {
        LongerCut(m);
      }
    }
  }

  lemma LongerCut(m: seq<char>)
    requires |m| >= 2 && m[0] != NUL && m[1] != NUL
    ensures |Cut(m)| >= 2
  {
  }

  /** Removal stores byte 0xE5 over the first character and nothing else. */
  lemma StruckFields(d: seq<Slot>, i: nat)
    requires SlotsOk(d) && i < |d|
    ensures var e := Struck(d, i);
            && |e| == |d| && e[i].raw[0] as int == 0xE5 && e[i].raw[1..] == d[i].raw[1..]
            && e[i].start == d[i].start && e[i].length == d[i].length
            && forall j :: 0 <= j < |d| && j != i ==> e[j] == d[j]
  {
  }

  /** A removed name is no longer found exactly when it did not already start with the mark
      of a deleted entry and no later entry has the same name. */
  lemma RemoveThenFind(d: seq<Slot>, name: seq<char>, i: nat)
    requires SlotsOk(d) && i < |d| && Lookup(d, name, 0) == i
    ensures SlotsOk(Struck(d, i))
    ensures Lookup(Struck(d, i), name, 0) == if name != [] && name[0] == DELETED then i else Lookup(d, name, i + 1)
    ensures Lookup(Struck(d, i), name, 0) == NULL <==>
            (name == [] || name[0] != DELETED) && forall j :: i < j < |d| ==> DecodedName(d[j].raw) != name
  {
    hide DecodedName;
    var e := Struck(d, i);
    DecodedFirst(d[i].raw);
    DecodedFirst(e[i].raw);
    assert name != [] && name[0] == DELETED ==> e[i].raw == d[i].raw;
    assert DecodedName(e[i].raw) == name <==> name != [] && name[0] == DELETED;
    LookupChanged(d, e, name, i);
  }

  /** The life of a file: created under a fresh name it is found with its start and length;
      removed, it is not found any more, the FAT is what it was, entry for entry, and its
      directory entry is spent. */
  lemma CreateFindRemoveFind(f: FatTable.Table, d: seq<Slot>, name: seq<char>, size: int)
    requires SlotsOk(d) && FirstBlank(d, 0) != NULL && Lookup(d, name, 0) == NULL
    requires Encodable(name) && Plain(name) && RoundTrips(name) && name[0] != DELETED
    requires FatTable.InRange(f) && 1 <= FatTable.ClustersFor(size) <= |FatTable.FreeList(f)|
    ensures var n, i := FatTable.ClustersFor(size), FirstBlank(d, 0);
            var g, e := FatTable.Allocated(f, n), Entered(d, name, FatTable.AllocatedStart(f, n), size);
            && SlotsOk(e) && Lookup(e, name, 0) == i && e[i].length == size && e[i].start < FatTable.ENTRIES
            && FatTable.InRange(g) && FatTable.Deleted(g, e[i].start) == f
            && SlotsOk(Struck(e, i)) && Lookup(Struck(e, i), name, 0) == NULL
            && FirstBlank(Struck(e, i), 0) != i
  {
    hide DecodedName, Encoded, Encodable, FatTable.FreeList, FatTable.Allocated, FatTable.Deleted, FatTable.InRange;
    var n, i := FatTable.ClustersFor(size), FirstBlank(d, 0);
    var e := Entered(d, name, FatTable.AllocatedStart(f, n), size);
    CreateThenFind(d, name, FatTable.AllocatedStart(f, n), size);
    FatTable.FreeUndoesAllocate(f, n);
    forall j | 0 <= j < |e| && j != i ensures DecodedName(e[j].raw) != name {
      assert e[j] == d[j];
    }
    RemoveThenFind(e, name, i);
  }

  // ---------------------------------------------------------------- the volume

  function VolumeOf(f: FatTable.Table, d: seq<Slot>): FatTable.Volume
    requires SlotsOk(d)
  {
    FatTable.Volume(f, Files(d))
  }

  lemma EncodedFirst(name: seq<char>, old12: seq<char>)
    requires Encodable(name) && Plain(name) && |old12| == RAW_BYTES
    ensures name != [] && Encoded(name, old12)[0] == if name[0] == DOT then SPACE else name[0]
  {
    assert name[0] != DOT ==> Base(name)[0] == name[0];
  }

  /** On the files and their chains fat12_create_file is the creation of FatTable. */
  lemma CreatesFile(f: FatTable.Table, d: seq<Slot>, name: seq<char>, size: int)
    requires SlotsOk(d) && FirstBlank(d, 0) != NULL && Encodable(name) && Plain(name) && name != [] && name[0] != DELETED
    ensures var n, i := FatTable.ClustersFor(size), FirstBlank(d, 0);
            var e := Entered(d, name, FatTable.AllocatedStart(f, n), size);
            && SlotsOk(e) && i !in Files(d)
            && VolumeOf(FatTable.Allocated(f, n), e) == FatTable.Create(VolumeOf(f, d), i, n)
  {
    hide FatTable.ClustersFor, FatTable.Allocated, FatTable.AllocatedStart, Encoded, Encodable;
    var n, i := FatTable.ClustersFor(size), FirstBlank(d, 0);
    var e := Entered(d, name, FatTable.AllocatedStart(f, n), size);
    EncodedFirst(name, d[i].raw);
    assert Live(e[i]);
    assert Files(e) == Files(d)[i := FatTable.AllocatedStart(f, n)];
  }

  /** And fat12_rm is the removal of FatTable. */
  lemma RemovesFile(f: FatTable.Table, d: seq<Slot>, i: nat)
    requires SlotsOk(d) && i < |d| && Live(d[i]) && FatTable.InRange(f) && d[i].start < FatTable.ENTRIES
    ensures SlotsOk(Struck(d, i)) && i in Files(d)
    ensures VolumeOf(FatTable.Deleted(f, d[i].start), Struck(d, i)) == FatTable.Remove(VolumeOf(f, d), i)
  {
    var e := Struck(d, i);
    assert !Live(e[i]);
    assert Files(e) == Files(d) - {i};
  }

  /** Hence both keep the chains of all live files acyclic, terminated and disjoint, and
      lose no cluster. */
  lemma DirectoryKeepsVolume(f: FatTable.Table, d: seq<Slot>, name: seq<char>, size: int, i: nat)
    requires SlotsOk(d) && FatTable.WellFormed(VolumeOf(f, d))
    ensures FirstBlank(d, 0) != NULL && Encodable(name) && Plain(name) && name != [] && name[0] != DELETED ==>
              var n := FatTable.ClustersFor(size);
              var w := VolumeOf(FatTable.Allocated(f, n), Entered(d, name, FatTable.AllocatedStart(f, n), size));
              && (FatTable.WellFormed(w) <==> 1 <= n <= |FatTable.FreeList(f)|)
              && (FatTable.WellFormed(w) ==> FatTable.Accounted(w) == FatTable.Accounted(VolumeOf(f, d)))
    ensures i < |d| && Live(d[i]) ==>
              && FatTable.InRange(f) && d[i].start < FatTable.ENTRIES
              && var w := VolumeOf(FatTable.Deleted(f, d[i].start), Struck(d, i));
                 FatTable.WellFormed(w) && FatTable.Accounted(w) == FatTable.Accounted(VolumeOf(f, d))
  {
    hide Encodable, Encoded, FatTable.FreeList, FatTable.Allocated, FatTable.Deleted, FatTable.Accounted, FatTable.ChainOf;
    if FirstBlank(d, 0) != NULL && Encodable(name) && Plain(name) && name != [] && name[0] != DELETED {
      CreatesFile(f, d, name, size);
      FatTable.CreateWellFormed(VolumeOf(f, d), FirstBlank(d, 0), FatTable.ClustersFor(size));
    }
    if i < |d| && Live(d[i]) {
      assert i in Files(d);
      FatTable.RemoveWellFormed(VolumeOf(f, d), i);
      RemovesFile(f, d, i);
    }
  }
}
