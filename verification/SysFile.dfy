/** The open files of include/sysfile.h: a buffer of 1024 bytes per slot, which goes to the
    file system when a file opened for writing is closed. */
module SysFile {
  import opened Basics
  import opened CString
  import opened FatNames
  import opened FatDirectory
  import opened ChainData
  import opened Ide
  import FatTable
  import Fat12

  const BUFFER_BYTES := 1024
  const NAME_ROOM := 32
  const MODE_ROOM := 4

  /** A slot: the name and mode strings, the buffer, and how far it has been written. */
  datatype Stream = Stream(name: seq<char>, mode: seq<char>, buffer: seq<char>, pos: nat)

  predicate StreamOk(st: Stream) {
    |st.buffer| == BUFFER_BYTES && st.pos <= BUFFER_BYTES
  }

  /** do_fputs and do_fwrite: nothing unless the mode is "w". */
  function Wrote(st: Stream, t: seq<char>): (r: Stream)
    requires StreamOk(st) && (st.mode == "w" ==> st.pos + |t| <= BUFFER_BYTES)
    ensures StreamOk(r) && r.name == st.name && r.mode == st.mode
    ensures st.mode == "w" ==> r.buffer[..r.pos] == st.buffer[..st.pos] + t && r.buffer[r.pos..] == st.buffer[r.pos..]
    ensures st.mode != "w" ==> r == st
  {
    if st.mode != "w" then st
    else st.(buffer := st.buffer[..st.pos] + t + st.buffer[st.pos + |t|..], pos := st.pos + |t|)
  }

  /** Bytes as characters. */
  function Text(bs: seq<Byte>): (r: seq<char>)
    ensures |r| == |bs| && forall k :: 0 <= k < |bs| ==> r[k] == bs[k] as char
  {
    seq(|bs|, k requires 0 <= k < |bs| => bs[k] as char)
  }

  /** The buffer of a file with chain c after it was opened. */
  function Loaded(old0: seq<char>, disk: seq<Sector>, c: seq<nat>): seq<char>
    requires OnDisk(disk, c) && |c| * SECTSIZE <= |old0|
  {
    Text(Content(disk, c)) + old0[|c| * SECTSIZE..]
  }

  /** c is the chain of entry e, lies on the disk, and fits the buffer. */
  ghost predicate ChainFits(f: FatTable.Table, d: seq<Slot>, e: int, disk: seq<Sector>, c: seq<nat>)
    requires e < |d|
  {
    e != NULL ==> e >= 0 && FatTable.Walk(f, c) && c[0] == d[e].start && OnDisk(disk, c) && |c| * SECTSIZE <= BUFFER_BYTES
  }

  class File {
    const name: array<char>
    const mode: array<char>
    const buffer: array<char>
    var pos: nat
    var fileLength: int
    var startCluster: nat
    var currentCluster: nat
    ghost var nameText: seq<char>
    ghost var modeText: seq<char>

    ghost predicate Valid()
      reads this, name, mode, buffer
    {
      && name.Length == NAME_ROOM && mode.Length == MODE_ROOM && buffer.Length == BUFFER_BYTES
      && name != mode && name != buffer && mode != buffer
      && Holds(name[..], 0, nameText) && Holds(mode[..], 0, modeText) && pos <= BUFFER_BYTES
    }

    ghost function Abs(): (st: Stream)
      requires Valid()
      ensures StreamOk(st)
      reads this, name, mode, buffer
    {
      Stream(nameText, modeText, buffer[..], pos)
    }

    twostate predicate SameNumbers()
      reads this
    {
      fileLength == old(fileLength) && startCluster == old(startCluster) && currentCluster == old(currentCluster)
    }

    /** file_init for one slot. */
    constructor ()
      ensures Valid() && fresh(name) && fresh(mode) && fresh(buffer)
      ensures Abs() == Stream([], "u", Zeros(BUFFER_BYTES), 0)
      ensures fileLength == 0 && startCluster == 0 && currentCluster == 0
    {
      name := new char[NAME_ROOM];
      mode := new char[MODE_ROOM];
      buffer := new char[BUFFER_BYTES];
      pos, fileLength, startCluster, currentCluster := 0, 0, 0, 0;
      nameText, modeText := [], "u";
      new;
      MemSet(name, NUL, NAME_ROOM);
      MemSet(buffer, NUL, BUFFER_BYTES);
      SetMode("u");
      assert buffer[..] == Zeros(BUFFER_BYTES);
    }

    method SetMode(m: seq<char>)
      requires mode.Length == MODE_ROOM && Plain(m) && |m| < MODE_ROOM
      modifies mode, this`modeText
      ensures Holds(mode[..], 0, m) && modeText == m
    {
      var s := new char[|m| + 1](k requires 0 <= k <= |m| => if k < |m| then m[k] else NUL);
      StrCpy(mode, 0, s, 0, m);
      StoredHolds(old(mode[..]), 0, m);
      modeText := m;
    }

    /** strcmp(fp->mode, m) == 0. */
    method HasMode(m: seq<char>) returns (r: bool)
      requires Valid() && Plain(m)
      ensures r <==> modeText == m
    {
      var s := new char[|m| + 1](k requires 0 <= k <= |m| => if k < |m| then m[k] else NUL);
      var c := StrCmp(mode, 0, s, 0, modeText, m);
      return c == 0;
    }

    /** do_fputs. */
    method Fputs(str: array<char>, ghost t: seq<char>) returns (r: int)
      requires Valid() && Holds(str[..], 0, t) && str != buffer
      requires modeText == "w" ==> pos + |t| <= BUFFER_BYTES
      modifies buffer, this`pos
      ensures Valid() && Abs() == Wrote(old(Abs()), t) && r == if modeText == "w" then 1 else 0
    {
      hide Holds;
      var w := HasMode("w");
      if !w {
        return 0;
      }
      var n := StrLen(str, 0, t);
      TextAt(str[..], 0, t);
      assert str[..n] == t;
      MemCpy(buffer, pos, str, 0, n);
      pos := pos + n;
      return 1;
    }

    /** do_fwrite. */
    method Fwrite(buf: array<char>, size: nat, count: nat) returns (r: int)
      requires Valid() && buf != buffer && size * count <= buf.Length
      requires modeText == "w" ==> pos + size * count <= BUFFER_BYTES
      modifies buffer, this`pos
      ensures Valid() && Abs() == Wrote(old(Abs()), buf[..size * count]) && r == if modeText == "w" then count else 0
    {
      hide Holds;
      var w := HasMode("w");
      if !w {
        return 0;
      }
      var numBytes := size * count;
      MemCpy(buffer, pos, buf, 0, numBytes);
      pos := pos + numBytes;
      return count;
    }

    /** do_fgets, which always starts at the beginning of the buffer. */
    method Fgets(str: array<char>, count: nat)
      requires Valid() && str != buffer && str != name && str != mode
      requires count <= str.Length && count <= BUFFER_BYTES
      modifies str
      ensures str[..] == Abs().buffer[..count] + old(str[count..])
    {
      MemCpy(str, 0, buffer, 0, count);
    }

    /** do_fclose; pos is left where it was. */
    method Fclose(dir: Directory)
      requires Valid() && dir.Valid() && name != dir.names && mode != dir.names && buffer != dir.names
      requires modeText == "w" && FirstBlank(dir.Slots(), 0) != NULL ==> Encodable(nameText) && |nameText| < 20
      modifies mode, this`modeText, dir.fat.entry, dir.names, dir.start, dir.length
      ensures Valid() && Abs() == old(Abs()).(mode := "u")
      ensures var n := FatTable.ClustersFor(pos);
              if old(modeText) == "w" then
                && dir.fat.Table() == FatTable.Allocated(old(dir.fat.Table()), n)
                && dir.Slots() == Entered(old(dir.Slots()), nameText, FatTable.AllocatedStart(old(dir.fat.Table()), n), pos)
              else dir.fat.Table() == old(dir.fat.Table()) && dir.Slots() == old(dir.Slots())
    {
      hide Holds, FatTable.ClustersFor, FatTable.Allocated, FatTable.AllocatedStart, Encoded, Encodable;
      var w := HasMode("w");
      if w {
        dir.CreateFile(pos, name, nameText);
      }
      SetMode("u");
    }

    /** The part of do_fopen that fills the slot. */
    method Open(dir: Directory, disk: array<Sector>, pname: array<char>, m: seq<char>, ghost t: seq<char>, ghost c: seq<nat>)
      returns (ok: bool)
      requires Valid() && dir.Valid() && pname != name && pname != mode && pname != buffer
      requires name != dir.names && mode != dir.names && buffer != dir.names
      requires Holds(pname[..], 0, t) && |t| < NAME_ROOM && Plain(m) && |m| < MODE_ROOM
      requires ChainFits(dir.fat.Table(), dir.Slots(), Lookup(dir.Slots(), t, 0), disk[..], c)
      requires m == "w" || m == "r" || Lookup(dir.Slots(), t, 0) != NULL
      modifies this, name, mode, buffer
      ensures Valid() && ok == (m == "w" || Lookup(dir.Slots(), t, 0) != NULL)
      ensures Lookup(dir.Slots(), t, 0) == NULL ==>
                && Abs() == old(Abs()).(name := t, mode := if m == "w" then m else old(modeText))
                && fileLength == old(fileLength) && startCluster == old(startCluster) && currentCluster == old(currentCluster)
      ensures var e := Lookup(dir.Slots(), t, 0);
              e != NULL ==>
                && OnDisk(disk[..], c) && |c| * SECTSIZE <= BUFFER_BYTES
                && Abs() == old(Abs()).(name := t, mode := m, buffer := Loaded(old(buffer[..]), disk[..], c))
                && fileLength == dir.Slots()[e].length && startCluster == currentCluster == dir.Slots()[e].start
    {
      hide Holds, Lookup, DecodedName, SlotsOk, Loaded, FatTable.Walk, OnDisk;
      SetName(pname, t);
      var e := dir.FindEntry(pname, t);
      assert dir.Slots() == old(dir.Slots()) && dir.fat.Table() == old(dir.fat.Table());
      if e == NULL && m == "w" {
        SetMode(m);
        return true;
      } else if e == NULL {
        return false;
      }
      Load(dir.fat, disk, dir.length[e], dir.start[e], m, c);
      return true;
    }

    /** The last lines of do_fopen, for an entry that was found: fat12_read_clusters fills the
        buffer. */
    method Load(fat: Fat12.Fat, disk: array<Sector>, length: int, start: nat, m: seq<char>, ghost c: seq<nat>)
      requires Valid() && fat.Valid() && Plain(m) && |m| < MODE_ROOM
      requires FatTable.Walk(fat.Table(), c) && c[0] == start && OnDisk(disk[..], c) && |c| * SECTSIZE <= BUFFER_BYTES
      modifies this`fileLength, this`startCluster, this`currentCluster, this`modeText, mode, buffer
      ensures Valid() && Abs() == old(Abs()).(mode := m, buffer := Loaded(old(buffer[..]), disk[..], c))
      ensures fileLength == length && startCluster == currentCluster == start
    {
      hide Holds, Loaded, FatTable.Walk, OnDisk;
      fileLength := length;
      startCluster := start;
      currentCluster := startCluster;
      SetMode(m);
      ReadChain(fat, disk, start, c);
    }

    /** fat12_read_clusters into the buffer. */
    method ReadChain(fat: Fat12.Fat, disk: array<Sector>, start: nat, ghost c: seq<nat>)
      requires buffer.Length == BUFFER_BYTES && fat.Valid()
      requires FatTable.Walk(fat.Table(), c) && c[0] == start && OnDisk(disk[..], c) && |c| * SECTSIZE <= BUFFER_BYTES
      modifies buffer
      ensures buffer[..] == Loaded(old(buffer[..]), disk[..], c)
    {
      hide FatTable.Linked;
      var bytes := new Byte[BUFFER_BYTES](_ => 0);
      var tmp := new Byte[SECTSIZE](_ => 0);
      var last := fat.ReadClusters(disk, tmp, bytes, start, c);
      var n := (last + 1) * SECTSIZE;
      assert bytes[..n] == Content(disk[..], c);
      FillBuffer(bytes, n);
    }

    method SetName(pname: array<char>, ghost t: seq<char>)
      requires name.Length == NAME_ROOM && pname != name && Holds(pname[..], 0, t) && |t| < NAME_ROOM
      modifies name, this`nameText
      ensures Holds(name[..], 0, t) && nameText == t
    {
      StrCpy(name, 0, pname, 0, t);
      StoredText(name[..], old(name[..]), pname[..], t);
      nameText := t;
    }

    /** The buffer takes bytes and characters alike. */
    method FillBuffer(bytes: array<Byte>, n: nat)
      requires n <= bytes.Length && n <= buffer.Length
      modifies buffer
      ensures buffer[..] == Text(bytes[..n]) + old(buffer[n..])
    {
      for k := 0 to n
        invariant forall j :: 0 <= j < buffer.Length ==> buffer[j] == if j < k then bytes[j] as char else old(buffer[j])
      {
        buffer[k] := bytes[k] as char;
      }
    }
  }

  ghost predicate AllValid(list: seq<File>)
    reads list, set f <- list :: f.name, set f <- list :: f.mode, set f <- list :: f.buffer
  {
    forall f <- list :: f.Valid()
  }

  /** The first slot whose mode is "u". */
  ghost function FirstUnused(list: seq<File>, i: nat): (r: int)
    ensures r == NULL || (i <= r < |list| && list[r].modeText == "u")
    ensures forall j :: i <= j < |list| && (r == NULL || j < r) ==> list[j].modeText != "u"
    reads list
    decreases |list| - i
  {
    if i >= |list| then NULL
    else if list[i].modeText == "u" then i
    else FirstUnused(list, i + 1)
  }

  /** The scan of do_fopen over file_list. */
  method FindUnused(list: seq<File>) returns (r: int)
    requires AllValid(list)
    ensures r == FirstUnused(list, 0)
  {
    r := 0;
    while r < |list|
      invariant 0 <= r <= |list| && FirstUnused(list, r) == FirstUnused(list, 0)
    {
      var u := list[r].HasMode("u");
      if u {
        return;
      }
      r := r + 1;
    }
    r := NULL;
  }

  /** The slots of file_list share nothing with each other, with the directory or with the
      caller's string. */
  ghost predicate Separate(list: seq<File>, dir: Directory, pname: array<char>) {
    && (forall f <- list :: {f.name, f.mode, f.buffer} !! {dir.names, pname})
    && (forall i, j :: 0 <= i < j < |list| ==>
          && list[i] != list[j]
          && {list[i].name, list[i].mode, list[i].buffer} !! {list[j].name, list[j].mode, list[j].buffer})
  }

  /** do_fopen: the first unused slot is tried; all other slots stay as they are. */
  method Fopen(list: seq<File>, dir: Directory, disk: array<Sector>, pname: array<char>, m: seq<char>,
               ghost t: seq<char>, ghost c: seq<nat>) returns (r: int)
    requires AllValid(list) && dir.Valid() && Separate(list, dir, pname)
    requires Holds(pname[..], 0, t) && |t| < NAME_ROOM && Plain(m) && |m| < MODE_ROOM
    requires ChainFits(dir.fat.Table(), dir.Slots(), Lookup(dir.Slots(), t, 0), disk[..], c)
    requires m == "w" || m == "r" || Lookup(dir.Slots(), t, 0) != NULL
    modifies list, set f <- list :: f.name, set f <- list :: f.mode, set f <- list :: f.buffer
    ensures AllValid(list)
    ensures var i, e := old(FirstUnused(list, 0)), Lookup(dir.Slots(), t, 0);
            && r == (if i != NULL && (m == "w" || e != NULL) then i else NULL)
            && (forall j :: 0 <= j < |list| && j != i ==> list[j].Abs() == old(list[j].Abs()) && list[j].SameNumbers())
            && (i != NULL && e == NULL ==>
                  list[i].Abs() == old(list[i].Abs()).(name := t, mode := if m == "w" then m else "u") &&
                  list[i].SameNumbers())
            && (i != NULL && e != NULL ==>
                  && OnDisk(disk[..], c) && |c| * SECTSIZE <= BUFFER_BYTES
                  && list[i].Abs() == old(list[i].Abs()).(name := t, mode := m,
                                                           buffer := Loaded(old(list[i].buffer[..]), disk[..], c))
                  && list[i].fileLength == dir.Slots()[e].length
                  && list[i].startCluster == list[i].currentCluster == dir.Slots()[e].start)
  {
    hide Holds, Lookup, DecodedName, SlotsOk, Loaded, ChainFits, OnDisk;
    r := FindUnused(list);
    if r == NULL {
      return;
    }
    var ok := list[r].Open(dir, disk, pname, m, t, c);
    if !ok {
      r := NULL;
    }
  }

  // ---------------------------------------------------------------- writing a file

  function WroteAll(st: Stream, ts: seq<seq<char>>): (r: Stream)
    requires StreamOk(st) && st.mode == "w" && st.pos + |Concat(ts)| <= BUFFER_BYTES
    ensures StreamOk(r) && r.mode == "w" && r.name == st.name
    decreases |ts|
  {
    if ts == [] then st
    else
      ConcatHead(ts);
      WroteAll(Wrote(st, ts[0]), ts[1..])
  }

  function Concat(ts: seq<seq<char>>): seq<char> {
    if ts == [] then [] else ts[0] + Concat(ts[1..])
  }

  lemma ConcatHead(ts: seq<seq<char>>)
    requires ts != []
    ensures |Concat(ts)| == |ts[0]| + |Concat(ts[1..])|
  {
  }

  /** Writing appends; the buffer holds what was written, and nothing else, exactly when the
      slot started empty: a slot that is opened again still has the bytes of its last file. */
  lemma {:induction false} WritesAppend(st: Stream, ts: seq<seq<char>>)
    requires StreamOk(st) && st.mode == "w" && st.pos + |Concat(ts)| <= BUFFER_BYTES
    ensures var r := WroteAll(st, ts);
            && r.pos == st.pos + |Concat(ts)| && r.buffer[..r.pos] == st.buffer[..st.pos] + Concat(ts)
            && (r.buffer[..r.pos] == Concat(ts) <==> st.pos == 0)
    decreases |ts|
  {
    if ts != [] {
      ConcatHead(ts);
      var u := Wrote(st, ts[0]);
      WritesAppend(u, ts[1..]);
      assert st.buffer[..st.pos] + ts[0] + Concat(ts[1..]) == st.buffer[..st.pos] + Concat(ts);
    }
  }

  /** A file opened for writing in a slot that was not used since file_init, then written:
      the buffer starts with everything written, in order, do_fgets returns its prefix, and
      closing makes a directory entry of that length under the name, with a chain of as many
      clusters as the length needs. */
  lemma WriteThenClose(d: seq<Slot>, f: FatTable.Table, fresh0: Stream, name: seq<char>, ts: seq<seq<char>>, count: nat)
    requires StreamOk(fresh0) && fresh0.pos == 0
    requires 0 < |Concat(ts)| <= BUFFER_BYTES && count <= |Concat(ts)|
    requires FatTable.ClustersFor(|Concat(ts)|) <= |FatTable.FreeList(f)|
    requires SlotsOk(d) && Lookup(d, name, 0) == NULL && FirstBlank(d, 0) != NULL
    requires Encodable(name) && Plain(name) && RoundTrips(name)
    ensures var st := WroteAll(fresh0.(name := name, mode := "w"), ts);
            && st.pos == |Concat(ts)|
            && st.buffer[..st.pos] == Concat(ts) && st.buffer[..count] == Concat(ts)[..count]
    ensures var n := FatTable.ClustersFor(|Concat(ts)|);
            var g, e := FatTable.Allocated(f, n), Entered(d, name, FatTable.AllocatedStart(f, n), |Concat(ts)|);
            && 1 <= n && 512 * (n - 1) < |Concat(ts)| <= 512 * n
            && SlotsOk(e)
            && var i := Lookup(e, name, 0);
               && i == FirstBlank(d, 0) && e[i].length == |Concat(ts)|
               && FatTable.Chain(g, FatTable.FreeList(f)[..n]) && FatTable.FreeList(f)[0] == e[i].start
  {
    hide DecodedName, Encoded, Encodable, Lookup, RoundTrips, FatTable.FreeList, FatTable.Allocated,
      FatTable.AllocatedStart, FatTable.Chain;
    var st := WroteAll(fresh0.(name := name, mode := "w"), ts);
    WritesAppend(fresh0.(name := name, mode := "w"), ts);
    assert st.buffer[..st.pos][..count] == st.buffer[..count];
    var n := FatTable.ClustersFor(|Concat(ts)|);
    FatTable.AllocationMakesChain(f, n);
    CreateThenFind(d, name, FatTable.AllocatedStart(f, n), |Concat(ts)|);
  }
}
