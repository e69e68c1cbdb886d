/** The FAT routines of include/fat12.h that loop over table entries and cluster chains,
    proved against the functions of FatTable, FatPacking and ChainData. */
module Fat12 {
  import opened FatTable
  import opened FatPacking
  import opened Ide
  import opened ChainData

  class Fat {
    const entry: array<nat>
    const phys: array<Byte>

    ghost predicate Valid() {
      entry.Length == ENTRIES && phys.Length == PHYS_BYTES
    }

    ghost function Table(): FatTable.Table
      requires Valid()
      reads entry
    {
      entry[..]
    }

    /** The loop of fat12_init over the FAT sectors. */
    method Decode()
      requires Valid()
      modifies entry
      ensures Table() == Unpack(phys[..])
    {
      var i, j := 0, 0;
      while i < PHYS_BYTES
        invariant 0 <= i <= PHYS_BYTES && i % 3 == 0 && j == i / 3 * 2
        invariant forall k :: 0 <= k < j ==> entry[k] == UnpackedEntry(phys[..], k)
      {
        entry[j] := (phys[i] + phys[i+1] as int * 256) % 0x1000;
        entry[j+1] := (phys[i+1] + phys[i+2] as int * 256) / 16;
        i, j := i + 3, j + 2;
      }
    }

    /** The part of fat12_init that reads the first copy of the FAT, sectors 1 to 9. */
    method Init(disk: array<Sector>, tmp: array<Byte>)
      requires Valid() && disk.Length >= 10 && tmp != phys && tmp.Length >= 9 * SECTSIZE
      modifies tmp, phys, entry
      ensures phys[..] == Flat(disk[..], 1, 9) && Table() == Unpack(phys[..])
    {
      ReadSectors(disk, tmp, phys, 0, 1, 9);
      Decode();
    }

    /** fat12_write_back_fat. */
    method WriteBack()
      requires Valid()
      modifies phys
      ensures phys[..] == Pack(Table())
    {
      var i, j := 0, 0;
      while j < ENTRIES
        invariant 0 <= j <= ENTRIES && j % 2 == 0 && i == j / 2 * 3
        invariant forall k :: 0 <= k < i ==> phys[k] == PackedByte(Table(), k)
      {
        phys[i] := entry[j] % 256;
        phys[i+1] := entry[j] / 256 % 16 + entry[j+1] * 16 % 256;
        phys[i+2] := entry[j+1] / 16 % 256;
        i, j := i + 3, j + 2;
      }
    }

    /** fat12_next_sector. */
    method NextSector(actual: nat) returns (next: nat, more: bool)
      requires Valid() && actual < ENTRIES
      ensures next == Table()[actual] && more == !Stops(next)
      ensures more <==> next != 0 && next < 0xFF0
    {
      next := entry[actual];
      if next == 0 || next >= FIRST_END {
        more := false;
      } else {
        more := true;
      }
    }

    /** fat12_get_num_cluster.  The loop ends only because the walk from start does. */
    method GetNumCluster(start: nat, rootEntries: nat, ghost c: seq<nat>) returns (r: nat)
      requires Valid()
      requires start != 0 ==> Walk(Table(), c) && c[0] == start
      ensures r == if start == 0 then rootEntries * 32 / SECTSIZE else |c|
    {
      if start == 0 {
        return rootEntries * 32 / SECTSIZE;
      }
      r := 1;
      var cl, more := NextSector(start);
      InnerGoesOn(Table(), c);
      while more
        invariant 1 <= r <= |c| && cl == Table()[c[r-1]] && more == !Stops(cl)
        decreases |c| - r
      {
        assert cl == c[r];
        r := r + 1;
        cl, more := NextSector(cl);
      }
    }

    /** fat12_read_clusters: the whole chain into the buffer.  The result is one less than
        the number of sectors read. */
    method ReadClusters(disk: array<Sector>, tmp: array<Byte>, buf: array<Byte>, cstart: nat, ghost c: seq<nat>)
      returns (i: nat)
      requires Valid() && Walk(Table(), c) && c[0] == cstart && OnDisk(disk[..], c)
      requires phys != tmp && phys != buf && tmp != buf
      requires tmp.Length >= SECTSIZE && buf.Length >= |c| * SECTSIZE
      modifies tmp, buf
      ensures buf[..] == Content(disk[..], c) + old(buf[|c| * SECTSIZE..])
      ensures i + 1 == |c|
    {
      var clust := cstart;
      i := 0;
      InnerGoesOn(Table(), c);
      while true
        invariant 0 <= i < |c| && clust == c[i]
        invariant buf[..i * SECTSIZE] == Content(disk[..], c[..i])
        invariant buf[i * SECTSIZE..] == old(buf[i * SECTSIZE..])
        decreases |c| - i
      {
        label Before:
        ReadSectors(disk, tmp, buf, i * SECTSIZE, clust + DATA_REGION_START - 2, 1);
        assert Flat(disk[..], SectorOf(c[i]), 1) == disk[SectorOf(c[i])];
        assert c[..i+1][..i] == c[..i];
        assert buf[..(i + 1) * SECTSIZE] == old@Before(buf[..i * SECTSIZE]) + disk[SectorOf(c[i])];
        var next, more := NextSector(clust);
        clust := next;
        if !more {
          break;
        }
        i := i + 1;
      }
      assert c[..i+1] == c;
    }

    /** fat12_write_clusters: the buffer over the whole chain. */
    method WriteClusters(disk: array<Sector>, buf: array<Byte>, cstart: nat, ghost c: seq<nat>)
      returns (i: nat)
      requires Valid() && Walk(Table(), c) && c[0] == cstart && OnDisk(disk[..], c)
      requires buf.Length >= |c| * SECTSIZE
      modifies disk
      ensures disk[..] == Stored(old(disk[..]), c, buf[..])
      ensures i + 1 == |c|
    {
      var clust := cstart;
      i := 0;
      InnerGoesOn(Table(), c);
      while true
        invariant 0 <= i < |c| && clust == c[i]
        invariant disk[..] == Stored(old(disk[..]), c[..i], buf[..])
        decreases |c| - i
      {
        label Before:
        var sec := clust + DATA_REGION_START - 2;
        WriteSectors(disk, buf, i * SECTSIZE, sec, 1);
        assert Flat(disk[..], sec, 1) == disk[sec];
        assert disk[..] == disk[..sec] + [disk[sec]] + disk[sec+1..];
        assert disk[..] == old@Before(disk[..])[sec := buf[i * SECTSIZE..(i + 1) * SECTSIZE]];
        assert c[..i+1][..i] == c[..i];
        var next, more := NextSector(clust);
        clust := next;
        if !more {
          break;
        }
        i := i + 1;
      }
      assert c[..i+1] == c;
    }

    /** fat12_del_fat_entry with the store of line 406 put where it was meant to go.  The
        packed table is brought up to date as well. */
    method DelFatEntry(cstart: nat)
      requires Valid() && InRange(Table()) && cstart < ENTRIES
      modifies entry, phys
      ensures Table() == Deleted(old(Table()), cstart)
      ensures phys[..] == Pack(Table())
    {
      var clust: nat := cstart;
      while true
        invariant InRange(Table()) && clust < ENTRIES
        invariant Deleted(Table(), clust) == Deleted(old(Table()), cstart)
        decreases |Occupied(Table())|
      {
        ghost var before := Table();
        var next, flag := NextSector(clust);
        entry[clust] := 0;
        assert Table() == before[clust := 0];
        if !flag {
          break;
        }
        OccupiedShrinks(before, clust);
        clust := next;
      }
      WriteBack();
    }

    /** fat12_del_fat_entry as written: each round stores four zero bytes at the address
        given by the value of the entry, which is below the kernel image, so that the walk
        changes nothing in the table.  It is called only where it ends, in round n. */
    method DelFatEntryAsWritten(cstart: nat, ghost n: nat)
      requires Valid() && InRange(Table()) && cstart < ENTRIES && EndsIn(Table(), cstart, n)
      modifies phys
      ensures phys[..] == Pack(Table())
    {
      var clust := cstart;
      ghost var i := 0;
      while true
        invariant 0 <= i <= n && clust == Round(Table(), cstart, i) && clust < ENTRIES
        decreases n - i
      {
        assert Stops(Table()[Round(Table(), cstart, n)]);
        var next, flag := NextSector(clust);
        clust := next;
        if !flag {
          break;
        }
        i := i + 1;
      }
      WriteBack();
    }

    /** The allocation loop of fat12_create_file, lines 611-625. */
    method Allocate(numCluster: int) returns (cstart: nat)
      requires Valid()
      modifies entry
      ensures Table() == Allocated(old(Table()), numCluster)
      ensures cstart == AllocatedStart(old(Table()), numCluster)
    {
      hide FreeFrom, FreeList, Link, Taken, Allocated, AllocatedStart, ScanState;
      ghost var f := Table();
      ghost var taken: seq<nat> := [];
      var cnt, prevIndex: int := 0, -1;
      cstart := 0;
      var i := FIRST_DATA;
      ScanStart(f);
      while i < ENTRIES
        invariant FIRST_DATA <= i <= ENTRIES && InTable(taken)
        invariant ScanState(f, taken, i) && Table() == Link(f, taken, 0)
        invariant cnt == |taken| && !(1 <= numCluster <= cnt)
        invariant prevIndex == (if taken == [] then -1 else taken[|taken|-1])
        invariant cstart == (if taken == [] then 0 else taken[0])
      {
        if entry[i] == 0 {
          if cnt == 0 {
            cstart := i;
          }
          if prevIndex != -1 {
            entry[prevIndex] := i;
          }
          prevIndex := i;
          cnt := cnt + 1;
          LinkSnoc(f, taken, i);
          taken := taken + [i];
          if cnt == numCluster {
            entry[i] := LAST_CLUSTER;
            ScanEarly(f, taken, i + 1);
            return;
          }
        } else {
          ScanSkip(f, taken, i);
        }
        i := i + 1;
      }
      ScanDone(f, taken, numCluster);
    }
  }

  /** taken holds the free clusters below i, in the order of the scan. */
  ghost predicate ScanState(f: FatTable.Table, taken: seq<nat>, i: nat)
    requires i <= ENTRIES
  {
    && taken + FreeFrom(f, i) == FreeList(f)
    && forall k :: 0 <= k < |taken| ==> taken[k] < i
  }

  lemma ScanStart(f: FatTable.Table)
    ensures ScanState(f, [], FIRST_DATA) && Link(f, [], 0) == f
  {
  }

  lemma ScanSkip(f: FatTable.Table, taken: seq<nat>, i: nat)
    requires i < ENTRIES && ScanState(f, taken, i) && InTable(taken) && Link(f, taken, 0)[i] != 0
    ensures ScanState(f, taken, i + 1)
  {
    assert i !in taken;
  }

  lemma ScanTake(f: FatTable.Table, taken: seq<nat>, i: nat)
    requires i < ENTRIES && ScanState(f, taken, i) && InTable(taken) && Link(f, taken, 0)[i] == 0
    ensures i !in taken && f[i] == 0
    ensures ScanState(f, taken + [i], i + 1)
  {
    hide FreeList, Link;
    assert i !in taken && f[i] == 0;
    ScanMove(f, taken, i, FreeList(f));
  }

  lemma ScanMove(f: FatTable.Table, taken: seq<nat>, i: nat, all: seq<nat>)
    requires i < ENTRIES && f[i] == 0 && taken + FreeFrom(f, i) == all
    ensures taken + [i] + FreeFrom(f, i + 1) == all
  {
    assert taken + [i] + FreeFrom(f, i + 1) == taken + ([i] + FreeFrom(f, i + 1));
  }

  /** Taking one more free cluster: the previous one now points to it. */
  lemma LinkSnoc(f: FatTable.Table, taken: seq<nat>, i: nat)
    requires i < ENTRIES && ScanState(f, taken, i) && InTable(taken) && Link(f, taken, 0)[i] == 0
    ensures ScanState(f, taken + [i], i + 1)
    ensures Link(f, taken + [i], 0) ==
            if taken == [] then f else Link(f, taken, 0)[taken[|taken|-1] := i]
  {
    hide ScanState;
    ScanTake(f, taken, i);
    assert (taken + [i])[..|taken|] == taken;
    if taken != [] {
      assert Link(f, taken, i)[i] == 0;
    }
  }

  lemma ScanEarly(f: FatTable.Table, taken: seq<nat>, i: nat)
    requires i <= ENTRIES && ScanState(f, taken, i) && InTable(taken) && taken != []
    ensures Allocated(f, |taken|) == Link(f, taken, 0)[taken[|taken|-1] := LAST_CLUSTER]
    ensures AllocatedStart(f, |taken|) == taken[0]
  {
    assert FreeList(f)[..|taken|] == taken;
  }

  lemma ScanDone(f: FatTable.Table, taken: seq<nat>, n: int)
    requires ScanState(f, taken, ENTRIES) && InTable(taken) && !(1 <= n <= |taken|)
    ensures Allocated(f, n) == Link(f, taken, 0)
    ensures AllocatedStart(f, n) == if taken == [] then 0 else taken[0]
  {
    assert taken == FreeList(f);
  }
}
