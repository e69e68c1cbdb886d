/** The bytes of a file: reading and writing along a cluster chain. */
module ChainData {
  import opened Basics
  import opened FatTable
  import opened Ide

  const DATA_REGION_START := 33

  /** The sector that holds a data cluster. */
  function SectorOf(c: nat): nat
    requires c >= FIRST_DATA
  {
    c + DATA_REGION_START - 2
  }

  predicate OnDisk(disk: seq<Sector>, c: seq<nat>) {
    forall i :: 0 <= i < |c| ==> FIRST_DATA <= c[i] && SectorOf(c[i]) < |disk|
  }

  /** The bytes a reader of the chain gets. */
  function Content(disk: seq<Sector>, c: seq<nat>): (r: seq<Byte>)
    requires OnDisk(disk, c)
    ensures |r| == |c| * SECTSIZE
  {
    if c == [] then []
    else
      var n := |c| - 1;
      Content(disk, c[..n]) + disk[SectorOf(c[n])]
  }

  /** The disk after storing data along the chain, one sector per cluster. */
  function Stored(disk: seq<Sector>, c: seq<nat>, data: seq<Byte>): (r: seq<Sector>)
    requires OnDisk(disk, c) && |c| * SECTSIZE <= |data|
    ensures |r| == |disk|
    ensures forall s :: 0 <= s < |disk| && (forall i :: 0 <= i < |c| ==> SectorOf(c[i]) != s) ==> r[s] == disk[s]
    decreases |c|
  {
    if c == [] then disk
    else
      var n := |c| - 1;
      Stored(disk, c[..n], data)[SectorOf(c[n]) := data[n * SECTSIZE..(n + 1) * SECTSIZE]]
  }

  lemma {:induction false} ContentFrame(a: seq<Sector>, b: seq<Sector>, c: seq<nat>)
    requires OnDisk(a, c) && OnDisk(b, c)
    requires forall i :: 0 <= i < |c| ==> a[SectorOf(c[i])] == b[SectorOf(c[i])]
    ensures Content(a, c) == Content(b, c)
    decreases |c|
  {
    if c != [] {
      ContentFrame(a, b, c[..|c|-1]);
    }
  }

  /** What was stored along a chain is what the chain reads back. */
  lemma {:induction false} ReadBack(disk: seq<Sector>, c: seq<nat>, data: seq<Byte>)
    requires OnDisk(disk, c) && Distinct(c) && |c| * SECTSIZE <= |data|
    ensures Content(Stored(disk, c, data), c) == data[..|c| * SECTSIZE]
    decreases |c|
  {
    if c != [] {
      var n := |c| - 1;
      ReadBack(disk, c[..n], data);
      ContentFrame(Stored(disk, c[..n], data), Stored(disk, c, data), c[..n]);
    }
  }

  lemma Elsewhere(c: seq<nat>, d: seq<nat>, i: nat)
    requires Members(c) !! Members(d) && i < |d| && d[i] >= FIRST_DATA
    requires forall j :: 0 <= j < |c| ==> c[j] >= FIRST_DATA
    ensures forall j :: 0 <= j < |c| ==> SectorOf(c[j]) != SectorOf(d[i])
  {
    assert d[i] in Members(d);
    forall j | 0 <= j < |c| ensures SectorOf(c[j]) != SectorOf(d[i]) {
      assert c[j] in Members(c);
    }
  }

  /** Storing along one chain does not change what a disjoint chain reads. */
  lemma StoreElsewhere(disk: seq<Sector>, c: seq<nat>, d: seq<nat>, data: seq<Byte>)
    requires OnDisk(disk, c) && OnDisk(disk, d) && |c| * SECTSIZE <= |data|
    requires Members(c) !! Members(d)
    ensures Content(Stored(disk, c, data), d) == Content(disk, d)
  {
    hide Members, Content, Stored, SectorOf;
    forall i | 0 <= i < |d| ensures Stored(disk, c, data)[SectorOf(d[i])] == disk[SectorOf(d[i])] {
      Elsewhere(c, d, i);
    }
    ContentFrame(Stored(disk, c, data), disk, d);
  }

  /** On a well-formed volume a write through one live file reads back through that file
      and leaves every other live file's bytes as they were. */
  lemma WriteIsPrivate(v: Volume, disk: seq<Sector>, x: nat, y: nat, data: seq<Byte>)
    requires WellFormed(v) && x in v.start && y in v.start
    requires OnDisk(disk, ChainOf(v.fat, v.start[x])) && OnDisk(disk, ChainOf(v.fat, v.start[y]))
    requires |data| == |ChainOf(v.fat, v.start[x])| * SECTSIZE
    ensures Content(Stored(disk, ChainOf(v.fat, v.start[x]), data), ChainOf(v.fat, v.start[y])) ==
            if x == y then data else Content(disk, ChainOf(v.fat, v.start[y]))
  {
    if x == y {
      ReadBack(disk, ChainOf(v.fat, v.start[x]), data);
      assert data[..|data|] == data;
    } else {
      StoreElsewhere(disk, ChainOf(v.fat, v.start[x]), ChainOf(v.fat, v.start[y]), data);
    }
  }
}
