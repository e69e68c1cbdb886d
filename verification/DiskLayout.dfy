/** Where the regions of the disk lie: boot sector, two copies of the FAT, root directory, and the
    data clusters behind them (include/fat12.h:24-45). */
module DiskLayout {
  import opened Basics
  import opened FatTable
  import opened FatPacking
  import opened Ide
  import opened ChainData
  import FatPath

  const BOOT_SECTORS := 1
  const NUM_FATS := 2
  const ROOT_ENTRIES := 224
  const ENTRY_BYTES := 32

  /** The sectors before the data region. */
  function SystemSectors(): nat {
    BOOT_SECTORS + NUM_FATS * (PHYS_BYTES / SECTSIZE) + ROOT_ENTRIES * ENTRY_BYTES / SECTSIZE
  }

  /** The root directory lies behind boot sector and FATs, and the data clusters cover exactly
      the sectors behind the root directory, in order, from cluster 2 on. */
  lemma DataBehindRoot(s: nat)
    ensures FatPath.ROOT == BOOT_SECTORS + NUM_FATS * (PHYS_BYTES / SECTSIZE) == 19
    ensures SystemSectors() == FatPath.ROOT + 224 * 32 / 512 == 33
    ensures ROOT_ENTRIES * ENTRY_BYTES == 14 * SECTSIZE && ENTRY_BYTES == 32
    ensures SectorOf(2) == SystemSectors()
    ensures s >= SystemSectors() <==> exists c: nat :: c >= 2 && SectorOf(c) == s
    ensures forall c: nat :: c >= 2 ==> SectorOf(c) == SystemSectors() + (c - 2)
  {
    if s >= SystemSectors() {
      var c: nat := s - SystemSectors() + 2;
      assert SectorOf(c) == s;
    }
  }

  /** Writing along a chain leaves boot sector, FATs and root directory alone. */
  lemma SystemSectorsKept(disk: seq<Sector>, c: seq<nat>, data: seq<Byte>, s: nat)
    requires OnDisk(disk, c) && |c| * SECTSIZE <= |data| && s < SystemSectors() && s < |disk|
    ensures Stored(disk, c, data)[s] == disk[s]
  {
    forall i | 0 <= i < |c| ensures SectorOf(c[i]) != s {
      DataBehindRoot(s);
    }
  }

  /** Byte j of the i-th cluster of a file is byte j of sector 31 + that cluster. */
  lemma {:induction false} ContentAt(disk: seq<Sector>, c: seq<nat>, i: nat, j: nat)
    requires OnDisk(disk, c) && i < |c| && j < 512
    ensures i * 512 + j < |Content(disk, c)| && c[i] + 31 < |disk|
    ensures Content(disk, c)[i * 512 + j] == disk[c[i] + 31][j]
    decreases |c|
  {
    var n := |c| - 1;
    if i < n {
      ContentAt(disk, c[..n], i, j);
    }
  }

  /** And where the data of a write go. */
  lemma {:induction false} StoredAt(disk: seq<Sector>, c: seq<nat>, data: seq<Byte>, i: nat)
    requires OnDisk(disk, c) && Distinct(c) && |c| * 512 <= |data| && i < |c|
    ensures c[i] + 31 < |disk|
    ensures Stored(disk, c, data)[c[i] + 31] == data[i * 512..(i + 1) * 512]
    decreases |c|
  {
    var n := |c| - 1;
    if i < n {
      StoredAt(disk, c[..n], data, i);
      assert c[n] != c[i];
    }
  }
}
