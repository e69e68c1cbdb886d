/** Sector transfers of include/ide.h over an abstract disk.  Port I/O moves whole sectors;
    a read goes through the staging area at TMP_USER_ADDR, a write comes straight from the
    caller's buffer. */
module Ide {
  import opened CString

  const SECTSIZE := 512

  type Byte = b: nat | b < 256
  type Sector = s: seq<Byte> | |s| == SECTSIZE witness seq(SECTSIZE, _ => 0)

  /** The bytes of cnt consecutive sectors. */
  function Flat(disk: seq<Sector>, start: nat, cnt: nat): (r: seq<Byte>)
    requires start + cnt <= |disk|
    ensures |r| == cnt * SECTSIZE
  {
    if cnt == 0 then [] else Flat(disk, start, cnt - 1) + disk[start + cnt - 1]
  }

  method ReadSect(disk: array<Sector>, tmp: array<Byte>, off: nat, sec: nat)
    requires sec < disk.Length && off + SECTSIZE <= tmp.Length
    modifies tmp
    ensures tmp[..] == old(tmp[..off]) + disk[sec] + old(tmp[off+SECTSIZE..])
  {
    var s := disk[sec];
    var j := 0;
    while j < SECTSIZE
      invariant 0 <= j <= SECTSIZE
      invariant forall k :: 0 <= k < tmp.Length ==> tmp[k] == if off <= k < off + j then s[k - off] else old(tmp[k])
    {
      tmp[off + j] := s[j];
      j := j + 1;
    }
  }

  /** Every round copies all cnt sectors from the staging area, the later ones still stale;
      the last round leaves the requested sectors in the buffer. */
  method ReadSectors(disk: array<Sector>, tmp: array<Byte>, dst: array<Byte>, off: nat, start: nat, cnt: nat)
    requires tmp != dst && tmp.Length >= cnt * SECTSIZE
    requires off + cnt * SECTSIZE <= dst.Length && start + cnt <= disk.Length
    modifies tmp, dst
    ensures dst[..] == old(dst[..off]) + Flat(disk[..], start, cnt) + old(dst[off + cnt * SECTSIZE..])
  {
    var i, n := 0, cnt * SECTSIZE;
    while i < cnt
      invariant 0 <= i <= cnt
      invariant tmp[..i * SECTSIZE] == Flat(disk[..], start, i)
      invariant dst[..off] == old(dst[..off]) && dst[off + n..] == old(dst[off + n..])
      invariant i > 0 ==> dst[off..off + n] == tmp[..n]
    {
      ReadSect(disk, tmp, i * SECTSIZE, start + i);
      assert tmp[..(i + 1) * SECTSIZE] == Flat(disk[..], start, i) + disk[start + i];
      MemCpy(dst, off, tmp, 0, n);
      assert dst[off..off + n] == tmp[..n];
      i := i + 1;
    }
    assert dst[..] == dst[..off] + dst[off..off + n] + dst[off + n..];
  }

  method WriteSect(disk: array<Sector>, src: array<Byte>, off: nat, sec: nat)
    requires sec < disk.Length && off + SECTSIZE <= src.Length
    modifies disk
    ensures disk[..] == old(disk[..])[sec := src[off..off+SECTSIZE]]
  {
    disk[sec] := src[off..off+SECTSIZE];
  }

  method WriteSectors(disk: array<Sector>, src: array<Byte>, off: nat, start: nat, cnt: nat)
    requires off + cnt * SECTSIZE <= src.Length && start + cnt <= disk.Length
    modifies disk
    ensures Flat(disk[..], start, cnt) == src[off..off + cnt * SECTSIZE]
    ensures disk[..start] == old(disk[..start]) && disk[start+cnt..] == old(disk[start+cnt..])
  {
    var i := 0;
    while i < cnt
      invariant 0 <= i <= cnt
      invariant Flat(disk[..], start, i) == src[off..off + i * SECTSIZE]
      invariant disk[..start] == old(disk[..start]) && disk[start+i..] == old(disk[start+i..])
    {
      label Before:
      WriteSect(disk, src, off + i * SECTSIZE, start + i);
      FlatFrame(old@Before(disk[..]), disk[..], start, i);
      i := i + 1;
    }
  }

  lemma {:induction false} FlatFrame(a: seq<Sector>, b: seq<Sector>, start: nat, cnt: nat)
    requires start + cnt <= |a| && start + cnt <= |b|
    requires forall s :: start <= s < start + cnt ==> a[s] == b[s]
    ensures Flat(a, start, cnt) == Flat(b, start, cnt)
  {
    if cnt > 0 {
      FlatFrame(a, b, start, cnt - 1);
    }
  }

  /** Byte j of the i-th of the sectors. */
  lemma {:induction false} FlatAt(disk: seq<Sector>, start: nat, cnt: nat, i: nat, j: nat)
    requires start + cnt <= |disk| && i < cnt && j < 512
    ensures i * 512 + j < |Flat(disk, start, cnt)|
    ensures Flat(disk, start, cnt)[i * 512 + j] == disk[start + i][j]
  {
    if i < cnt - 1 {
      FlatAt(disk, start, cnt - 1, i, j);
    }
  }
}
