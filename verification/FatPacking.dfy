/** The two forms of the FAT in include/fat12.h: 3072 table entries in memory, and the 4608
    bytes of the nine FAT sectors, where two 12-bit entries share three bytes. */
module FatPacking {
  import opened Arithmetic
  import opened FatTable
  import opened Ide

  const PHYS_BYTES := 4608

  type PhysFat = p: seq<Byte> | |p| == PHYS_BYTES witness seq(PHYS_BYTES, _ => 0)

  predicate TwelveBit(f: Table) {
    forall i :: 0 <= i < ENTRIES ==> f[i] < 0x1000
  }

  // Two entries a and b occupy the bytes LowByte(a), MiddleByte(a, b) and HighByte(b).  The
  // two nibbles that the source joins by `|` occupy different bits, so they are added here.

  function LowByte(a: nat): Byte {
    a % 256
  }

  function MiddleByte(a: nat, b: nat): Byte {
    a / 256 % 16 + b * 16 % 256
  }

  function HighByte(b: nat): Byte {
    b / 16 % 256
  }

  function EvenEntry(x: Byte, y: Byte): (r: nat)
    ensures r < 0x1000
  {
    (x + y as int * 256) % 0x1000
  }

  function OddEntry(y: Byte, z: Byte): (r: nat)
    ensures r < 0x1000
  {
    (y + z as int * 256) / 16
  }

  /** An entry of up to twelve bits as three nibbles, plus what does not fit. */
  lemma Nibbles(a: nat) returns (q: nat, h: nat, m: nat, l: nat)
    ensures a == q * 0x1000 + h * 256 + m * 16 + l && h < 16 && m < 16 && l < 16
    ensures a % 0x1000 == h * 256 + m * 16 + l
    ensures LowByte(a) == m * 16 + l
    ensures a / 256 % 16 == h && a * 16 % 256 == l * 16
    ensures HighByte(a) == h * 16 + m
  {
    l, m := a % 16, a / 16 % 16;
    h, q := a / 16 / 16 % 16, a / 16 / 16 / 16;
    QuotRem(a, 0x1000, q, h * 256 + m * 16 + l);
    QuotRem(a, 256, q * 16 + h, m * 16 + l);
    QuotRem(q * 16 + h, 16, q, h);
    QuotRem(a, 16, q * 256 + h * 16 + m, l);
    QuotRem(q * 256 + h * 16 + m, 256, q, h * 16 + m);
    QuotRem(a * 16, 256, q * 256 + h * 16 + m, l * 16);
  }

  lemma EntriesFromBytes(a: nat, b: nat)
    ensures EvenEntry(LowByte(a), MiddleByte(a, b)) == a % 0x1000
    ensures OddEntry(MiddleByte(a, b), HighByte(b)) == b % 0x1000
  {
    hide LowByte, HighByte;
    var aq, ah, am, al := Nibbles(a);
    var bq, bh, bm, bl := Nibbles(b);
    assert MiddleByte(a, b) == bl * 16 + ah;
    QuotRem(LowByte(a) + MiddleByte(a, b) as int * 256, 0x1000, bl, ah * 256 + am * 16 + al);
    QuotRem(MiddleByte(a, b) + HighByte(b) as int * 256, 16, bh * 256 + bm * 16 + bl, ah);
  }

  lemma BytesFromEntries(x: Byte, y: Byte, z: Byte)
    ensures LowByte(EvenEntry(x, y)) == x
    ensures MiddleByte(EvenEntry(x, y), OddEntry(y, z)) == y
    ensures HighByte(OddEntry(y, z)) == z
    ensures EvenEntry(x, y) < 0x1000 && OddEntry(y, z) < 0x1000
  {
    var low, high := y % 16, y / 16;
    QuotRem(x + y as int * 256, 0x1000, high, low * 256 + x);
    QuotRem(y + z as int * 256, 16, z * 16 + high, low);
    QuotRem(EvenEntry(x, y), 256, low, x);
    QuotRem(OddEntry(y, z) * 16, 256, z, high * 16);
  }

  function PackedByte(f: Table, i: nat): Byte
    requires i < PHYS_BYTES
  {
    var j := i / 3 * 2;
    if i % 3 == 0 then LowByte(f[j])
    else if i % 3 == 1 then MiddleByte(f[j], f[j+1])
    else HighByte(f[j+1])
  }

  function Pack(f: Table): (p: PhysFat)
    ensures forall i :: 0 <= i < PHYS_BYTES ==> p[i] == PackedByte(f, i)
  {
    seq(PHYS_BYTES, i requires 0 <= i < PHYS_BYTES => PackedByte(f, i))
  }

  function UnpackedEntry(p: PhysFat, j: nat): (r: nat)
    requires j < ENTRIES
    ensures r < 0x1000
  {
    var i := j / 2 * 3;
    if j % 2 == 0 then EvenEntry(p[i], p[i+1]) else OddEntry(p[i+1], p[i+2])
  }

  function Unpack(p: PhysFat): (f: Table)
    ensures forall j :: 0 <= j < ENTRIES ==> f[j] == UnpackedEntry(p, j)
  {
    seq(ENTRIES, j requires 0 <= j < ENTRIES => UnpackedEntry(p, j))
  }

  lemma UnpackPackEntry(f: Table, j: nat)
    requires j < ENTRIES
    ensures UnpackedEntry(Pack(f), j) == f[j] % 0x1000
  {
    hide LowByte, MiddleByte, HighByte, EvenEntry, OddEntry, Pack;
    var k := j / 2;
    EntriesFromBytes(f[2*k], f[2*k+1]);
    assert PackedByte(f, 3*k) == LowByte(f[2*k]);
    assert PackedByte(f, 3*k+1) == MiddleByte(f[2*k], f[2*k+1]);
    assert PackedByte(f, 3*k+2) == HighByte(f[2*k+1]);
  }

  lemma PackUnpackByte(p: PhysFat, i: nat)
    requires i < PHYS_BYTES
    ensures PackedByte(Unpack(p), i) == p[i]
  {
    hide LowByte, MiddleByte, HighByte, EvenEntry, OddEntry, Unpack;
    var k := i / 3;
    BytesFromEntries(p[3*k], p[3*k+1], p[3*k+2]);
    assert UnpackedEntry(p, 2*k) == EvenEntry(p[3*k], p[3*k+1]);
    assert UnpackedEntry(p, 2*k+1) == OddEntry(p[3*k+1], p[3*k+2]);
  }

  /** Writing the table out and reading it back gives the same table exactly when every
      entry fits in twelve bits. */
  lemma UnpackPack(f: Table)
    ensures Unpack(Pack(f)) == f <==> TwelveBit(f)
  {
    hide Pack, Unpack, UnpackedEntry, PackedByte;
    forall j: nat | j < ENTRIES ensures Unpack(Pack(f))[j] == f[j] % 0x1000 {
      UnpackPackEntry(f, j);
    }
  }

  /** Reading any nine sectors in and writing them out again gives the same bytes. */
  lemma PackUnpack(p: PhysFat)
    ensures Pack(Unpack(p)) == p && TwelveBit(Unpack(p))
  {
    hide Pack, Unpack, PackedByte, UnpackedEntry;
    forall i: nat | i < PHYS_BYTES ensures Pack(Unpack(p))[i] == p[i] {
      PackUnpackByte(p, i);
    }
  }

  /** Allocation and deletion keep every entry within twelve bits, so a table that was read
      from disk stays one that the packed form can hold. */
  lemma AllocatedTwelveBit(f: Table, n: int)
    requires TwelveBit(f)
    ensures TwelveBit(Allocated(f, n))
  {
    var xs, t := Taken(f, n), if 1 <= n <= |FreeList(f)| then LAST_CLUSTER else 0;
    forall i | 0 <= i < ENTRIES ensures Allocated(f, n)[i] < 0x1000 {
      if i in xs {
        var k :| 0 <= k < |xs| && xs[k] == i;
        LinkAt(f, xs, t, k);
        assert k < |xs| - 1 ==> xs[k+1] < ENTRIES;
      }
    }
  }

  lemma DeletedTwelveBit(f: Table, c: nat)
    requires TwelveBit(f) && InRange(f) && c < ENTRIES
    ensures TwelveBit(Deleted(f, c)) && InRange(Deleted(f, c))
    decreases |Occupied(f)|
  {
    if !Stops(f[c]) {
      OccupiedShrinks(f, c);
      DeletedTwelveBit(f[c := 0], f[c]);
    }
  }

  /** The layout of "FAT Data Structure" in the FAT overview: entry n is at byte n + n / 2, the
      low twelve bits of the 16-bit word there if n is even, and the high twelve if n is odd. */
  lemma UnpackedIsFat12(p: PhysFat, n: nat)
    requires n < ENTRIES
    ensures var o := n + n / 2;
            && o + 1 < |p|
            && Unpack(p)[n] == if n % 2 == 0 then (p[o] as int + 256 * p[o+1] as int) % 4096
                               else (p[o] as int + 256 * p[o+1] as int) / 16
  {
  }
}
