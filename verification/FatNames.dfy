/** 8.3 names as include/fat12.h stores them in a directory entry and reads them back. */
module FatNames {
  import opened CString

  const DOT := '.'
  const SPACE := ' '
  const NAME_BYTES := 8
  const EXT_BYTES := 3
  const RAW_BYTES := 12     // name, extension and the attribute byte
  const TEXT_BYTES := 13    // what a decoded name has room for

  // ---------------------------------------------------------------- encoding

  function Base(name: seq<char>): seq<char> {
    name[..Find(name, DOT)]
  }

  function Ext(name: seq<char>): seq<char> {
    if DOT in name then name[Find(name, DOT) + 1..] else []
  }

  /** What strsep, and the fields of the entry, demand of a name. */
  predicate Encodable(name: seq<char>) {
    DOT in name && |Base(name)| <= NAME_BYTES && |Ext(name)| <= EXT_BYTES
  }

  function Pad(t: seq<char>, n: nat): (r: seq<char>)
    requires |t| <= n
    ensures |r| == n
  {
    t + seq(n - |t|, _ => SPACE)
  }

  /** The attribute byte with the archive bit set. */
  function Archived(a: char): char {
    if a as int / 32 % 2 == 0 && a as int < 256 then (a as int + 32) as char else a
  }

  /** The first bytes of an entry after fat12_create_file.  An extension of three characters
      is copied with its terminator, which clears the attributes. */
  function Encoded(name: seq<char>, old12: seq<char>): (r: seq<char>)
    requires Encodable(name) && |old12| == RAW_BYTES
    ensures |r| == RAW_BYTES
  {
    Pad(Base(name), NAME_BYTES) + Pad(Ext(name), EXT_BYTES) +
    [Archived(if |Ext(name)| == EXT_BYTES then NUL else old12[11])]
  }

  // ---------------------------------------------------------------- decoding

  /** A string: everything before the first NUL. */
  function Cut(m: seq<char>): (r: seq<char>)
    ensures NUL in m ==> Holds(m, 0, r)
    ensures |r| <= |m| && Plain(r)
  {
    m[..Find(m, NUL)]
  }

  function Zeros(n: nat): (r: seq<char>)
    ensures |r| == n
  {
    seq(n, _ => NUL)
  }

  /** The 13 bytes after the loop over the name. */
  function NameBuffer(raw: seq<char>): (r: seq<char>)
    requires |raw| == RAW_BYTES
    ensures |r| == TEXT_BYTES && NUL in r && |Cut(r)| <= NAME_BYTES
  {
    var k := Find(raw[..NAME_BYTES], SPACE);
    var r := raw[..k] + Zeros(TEXT_BYTES - k);
    assert r[k] == NUL;
    r
  }

  function Extension(raw: seq<char>): (r: seq<char>)
    requires |raw| == RAW_BYTES
    ensures |r| == EXT_BYTES
  {
    raw[NAME_BYTES..NAME_BYTES + EXT_BYTES]
  }

  /** Character j of the buffer after the loop over the extension: the name, a dot, the
      extension up to its first space, and what the name loop left behind. */
  function FullAt(raw: seq<char>, j: nat): char
    requires |raw| == RAW_BYTES && j < TEXT_BYTES
  {
    var b := NameBuffer(raw);
    var k, e := |Cut(b)|, Find(Extension(raw), SPACE);
    if e == 0 || j < k then b[j]
    else if j == k then DOT
    else if j <= k + e then Extension(raw)[j - k - 1]
    else if j == k + e + 1 && e < EXT_BYTES then NUL
    else b[j]
  }

  function FullBuffer(raw: seq<char>): (r: seq<char>)
    requires |raw| == RAW_BYTES
    ensures |r| == TEXT_BYTES && forall j :: 0 <= j < TEXT_BYTES ==> r[j] == FullAt(raw, j)
  {
    seq(TEXT_BYTES, j requires 0 <= j < TEXT_BYTES => FullAt(raw, j))
  }

  /** The name fat12_construct_file_name makes of an entry. */
  function DecodedName(raw: seq<char>): seq<char>
    requires |raw| == RAW_BYTES
  {
    Lowered(Cut(FullBuffer(raw)[TEXT_BYTES - 1 := NUL]))
  }

  method ConstructFileName(name: array<char>, names: array<char>, p: nat)
    requires name != names && name.Length == TEXT_BYTES && p + RAW_BYTES <= names.Length
    modifies name
    ensures Holds(name[..], 0, DecodedName(names[p..p + RAW_BYTES]))
  {
    hide Stored, Holds, Cut, Find;
    ghost var raw := names[p..p + RAW_BYTES];
    MemSet(name, NUL, TEXT_BYTES);
    var i := 0;
    while i < NAME_BYTES
      invariant 0 <= i <= NAME_BYTES
      invariant forall k :: 0 <= k < i ==> name[k] == raw[k] != SPACE
      invariant forall k :: i <= k < TEXT_BYTES ==> name[k] == NUL
    {
      if names[p + i] == SPACE {
        name[i] := NUL;
        break;
      }
      name[i] := names[p + i];
      i := i + 1;
    }
    FoundAt(raw[..NAME_BYTES], SPACE, i);
    assert name[..] == NameBuffer(raw);
    if names[p + NAME_BYTES] != SPACE {
      AppendExtension(name, names, p, raw);
    } else {
      FoundAt(Extension(raw), SPACE, 0);
      assert name[..] == FullBuffer(raw);
    }
    name[TEXT_BYTES - 1] := NUL;
    assert name[..] == FullBuffer(raw)[TEXT_BYTES - 1 := NUL];
    assert name[..][TEXT_BYTES - 1] == NUL;
    ghost var t := Cut(name[..]);
    ToLower(name, 0, t);
    LoweredHolds(FullBuffer(raw)[TEXT_BYTES - 1 := NUL], t);
  }

  method AppendExtension(name: array<char>, names: array<char>, p: nat, ghost raw: seq<char>)
    requires name != names && p + RAW_BYTES <= names.Length && raw == names[p..p + RAW_BYTES]
    requires name[..] == NameBuffer(raw) && raw[NAME_BYTES] != SPACE
    modifies name
    ensures name[..] == FullBuffer(raw)
  {
    hide Stored, Holds, Cut, Find, NameBuffer, FullBuffer, FullAt;
    var dot := new char[2] [DOT, NUL];
    OneChar(dot[..], DOT);
    ghost var b, ext := NameBuffer(raw), Extension(raw);
    ghost var t := Cut(b);
    StrCat(name, dot, 0, t, [DOT]);
    DotStored(b, t);
    var k := StrLen(name, 0, t + [DOT]);
    var i := 0;
    while i < EXT_BYTES
      invariant 0 <= i <= EXT_BYTES && name.Length == TEXT_BYTES && k == |t| + 1 <= NAME_BYTES + 1
      invariant forall j :: 0 <= j < i ==> ext[j] != SPACE
      invariant forall j :: k <= j < k + i ==> name[j] == ext[j - k]
      invariant name[k - 1] == DOT
      invariant forall j :: 0 <= j < k - 1 || (k + i <= j < TEXT_BYTES && j > k) ==> name[j] == b[j]
    {
      assert names[p + NAME_BYTES + i] == ext[i];
      if names[p + NAME_BYTES + i] == SPACE {
        name[i + k] := NUL;
        break;
      }
      name[i + k] := names[p + NAME_BYTES + i];
      i := i + 1;
    }
    FoundAt(ext, SPACE, i);
    ExtensionCopied(raw, name[..], i);
  }

  lemma ExtensionCopied(raw: seq<char>, m: seq<char>, e: nat)
    requires |raw| == RAW_BYTES && |m| == TEXT_BYTES && e == Find(Extension(raw), SPACE) > 0
    requires var b, ext := NameBuffer(raw), Extension(raw);
             var k := |Cut(b)| + 1;
             && (forall j :: k <= j < k + e ==> m[j] == ext[j - k])
             && m[k - 1] == DOT
             && (forall j :: 0 <= j < k - 1 || (k + e < j < TEXT_BYTES) ==> m[j] == b[j])
             && m[k + e] == if e < EXT_BYTES then NUL else b[k + e]
    ensures m == FullBuffer(raw)
  {
    hide Cut, Find, NameBuffer, Extension;
  }

  lemma DotStored(b: seq<char>, t: seq<char>)
    requires Holds(b, 0, t) && |t| + 1 < |b|
    ensures var d := Stored(b, 0, t + [DOT]);
            && |d| == |b| && Holds(d, 0, t + [DOT]) && d[|t|] == DOT
            && forall j :: 0 <= j < |t| || |t| + 1 < j < |b| ==> d[j] == b[j]
  {
    StoredHolds(b, 0, t + [DOT]);
  }

  lemma FoundAt(t: seq<char>, c: char, k: nat)
    requires k <= |t| && (forall j :: 0 <= j < k ==> t[j] != c) && (k < |t| ==> t[k] == c)
    ensures Find(t, c) == k
  {
  }

  lemma LoweredHolds(m: seq<char>, t: seq<char>)
    requires Holds(m, 0, t)
    ensures Holds(Stored(m, 0, Lowered(t)), 0, Lowered(t))
  {
    StoredHolds(m, 0, Lowered(t));
  }

  // ---------------------------------------------------------------- round trip

  /** What decoding gives for an entry without NUL in its name and extension. */
  function Tidy(raw: seq<char>): seq<char>
    requires |raw| == RAW_BYTES
  {
    var ext := Extension(raw);
    raw[..Find(raw[..NAME_BYTES], SPACE)] + if ext[0] == SPACE then [] else [DOT] + ext[..Find(ext, SPACE)]
  }

  lemma DecodedTidy(raw: seq<char>)
    requires |raw| == RAW_BYTES && Plain(raw[..NAME_BYTES]) && Plain(Extension(raw))
    ensures DecodedName(raw) == Lowered(Tidy(raw))
  {
    hide Lowered, Cut, Find, FullAt, FullBuffer, Extension, NameBuffer;
    var k, e := Find(raw[..NAME_BYTES], SPACE), Find(Extension(raw), SPACE);
    var u, t := FullBuffer(raw)[TEXT_BYTES - 1 := NUL], Tidy(raw);
    NameCut(raw);
    FoundAt(Extension(raw), SPACE, e);
    forall j | 0 <= j < |t| ensures u[j] == t[j] != NUL {
      TidyAt(raw, j);
    }
    assert u[|t|] == NUL by { TidyAt(raw, |t|); }
    CutAt(u, t);
  }

  lemma CutAt(m: seq<char>, t: seq<char>)
    requires |t| < |m| && Plain(t) && m[|t|] == NUL && forall j :: 0 <= j < |t| ==> m[j] == t[j]
    ensures Cut(m) == t
  {
    FoundAt(m, NUL, |t|);
  }

  lemma NameCut(raw: seq<char>)
    requires |raw| == RAW_BYTES && Plain(raw[..NAME_BYTES])
    ensures var k := Find(raw[..NAME_BYTES], SPACE);
            && Cut(NameBuffer(raw)) == raw[..k]
            && forall j :: 0 <= j < TEXT_BYTES ==> NameBuffer(raw)[j] == if j < k then raw[j] else NUL
  {
    CutAt(NameBuffer(raw), raw[..Find(raw[..NAME_BYTES], SPACE)]);
  }

  lemma TidyAt(raw: seq<char>, j: nat)
    requires |raw| == RAW_BYTES && Plain(raw[..NAME_BYTES]) && Plain(Extension(raw)) && j <= |Tidy(raw)|
    ensures |Tidy(raw)| < TEXT_BYTES
    ensures j < |Tidy(raw)| ==> FullAt(raw, j) == Tidy(raw)[j] != NUL
    ensures j == |Tidy(raw)| ==> FullAt(raw, j) == NUL
  {
    hide Cut, Find, NameBuffer, Extension;
    NameCut(raw);
    FoundAt(Extension(raw), SPACE, Find(Extension(raw), SPACE));
    var k := Find(raw[..NAME_BYTES], SPACE);
    assert j < k ==> raw[..NAME_BYTES][j] == raw[j];
  }

  lemma FindInPad(t: seq<char>, n: nat)
    requires |t| <= n
    ensures Find(Pad(t, n), SPACE) == Find(t, SPACE)
  {
    FoundAt(Pad(t, n), SPACE, Find(t, SPACE));
  }

  function Kept(name: seq<char>): seq<char> {
    var b, e := Base(name)[..Find(Base(name), SPACE)], Ext(name)[..Find(Ext(name), SPACE)];
    if e == [] then b else b + [DOT] + e
  }

  /** Decoding an encoded name cuts base and extension at their first space, drops the dot of
      an empty extension, and folds to lower case. */
  lemma DecodedEncoded(name: seq<char>, old12: seq<char>)
    requires Encodable(name) && Plain(name) && |old12| == RAW_BYTES
    ensures DecodedName(Encoded(name, old12)) == Lowered(Kept(name))
  {
    hide Lowered, DecodedName;
    var raw := Encoded(name, old12);
    var b, e := Base(name), Ext(name);
    assert raw[..NAME_BYTES] == Pad(b, NAME_BYTES);
    assert Extension(raw) == Pad(e, EXT_BYTES);
    FindInPad(b, NAME_BYTES);
    FindInPad(e, EXT_BYTES);
    DecodedTidy(raw);
    var k := Find(b, SPACE);
    assert raw[..k] == b[..k];
    assert Pad(e, EXT_BYTES)[0] == SPACE <==> Find(e, SPACE) == 0;
    assert b[..k] + ([DOT] + e[..Find(e, SPACE)]) == b[..k] + [DOT] + e[..Find(e, SPACE)];
  }

  predicate NoCapitals(t: seq<char>) {
    forall k :: 0 <= k < |t| ==> !('A' <= t[k] <= 'Z')
  }

  /** Decoding undoes encoding exactly for the names in lower case, without spaces, that have
      an extension. */
  lemma NameRoundTrip(name: seq<char>, old12: seq<char>)
    requires Encodable(name) && Plain(name) && |old12| == RAW_BYTES
    ensures DecodedName(Encoded(name, old12)) == name <==>
            NoCapitals(name) && SPACE !in name && Ext(name) != []
  {
    hide DecodedName, Encoded, Lowered, NoCapitals;
    DecodedEncoded(name, old12);
    var b, e := Base(name), Ext(name);
    var r := Kept(name);
    assert name == b + [DOT] + e;
    SameLowered(name);
    if SPACE !in name && e != [] {
      FoundAt(b, SPACE, |b|);
      FoundAt(e, SPACE, |e|);
      assert b[..|b|] == b && e[..|e|] == e;
    } else if e == [] {
      LoweredDots(r);
    } else {
      OnlyLowered(r);
      KeptNoSpace(name);
    }
  }

  lemma KeptNoSpace(name: seq<char>)
    ensures SPACE !in Kept(name)
  {
  }

  lemma LoweredDots(t: seq<char>)
    requires DOT !in t
    ensures DOT !in Lowered(t)
  {
    var u := Lowered(t);
    assert forall k :: 0 <= k < |u| ==> u[k] == Lower(t[k]);
  }

  lemma SameLowered(t: seq<char>)
    ensures Lowered(t) == t <==> NoCapitals(t)
  {
  }

  lemma OnlyLowered(t: seq<char>)
    ensures NoCapitals(Lowered(t)) && (SPACE in Lowered(t) <==> SPACE in t)
  {
    var u := Lowered(t);
    if SPACE in u {
      var k :| 0 <= k < |u| && u[k] == SPACE;
      assert t[k] == SPACE;
    }
    if SPACE in t {
      var k :| 0 <= k < |t| && t[k] == SPACE;
      assert u[k] == SPACE;
    }
  }

  /** An entry made for a name with an extension and without spaces decodes to exactly the
      lower-case spelling of that name. */
  lemma DecodedSpelling(name: seq<char>, old12: seq<char>)
    requires Encodable(name) && Plain(name) && |old12| == RAW_BYTES && SPACE !in name && Ext(name) != []
    ensures DecodedName(Encoded(name, old12)) == Lowered(name)
  {
    hide DecodedName, Encoded, Lowered;
    DecodedEncoded(name, old12);
    var b, e := Base(name), Ext(name);
    assert name == b + [DOT] + e;
    FoundAt(b, SPACE, |b|);
    FoundAt(e, SPACE, |e|);
    assert b[..|b|] == b && e[..|e|] == e;
  }

  /** The fields of an encoded name: base and extension filled up with blanks, and the archive
      bit, which is all that is left of the attributes after a three-letter extension. */
  lemma EncodedFields(name: seq<char>, old12: seq<char>)
    requires Encodable(name) && |old12| == RAW_BYTES
    ensures var r, b, e := Encoded(name, old12), Base(name), Ext(name);
            && (forall k :: 0 <= k < 8 ==> r[k] == if k < |b| then b[k] else ' ')
            && (forall k :: 8 <= k < 11 ==> r[k] == if k - 8 < |e| then e[k - 8] else ' ')
            && (|e| == 3 ==> r[11] as int == 0x20)
            && (|e| < 3 && old12[11] as int < 256 ==>
                  r[11] as int / 0x20 % 2 == 1 && r[11] as int % 0x20 == old12[11] as int % 0x20 &&
                  r[11] as int / 0x40 == old12[11] as int / 0x40)
    ensures Base(name) + "." + Ext(name) == name
  {
    var a := if |Ext(name)| == 3 then NUL else old12[11];
    if a as int < 256 {
      ArchiveBit(a);
    }
  }

  lemma ArchiveBit(a: char)
    requires a as int < 256
    ensures Archived(a) as int / 0x20 % 2 == 1
    ensures Archived(a) as int % 0x20 == a as int % 0x20 && Archived(a) as int / 0x40 == a as int / 0x40
  {
  }

  /** One entry of a disk from elsewhere, decoded. */
  lemma ReadmeDecodes()
    ensures DecodedName("README  TXT ") == "readme.txt"
  {
    hide DecodedName;
    var raw, text := "README  TXT ", "README.TXT";
    FoundAt(raw[..NAME_BYTES], SPACE, 6);
    assert Extension(raw) == "TXT";
    FoundAt(Extension(raw), SPACE, 3);
    DecodedTidy(raw);
    assert Tidy(raw) == text;
    assert Lowered(text) == "readme.txt";
  }
}
