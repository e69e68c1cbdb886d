/** Numbers as text: itoa of include/string.h and read_int of include/stdio.h, with the
    32-bit arithmetic of the machine written out. */
module Number {
  import opened Arithmetic
  import opened Basics
  import opened CString

  const SCRATCH := 32

  /** A C unsigned holding the int n, and the int a register value x stands for. */
  function Unsigned(n: int): (r: nat)
    ensures r < WORD
  {
    n % WORD
  }

  predicate IsInt32(n: int) {
    -0x8000_0000 <= n < 0x8000_0000
  }

  function Int32(x: int): (r: int)
    ensures IsInt32(r)
  {
    (x + 0x8000_0000) % WORD - 0x8000_0000
  }

  function DigitChar(d: nat): (r: char)
    requires d < 16
    ensures r == "0123456789ABCDEF"[d]
  {
    if d < 10 then '0' + d as char else 'A' + (d - 10) as char
  }

  /** The value of a digit character; 16 for any other character. */
  function DigitValue(c: char): (r: nat)
    ensures r <= 16 && (r < 16 ==> "0123456789ABCDEF"[r] == c)
    ensures r == 16 ==> c !in "0123456789ABCDEF"
  {
    if '0' <= c <= '9' then c as int - '0' as int
    else if 'A' <= c <= 'F' then c as int - 'A' as int + 10
    else 16
  }

  function Quot(i: nat, base: nat): (r: nat)
    requires 2 <= base <= 16
    ensures r <= i / 2
  {
    HalfAtMost(i, base);
    i / base
  }

  function Rem(i: nat, base: nat): (r: nat)
    requires 2 <= base <= 16
    ensures r < base
  {
    i % base
  }

  function Digits(i: nat, base: nat): seq<char>
    requires 2 <= base <= 16
  {
    if i == 0 then [] else Digits(Quot(i, base), base) + [DigitChar(Rem(i, base))]
  }

  /** What itoa leaves in its buffer. */
  function Numeral(i: nat, base: nat): seq<char>
    requires i == 0 || base >= 2
  {
    if i == 0 || base > 16 then "0" else Digits(i, base)
  }

  predicate AllDigits(t: seq<char>, base: nat) {
    forall k :: 0 <= k < |t| ==> DigitValue(t[k]) < base
  }

  /** The number with digit d after the digits of v. */
  function Joined(v: nat, base: nat, d: nat): nat {
    v * base + d
  }

  function Value(t: seq<char>, base: nat): nat {
    if t == [] then 0 else Joined(Value(t[..|t|-1], base), base, DigitValue(t[|t|-1]))
  }

  function Pow2(k: nat): nat {
    if k == 0 then 1 else 2 * Pow2(k - 1)
  }

  lemma Rejoined(i: nat, base: nat)
    requires 2 <= base <= 16
    ensures i == Joined(Quot(i, base), base, Rem(i, base)) && (Quot(i, base) == 0 ==> Rem(i, base) == i)
  {
  }

  lemma HalfAtMost(i: nat, base: nat)
    requires 2 <= base <= 16
    ensures i / base <= i / 2
  {
    var q := i / base;
    assert q * base == 2 * q + q * (base - 2);
  }

  /** The digits spell the number, with no leading zero, and 32 scratch characters are
      enough for every 32-bit number in every base from 2 to 16. */
  lemma {:induction false} DigitsSpell(i: nat, base: nat)
    requires 2 <= base <= 16
    ensures AllDigits(Digits(i, base), base) && Value(Digits(i, base), base) == i
    ensures i > 0 ==> Digits(i, base) != [] && Digits(i, base)[0] != '0'
  {
    hide Quot, Rem, DigitChar, DigitValue, Joined;
    if i > 0 {
      Rejoined(i, base);
      DigitCharValue(Rem(i, base));
      DigitsSpell(Quot(i, base), base);
      var t := Digits(i, base);
      assert t[..|t|-1] == Digits(Quot(i, base), base);
    }
  }

  function Pow(base: nat, n: nat): nat {
    if n == 0 then 1 else base * Pow(base, n - 1)
  }

  /** The value is positional: the first of n + 1 digits counts base^n. */
  lemma {:induction false} ValuePositional(c: char, t: seq<char>, base: nat)
    ensures Value([c] + t, base) == DigitValue(c) * Pow(base, |t|) + Value(t, base)
  {
    if t == [] {
      assert ([c] + t)[..0] == [] && [c] + t == [c];
    } else {
      var n := |t| - 1;
      ValuePositional(c, t[..n], base);
      assert ([c] + t)[..n + 1] == [c] + t[..n];
      calc {
        Value([c] + t, base);
        Value([c] + t[..n], base) * base + DigitValue(t[n]);
        (DigitValue(c) * Pow(base, n) + Value(t[..n], base)) * base + DigitValue(t[n]);
        { Regroup(DigitValue(c), Pow(base, n), base, Value(t[..n], base)); }
        DigitValue(c) * (base * Pow(base, n)) + Value(t[..n], base) * base + DigitValue(t[n]);
        DigitValue(c) * Pow(base, |t|) + Value(t, base);
      }
    }
  }

  lemma Regroup(d: nat, p: nat, b: nat, v: nat)
    ensures (d * p + v) * b == d * (b * p) + v * b
  {
    assert (d * p + v) * b == d * p * b + v * b;
    assert d * p * b == d * (p * b);
  }

  /** Conversely, a digit string without a leading zero is the only spelling of its value. */
  lemma {:induction false} SpellingUnique(t: seq<char>, base: nat)
    requires 2 <= base <= 16 && AllDigits(t, base) && (t != [] ==> t[0] != '0')
    ensures Digits(Value(t, base), base) == t
    ensures t != [] ==> Value(t, base) > 0
  {
    hide Quot, Rem, Joined, Digits, DigitChar, DigitValue;
    DigitsStep(Value(t, base), base);
    if t != [] {
      var u, c := t[..|t|-1], t[|t|-1];
      var d := DigitValue(c);
      CharOfValue(c);
      SpellingUnique(u, base);
      Rejoined(Value(t, base), base);
      JoinedOrder(Value(u, base), base, d);
      SameJoined(base, Value(u, base), Quot(Value(t, base), base), d, Rem(Value(t, base), base));
      assert t == u + [t[|t|-1]];
    }
  }

  lemma SameJoined(base: nat, q: nat, p: nat, r: nat, s: nat)
    requires Joined(q, base, r) == Joined(p, base, s) && r < base && s < base
    ensures q == p && r == s
  {
    SameQuotient(base, q, p, r, s);
  }

  lemma JoinedOrder(v: nat, base: nat, d: nat)
    requires base > 0
    ensures v > 0 || d > 0 ==> Joined(v, base, d) > 0
  {
    AtLeast(v, base);
  }

  lemma {:induction false} DigitsFit(i: nat, base: nat, k: nat)
    requires 2 <= base <= 16 && i < Pow2(k)
    ensures |Digits(i, base)| <= k
  {
    hide Quot, Rem;
    if i > 0 {
      DigitsFit(Quot(i, base), base, k - 1);
    }
  }

  lemma NumeralFits(i: nat, base: nat)
    requires i < WORD && (i == 0 || base >= 2)
    ensures 1 <= |Numeral(i, base)| <= SCRATCH && Plain(Numeral(i, base))
  {
    assert Pow2(8) == 0x100;
    assert Pow2(16) == 0x1_0000;
    assert Pow2(24) == 0x100_0000;
    assert Pow2(32) == WORD;
    if i != 0 && base <= 16 {
      DigitsFit(i, base, 32);
      DigitsSpell(i, base);
    }
  }

  lemma CharOfValue(c: char)
    ensures DigitValue(c) < 16 ==> DigitChar(DigitValue(c)) == c
    ensures DigitValue(c) > 0 <==> c != '0'
  {
  }

  lemma DigitCharValue(d: nat)
    requires d < 16
    ensures DigitValue(DigitChar(d)) == d && (d > 0 <==> DigitChar(d) != '0')
  {
  }

  lemma DigitsStep(n: nat, base: nat)
    requires 2 <= base <= 16
    ensures Digits(n, base) == if n == 0 then [] else Digits(Quot(n, base), base) + [DigitChar(Rem(n, base))]
  {
  }

  method Itoa(i: nat, buf: array<char>, base: nat)
    requires i < WORD && (i == 0 || base >= 2) && buf.Length > |Numeral(i, base)|
    modifies buf
    ensures buf[..] == Stored(old(buf[..]), 0, Numeral(i, base))
  {
    hide Quot, Rem, DigitChar, Digits, Holds;
    if i == 0 || base > 16 {
      buf[0] := '0';
      buf[1] := NUL;
      return;
    }
    var tbuf := new char[SCRATCH];
    NumeralFits(i, base);
    assert Numeral(i, base) == Digits(i, base);
    var n: nat, pos := i, 0;
    DigitsStep(0, base);
    while n != 0
      invariant 0 <= pos && pos + |Digits(n, base)| == |Digits(i, base)|
      invariant Digits(n, base) == Digits(i, base)[..|Digits(n, base)|]
      invariant forall k :: 0 <= k < pos ==> tbuf[k] == Digits(i, base)[|Digits(i, base)| - 1 - k]
      invariant buf[..] == old(buf[..])
      decreases n
    {
      DigitsStep(n, base);
      tbuf[pos] := DigitChar(Rem(n, base));
      pos := pos + 1;
      n := Quot(n, base);
    }
    var top, opos := pos, 0;
    while opos < top
      invariant 0 <= opos <= top == |Digits(i, base)| && pos == top - opos
      invariant forall k :: 0 <= k < top ==> tbuf[k] == Digits(i, base)[top - 1 - k]
      invariant forall k :: 0 <= k < opos ==> buf[k] == Digits(i, base)[k]
      invariant forall k :: opos <= k < buf.Length ==> buf[k] == old(buf[k])
    {
      pos := pos - 1;
      buf[opos] := tbuf[pos];
      opos := opos + 1;
    }
    buf[opos] := NUL;
    assert buf[..] == Stored(old(buf[..]), 0, Digits(i, base));
  }

  // ---------------------------------------------------------------- read_int

  predicate IsDigit(c: char) {
    '0' <= c <= '9'
  }

  /** The number of leading decimal digits. */
  function Run(t: seq<char>): (r: nat)
    ensures r <= |t| && (r < |t| ==> !IsDigit(t[r]))
    ensures forall k :: 0 <= k < r ==> IsDigit(t[k])
  {
    if t == [] || !IsDigit(t[0]) then 0 else 1 + Run(t[1..])
  }

  function Signed(t: seq<char>): nat {
    if t != [] && t[0] == '-' then 1 else 0
  }

  /** read_int: the int read, by 32-bit arithmetic, and the number of characters used. */
  function ReadInt(t: seq<char>): (int, nat) {
    var k := Signed(t);
    var n := Run(t[k..]);
    var v: int := Value(t[k..k + n], 10);
    (Int32(if k == 1 then -v else v), k + n)
  }

  lemma Wrapped(x: int, y: int)
    ensures Int32(Int32(x) * 10 + y) == Int32(x * 10 + y)
    ensures Int32(-Int32(x)) == Int32(-x)
    ensures Int32(Unsigned(x)) == Int32(x) && (IsInt32(x) ==> Int32(x) == x)
  {
    var q := (x + 0x8000_0000) / WORD;
    assert Int32(x) == x - q * WORD;
    Shifted(x * 10 + y, 10 * q);
    Shifted(-x, -q);
    Shifted(x, x / WORD);
  }

  lemma Shifted(x: int, q: int)
    ensures Int32(x - q * WORD) == Int32(x)
  {
    var y := x + 0x8000_0000;
    assert (y - q * WORD) % WORD == y % WORD;
  }

  lemma Finished(t: seq<char>, cnt: nat, ret: int, sign: int)
    requires Signed(t) <= cnt <= Signed(t) + Run(t[Signed(t)..]) && (cnt == |t| || !IsDigit(t[cnt]))
    requires ret == Int32(Value(t[Signed(t)..cnt], 10)) && sign == if Signed(t) == 1 then -1 else 1
    ensures (Int32(ret * sign), cnt) == ReadInt(t)
  {
    hide Int32, Value;
    var k := Signed(t);
    assert cnt < |t| ==> t[cnt] == t[k..][cnt - k];
    Wrapped(Value(t[k..cnt], 10), 0);
    Wrapped(ret, 0);
    assert ret * sign == if k == 1 then -ret else ret;
  }

  lemma OneMoreDigit(t: seq<char>, k: nat, cnt: nat)
    requires k <= cnt <= |t|
    ensures cnt < |t| ==> Value(t[k..cnt + 1], 10) == Value(t[k..cnt], 10) * 10 + DigitValue(t[cnt])
    ensures Value(t[k..k], 10) == 0
  {
    assert cnt < |t| ==> t[k..cnt + 1][..cnt - k] == t[k..cnt];
  }

  method DoReadInt(a: array<char>, p: nat, ghost t: seq<char>) returns (readNum: int, cnt: nat)
    requires Holds(a[..], p, t)
    ensures (readNum, cnt) == ReadInt(t)
  {
    hide Int32, Holds, Run, Value;
    Wrapped(0, 0);
    var sign := 1;
    cnt := 0;
    CharAt(a[..], p, t, 0);
    if a[p] == '-' {
      sign := -1;
      cnt := 1;
    }
    var ret: int := 0;
    ghost var k := Signed(t);
    OneMoreDigit(t, k, k);
    CharAt(a[..], p, t, k);
    while a[p + cnt] != NUL && '0' <= a[p + cnt] <= '9'
      invariant k <= cnt <= k + Run(t[k..]) && ret == Int32(Value(t[k..cnt], 10))
      decreases |t| - cnt
    {
      CharAt(a[..], p, t, cnt);
      OneMoreDigit(t, k, cnt);
      Wrapped(Value(t[k..cnt], 10), DigitValue(t[cnt]));
      ret := Int32(ret * 10 + (a[p + cnt] as int - '0' as int));
      cnt := cnt + 1;
    }
    CharAt(a[..], p, t, cnt);
    Finished(t, cnt, ret, sign);
    readNum := Int32(ret * sign);
  }

  lemma NumeralSpells(i: nat)
    ensures var t := Numeral(i, 10);
            t != [] && Value(t, 10) == i && forall k :: 0 <= k < |t| ==> IsDigit(t[k])
  {
    hide Quot, Rem, Digits, Value;
    DigitsSpell(i, 10);
    ZeroSpells();
  }

  lemma ZeroSpells()
    ensures Value("0", 10) == 0
  {
    var t := "0";
    assert t[..|t| - 1] == [];
  }

  /** read_int undoes itoa for every 32-bit int, negative ones included, which itoa prints
      as unsigned; it stops at the right place exactly when no digit follows. */
  lemma ReadBack(n: int, rest: seq<char>)
    requires IsInt32(n)
    ensures ReadInt(Numeral(Unsigned(n), 10) + rest) == (n, |Numeral(Unsigned(n), 10)|) <==>
            (rest == [] || !IsDigit(rest[0]))
  {
    hide Int32, Quot, Rem, Digits, Value, Joined, Unsigned;
    var t := Numeral(Unsigned(n), 10);
    NumeralSpells(Unsigned(n));
    Wrapped(n, 0);
    RunOver(t, rest);
    assert (t + rest)[0..] == t + rest && (t + rest)[0..|t|] == t;
  }

  lemma {:induction false} RunOver(t: seq<char>, rest: seq<char>)
    requires forall k :: 0 <= k < |t| ==> IsDigit(t[k])
    ensures Run(t + rest) == |t| + Run(rest)
  {
    if t != [] {
      RunOver(t[1..], rest);
      assert (t + rest)[1..] == t[1..] + rest;
    } else {
      assert t + rest == rest;
    }
  }

  /** A minus sign in front of a number that fits makes it negative. */
  lemma NegativeRead(n: nat, rest: seq<char>)
    requires n < 0x8000_0000 && (rest == [] || !IsDigit(rest[0]))
    ensures ReadInt(['-'] + Numeral(n, 10) + rest) == (0 - n as int, 1 + |Numeral(n, 10)|)
  {
    hide Int32, Quot, Rem, Digits, Value, Joined;
    var t := Numeral(n, 10);
    NumeralSpells(n);
    RunOver(t, rest);
    var u := ['-'] + t + rest;
    assert u == ['-'] + (t + rest);
    assert u[1..] == t + rest && u[1..1 + |t|] == t;
    assert Run(rest) == 0;
    Wrapped(0 - n as int, 0);
  }
}
