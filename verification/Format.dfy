/** sprintf and sscanf of include/stdio.h: what they print and read, the loops that do it,
    and the formats for which the second undoes the first. */
module Format {
  import opened CString
  import opened Number

  datatype Arg = IntArg(n: int) | CharArg(c: char) | StrArg(s: seq<char>)

  function At(t: seq<char>, i: nat): char {
    if i < |t| then t[i] else NUL
  }

  // ---------------------------------------------------------------- sprintf

  /** The length of the field width after a '%'; sprintf reads it and ignores its value. */
  function Width(f: seq<char>): (r: nat)
    ensures r <= |f|
  {
    if f != [] && (IsDigit(f[0]) || f[0] == '-') then ReadInt(f).1 else 0
  }

  /** The conversions that take an argument, and the arguments they can take. */
  predicate Takes(c: char) {
    c == 'd' || c == 'i' || c == 'x' || c == 'X' || c == 'c' || c == 's'
  }

  ghost predicate Fits(c: char, a: Arg) {
    match a
    case IntArg(n) => (c == 'd' || c == 'i' || c == 'x' || c == 'X') && IsInt32(n)
    case CharArg(_) => c == 'c'
    case StrArg(s) => c == 's' && Plain(s)
  }

  /** The conversion character of the directive f starts with. */
  function Conversion(f: seq<char>): char
    requires f != []
  {
    At(f, Width(f[1..]) + 1)
  }

  /** How much of the format the first directive takes, and how many arguments. */
  function Used(f: seq<char>): (r: nat)
    requires f != []
    ensures r >= 1
  {
    if f[0] == '%' then Width(f[1..]) + 2 else 1
  }

  function Needs(f: seq<char>): (r: nat)
    requires f != []
    ensures r <= 1
  {
    if f[0] == '%' && Takes(Conversion(f)) then 1 else 0
  }

  ghost predicate PieceOk(f: seq<char>, args: seq<Arg>)
    requires f != []
  {
    Used(f) <= |f| && (Needs(f) == 1 ==> args != [] && Fits(Conversion(f), args[0]))
  }

  /** Every '%' is followed by a conversion, and the arguments are there. */
  ghost predicate Printable(f: seq<char>, args: seq<Arg>)
    decreases |f|
  {
    f != [] ==> PieceOk(f, args) && Printable(f[Used(f)..], args[Needs(f)..])
  }

  function Shown(c: char, a: Arg): seq<char> {
    match a
    case IntArg(n) => Numeral(Unsigned(n), if c == 'x' || c == 'X' then 16 else 10)
    case CharArg(x) => if x == NUL then [] else [x]
    case StrArg(s) => s
  }

  /** What the first directive prints. */
  ghost function Piece(f: seq<char>, args: seq<Arg>): seq<char>
    requires f != [] && PieceOk(f, args)
  {
    if f[0] == '%' then
      if Takes(Conversion(f)) then Shown(Conversion(f), args[0])
      else if Conversion(f) == '%' then "%" else []
    else if f[0] == '\r' then "\n" else [f[0]]
  }

  ghost function Print(f: seq<char>, args: seq<Arg>): seq<char>
    requires Printable(f, args)
    decreases |f|
  {
    if f == [] then [] else Piece(f, args) + Print(f[Used(f)..], args[Needs(f)..])
  }

  lemma ShownPlain(c: char, a: Arg)
    requires Fits(c, a)
    ensures Plain(Shown(c, a))
  {
    match a
    case IntArg(n) => NumeralFits(Unsigned(n), if c == 'x' || c == 'X' then 16 else 10);
    case _ =>
  }

  /** strcat of a string that is already text. */
  method Append(buf: array<char>, u: seq<char>, ghost t: seq<char>)
    requires Holds(buf[..], 0, t) && Plain(u) && |t| + |u| < buf.Length
    modifies buf
    ensures Holds(buf[..], 0, t + u)
  {
    var str := new char[|u| + 1](i requires 0 <= i <= |u| => At(u, i));
    StrCat(buf, str, 0, t, u);
    StoredHolds(old(buf[..]), 0, t + u);
  }

  method AppendNumeral(buf: array<char>, n: int, base: nat, ghost t: seq<char>)
    requires Holds(buf[..], 0, t) && base >= 2 && |t| + |Numeral(Unsigned(n), base)| < buf.Length
    modifies buf
    ensures Holds(buf[..], 0, t + Numeral(Unsigned(n), base))
  {
    var str := new char[1000];
    NumeralFits(Unsigned(n), base);
    Itoa(Unsigned(n), str, base);
    StoredHolds(str[..], 0, Numeral(Unsigned(n), base));
    StrCat(buf, str, 0, t, Numeral(Unsigned(n), base));
    StoredHolds(old(buf[..]), 0, t + Numeral(Unsigned(n), base));
  }

  /** One conversion with its argument. */
  method AppendArg(buf: array<char>, c: char, a: Arg, ghost t: seq<char>)
    requires Holds(buf[..], 0, t) && Takes(c) && Fits(c, a) && |t| + |Shown(c, a)| < buf.Length
    modifies buf
    ensures Holds(buf[..], 0, t + Shown(c, a))
  {
    ShownPlain(c, a);
    if c == 'd' || c == 'i' {
      AppendNumeral(buf, a.n, 10, t);
    } else if c == 'x' || c == 'X' {
      AppendNumeral(buf, a.n, 16, t);
    } else if c == 'c' {
      Append(buf, if a.c == NUL then [] else [a.c], t);
    } else {
      Append(buf, a.s, t);
    }
  }

  method AppendPiece(buf: array<char>, format: array<char>, i: nat, args: seq<Arg>, ghost f: seq<char>, ghost t: seq<char>)
    returns (used: nat, needs: nat)
    requires buf != format && Holds(format[..], i, f) && f != [] && PieceOk(f, args)
    requires Holds(buf[..], 0, t) && |t| + |Piece(f, args)| < buf.Length
    modifies buf
    ensures used == Used(f) && needs == Needs(f)
    ensures Holds(buf[..], 0, t + Piece(f, args))
  {
    hide Holds, Shown, Fits, ReadInt, Takes;
    CharAt(format[..], i, f, 0);
    CharAt(format[..], i, f, 1);
    assert PieceOk(f, args);
    if format[i] == '%' {
      var digitLength := 0;
      if '0' <= format[i + 1] <= '9' || format[i + 1] == '-' {
        Suffix(format[..], i, f, 1);
        var padding, cnt := DoReadInt(format, i + 1, f[1..]);
        digitLength := cnt;
      }
      assert digitLength == Width(f[1..]);
      CharAt(format[..], i, f, digitLength + 1);
      var c := format[i + digitLength + 1];
      used, needs := digitLength + 2, 0;
      if Takes(c) {
        AppendArg(buf, c, args[0], t);
        needs := 1;
      } else if c == '%' {
        Append(buf, "%", t);
      } else {
        assert t + [] == t;
      }
    } else if format[i] == '\n' || format[i] == '\r' {
      Append(buf, "\n", t);
      used, needs := 1, 0;
    } else {
      Append(buf, [format[i]], t);
      used, needs := 1, 0;
    }
  }

  method Sprintf(buf: array<char>, format: array<char>, args: seq<Arg>, ghost f: seq<char>)
    requires buf != format && Holds(format[..], 0, f) && Printable(f, args)
    requires buf.Length >= 4 && buf.Length > |Print(f, args)|
    modifies buf
    ensures Holds(buf[..], 0, Print(f, args))
  {
    hide Holds, Print, Printable, PieceOk, Piece, Used, Needs;
    buf[0], buf[1], buf[2], buf[3] := NUL, NUL, NUL, NUL;
    ghost var done: seq<char> := [];
    var i, narg := 0, 0;
    Begin(buf[..], format[..], f, args);
    while format[i] != NUL
      invariant 0 <= i <= |f| < format.Length && 0 <= narg <= |args| && Holds(format[..], 0, f)
      invariant format[i] == NUL <==> i == |f|
      invariant Printable(f[i..], args[narg..]) && done + Print(f[i..], args[narg..]) == Print(f, args)
      invariant Holds(buf[..], 0, done)
      decreases |f| - i
    {
      PrintStep(f, i, args, narg, done);
      Suffix(format[..], 0, f, i);
      ghost var piece := Piece(f[i..], args[narg..]);
      var used, needs := AppendPiece(buf, format, i, args[narg..], f[i..], done);
      done := done + piece;
      i, narg := i + used, narg + needs;
      CharAt(format[..], 0, f, i);
    }
    PrintEnd(f, args, narg, done);
  }

  lemma Begin(m: seq<char>, n: seq<char>, f: seq<char>, args: seq<Arg>)
    requires m != [] && m[0] == NUL && Holds(n, 0, f) && Printable(f, args)
    ensures Holds(m, 0, []) && |f| < |n| && (n[0] == NUL <==> f == [])
    ensures f[0..] == f && args[0..] == args && [] + Print(f, args) == Print(f, args)
  {
  }

  lemma Suffix(m: seq<char>, p: nat, f: seq<char>, i: nat)
    requires Holds(m, p, f) && i <= |f|
    ensures Holds(m, p + i, f[i..])
  {
  }

  lemma PrintEnd(f: seq<char>, args: seq<Arg>, narg: nat, done: seq<char>)
    requires narg <= |args| && Printable(f[|f|..], args[narg..])
    ensures done + Print(f[|f|..], args[narg..]) == done
  {
  }

  /** One round of the loop, in terms of the rest of the format. */
  lemma PrintStep(f: seq<char>, i: nat, args: seq<Arg>, narg: nat, done: seq<char>)
    requires i < |f| && narg <= |args| && Printable(f[i..], args[narg..])
    ensures PieceOk(f[i..], args[narg..])
    ensures i + Used(f[i..]) <= |f| && narg + Needs(f[i..]) <= |args|
    ensures Printable(f[i + Used(f[i..])..], args[narg + Needs(f[i..])..])
    ensures done + Print(f[i..], args[narg..]) ==
            done + Piece(f[i..], args[narg..]) + Print(f[i + Used(f[i..])..], args[narg + Needs(f[i..])..])
  {
    hide Used, Piece, Fits, Conversion, Needs;
    var g, b := f[i..], args[narg..];
    assert g[Used(g)..] == f[i + Used(g)..];
    assert b[Needs(g)..] == args[narg + Needs(g)..];
  }

  // ---------------------------------------------------------------- sscanf

  /** The conversions sscanf knows; after any other its position would depend on an unset
      variable. */
  predicate Scannable(f: seq<char>) {
    if f == [] then true
    else if f[0] == '%' then |f| >= 2 && (f[1] == 'c' || f[1] == 'd' || f[1] == 's') && Scannable(f[2..])
    else Scannable(f[1..])
  }

  /** The values stored through the pointer arguments; Overrun when characters behind the
      terminator are read. */
  datatype Scanned = Overrun | Scanned(out: seq<Arg>)

  function Prepend(a: seq<Arg>, r: Scanned): Scanned {
    if r.Overrun? then r else Scanned(a + r.out)
  }

  /** The length of the longest prefix of spaces, and of the longest without a space. */
  function Spaces(t: seq<char>): (r: nat)
    ensures r <= |t| && (r < |t| ==> t[r] != ' ')
    ensures forall k :: 0 <= k < r ==> t[k] == ' '
  {
    if t == [] || t[0] != ' ' then 0 else 1 + Spaces(t[1..])
  }

  function Word(t: seq<char>): (r: nat)
    ensures r <= |t| && (r < |t| ==> t[r] == ' ')
    ensures forall k :: 0 <= k < r ==> t[k] != ' '
  {
    if t == [] || t[0] == ' ' then 0 else 1 + Word(t[1..])
  }

  /** The value the conversion c reads at the head of t, and the characters it takes. */
  function Read(c: char, t: seq<char>): (Arg, nat) {
    if c == 'c' then (CharArg(At(t, 0)), 1)
    else if c == 'd' then (IntArg(ReadInt(t).0), ReadInt(t).1)
    else (StrArg(t[..Word(t)]), Word(t))
  }

  /** The characters of t a format character other than '%' skips. */
  function Skip(c: char, t: seq<char>): (r: nat)
    ensures r <= |t|
  {
    if c == ' ' then Spaces(t) else if t != [] && t[0] == c then 1 else 0
  }

  function Scan(t: seq<char>, f: seq<char>): Scanned
    requires Scannable(f)
    decreases |f|
  {
    if f == [] then Scanned([])
    else if f[0] == '%' then
      var (a, k) := Read(f[1], t);
      if k <= |t| then Prepend([a], Scan(t[k..], f[2..]))
      else if f[2..] == [] then Scanned([a])
      else Overrun
    else Scan(t[Skip(f[0], t)..], f[1..])
  }

  /** One conversion of the loop at position p of the text. */
  method ReadArg(s: array<char>, p: nat, c: char, ghost t: seq<char>) returns (a: Arg, offset: nat)
    requires Holds(s[..], p, t) && (c == 'c' || c == 'd' || c == 's')
    ensures (a, offset) == Read(c, t)
  {
    hide Holds, ReadInt, Word;
    CharAt(s[..], p, t, 0);
    if c == 'c' {
      return CharArg(s[p]), 1;
    }
    if c == 'd' {
      var v, k := DoReadInt(s, p, t);
      return IntArg(v), k;
    }
    var str: seq<char> := [];
    while s[p + |str|] != NUL && s[p + |str|] != ' '
      invariant |str| <= |t| && str == t[..|str|] && (forall k :: 0 <= k < |str| ==> t[k] != ' ')
      invariant p + |t| < s.Length
      decreases |t| - |str|
    {
      CharAt(s[..], p, t, |str|);
      str := str + [s[p + |str|]];
    }
    CharAt(s[..], p, t, |str|);
    assert |str| == Word(t);
    return StrArg(str), |str|;
  }

  method Sscanf(s: array<char>, format: array<char>, ghost t: seq<char>, ghost f: seq<char>) returns (out: seq<Arg>)
    requires Holds(s[..], 0, t) && Holds(format[..], 0, f) && Scannable(f) && Scan(t, f).Scanned?
    ensures Scan(t, f) == Scanned(out)
  {
    hide Holds, Scan, Read, Scannable, Skip;
    var i, si := 0, 0;
    out := [];
    CharAt(format[..], 0, f, 0);
    assert t[0..] == t && f[0..] == f;
    while format[i] != NUL
      invariant 0 <= i <= |f| < format.Length && (format[i] == NUL <==> i == |f|)
      invariant 0 <= si && (si <= |t| || i == |f|)
      invariant Scannable(f[i..])
      invariant if si <= |t| then Scan(t, f) == Prepend(out, Scan(t[si..], f[i..])) else Scan(t, f) == Scanned(out)
      decreases |f| - i
    {
      ScanStep(t, f, si, i, out);
      CharAt(format[..], 0, f, i);
      CharAt(format[..], 0, f, i + 1);
      Suffix(s[..], 0, t, si);
      if format[i] == '%' {
        var a, offset := ReadArg(s, si, format[i + 1], t[si..]);
        out := out + [a];
        CharAt(format[..], 0, f, i + 2);
        i, si := i + 2, si + offset;
      } else {
        var skipped := SkipChar(s, si, format[i], t[si..]);
        i, si := i + 1, si + skipped;
      }
    }
    ScanEnd(t, f, si, out);
  }

  method SkipChar(s: array<char>, p: nat, c: char, ghost t: seq<char>) returns (n: nat)
    requires Holds(s[..], p, t) && c != NUL
    ensures n == Skip(c, t)
  {
    hide Holds, Spaces;
    n := 0;
    CharAt(s[..], p, t, 0);
    if c == ' ' {
      while s[p + n] == ' '
        invariant n <= |t| && (forall k :: 0 <= k < n ==> t[k] == ' ')
        invariant p + |t| < s.Length
        decreases |t| - n
      {
        CharAt(s[..], p, t, n);
        n := n + 1;
      }
      CharAt(s[..], p, t, n);
      assert n == Spaces(t);
    } else if c == s[p] {
      n := 1;
    }
  }

  lemma ScanEnd(t: seq<char>, f: seq<char>, si: nat, out: seq<Arg>)
    requires Scannable(f[|f|..]) && Scannable(f)
    requires if si <= |t| then Scan(t, f) == Prepend(out, Scan(t[si..], f[|f|..])) else Scan(t, f) == Scanned(out)
    ensures Scan(t, f) == Scanned(out)
  {
    assert out + [] == out;
  }

  lemma ScanStep(t: seq<char>, f: seq<char>, si: nat, i: nat, out: seq<Arg>)
    requires Scannable(f) && i < |f| && si <= |t| && Scannable(f[i..])
    requires Scan(t, f) == Prepend(out, Scan(t[si..], f[i..])) && Scan(t, f).Scanned?
    ensures f[i] == '%' ==>
              && i + 2 <= |f| && (f[i+1] == 'c' || f[i+1] == 'd' || f[i+1] == 's') && Scannable(f[i + 2..])
              && var (a, k) := Read(f[i+1], t[si..]);
                 if si + k <= |t| then Scan(t, f) == Prepend(out + [a], Scan(t[si + k..], f[i + 2..]))
                 else i + 2 == |f| && Scan(t, f) == Scanned(out + [a])
    ensures f[i] != '%' ==>
              && Scannable(f[i + 1..])
              && si + Skip(f[i], t[si..]) <= |t|
              && Scan(t, f) == Prepend(out, Scan(t[si + Skip(f[i], t[si..])..], f[i + 1..]))
  {
    hide Read, Skip, Scan, Scannable;
    var g, u := f[i..], t[si..];
    ScanHead(u, g);
    assert g[1..] == f[i + 1..];
    if f[i] == '%' {
      assert g[2..] == f[i + 2..] && g[1] == f[i + 1];
      var (a, k) := Read(g[1], u);
      if k <= |u| {
        assert u[k..] == t[si + k..];
        PrependTwice(out, [a], Scan(u[k..], g[2..]));
      }
    } else {
      assert u[Skip(g[0], u)..] == t[si + Skip(f[i], t[si..])..];
    }
  }

  lemma PrependTwice(a: seq<Arg>, b: seq<Arg>, r: Scanned)
    ensures Prepend(a, Prepend(b, r)) == Prepend(a + b, r)
  {
    if r.Scanned? {
      assert a + (b + r.out) == (a + b) + r.out;
    }
  }

  /** Scan and Scannable, unfolded once. */
  lemma ScanHead(t: seq<char>, f: seq<char>)
    requires f != [] && Scannable(f)
    ensures f[0] == '%' ==>
              && |f| >= 2 && (f[1] == 'c' || f[1] == 'd' || f[1] == 's') && Scannable(f[2..])
              && var (a, k) := Read(f[1], t);
                 if k <= |t| then Scan(t, f) == Prepend([a], Scan(t[k..], f[2..]))
                 else Scan(t, f) == if f[2..] == [] then Scanned([a]) else Overrun
    ensures f[0] != '%' ==> Scannable(f[1..]) && Scan(t, f) == Scan(t[Skip(f[0], t)..], f[1..])
  {
    hide Read, Skip;
  }

  // ---------------------------------------------------------------- round trip

  /** A literal character, or one of the conversions %d, %s and %c. */
  datatype Item = Literal(c: char) | Conv(code: char)

  predicate ItemOk(item: Item) {
    match item
    case Literal(c) => c != NUL && c != '%' && c != '\r'
    case Conv(code) => code == 'd' || code == 's' || code == 'c'
  }

  function FormatOf(items: seq<Item>): seq<char> {
    if items == [] then []
    else (if items[0].Literal? then [items[0].c] else ['%', items[0].code]) + FormatOf(items[1..])
  }

  /** Each conversion has its argument, of the right kind. */
  ghost predicate Supplied(items: seq<Item>, args: seq<Arg>) {
    if items == [] then args == []
    else
      && ItemOk(items[0])
      && if items[0].Literal? then Supplied(items[1..], args)
         else args != [] && Fits(items[0].code, args[0]) && Supplied(items[1..], args[1..])
  }

  /** What the items print, one after the other. */
  ghost function Printed(items: seq<Item>, args: seq<Arg>): seq<char>
    requires Supplied(items, args)
  {
    if items == [] then []
    else if items[0].Literal? then [items[0].c] + Printed(items[1..], args)
    else Shown(items[0].code, args[0]) + Printed(items[1..], args[1..])
  }

  /** When a conversion reads back what it printed for a, followed by rest: a number is not
      followed by a digit, a text has no space and is followed by one or by the end, and a
      letter is not NUL. */
  ghost predicate ReadsBack(a: Arg, rest: seq<char>) {
    match a
    case IntArg(_) => rest == [] || !IsDigit(rest[0])
    case CharArg(x) => x != NUL
    case StrArg(s) => ' ' !in s && (rest == [] || rest[0] == ' ')
  }

  /** Every conversion reads back its argument, and what follows a literal space does not
      print a space first, unless it is another literal space. */
  ghost predicate Recoverable(items: seq<Item>, args: seq<Arg>)
    requires Supplied(items, args)
  {
    if items == [] then true
    else if items[0].Literal? then
      var rest := Printed(items[1..], args);
      && (items[0].c == ' ' && rest != [] && rest[0] == ' ' ==> items[1] == Literal(' '))
      && Recoverable(items[1..], args)
    else ReadsBack(args[0], Printed(items[1..], args[1..])) && Recoverable(items[1..], args[1..])
  }

  lemma PrintHead(f: seq<char>, args: seq<Arg>)
    requires f != []
    ensures Printable(f, args) <==> PieceOk(f, args) && Printable(f[Used(f)..], args[Needs(f)..])
    ensures Printable(f, args) ==> Print(f, args) == Piece(f, args) + Print(f[Used(f)..], args[Needs(f)..])
  {
    hide Piece, PieceOk, Used, Needs;
  }

  lemma PrintConversion(c: char, f: seq<char>, args: seq<Arg>)
    requires Takes(c) && !IsDigit(c) && c != '-' && args != [] && Fits(c, args[0]) && Printable(f, args[1..])
    ensures Printable(['%', c] + f, args) && Print(['%', c] + f, args) == Shown(c, args[0]) + Print(f, args[1..])
  {
    hide Printable, Print, Shown, Fits, ReadInt;
    var g := ['%', c] + f;
    assert g[1..] == [c] + f && g[2..] == f;
    PrintHead(g, args);
  }

  lemma PrintLiteral(c: char, f: seq<char>, args: seq<Arg>)
    requires c != '%' && c != '\r' && Printable(f, args)
    ensures Printable([c] + f, args) && Print([c] + f, args) == [c] + Print(f, args)
  {
    hide Printable, Print;
    var g := [c] + f;
    assert g[1..] == f;
    PrintHead(g, args);
  }

  /** sprintf prints exactly the items. */
  lemma {:induction false} PrintsItems(items: seq<Item>, args: seq<Arg>)
    requires Supplied(items, args)
    ensures Printable(FormatOf(items), args) && Print(FormatOf(items), args) == Printed(items, args)
  {
    hide Shown, Fits;
    if items == [] {
    } else if items[0].Literal? {
      PrintsItems(items[1..], args);
      PrintLiteral(items[0].c, FormatOf(items[1..]), args);
    } else {
      PrintsItems(items[1..], args[1..]);
      PrintConversion(items[0].code, FormatOf(items[1..]), args);
    }
  }

  lemma ScanConversion(c: char, f: seq<char>, u: seq<char>, rest: seq<char>, a: Arg)
    requires (c == 'c' || c == 'd' || c == 's') && Scannable(f) && Read(c, u + rest) == (a, |u|)
    ensures Scannable(['%', c] + f) && Scan(u + rest, ['%', c] + f) == Prepend([a], Scan(rest, f))
  {
    hide Read;
    var g := ['%', c] + f;
    assert g[2..] == f;
    assert (u + rest)[|u|..] == rest;
  }

  lemma ReadTakes(c: char, a: Arg, rest: seq<char>)
    requires c == 'c' || c == 'd' || c == 's'
    requires Fits(c, a)
    ensures Read(c, Shown(c, a) + rest) == (a, |Shown(c, a)|) <==> ReadsBack(a, rest)
  {
    hide ReadInt, Numeral, Word;
    match a
    case IntArg(n) => ReadBack(n, rest);
    case StrArg(s) => WordTakes(s, rest);
    case CharArg(x) =>
  }

  lemma WordTakes(s: seq<char>, rest: seq<char>)
    ensures Word(s + rest) == |s| <==> ' ' !in s && (rest == [] || rest[0] == ' ')
    ensures (s + rest)[..|s|] == s
  {
    var t, w := s + rest, Word(s + rest);
    assert rest != [] ==> t[|s|] == rest[0];
    if w == |s| {
      forall k | 0 <= k < |s| ensures s[k] != ' ' {
        assert t[k] != ' ';
      }
    } else if w < |s| {
      assert s[w] == t[w] == ' ';
    } else {
      assert t[|s|] != ' ';
    }
  }

  /** What a literal space skips, and no more, is what it printed: the rest starts with the
      spaces of the literal spaces that follow. */
  lemma {:induction false} ScanSpaces(items: seq<Item>, args: seq<Arg>)
    requires items != [] && items[0] == Literal(' ') && Supplied(items, args) && Recoverable(items, args)
    requires Scannable(FormatOf(items))
    ensures var t, rest := Printed(items, args), Printed(items[1..], args);
            Scannable(FormatOf(items[1..])) && Scan(t, FormatOf(items)) == Scan(rest, FormatOf(items[1..]))
  {
    var t, rest := Printed(items, args), Printed(items[1..], args);
    assert t[1..] == rest && t[0] == ' ';
    var f, g := FormatOf(items), FormatOf(items[1..]);
    assert f[0] == ' ' && f[1..] == g;
    ScanHead(t, f);
    if rest != [] && rest[0] == ' ' {
      var v := t[Spaces(t)..];
      ScanHead(rest, g);
      ScanHead(v, g);
      assert g[0] == ' ' && v == rest[Spaces(rest)..] && v[0..] == v;
    } else {
      assert t[Spaces(t)..] == rest;
    }
  }

  lemma {:induction false} ScansItems(items: seq<Item>, args: seq<Arg>)
    requires Supplied(items, args) && Recoverable(items, args)
    ensures Scannable(FormatOf(items)) && Scan(Printed(items, args), FormatOf(items)) == Scanned(args)
  {
    hide Shown, Read, Scan, Scannable, ReadsBack, Fits;
    ScanNothing();
    if items == [] {
    } else if items[0].Literal? {
      ScansItems(items[1..], args);
      ScanLiteral(items[0].c, items, args);
    } else {
      var c, rest := items[0].code, Printed(items[1..], args[1..]);
      ScansItems(items[1..], args[1..]);
      ReadTakes(c, args[0], rest);
      ScanConversion(c, FormatOf(items[1..]), Shown(c, args[0]), rest, args[0]);
      assert args == [args[0]] + args[1..];
    }
  }

  lemma ScanNothing()
    ensures Scannable([]) && Scan([], []) == Scanned([])
  {
  }

  lemma ScanLiteral(c: char, items: seq<Item>, args: seq<Arg>)
    requires items != [] && items[0] == Literal(c) && Supplied(items, args) && Recoverable(items, args)
    requires Scannable(FormatOf(items[1..]))
    ensures Scannable(FormatOf(items))
    ensures Scan(Printed(items, args), FormatOf(items)) == Scan(Printed(items[1..], args), FormatOf(items[1..]))
  {
    var f, t := FormatOf(items), Printed(items, args);
    assert f[0] == c && f[1..] == FormatOf(items[1..]);
    assert t[0] == c && t[1..] == Printed(items[1..], args);
    if c == ' ' {
      ScanSpaces(items, args);
    }
  }

  /** sscanf undoes sprintf: reading what a format printed, with the same format, gives back
      the arguments. */
  lemma ScanUndoesPrint(items: seq<Item>, args: seq<Arg>)
    requires Supplied(items, args) && Recoverable(items, args)
    ensures var f := FormatOf(items);
            Printable(f, args) && Scannable(f) && Scan(Print(f, args), f) == Scanned(args)
  {
    PrintsItems(items, args);
    ScansItems(items, args);
  }

  // ---------------------------------------------------------------- the other conversions

  /** %x and %X print the 32-bit value in base 16, %d and %i in base 10, without leading
      zeros. */
  lemma NumbersPrinted(c: char, f: seq<char>, args: seq<Arg>)
    requires c == 'd' || c == 'i' || c == 'x' || c == 'X'
    requires args != [] && args[0].IntArg? && IsInt32(args[0].n) && Printable(f, args[1..])
    ensures Printable(['%', c] + f, args)
    ensures var base, u := if c == 'x' || c == 'X' then 16 else 10, args[0].n % 0x1_0000_0000;
            var t := Numeral(u, base);
            && Print(['%', c] + f, args) == t + Print(f, args[1..])
            && t != [] && AllDigits(t, base) && Value(t, base) == u && (u > 0 ==> t[0] != '0')
  {
    hide Printable, Print, Digits, Value;
    PrintConversion(c, f, args);
    var base := if c == 'x' || c == 'X' then 16 else 10;
    DigitsSpell(Unsigned(args[0].n), base);
    SingleZero(base);
  }

  lemma SingleZero(base: nat)
    requires base >= 2
    ensures Value("0", base) == 0 && AllDigits("0", base)
  {
    var t := "0";
    assert t[..|t| - 1] == [];
  }

  /** "%%" prints a percent sign and any other unknown conversion nothing. */
  lemma PercentPrinted(c: char, f: seq<char>, args: seq<Arg>)
    requires !Takes(c) && !IsDigit(c) && c != '-' && Printable(f, args)
    ensures Printable(['%', c] + f, args)
    ensures Print(['%', c] + f, args) == (if c == '%' then "%" else "") + Print(f, args)
  {
    hide Printable, Print, Takes, ReadInt;
    var g := ['%', c] + f;
    assert g[1..] == [c] + f && g[2..] == f;
    PrintHead(g, args);
  }

  /** A carriage return prints a newline, and a newline itself. */
  lemma ReturnPrinted(c: char, f: seq<char>, args: seq<Arg>)
    requires (c == '\r' || c == '\n') && Printable(f, args)
    ensures Printable([c] + f, args) && Print([c] + f, args) == "\n" + Print(f, args)
  {
    hide Printable, Print;
    var g := [c] + f;
    assert g[1..] == f;
    PrintHead(g, args);
  }

  /** A field width is skipped. */
  lemma WidthIgnored(w: seq<char>, c: char, f: seq<char>, args: seq<Arg>)
    requires w != [] && (forall k :: 0 <= k < |w| ==> IsDigit(w[k])) && !IsDigit(c) && c != '-'
    requires Printable(['%', c] + f, args)
    ensures Printable(['%'] + w + [c] + f, args)
    ensures Print(['%'] + w + [c] + f, args) == Print(['%', c] + f, args)
  {
    hide Printable, Print, PieceOk, Piece, Used, Needs, Conversion;
    var g, h := ['%'] + w + [c] + f, ['%', c] + f;
    SameDirective(w, c, f, args);
    assert g[|w| + 2..] == f && h[2..] == f;
    PrintHead(h, args);
    PrintHead(g, args);
  }

  lemma SameDirective(w: seq<char>, c: char, f: seq<char>, args: seq<Arg>)
    requires w != [] && (forall k :: 0 <= k < |w| ==> IsDigit(w[k])) && !IsDigit(c) && c != '-'
    ensures var g, h := ['%'] + w + [c] + f, ['%', c] + f;
            && Used(g) == |w| + 2 && Used(h) == 2 && Needs(g) == Needs(h)
            && (PieceOk(g, args) <==> PieceOk(h, args))
            && (PieceOk(h, args) ==> Piece(g, args) == Piece(h, args))
  {
    hide Takes, Fits, Shown, Width;
    var g, h := ['%'] + w + [c] + f, ['%', c] + f;
    WidthOf(w, c, f);
    assert g[1..] == w + [c] + f && h[1..] == [c] + f;
    assert g[|w| + 1] == c && h[1] == c;
    assert Conversion(g) == c && Conversion(h) == c;
  }

  lemma WidthOf(w: seq<char>, c: char, f: seq<char>)
    requires w != [] && (forall k :: 0 <= k < |w| ==> IsDigit(w[k])) && !IsDigit(c) && c != '-'
    ensures Width(w + [c] + f) == |w| && Width([c] + f) == 0
  {
    hide Value, Int32;
    assert w + [c] + f == w + ([c] + f);
    RunOver(w, [c] + f);
    assert (w + ([c] + f))[0..] == w + ([c] + f);
  }

  /** Scanning a literal takes the character if it is there and nothing otherwise; a space in
      the format takes all spaces there are. */
  lemma LiteralScanned(c: char, t: seq<char>, f: seq<char>)
    requires c != '%' && Scannable(f)
    ensures Scannable([c] + f)
    ensures c != ' ' ==> Scan(t, [c] + f) == Scan(if t != [] && t[0] == c then t[1..] else t, f)
    ensures c == ' ' ==> Scan(t, [c] + f) == Scan(if t != [] && t[0] == ' ' then t[1..] else t,
                                                  if t != [] && t[0] == ' ' then [c] + f else f)
  {
    var g := [c] + f;
    assert g[1..] == f;
    ScanHead(t, g);
    assert t[0..] == t;
    if c == ' ' && t != [] && t[0] == ' ' {
      ScanHead(t[1..], g);
      assert t[1..][Spaces(t[1..])..] == t[Spaces(t)..];
    }
  }
}
