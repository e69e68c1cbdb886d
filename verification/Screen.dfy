/** The 25 x 80 text screen of include/stdio.h as a window on an unbounded tape of cells. */
module Screen {
  import opened CString

  const MAX_ROWS := 25
  const MAX_COLS := 80
  const ROW_BYTES := 160
  const SCREEN_BYTES := 4000
  const SCREEN_CELLS := 2000
  const BACKSPACE := 8 as char

  datatype Cell = Cell(c: char, attr: char)

  const BLANK := Cell(NUL, NUL)

  /** The tape, what has been written of it, the next position, and the first visible row. */
  datatype View = View(cells: seq<Cell>, pos: nat, top: nat)

  function CellAt(cells: seq<Cell>, i: nat): Cell {
    if i < |cells| then cells[i] else BLANK
  }

  function Write(cells: seq<Cell>, i: nat, x: Cell): (r: seq<Cell>)
    ensures forall k: nat :: CellAt(r, k) == if k == i then x else CellAt(cells, k)
    ensures |r| == if i < |cells| then |cells| else i + 1
  {
    if i < |cells| then cells[i := x]
    else cells + seq(i - |cells|, _ => BLANK) + [x]
  }

  /** Typing one character on the tape. */
  function Type(v: View, c: char, attr: char): View
    requires c == BACKSPACE ==> v.pos > 0
  {
    if c == '\n' then v.(pos := (v.pos / MAX_COLS + 1) * MAX_COLS)
    else if c == BACKSPACE then v.(cells := Write(v.cells, v.pos - 1, Cell(' ', attr)), pos := v.pos - 1)
    else v.(cells := Write(v.cells, v.pos, Cell(c, attr)), pos := v.pos + 1)
  }

  /** The window follows the position, by one row. */
  function Follow(v: View): View {
    if v.pos < v.top * MAX_COLS + SCREEN_CELLS then v else v.(top := v.top + 1)
  }

  /** A backspace must not leave the screen. */
  predicate CanPut(v: View, c: char) {
    c == BACKSPACE ==> v.pos > v.top * MAX_COLS
  }

  function Put(v: View, c: char, attr: char): View
    requires CanPut(v, c)
  {
    Follow(Type(v, c, attr))
  }

  /** putchar with col and row given moves to that place of the screen first. */
  function Goto(v: View, col: int, row: int): View {
    if col >= 0 && row >= 0 then v.(pos := (v.top + row) * MAX_COLS + col) else v
  }

  ghost predicate CanPrint(v: View, t: seq<char>, col: int, row: int, attr: char)
    decreases |t|
  {
    t != [] ==> CanPut(Goto(v, col, row), t[0]) && CanPrint(Put(Goto(v, col, row), t[0], attr), t[1..], col, row, attr)
  }

  ghost function PrintAll(v: View, t: seq<char>, col: int, row: int, attr: char): View
    requires CanPrint(v, t, col, row, attr)
    decreases |t|
  {
    if t == [] then v else PrintAll(Put(Goto(v, col, row), t[0], attr), t[1..], col, row, attr)
  }

  /** Cell i of the screen. */
  function Glyph(m: seq<char>, i: nat): Cell
    requires 2 * i + 1 < |m|
  {
    Cell(m[2 * i], m[2 * i + 1])
  }

  /** The bytes show the cells of the tape from row top on; nothing below has been written. */
  ghost predicate Window(m: seq<char>, cells: seq<Cell>, top: nat) {
    && |m| == SCREEN_BYTES && |cells| <= top * MAX_COLS + SCREEN_CELLS
    && forall i :: 0 <= i < SCREEN_CELLS ==> Glyph(m, i) == CellAt(cells, top * MAX_COLS + i)
  }

  /** offset is the place of the position of v in the window, or just behind it. */
  ghost predicate Typed(m: seq<char>, offset: int, v: View) {
    && Window(m, v.cells, v.top)
    && 0 <= offset <= SCREEN_BYTES && offset == 2 * (v.pos - v.top * MAX_COLS)
  }

  /** With the cursor inside the window. */
  ghost predicate Shows(m: seq<char>, cursor: int, v: View) {
    Typed(m, cursor, v) && cursor < SCREEN_BYTES
  }

  predicate OnScreen(col: int, row: int) {
    col >= 0 && row >= 0 ==> col < MAX_COLS && row < MAX_ROWS
  }

  class Display {
    const mem: array<char>
    var cursor: int
    var attribute: char

    ghost predicate Valid() {
      mem.Length == SCREEN_BYTES
    }

    /** handle_scrolling. */
    method HandleScrolling(offset: int) returns (r: int)
      requires Valid() && 0 <= offset <= SCREEN_BYTES
      modifies mem
      ensures r == if offset < SCREEN_BYTES then offset else offset - ROW_BYTES
      ensures offset < SCREEN_BYTES ==> mem[..] == old(mem[..])
      ensures offset == SCREEN_BYTES ==>
                forall k :: 0 <= k < SCREEN_BYTES ==>
                  mem[k] == if k < SCREEN_BYTES - ROW_BYTES then old(mem[k + ROW_BYTES]) else NUL
    {
      if offset < SCREEN_BYTES {
        return offset;
      }
      for i := 1 to MAX_ROWS
        invariant forall k :: 0 <= k < (i - 1) * ROW_BYTES ==> mem[k] == old(mem[k + ROW_BYTES])
        invariant forall k :: (i - 1) * ROW_BYTES <= k < SCREEN_BYTES ==> mem[k] == old(mem[k])
      {
        MemoryCopy(i * ROW_BYTES, (i - 1) * ROW_BYTES, ROW_BYTES);
      }
      var last := (MAX_ROWS - 1) * ROW_BYTES;
      for i := 0 to ROW_BYTES
        invariant forall k :: last <= k < last + i ==> mem[k] == NUL
        invariant forall k :: 0 <= k < last ==> mem[k] == old(mem[k + ROW_BYTES])
      {
        mem[last + i] := NUL;
      }
      return offset - ROW_BYTES;
    }

    /** memory_copy, upwards, to a lower address. */
    method MemoryCopy(source: nat, dest: nat, n: nat)
      requires dest + n <= source && source + n <= mem.Length
      modifies mem
      ensures forall k :: 0 <= k < mem.Length ==>
                mem[k] == if dest <= k < dest + n then old(mem[source + (k - dest)]) else old(mem[k])
    {
      for i := 0 to n
        invariant forall k :: 0 <= k < mem.Length ==>
                    mem[k] == if dest <= k < dest + i then old(mem[source + (k - dest)]) else old(mem[k])
      {
        mem[dest + i] := mem[source + i];
      }
    }

    method PutChar(c: char, col: int, row: int, attr0: char, ghost v: View)
      requires Valid() && Shows(mem[..], cursor, v) && OnScreen(col, row) && CanPut(Goto(v, col, row), c)
      modifies mem, this`cursor
      ensures Shows(mem[..], cursor, Put(Goto(v, col, row), c, if attr0 == NUL then attribute else attr0))
    {
      hide Shows, Typed, Type, Follow, Write;
      var attr := if attr0 == NUL then attribute else attr0;
      var offset := if col >= 0 && row >= 0 then (row * MAX_COLS + col) * 2 else cursor;
      ghost var w := Goto(v, col, row);
      GotoShows(mem[..], cursor, v, col, row);
      TypeShows(mem[..], offset, w, c, attr);
      if c == '\n' {
        var rows := offset / ROW_BYTES;
        offset := (rows * MAX_COLS + 79) * 2;
      } else if c == BACKSPACE {
        offset := offset - 2;
        mem[offset] := ' ';
        mem[offset + 1] := attr;
        offset := offset - 2;
      } else {
        mem[offset] := c;
        mem[offset + 1] := attr;
      }
      offset := offset + 2;
      ghost var before := mem[..];
      ScrollRange(before, offset, Type(w, c, attr));
      cursor := HandleScrolling(offset);
      ScrollShows(before, mem[..], offset, cursor, Type(w, c, attr));
    }

    /** print_at; with a place given every character goes to that same place. */
    method PrintAt(message: array<char>, col: int, row: int, ghost t: seq<char>, ghost v: View)
      requires Valid() && Shows(mem[..], cursor, v) && OnScreen(col, row)
      requires message != mem && Holds(message[..], 0, t) && CanPrint(v, t, col, row, attribute)
      modifies mem, this`cursor
      ensures Shows(mem[..], cursor, if t == [] then Goto(v, col, row) else PrintAll(v, t, col, row, attribute))
    {
      hide Shows, Put, Holds;
      ghost var w := v;
      if col >= 0 && row >= 0 {
        GotoShows(mem[..], cursor, v, col, row);
        cursor := (row * MAX_COLS + col) * 2;
        w := Goto(v, col, row);
      }
      var i := 0;
      CharAt(message[..], 0, t, 0);
      assert t[0..] == t;
      while message[i] != NUL
        invariant 0 <= i <= |t| < message.Length && Holds(message[..], 0, t)
        invariant message[i] == NUL <==> i == |t|
        invariant Shows(mem[..], cursor, w) && CanPrint(w, t[i..], col, row, attribute)
        invariant PrintAll(w, t[i..], col, row, attribute) ==
                  if t == [] then Goto(v, col, row) else PrintAll(v, t, col, row, attribute)
        decreases |t| - i
      {
        CharAt(message[..], 0, t, i);
        CharAt(message[..], 0, t, i + 1);
        assert t[i..][0] == t[i] && t[i..][1..] == t[i + 1..];
        PutChar(message[i], col, row, attribute, w);
        w := Put(Goto(w, col, row), t[i], attribute);
        i := i + 1;
      }
    }

    /** clear_screen.  The last cell it fills scrolls the screen, so the last row ends up
        with zero bytes instead of spaces; the screen is again a window, now of w. */
    method ClearScreen(ghost v: View) returns (ghost w: View)
      requires Valid() && Shows(mem[..], cursor, v)
      modifies mem, this`cursor
      ensures cursor == 0 && Shows(mem[..], cursor, w) && w.top == v.top + 1
      ensures forall i :: 0 <= i < SCREEN_CELLS ==>
                Glyph(mem[..], i) == if i < SCREEN_CELLS - MAX_COLS then Cell(' ', attribute) else BLANK
    {
      hide Shows, Write, Put;
      w := v;
      ClearStart(mem[..], cursor, v, attribute);
      for row := 0 to MAX_ROWS
        invariant Shows(mem[..], cursor, w) && Cleared(w, v.top, row * MAX_COLS, attribute)
      {
        for col := 0 to MAX_COLS
          invariant Shows(mem[..], cursor, w) && Cleared(w, v.top, row * MAX_COLS + col, attribute)
        {
          ClearStep(w, v.top, col, row, attribute);
          PutChar(' ', col, row, attribute, w);
          w := Put(Goto(w, col, row), ' ', attribute);
        }
      }
      ClearedGlyphs(mem[..], cursor, w, v.top, attribute);
      cursor := 0;
      w := w.(pos := w.top * MAX_COLS);
    }
  }

  /** clear_screen has filled n cells. */
  ghost predicate Cleared(w: View, top: nat, n: nat, attr: char) {
    && w.top == (if n < SCREEN_CELLS then top else top + 1)
    && |w.cells| <= top * MAX_COLS + SCREEN_CELLS
    && forall k :: top * MAX_COLS <= k < top * MAX_COLS + n ==> CellAt(w.cells, k) == Cell(' ', attr)
  }

  lemma ClearStart(m: seq<char>, cursor: int, v: View, attr: char)
    requires Shows(m, cursor, v)
    ensures Cleared(v, v.top, 0, attr)
  {
  }

  lemma ClearStep(w: View, top: nat, col: nat, row: nat, attr: char)
    requires col < MAX_COLS && row < MAX_ROWS && Cleared(w, top, row * MAX_COLS + col, attr)
    ensures CanPut(Goto(w, col, row), ' ')
    ensures Cleared(Put(Goto(w, col, row), ' ', attr), top, row * MAX_COLS + col + 1, attr)
  {
    hide Write;
  }

  lemma ClearedGlyphs(m: seq<char>, cursor: int, w: View, top: nat, attr: char)
    requires Shows(m, cursor, w) && Cleared(w, top, SCREEN_CELLS, attr)
    ensures |m| == SCREEN_BYTES
    ensures w.top == top + 1 && Shows(m, 0, w.(pos := w.top * MAX_COLS))
    ensures forall i :: 0 <= i < SCREEN_CELLS ==>
              Glyph(m, i) == if i < SCREEN_CELLS - MAX_COLS then Cell(' ', attr) else BLANK
  {
    forall i | 0 <= i < SCREEN_CELLS
      ensures Glyph(m, i) == if i < SCREEN_CELLS - MAX_COLS then Cell(' ', attr) else BLANK
    {
      assert Glyph(m, i) == CellAt(w.cells, w.top * MAX_COLS + i);
    }
  }

  lemma GotoShows(m: seq<char>, cursor: int, v: View, col: int, row: int)
    requires Shows(m, cursor, v) && OnScreen(col, row)
    ensures |m| == SCREEN_BYTES && 0 <= cursor
    ensures Shows(m, if col >= 0 && row >= 0 then (row * MAX_COLS + col) * 2 else cursor, Goto(v, col, row))
    ensures Goto(Goto(v, col, row), col, row) == Goto(v, col, row)
  {
  }

  lemma TypeShows(m: seq<char>, offset: int, v: View, c: char, attr: char)
    requires Shows(m, offset, v) && CanPut(v, c)
    ensures 0 <= offset < SCREEN_BYTES == |m| && offset % 2 == 0 && (c == BACKSPACE ==> offset >= 2)
    ensures var w := Type(v, c, attr);
            if c == '\n' then Typed(m, (offset / ROW_BYTES * MAX_COLS + 79) * 2 + 2, w)
            else if c == BACKSPACE then Typed(m[offset - 2 := ' '][offset - 1 := attr], offset - 2, w)
            else Typed(m[offset := c][offset + 1 := attr], offset + 2, w)
  {
    hide Window, Write;
    Sized(m, v);
    if c == '\n' {
      assert v.pos == offset / 2 + v.top * MAX_COLS;
      assert v.pos / MAX_COLS == offset / ROW_BYTES + v.top;
    } else if c == BACKSPACE {
      WriteShows(m, v.cells, v.top, offset / 2 - 1, Cell(' ', attr));
    } else {
      WriteShows(m, v.cells, v.top, offset / 2, Cell(c, attr));
    }
  }

  lemma ScrollRange(m: seq<char>, offset: int, v: View)
    requires Typed(m, offset, v)
    ensures 0 <= offset <= SCREEN_BYTES
  {
  }

  lemma Sized(m: seq<char>, v: View)
    requires Window(m, v.cells, v.top)
    ensures |m| == SCREEN_BYTES
  {
  }

  lemma WriteShows(m: seq<char>, cells: seq<Cell>, top: nat, i: nat, x: Cell)
    requires Window(m, cells, top) && i < SCREEN_CELLS && |m| == SCREEN_BYTES
    ensures Window(m[2 * i := x.c][2 * i + 1 := x.attr], Write(cells, top * MAX_COLS + i, x), top)
  {
    hide Write;
    var n, d := m[2 * i := x.c][2 * i + 1 := x.attr], Write(cells, top * MAX_COLS + i, x);
    forall k | 0 <= k < SCREEN_CELLS ensures Glyph(n, k) == CellAt(d, top * MAX_COLS + k) {
      assert Glyph(m, k) == CellAt(cells, top * MAX_COLS + k);
    }
  }

  lemma ScrollShows(m: seq<char>, n: seq<char>, offset: int, r: int, v: View)
    requires Typed(m, offset, v) && |n| == SCREEN_BYTES
    requires r == if offset < SCREEN_BYTES then offset else offset - ROW_BYTES
    requires offset < SCREEN_BYTES ==> n == m
    requires offset == SCREEN_BYTES ==>
               forall k :: 0 <= k < SCREEN_BYTES ==>
                 n[k] == if k < SCREEN_BYTES - ROW_BYTES then m[k + ROW_BYTES] else NUL
    ensures Shows(n, r, Follow(v))
  {
    if offset == SCREEN_BYTES {
      forall i | 0 <= i < SCREEN_CELLS ensures Glyph(n, i) == CellAt(v.cells, (v.top + 1) * MAX_COLS + i) {
        if i < SCREEN_CELLS - MAX_COLS {
          assert Glyph(n, i) == Glyph(m, i + MAX_COLS);
        }
      }
    }
  }

  // ---------------------------------------------------------------- the tape

  /** A typewriter without a window: one character, then a whole text. */
  function Struck(cells: seq<Cell>, pos: nat, c: char, attr: char): (seq<Cell>, nat) {
    if c == '\n' then (cells, pos - pos % MAX_COLS + MAX_COLS)
    else if c == BACKSPACE then if pos == 0 then (cells, pos) else (Write(cells, pos - 1, Cell(' ', attr)), pos - 1)
    else (Write(cells, pos, Cell(c, attr)), pos + 1)
  }

  function StruckAll(cells: seq<Cell>, pos: nat, t: seq<char>, attr: char): (seq<Cell>, nat)
    decreases |t|
  {
    if t == [] then (cells, pos)
    else var (d, p) := Struck(cells, pos, t[0], attr); StruckAll(d, p, t[1..], attr)
  }

  /** Printing at the cursor types the text on the tape, whatever the window does; and the
      window moves down one row for each row the position passes its lower edge by. */
  lemma {:induction false} PrintTypes(v: View, t: seq<char>, attr: char)
    requires CanPrint(v, t, -1, -1, attr) && v.top * MAX_COLS <= v.pos < v.top * MAX_COLS + SCREEN_CELLS
    ensures var w := PrintAll(v, t, -1, -1, attr);
            && (w.cells, w.pos) == StruckAll(v.cells, v.pos, t, attr)
            && v.top <= w.top && w.top * MAX_COLS <= w.pos < w.top * MAX_COLS + SCREEN_CELLS
    decreases |t|
  {
    hide Write;
    if t != [] {
      var u := Put(Goto(v, -1, -1), t[0], attr);
      assert (u.cells, u.pos) == Struck(v.cells, v.pos, t[0], attr);
      PrintTypes(u, t[1..], attr);
    }
  }

  /** The window moves only when it has to: right after a move the position is at the first
      cell of the last row. */
  lemma ScrollsOneRow(v: View, c: char, attr: char)
    requires CanPut(v, c) && v.top * MAX_COLS <= v.pos < v.top * MAX_COLS + SCREEN_CELLS
    ensures var w := Put(v, c, attr);
            && (w.top == v.top || w.top == v.top + 1)
            && (w.top == v.top + 1 ==> w.pos == w.top * MAX_COLS + SCREEN_CELLS - MAX_COLS)
  {
  }

  /** Character 8 blanks the cell before the position and goes back to it, character 10 goes
      to the next row. */
  lemma ControlCharacters(v: View, attr: char)
    ensures v.pos > v.top * MAX_COLS ==>
              CanPut(v, 8 as char) &&
              Type(v, 8 as char, attr) == v.(cells := Write(v.cells, v.pos - 1, Cell(' ', attr)), pos := v.pos - 1)
    ensures Type(v, 10 as char, attr).cells == v.cells
    ensures Type(v, 10 as char, attr).pos % 80 == 0 && v.pos < Type(v, 10 as char, attr).pos <= v.pos + 80
  {
  }

  ghost predicate Printing(t: seq<char>) {
    forall k :: 0 <= k < |t| ==> t[k] != '\n' && t[k] != BACKSPACE
  }

  lemma {:induction false} StruckPlain(cells: seq<Cell>, pos: nat, t: seq<char>, attr: char)
    requires Printing(t)
    ensures var (d, p) := StruckAll(cells, pos, t, attr);
            && p == pos + |t|
            && forall k: nat :: CellAt(d, k) == if pos <= k < pos + |t| then Cell(t[k - pos], attr) else CellAt(cells, k)
    decreases |t|
  {
    hide Write;
    if t != [] {
      StruckPlain(Write(cells, pos, Cell(t[0], attr)), pos + 1, t[1..], attr);
    }
  }

  /** What was printed can be read off the screen: text without newlines and backspaces that
      is at most 24 rows long stands in front of the cursor, however often the screen
      scrolled on the way. */
  lemma PrintedTextVisible(v: View, t: seq<char>, attr: char, m: seq<char>, cursor: int)
    requires CanPrint(v, t, -1, -1, attr) && v.top * MAX_COLS <= v.pos < v.top * MAX_COLS + SCREEN_CELLS
    requires Printing(t) && |t| <= SCREEN_CELLS - MAX_COLS
    requires Shows(m, cursor, PrintAll(v, t, -1, -1, attr))
    ensures |m| == SCREEN_BYTES && |t| <= cursor / 2 < SCREEN_CELLS
    ensures forall k :: 0 <= k < |t| ==> Glyph(m, cursor / 2 - |t| + k) == Cell(t[k], attr)
  {
    var w := PrintAll(v, t, -1, -1, attr);
    PrintTypes(v, t, attr);
    StruckPlain(v.cells, v.pos, t, attr);
    TopStays(v, t, attr);
    forall k | 0 <= k < |t| ensures Glyph(m, cursor / 2 - |t| + k) == Cell(t[k], attr) {
      var i := cursor / 2 - |t| + k;
      assert Glyph(m, i) == CellAt(w.cells, w.top * MAX_COLS + i);
      assert w.top * MAX_COLS + i == v.pos + k;
    }
  }

  /** Unless the window never moved, the position is in its last row. */
  lemma {:induction false} TopStays(v: View, t: seq<char>, attr: char)
    requires CanPrint(v, t, -1, -1, attr) && v.top * MAX_COLS <= v.pos < v.top * MAX_COLS + SCREEN_CELLS
    requires Printing(t)
    ensures var w := PrintAll(v, t, -1, -1, attr);
            w.top == v.top || w.pos >= w.top * MAX_COLS + SCREEN_CELLS - MAX_COLS
    decreases |t|
  {
    hide Write;
    if t != [] {
      var u := Put(Goto(v, -1, -1), t[0], attr);
      ScrollsOneRow(v, t[0], attr);
      TopStays(u, t[1..], attr);
      PrintTypes(u, t[1..], attr);
      StruckPlain(u.cells, u.pos, t[1..], attr);
    }
  }

  /** With a place given, print_at overprints: only the last character of the text stays. */
  lemma {:induction false} OverprintsAtPlace(v: View, t: seq<char>, col: nat, row: nat, attr: char)
    requires CanPrint(v, t, col, row, attr) && Printing(t) && t != []
    requires col < MAX_COLS && row < MAX_ROWS && row * MAX_COLS + col < SCREEN_CELLS - 1
    ensures var w, place := PrintAll(v, t, col, row, attr), (v.top + row) * MAX_COLS + col;
            && w.top == v.top && w.pos == place + 1
            && forall k: nat :: CellAt(w.cells, k) == if k == place then Cell(t[|t| - 1], attr) else CellAt(v.cells, k)
    decreases |t|
  {
    hide Write;
    var u := Put(Goto(v, col, row), t[0], attr);
    if |t| == 1 {
      assert t[1..] == [];
    } else {
      OverprintsAtPlace(u, t[1..], col, row, attr);
    }
  }

  /** So the text stands at its place exactly when it ends as it begins and its rest stood
      there already. */
  lemma StandsAtPlaceIff(v: View, t: seq<char>, col: nat, row: nat, attr: char)
    requires CanPrint(v, t, col, row, attr) && Printing(t) && t != []
    requires col < MAX_COLS && row < MAX_ROWS && row * MAX_COLS + col < SCREEN_CELLS - 1
    ensures var w, place := PrintAll(v, t, col, row, attr), (v.top + row) * MAX_COLS + col;
            (forall k :: 0 <= k < |t| ==> CellAt(w.cells, place + k) == Cell(t[k], attr)) <==>
            t[|t| - 1] == t[0] && forall k :: 1 <= k < |t| ==> CellAt(v.cells, place + k) == Cell(t[k], attr)
  {
    OverprintsAtPlace(v, t, col, row, attr);
    var w, place := PrintAll(v, t, col, row, attr), (v.top + row) * MAX_COLS + col;
    if forall k :: 0 <= k < |t| ==> CellAt(w.cells, place + k) == Cell(t[k], attr) {
      assert CellAt(w.cells, place + 0) == Cell(t[0], attr);
      forall k | 1 <= k < |t| ensures CellAt(v.cells, place + k) == Cell(t[k], attr) {
        assert CellAt(w.cells, place + k) == Cell(t[k], attr);
      }
    }
  }

  /** The last character of t that is neither a newline nor a backspace. */
  function LastPrinting(t: seq<char>): (r: int)
    ensures -1 <= r < |t| && (r >= 0 ==> t[r] != '\n' && t[r] != BACKSPACE)
    ensures forall k :: r < k < |t| ==> t[k] == '\n' || t[k] == BACKSPACE
  {
    if t == [] then -1
    else
      var n := |t| - 1;
      if t[n] != '\n' && t[n] != BACKSPACE then n else LastPrinting(t[..n])
  }

  /** Any text at a place above the last row: newlines leave the screen alone, backspaces
      blank the cell before the place, and of the rest only the last character stays. */
  lemma {:induction false} OverprintsAnyText(v: View, t: seq<char>, col: nat, row: nat, attr: char)
    requires CanPrint(v, t, col, row, attr) && col < MAX_COLS && row < MAX_ROWS - 1
    ensures var w, place := PrintAll(v, t, col, row, attr), (v.top + row) * MAX_COLS + col;
            && w.top == v.top
            && forall k: nat :: CellAt(w.cells, k) ==
                 if k == place && LastPrinting(t) >= 0 then Cell(t[LastPrinting(t)], attr)
                 else if k == place - 1 && BACKSPACE in t then Cell(' ', attr)
                 else CellAt(v.cells, k)
    decreases |t|
  {
    hide Write;
    if t != [] {
      var u := Put(Goto(v, col, row), t[0], attr);
      PlacedOnce(v, t[0], col, row, attr);
      OverprintsAnyText(u, t[1..], col, row, attr);
      LastOfRest(t);
    }
  }

  lemma PlacedOnce(v: View, c: char, col: nat, row: nat, attr: char)
    requires CanPut(Goto(v, col, row), c) && col < MAX_COLS && row < MAX_ROWS - 1
    ensures var u, place := Put(Goto(v, col, row), c, attr), (v.top + row) * MAX_COLS + col;
            && u.top == v.top
            && forall k: nat :: CellAt(u.cells, k) ==
                 if k == place && c != '\n' && c != BACKSPACE then Cell(c, attr)
                 else if k == place - 1 && c == BACKSPACE then Cell(' ', attr)
                 else CellAt(v.cells, k)
  {
    hide Write;
  }

  lemma LastOfRest(t: seq<char>)
    requires t != []
    ensures var r := LastPrinting(t[1..]);
            LastPrinting(t) == if r >= 0 then r + 1 else if t[0] != '\n' && t[0] != BACKSPACE then 0 else -1
  {
    var r, q := LastPrinting(t[1..]), LastPrinting(t);
    assert forall k :: 0 <= k < |t| - 1 ==> t[1..][k] == t[k+1];
    assert q >= 1 ==> t[1..][q-1] == t[q];
  }

  /** At the last cell every character scrolls, and each one stands in a row of its own. */
  lemma {:induction false} LastCellScrolls(v: View, t: seq<char>, attr: char)
    requires CanPrint(v, t, MAX_COLS - 1, MAX_ROWS - 1, attr) && Printing(t)
    ensures var w := PrintAll(v, t, MAX_COLS - 1, MAX_ROWS - 1, attr);
            && w.top == v.top + |t|
            && forall k :: 0 <= k < |t| ==> CellAt(w.cells, (v.top + MAX_ROWS + k) * MAX_COLS - 1) == Cell(t[k], attr)
    ensures var w := PrintAll(v, t, MAX_COLS - 1, MAX_ROWS - 1, attr);
            forall i: nat :: i < (v.top + MAX_ROWS) * MAX_COLS - 1 ==> CellAt(w.cells, i) == CellAt(v.cells, i)
    decreases |t|
  {
    hide Write;
    if t != [] {
      var u := Put(Goto(v, MAX_COLS - 1, MAX_ROWS - 1), t[0], attr);
      assert u.top == v.top + 1;
      LastCellScrolls(u, t[1..], attr);
      var w := PrintAll(v, t, MAX_COLS - 1, MAX_ROWS - 1, attr);
      forall k | 0 <= k < |t| ensures CellAt(w.cells, (v.top + MAX_ROWS + k) * MAX_COLS - 1) == Cell(t[k], attr) {
        if k > 0 {
          assert t[1..][k-1] == t[k];
        }
      }
    }
  }
}
