/** One text screen: its 80 by 25 characters and its cursor (term_putc, putc, term_scroll,
    term_delete_char, term_clear of lib.c), and the layout its users see. */
module Screens {
  import opened Machine

  const COLS := 80
  const ROWS := 25
  const CELLS := 2000

  datatype Screen = Screen(cells: seq<byte>, x: nat, y: nat)

  predicate OnScreen(s: Screen) {
    |s.cells| == CELLS && s.x < COLS && s.y < ROWS
  }

  function Position(s: Screen): nat {
    COLS * s.y + s.x
  }

  predicate Newline(c: byte) {
    c == LINEFEED || c == RETURN
  }

  /** Every row one up, the last row blank. */
  function Scrolled(cells: seq<byte>): (r: seq<byte>)
    requires |cells| == CELLS
    ensures |r| == CELLS
    ensures forall i | 0 <= i < CELLS :: r[i] == if i < CELLS - COLS then cells[i + COLS] else SPACE
  {
    seq(CELLS, i requires 0 <= i < CELLS => if i < CELLS - COLS then cells[i + COLS] else SPACE)
  }

  function Put(s: Screen, c: byte): (r: Screen)
    requires OnScreen(s)
    ensures OnScreen(r)
  {
    var cells := if Newline(c) then s.cells else s.cells[Position(s) := c];
    var x := if Newline(c) then 0 else (s.x + 1) % COLS;
    var y := if Newline(c) then s.y + 1 else s.y + (s.x + 1) / COLS;
    if y == ROWS then Screen(Scrolled(cells), x, y - 1) else Screen(cells, x, y)
  }

  function PutAll(s: Screen, text: seq<byte>): (r: Screen)
    requires OnScreen(s)
    ensures OnScreen(r)
  {
    if text == [] then s else Put(PutAll(s, text[..|text| - 1]), text[|text| - 1])
  }

  /** The character before the cursor blanked, and the cursor moved onto it. */
  function Delete(s: Screen): (r: Screen)
    requires OnScreen(s) && Position(s) > 0
    ensures OnScreen(r) && Position(r) == Position(s) - 1
    ensures forall i | 0 <= i < CELLS :: r.cells[i] == if i == Position(s) - 1 then SPACE else s.cells[i]
  {
    var cells := s.cells[Position(s) - 1 := SPACE];
    if s.x == 0 then Screen(cells, COLS - 1, s.y - 1) else Screen(cells, s.x - 1, s.y)
  }

  function Blank(): (s: Screen)
    ensures OnScreen(s) && Position(s) == 0
    ensures forall i | 0 <= i < CELLS :: s.cells[i] == SPACE
  {
    Screen(seq(CELLS, _ => SPACE), 0, 0)
  }

  // ----- layout

  /** The text split at line ends. */
  function Lines(text: seq<byte>): (r: seq<seq<byte>>)
    ensures r != []
  {
    if text == [] then [[]] else
      Cons(text[0], Lines(text[1..]))
  }

  /** A line cut into rows of 80; a line that fills its last row leaves an empty one after it. */
  function Cut(line: seq<byte>): (r: seq<seq<byte>>)
    ensures r != [] && |r[|r| - 1]| < COLS
    ensures forall i | 0 <= i < |r| :: |r[i]| <= COLS
    decreases |line|
  {
    if |line| < COLS then [line] else [line[..COLS]] + Cut(line[COLS..])
  }

  function CutAll(lines: seq<seq<byte>>): (r: seq<seq<byte>>)
    ensures forall i | 0 <= i < |r| :: |r[i]| <= COLS
    ensures lines != [] ==> r != [] && |r[|r| - 1]| < COLS
  {
    if lines == [] then [] else Cut(lines[0]) + CutAll(lines[1..])
  }

  /** All rows of the text, from its first on. */
  function RowsOf(text: seq<byte>): (r: seq<seq<byte>>)
    ensures r != [] && |r[|r| - 1]| < COLS
    ensures forall i | 0 <= i < |r| :: |r[i]| <= COLS
  {
    CutAll(Lines(text))
  }

  /** Column c of row r, blank where the row is shorter or missing. */
  function CellOf(rows: seq<seq<byte>>, r: nat, c: nat): byte {
    if r < |rows| && c < |rows[r]| then rows[r][c] else SPACE
  }

  /** A screen showing the last 25 of the rows, with the cursor at their end. */
  function Shown(rows: seq<seq<byte>>): (s: Screen)
    requires rows != [] && |rows[|rows| - 1]| < COLS
    ensures OnScreen(s)
    ensures forall i | 0 <= i < CELLS :: s.cells[i] == CellOf(rows, Max(0, |rows| - ROWS) + i / COLS, i % COLS)
  {
    var first := Max(0, |rows| - ROWS);
    Screen(seq(CELLS, i requires 0 <= i < CELLS => CellOf(rows, first + i / COLS, i % COLS)),
           |rows[|rows| - 1]|, |rows| - 1 - first)
  }

  /** The rows after one more character. */
  function Extend(rows: seq<seq<byte>>, c: byte): (r: seq<seq<byte>>)
    requires rows != []
  {
    var last := rows[|rows| - 1] + [c];
    if Newline(c) then rows + [[]]
    else if |last| == COLS then rows[..|rows| - 1] + [last, []]
    else rows[..|rows| - 1] + [last]
  }

  /** The lines after one more character. */
  function Grow(ls: seq<seq<byte>>, c: byte): (r: seq<seq<byte>>)
    requires ls != []
  {
    if Newline(c) then ls + [[]] else ls[|ls| - 1 := ls[|ls| - 1] + [c]]
  }

  lemma {:induction false} LinesSnoc(text: seq<byte>, c: byte)
    ensures Lines(text + [c]) == Grow(Lines(text), c)
  {
    if text == [] {
      assert text + [c] == [c] && [c][1..] == [] && [c] + [] == [c] == [] + [c];
    } else {
      assert (text + [c])[1..] == text[1..] + [c];
      LinesSnoc(text[1..], c);
      GrowBehind(text[0], Lines(text[1..]), c);
    }
  }

  /** A character put in front of the lines of the rest of the text. */
  function Cons(first: byte, rest: seq<seq<byte>>): (r: seq<seq<byte>>)
    requires rest != []
    ensures r != []
  {
    if Newline(first) then [[]] + rest else [[first] + rest[0]] + rest[1..]
  }

  lemma GrowBehind(first: byte, rest: seq<seq<byte>>, c: byte)
    requires rest != []
    ensures Cons(first, Grow(rest, c)) == Grow(Cons(first, rest), c)
  {
    var more := Grow(rest, c);
    if !Newline(first) {
      if |rest| == 1 && !Newline(c) {
        assert [first] + (rest[0] + [c]) == [first] + rest[0] + [c];
      } else {
        assert more[0] == rest[0];
      }
    }
  }

  lemma {:induction false} CutSnoc(line: seq<byte>, c: byte)
    requires !Newline(c)
    ensures Cut(line + [c]) == Extend(Cut(line), c)
    decreases |line|
  {
    if |line| < COLS {
      if |line| == COLS - 1 {
        assert (line + [c])[..COLS] == line + [c] && (line + [c])[COLS..] == [];
      }
    } else {
      assert (line + [c])[..COLS] == line[..COLS] && (line + [c])[COLS..] == line[COLS..] + [c];
      CutSnoc(line[COLS..], c);
      ExtendBehind([line[..COLS]], Cut(line[COLS..]), c);
    }
  }

  lemma ExtendBehind(front: seq<seq<byte>>, rows: seq<seq<byte>>, c: byte)
    requires rows != []
    ensures Extend(front + rows, c) == front + Extend(rows, c)
  {
  }

  lemma {:induction false} CutAllSnoc(lines: seq<seq<byte>>, line: seq<byte>)
    ensures CutAll(lines + [line]) == CutAll(lines) + Cut(line)
  {
    if lines == [] {
      assert lines + [line] == [line] && [line][1..] == [];
    } else {
      assert (lines + [line])[1..] == lines[1..] + [line];
      CutAllSnoc(lines[1..], line);
    }
  }

  /** Laying out one character more extends the layout by it. */
  lemma RowsSnoc(text: seq<byte>, c: byte)
    ensures RowsOf(text + [c]) == Extend(RowsOf(text), c)
  {
    var ls := Lines(text);
    var init, last := ls[..|ls| - 1], ls[|ls| - 1];
    LinesSnoc(text, c);
    assert ls == init + [last];
    CutAllSnoc(init, last);
    if Newline(c) {
      CutAllSnoc(ls, []);
    } else {
      assert Grow(ls, c) == init + [last + [c]];
      CutAllSnoc(init, last + [c]);
      CutSnoc(last, c);
      ExtendBehind(CutAll(init), Cut(last), c);
    }
  }

  predicate Laid(rows: seq<seq<byte>>) {
    rows != [] && |rows[|rows| - 1]| < COLS && forall i | 0 <= i < |rows| :: |rows[i]| <= COLS
  }

  lemma ExtendCell(rows: seq<seq<byte>>, c: byte, r: nat, q: nat)
    requires Laid(rows)
    ensures Laid(Extend(rows, c))
    ensures CellOf(Extend(rows, c), r, q) ==
      if !Newline(c) && r == |rows| - 1 && q == |rows[r]| then c else CellOf(rows, r, q)
  {
  }

  lemma ShownCell(rows: seq<seq<byte>>, r: nat, q: nat)
    requires Laid(rows) && r < ROWS && q < COLS
    ensures Shown(rows).cells[COLS * r + q] == CellOf(rows, Max(0, |rows| - ROWS) + r, q)
  {
    var i := COLS * r + q;
    assert i / COLS == r && i % COLS == q;
  }

  /** The cells after the character is stored and before any scroll. */
  lemma StoredCell(rows: seq<seq<byte>>, c: byte, r: nat, q: nat)
    requires Laid(rows) && r < ROWS && q < COLS
    ensures var s := Shown(rows);
      (if Newline(c) then s.cells else s.cells[Position(s) := c])[COLS * r + q]
        == CellOf(Extend(rows, c), Max(0, |rows| - ROWS) + r, q)
  {
    hide Shown, CellOf, Extend;
    ShownCell(rows, r, q);
    ShownAt(rows);
    ExtendCell(rows, c, Max(0, |rows| - ROWS) + r, q);
  }

  lemma ShownAt(rows: seq<seq<byte>>)
    requires Laid(rows)
    ensures Shown(rows).x == |rows[|rows| - 1]| && Shown(rows).y == |rows| - 1 - Max(0, |rows| - ROWS)
  {
  }

  lemma ExtendShape(rows: seq<seq<byte>>, c: byte)
    requires Laid(rows)
    ensures var more, last := Extend(rows, c), |rows[|rows| - 1]|;
      if Newline(c) || last + 1 == COLS then |more| == |rows| + 1 && more[|rows|] == []
      else |more| == |rows| && |more[|rows| - 1]| == last + 1
  {
  }

  lemma PutCell(rows: seq<seq<byte>>, c: byte, r: nat, q: nat)
    requires Laid(rows) && r < ROWS && q < COLS
    ensures Laid(Extend(rows, c))
    ensures Put(Shown(rows), c).cells[COLS * r + q] == Shown(Extend(rows, c)).cells[COLS * r + q]
  {
    hide Shown, Extend;
    var more := Extend(rows, c);
    ExtendCell(rows, c, 0, 0);
    ExtendShape(rows, c);
    ShownAt(rows);
    StoredCell(rows, c, r, q);
    ShownCell(more, r, q);
    if r + 1 < ROWS {
      StoredCell(rows, c, r + 1, q);
      assert COLS * (r + 1) + q == COLS * r + q + COLS;
    }
  }

  /** Writing one character onto a screen that shows some rows shows the extended rows. */
  lemma PutShown(rows: seq<seq<byte>>, c: byte)
    requires Laid(rows)
    ensures Laid(Extend(rows, c)) && Put(Shown(rows), c) == Shown(Extend(rows, c))
  {
    ExtendCell(rows, c, 0, 0);
    ExtendShape(rows, c);
    var s, t := Put(Shown(rows), c), Shown(Extend(rows, c));
    forall i | 0 <= i < CELLS ensures s.cells[i] == t.cells[i] {
      PutCell(rows, c, i / COLS, i % COLS);
    }
    assert s.cells == t.cells;
  }

  /** What a cleared screen shows after any text: the text's last 25 rows, blank-padded, with the
      cursor behind its last character. */
  lemma {:induction false} WriteLaysOut(text: seq<byte>)
    ensures PutAll(Blank(), text) == Shown(RowsOf(text))
  {
    if text == [] {
      assert RowsOf([]) == [[]];
      assert Blank().cells == Shown(RowsOf([])).cells;
    } else {
      var init, c := text[..|text| - 1], text[|text| - 1];
      WriteLaysOut(init);
      assert text == init + [c];
      RowsSnoc(init, c);
      PutShown(RowsOf(init), c);
    }
  }

  // ----- the cursor alone

  /** Where a character takes the cursor. */
  function Stepped(x: nat, y: nat, c: byte): (r: (nat, nat))
    requires x < COLS && y < ROWS
    ensures r.0 < COLS && r.1 < ROWS
  {
    if Newline(c) then (0, Min(y + 1, ROWS - 1))
    else if x + 1 == COLS then (0, Min(y + 1, ROWS - 1))
    else (x + 1, y)
  }

  /** Where a text takes the cursor. */
  function CursorAfter(x: nat, y: nat, text: seq<byte>): (r: (nat, nat))
    requires x < COLS && y < ROWS
    ensures r.0 < COLS && r.1 < ROWS
  {
    if text == [] then (x, y)
    else
      var (x', y') := CursorAfter(x, y, text[..|text| - 1]);
      Stepped(x', y', text[|text| - 1])
  }

  lemma {:induction false} PutAllCursor(s: Screen, text: seq<byte>)
    requires OnScreen(s)
    ensures (PutAll(s, text).x, PutAll(s, text).y) == CursorAfter(s.x, s.y, text)
  {
    if text != [] {
      PutAllCursor(s, text[..|text| - 1]);
    }
  }

  lemma {:induction false} CursorConcat(x: nat, y: nat, a: seq<byte>, b: seq<byte>)
    requires x < COLS && y < ROWS
    ensures CursorAfter(x, y, a + b) == var (x', y') := CursorAfter(x, y, a); CursorAfter(x', y', b)
    decreases |b|
  {
    if b == [] {
      assert a + b == a;
    } else {
      CursorConcat(x, y, a, b[..|b| - 1]);
      assert (a + b)[..|a + b| - 1] == a + b[..|b| - 1];
    }
  }

  /** A text that starts above the last row takes the cursor strictly further down the screen. */
  lemma {:induction false} CursorAdvances(x: nat, y: nat, text: seq<byte>)
    requires x < COLS && y < ROWS - 1 && text != []
    ensures var (x', y') := CursorAfter(x, y, text); COLS * y' + x' > COLS * y + x
    decreases |text|
  {
    if |text| > 1 {
      CursorAdvances(x, y, text[..|text| - 1]);
    }
  }

  lemma {:induction false} CursorStaysLow(x: nat, text: seq<byte>)
    requires x < COLS
    ensures CursorAfter(x, ROWS - 1, text).1 == ROWS - 1
    decreases |text|
  {
    if text != [] {
      CursorStaysLow(x, text[..|text| - 1]);
    }
  }

  /** A text leaves the cursor where it was if and only if there is none, or it starts in the last
      row and ends in the column it started in. */
  lemma CursorReturns(x: nat, y: nat, text: seq<byte>)
    requires x < COLS && y < ROWS
    ensures CursorAfter(x, y, text) == (x, y) <==> text == [] || (y == ROWS - 1 && CursorAfter(x, y, text).0 == x)
  {
    if text != [] {
      if y == ROWS - 1 {
        CursorStaysLow(x, text);
      } else {
        CursorAdvances(x, y, text);
      }
    }
  }
}
