/** One terminal on its own: a screen and the line being typed (the key branches of
    key_irq_handler, terminal_read and terminal_write of keyboard.c). */
module Terminals {
  import opened Machine
  import opened CStrings
  import opened Screens

  /** The screen, the line buffer with the number of characters typed, and whether Enter is awaited. */
  datatype Tty = Tty(screen: Screen, buffer: seq<byte>, index: nat, typing: bool)

  datatype Op =
    | Key(c: byte)
    | Enter
    | Backspace
    | CtrlL
    | Write(text: seq<byte>)
    | Read(count: nat)
    | Draw(offset: nat, value: byte)
    | Jump(x: nat, y: nat)

  /** Everything stays in bounds: the cursor on the screen, the line in its buffer, and at least
      as many cells before the cursor as Backspace could delete. */
  predicate Safe(t: Tty) {
    && OnScreen(t.screen)
    && |t.buffer| == LINE_BUF_SIZE && t.index <= MAX_BUF_INDEX
    && Position(t.screen) >= t.index
  }

  /** A key with a character: stored and echoed, with an extra scroll at the last cell. */
  function TypeChar(t: Tty, c: byte): (r: Tty)
    requires Safe(t)
    ensures Safe(r)
  {
    if t.index >= MAX_BUF_INDEX then t
    else
      var s := Put(t.screen, c);
      var echoed := if s.x == COLS - 1 && s.y == ROWS - 1 then s.(cells := Scrolled(s.cells)) else s;
      Tty(echoed, t.buffer[t.index := c], t.index + 1, t.typing)
  }

  /** Enter, as the key branch does it: end the line, and step or scroll to the next row. */
  function PressEnter(t: Tty): (r: Tty)
    requires Safe(t)
    ensures Safe(r)
    ensures r.screen == Put(t.screen, LINEFEED)
  {
    var s := t.screen;
    var moved := if s.y == ROWS - 1 then Screen(Scrolled(s.cells), 0, s.y) else Screen(s.cells, 0, s.y + 1);
    Tty(moved, t.buffer[t.index := LINEFEED], t.index, false)
  }

  function PressBackspace(t: Tty): (r: Tty)
    requires Safe(t)
    ensures Safe(r)
  {
    if t.index > 0 then t.(screen := Delete(t.screen), index := t.index - 1) else t
  }

  function PressCtrlL(t: Tty): (r: Tty)
    requires Safe(t)
    ensures Safe(r)
  {
    t.(screen := Blank(), buffer := Wiped(t.buffer, t.index), index := 0)
  }

  /** The bytes 1..n zeroed. */
  function Wiped(buffer: seq<byte>, n: nat): (r: seq<byte>)
    requires n < |buffer|
    ensures |r| == |buffer|
  {
    seq(|buffer|, i requires 0 <= i < |buffer| => if 1 <= i <= n then NUL else buffer[i])
  }

  function WriteText(t: Tty, text: seq<byte>): (r: Tty)
    requires Safe(t)
    ensures Safe(r)
  {
    PutKeepsRoom(t.screen, Str(text), t.index);
    t.(screen := PutAll(t.screen, Str(text)))
  }

  /** What terminal_read copies out: at most the line with its line end. */
  function ReadBytes(t: Tty, count: nat): (r: seq<byte>)
    requires Safe(t)
    ensures |r| == Min(count, t.index + 1)
  {
    t.buffer[..Min(count, t.index + 1)]
  }

  function AfterRead(t: Tty, count: nat): (r: Tty)
    requires Safe(t)
    ensures Safe(r) && r.index == 0 && r.typing
  {
    var n := Min(count, t.index + 1);
    t.(buffer := seq(n, _ => NUL) + t.buffer[n..], index := 0, typing := true)
  }

  /** A program's store into its mapped screen; characters are the even bytes of the page. */
  function DrawByte(t: Tty, offset: nat, value: byte): (r: Tty)
    requires Safe(t)
    ensures Safe(r)
  {
    if offset % 2 == 0 && offset / 2 < CELLS
    then t.(screen := t.screen.(cells := t.screen.cells[offset / 2 := value])) else t
  }

  /** The cursor moved from outside, to a place with room for the line before it. */
  function JumpTo(t: Tty, x: nat, y: nat): (r: Tty)
    requires Safe(t)
    ensures Safe(r)
  {
    if x < COLS && y < ROWS && COLS * y + x >= t.index then t.(screen := t.screen.(x := x, y := y)) else t
  }

  function Apply(t: Tty, op: Op): (r: Tty)
    requires Safe(t)
    ensures Safe(r)
  {
    match op
    case Key(c) => TypeChar(t, c)
    case Enter => PressEnter(t)
    case Backspace => PressBackspace(t)
    case CtrlL => PressCtrlL(t)
    case Write(text) => WriteText(t, text)
    case Read(n) => AfterRead(t, n)
    case Draw(offset, value) => DrawByte(t, offset, value)
    case Jump(x, y) => JumpTo(t, x, y)
  }

  function ApplyAll(t: Tty, ops: seq<Op>): (r: Tty)
    requires Safe(t)
    ensures Safe(r)
  {
    if ops == [] then t else Apply(ApplyAll(t, ops[..|ops| - 1]), ops[|ops| - 1])
  }

  /** Printing never moves the cursor back past a line of typed characters. */
  lemma {:induction false} PutKeepsRoom(s: Screen, text: seq<byte>, room: nat)
    requires OnScreen(s) && Position(s) >= room && room <= MAX_BUF_INDEX
    ensures Position(PutAll(s, text)) >= room
  {
    if text != [] {
      PutKeepsRoom(s, text[..|text| - 1], room);
    }
  }

  /** Only writes, and reads, which leave the screen alone. */
  predicate Writing(ops: seq<Op>) {
    forall i | 0 <= i < |ops| :: ops[i].Write? || ops[i].Read?
  }

  /** The written texts, one behind the other. */
  function Texts(ops: seq<Op>): seq<byte> {
    if ops == [] then []
    else Texts(ops[..|ops| - 1]) + if ops[|ops| - 1].Write? then Str(ops[|ops| - 1].text) else []
  }

  lemma {:induction false} PutAllConcat(s: Screen, a: seq<byte>, b: seq<byte>)
    requires OnScreen(s)
    ensures PutAll(s, a + b) == PutAll(PutAll(s, a), b)
    decreases |b|
  {
    if b == [] {
      assert a + b == a;
    } else {
      PutAllConcat(s, a, b[..|b| - 1]);
      assert (a + b)[..|a + b| - 1] == a + b[..|b| - 1];
    }
  }

  lemma {:induction false} WritesPrint(t: Tty, writes: seq<Op>)
    requires Safe(t) && Writing(writes)
    ensures ApplyAll(t, [CtrlL] + writes).screen == PutAll(Blank(), Texts(writes))
    decreases |writes|
  {
    if writes == [] {
      assert [CtrlL] + writes == [CtrlL] && [CtrlL][..0] == [];
    } else {
      hide Blank, PutAll, Safe;
      var pre, last := writes[..|writes| - 1], writes[|writes| - 1];
      WritesPrint(t, pre);
      assert ([CtrlL] + writes)[..|writes|] == [CtrlL] + pre;
      assert ApplyAll(t, [CtrlL] + writes) == Apply(ApplyAll(t, [CtrlL] + pre), last);
      if last.Write? {
        PutAllConcat(Blank(), Texts(pre), Str(last.text));
      } else {
        assert Texts(pre) + [] == Texts(pre);
      }
    }
  }

  /** After a Ctrl-L any number of writes show their concatenation, laid out as its last 25 wrapped
      rows. */
  lemma WritesAfterClear(t: Tty, writes: seq<Op>)
    requires Safe(t) && Writing(writes)
    ensures ApplyAll(t, [CtrlL] + writes).screen == Shown(RowsOf(Texts(writes)))
  {
    WritesPrint(t, writes);
    WriteLaysOut(Texts(writes));
  }

  // ----- the echo

  /** The picture after a character key: the character where the cursor was. If that was the last cell
      or the one before it the rows move up by one, in the first case because the character wraps, in
      the second by the extra scroll, which leaves the cursor in the last cell. */
  lemma EchoExact(t: Tty, c: byte)
    requires Safe(t) && t.index < MAX_BUF_INDEX && !Newline(c)
    ensures var r, p := TypeChar(t, c), Position(t.screen);
      && (forall i | 0 <= i < CELLS && p < CELLS - 2 ::
            r.screen.cells[i] == if i == p then c else t.screen.cells[i])
      && (forall i | 0 <= i < CELLS && p >= CELLS - 2 ::
            r.screen.cells[i] == if i >= CELLS - COLS then SPACE
                                 else if i + COLS == p then c else t.screen.cells[i + COLS])
      && Position(r.screen) == (if p == CELLS - 1 then CELLS - COLS else p + 1)
      && r.buffer == t.buffer[t.index := c] && r.index == t.index + 1 && r.typing == t.typing
  {
  }

  /** A key when the line is full does nothing. */
  lemma FullLineIgnoresKeys(t: Tty, c: byte)
    requires Safe(t)
    ensures TypeChar(t, c) == t <==> t.index == MAX_BUF_INDEX
  {
  }

  /** Backspace takes back a key that was typed over a blank and did not scroll. */
  lemma BackspaceUndoesKey(t: Tty, c: byte)
    requires Safe(t) && t.index < MAX_BUF_INDEX && !Newline(c) && Position(t.screen) < CELLS - 2
    ensures var r := PressBackspace(TypeChar(t, c)); r.index == t.index && r.buffer[..t.index] == t.buffer[..t.index]
    ensures PressBackspace(TypeChar(t, c)).screen == t.screen <==> t.screen.cells[Position(t.screen)] == SPACE
  {
    EchoExact(t, c);
    var p := Position(t.screen);
    var r := PressBackspace(TypeChar(t, c)).screen;
    assert forall i | 0 <= i < CELLS :: r.cells[i] == if i == p then SPACE else t.screen.cells[i];
    if t.screen.cells[p] == SPACE {
      assert r.cells == t.screen.cells;
    }
  }

  /** Ctrl-L blanks the screen, puts the cursor in the first cell and empties the line; of the buffer it
      zeroes what was typed behind the first character. */
  lemma CtrlLClears(t: Tty)
    requires Safe(t)
    ensures var r := PressCtrlL(t);
      && (forall i | 0 <= i < CELLS :: r.screen.cells[i] == SPACE) && Position(r.screen) == 0 && r.index == 0
      && r.typing == t.typing
      && forall i | 0 <= i < LINE_BUF_SIZE :: r.buffer[i] == if 1 <= i <= t.index then NUL else t.buffer[i]
  {
  }

  /** What an operation prints on the screen. */
  function Prints(op: Op): seq<byte> {
    match op
    case Key(c) => [c]
    case Enter => [LINEFEED]
    case Write(text) => Str(text)
    case _ => []
  }

  function PrintsAll(ops: seq<Op>): seq<byte> {
    if ops == [] then [] else PrintsAll(ops[..|ops| - 1]) + Prints(ops[|ops| - 1])
  }

  /** Typing, Enter, output and reads, of which each key has room in the line and none takes the
      cursor to the last cell. */
  ghost predicate Echoes(t: Tty, ops: seq<Op>)
    requires Safe(t)
  {
    forall n | 0 <= n < |ops| :: EchoesOne(ApplyAll(t, ops[..n]), ops[n])
  }

  ghost predicate EchoesOne(t: Tty, op: Op)
    requires Safe(t)
  {
    match op
    case Key(c) => t.index < MAX_BUF_INDEX && Position(Put(t.screen, c)) != CELLS - 1
    case Enter => true
    case Write(_) => true
    case Read(_) => true
    case _ => false
  }

  lemma EchoPuts(t: Tty, op: Op)
    requires Safe(t) && EchoesOne(t, op)
    ensures Apply(t, op).screen == PutAll(t.screen, Prints(op))
  {
    match op
    case Key(c) => assert [c][..0] == [];
    case Enter => assert [LINEFEED][..0] == [];
    case Write(_) =>
    case Read(_) =>
  }

  lemma {:induction false} EchoPutsAll(t: Tty, ops: seq<Op>)
    requires Safe(t) && Echoes(t, ops)
    ensures ApplyAll(t, ops).screen == PutAll(t.screen, PrintsAll(ops))
    decreases |ops|
  {
    hide Safe, PutAll, Apply, EchoesOne, Prints;
    SafeShows(t);
    if ops == [] {
      NothingPut(t.screen);
    } else {
      var pre, op := ops[..|ops| - 1], ops[|ops| - 1];
      forall n | 0 <= n < |pre| ensures EchoesOne(ApplyAll(t, pre[..n]), pre[n]) {
        assert pre[..n] == ops[..n];
      }
      EchoPutsAll(t, pre);
      assert EchoesOne(ApplyAll(t, pre), op);
      EchoPuts(ApplyAll(t, pre), op);
      PutAllConcat(t.screen, PrintsAll(pre), Prints(op));
    }
  }

  lemma NothingPut(s: Screen)
    requires OnScreen(s)
    ensures PutAll(s, []) == s
  {
  }

  lemma SafeShows(t: Tty)
    requires Safe(t)
    ensures OnScreen(t.screen)
  {
  }

  /** After a Ctrl-L a terminal shows what is typed and what is written on it, in one text, laid out
      as its last 25 wrapped rows. */
  lemma EchoAfterClear(t: Tty, ops: seq<Op>)
    requires Safe(t) && Echoes(PressCtrlL(t), ops)
    ensures ApplyAll(PressCtrlL(t), ops).screen == Shown(RowsOf(PrintsAll(ops)))
  {
    EchoPutsAll(PressCtrlL(t), ops);
    WriteLaysOut(PrintsAll(ops));
  }

  lemma {:induction false} ApplyFrom(t: Tty, op: Op, ops: seq<Op>)
    requires Safe(t)
    ensures ApplyAll(t, [op] + ops) == ApplyAll(Apply(t, op), ops)
    decreases |ops|
  {
    hide Safe, Apply;
    if ops == [] {
      assert [op] + ops == [op] && [op][..0] == [];
    } else {
      ApplyFrom(t, op, ops[..|ops| - 1]);
      assert ([op] + ops)[..|ops|] == [op] + ops[..|ops| - 1];
    }
  }

  function Keys(text: seq<byte>): (ops: seq<Op>)
    ensures |ops| == |text| && forall i | 0 <= i < |text| :: ops[i] == Key(text[i])
  {
    seq(|text|, i requires 0 <= i < |text| => Key(text[i]))
  }

  /** A line typed on a cleared screen is seen as it is typed. */
  lemma {:induction false} TypedIsShown(t: Tty, text: seq<byte>)
    requires Safe(t) && |text| <= MAX_BUF_INDEX && forall i | 0 <= i < |text| :: !Newline(text[i])
    ensures var r := ApplyAll(PressCtrlL(t), Keys(text));
      && r.index == |text| && r.buffer[..|text|] == text && Position(r.screen) == |text|
      && r.screen == Shown(RowsOf(text))
      && forall i | 0 <= i < CELLS :: r.screen.cells[i] == if i < |text| then text[i] else SPACE
    decreases |text|
  {
    hide TypeChar, RowsOf, Shown;
    if text == [] {
      WriteLaysOut([]);
    } else {
      var n := |text| - 1;
      var pre := text[..n];
      TypedIsShown(t, pre);
      assert Keys(text)[..n] == Keys(pre);
      var r := ApplyAll(PressCtrlL(t), Keys(pre));
      EchoExact(r, text[n]);
      assert r.buffer[n := text[n]][..n + 1] == r.buffer[..n] + [text[n]] == text;
      KeyShows(r, pre, text[n]);
    }
  }

  lemma KeyShows(r: Tty, pre: seq<byte>, c: byte)
    requires Safe(r) && r.index < MAX_BUF_INDEX && Position(r.screen) < CELLS - 2 && !Newline(c)
    requires r.screen == Shown(RowsOf(pre))
    ensures TypeChar(r, c).screen == Shown(RowsOf(pre + [c]))
  {
    RowsSnoc(pre, c);
    PutShown(RowsOf(pre), c);
  }

  // ----- the line

  /** Keys as the line editor sees them; output and drawing do not concern it. */
  function Edit(line: seq<byte>, op: Op): (r: seq<byte>)
  {
    match op
    case Key(c) => if |line| < MAX_BUF_INDEX then line + [c] else line
    case Backspace => if line == [] then [] else line[..|line| - 1]
    case CtrlL => []
    case _ => line
  }

  function Edited(ops: seq<Op>): (r: seq<byte>)
    ensures |r| <= MAX_BUF_INDEX
  {
    if ops == [] then [] else Edit(Edited(ops[..|ops| - 1]), ops[|ops| - 1])
  }

  predicate Typing(ops: seq<Op>) {
    forall i | 0 <= i < |ops| :: !ops[i].Enter? && !ops[i].Read? && (ops[i].Key? ==> ops[i].c != NUL)
  }

  lemma {:induction false} BufferHoldsEdited(t: Tty, ops: seq<Op>)
    requires Safe(t) && t.index == 0 && Typing(ops)
    ensures var r := ApplyAll(t, ops); r.index == |Edited(ops)| && r.buffer[..r.index] == Edited(ops)
    ensures NUL !in Edited(ops)
  {
    if ops != [] {
      var pre, op := ops[..|ops| - 1], ops[|ops| - 1];
      BufferHoldsEdited(t, pre);
      var s := ApplyAll(t, pre);
      if op.Key? && s.index < MAX_BUF_INDEX {
        assert s.buffer[s.index := op.c][..s.index + 1] == s.buffer[..s.index] + [op.c];
      } else if op.Backspace? && s.index > 0 {
        assert s.buffer[..s.index - 1] == s.buffer[..s.index][..s.index - 1];
      }
    }
  }

  /** Whatever is typed, corrected, cleared, printed, drawn or moved before Enter, the read after it
      returns the edited line and its line end, cut to the count asked for, and leaves an empty
      line that waits for the next Enter. */
  lemma LineDiscipline(t: Tty, ops: seq<Op>, count: nat)
    requires Safe(t) && t.index == 0 && Typing(ops)
    ensures var entered := PressEnter(ApplyAll(t, ops));
      var line := Edited(ops) + [LINEFEED];
      && !entered.typing
      && ReadBytes(entered, count) == line[..Min(count, |line|)]
      && NUL !in ReadBytes(entered, count)
      && var after, n := AfterRead(entered, count), Min(count, |line|);
      && after.index == 0 && after.typing && after.screen == entered.screen
      && (forall i | 0 <= i < n :: after.buffer[i] == NUL) && after.buffer[n..] == entered.buffer[n..]
  {
    BufferHoldsEdited(t, ops);
    var s := ApplyAll(t, ops);
    assert s.buffer[s.index := LINEFEED][..s.index + 1] == Edited(ops) + [LINEFEED];
  }

  /** The editor on plain keys keeps them all, as long as there is room. */
  lemma {:induction false} EditedKeys(text: seq<byte>)
    requires |text| <= MAX_BUF_INDEX
    ensures Edited(Keys(text)) == text
    decreases |text|
  {
    if text != [] {
      var n := |text| - 1;
      EditedKeys(text[..n]);
      assert Keys(text)[..n] == Keys(text[..n]);
      assert text[..n] + [text[n]] == text;
    }
  }

  /** Backspace takes the last key back, and Ctrl-L all of them. */
  lemma EditedTakesBack(ops: seq<Op>, c: byte)
    ensures |Edited(ops)| < MAX_BUF_INDEX ==> Edited(ops + [Key(c)] + [Backspace]) == Edited(ops)
    ensures Edited(ops + [CtrlL]) == []
  {
    assert (ops + [Key(c)] + [Backspace])[..|ops| + 1] == ops + [Key(c)];
    assert (ops + [Key(c)])[..|ops|] == ops;
    assert (ops + [CtrlL])[..|ops|] == ops;
    if |Edited(ops)| < MAX_BUF_INDEX {
      assert Edited(ops + [Key(c)]) == Edited(ops) + [c];
    }
  }
}
