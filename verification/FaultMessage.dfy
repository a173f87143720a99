/** What the exception handlers print before they halt the process (idt.c), and what that does to
    the terminals: pf_handler's two numbers go through puts, and puts moves the displayed cursor. */
module FaultMessages {
  import opened Machine
  import opened CStrings
  import opened Screens
  import opened Terminals
  import opened Consoles
  import Numbers

  /** "pf exception at " */
  const PF_AT: seq<byte> := [112, 102, 32, 101, 120, 99, 101, 112, 116, 105, 111, 110, 32, 97, 116, 32]

  const COMMA: seq<byte> := [44, 32]

  /** The message up to its line end. */
  function FaultHead(cr2: nat, eec: nat): (r: seq<byte>)
    ensures r != [] && NUL !in r
  {
    Numbers.NumeralDigits(cr2, 16);
    Numbers.NumeralDigits(eec, 16);
    PF_AT + Numbers.Numeral(cr2, 16) + COMMA + Numbers.Numeral(eec, 16)
  }

  function FaultText(cr2: nat, eec: nat): (r: seq<byte>)
    ensures NUL !in r
  {
    FaultHead(cr2, eec) + [LINEFEED]
  }

  /** printf("pf exception at %x, %x\n", cr2, eec) for a process on terminal t, call by call. */
  function FaultBy(c: Console, t: nat, cr2: nat, eec: nat): (r: Console)
    requires Usable(c, t)
    ensures Usable(r, t)
  {
    var at := PrintBy(c, t, PF_AT);
    var first := PutsBy(at, t, Numbers.Numeral(cr2, 16));
    var between := PrintBy(first, t, COMMA);
    var second := PutsBy(between, t, Numbers.Numeral(eec, 16));
    PrintBy(second, t, [LINEFEED])
  }

  /** What the other handlers print, by exception number. */
  function TrapText(vector: nat): seq<byte> {
    match vector
    case 0 => Ascii("divide by zero exception")
    case 1 => Ascii("db exception")
    case 2 => Ascii("nmi exception")
    case 3 => Ascii("bp exception")
    case 4 => Ascii("of exception")
    case 5 => Ascii("br exception")
    case 6 => Ascii("ud exception")
    case 7 => Ascii("nm exception")
    case 8 => Ascii("df exception")
    case 9 => Ascii("co_segment_overrun exception")
    case 10 => Ascii("ts exception")
    case 11 => Ascii("np exception")
    case 12 => Ascii("ss exception")
    case 13 => Ascii("gp exception")
    case 16 => Ascii("mf exception")
    case 17 => Ascii("ac exception")
    case 18 => Ascii("mc exception")
    case 19 => Ascii("xf exception")
    case _ => Ascii("Unknown exception")
  }

  // ----- the calls together

  /** move_csr with the cursor of terminal t. */
  function Moved(c: Console, t: nat): (r: Console)
    requires Usable(c, t)
    ensures Usable(r, t) && r == c.(terms := r.terms, csr := r.csr) && r.terms[t] == c.terms[t]
  {
    MoveCsr(c, c.terms[t].x, c.terms[t].y)
  }

  lemma {:induction false} PutTextConcat(c: Console, t: nat, a: seq<byte>, b: seq<byte>)
    requires Usable(c, t)
    ensures PutText(c, t, a + b) == PutText(PutText(c, t, a), t, b)
    decreases |b|
  {
    hide PutChar, Usable;
    if b == [] {
      assert a + b == a;
    } else {
      PutTextConcat(c, t, a, b[..|b| - 1]);
      assert (a + b)[..|a + b| - 1] == a + b[..|b| - 1];
    }
  }

  /** Printing on terminal t changes t's fields and page, and looks at nothing else of a terminal. */
  lemma {:induction false} PutTextElsewhere(c: Console, c2: Console, t: nat, text: seq<byte>)
    requires Usable(c, t) && Usable(c2, t) && c2 == c.(terms := c2.terms, csr := c2.csr) && c2.terms[t] == c.terms[t]
    ensures var r, r2 := PutText(c, t, text), PutText(c2, t, text);
      && r.terms == c.terms[t := r.terms[t]] && r2 == r.(terms := c2.terms[t := r.terms[t]], csr := c2.csr)
    decreases |text|
  {
    hide Agree, PutBytes;
    if text == [] {
      assert c.terms == c.terms[t := c.terms[t]] && c2.terms == c2.terms[t := c.terms[t]];
    } else {
      PutTextElsewhere(c, c2, t, text[..|text| - 1]);
    }
  }

  /** Two moves count as the last. */
  lemma MovedTwice(p: Console, t: nat, q: Console, text: seq<byte>)
    requires Usable(p, t) && q == PutText(p, t, text)
    ensures Moved(PutText(Moved(p, t), t, text), t) == Moved(q, t)
  {
    hide PutText, Agree;
    PutTextElsewhere(p, Moved(p, t), t, text);
    var r := PutText(Moved(p, t), t, text);
    forall u | 0 <= u < TERMINALS ensures Moved(r, t).terms[u] == Moved(q, t).terms[u] {
    }
  }

  lemma FourCalls(c: Console, t: nat, a: seq<byte>, n: seq<byte>, b: seq<byte>, m: seq<byte>)
    requires Usable(c, t)
    ensures var first := Moved(PutText(PutText(c, t, a), t, n), t);
      Moved(PutText(PutText(first, t, b), t, m), t) == Moved(PutText(c, t, a + n + b + m), t)
  {
    hide PutText, Usable, Moved;
    var p := PutText(c, t, a + n);
    PutTextConcat(c, t, a, n);
    PutTextConcat(Moved(p, t), t, b, m);
    MovedTwice(p, t, PutText(p, t, b + m), b + m);
    PutTextConcat(c, t, a + n, b + m);
    assert a + n + (b + m) == a + n + b + m;
  }

  /** The five calls: all the text on terminal t, and before the line end one move of the displayed
      cursor to t's. */
  lemma FaultIs(c: Console, t: nat, cr2: nat, eec: nat)
    requires Usable(c, t)
    ensures FaultBy(c, t, cr2, eec) == PutText(Moved(PutText(c, t, FaultHead(cr2, eec)), t), t, [LINEFEED])
  {
    hide PutText, Usable, Moved, FaultBy, Numbers.Numeral, Str;
    Plain(cr2, eec);
    FaultCalls(c, t, cr2, eec);
    FourCalls(c, t, PF_AT, Numbers.Numeral(cr2, 16), COMMA, Numbers.Numeral(eec, 16));
  }

  lemma Plain(cr2: nat, eec: nat)
    ensures Str(PF_AT) == PF_AT && Str(COMMA) == COMMA && Str([LINEFEED]) == [LINEFEED]
    ensures Str(Numbers.Numeral(cr2, 16)) == Numbers.Numeral(cr2, 16)
    ensures Str(Numbers.Numeral(eec, 16)) == Numbers.Numeral(eec, 16)
    ensures Str(FaultText(cr2, eec)) == FaultText(cr2, eec)
  {
    Numbers.NumeralDigits(cr2, 16);
    Numbers.NumeralDigits(eec, 16);
    StrOfText(PF_AT);
    StrOfText(COMMA);
    StrOfText([LINEFEED]);
    StrOfText(Numbers.Numeral(cr2, 16));
    StrOfText(Numbers.Numeral(eec, 16));
    StrOfText(FaultText(cr2, eec));
  }

  lemma StrOfText(s: seq<byte>)
    requires NUL !in s
    ensures Str(s) == s
  {
    BeforeNulIs(s, |s|, |s|);
  }

  lemma FaultCalls(c: Console, t: nat, cr2: nat, eec: nat)
    requires Usable(c, t)
    ensures var n, m := Str(Numbers.Numeral(cr2, 16)), Str(Numbers.Numeral(eec, 16));
      var first := Moved(PutText(PutText(c, t, Str(PF_AT)), t, n), t);
      FaultBy(c, t, cr2, eec)
      == PutText(Moved(PutText(PutText(first, t, Str(COMMA)), t, m), t), t, Str([LINEFEED]))
  {
    hide PutText, Usable, Str;
  }

  // ----- what the terminals see of it

  /** Where the handler's second puts leaves terminal t's cursor. */
  function FaultCursor(c: Console, t: nat, cr2: nat, eec: nat): (r: (nat, nat))
    requires Usable(c, t)
    ensures r.0 < COLS && r.1 < ROWS
  {
    CursorAfter(c.terms[t].x, c.terms[t].y, FaultHead(cr2, eec))
  }

  lemma PutTextCursor(c: Console, t: nat, text: seq<byte>)
    requires Usable(c, t)
    ensures var r := PutText(c, t, text).terms[t];
      (r.x, r.y) == CursorAfter(c.terms[t].x, c.terms[t].y, text) && r == c.terms[t].(x := r.x, y := r.y)
  {
    hide PutText, Agree, Cells;
    PutTextProj(c, t, text);
    PutAllCursor(Proj(c, t).screen, text);
    var s := Proj(PutText(c, t, text), t);
  }

  /** The fields of the terminals after the message: t has printed it, and the displayed terminal's
      cursor is where t's was before the line end. */
  lemma FaultTerms(c: Console, t: nat, cr2: nat, eec: nat)
    requires Usable(c, t)
    ensures var r, (x, y) := FaultBy(c, t, cr2, eec), FaultCursor(c, t, cr2, eec);
      && Shaped(r) && r == c.(terms := r.terms, vram := r.vram, csr := COLS * y + x)
      && OnlyPage(c.vram, r.vram, Home(c.cur, t))
      && (forall u | 0 <= u < TERMINALS && u != t && u != c.cur :: r.terms[u] == c.terms[u])
      && (t != c.cur ==> r.terms[c.cur] == c.terms[c.cur].(x := x, y := y))
      && (r.terms[t].x, r.terms[t].y) == CursorAfter(x, y, [LINEFEED])
      && r.terms[t] == c.terms[t].(x := r.terms[t].x, y := r.terms[t].y)
  {
    hide PutText, Agree, Cells, CursorAfter, FaultBy;
    FaultIs(c, t, cr2, eec);
    var p := PutText(c, t, FaultHead(cr2, eec));
    PutTextProj(c, t, FaultHead(cr2, eec));
    PutTextCursor(c, t, FaultHead(cr2, eec));
    PutTextProj(Moved(p, t), t, [LINEFEED]);
    PutTextCursor(Moved(p, t), t, [LINEFEED]);
  }

  /** The message on its own terminal is one write. */
  lemma FaultProj(c: Console, t: nat, cr2: nat, eec: nat)
    requires Usable(c, t)
    ensures Proj(FaultBy(c, t, cr2, eec), t) == Apply(Proj(c, t), Write(FaultText(cr2, eec)))
  {
    hide PutText, Usable, FaultBy, FaultHead, Proj, PutAll, Str, Safe, Moved;
    var head := FaultHead(cr2, eec);
    FaultIs(c, t, cr2, eec);
    Plain(cr2, eec);
    PutTextProj(c, t, head);
    var p := PutText(c, t, head);
    MovedProj(p, t);
    PutTextProj(Moved(p, t), t, [LINEFEED]);
    OnScreenProj(c, t);
    PutAllConcat(Proj(c, t).screen, head, [LINEFEED]);
  }

  lemma OnScreenProj(c: Console, t: nat)
    requires Usable(c, t)
    ensures OnScreen(Proj(c, t).screen)
  {
  }

  lemma MovedProj(c: Console, t: nat)
    requires Usable(c, t)
    ensures Proj(Moved(c, t), t) == Proj(c, t)
  {
    hide Agree;
    BaseIsHome(c, t);
    BaseIsHome(Moved(c, t), t);
  }

  /** The displayed terminal's line stays within reach of Backspace. */
  predicate FaultFits(c: Console, t: nat, cr2: nat, eec: nat)
    requires Usable(c, t)
  {
    var (x, y) := FaultCursor(c, t, cr2, eec);
    t == c.cur || COLS * y + x >= c.terms[c.cur].index
  }

  /** The message leaves every other terminal as it was if and only if its own is displayed or the
      displayed cursor is where the second number ends; it keeps the console good if and only if
      its own is displayed or that is far enough down the screen; and it leaves the hardware cursor
      on the displayed terminal's if and only if its own is hidden or the number ends at the bottom
      left. */
  lemma FaultExact(c: Console, t: nat, cr2: nat, eec: nat)
    requires Good(c) && t < TERMINALS
    ensures var r, (x, y), shown := FaultBy(c, t, cr2, eec), FaultCursor(c, t, cr2, eec), c.terms[c.cur];
      && ((forall u | 0 <= u < TERMINALS && u != t :: r.terms[u] == c.terms[u])
            <==> t == c.cur || (shown.x == x && shown.y == y))
      && (Good(r) <==> FaultFits(c, t, cr2, eec))
      && (CsrShown(r) <==> t != c.cur || (x == 0 && y == ROWS - 1))
  {
    hide FaultBy, FaultCursor, Agree, OnlyPage;
    FaultTerms(c, t, cr2, eec);
    var r := FaultBy(c, t, cr2, eec);
    var (x, y) := FaultCursor(c, t, cr2, eec);
    AgreeKept(c, r);
    FaultGood(c, t, cr2, eec, r);
    LineEndAt(x, y);
  }

  lemma LineEndAt(x: nat, y: nat)
    requires x < COLS && y < ROWS
    ensures CursorAfter(x, y, [LINEFEED]) == (0, if y == ROWS - 1 then y else y + 1)
  {
    assert [LINEFEED][..0] == [];
  }

  lemma FaultGood(c: Console, t: nat, cr2: nat, eec: nat, r: Console)
    requires Good(c) && t < TERMINALS && r == FaultBy(c, t, cr2, eec)
    ensures Good(r) <==> FaultFits(c, t, cr2, eec)
  {
    hide FaultBy, FaultCursor, Agree, OnlyPage, CursorAfter;
    FaultTerms(c, t, cr2, eec);
    assert TermOk(c.terms[c.cur]) && forall u | 0 <= u < TERMINALS :: TermOk(c.terms[u]);
    assert TermOk(r.terms[t]);
    assert t != c.cur ==> (TermOk(r.terms[c.cur]) <==> FaultFits(c, t, cr2, eec));
  }

  /** A text without line ends that fits in its row moves the cursor along the row. */
  lemma {:induction false} RowCursor(x: nat, y: nat, text: seq<byte>)
    requires y < ROWS && x + |text| < COLS && forall i | 0 <= i < |text| :: !Newline(text[i])
    ensures CursorAfter(x, y, text) == (x + |text|, y)
    decreases |text|
  {
    if text != [] {
      RowCursor(x, y, text[..|text| - 1]);
    }
  }

  /** On an empty screen the message ends in the first row, at the latest in column 34. */
  lemma TopRow(c: Console, t: nat, cr2: uint32, eec: uint32)
    requires Usable(c, t) && c.terms[t].x == c.terms[t].y == 0
    ensures FaultCursor(c, t, cr2, eec).0 <= 34 && FaultCursor(c, t, cr2, eec).1 == 0
  {
    var n, m := Numbers.Numeral(cr2, 16), Numbers.Numeral(eec, 16);
    Numbers.EightDigits(cr2);
    Numbers.EightDigits(eec);
    Numbers.NumeralDigits(cr2, 16);
    Numbers.NumeralDigits(eec, 16);
    hide Numbers.Numeral, Usable;
    var head := FaultHead(cr2, eec);
    forall i | 0 <= i < |head| ensures !Newline(head[i]) {
      assert head[i] in PF_AT || head[i] in n || head[i] in COMMA || head[i] in m;
    }
    RowCursor(0, 0, head);
  }

  /** The message reads back: its words, the faulting address and the error code, in this order. */
  lemma FaultReads(cr2: nat, eec: nat)
    ensures var text := FaultText(cr2, eec);
      exists i | 16 <= i <= |text| - 3 ::
        && text[..16] == Ascii("pf exception at ") && text[i..i + 2] == Ascii(", ") && text[|text| - 1] == LINEFEED
        && Numbers.IsNumeral(text[16..i], 16) && Numbers.Parse(text[16..i], 16) == cr2
        && Numbers.IsNumeral(text[i + 2..|text| - 1], 16) && Numbers.Parse(text[i + 2..|text| - 1], 16) == eec
  {
    var n, m := Numbers.Numeral(cr2, 16), Numbers.Numeral(eec, 16);
    Numbers.NumeralParses(cr2, 16);
    Numbers.NumeralParses(eec, 16);
    hide Numbers.Numeral, Numbers.Parse;
    var text, i := FaultText(cr2, eec), 16 + |n|;
    assert text == PF_AT + n + COMMA + m + [LINEFEED];
    assert text[16..i] == n && text[i + 2..|text| - 1] == m;
    Words();
    assert text[..16] == PF_AT && text[i..i + 2] == COMMA;
  }

  lemma Words()
    ensures PF_AT == Ascii("pf exception at ") && COMMA == Ascii(", ")
  {
  }
}
