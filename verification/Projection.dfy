/** Whatever the three terminals' processes, the keyboard and the switching do in whatever order,
    each terminal is what it would be if it were alone. */
module Projection {
  import opened Machine
  import opened CStrings
  import opened Paging
  import opened Screens
  import opened Terminals
  import opened Consoles
  import opened FaultMessages

  /** What happens to the console: a key, a switch key, the system calls of a process on terminal
      t, a kernel message to one, the page fault handler's message to one, a store through terminal
      t's user table, and the scheduler's status colours. */
  datatype Event =
    | Press(key: Op)
    | Switch(term: nat)
    | Wrote(t: nat, text: seq<byte>)
    | Printed(t: nat, text: seq<byte>)
    | Faulted(t: nat, cr2: nat, eec: nat)
    | Got(t: nat, count: nat)
    | Drew(t: nat, offset: nat, value: byte)
    | Status(colours: seq<byte>)

  predicate Enabled(e: Event) {
    match e
    case Press(key) => key.Key? || key.Enter? || key.Backspace? || key.CtrlL?
    case Switch(_) => true
    case Wrote(t, _) => t < TERMINALS
    case Printed(t, _) => t < TERMINALS
    case Faulted(t, _, _) => t < TERMINALS
    case Got(t, _) => t < TERMINALS
    case Drew(t, offset, _) => t < TERMINALS && offset < PAGE
    case Status(colours) => |colours| == MAX_USER_PROG
  }

  /** The event keeps the displayed line within reach of Backspace; only a page fault on a hidden
      terminal may not. */
  predicate Fits(c: Console, e: Event)
    requires Good(c) && Enabled(e)
  {
    e.Faulted? ==> FaultFits(c, e.t, e.cr2, e.eec)
  }

  /** A byte stored through entry 0 of terminal t's user table. */
  function Draw(c: Console, t: nat, offset: nat, value: byte): (r: Console)
    requires Good(c) && t < TERMINALS && offset < PAGE
    ensures Shaped(r)
  {
    UserPage(c, t);
    c.(vram := c.vram[PageOf(c.userTables[t][0]) - VIDEO + offset := value])
  }

  /** The page behind entry 0 of terminal t's user table is the page behind its video_mem. */
  lemma UserPage(c: Console, t: nat)
    requires Shaped(c) && Agree(c) && t < TERMINALS
    ensures PageOf(c.userTables[t][0]) == PageOf(c.table[VideoMem(t) / PAGE]) == VIDEO + Home(c.cur, t)
    ensures Home(c.cur, t) + PAGE <= VRAM
  {
    hide UserEntry;
    BaseIsHome(c, t);
    assert MapsOnly(c.userTables[t], VIDEO + Home(c.cur, t));
    EntryPages(VIDEO + Home(c.cur, t));
  }

  function Happens(c: Console, e: Event): (r: Console)
    requires Good(c) && Enabled(e)
    ensures Shaped(r)
  {
    match e
    case Press(key) => OnKey(c, key)
    case Switch(t) => SwitchTo(c, t)
    case Wrote(t, text) => WriteBy(c, t, text)
    case Printed(t, text) => PrintBy(c, t, text)
    case Faulted(t, cr2, eec) => FaultBy(c, t, cr2, eec)
    case Got(t, count) => ReadBy(c, t, count)
    case Drew(t, offset, value) => Draw(c, t, offset, value)
    case Status(colours) => ShowStatus(c, colours)
  }

  // ----- who an event is for

  function Reroute(cur: nat, e: Event): nat {
    if e.Switch? && e.term < TERMINALS then e.term else cur
  }

  /** The terminal an event is for, and what it does there, while `cur` is displayed. */
  function Aim(cur: nat, e: Event): Option<(nat, Op)> {
    match e
    case Press(key) => Some((cur, key))
    case Wrote(t, text) => Some((t, Write(text)))
    case Printed(t, text) => Some((t, Write(text)))
    case Faulted(t, cr2, eec) => Some((t, Write(FaultText(cr2, eec))))
    case Got(t, count) => Some((t, Read(count)))
    case Drew(t, offset, value) => Some((t, Op.Draw(offset, value)))
    case Switch(_) => None
    case Status(_) => None
  }

  /** What an event aimed elsewhere does to the displayed terminal: a page fault on a hidden
      terminal moves its cursor. */
  function Side(c: Console, e: Event): Option<Op>
    requires Good(c) && Enabled(e)
  {
    if e.Faulted? && e.t != c.cur then
      var (x, y) := FaultCursor(c, e.t, e.cr2, e.eec);
      Some(Jump(x, y))
    else None
  }

  /** What an event does to terminal t. */
  function OpOn(c: Console, e: Event, t: nat): Option<Op>
    requires Good(c) && Enabled(e)
  {
    var aim := Aim(c.cur, e);
    if aim.Some? && aim.value.0 == t then Some(aim.value.1) else if t == c.cur then Side(c, e) else None
  }

  // ----- one event

  lemma DrawProj(c: Console, t: nat, offset: nat, value: byte)
    requires Good(c) && t < TERMINALS && offset < PAGE
    ensures var r := Draw(c, t, offset, value);
      Only(c, r, t) && Good(r) && Proj(r, t) == Apply(Proj(c, t), Op.Draw(offset, value))
  {
    UserPage(c, t);
    BaseIsHome(c, t);
    var r, base := Draw(c, t, offset, value), Home(c.cur, t);
    assert r == c.(vram := c.vram[base + offset := value]);
    hide Draw, Agree, Cells;
    AgreeKept(c, r);
    BaseIsHome(r, t);
    DrawCells(c.vram, base, offset, value);
  }

  lemma DrawCells(vram: seq<byte>, base: nat, offset: nat, value: byte)
    requires base + PAGE <= |vram| && offset < PAGE
    ensures Cells(vram[base + offset := value], base) == if offset % 2 == 0 && offset / 2 < CELLS
      then Cells(vram, base)[offset / 2 := value] else Cells(vram, base)
  {
  }

  /** An event aimed at terminal t does there what its operation does to t alone. */
  lemma AimedProj(c: Console, e: Event)
    requires Good(c) && Enabled(e) && Aim(c.cur, e).Some? && !e.Faulted?
    ensures var (t, op) := Aim(c.cur, e).value;
      var c' := Happens(c, e);
      t < TERMINALS && Only(c, c', t) && Good(c') && Proj(c', t) == Apply(Proj(c, t), op)
  {
    hide Proj, Apply, Agree;
    match e
    case Press(key) =>
      match key {
        case Key(ch) => CharKey(c, ch);
        case Enter => EnterKey(c);
        case Backspace => BackspaceKey(c);
        case CtrlL => CtrlLKey(c);
      }
    case Wrote(t, text) => WriteProj(c, t, text);
    case Printed(t, text) => PrintProj(c, t, text);
    case Got(t, count) => ReadProj(c, t, count);
    case Drew(t, offset, value) => DrawProj(c, t, offset, value);
  }

  /** A page fault prints on its own terminal, and moves the displayed cursor if that is another. */
  lemma FaultedProj(c: Console, e: Event, t: nat)
    requires Good(c) && Enabled(e) && e.Faulted? && Fits(c, e) && t < TERMINALS
    ensures var c', op := Happens(c, e), OpOn(c, e, t);
      && Good(c') && c'.cur == c.cur
      && Proj(c', t) == if op.Some? then Apply(Proj(c, t), op.value) else Proj(c, t)
  {
    hide FaultBy, FaultCursor, Agree, Cells, FaultText, CursorAfter;
    var u, r := e.t, Happens(c, e);
    FaultTerms(c, u, e.cr2, e.eec);
    FaultGood(c, u, e.cr2, e.eec, r);
    FaultProj(c, u, e.cr2, e.eec);
    if t != u {
      BaseIsHome(c, u);
      BaseIsHome(c, t);
      BaseIsHome(r, t);
      OtherCells(c.vram, r.vram, Home(c.cur, u), Home(c.cur, t));
    }
  }

  /** Events aimed at no terminal leave every one as it was. */
  lemma UnaimedProj(c: Console, e: Event, t: nat)
    requires Good(c) && Enabled(e) && Aim(c.cur, e).None? && t < TERMINALS
    ensures var c' := Happens(c, e); Good(c') && Proj(c', t) == Proj(c, t)
  {
    match e
    case Switch(u) => SwitchProj(c, u, t);
    case Status(colours) => StatusProj(c, colours, t);
  }

  /** One event: each terminal takes the step the event has for it, if any. */
  lemma EventProj(c: Console, e: Event, t: nat)
    requires Good(c) && Enabled(e) && Fits(c, e) && t < TERMINALS
    ensures var c', op := Happens(c, e), OpOn(c, e, t);
      && Good(c') && c'.cur == Reroute(c.cur, e)
      && Proj(c', t) == if op.Some? then Apply(Proj(c, t), op.value) else Proj(c, t)
  {
    EventKeepsGood(c, e);
    hide Proj, Apply, Happens, Agree, Fits;
    if e.Faulted? {
      FaultedProj(c, e, t);
    } else if Aim(c.cur, e).Some? {
      AimedProj(c, e);
      var u := Aim(c.cur, e).value.0;
      if u != t {
        OthersKept(c, Happens(c, e), u, t);
      }
    } else {
      UnaimedProj(c, e, t);
    }
  }

  /** An event keeps the console good if and only if it fits. */
  lemma EventKeepsGood(c: Console, e: Event)
    requires Good(c) && Enabled(e)
    ensures Good(Happens(c, e)) <==> Fits(c, e)
    ensures Happens(c, e).cur == Reroute(c.cur, e)
  {
    hide Proj, Apply, Agree;
    if e.Faulted? {
      FaultGood(c, e.t, e.cr2, e.eec, Happens(c, e));
      FaultTerms(c, e.t, e.cr2, e.eec);
    } else if Aim(c.cur, e).Some? {
      AimedProj(c, e);
    } else {
      UnaimedProj(c, e, 0);
      if e.Switch? && e.term < TERMINALS && e.term != c.cur {
        SwitchAgrees(c, e.term);
      }
    }
  }

  // ----- every run

  /** Events that can happen one after the other, each of them fitting. */
  ghost predicate Legal(c: Console, es: seq<Event>)
    requires Good(c)
    decreases |es|, 0
  {
    es == [] ||
    (var pre, e := es[..|es| - 1], es[|es| - 1];
     Legal(c, pre) && Enabled(e) && Fits(Run(c, pre), e))
  }

  ghost function Run(c: Console, es: seq<Event>): (c': Console)
    requires Good(c) && Legal(c, es)
    ensures Good(c')
    decreases |es|, 1
  {
    if es == [] then c
    else
      var pre, e := es[..|es| - 1], es[|es| - 1];
      EventKeepsGood(Run(c, pre), e);
      Happens(Run(c, pre), e)
  }

  /** What the events do to terminal t, in order, and nothing else. */
  ghost function OpsFor(c: Console, es: seq<Event>, t: nat): seq<Op>
    requires Good(c) && Legal(c, es)
  {
    if es == [] then []
    else
      var pre := es[..|es| - 1];
      var op := OpOn(Run(c, pre), es[|es| - 1], t);
      OpsFor(c, pre, t) + if op.Some? then [op.value] else []
  }

  lemma RunSnoc(c: Console, pre: seq<Event>, e: Event)
    requires Good(c) && Legal(c, pre) && Enabled(e) && Fits(Run(c, pre), e)
    ensures Legal(c, pre + [e]) && Run(c, pre + [e]) == Happens(Run(c, pre), e)
    ensures forall t :: var op := OpOn(Run(c, pre), e, t);
      OpsFor(c, pre + [e], t) == OpsFor(c, pre, t) + if op.Some? then [op.value] else []
  {
    assert (pre + [e])[..|pre|] == pre;
  }

  /** After any events each terminal's screen, cursor and line are those of a terminal that saw
      only its own, and the moves of its cursor by page faults on hidden terminals while it was
      displayed: the shared display page and the remapping cannot be observed. */
  lemma {:induction false} TerminalsAreIndependent(c: Console, es: seq<Event>, t: nat)
    requires Good(c) && Legal(c, es) && t < TERMINALS
    ensures Proj(Run(c, es), t) == ApplyAll(Proj(c, t), OpsFor(c, es, t))
    decreases |es|
  {
    hide Proj, Apply, Happens, OpOn, Good;
    if es != [] {
      var pre, e := es[..|es| - 1], es[|es| - 1];
      TerminalsAreIndependent(c, pre, t);
      EventProj(Run(c, pre), e, t);
      var before := OpsFor(c, pre, t);
      var op := OpOn(Run(c, pre), e, t);
      if op.Some? {
        assert (before + [op.value])[..|before|] == before;
      } else {
        assert OpsFor(c, es, t) == before;
      }
    }
  }

  /** In every reachable state the kernel page and the user page of each terminal are the same
      physical page, the display exactly for the displayed terminal, and different terminals have
      different pages. */
  lemma MappingsAgree(c: Console, es: seq<Event>, t: nat, u: nat)
    requires Good(c) && Legal(c, es) && t < TERMINALS && u < TERMINALS
    ensures var c' := Run(c, es);
      && PageOf(c'.table[VideoMem(t) / PAGE]) == PageOf(c'.userTables[t][0])
      && (PageOf(c'.userTables[t][0]) == VIDEO <==> t == c'.cur)
      && (PageOf(c'.userTables[t][0]) == PageOf(c'.userTables[u][0]) <==> t == u)
  {
    UserPage(Run(c, es), t);
    UserPage(Run(c, es), u);
  }

  // ----- the hardware cursor

  /** The event moves the hardware cursor to the displayed terminal's; a page fault on the displayed
      terminal does so before the end of its line. */
  predicate Syncs(c: Console, e: Event)
    requires Shaped(c)
  {
    match e
    case Press(key) => Acts(c, key)
    case Switch(t) => t < TERMINALS && t != c.cur
    case Wrote(t, _) => t == c.cur
    case Faulted(_, _, _) => true
    case _ => false
  }

  /** What is printed on the displayed terminal behind that. */
  function Left(c: Console, e: Event): seq<byte> {
    if e.Faulted? && e.t == c.cur then [LINEFEED] else []
  }

  /** What the kernel has printed on the displayed terminal since the last move_csr. */
  ghost function Pending(c: Console, es: seq<Event>): seq<byte>
    requires Good(c) && Legal(c, es)
  {
    if es == [] then []
    else
      var pre, e := es[..|es| - 1], es[|es| - 1];
      var before := Run(c, pre);
      if Syncs(before, e) then Left(before, e)
      else if e.Printed? && e.t == before.cur then Pending(c, pre) + Str(e.text)
      else Pending(c, pre)
  }

  lemma SyncMoves(c: Console, e: Event)
    requires Good(c) && Enabled(e) && Syncs(c, e) && Fits(c, e)
    ensures var c' := Happens(c, e);
      && Shaped(c') && c'.csr < CELLS
      && (c'.terms[c'.cur].x, c'.terms[c'.cur].y) == CursorAfter(c'.csr % COLS, c'.csr / COLS, Left(c, e))
  {
    hide Happens, Agree, Fits, CursorAfter;
    EventKeepsGood(c, e);
    if e.Faulted? {
      FaultSyncs(c, e);
    } else {
      SyncShows(c, e);
      ShownSplits(Happens(c, e));
    }
  }

  lemma FaultSyncs(c: Console, e: Event)
    requires Good(c) && Enabled(e) && e.Faulted?
    ensures var c' := Happens(c, e);
      && Shaped(c') && c'.csr < CELLS
      && (c'.terms[c'.cur].x, c'.terms[c'.cur].y) == CursorAfter(c'.csr % COLS, c'.csr / COLS, Left(c, e))
  {
    hide FaultBy, FaultCursor, Agree, OnlyPage;
    FaultTerms(c, e.t, e.cr2, e.eec);
    var (x, y) := FaultCursor(c, e.t, e.cr2, e.eec);
    DivModIs(COLS * y + x, COLS, y, x);
  }

  lemma SyncShows(c: Console, e: Event)
    requires Good(c) && Enabled(e) && Syncs(c, e) && !e.Faulted?
    ensures CsrShown(Happens(c, e))
  {
    hide Proj, Apply, Agree, Only;
    match e
    case Press(key) =>
      match key {
        case Key(ch) => CharKey(c, ch);
        case Enter => EnterKey(c);
        case Backspace => BackspaceKey(c);
        case CtrlL => CtrlLKey(c);
      }
    case Switch(t) => SwitchAgrees(c, t);
    case Wrote(t, text) => WriteProj(c, t, text);
  }

  /** Without a move_csr the hardware cursor stays, and the displayed terminal's moves only under a
      kernel message. */
  lemma NoSyncKeeps(c: Console, e: Event)
    requires Good(c) && Enabled(e) && !Syncs(c, e)
    ensures var c' := Happens(c, e);
      && c'.cur == c.cur && c'.csr == c.csr
      && (c'.terms[c.cur].x, c'.terms[c.cur].y) ==
           if e.Printed? && e.t == c.cur then CursorAfter(c.terms[c.cur].x, c.terms[c.cur].y, Str(e.text))
           else (c.terms[c.cur].x, c.terms[c.cur].y)
  {
    hide Apply, Agree, Cells, PutText;
    match e
    case Press(key) =>
      match key {
        case Key(ch) => CharKey(c, ch);
        case Backspace => BackspaceKey(c);
      }
    case Wrote(t, text) => WriteProj(c, t, text);
    case Printed(t, text) =>
      PutTextProj(c, t, Str(text));
      PutAllCursor(Proj(c, t).screen, Str(text));
    case _ =>
  }

  /** The displayed terminal's cursor is where the pending kernel messages take it from the
      hardware cursor. */
  lemma {:induction false} CursorLag(c: Console, es: seq<Event>)
    requires Good(c) && Legal(c, es) && CsrShown(c)
    ensures var c' := Run(c, es);
      && c'.csr < CELLS
      && (c'.terms[c'.cur].x, c'.terms[c'.cur].y) == CursorAfter(c'.csr % COLS, c'.csr / COLS, Pending(c, es))
    decreases |es|
  {
    hide Happens, Agree, CursorAfter, Str;
    if es == [] {
      ShownSplits(c);
    } else {
      var pre, e := es[..|es| - 1], es[|es| - 1];
      var before := Run(c, pre);
      CursorLag(c, pre);
      if Syncs(before, e) {
        SyncMoves(before, e);
      } else {
        NoSyncKeeps(before, e);
        if e.Printed? && e.t == before.cur {
          CursorConcat(before.csr % COLS, before.csr / COLS, Pending(c, pre), Str(e.text));
        }
      }
    }
  }

  lemma ShownSplits(c: Console)
    requires Good(c) && CsrShown(c)
    ensures c.csr < CELLS
    ensures (c.terms[c.cur].x, c.terms[c.cur].y) == CursorAfter(c.csr % COLS, c.csr / COLS, [])
  {
    assert TermOk(c.terms[c.cur]);
    DivModIs(c.csr, COLS, c.terms[c.cur].y, c.terms[c.cur].x);
  }

  /** In every reachable state the hardware cursor is the displayed terminal's if and only if no
      kernel message is pending, or the last move_csr was to the last row and the messages since
      end in the same column. */
  lemma CursorExact(c: Console, es: seq<Event>)
    requires Good(c) && Legal(c, es) && CsrShown(c)
    ensures var c' := Run(c, es);
      CsrShown(c') <==>
        Pending(c, es) == [] || (c'.csr / COLS == ROWS - 1 && c'.terms[c'.cur].x == c'.csr % COLS)
  {
    hide Pending, Agree;
    var c' := Run(c, es);
    CursorLag(c, es);
    CursorReturns(c'.csr % COLS, c'.csr / COLS, Pending(c, es));
    assert TermOk(c'.terms[c'.cur]);
    if CsrShown(c') {
      DivModIs(c'.csr, COLS, c'.terms[c'.cur].y, c'.terms[c'.cur].x);
    }
  }

  /** "Max processes used.", printed by execute when the table is full. */
  const FULL_MESSAGE: seq<byte> :=
    [77, 97, 120, 32, 112, 114, 111, 99, 101, 115, 115, 101, 115, 32, 117, 115, 101, 100, 46, 10]

  lemma FullMessageText()
    ensures FULL_MESSAGE == Ascii("Max processes used.\n")
  {
    hide Ascii;
    var text := "Max processes used.\n";
    forall i | 0 <= i < |text| ensures FULL_MESSAGE[i] == Ascii(text)[i] {
      AsciiAt(text, i);
      assert i == 0 || i == 1 || i == 2 || i == 3 || i == 4 || i == 5 || i == 6 || i == 7 || i == 8 || i == 9 || i == 10
        || i == 11 || i == 12 || i == 13 || i == 14 || i == 15 || i == 16 || i == 17 || i == 18 || i == 19;
    }
  }

  lemma FullMessageIs()
    ensures Str(FULL_MESSAGE) == FULL_MESSAGE
  {
    BeforeNulIs(FULL_MESSAGE, |FULL_MESSAGE|, |FULL_MESSAGE|);
  }

  /** The message on the displayed terminal leaves the hardware cursor behind, unless that was at
      the bottom left. */
  lemma MessageLags(c: Console)
    requires Good(c) && CsrShown(c)
    ensures Legal(c, [Printed(c.cur, FULL_MESSAGE)])
    ensures CsrShown(Run(c, [Printed(c.cur, FULL_MESSAGE)])) <==> c.csr == COLS * (ROWS - 1)
  {
    var es := [Printed(c.cur, FULL_MESSAGE)];
    assert es[..0] == [];
    assert Legal(c, []);
    FullMessageIs();
    assert Pending(c, es) == FULL_MESSAGE;
    CursorExact(c, es);
    CursorLag(c, es);
    MessageEndsLine(c.csr % COLS, c.csr / COLS, []);
    NoSyncKeeps(c, es[0]);
  }

  /** After the message the cursor is in column 0. */
  lemma MessageEndsLine(x: nat, y: nat, before: seq<byte>)
    requires x < COLS && y < ROWS
    ensures CursorAfter(x, y, before + FULL_MESSAGE).0 == 0
  {
    var text := before + FULL_MESSAGE;
    assert text[|text| - 1] == LINEFEED;
  }

  // ----- layout and lines on the console

  /** What a terminal on this console shows after Ctrl-L and any writes, whatever happens to the
      other terminals in between and however often it is switched away. */
  lemma LayoutOnConsole(c: Console, es: seq<Event>, t: nat, writes: seq<Op>)
    requires Good(c) && Legal(c, es) && t < TERMINALS
    requires OpsFor(c, es, t) == [CtrlL] + writes && Writing(writes)
    ensures Proj(Run(c, es), t).screen == Shown(RowsOf(Texts(writes)))
  {
    TerminalsAreIndependent(c, es, t);
    WritesAfterClear(Proj(c, t), writes);
  }

  /** The same with what is typed between the writes, as long as no key scrolls twice. */
  lemma EchoOnConsole(c: Console, es: seq<Event>, t: nat, ops: seq<Op>)
    requires Good(c) && Legal(c, es) && t < TERMINALS
    requires OpsFor(c, es, t) == [CtrlL] + ops && Echoes(PressCtrlL(Proj(c, t)), ops)
    ensures Proj(Run(c, es), t).screen == Shown(RowsOf(PrintsAll(ops)))
  {
    TerminalsAreIndependent(c, es, t);
    ApplyFrom(Proj(c, t), CtrlL, ops);
    EchoAfterClear(Proj(c, t), ops);
  }

  /** A line typed on a terminal reaches the process that reads it there, edited as if the
      terminal were alone. */
  lemma LineOnConsole(c: Console, es: seq<Event>, t: nat, ops: seq<Op>, count: nat)
    requires Good(c) && Legal(c, es) && t < TERMINALS
    requires c.terms[t].index == 0 && Typing(ops) && OpsFor(c, es, t) == ops + [Enter]
    ensures var line, m := Edited(ops) + [LINEFEED], Run(c, es).terms[t];
      && !m.typing && Min(count, m.index + 1) == Min(count, |line|)
      && m.buffer[..Min(count, m.index + 1)] == line[..Min(count, |line|)]
  {
    hide Run, OpsFor, ApplyAll, Edited, Cells, Happens;
    TerminalsAreIndependent(c, es, t);
    var p := Proj(Run(c, es), t);
    assert p.buffer == Run(c, es).terms[t].buffer && p.index == Run(c, es).terms[t].index;
    LineEntered(Proj(c, t), ops, count, p);
  }

  lemma LineEntered(tty: Tty, ops: seq<Op>, count: nat, p: Tty)
    requires Safe(tty) && tty.index == 0 && Typing(ops) && p == ApplyAll(tty, ops + [Enter])
    ensures var line := Edited(ops) + [LINEFEED];
      && !p.typing && Min(count, p.index + 1) == Min(count, |line|)
      && p.buffer[..Min(count, p.index + 1)] == line[..Min(count, |line|)]
  {
    assert (ops + [Enter])[..|ops|] == ops;
    LineDiscipline(tty, ops, count);
    BufferHoldsEdited(tty, ops);
  }
}
