/** Three terminals on one display: video memory byte by byte, the page tables that say where
    each terminal's screen lies, and the hardware cursor (keyboard.c, lib.c, paging.c). */
module Consoles {
  import opened Machine
  import opened CStrings
  import opened Paging
  import opened Screens
  import opened Terminals

  const VIDEO := 0xB8000
  const VIDEO_PTE := 0xB8
  const VRAM := 16384        // the display page and the three backing pages behind it
  const ATTRIB: byte := 7
  const KERNEL_PAGE := FLAG_WRITE_ENABLE + FLAG_PRESENT
  const USER_PAGE := FLAG_WRITE_ENABLE + FLAG_PRESENT + FLAG_USER

  /** terminal_t without its screen and its command history. */
  datatype Term = Term(x: nat, y: nat, buffer: seq<byte>, index: nat, typing: bool)

  /** `table` is video_page_table, `userTables` term_video_tables, `vram` physical memory from
      VIDEO on, `csr` the hardware cursor. */
  datatype Console = Console(cur: nat, terms: seq<Term>, table: seq<nat>, userTables: seq<seq<nat>>,
                             vram: seq<byte>, csr: nat)

  predicate Shaped(c: Console) {
    && c.cur < TERMINALS && |c.terms| == TERMINALS && |c.table| == ENTRIES
    && |c.userTables| == TERMINALS && (forall t | 0 <= t < TERMINALS :: |c.userTables[t]| == ENTRIES)
    && |c.vram| == VRAM
  }

  /** The video_mem address of a terminal. */
  function VideoMem(t: nat): nat {
    VIDEO + PAGE * (t + 1)
  }

  /** Where terminal t's video_mem page really lies, as an offset into video memory. */
  function Base(c: Console, t: nat): int
    requires Shaped(c) && t < TERMINALS
  {
    PageOf(c.table[VideoMem(t) / PAGE]) - VIDEO
  }

  /** The page that is terminal t's screen: the display if t is displayed, else its own. */
  function Home(cur: nat, t: nat): nat {
    if t == cur then 0 else PAGE * (t + 1)
  }

  // ----- bytes of a screen page

  /** The characters of the screen that starts at `base`: its even bytes. */
  function Cells(vram: seq<byte>, base: nat): (r: seq<byte>)
    requires base + PAGE <= |vram|
    ensures |r| == CELLS && forall i | 0 <= i < CELLS :: r[i] == vram[base + 2 * i]
  {
    seq(CELLS, i requires 0 <= i < CELLS => vram[base + 2 * i])
  }

  function StoreCell(vram: seq<byte>, base: nat, i: nat, ch: byte): (r: seq<byte>)
    requires base + PAGE <= |vram| && i < CELLS
    ensures |r| == |vram|
  {
    vram[base + 2 * i := ch][base + 2 * i + 1 := ATTRIB]
  }

  /** The page after term_scroll: characters one row up, a blank last row, plain attributes. */
  function ScrollPage(vram: seq<byte>, base: nat): (r: seq<byte>)
    requires base + PAGE <= |vram|
    ensures |r| == |vram|
  {
    seq(|vram|, j requires 0 <= j < |vram| =>
      if j < base || j >= base + 2 * CELLS then vram[j]
      else if (j - base) % 2 == 1 then ATTRIB
      else if j < base + 2 * (CELLS - COLS) then vram[j + 2 * COLS]
      else SPACE)
  }

  function ClearPage(vram: seq<byte>, base: nat): (r: seq<byte>)
    requires base + PAGE <= |vram|
    ensures |r| == |vram|
  {
    seq(|vram|, j requires 0 <= j < |vram| =>
      if j < base || j >= base + 2 * CELLS then vram[j]
      else if (j - base) % 2 == 1 then ATTRIB
      else SPACE)
  }

  function CopyPage(vram: seq<byte>, dst: nat, src: nat): (r: seq<byte>)
    requires dst + PAGE <= |vram| && src + PAGE <= |vram|
    ensures |r| == |vram|
  {
    seq(|vram|, j requires 0 <= j < |vram| => if dst <= j < dst + PAGE then vram[src + (j - dst)] else vram[j])
  }

  /** Outside the 4096 bytes at `base` nothing differs. */
  ghost predicate OnlyPage(vram: seq<byte>, vram': seq<byte>, base: nat) {
    |vram'| == |vram| && forall j | 0 <= j < |vram| && !(base <= j < base + PAGE) :: vram'[j] == vram[j]
  }

  lemma StoreCellCells(vram: seq<byte>, base: nat, i: nat, ch: byte)
    requires base + PAGE <= |vram| && i < CELLS
    ensures Cells(StoreCell(vram, base, i, ch), base) == Cells(vram, base)[i := ch]
    ensures OnlyPage(vram, StoreCell(vram, base, i, ch), base)
  {
  }

  lemma ScrollPageCells(vram: seq<byte>, base: nat)
    requires base + PAGE <= |vram|
    ensures Cells(ScrollPage(vram, base), base) == Scrolled(Cells(vram, base))
    ensures OnlyPage(vram, ScrollPage(vram, base), base)
  {
  }

  lemma ClearPageCells(vram: seq<byte>, base: nat)
    requires base + PAGE <= |vram|
    ensures Cells(ClearPage(vram, base), base) == Blank().cells
    ensures forall i | 0 <= i < CELLS :: ClearPage(vram, base)[base + 2 * i + 1] == 0x07
    ensures OnlyPage(vram, ClearPage(vram, base), base)
  {
  }

  lemma OtherCells(vram: seq<byte>, vram': seq<byte>, base: nat, other: nat)
    requires base + PAGE <= |vram| && other + PAGE <= |vram| && OnlyPage(vram, vram', base)
    requires other + PAGE <= base || base + PAGE <= other
    ensures Cells(vram', other) == Cells(vram, other)
  {
  }

  lemma CopyPageCells(vram: seq<byte>, dst: nat, src: nat)
    requires dst + PAGE <= |vram| && src + PAGE <= |vram|
    ensures Cells(CopyPage(vram, dst, src), dst) == Cells(vram, src)
    ensures OnlyPage(vram, CopyPage(vram, dst, src), dst)
  {
  }

  // ----- the mapping

  function KernelEntry(addr: nat): nat {
    Or(addr, KERNEL_PAGE)
  }

  function UserEntry(addr: nat): nat {
    Or(addr, USER_PAGE)
  }

  /** A program reaches the page at `addr` through entry 0 of the table, and nothing through the
      others. */
  predicate MapsOnly(table: seq<nat>, addr: nat) {
    |table| == ENTRIES && table[0] == UserEntry(addr) && forall i | 1 <= i < ENTRIES :: table[i] == 0
  }

  /** Of the first 4MB the kernel has the display page and the three pages behind it mapped. */
  predicate KernelMaps(table: seq<nat>) {
    && |table| == ENTRIES
    && forall i | 0 <= i < ENTRIES :: table[i] % 2 == 1 <==> VIDEO_PTE <= i <= VIDEO_PTE + TERMINALS
  }

  /** Kernel page VIDEO + 4096(t + 1) and entry 0 of terminal t's user table name the same
      physical page, which is the display exactly when t is displayed. */
  predicate Agree(c: Console)
    requires Shaped(c)
  {
    && KernelMaps(c.table) && PageOf(c.table[VIDEO_PTE]) == VIDEO
    && forall t | 0 <= t < TERMINALS ::
         && PageOf(c.table[VIDEO_PTE + 1 + t]) == VIDEO + Home(c.cur, t)
         && MapsOnly(c.userTables[t], VIDEO + Home(c.cur, t))
  }

  predicate TermOk(t: Term) {
    && t.x < COLS && t.y < ROWS
    && |t.buffer| == LINE_BUF_SIZE && t.index <= MAX_BUF_INDEX
    && COLS * t.y + t.x >= t.index
  }

  predicate Good(c: Console) {
    Shaped(c) && Agree(c) && forall t | 0 <= t < TERMINALS :: TermOk(c.terms[t])
  }

  /** What printing on terminal t needs. */
  predicate Usable(c: Console, t: nat) {
    Shaped(c) && Agree(c) && t < TERMINALS && TermOk(c.terms[t])
  }

  /** The hardware cursor blinks where the displayed terminal will print next. */
  predicate CsrShown(c: Console)
    requires Shaped(c)
  {
    c.csr == COLS * c.terms[c.cur].y + c.terms[c.cur].x
  }

  lemma AgreeKept(c: Console, c': Console)
    requires Shaped(c) && Shaped(c') && Agree(c) && c' == c.(terms := c'.terms, vram := c'.vram, csr := c'.csr)
    ensures Agree(c')
  {
  }

  lemma BaseIsHome(c: Console, t: nat)
    requires Shaped(c) && Agree(c) && t < TERMINALS
    ensures Base(c, t) == Home(c.cur, t)
    ensures Home(c.cur, t) + PAGE <= VRAM
    ensures forall u | 0 <= u < TERMINALS && u != t ::
      Home(c.cur, u) + PAGE <= Home(c.cur, t) || Home(c.cur, t) + PAGE <= Home(c.cur, u)
  {
    assert VideoMem(t) / PAGE == VIDEO_PTE + 1 + t;
  }

  /** Terminal t as it would be on its own: its characters wherever they lie, its cursor, its line. */
  function Proj(c: Console, t: nat): (r: Tty)
    requires Usable(c, t)
    ensures Safe(r)
  {
    BaseIsHome(c, t);
    var m := c.terms[t];
    Tty(Screen(Cells(c.vram, Base(c, t)), m.x, m.y), m.buffer, m.index, m.typing)
  }

  /** c' is c with terminal t's own fields and screen page possibly changed. */
  ghost predicate Only(c: Console, c': Console, t: nat)
    requires Shaped(c) && t < TERMINALS
  {
    && Shaped(c')
    && c' == c.(terms := c'.terms, vram := c'.vram, csr := c'.csr)
    && OnlyPage(c.vram, c'.vram, Home(c.cur, t))
    && forall u | 0 <= u < TERMINALS && u != t :: c'.terms[u] == c.terms[u]
  }

  /** Changes confined to one terminal leave the others as they were. */
  lemma OthersKept(c: Console, c': Console, t: nat, u: nat)
    requires Usable(c, u) && Usable(c', u) && t < TERMINALS && u != t && Only(c, c', t)
    ensures Proj(c', u) == Proj(c, u)
  {
    BaseIsHome(c, t);
    BaseIsHome(c, u);
    BaseIsHome(c', u);
    OtherCells(c.vram, c'.vram, Home(c.cur, t), Home(c.cur, u));
  }

  // ----- term_putc and move_csr

  /** One character printed at (x, y) of the page at `base`: the memory and the new cursor. */
  function PutBytes(vram: seq<byte>, base: nat, x: nat, y: nat, ch: byte): (r: (seq<byte>, nat, nat))
    requires base + PAGE <= |vram| && x < COLS && y < ROWS
    ensures |r.0| == |vram| && r.1 < COLS && r.2 < ROWS
  {
    var stored := if Newline(ch) then vram else StoreCell(vram, base, COLS * y + x, ch);
    var x' := if Newline(ch) then 0 else (x + 1) % COLS;
    var y' := if Newline(ch) then y + 1 else y + (x + 1) / COLS;
    if y' == ROWS then (ScrollPage(stored, base), x', y' - 1) else (stored, x', y')
  }

  lemma PutBytesCells(vram: seq<byte>, base: nat, x: nat, y: nat, ch: byte)
    requires base + PAGE <= |vram| && x < COLS && y < ROWS
    ensures var (vram', x', y') := PutBytes(vram, base, x, y, ch);
      && OnlyPage(vram, vram', base)
      && Screen(Cells(vram', base), x', y') == Put(Screen(Cells(vram, base), x, y), ch)
  {
    hide StoreCell, ScrollPage, Cells;
    var stored := if Newline(ch) then vram else StoreCell(vram, base, COLS * y + x, ch);
    StoreCellCells(vram, base, COLS * y + x, ch);
    ScrollPageCells(stored, base);
  }

  /** Printing uses plain attributes: the cell it writes gets them, or if it scrolls the whole page, and
      every other attribute stays. */
  lemma PutAttributes(vram: seq<byte>, base: nat, x: nat, y: nat, ch: byte, i: nat)
    requires base + PAGE <= |vram| && x < COLS && y < ROWS && i < CELLS
    ensures var (vram', x', y') := PutBytes(vram, base, x, y, ch);
      var scrolled := y == ROWS - 1 && (Newline(ch) || x == COLS - 1);
      vram'[base + 2 * i + 1] ==
        if scrolled || (!Newline(ch) && i == COLS * y + x) then 0x07 else vram[base + 2 * i + 1]
  {
  }

  /** term_putc (and putc, for the process's own terminal); the hardware cursor stays behind. */
  function PutChar(c: Console, t: nat, ch: byte): (r: Console)
    requires Usable(c, t)
    ensures Shaped(r) && r == c.(terms := r.terms, vram := r.vram)
  {
    BaseIsHome(c, t);
    var m := c.terms[t];
    var (vram, x, y) := PutBytes(c.vram, Base(c, t), m.x, m.y, ch);
    c.(terms := c.terms[t := m.(x := x, y := y)], vram := vram)
  }

  /** move_csr writes the displayed terminal's cursor and the hardware's. */
  function MoveCsr(c: Console, x: nat, y: nat): (r: Console)
    requires Shaped(c)
    ensures Shaped(r)
  {
    c.(terms := c.terms[c.cur := c.terms[c.cur].(x := x, y := y)], csr := COLS * y + x)
  }

  /** The displayed terminal's cursor sent to the hardware. */
  function Synced(c: Console): (r: Console)
    requires Shaped(c)
    ensures r == c.(csr := COLS * c.terms[c.cur].y + c.terms[c.cur].x) && Shaped(r) && CsrShown(r)
  {
    var r := MoveCsr(c, c.terms[c.cur].x, c.terms[c.cur].y);
    assert r.terms == c.terms;
    r
  }

  /** Changing terminal t's fields and page, staying in bounds, keeps the console good. */
  lemma OnlyGood(c: Console, c': Console, t: nat)
    requires Good(c) && t < TERMINALS && Only(c, c', t) && TermOk(c'.terms[t])
    ensures Good(c')
  {
    assert forall u | 0 <= u < TERMINALS && u != t :: TermOk(c.terms[u]);
  }

  lemma PutCharProj(c: Console, t: nat, ch: byte)
    requires Usable(c, t)
    ensures var r := PutChar(c, t, ch);
      && Only(c, r, t) && Usable(r, t) && (Good(c) ==> Good(r))
      && Proj(r, t) == Proj(c, t).(screen := Put(Proj(c, t).screen, ch))
  {
    hide PutBytes, Cells, Put;
    BaseIsHome(c, t);
    var m := c.terms[t];
    PutBytesCells(c.vram, Home(c.cur, t), m.x, m.y, ch);
    var r := PutChar(c, t, ch);
    PutKeepsRoom1(Proj(c, t).screen, ch, m.index);
    AgreeKept(c, r);
    if Good(c) {
      OnlyGood(c, r, t);
    }
    BaseIsHome(r, t);
  }

  lemma PutKeepsRoom1(s: Screen, ch: byte, room: nat)
    requires OnScreen(s) && Position(s) >= room && room <= MAX_BUF_INDEX
    ensures Position(Put(s, ch)) >= room
  {
  }

  // ----- keys, on the displayed terminal

  function OnKey(c: Console, key: Op): (r: Console)
    requires Good(c) && (key.Key? || key.Enter? || key.Backspace? || key.CtrlL?)
    ensures Shaped(r)
  {
    BaseIsHome(c, c.cur);
    var t, m, base := c.cur, c.terms[c.cur], Base(c, c.cur);
    match key
    case Key(ch) =>
      if m.index >= MAX_BUF_INDEX then c
      else
        var s := Synced(PutChar(c, t, ch));
        var n := s.terms[t];
        s.(terms := s.terms[t := n.(buffer := m.buffer[m.index := ch], index := m.index + 1)],
           vram := if n.x == COLS - 1 && n.y == ROWS - 1 then ScrollPage(s.vram, base) else s.vram)
    case Enter =>
      var ended := c.(terms := c.terms[t := m.(buffer := m.buffer[m.index := LINEFEED], typing := false)]);
      if m.y == ROWS - 1 then MoveCsr(ended.(vram := ScrollPage(c.vram, base)), 0, m.y)
      else MoveCsr(ended, 0, m.y + 1)
    case Backspace =>
      if m.index == 0 then c
      else
        var blanked := StoreCell(c.vram, base, COLS * m.y + m.x - 1, SPACE);
        var x := if m.x == 0 then COLS - 1 else m.x - 1;
        var y := if m.x == 0 then m.y - 1 else m.y;
        MoveCsr(c.(terms := c.terms[t := m.(index := m.index - 1)], vram := blanked), x, y)
    case CtrlL =>
      MoveCsr(c.(terms := c.terms[t := m.(buffer := Wiped(m.buffer, m.index), index := 0)],
                 vram := ClearPage(c.vram, base)), 0, 0)
    case _ => c
  }

  /** The key does something: the line has room, or something to delete. */
  predicate Acts(c: Console, key: Op)
    requires Shaped(c)
  {
    match key
    case Key(_) => c.terms[c.cur].index < MAX_BUF_INDEX
    case Backspace => c.terms[c.cur].index > 0
    case _ => true
  }

  /** A key does to the displayed terminal what it would do to it alone, to no other terminal
      anything, and if it acts it puts the hardware cursor on the displayed one's. */
  ghost predicate KeyOk(c: Console, key: Op)
    requires Good(c) && (key.Key? || key.Enter? || key.Backspace? || key.CtrlL?)
  {
    var r := OnKey(c, key);
    && Only(c, r, c.cur) && Good(r) && (if Acts(c, key) then CsrShown(r) else r == c)
    && Proj(r, c.cur) == Apply(Proj(c, c.cur), key)
  }

  lemma CharKey(c: Console, ch: byte)
    requires Good(c)
    ensures KeyOk(c, Key(ch))
  {
    hide Cells, PutBytes, Put, ScrollPage, Agree;
    var t, m, base := c.cur, c.terms[c.cur], Home(c.cur, c.cur);
    BaseIsHome(c, t);
    if m.index < MAX_BUF_INDEX {
      PutCharProj(c, t, ch);
      var p := PutChar(c, t, ch);
      ScrollPageCells(p.vram, base);
      PutRoom(Proj(c, t).screen, ch, m.index);
      var r := OnKey(c, Key(ch));
      OnlyGood(c, r, t);
      BaseIsHome(r, t);
      BaseIsHome(p, t);
    }
  }

  lemma PutRoom(s: Screen, ch: byte, room: nat)
    requires OnScreen(s) && Position(s) >= room && room < MAX_BUF_INDEX
    ensures Position(Put(s, ch)) >= room + 1
  {
  }

  lemma EnterKey(c: Console)
    requires Good(c)
    ensures KeyOk(c, Enter)
  {
    hide Cells, ScrollPage, Agree;
    BaseIsHome(c, c.cur);
    ScrollPageCells(c.vram, Home(c.cur, c.cur));
    var r := OnKey(c, Enter);
    OnlyGood(c, r, c.cur);
    BaseIsHome(r, c.cur);
  }

  lemma BackspaceKey(c: Console)
    requires Good(c)
    ensures KeyOk(c, Backspace)
  {
    hide Cells, StoreCell, Agree;
    BaseIsHome(c, c.cur);
    var m := c.terms[c.cur];
    if m.index > 0 {
      StoreCellCells(c.vram, Home(c.cur, c.cur), COLS * m.y + m.x - 1, SPACE);
      var r := OnKey(c, Backspace);
      OnlyGood(c, r, c.cur);
      BaseIsHome(r, c.cur);
    }
  }

  lemma CtrlLKey(c: Console)
    requires Good(c)
    ensures KeyOk(c, CtrlL)
  {
    hide Cells, ClearPage, Agree;
    BaseIsHome(c, c.cur);
    ClearPageCells(c.vram, Home(c.cur, c.cur));
    var r := OnKey(c, CtrlL);
    OnlyGood(c, r, c.cur);
    BaseIsHome(r, c.cur);
  }

  // ----- system calls of a process on terminal t

  function PutText(c: Console, t: nat, text: seq<byte>): (r: Console)
    requires Usable(c, t)
    ensures Usable(r, t) && (Good(c) ==> Good(r)) && r == c.(terms := r.terms, vram := r.vram)
  {
    if text == [] then c
    else
      var before := PutText(c, t, text[..|text| - 1]);
      PutCharProj(before, t, text[|text| - 1]);
      PutChar(before, t, text[|text| - 1])
  }

  /** terminal_write: each character up to a NUL, then the hardware cursor if t is displayed. */
  function WriteBy(c: Console, t: nat, text: seq<byte>): (r: Console)
    requires Good(c) && t < TERMINALS
    ensures Shaped(r)
  {
    var r := PutText(c, t, Str(text));
    if t == c.cur then Synced(r) else r
  }

  /** printf of plain text, for a process on terminal t: the characters and no more, so that the
      hardware cursor stays where it was. */
  function PrintBy(c: Console, t: nat, text: seq<byte>): (r: Console)
    requires Usable(c, t)
    ensures Usable(r, t) && (Good(c) ==> Good(r)) && r == c.(terms := r.terms, vram := r.vram)
  {
    PutText(c, t, Str(text))
  }

  lemma {:induction false} PutTextProj(c: Console, t: nat, text: seq<byte>)
    requires Usable(c, t)
    ensures Only(c, PutText(c, t, text), t)
    ensures Proj(PutText(c, t, text), t) == Proj(c, t).(screen := PutAll(Proj(c, t).screen, text))
  {
    hide PutChar, Put, Proj;
    if text != [] {
      var pre := text[..|text| - 1];
      PutTextProj(c, t, pre);
      PutCharProj(PutText(c, t, pre), t, text[|text| - 1]);
    }
  }

  lemma WriteProj(c: Console, t: nat, text: seq<byte>)
    requires Good(c) && t < TERMINALS
    ensures var r := WriteBy(c, t, text);
      && Only(c, r, t) && Good(r) && (if t == c.cur then CsrShown(r) else r.csr == c.csr)
      && Proj(r, t) == Apply(Proj(c, t), Write(text))
  {
    hide PutText;
    PutTextProj(c, t, Str(text));
    var p := PutText(c, t, Str(text));
    BaseIsHome(p, t);
    BaseIsHome(WriteBy(c, t, text), t);
  }

  lemma PrintProj(c: Console, t: nat, text: seq<byte>)
    requires Good(c) && t < TERMINALS
    ensures Only(c, PrintBy(c, t, text), t) && Proj(PrintBy(c, t, text), t) == Apply(Proj(c, t), Write(text))
  {
    hide PutText;
    PutTextProj(c, t, Str(text));
  }

  /** Kernel puts, for a process on terminal t: the characters, and then move_csr with that
      process's cursor, which is the displayed terminal's. */
  function PutsBy(c: Console, t: nat, text: seq<byte>): (r: Console)
    requires Usable(c, t)
    ensures Usable(r, t)
  {
    var p := PutText(c, t, Str(text));
    MoveCsr(p, p.terms[t].x, p.terms[t].y)
  }

  /** puts leaves the other terminals as they were if and only if its own is displayed or the two
      cursors end up equal; and it keeps the displayed line within reach of Backspace if and only
      if the writer's cursor is far enough down the screen. */
  lemma PutsExact(c: Console, t: nat, text: seq<byte>)
    requires Good(c) && t < TERMINALS
    ensures var r, shown := PutsBy(c, t, text), c.terms[c.cur];
      var x, y := r.terms[t].x, r.terms[t].y;
      && ((forall u | 0 <= u < TERMINALS && u != t :: r.terms[u] == c.terms[u])
            <==> t == c.cur || (shown.x == x && shown.y == y))
      && (Good(r) <==> t == c.cur || COLS * y + x >= shown.index)
  {
    hide PutText;
    var p := PutText(c, t, Str(text));
    PutTextProj(c, t, Str(text));
    assert TermOk(p.terms[t]);
    var r := PutsBy(c, t, text);
    if t == c.cur {
      assert r.terms == p.terms;
    } else {
      assert r.terms[t] == p.terms[t] && p.terms[c.cur] == c.terms[c.cur];
      assert forall u | 0 <= u < TERMINALS && u != c.cur :: r.terms[u] == p.terms[u] && TermOk(p.terms[u]);
      assert r.terms[c.cur] == c.terms[c.cur].(x := p.terms[t].x, y := p.terms[t].y);
    }
  }

  /** With a character typed on the displayed terminal, the empty string printed by a process whose
      own cursor is at the top left breaks the bound. */
  lemma PutsSpills(c: Console, t: nat)
    requires Good(c) && t < TERMINALS && t != c.cur
    requires c.terms[t].x == c.terms[t].y == 0 && c.terms[c.cur].index > 0
    ensures !Good(PutsBy(c, t, []))
  {
    PutsExact(c, t, []);
    assert PutsBy(c, t, []).terms[t] == c.terms[t];
  }

  /** terminal_read, once Enter has been pressed. */
  function ReadBy(c: Console, t: nat, count: nat): (r: Console)
    requires Good(c) && t < TERMINALS
    ensures Shaped(r)
  {
    var m := c.terms[t];
    var n := Min(count, m.index + 1);
    c.(terms := c.terms[t := m.(buffer := seq(n, _ => NUL) + m.buffer[n..], index := 0, typing := true)])
  }

  lemma ReadProj(c: Console, t: nat, count: nat)
    requires Good(c) && t < TERMINALS
    ensures var r := ReadBy(c, t, count);
      && Only(c, r, t) && Good(r) && r.csr == c.csr
      && Proj(r, t) == Apply(Proj(c, t), Read(count))
  {
    var r := ReadBy(c, t, count);
    OnlyGood(c, r, t);
    BaseIsHome(c, t);
    BaseIsHome(r, t);
  }

  /** show_status recolours six cells of the display: attribute bytes only. */
  function ShowStatus(c: Console, colours: seq<byte>): (r: Console)
    requires Shaped(c) && |colours| == MAX_USER_PROG
    ensures Shaped(r)
  {
    c.(vram := seq(VRAM, j requires 0 <= j < VRAM =>
      if 2 * (COLS - MAX_USER_PROG) <= j < 2 * COLS && j % 2 == 1
      then colours[j / 2 - (COLS - MAX_USER_PROG)] else c.vram[j]))
  }

  lemma StatusProj(c: Console, colours: seq<byte>, t: nat)
    requires Good(c) && |colours| == MAX_USER_PROG && t < TERMINALS
    ensures Good(ShowStatus(c, colours)) && Proj(ShowStatus(c, colours), t) == Proj(c, t)
  {
    var r := ShowStatus(c, colours);
    BaseIsHome(c, t);
    BaseIsHome(r, t);
    assert Cells(r.vram, Home(c.cur, t)) == Cells(c.vram, Home(c.cur, t));
  }

  // ----- switch_terminals

  function WithEntry(table: seq<nat>, entry: nat): (r: seq<nat>)
    requires |table| == ENTRIES
    ensures |r| == ENTRIES && r[0] == entry
  {
    table[0 := entry]
  }

  lemma EntryPages(addr: nat)
    requires addr % PAGE == 0
    ensures PageOf(KernelEntry(addr)) == addr && PageOf(UserEntry(addr)) == addr
    ensures KernelEntry(addr) % 2 == 1 && UserEntry(addr) % 2 == 1
  {
    OrPage(addr, 0, KERNEL_PAGE);
    OrPage(addr, 0, USER_PAGE);
    OrZero(KERNEL_PAGE);
    OrZero(USER_PAGE);
    PageEven(addr);
  }

  lemma PageEven(addr: nat)
    requires addr % PAGE == 0
    ensures (addr + KERNEL_PAGE) % 2 == 1 && (addr + USER_PAGE) % 2 == 1
  {
    DivModIs(addr + KERNEL_PAGE, 2, 2048 * (addr / PAGE) + 1, 1);
    DivModIs(addr + USER_PAGE, 2, 2048 * (addr / PAGE) + 3, 1);
  }

  /** The displayed terminal mapped back onto its own page. */
  function Unmapped(c: Console): (r: Console)
    requires Shaped(c)
    ensures Shaped(r)
  {
    c.(table := c.table[VIDEO_PTE + c.cur + 1 := KernelEntry(VideoMem(c.cur))],
       userTables := c.userTables[c.cur := WithEntry(c.userTables[c.cur], UserEntry(VideoMem(c.cur)))])
  }

  /** Terminal t mapped onto the display. */
  function MappedTo(c: Console, t: nat): (r: Console)
    requires Shaped(c) && t < TERMINALS
    ensures Shaped(r)
  {
    c.(userTables := c.userTables[t := WithEntry(c.userTables[t], UserEntry(VIDEO))],
       table := c.table[VIDEO_PTE + t + 1 := KernelEntry(VIDEO)],
       cur := t)
  }

  /** The offset in video memory a kernel address of the video pages leads to. */
  function KernelOffset(c: Console, addr: nat): int
    requires Shaped(c) && addr < ENTRIES * PAGE
  {
    PageOf(c.table[addr / PAGE]) + addr % PAGE - VIDEO
  }

  predicate InVram(at: int) {
    0 <= at && at + PAGE <= VRAM
  }

  function SwitchTo(c: Console, t: nat): (r: Console)
    requires Good(c)
    ensures Shaped(r)
  {
    if t >= TERMINALS || t == c.cur then c
    else
      UnmappedOffsets(c, t);
      var u := Unmapped(c);
      var saved := CopyPage(u.vram, KernelOffset(u, VideoMem(c.cur)), KernelOffset(u, VIDEO));
      var shown := CopyPage(saved, KernelOffset(u, VIDEO), KernelOffset(u, VideoMem(t)));
      var m := MappedTo(u.(vram := shown), t);
      MoveCsr(m, m.terms[t].x, m.terms[t].y)
  }

  lemma UnmappedOffsets(c: Console, t: nat)
    requires Good(c) && t < TERMINALS && t != c.cur
    ensures var u := Unmapped(c);
      && KernelOffset(u, VIDEO) == 0
      && KernelOffset(u, VideoMem(c.cur)) == PAGE * (c.cur + 1)
      && KernelOffset(u, VideoMem(t)) == PAGE * (t + 1)
  {
    hide KernelEntry, UserEntry;
    EntryPages(VideoMem(c.cur));
    assert PageOf(c.table[VIDEO_PTE + 1 + t]) == VIDEO + Home(c.cur, t);
    assert VideoMem(t) / PAGE == VIDEO_PTE + 1 + t && VideoMem(c.cur) / PAGE == VIDEO_PTE + 1 + c.cur;
  }

  /** After a switch the tables agree again, with t as the displayed terminal. */
  lemma SwitchAgrees(c: Console, t: nat)
    requires Good(c) && t < TERMINALS && t != c.cur
    ensures var r := SwitchTo(c, t); Good(r) && CsrShown(r) && r.cur == t && r.terms == c.terms
  {
    hide CopyPage;
    RemapAgrees(c, t);
    var r := SwitchTo(c, t);
    assert r.terms == c.terms;
    assert r.table == MappedTo(Unmapped(c), t).table && r.userTables == MappedTo(Unmapped(c), t).userTables;
  }

  lemma RemapAgrees(c: Console, t: nat)
    requires Good(c) && t < TERMINALS && t != c.cur
    ensures Agree(MappedTo(Unmapped(c), t))
  {
    hide KernelEntry, UserEntry;
    EntryPages(VideoMem(c.cur));
    EntryPages(VIDEO);
    var r := MappedTo(Unmapped(c), t);
    forall u | 0 <= u < TERMINALS
      ensures PageOf(r.table[VIDEO_PTE + 1 + u]) == VIDEO + Home(t, u)
      ensures MapsOnly(r.userTables[u], VIDEO + Home(t, u))
    {
      assert PageOf(c.table[VIDEO_PTE + 1 + u]) == VIDEO + Home(c.cur, u);
      assert MapsOnly(c.userTables[u], VIDEO + Home(c.cur, u));
    }
  }

  /** Switching shows no terminal anything new: each keeps its screen, cursor and line. */
  lemma SwitchProj(c: Console, t: nat, u: nat)
    requires Good(c) && u < TERMINALS
    ensures Good(SwitchTo(c, t)) && Proj(SwitchTo(c, t), u) == Proj(c, u)
  {
    if t < TERMINALS && t != c.cur {
      SwitchAgrees(c, t);
      UnmappedOffsets(c, t);
      BaseIsHome(c, u);
      BaseIsHome(SwitchTo(c, t), u);
      SwitchCells(c, t, u);
    }
  }

  lemma SwitchCells(c: Console, t: nat, u: nat)
    requires Good(c) && t < TERMINALS && t != c.cur && u < TERMINALS
    ensures Cells(SwitchTo(c, t).vram, Home(t, u)) == Cells(c.vram, Home(c.cur, u))
  {
    hide Cells, CopyPage, Good;
    SwitchCopies(c, t);
    var own, new_ := PAGE * (c.cur + 1), PAGE * (t + 1);
    var saved := CopyPage(c.vram, own, 0);
    var shown := CopyPage(saved, 0, new_);
    CopyPageCells(c.vram, own, 0);
    CopyPageCells(saved, 0, new_);
    OtherCells(c.vram, saved, own, new_);
    OtherCells(saved, shown, 0, own);
    if u != t && u != c.cur {
      OtherCells(c.vram, saved, own, Home(c.cur, u));
      OtherCells(saved, shown, 0, Home(c.cur, u));
    }
  }

  /** The two page copies of a switch. */
  lemma SwitchCopies(c: Console, t: nat)
    requires Good(c) && t < TERMINALS && t != c.cur
    ensures |c.vram| == VRAM && c.cur < TERMINALS
    ensures SwitchTo(c, t).vram == CopyPage(CopyPage(c.vram, PAGE * (c.cur + 1), 0), 0, PAGE * (t + 1))
  {
    hide CopyPage, Agree;
    UnmappedOffsets(c, t);
  }
}
