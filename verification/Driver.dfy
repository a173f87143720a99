/** The terminal driver carried out in place: page tables, video memory and terminal records. */
module Driver {
  import opened Machine
  import opened CStrings
  import opened Paging
  import opened Screens
  import opened Terminals
  import opened Consoles
  import opened FaultMessages
  import Memory
  import Numbers

  /** The two loops of term_scroll over the page at `base`. */
  method ScrollBytes(vram: array<byte>, base: nat)
    requires base + PAGE <= vram.Length
    modifies vram
    ensures vram[..] == ScrollPage(old(vram[..]), base)
  {
    hide ScrollPage;
    ghost var was := vram[..];
    var i := 0;
    while i < (ROWS - 1) * COLS
      invariant 0 <= i <= (ROWS - 1) * COLS && ScrolledTo(was, vram[..], base, i)
    {
      ghost var before := vram[..];
      vram[base + 2 * i] := vram[base + 2 * (i + COLS)];
      vram[base + 2 * i + 1] := ATTRIB;
      assert vram[..] == StoreCell(before, base, i, before[base + 2 * (i + COLS)]);
      ScrollOne(was, before, base, i);
      i := i + 1;
    }
    while i < ROWS * COLS
      invariant (ROWS - 1) * COLS <= i <= CELLS && ScrolledTo(was, vram[..], base, i)
    {
      ghost var before := vram[..];
      vram[base + 2 * i] := SPACE;
      vram[base + 2 * i + 1] := ATTRIB;
      assert vram[..] == StoreCell(before, base, i, SPACE);
      ScrollOne(was, before, base, i);
      i := i + 1;
    }
    ScrolledFully(was, vram[..], base);
  }

  /** The first i cells of the page are scrolled, the rest is as it was. */
  ghost predicate ScrolledTo(was: seq<byte>, now: seq<byte>, base: nat, i: nat)
    requires base + PAGE <= |was|
  {
    |now| == |was|
    && forall j | 0 <= j < |was| :: now[j] == if base <= j < base + 2 * i then ScrollPage(was, base)[j] else was[j]
  }

  lemma ScrollOne(was: seq<byte>, now: seq<byte>, base: nat, i: nat)
    requires base + PAGE <= |was| && i < CELLS && ScrolledTo(was, now, base, i)
    ensures var ch := if i < CELLS - COLS then now[base + 2 * (i + COLS)] else SPACE;
      ScrolledTo(was, StoreCell(now, base, i, ch), base, i + 1)
  {
    var ch := if i < CELLS - COLS then now[base + 2 * (i + COLS)] else SPACE;
    assert ScrollPage(was, base)[base + 2 * i] == ch && ScrollPage(was, base)[base + 2 * i + 1] == ATTRIB;
    hide ScrollPage;
  }

  lemma ScrolledFully(was: seq<byte>, now: seq<byte>, base: nat)
    requires base + PAGE <= |was| && ScrolledTo(was, now, base, CELLS)
    ensures now == ScrollPage(was, base)
  {
  }

  /** The loop of term_clear over the page at `base`. */
  method ClearBytes(vram: array<byte>, base: nat)
    requires base + PAGE <= vram.Length
    modifies vram
    ensures vram[..] == ClearPage(old(vram[..]), base)
  {
    ghost var was := vram[..];
    for i := 0 to ROWS * COLS
      invariant forall j | 0 <= j < vram.Length ::
        vram[j] == if base <= j < base + 2 * i then ClearPage(was, base)[j] else was[j]
    {
      vram[base + 2 * i] := SPACE;
      vram[base + 2 * i + 1] := ATTRIB;
    }
    assert vram[..] == ClearPage(was, base);
  }

  class Display {
    var cur: nat
    var terms: array<Term>
    var table: array<nat>
    var userTables: seq<seq<nat>>
    var vram: array<byte>
    var csr: nat

    ghost function View(): Console
      reads this, terms, table, vram
    {
      Console(cur, terms[..], table[..], userTables, vram[..], csr)
    }

    ghost predicate Valid()
      reads this, terms, table, vram
    {
      Good(View())
    }

    /** The state in which a process of terminal t can print. */
    ghost predicate Fit(t: nat)
      reads this, terms, table, vram
    {
      Usable(View(), t)
    }

    /** The console after init_kernel_pd and keyboard_install: terminal 0 on the display, empty
        lines. */
    constructor (memory: array<byte>)
      requires memory.Length == VRAM
      ensures Valid() && CsrShown(View()) && cur == 0 && vram == memory && vram[..] == old(memory[..])
      ensures fresh(terms) && fresh(table)
      ensures forall t | 0 <= t < TERMINALS :: terms[t].x == terms[t].y == terms[t].index == 0 && terms[t].typing
    {
      cur, csr, vram := 0, 0, memory;
      terms := new Term[TERMINALS](_ => Term(0, 0, seq(LINE_BUF_SIZE, _ => NUL), 0, true));
      table := new nat[ENTRIES](_ => 0);
      userTables := seq(TERMINALS, _ => seq(ENTRIES, _ => 0));
      new;
      InitKernelPd();
    }

    /** The video part of init_kernel_pd. */
    method InitKernelPd()
      requires cur == 0 && Shaped(View())
      requires forall t, i | 0 <= t < TERMINALS && 0 <= i < ENTRIES :: userTables[t][i] == 0
      modifies this`userTables, table
      ensures View() == old(View()).(table := table[..], userTables := userTables)
      ensures Shaped(View()) && Agree(View())
    {
      hide KernelEntry, UserEntry;
      EntryPages(VIDEO);
      for i := 0 to ENTRIES
        invariant userTables == old(userTables) && forall j | 0 <= j < i :: table[j] == FLAG_WRITE_ENABLE
      {
        table[i] := FLAG_WRITE_ENABLE;
      }
      MapBackings();
      ghost var was, rows := table[..], userTables;
      assert OwnPage(was, rows, 1) && OwnPage(was, rows, 2);
      userTables := userTables[0 := WithEntry(userTables[0], UserEntry(VIDEO))];
      table[VIDEO_PTE] := UserEntry(VIDEO);
      table[VIDEO_PTE + 1] := KernelEntry(VIDEO);
      forall t | 0 <= t < TERMINALS
        ensures PageOf(View().table[VIDEO_PTE + 1 + t]) == VIDEO + Home(0, t)
        ensures MapsOnly(userTables[t], VIDEO + Home(0, t))
      {
        assert t != 0 ==> OwnPage(was, rows, t);
      }
    }

    /** The loop of init_kernel_pd that maps each terminal onto its backing page. */
    method MapBackings()
      requires Shaped(View()) && forall j | 0 <= j < ENTRIES :: table[j] == FLAG_WRITE_ENABLE
      requires forall t, i | 0 <= t < TERMINALS && 0 <= i < ENTRIES :: userTables[t][i] == 0
      modifies this`userTables, table
      ensures |userTables| == TERMINALS && forall t | 0 <= t < TERMINALS :: |userTables[t]| == ENTRIES
      ensures forall t | 0 <= t < TERMINALS :: OwnPage(table[..], userTables, t)
      ensures forall t, j | 0 <= t < TERMINALS && 1 <= j < ENTRIES :: userTables[t][j] == 0
      ensures forall j | 0 <= j < ENTRIES :: table[j] % 2 == 1 <==> VIDEO_PTE < j <= VIDEO_PTE + TERMINALS
    {
      hide KernelEntry, UserEntry;
      for i := 0 to TERMINALS
        invariant |userTables| == TERMINALS && forall t | 0 <= t < TERMINALS :: |userTables[t]| == ENTRIES
        invariant forall t, j | 0 <= t < TERMINALS && 1 <= j < ENTRIES :: userTables[t][j] == 0
        invariant forall t | 0 <= t < i :: OwnPage(table[..], userTables, t)
        invariant forall j | 0 <= j < ENTRIES :: table[j] % 2 == 1 <==> VIDEO_PTE < j <= VIDEO_PTE + i
      {
        EntryPages(VIDEO + PAGE * (i + 1));
        ghost var was, rows := table[..], userTables;
        userTables := userTables[i := WithEntry(userTables[i], UserEntry(VIDEO + PAGE * (i + 1)))];
        table[VIDEO_PTE + i + 1] := KernelEntry(VIDEO + PAGE * (i + 1));
        forall t | 0 <= t < i + 1 ensures OwnPage(table[..], userTables, t) {
          assert t < i ==> OwnPage(was, rows, t);
        }
      }
    }

    /** Terminal t mapped onto its own backing page in both tables. */
    static ghost predicate OwnPage(table: seq<nat>, rows: seq<seq<nat>>, t: nat) {
      && |table| == ENTRIES && t < |rows| && t < TERMINALS && |rows[t]| == ENTRIES
      && PageOf(table[VIDEO_PTE + 1 + t]) == VIDEO + PAGE * (t + 1)
      && rows[t][0] == UserEntry(VIDEO + PAGE * (t + 1))
    }

    /** term_scroll on the page terminal t is mapped to. */
    method TermScroll(t: nat)
      requires Fit(t)
      modifies vram
      ensures Fit(t) && (old(Valid()) ==> Valid())
      ensures View() == old(View()).(vram := ScrollPage(old(vram[..]), Home(cur, t)))
    {
      hide ScrollPage;
      BaseIsHome(View(), t);
      ScrollBytes(vram, PageOf(table[VideoMem(t) / PAGE]) - VIDEO);
    }

    /** The clearing of term_clear on the page terminal t is mapped to. */
    method ClearScreen(t: nat)
      requires Valid() && t < TERMINALS
      modifies vram
      ensures Valid() && View() == old(View()).(vram := ClearPage(old(vram[..]), Home(cur, t)))
    {
      hide ClearPage;
      BaseIsHome(View(), t);
      ClearBytes(vram, PageOf(table[VideoMem(t) / PAGE]) - VIDEO);
    }

    /** term_putc; putc does the same for the caller's own terminal. */
    method TermPutc(ch: byte, t: nat)
      requires Fit(t)
      modifies vram, terms
      ensures Fit(t) && (old(Valid()) ==> Valid()) && View() == PutChar(old(View()), t, ch)
    {
      ghost var c := View();
      BaseIsHome(c, t);
      PutCharProj(c, t, ch);
      hide PutBytes, Good, Only, Proj, Put;
      var x, y := PutOnPage(ch, t);
      StoreTerm(t, terms[t].(x := x, y := y));
    }

    /** The screen part of term_putc, and the cursor it leads to. */
    method PutOnPage(ch: byte, t: nat) returns (x: nat, y: nat)
      requires Fit(t)
      modifies vram
      ensures View() == old(View()).(vram := vram[..]) && Home(cur, t) + PAGE <= VRAM
      ensures (vram[..], x, y) == PutBytes(old(vram[..]), Home(cur, t), terms[t].x, terms[t].y, ch)
    {
      hide ScrollPage, StoreCell;
      BaseIsHome(View(), t);
      x, y := terms[t].x, terms[t].y;
      if Newline(ch) {
        y := y + 1;
        x := 0;
      } else {
        WriteCell(t, COLS * y + x, ch);
        x := x + 1;
        y := y + x / COLS;
        x := x % COLS;
      }
      if y == ROWS {
        y := y - 1;
        TermScroll(t);
      }
    }

    /** A character and its attribute stored in cell `at` of terminal t's page. */
    method WriteCell(t: nat, at: nat, ch: byte)
      requires Fit(t) && at < CELLS
      modifies vram
      ensures Fit(t) && Home(cur, t) + PAGE <= VRAM
      ensures View() == old(View()).(vram := StoreCell(old(vram[..]), Home(cur, t), at, ch))
    {
      BaseIsHome(View(), t);
      var base: nat := PageOf(table[VideoMem(t) / PAGE]) - VIDEO;
      vram[base + 2 * at] := ch;
      vram[base + 2 * at + 1] := ATTRIB;
      assert vram[..] == StoreCell(old(vram[..]), base, at, ch);
    }

    /** move_csr. */
    method MoveCursor(x: nat, y: nat)
      requires Shaped(View())
      modifies this`csr, terms
      ensures View() == MoveCsr(old(View()), x, y)
    {
      terms[cur] := terms[cur].(x := x, y := y);
      assert terms[..] == old(terms[..])[cur := old(terms[cur]).(x := x, y := y)];
      csr := y * COLS + x;
    }

    /** The character branch of key_irq_handler. */
    method PressChar(ch: byte)
      requires Valid()
      modifies this`csr, vram, terms
      ensures Valid() && View() == OnKey(old(View()), Key(ch))
    {
      hide PutChar, ScrollPage, Apply, Proj, Agree, Only;
      ghost var c := View();
      CharKey(c, ch);
      BaseIsHome(c, cur);
      var m := terms[cur];
      if m.index < MAX_BUF_INDEX {
        PutCharProj(c, cur, ch);
        TermPutc(ch, cur);
        MoveCursor(terms[cur].x, terms[cur].y);
        assert View() == Synced(PutChar(c, cur, ch));
        AgreeKept(c, View());
        if terms[cur].x == COLS - 1 && terms[cur].y == ROWS - 1 {
          TermScroll(cur);
        }
        StoreTerm(cur, terms[cur].(buffer := m.buffer[m.index := ch], index := m.index + 1));
      }
    }

    method StoreTerm(t: nat, m: Term)
      requires t < terms.Length
      modifies terms
      ensures terms[..] == old(terms[..])[t := m]
    {
      terms[t] := m;
    }

    /** The Enter branch. */
    method PressEnterKey()
      requires Valid()
      modifies this`csr, vram, terms
      ensures Valid() && View() == OnKey(old(View()), Enter)
    {
      hide ScrollPage, Apply, Proj, Agree, Only;
      EnterKey(View());
      BaseIsHome(View(), cur);
      var m := terms[cur];
      StoreTerm(cur, m.(buffer := m.buffer[m.index := LINEFEED], typing := false));
      AgreeKept(old(View()), View());
      if m.y == ROWS - 1 {
        TermScroll(cur);
        MoveCursor(0, m.y);
      } else {
        MoveCursor(0, m.y + 1);
      }
    }

    /** The Backspace branch, with term_delete_char; the column wraps below zero as unsigned. */
    method PressBackspaceKey()
      requires Valid()
      modifies this`csr, vram, terms
      ensures Valid() && View() == OnKey(old(View()), Backspace)
    {
      hide StoreCell, Proj, Apply, Only, Agree;
      BackspaceKey(View());
      BaseIsHome(View(), cur);
      var m := terms[cur];
      if m.index > 0 {
        WriteCell(cur, COLS * m.y + m.x - 1, SPACE);
        var x, y := StepBack(m.x, m.y);
        StoreTerm(cur, m.(index := m.index - 1));
        MoveCursor(x, y);
      }
    }

    /** The unsigned cursor step of term_delete_char. */
    method StepBack(cx: nat, cy: nat) returns (x: nat, y: nat)
      requires cx < COLS && (cx > 0 || cy > 0)
      ensures if cx == 0 then x == COLS - 1 && y == cy - 1 else x == cx - 1 && y == cy
    {
      x, y := (cx - 1) % 0x1_0000_0000, cy;
      if x == 0xFFFF_FFFF {
        x, y := (x + COLS) % 0x1_0000_0000, y - 1;
      }
    }

    /** The Ctrl-L branch: the screen cleared, the line buffer wiped from the back. */
    method PressCtrlLKey()
      requires Valid()
      modifies this`csr, vram, terms
      ensures Valid() && View() == OnKey(old(View()), CtrlL)
    {
      hide ClearPage, Apply, Proj, Agree, Only;
      ghost var c := View();
      CtrlLKey(c);
      BaseIsHome(c, cur);
      ClearScreen(cur);
      var m := terms[cur];
      var buffer, i := m.buffer, m.index;
      while i > 0
        invariant 0 <= i <= m.index && |buffer| == LINE_BUF_SIZE
        invariant forall j | 0 <= j < LINE_BUF_SIZE :: buffer[j] == if i < j <= m.index then NUL else m.buffer[j]
      {
        buffer := buffer[i := NUL];
        i := i - 1;
      }
      assert buffer == Wiped(m.buffer, m.index);
      StoreTerm(cur, m.(buffer := buffer, index := 0));
      MoveCursor(0, 0);
    }

    /** terminal_write by a process on terminal t: the characters up to a NUL or nbytes. */
    method TerminalWrite(t: nat, text: seq<byte>, nbytes: nat) returns (written: nat)
      requires Valid() && t < TERMINALS && nbytes <= |text|
      modifies this`csr, vram, terms
      ensures Valid() && View() == WriteBy(old(View()), t, text[..nbytes])
      ensures written == |Str(text[..nbytes])|
    {
      hide PutText, Str;
      ghost var c := View();
      WriteProj(c, t, text[..nbytes]);
      written := PutUntilNul(t, text, nbytes);
      if t == cur {
        MoveCursor(terms[t].x, terms[t].y);
        assert View() == Synced(PutText(c, t, Str(text[..nbytes])));
      }
    }

    /** The loop of terminal_write. */
    method PutUntilNul(t: nat, text: seq<byte>, nbytes: nat) returns (written: nat)
      requires Fit(t) && nbytes <= |text|
      modifies vram, terms
      ensures Fit(t) && (old(Valid()) ==> Valid()) && View() == PutText(old(View()), t, Str(text[..nbytes]))
      ensures written == |Str(text[..nbytes])|
    {
      hide PutChar, Proj, Good, Usable;
      ghost var c := View();
      written := 0;
      while written < nbytes && text[written] != NUL
        invariant Fit(t) && (old(Valid()) ==> Valid()) && 0 <= written <= nbytes
        invariant View() == PutText(c, t, text[..written])
        invariant forall j | 0 <= j < written :: text[j] != NUL
      {
        assert text[..written + 1][..written] == text[..written];
        TermPutc(text[written], t);
        written := written + 1;
      }
      BeforeNulIs(text[..nbytes], nbytes, written);
      assert text[..nbytes][..written] == text[..written];
    }

    /** puts by a process on terminal t; `text` is the memory at its pointer. */
    method Puts(t: nat, text: seq<byte>)
      requires Fit(t)
      modifies this`csr, vram, terms
      ensures Fit(t) && View() == PutsBy(old(View()), t, text)
    {
      hide PutText, Str, Agree;
      ghost var c := View();
      assert text[..|text|] == text;
      var _ := PutUntilNul(t, text, |text|);
      ghost var p := View();
      MoveCursor(terms[t].x, terms[t].y);
      assert View() == MoveCsr(p, p.terms[t].x, p.terms[t].y) == PutsBy(c, t, text);
    }

    /** printf's plain characters, by a process on terminal t. */
    method PutPlain(t: nat, text: seq<byte>)
      requires Fit(t)
      modifies vram, terms
      ensures Fit(t) && View() == PrintBy(old(View()), t, text)
    {
      hide PutText, Str, Agree;
      assert text[..|text|] == text;
      var _ := PutUntilNul(t, text, |text|);
    }

    /** printf's %x. */
    method PutHex(t: nat, value: uint32)
      requires Fit(t)
      modifies this`csr, vram, terms
      ensures Fit(t) && View() == PutsBy(old(View()), t, Numbers.Numeral(value, 16))
    {
      hide PutText, Agree, Numbers.Numeral, Str;
      var conv := new byte[64];
      Numbers.EightDigits(value);
      Numbers.Itoa(value, conv, 0, 16);
      assert conv[0..] == conv[..];
      SamePuts(View(), t, conv[..], Numbers.Numeral(value, 16), value);
      Puts(t, conv[..]);
    }

    static lemma SamePuts(c: Console, t: nat, held: seq<byte>, text: seq<byte>, value: nat)
      requires Usable(c, t) && text == Numbers.Numeral(value, 16) && Str(held) == text
      ensures PutsBy(c, t, held) == PutsBy(c, t, text)
    {
      Numbers.NumeralDigits(value, 16);
      StrOfText(text);
    }

    /** pf_handler's message, by a process on terminal t. */
    method PageFaultMessage(t: nat, cr2: uint32, eec: uint32)
      requires Fit(t)
      modifies this`csr, vram, terms
      ensures Fit(t) && View() == FaultBy(old(View()), t, cr2, eec)
    {
      hide PutsBy, PrintBy, Usable, Numbers.Numeral;
      PutPlain(t, PF_AT);
      PutHex(t, cr2);
      PutPlain(t, COMMA);
      PutHex(t, eec);
      PutPlain(t, [LINEFEED]);
    }

    /** One pass of terminal_read: while Enter is awaited nothing happens; once it has been pressed
        the line is copied out with a NUL behind it, and its copied part is cleared. */
    method TerminalRead(t: nat, buf: array<byte>, nbytes: nat) returns (r: Option<nat>)
      requires Valid() && t < TERMINALS && buf != vram
      requires !terms[t].typing ==> Min(nbytes, terms[t].index + 1) < buf.Length
      modifies terms, buf
      ensures Valid() && (r.None? <==> old(terms[t]).typing)
      ensures r.None? ==> View() == old(View()) && buf[..] == old(buf[..])
      ensures r.Some? ==> View() == ReadBy(old(View()), t, nbytes)
      ensures var n := Min(nbytes, old(terms[t]).index + 1);
        r.Some? ==> buf[..n] == old(terms[t]).buffer[..n] && buf[n] == NUL && r.value == |Str(buf[..])|
    {
      ReadProj(View(), t, nbytes);
      hide Apply, Proj, Good, Agree;
      var m := terms[t];
      if m.typing {
        return None;
      }
      var n := nbytes;
      if n > m.index + 1 {
        n := m.index + 1;
      }
      CopyOut(m.buffer, n, buf);
      var buffer := WipeFront(m.buffer, n);
      StoreTerm(t, m.(buffer := buffer, index := 0, typing := true));
      assert buf[..][n] == NUL;
      var len := Strlen(buf);
      r := Some(len);
    }

    /** The copy into the caller's buffer, with its terminator. */
    method CopyOut(buffer: seq<byte>, n: nat, buf: array<byte>)
      requires n <= |buffer| && n < buf.Length
      modifies buf
      ensures buf[..n] == buffer[..n] && buf[n] == NUL
    {
      for i := 0 to n
        invariant forall j | 0 <= j < i :: buf[j] == buffer[j]
      {
        buf[i] := buffer[i];
      }
      buf[n] := NUL;
    }

    /** The loop that zeroes what was read. */
    method WipeFront(buffer: seq<byte>, n: nat) returns (r: seq<byte>)
      requires n <= |buffer|
      ensures r == seq(n, _ => NUL) + buffer[n..]
    {
      r := buffer;
      for i := 0 to n
        invariant |r| == |buffer| && forall j | 0 <= j < |r| :: r[j] == if j < i then NUL else buffer[j]
      {
        r := r[i := NUL];
      }
    }

    /** switch_terminals: save the display, show the other terminal's page, swap the mappings. */
    method SwitchTerminals(t: nat)
      requires Valid()
      modifies this`cur, this`csr, this`userTables, table, vram, terms
      ensures Valid() && View() == SwitchTo(old(View()), t)
    {
      if t < TERMINALS && cur != t {
        ghost var c := View();
        SwitchAgrees(c, t);
        UnmappedOffsets(c, t);
        table[VIDEO_PTE + cur + 1] := KernelEntry(VideoMem(cur));
        userTables := userTables[cur := WithEntry(userTables[cur], UserEntry(VideoMem(cur)))];
        assert table[..] == Unmapped(c).table;
        assert View() == Unmapped(c);
        CopyLinear(VideoMem(cur), VIDEO);
        CopyLinear(VIDEO, VideoMem(t));
        userTables := userTables[t := WithEntry(userTables[t], UserEntry(VIDEO))];
        table[VIDEO_PTE + t + 1] := KernelEntry(VIDEO);
        cur := t;
        assert table[..] == MappedTo(Unmapped(c), t).table;
        MoveCursor(terms[cur].x, terms[cur].y);
      }
    }

    /** memcpy of one page between two linear addresses of the video pages. */
    method CopyLinear(dest: nat, src: nat)
      requires Shaped(View()) && dest < ENTRIES * PAGE && src < ENTRIES * PAGE
      requires InVram(KernelOffset(View(), dest)) && InVram(KernelOffset(View(), src))
      requires KernelOffset(View(), dest) + PAGE <= KernelOffset(View(), src)
        || KernelOffset(View(), src) + PAGE <= KernelOffset(View(), dest)
      modifies vram
      ensures var c := old(View());
        View() == c.(vram := CopyPage(c.vram, KernelOffset(c, dest), KernelOffset(c, src)))
    {
      var to: nat := PageOf(table[dest / PAGE]) + dest % PAGE - VIDEO;
      var from: nat := PageOf(table[src / PAGE]) + src % PAGE - VIDEO;
      Memory.Memcpy(vram, to, from, PAGE);
      assert vram[..] == CopyPage(old(vram[..]), to, from);
    }
  }
}
