/** The process table and the console together: programs on terminals, the windows on video memory
    that vidmap gives them, and the messages of the exceptions that end them. */
module Systems {
  import opened Machine
  import opened Paging
  import opened Commands
  import opened Processes
  import opened CallStacks
  import opened Lifecycle
  import opened Directories
  import opened Terminals
  import opened Consoles
  import opened FaultMessages
  import P = Projection

  datatype Sys = Sys(k: State, c: Console)

  /** A step of the kernel or of the running program, a page fault at an address, another exception,
      a key, a switch key, and the terminal system calls of the running program. The bytes that a
      read or a getargs stores for its caller are stores of their own. */
  datatype Event =
    | Kernel(step: Step)
    | Crash(step: Step, addr: nat, user: bool, write: bool, eec: nat)
    | Trap(step: Step, vector: nat)
    | Press(key: Op)
    | Switch(term: nat)
    | WriteCall(text: seq<byte>)
    | ReadCall(count: nat)

  /** The events that are steps of the process table. */
  predicate Moves(ev: Event) {
    ev.Kernel? || ev.Crash? || ev.Trap?
  }

  ghost predicate Shaped(w: Sys) {
    Shape(w.k) && Good(w.c) && 0 <= Current(w.k) < MAX_USER_PROG && w.k.pcbs[Current(w.k)].terminal < TERMINALS
  }

  /** The running process's terminal. */
  ghost function MyTerm(w: Sys): nat
    requires Shaped(w)
  {
    w.k.pcbs[Current(w.k)].terminal
  }

  // ----- addresses

  /** Entry i of the page table at a physical address; nothing where there is no page table. */
  ghost function TableEntry(e: Env, c: Console, base: nat, i: nat): nat
    requires Consoles.Shaped(c) && i < ENTRIES
  {
    if e.tables <= base < e.tables + PAGE * TERMINALS then c.userTables[(base - e.tables) / PAGE][i]
    else if base == e.videoTable then c.table[i]
    else 0
  }

  /** The physical page behind it; none on a fault. */
  ghost function TablePage(e: Env, c: Console, base: nat, i: nat, user: bool, write: bool): Option<nat>
    requires Consoles.Shaped(c) && i < ENTRIES
  {
    var entry := TableEntry(e, c, base, i);
    if Allows(entry, user, write) then Some(PageOf(entry)) else None
  }

  /** The index an address has in its page table. */
  function TableIndex(addr: nat): (i: nat)
    ensures i < ENTRIES
  {
    addr / PAGE % ENTRIES
  }

  /** Its offset in its page. */
  function PageOffset(addr: nat): (at: nat)
    ensures at < PAGE
  {
    addr % PAGE
  }

  /** The 4MB of addresses that vidmap's directory entry is for. */
  predicate InVideoArea(addr: nat) {
    addr / MB4 == VIDEO_PDE
  }

  /** The physical page an access gets to through a directory entry and a page table; none on a
      fault, and none in a 4MB page. */
  ghost function PageAt(e: Env, dir: seq<nat>, c: Console, addr: nat, user: bool, write: bool): Option<nat>
    requires |dir| == ENTRIES && Consoles.Shaped(c) && addr < ENTRIES * MB4
  {
    match Walk(dir, addr, user, write)
    case Table(base) => TablePage(e, c, base, TableIndex(addr), user, write)
    case _ => None
  }

  /** The same for a program with directory `dir`. */
  ghost function VideoPage(e: Env, dir: seq<nat>, c: Console, addr: nat, write: bool): Option<nat>
    requires |dir| == ENTRIES && Consoles.Shaped(c) && addr < ENTRIES * MB4
  {
    PageAt(e, dir, c, addr, true, write)
  }

  /** The access ends in a page fault. */
  ghost predicate NoAccess(e: Env, w: Sys, addr: nat, user: bool, write: bool)
    requires Shape(w.k) && Consoles.Shaped(w.c) && addr < ENTRIES * MB4
  {
    var dir := w.k.dirs[w.k.cr3];
    !Walk(dir, addr, user, write).Large? && PageAt(e, dir, w.c, addr, user, write) == None
  }

  predicate InVideo(page: nat) {
    VIDEO <= page && page + PAGE <= VIDEO + VRAM
  }

  /** What the kernel reads at an address. */
  ghost function ByteAt(e: Env, w: Sys, addr: nat): Option<byte>
    requires Shape(w.k) && Consoles.Shaped(w.c) && addr < ENTRIES * MB4
  {
    var dir := w.k.dirs[w.k.cr3];
    var page := PageAt(e, dir, w.c, addr, false, false);
    match Walk(dir, addr, false, false)
    case Large(phys) => if phys / MB4 < FRAMES then Some(w.k.frames[phys / MB4][phys % MB4]) else None
    case _ => if page.Some? && InVideo(page.value) then Some(w.c.vram[page.value - VIDEO + PageOffset(addr)]) else None
  }

  ghost function MemoryAt(e: Env, w: Sys, ptr: nat): (m: Memory)
    requires Shape(w.k) && Consoles.Shaped(w.c)
    ensures forall i | 0 <= i < LINE_BUF_SIZE :: m[i] == ByteAt(e, w, (ptr + i) % (ENTRIES * MB4))
  {
    var read := (i: nat) requires i < LINE_BUF_SIZE => ByteAt(e, w, (ptr + i) % (ENTRIES * MB4));
    seq<Option<byte>>(LINE_BUF_SIZE, i requires 0 <= i < LINE_BUF_SIZE => read(i))
  }

  // ----- what can happen

  /** A store of one byte does not fault, and execute finds at its pointer what is there. */
  ghost predicate StepCan(e: Env, w: Sys, s: Step)
    requires Shaped(w)
  {
    match s
    case Poke(addr, _, user) => Enabled(w.k, s) && !NoAccess(e, w, addr, user, true)
    case Exec(_, _, ptr, m) => Enabled(w.k, s) && m == MemoryAt(e, w, ptr) && !Torn(e, w.k, s)
    case _ => Enabled(w.k, s)
  }

  /** A page fault: of an access by the program, or by a system call for it, after which the handler
      halts it; or of execute on its command, at the first byte it cannot read. */
  ghost predicate CrashCan(e: Env, w: Sys, ev: Event)
    requires Shaped(w) && ev.Crash?
  {
    && Enabled(w.k, ev.step) && ev.addr < ENTRIES * MB4
    && if ev.step.Exec? then
         && ev.step.m == MemoryAt(e, w, ev.step.ptr) && Torn(e, w.k, ev.step)
         && ev.addr == (ev.step.ptr + Readable(ev.step.m, 0)) % (ENTRIES * MB4) && !ev.user && !ev.write
       else Killed(ev.step) && NoAccess(e, w, ev.addr, ev.user, ev.write)
  }

  predicate Killed(s: Step) {
    s.Exit? && s.status == KILLED
  }

  /** A read goes on once Enter has been pressed on its terminal. */
  ghost predicate Can(e: Env, w: Sys, ev: Event) {
    match ev
    case Kernel(s) => Shaped(w) ==> StepCan(e, w, s)
    case Crash(_, _, _, _, _) => Shaped(w) ==> CrashCan(e, w, ev)
    case Trap(s, vector) => Enabled(w.k, s) && Killed(s) && vector < 32 && vector != 14
    case Press(key) => P.Enabled(P.Press(key))
    case Switch(_) => true
    case WriteCall(_) => true
    case ReadCall(_) => Shaped(w) ==> !w.c.terms[MyTerm(w)].typing
  }

  ghost predicate Ready(e: Env, w: Sys, ev: Event) {
    Shaped(w) && Can(e, w, ev) && (Moves(ev) ==> Defined(w.k, ev.step))
  }

  // ----- windows

  /** The first 4KB behind USER_VIDEO. */
  predicate InWindow(addr: nat) {
    USER_VIDEO <= addr < USER_VIDEO + PAGE
  }

  /** The terminal whose table a video entry names, if there is an entry. */
  ghost predicate LooksAt(e: Env, p: Pid, entry: nat, t: Option<nat>) {
    match t
    case None => entry == 0
    case Some(u) => u < TERMINALS && entry == VidmapEntry(e.tables, p, u)
  }

  /** The page the kernel prints terminal t on. */
  ghost function KernelPage(c: Console, t: nat): nat
    requires Consoles.Shaped(c) && t < TERMINALS
  {
    PageOf(c.table[VideoMem(t) / PAGE])
  }

  lemma TableEntryReach(c: Console, t: nat, i: nat, write: bool)
    requires Good(c) && t < TERMINALS && i < ENTRIES
    ensures Allows(c.userTables[t][i], true, write) <==> i == 0
    ensures Allows(c.userTables[t][i], false, write) <==> i == 0
    ensures PageOf(c.userTables[t][0]) == KernelPage(c, t)
  {
    hide Consoles.UserEntry, PageOf;
    P.UserPage(c, t);
    assert MapsOnly(c.userTables[t], VIDEO + Home(c.cur, t));
    UserEntryFlags(VIDEO + Home(c.cur, t));
    LowThree(c.userTables[t][0], write);
    UserIsEnough(c.userTables[t][0], write);
    ZeroAllowsNothing(write);
  }

  lemma UserEntryFlags(addr: nat)
    requires addr % PAGE == 0
    ensures Consoles.UserEntry(addr) % 8 == 7
  {
    hide Or;
    OrPage(addr, 0, USER_PAGE);
    OrZero(USER_PAGE);
    assert Consoles.UserEntry(addr) == addr + 7;
    DivModIs(addr + 7, 8, 512 * (addr / PAGE), 7);
  }

  lemma TablePageIs(e: Env, c: Console, t: nat, i: nat, user: bool, write: bool)
    requires Good(c) && t < TERMINALS && i < ENTRIES
    ensures TablePage(e, c, e.tables + PAGE * t, i, user, write) ==
      if i == 0 then Some(KernelPage(c, t)) else None
  {
    hide Allows, PageOf, Agree, KernelPage;
    DivModIs(PAGE * t, PAGE, t, 0);
    TableEntryReach(c, t, i, write);
  }

  /** Through its video entry a program gets to exactly one page, the one the kernel prints the
      entry's terminal on; without an entry, and at every other address, it gets to none. */
  lemma VideoPageIs(e: Env, k: State, c: Console, p: Pid, t: Option<nat>, addr: nat, write: bool)
    requires EnvOk(e) && Shape(k) && DirsOk(e, k) && Good(c) && addr < ENTRIES * MB4
    requires LooksAt(e, p, k.dirs[p][VIDEO_PDE], t)
    ensures VideoPage(e, k.dirs[p], c, addr, write) ==
      if InWindow(addr) && t.Some? then Some(KernelPage(c, t.value)) else None
  {
    assert e.tables % PAGE == 0;
    hide VidmapEntry, Agree, Walk, TablePage, DirsOk, EnvOk, PageOf, InWindow, TableIndex;
    hide TermOk, InVideoArea, KernelPage;
    WindowIndex(addr);
    VideoTargetIs(e, k, p, t, addr, write);
    if InVideoArea(addr) && t.Some? {
      TablePageIs(e, c, t.value, TableIndex(addr), true, write);
    }
  }

  /** From 8MB on a system call gets to the same page for its caller as the caller itself. */
  lemma CallerPage(e: Env, k: State, c: Console, p: Pid, t: Option<nat>, addr: nat, write: bool)
    requires EnvOk(e) && Shape(k) && DirsOk(e, k) && Good(c) && KERNEL_TOP <= addr < ENTRIES * MB4
    requires LooksAt(e, p, k.dirs[p][VIDEO_PDE], t)
    ensures PageAt(e, k.dirs[p], c, addr, false, write) == PageAt(e, k.dirs[p], c, addr, true, write)
  {
    assert e.tables % PAGE == 0 && Consoles.Shaped(c) && (t.Some? ==> t.value < TERMINALS);
    hide LooksAt, Good, Walk, TablePage, DirsOk, EnvOk, TableIndex, InVideoArea, PageAt;
    KernelReaches(e, k, p, addr, write);
    VideoTargetIs(e, k, p, t, addr, write);
    PageThrough(e, k.dirs[p], c, addr, true, write);
    PageThrough(e, k.dirs[p], c, addr, false, write);
    if t.Some? {
      SameTablePage(e, c, t.value, TableIndex(addr), write);
    }
  }

  lemma PageThrough(e: Env, dir: seq<nat>, c: Console, addr: nat, user: bool, write: bool)
    requires |dir| == ENTRIES && Consoles.Shaped(c) && addr < ENTRIES * MB4
    ensures var r := Walk(dir, addr, user, write);
      PageAt(e, dir, c, addr, user, write) ==
        if r.Table? then TablePage(e, c, r.base, TableIndex(addr), user, write) else None
  {
    hide Walk, TablePage, TableIndex;
  }

  lemma SameTablePage(e: Env, c: Console, t: nat, i: nat, write: bool)
    requires Good(c) && t < TERMINALS && i < ENTRIES
    ensures var base := e.tables + PAGE * t;
      TablePage(e, c, base, i, false, write) == TablePage(e, c, base, i, true, write)
  {
    hide TablePage, Good, KernelPage;
    TablePageIs(e, c, t, i, true, write);
    TablePageIs(e, c, t, i, false, write);
  }

  lemma WindowIndex(addr: nat)
    ensures InWindow(addr) <==> InVideoArea(addr) && TableIndex(addr) == 0
    ensures InWindow(addr) ==> addr >= USER_VIDEO && PageOffset(addr) == addr - USER_VIDEO
  {
    var at := addr - USER_VIDEO;
    if 0 <= at < MB4 {
      assert addr == PAGE * (ENTRIES * VIDEO_PDE) + at;
      DivModIs(addr, MB4, VIDEO_PDE, at);
      DivModIs(addr, PAGE, ENTRIES * VIDEO_PDE + at / PAGE, at % PAGE);
      DivModIs(addr / PAGE, ENTRIES, VIDEO_PDE, at / PAGE);
    }
  }

  lemma VideoTargetIs(e: Env, k: State, p: Pid, t: Option<nat>, addr: nat, write: bool)
    requires EnvOk(e) && Shape(k) && DirsOk(e, k) && addr < ENTRIES * MB4 && e.tables % PAGE == 0
    requires LooksAt(e, p, k.dirs[p][VIDEO_PDE], t)
    ensures var r := Walk(k.dirs[p], addr, true, write);
      if InVideoArea(addr) && t.Some? then r == Table(e.tables + PAGE * t.value) else !r.Table?
  {
    hide VidmapEntry, Processes.UserEntry, EntryOk, Allows, PageOf, EnvOk;
    var dir, i := k.dirs[p], addr / MB4;
    assert DirOk(e, p, dir);
    assert EntryOk(e, p, i, dir[i]);
    if i == VIDEO_PDE {
      if t.Some? {
        VidmapTarget(e.tables, p, t.value, write);
      } else {
        OtherEntryReach(e, p, i, dir[i], write);
      }
    } else if i == USER_PDE {
      UserEntryTarget(e, p, dir[i], write);
    } else {
      OtherEntryReach(e, p, i, dir[i], write);
    }
  }

  lemma VidmapTarget(tables: nat, p: Pid, t: nat, write: bool)
    requires tables % PAGE == 0 && t < TERMINALS
    ensures var x := VidmapEntry(tables, p, t);
      Allows(x, true, write) && x / FLAG_4MB_PAGE % 2 == 0 && PageOf(x) == tables + PAGE * t
  {
    hide VidmapEntry, PageOf, Allows;
    VidmapEntryIs(tables, p, t);
    LowThree(VidmapEntry(tables, p, t), write);
  }

  lemma UserEntryTarget(e: Env, p: Pid, x: nat, write: bool)
    requires EntryOk(e, p, USER_PDE, x)
    ensures !Allows(x, true, write) || x / FLAG_4MB_PAGE % 2 == 1
  {
    hide VidmapEntry, Processes.UserEntry, Or;
    OwnEntryReach(p, write);
  }

  // ----- events

  /** show_status: one cell per slot, by its two flags. */
  ghost function Colours(k: State): (r: seq<byte>)
    requires Shape(k)
    ensures |r| == MAX_USER_PROG
  {
    seq(MAX_USER_PROG, p requires 0 <= p < MAX_USER_PROG =>
      if !k.used[p] then ATTRIB else if k.active[p] then 0x20 else 0x40)
  }

  /** A store by the running program, or for it, that leads to video memory. */
  ghost function StoreVideo(e: Env, w: Sys, addr: nat, value: byte, user: bool): (r: Console)
    requires Shape(w.k) && Consoles.Shaped(w.c) && addr < ENTRIES * MB4
    ensures Consoles.Shaped(r)
  {
    var page := PageAt(e, w.k.dirs[w.k.cr3], w.c, addr, user, true);
    if page.Some? && InVideo(page.value)
    then w.c.(vram := w.c.vram[page.value - VIDEO + PageOffset(addr) := value]) else w.c
  }

  ghost function Outcome(e: Env, w: Sys, ev: Event): Sys
    requires EnvOk(e) && Ready(e, w, ev)
  {
    match ev
    case Kernel(s) => Sys(Next(e, w.k, s), KernelPart(e, w, s))
    case Crash(s, addr, _, _, eec) => Sys(Next(e, w.k, s), FaultBy(w.c, MyTerm(w), addr, eec))
    case Trap(s, vector) => Sys(Next(e, w.k, s), PrintBy(w.c, MyTerm(w), TrapText(vector)))
    case Press(key) => w.(c := OnKey(w.c, key))
    case Switch(t) => w.(c := SwitchTo(w.c, t))
    case WriteCall(text) => w.(c := WriteBy(w.c, MyTerm(w), text))
    case ReadCall(count) => w.(c := ReadBy(w.c, MyTerm(w), count))
  }

  /** execute finds no free slot, and says so. */
  ghost predicate Complains(k: State, s: Step)
    requires Shape(k)
  {
    s.Exec? && s.ptr != 0 && FirstFree(k.used, 0) == MAX_USER_PROG
  }

  /** What a step of the kernel or of the running program does to the console: a tick shows the
      process status, execute complains when the table is full, a store may be a draw. */
  ghost function KernelPart(e: Env, w: Sys, s: Step): Console
    requires Shaped(w) && Defined(w.k, s)
  {
    match s
    case Tick(_, _) => if w.k.shells < 3 then w.c else ShowStatus(w.c, Colours(w.k))
    case Exec(_, _, _, _) => if Complains(w.k, s) then PrintBy(w.c, MyTerm(w), P.FULL_MESSAGE) else w.c
    case Poke(addr, value, user) => StoreVideo(e, w, addr, value, user)
    case _ => w.c
  }

  /** The same as an event of the console, where `t` is the terminal the running program's window
      looks at. */
  ghost function EventOf(w: Sys, ev: Event, t: Option<nat>): Option<P.Event>
    requires Shaped(w) && (ev.Kernel? ==> Defined(w.k, ev.step))
  {
    match ev
    case Kernel(s) => StepEvent(w, s, t)
    case Crash(_, addr, _, _, eec) => Some(P.Faulted(MyTerm(w), addr, eec))
    case Trap(_, vector) => Some(P.Printed(MyTerm(w), TrapText(vector)))
    case Press(key) => Some(P.Press(key))
    case Switch(u) => Some(P.Switch(u))
    case WriteCall(text) => Some(P.Wrote(MyTerm(w), text))
    case ReadCall(count) => Some(P.Got(MyTerm(w), count))
  }

  ghost function StepEvent(w: Sys, s: Step, t: Option<nat>): Option<P.Event>
    requires Shaped(w) && Defined(w.k, s)
  {
    match s
    case Tick(_, _) => if w.k.shells < 3 then None else Some(P.Status(Colours(w.k)))
    case Exec(_, _, _, _) => if Complains(w.k, s) then Some(P.Printed(MyTerm(w), P.FULL_MESSAGE)) else None
    case Poke(addr, value, _) =>
      if InWindow(addr) && t.Some? then Some(P.Drew(t.value, addr - USER_VIDEO, value)) else None
    case _ => None
  }

  /** A page fault leaves the displayed line within reach of Backspace. */
  ghost predicate Tame(w: Sys, ev: Event)
    requires Shaped(w)
  {
    ev.Crash? ==> FaultFits(w.c, MyTerm(w), ev.addr, ev.eec)
  }

  ghost predicate Inv(e: Env, w: Sys, a: Calls) {
    Refines(w.k, a) && DirsOk(e, w.k) && Good(w.c)
  }

  lemma RunningIsReady(e: Env, w: Sys, a: Calls, ev: Event)
    requires EnvOk(e) && Inv(e, w, a) && Can(e, w, ev)
    ensures Ready(e, w, ev) && w.k.cr3 == Current(w.k) == Running(a) && w.k.used[Running(a)]
    ensures Moves(ev) ==> Enabled(w.k, ev.step)
  {
    hide Good, Next, NextCalls, MemoryAt, NoAccess, Torn;
    RefinesTables(w.k, a);
    assert OnStack(a.stacks[a.cur], Running(a));
    OnStackUsed(w.k, a, a.cur, Running(a));
    if Moves(ev) {
      Simulates(e, w.k, a, ev.step);
    }
  }

  lemma DrawIsStore(e: Env, w: Sys, a: Calls, addr: nat, value: byte, user: bool, t: Option<nat>)
    requires EnvOk(e) && Inv(e, w, a) && Shaped(w) && addr < ENTRIES * MB4 && w.k.cr3 == Current(w.k)
    requires !user ==> addr >= KERNEL_TOP
    requires LooksAt(e, w.k.cr3, w.k.dirs[w.k.cr3][VIDEO_PDE], t)
    ensures StoreVideo(e, w, addr, value, user) ==
      if InWindow(addr) && t.Some? then P.Draw(w.c, t.value, addr - USER_VIDEO, value) else w.c
  {
    hide Refines, DirsOk, PageAt, VidmapEntry, Agree, EnvOk, PageOffset, InWindow, PageOf, TermOk;
    VideoPageIs(e, w.k, w.c, w.k.cr3, t, addr, true);
    if !user {
      CallerPage(e, w.k, w.c, w.k.cr3, t, addr, true);
    }
    WindowIndex(addr);
    if t.Some? {
      P.UserPage(w.c, t.value);
    }
  }

  /** c' is what the event, if any, makes of c. */
  ghost predicate DoneTo(c: Console, x: Option<P.Event>, c': Console)
    requires Good(c)
  {
    if x.None? then c' == c else P.Enabled(x.value) && c' == P.Happens(c, x.value)
  }

  lemma KernelPartIs(e: Env, w: Sys, a: Calls, s: Step, t: Option<nat>)
    requires EnvOk(e) && Inv(e, w, a) && Shaped(w) && Defined(w.k, s) && w.k.cr3 == Current(w.k)
    requires LooksAt(e, w.k.cr3, w.k.dirs[w.k.cr3][VIDEO_PDE], t)
    ensures DoneTo(w.c, StepEvent(w, s, t), KernelPart(e, w, s))
  {
    hide Good, Refines, DirsOk, PageAt, StoreVideo, Colours, ShowStatus, PrintBy, P.Draw, VidmapEntry;
    hide Shape, EnvOk, OnKey, SwitchTo, WriteBy, ReadBy, FaultBy, FetchesAll;
    match s
    case Poke(addr, value, user) => DrawIsStore(e, w, a, addr, value, user, t);
    case Tick(_, _) =>
    case Exec(_, _, _, _) =>
    case Exit(_, _, _) =>
    case Vidmap(_, _) =>
  }

  lemma ConsolePartIs(e: Env, w: Sys, ev: Event, t: Option<nat>)
    requires EnvOk(e) && Ready(e, w, ev) && !ev.Kernel?
    ensures DoneTo(w.c, EventOf(w, ev, t), Outcome(e, w, ev).c)
    ensures Outcome(e, w, ev).k == if Moves(ev) then Next(e, w.k, ev.step) else w.k
  {
    hide Good, WriteBy, ReadBy, OnKey, SwitchTo, PrintBy, FaultBy, Shape, EnvOk, KernelPart, StepEvent, Next, Defined;
    match ev
    case Crash(_, _, _, _, _) =>
    case Trap(_, _) =>
    case Press(_) =>
    case Switch(_) =>
    case WriteCall(_) =>
    case ReadCall(_) =>
  }

  /** Every event keeps the table and the directories in order, and does to the console what its
      console event does; it keeps the console in order if and only if it is not a page fault on a
      hidden terminal that moves the displayed cursor too far up. */
  lemma EventStep(e: Env, w: Sys, a: Calls, ev: Event, t: Option<nat>) returns (a': Calls)
    requires EnvOk(e) && Inv(e, w, a) && Can(e, w, ev)
    requires Shaped(w) ==> LooksAt(e, Current(w.k), w.k.dirs[Current(w.k)][VIDEO_PDE], t)
    ensures Ready(e, w, ev) && DoneTo(w.c, EventOf(w, ev, t), Outcome(e, w, ev).c)
    ensures Refines(Outcome(e, w, ev).k, a') && DirsOk(e, Outcome(e, w, ev).k)
    ensures Good(Outcome(e, w, ev).c) <==> Tame(w, ev)
  {
    hide Good, Next, NextCalls, Refines, DirsOk, LooksAt, KernelPart, StepEvent, P.Happens, EnvOk, Shape, Enabled;
    RunningIsReady(e, w, a, ev);
    a' := a;
    if Moves(ev) {
      KernelKeeps(e, w.k, a, ev.step);
      a' := NextCalls(e, a, ev.step);
    }
    if ev.Kernel? {
      KernelPartIs(e, w, a, ev.step, t);
    } else {
      ConsolePartIs(e, w, ev, t);
    }
    var x := EventOf(w, ev, t);
    if x.Some? {
      P.EventKeepsGood(w.c, x.value);
      TameFits(w, ev, t);
    }
  }

  lemma TameFits(w: Sys, ev: Event, t: Option<nat>)
    requires Shaped(w) && (ev.Kernel? ==> Defined(w.k, ev.step))
    requires var x := EventOf(w, ev, t); x.Some? && P.Enabled(x.value)
    ensures P.Fits(w.c, EventOf(w, ev, t).value) <==> Tame(w, ev)
  {
    hide Good, Shape, FaultFits, Defined;
  }

  lemma KernelKeeps(e: Env, k: State, a: Calls, s: Step)
    requires EnvOk(e) && Refines(k, a) && DirsOk(e, k) && Enabled(k, s)
    ensures Live(a) && HeadOk(s) && Defined(k, s)
    ensures Refines(Next(e, k, s), NextCalls(e, a, s)) && DirsOk(e, Next(e, k, s))
  {
    hide Linked, Next, NextCalls, DirsOk;
    Simulates(e, k, a, s);
    StepKeepsDirs(e, k, a, s);
  }
}
