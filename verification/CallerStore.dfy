/** Where system calls store for their caller: the kernel goes through the caller's directory but
    is not bound by its user bits, and getargs does not look at its pointer (syscall.c). */
module CallerStores {
  import opened Machine
  import opened Paging
  import opened Commands
  import opened Processes
  import opened CallStacks
  import opened Lifecycle
  import opened Directories
  import opened Terminals
  import opened Consoles
  import opened UserMemory
  import opened Systems
  import P = Projection

  /** One byte stored by the kernel at any address; none on a fault. */
  ghost function StoreByte(e: Env, w: Sys, addr: nat, value: byte): Option<Sys>
    requires Shape(w.k) && Consoles.Shaped(w.c) && addr < ENTRIES * MB4
  {
    if NoAccess(e, w, addr, false, true) then None
    else Some(Sys(Store(w.k, addr, [value], false), StoreVideo(e, w, addr, value, false)))
  }

  /** Bytes stored one behind the other until one faults, and how many were. */
  ghost function StoreBytes(e: Env, w: Sys, ptr: nat, bytes: seq<byte>): (r: (Sys, nat))
    requires Shape(w.k) && Consoles.Shaped(w.c)
    ensures Shape(r.0.k) && Consoles.Shaped(r.0.c) && r.1 <= |bytes|
    decreases |bytes|
  {
    if bytes == [] then (w, 0)
    else
      var one := StoreByte(e, w, ptr % (ENTRIES * MB4), bytes[0]);
      if one.None? then (w, 0)
      else
        var (w', n) := StoreBytes(e, one.value, ptr + 1, bytes[1..]);
        (w', n + 1)
  }

  // ----- one byte, exactly

  lemma InvShape(e: Env, w: Sys, a: Calls)
    requires Inv(e, w, a)
    ensures Shape(w.k) && Live(a) && w.k.cr3 == Running(a) && Consoles.Shaped(w.c)
  {
  }

  const KERNEL_FRAME := 1

  /** The state with one byte of frame f changed. */
  ghost function InFrame(w: Sys, f: nat, at: nat, value: byte): (r: Sys)
    requires Shape(w.k) && f < FRAMES && at < MB4
  {
    w.(k := w.k.(frames := w.k.frames[f := Splice(w.k.frames[f], at, [value])]))
  }

  /** The state with one byte of video memory changed. */
  ghost function InVram(w: Sys, at: nat, value: byte): (r: Sys)
    requires Consoles.Shaped(w.c) && at < VRAM
  {
    w.(c := w.c.(vram := w.c.vram[at := value]))
  }

  lemma FrameAddress(f: nat, at: int)
    ensures 0 <= at < MB4 ==> (MB4 * f + at) / MB4 == f && (MB4 * f + at) % MB4 == at
  {
    if 0 <= at < MB4 {
      DivModIs(MB4 * f + at, MB4, f, at);
    }
  }

  lemma StoreLarge(e: Env, w: Sys, addr: nat, value: byte, f: nat, at: nat)
    requires Shape(w.k) && Consoles.Shaped(w.c) && addr < ENTRIES * MB4 && f < FRAMES && at < MB4
    requires Walk(w.k.dirs[w.k.cr3], addr, false, true) == Large(MB4 * f + at)
    ensures StoreByte(e, w, addr, value) == Some(InFrame(w, f, at, value))
  {
    hide Walk;
    FrameAddress(f, at);
  }

  lemma StorePaged(e: Env, w: Sys, addr: nat, value: byte, page: Option<nat>)
    requires Shape(w.k) && Consoles.Shaped(w.c) && addr < ENTRIES * MB4 && (page.Some? ==> InVideo(page.value))
    requires !Walk(w.k.dirs[w.k.cr3], addr, false, true).Large?
    requires PageAt(e, w.k.dirs[w.k.cr3], w.c, addr, false, true) == page
    ensures StoreByte(e, w, addr, value) ==
      if page.Some? then Some(InVram(w, page.value - VIDEO + PageOffset(addr), value)) else None
  {
    hide Walk, PageAt, PageOffset;
  }

  /** The two entries of the kernel in a directory that execute has filled in. */
  lemma KernelEntries(e: Env, dir: seq<nat>, p: Pid)
    requires EnvOk(e) && DirOk(e, p, dir) && dir[USER_PDE] == Processes.UserEntry(p)
    ensures dir[0] == e.videoTable + 3 && dir[1] == MB4 + 0x183
  {
    hide Processes.UserEntry, VidmapEntry, Or;
    OwnEntryReach(p, true);
    assert EntryOk(e, p, 0, dir[0]) && EntryOk(e, p, 1, dir[1]);
    VideoTableEntryIs(e.videoTable);
    KernelEntryIs();
  }

  lemma RunningEntries(e: Env, w: Sys, a: Calls)
    requires EnvOk(e) && Inv(e, w, a)
    ensures Shape(w.k) && w.k.dirs[w.k.cr3][0] == e.videoTable + 3 && w.k.dirs[w.k.cr3][1] == MB4 + 0x183
  {
    hide Linked, Processes.UserEntry, DirOk, EnvOk, Good;
    RunningMapped(w.k, a);
    assert DirOk(e, w.k.cr3, w.k.dirs[w.k.cr3]);
    KernelEntries(e, w.k.dirs[w.k.cr3], w.k.cr3);
  }

  lemma VideoTableWalk(dir: seq<nat>, table: nat, addr: nat)
    requires |dir| == ENTRIES && dir[0] == table + 3 && table % PAGE == 0 && addr < MB4
    ensures Walk(dir, addr, false, true) == Table(table)
  {
    VideoTableTarget(table);
  }

  lemma VideoTableTarget(table: nat)
    requires table % PAGE == 0
    ensures (table + 3) % 2 == 1 && (table + 3) / FLAG_4MB_PAGE % 2 == 0 && PageOf(table + 3) == table
  {
    var n := table / PAGE;
    DivModIs(table + 3, 2, 2048 * n + 1, 1);
    DivModIs(table + 3, FLAG_4MB_PAGE, 32 * n, 3);
    DivModIs(32 * n, 2, 16 * n, 0);
    DivModIs(table + 3, PAGE, n, 3);
  }

  lemma KernelPageWalk(dir: seq<nat>, addr: nat)
    requires |dir| == ENTRIES && dir[1] == MB4 + 0x183 && MB4 <= addr < KERNEL_TOP
    ensures Walk(dir, addr, false, true) == Large(addr)
  {
    DivModIs(addr, MB4, 1, addr - MB4);
  }

  /** The page of video memory the kernel reaches at an address below 4MB. */
  predicate Displayed(addr: nat) {
    VIDEO <= addr < VIDEO + PAGE * (TERMINALS + 1)
  }

  ghost function LowTablePage(c: Console, addr: nat): nat
    requires Consoles.Shaped(c) && addr < MB4
  {
    PageOf(c.table[addr / PAGE])
  }

  lemma LowPage(e: Env, w: Sys, a: Calls, addr: nat)
    requires EnvOk(e) && Inv(e, w, a) && addr < MB4
    ensures var page := PageAt(e, w.k.dirs[w.k.cr3], w.c, addr, false, true);
      if Displayed(addr) then page == Some(LowTablePage(w.c, addr)) && InVideo(page.value) else page == None
    ensures Walk(w.k.dirs[w.k.cr3], addr, false, true).Table?
  {
    RunningEntries(e, w, a);
    var i, dir := addr / PAGE, w.k.dirs[w.k.cr3];
    LowIndex(addr);
    LowEntry(w.c, i);
    hide Refines, DirsOk, PageOf, Walk, Good, Allows;
    VideoTableWalk(dir, e.videoTable, addr);
    assert TableEntry(e, w.c, e.videoTable, i) == w.c.table[i];
  }

  lemma LowIndex(addr: nat)
    requires addr < MB4
    ensures addr / PAGE < ENTRIES && TableIndex(addr) == addr / PAGE
    ensures Displayed(addr) <==> VIDEO_PTE <= addr / PAGE <= VIDEO_PTE + TERMINALS
  {
  }

  lemma LowEntry(c: Console, i: nat)
    requires Good(c) && i < ENTRIES
    ensures Allows(c.table[i], false, true) <==> VIDEO_PTE <= i <= VIDEO_PTE + TERMINALS
    ensures VIDEO_PTE <= i <= VIDEO_PTE + TERMINALS ==> InVideo(PageOf(c.table[i]))
  {
    hide PageOf, MapsOnly;
    if VIDEO_PTE < i <= VIDEO_PTE + TERMINALS {
      assert PageOf(c.table[VIDEO_PTE + 1 + (i - VIDEO_PTE - 1)]) == VIDEO + Home(c.cur, i - VIDEO_PTE - 1);
    }
  }

  lemma ShapeDirs(k: State)
    requires Shape(k)
    ensures |k.dirs| == MAX_USER_PROG && |k.dirs[k.cr3]| == ENTRIES
  {
  }

  lemma VideoByte(e: Env, w: Sys, a: Calls, addr: nat, value: byte)
    requires EnvOk(e) && Inv(e, w, a) && addr < MB4
    ensures Shape(w.k) && (Displayed(addr) ==> InVideo(LowTablePage(w.c, addr)))
    ensures StoreByte(e, w, addr, value) ==
      if Displayed(addr) then Some(InVram(w, LowTablePage(w.c, addr) - VIDEO + PageOffset(addr), value)) else None
  {
    hide Inv, EnvOk, PageOf, Walk, PageOffset, PageAt, LowTablePage, StoreByte, Displayed, Shape, Good;
    InvShape(e, w, a);
    ShapeDirs(w.k);
    LowPage(e, w, a, addr);
    StorePaged(e, w, addr, value, PageAt(e, w.k.dirs[w.k.cr3], w.c, addr, false, true));
  }

  lemma KernelByte(e: Env, w: Sys, a: Calls, addr: nat, value: byte)
    requires EnvOk(e) && Inv(e, w, a) && MB4 <= addr < KERNEL_TOP
    ensures Shape(w.k) && StoreByte(e, w, addr, value) == Some(InFrame(w, KERNEL_FRAME, addr - MB4, value))
  {
    hide Inv, EnvOk, Walk, StoreByte, Shape, InFrame;
    InvShape(e, w, a);
    RunningEntries(e, w, a);
    ShapeDirs(w.k);
    KernelPageWalk(w.k.dirs[w.k.cr3], addr);
    StoreLarge(e, w, addr, value, KERNEL_FRAME, addr - MB4);
  }

  /** Below 8MB a store reaches the display or the backing pages, or the kernel's own memory, or
      faults. */
  lemma LowByte(e: Env, w: Sys, a: Calls, addr: nat, value: byte)
    requires EnvOk(e) && Inv(e, w, a) && addr < KERNEL_TOP
    ensures Shape(w.k) && (Displayed(addr) ==> addr < MB4 && InVideo(LowTablePage(w.c, addr)))
    ensures StoreByte(e, w, addr, value) ==
      if addr >= MB4 then Some(InFrame(w, KERNEL_FRAME, addr - MB4, value))
      else if Displayed(addr) then Some(InVram(w, LowTablePage(w.c, addr) - VIDEO + PageOffset(addr), value))
      else None
  {
    DisplayedIsLow(addr);
    InvShape(e, w, a);
    hide Inv, EnvOk, PageOffset, LowTablePage, StoreByte, Displayed, Shape, Good, InFrame, InVram;
    if addr < MB4 {
      VideoByte(e, w, a, addr, value);
    } else {
      KernelByte(e, w, a, addr, value);
    }
  }

  lemma DisplayedIsLow(addr: nat)
    ensures Displayed(addr) ==> addr < MB4
  {
  }

  /** From 8MB on it reaches the caller's own page, or its window, or faults. */
  lemma HighByte(e: Env, w: Sys, a: Calls, addr: nat, value: byte, t: Option<nat>)
    requires EnvOk(e) && Inv(e, w, a) && KERNEL_TOP <= addr < ENTRIES * MB4
    requires LooksAt(e, w.k.cr3, w.k.dirs[w.k.cr3][VIDEO_PDE], t)
    ensures Home(w.c.cur, if t.Some? then t.value else 0) + PAGE <= VRAM
    ensures StoreByte(e, w, addr, value) ==
      if USER_MEM_LOCATION <= addr < USER_MEM_LOCATION + MB4
      then Some(InFrame(w, USER_FRAME + Running(a), addr - USER_MEM_LOCATION, value))
      else if InWindow(addr) && t.Some? then Some(InVram(w, Home(w.c.cur, t.value) + (addr - USER_VIDEO), value))
      else None
  {
    hide Refines, Processes.UserEntry, VidmapEntry, PageAt, Walk, Agree, DirsOk, LooksAt, PageOf, InWindow, EnvOk;
    hide PageOffset, KernelPage;
    InvShape(e, w, a);
    var p := w.k.cr3;
    hide StoreByte;
    HighWalk(e, w, a, addr);
    VideoPageIs(e, w.k, w.c, p, t, addr, true);
    CallerPage(e, w.k, w.c, p, t, addr, true);
    WindowPage(e, w, p, t);
    WindowIndex(addr);
    if USER_MEM_LOCATION <= addr < USER_MEM_LOCATION + MB4 {
      StoreLarge(e, w, addr, value, USER_FRAME + Running(a), addr - USER_MEM_LOCATION);
    } else {
      StorePaged(e, w, addr, value, PageAt(e, w.k.dirs[p], w.c, addr, false, true));
    }
  }

  lemma WindowPage(e: Env, w: Sys, p: Pid, t: Option<nat>)
    requires Good(w.c) && Shape(w.k) && LooksAt(e, p, w.k.dirs[p][VIDEO_PDE], t)
    ensures Home(w.c.cur, if t.Some? then t.value else 0) + PAGE <= VRAM
    ensures t.Some? ==> t.value < TERMINALS && KernelPage(w.c, t.value) == VIDEO + Home(w.c.cur, t.value)
  {
    hide VidmapEntry;
    if t.Some? {
      P.UserPage(w.c, t.value);
    }
  }

  lemma RunningDir(e: Env, w: Sys, a: Calls)
    requires Inv(e, w, a)
    ensures Shape(w.k) && Live(a) && DirsOk(e, w.k) && w.k.cr3 == Running(a)
    ensures w.k.dirs[w.k.cr3][USER_PDE] == Processes.UserEntry(w.k.cr3)
  {
    hide Linked, Processes.UserEntry, DirsOk, Good;
    RunningMapped(w.k, a);
  }

  lemma HighWalk(e: Env, w: Sys, a: Calls, addr: nat)
    requires EnvOk(e) && Inv(e, w, a) && KERNEL_TOP <= addr < ENTRIES * MB4
    ensures var r := Walk(w.k.dirs[w.k.cr3], addr, false, true);
      if USER_MEM_LOCATION <= addr < USER_MEM_LOCATION + MB4
      then r == Large(MB4 * (USER_FRAME + Running(a)) + (addr - USER_MEM_LOCATION))
      else !r.Large?
  {
    hide Inv, Processes.UserEntry, Walk, PageOf, DirsOk, Shape, EnvOk;
    RunningDir(e, w, a);
    ShapeDirs(w.k);
    KernelReaches(e, w.k, w.k.cr3, addr, true);
    ProgramWalk(e, w.k, w.k.cr3, addr, true);
  }

  // ----- many bytes

  lemma StoredKeeps(e: Env, w: Sys, a: Calls, w': Sys)
    requires Inv(e, w, a) && Shape(w'.k) && w'.k == w.k.(frames := w'.k.frames)
    requires Consoles.Shaped(w'.c) && w'.c == w.c.(vram := w'.c.vram)
    ensures Inv(e, w', a)
  {
    hide Linked, DirOk;
    SameTablesRefine(w.k, w'.k, a);
    AgreeKept(w.c, w'.c);
  }

  /** Of all memory at most frame f differs, and of video memory at most the page at `window`. */
  ghost predicate Spares(w: Sys, w': Sys, f: nat, window: Option<nat>)
    requires Shape(w.k) && Consoles.Shaped(w.c)
  {
    && Shape(w'.k) && w'.k == w.k.(frames := w'.k.frames)
    && (forall g | 0 <= g < FRAMES && g != f :: w'.k.frames[g] == w.k.frames[g])
    && Consoles.Shaped(w'.c) && w'.c == w.c.(vram := w'.c.vram)
    && (if window.Some? then OnlyPage(w.c.vram, w'.c.vram, window.value) else w'.c == w.c)
  }

  ghost function WindowAt(w: Sys, t: Option<nat>): Option<nat> {
    if t.Some? then Some(Home(w.c.cur, t.value)) else None
  }

  /** At a pointer from 8MB on, whatever is stored, however long and wherever it runs into a fault,
      stays in the caller's own frame and window. */
  lemma {:induction false} HighBytes(e: Env, w: Sys, a: Calls, ptr: nat, bytes: seq<byte>, t: Option<nat>)
    requires EnvOk(e) && Inv(e, w, a) && KERNEL_TOP <= ptr < ENTRIES * MB4
    requires LooksAt(e, w.k.cr3, w.k.dirs[w.k.cr3][VIDEO_PDE], t)
    ensures Spares(w, StoreBytes(e, w, ptr, bytes).0, USER_FRAME + Running(a), WindowAt(w, t))
    decreases |bytes|
  {
    hide Refines, DirsOk, EnvOk, StoreByte, LooksAt, Agree, Shape;
    InvShape(e, w, a);
    if bytes != [] {
      HighByte(e, w, a, ptr, bytes[0], t);
      var one := StoreByte(e, w, ptr, bytes[0]);
      if one.Some? {
        OneSpares(w, one.value, ptr, bytes[0], Running(a), t);
        StoredKeeps(e, w, a, one.value);
        HighBytes(e, one.value, a, ptr + 1, bytes[1..], t);
        SparesOn(w, one.value, StoreBytes(e, w, ptr, bytes).0, USER_FRAME + Running(a), WindowAt(w, t));
      }
    }
  }

  lemma OneSpares(w: Sys, w': Sys, ptr: nat, value: byte, p: Pid, t: Option<nat>)
    requires Shape(w.k) && Consoles.Shaped(w.c) && KERNEL_TOP <= ptr
    requires Home(w.c.cur, if t.Some? then t.value else 0) + PAGE <= VRAM
    requires w' == if USER_MEM_LOCATION <= ptr < USER_MEM_LOCATION + MB4
                   then InFrame(w, USER_FRAME + p, ptr - USER_MEM_LOCATION, value)
                   else if InWindow(ptr) && t.Some? then InVram(w, Home(w.c.cur, t.value) + (ptr - USER_VIDEO), value)
                   else w
    ensures Spares(w, w', USER_FRAME + p, WindowAt(w, t))
  {
  }

  lemma SparesOn(w: Sys, w1: Sys, w2: Sys, f: nat, window: Option<nat>)
    requires Shape(w.k) && Consoles.Shaped(w.c) && Spares(w, w1, f, window) && Spares(w1, w2, f, window)
    ensures Spares(w, w2, f, window)
  {
  }

  /** At a pointer into the kernel's 4MB page, the bytes go there, up to its end. */
  lemma {:induction false} KernelBytes(e: Env, w: Sys, a: Calls, ptr: nat, bytes: seq<byte>)
    requires EnvOk(e) && Inv(e, w, a) && MB4 <= ptr <= KERNEL_TOP
    ensures var n := Min(|bytes|, KERNEL_TOP - ptr);
      var kernel := Splice(w.k.frames[KERNEL_FRAME], ptr - MB4, bytes[..n]);
      StoreBytes(e, w, ptr, bytes) == (w.(k := w.k.(frames := w.k.frames[KERNEL_FRAME := kernel])), n)
    decreases |bytes|
  {
    hide Refines, DirsOk, EnvOk, StoreByte, LooksAt, Agree, Splice;
    InvShape(e, w, a);
    var kernel := w.k.frames[KERNEL_FRAME];
    if bytes == [] || ptr == KERNEL_TOP {
      SpliceNothing(kernel, ptr - MB4);
      assert bytes[..0] == [];
      assert w.k.frames == w.k.frames[KERNEL_FRAME := kernel];
      if bytes != [] {
        NothingAtTop(e, w, a, bytes[0]);
      }
    } else {
      LowByte(e, w, a, ptr, bytes[0]);
      var one := InFrame(w, KERNEL_FRAME, ptr - MB4, bytes[0]);
      StoredKeeps(e, w, a, one);
      KernelBytes(e, one, a, ptr + 1, bytes[1..]);
      var n := Min(|bytes|, KERNEL_TOP - ptr);
      SpliceMore(kernel, ptr - MB4, bytes[0], bytes[1..][..n - 1]);
      assert [bytes[0]] + bytes[1..][..n - 1] == bytes[..n];
      var first, last := Splice(kernel, ptr - MB4, [bytes[0]]), Splice(kernel, ptr - MB4, bytes[..n]);
      assert Min(|bytes[1..]|, KERNEL_TOP - (ptr + 1)) == n - 1;
      assert w.k.frames[KERNEL_FRAME := first][KERNEL_FRAME := last] == w.k.frames[KERNEL_FRAME := last];
      assert ptr % (ENTRIES * MB4) == ptr;
    }
  }

  lemma SpliceNothing(f: seq<byte>, at: nat)
    requires at <= |f|
    ensures Splice(f, at, []) == f
  {
  }

  lemma SpliceMore(f: seq<byte>, at: nat, b: byte, more: seq<byte>)
    requires at + 1 + |more| <= |f|
    ensures Splice(Splice(f, at, [b]), at + 1, more) == Splice(f, at, [b] + more)
  {
  }

  lemma NothingAtTop(e: Env, w: Sys, a: Calls, value: byte)
    requires EnvOk(e) && Inv(e, w, a)
    ensures Shape(w.k) && StoreByte(e, w, KERNEL_TOP, value) == None
  {
    hide Linked, Processes.UserEntry, Walk, PageOf, DirsOk;
    RunningMapped(w.k, a);
    KernelReaches(e, w.k, w.k.cr3, KERNEL_TOP, true);
    ProgramReaches(e, w.k, w.k.cr3, KERNEL_TOP, true);
  }

  /** Below 4MB no byte of the frames changes. */
  lemma {:induction false} VideoBytes(e: Env, w: Sys, a: Calls, ptr: nat, bytes: seq<byte>)
    requires EnvOk(e) && Inv(e, w, a) && ptr < MB4
    ensures StoreBytes(e, w, ptr, bytes).0.k == w.k
    decreases |bytes|
  {
    hide Refines, DirsOk, EnvOk, StoreByte, LooksAt, Agree, Shape, PageOf;
    InvShape(e, w, a);
    if bytes != [] {
      LowByte(e, w, a, ptr, bytes[0]);
      var one := StoreByte(e, w, ptr, bytes[0]);
      if one.Some? {
        StoredKeeps(e, w, a, one.value);
        VideoBytes(e, one.value, a, ptr + 1, bytes[1..]);
      }
    }
  }

  // ----- the calls

  datatype Copy = GetArgs(ptr: nat, nbytes: int) | ReadLine(ptr: nat, count: nat)

  /** What the call stores for the running process: read refuses a kernel pointer, getargs does not. */
  ghost function Copied(w: Sys, call: Copy): seq<byte>
    requires Systems.Shaped(w)
  {
    match call
    case GetArgs(_, nbytes) => CopiedArgs(w.k.pcbs[Current(w.k)].args, nbytes)
    case ReadLine(ptr, count) =>
      if ptr < KERNEL_TOP then [] else ReadBytes(Proj(w.c, MyTerm(w)), count) + [NUL]
  }

  /** The bytes are at the pointer already, as far as it leads into the kernel's page. */
  ghost predicate InPlace(k: State, ptr: nat, bytes: seq<byte>)
    requires Shape(k) && MB4 <= ptr < KERNEL_TOP
  {
    forall i | 0 <= i < |bytes| && ptr + i < KERNEL_TOP :: k.frames[KERNEL_FRAME][ptr - MB4 + i] == bytes[i]
  }

  /** A system call that copies out leaves every frame but its caller's alone if and only if it is
      not a getargs with a pointer into the kernel's page that changes a byte there. */
  lemma CopyExact(e: Env, w: Sys, a: Calls, call: Copy, t: Option<nat>)
    requires EnvOk(e) && Inv(e, w, a) && Systems.Shaped(w) && call.ptr < ENTRIES * MB4
    requires LooksAt(e, w.k.cr3, w.k.dirs[w.k.cr3][VIDEO_PDE], t)
    ensures var (w', n) := StoreBytes(e, w, call.ptr, Copied(w, call));
      (forall f | 0 <= f < FRAMES && f != USER_FRAME + Running(a) :: w'.k.frames[f] == w.k.frames[f]) <==>
        !(call.GetArgs? && MB4 <= call.ptr < KERNEL_TOP && !InPlace(w.k, call.ptr, Copied(w, call)))
  {
    hide Refines, DirsOk, EnvOk, StoreBytes, LooksAt, Good, Splice, Copied;
    InvShape(e, w, a);
    var bytes := Copied(w, call);
    if call.ptr >= KERNEL_TOP {
      HighBytes(e, w, a, call.ptr, bytes, t);
    } else if call.ptr < MB4 {
      VideoBytes(e, w, a, call.ptr, bytes);
    } else {
      KernelBytes(e, w, a, call.ptr, bytes);
      var n := Min(|bytes|, KERNEL_TOP - call.ptr);
      SpliceSame(w.k.frames[KERNEL_FRAME], call.ptr - MB4, bytes[..n]);
      ReadRefuses(w, call);
    }
  }

  lemma SpliceSame(f: seq<byte>, at: nat, bytes: seq<byte>)
    requires at + |bytes| <= |f|
    ensures Splice(f, at, bytes) == f <==> forall i | 0 <= i < |bytes| :: f[at + i] == bytes[i]
  {
    if forall i | 0 <= i < |bytes| :: f[at + i] == bytes[i] {
      forall j | at <= j < at + |bytes| ensures f[j] == bytes[j - at] {
        assert f[at + (j - at)] == bytes[j - at];
      }
    } else {
      var i :| 0 <= i < |bytes| && f[at + i] != bytes[i];
      assert Splice(f, at, bytes)[at + i] == bytes[i];
    }
  }

  lemma ReadRefuses(w: Sys, call: Copy)
    requires Systems.Shaped(w) && call.ptr < KERNEL_TOP
    ensures call.ReadLine? ==> Copied(w, call) == []
  {
  }

  /** A program's arguments stored at the start of the kernel's page, if that does not happen to
      begin with them, change the kernel. */
  lemma GetArgsSpills(e: Env, w: Sys, a: Calls)
    requires EnvOk(e) && Inv(e, w, a) && Systems.Shaped(w)
    requires var args := w.k.pcbs[Current(w.k)].args;
      |args| <= LINE_BUF_SIZE && (args + [NUL])[0] != w.k.frames[KERNEL_FRAME][0]
    ensures var w' := StoreBytes(e, w, MB4, Copied(w, GetArgs(MB4, LINE_BUF_SIZE + 1))).0;
      w'.k.frames[KERNEL_FRAME][0] == (w.k.pcbs[Current(w.k)].args + [NUL])[0] != w.k.frames[KERNEL_FRAME][0]
  {
    hide Refines, DirsOk, EnvOk, StoreBytes, Good;
    KernelBytes(e, w, a, MB4, Copied(w, GetArgs(MB4, LINE_BUF_SIZE + 1)));
  }

  /** Any byte a program has as its arguments can be put on the screen below 4MB: the first of them
      in the display's first cell. */
  lemma GetArgsDraws(e: Env, w: Sys, a: Calls)
    requires EnvOk(e) && Inv(e, w, a) && Systems.Shaped(w)
    ensures var args := w.k.pcbs[Current(w.k)].args;
      StoreByte(e, w, VIDEO, (args + [NUL])[0]) == Some(InVram(w, 0, (args + [NUL])[0]))
  {
    hide Refines, DirsOk, EnvOk, StoreByte, Agree;
    DrawsFirst(e, w, a, (w.k.pcbs[Current(w.k)].args + [NUL])[0]);
  }

  lemma DrawsFirst(e: Env, w: Sys, a: Calls, value: byte)
    requires EnvOk(e) && Inv(e, w, a)
    ensures Shape(w.k) && Consoles.Shaped(w.c) && StoreByte(e, w, VIDEO, value) == Some(InVram(w, 0, value))
  {
    FirstCell(w.c);
    hide Inv, EnvOk, StoreByte, PageOffset, LowTablePage, Displayed, Shape, Good;
    InvShape(e, w, a);
    VideoByte(e, w, a, VIDEO, value);
  }

  lemma FirstCell(c: Console)
    requires Good(c)
    ensures Displayed(VIDEO) && LowTablePage(c, VIDEO) == VIDEO && PageOffset(VIDEO) == 0
  {
    hide PageOf;
    assert VIDEO / PAGE == VIDEO_PTE;
  }
}
