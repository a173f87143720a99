/** Page directories: all 1024 entries of every process's directory, and where a program can get
    through them. */
module Directories {
  import opened Machine
  import opened Paging
  import opened Files
  import opened Commands
  import opened Processes
  import opened CallStacks
  import opened Lifecycle

  // ----- the flags of the entries

  /** The page of kernel mappings at address 0 lets no program through. */
  lemma VideoTableEntryIs(table: nat)
    requires table % PAGE == 0
    ensures var x := Or(table, FLAG_WRITE_ENABLE + FLAG_PRESENT); x == table + 3 && x / FLAG_USER % 2 == 0
  {
    hide Or;
    OrPage(table, 0, 3);
    OrZero(3);
    var n := table / PAGE;
    assert table + 3 == 4 * (2 * (512 * n)) + 3;
  }

  /** Nor does the kernel's own 4MB page. */
  lemma KernelEntryIs()
    ensures var x := Or(MB4, FLAG_4MB_PAGE + FLAG_WRITE_ENABLE + FLAG_PRESENT + FLAG_GLOBAL);
      x == MB4 + 0x183 && x / FLAG_USER % 2 == 0
  {
    hide Or;
    OrPage(MB4, 0, 0x183);
    OrZero(0x183);
  }

  /** The four bytes per process number land in flag bits that change nothing: the entry is
      present, writable and a user's, is not a 4MB page, and still points at the start of terminal
      t's table. */
  lemma VidmapEntryIs(tables: nat, p: Pid, t: nat)
    requires tables % PAGE == 0 && t < TERMINALS
    ensures var x := VidmapEntry(tables, p, t);
      x % 8 == 7 && x / FLAG_4MB_PAGE % 2 == 0 && PageOf(x) == tables + PAGE * t
  {
    hide Or;
    OrPage(tables + PAGE * t, 4 * p, 7);
    LowBits(p);
    SplitEntry(tables / PAGE + t, Or(4 * p, 7));
  }

  lemma LowBits(p: Pid)
    ensures Or(4 * p, 7) == 7 || Or(4 * p, 7) == 15 || Or(4 * p, 7) == 23
  {
    hide Or;
    var x := 4 * p;
    OrHalf(x, 7, x / 2);
    OrHalf(x / 2, 3, x / 4);
    OrHalf(x / 4, 1, x / 8);
    OrZero(x / 8);
  }

  lemma SplitEntry(n: nat, low: nat)
    requires low == 7 || low == 15 || low == 23
    ensures var x := PAGE * n + low; x % 8 == 7 && x / FLAG_4MB_PAGE % 2 == 0
  {
    BelowBit7(32 * n, low);
    assert PAGE * n == FLAG_4MB_PAGE * (32 * n) == 8 * (512 * n);
    assert 32 * n == 2 * (16 * n);
  }

  lemma BelowBit7(q: nat, low: nat)
    requires low < 128
    ensures (128 * q + low) / 128 == q
  {
  }

  // ----- what every step keeps

  lemma DirectoryOk(e: Env, p: Pid, dir: seq<nat>)
    requires DirOk(e, p, dir) && e.videoTable % PAGE == 0
    ensures DirOk(e, p, Directory(dir, p, e.videoTable))
  {
    hide UserEntry, VidmapEntry, Or;
    VideoTableEntryIs(e.videoTable);
    KernelEntryIs();
    var r := Directory(dir, p, e.videoTable);
    forall i | 0 <= i < ENTRIES ensures EntryOk(e, p, i, r[i]) {
      assert EntryOk(e, p, i, dir[i]);
    }
  }

  lemma ExecuteDirs(e: Env, k: State, regs: Regs, command: seq<byte>, residue: seq<byte>)
    requires EnvOk(e) && Shape(k) && |residue| == HEAD && 0 <= CurPcb(regs.esp) < MAX_USER_PROG && DirsOk(e, k)
    ensures DirsOk(e, Execute(e, k, regs, command, residue).0)
  {
    assert e.videoTable % PAGE == 0;
    hide Program, Walk, DirOk, Directory, EnvOk, Adopted;
    var p := FirstFree(k.used, 0);
    if p < MAX_USER_PROG {
      assert DirOk(e, p, k.dirs[p]);
      DirectoryOk(e, p, k.dirs[p]);
    }
  }

  lemma VidmapDirs(e: Env, k: State, regs: Regs, ptr: nat)
    requires Shape(k) && 0 <= CurPcb(regs.esp) < MAX_USER_PROG && ptr < ENTRIES * MB4 && DirsOk(e, k)
    requires k.pcbs[CurPcb(regs.esp)].terminal < TERMINALS
    ensures DirsOk(e, Processes.Vidmap(e, k, regs, ptr))
  {
    hide UserEntry, VidmapEntry, Or, Walk;
    var r, me := Processes.Vidmap(e, k, regs, ptr), k.pcbs[CurPcb(regs.esp)];
    forall p: Pid ensures DirOk(e, p, r.dirs[p]) {
      assert DirOk(e, p, k.dirs[p]);
      forall i | 0 <= i < ENTRIES ensures EntryOk(e, p, i, r.dirs[p][i]) {
        assert EntryOk(e, p, i, k.dirs[p][i]);
      }
    }
  }

  /** Every step keeps every entry of every directory one of those it may be. */
  lemma StepKeepsDirs(e: Env, k: State, a: Calls, s: Step)
    requires EnvOk(e) && Refines(k, a) && Enabled(k, s) && DirsOk(e, k)
    ensures Defined(k, s) && DirsOk(e, Next(e, k, s))
  {
    hide Linked, Execute, EnvOk, Walk, DirOk, Program;
    Simulates(e, k, a, s);
    match s
    case Tick(regs, residue) =>
      if k.shells < 3 {
        ExecuteDirs(e, Booting(k, CurPcb(regs.esp), regs), regs, SHELL, residue);
      }
    case Exec(_, _, _, _) => ExecDirs(e, k, a, s);
    case Exit(_, _, _) => ExitDirs(e, k, s);
    case Vidmap(regs, ptr) =>
      Caller(k, a, s);
      VidmapDirs(e, k, regs, ptr);
    case Poke(_, _, _) =>
  }

  lemma ExitDirs(e: Env, k: State, s: Step)
    requires EnvOk(e) && Defined(k, s) && DirsOk(e, k) && s.Exit?
    ensures DirsOk(e, Next(e, k, s))
  {
    hide Execute, EnvOk, Walk, DirOk, Program;
    var me: Pid := CurPcb(s.regs.esp);
    ExecuteDirs(e, Leaving(k, me, k.pcbs[me].parent.value), s.regs, SHELL, s.residue);
  }

  lemma ExecDirs(e: Env, k: State, a: Calls, s: Step)
    requires EnvOk(e) && Refines(k, a) && Enabled(k, s) && DirsOk(e, k) && s.Exec?
    ensures Defined(k, s) && DirsOk(e, Next(e, k, s))
  {
    hide Linked, Execute, EnvOk, Walk, DirOk, Program, Halt, Lookup, Reading;
    Caller(k, a, s);
    if Torn(e, k, s) {
      TornIsKilled(e, k, a, s);
      ExitDirs(e, AtFault(k, s), Killing(s));
    } else if s.ptr != 0 && FirstFree(k.used, 0) < MAX_USER_PROG {
      ExecuteDirs(e, k, s.regs, Asked(s).text, s.residue);
    }
  }

  /** Only a vidmap by process p itself changes p's entry for USER_VIDEO: not even its exit, nor
      the start of the next process in its slot. */
  lemma StepVideoEntry(e: Env, k: State, a: Calls, s: Step, p: Pid)
    requires EnvOk(e) && Refines(k, a) && Enabled(k, s)
    ensures Defined(k, s)
    ensures Next(e, k, s).dirs[p][VIDEO_PDE] ==
      if s.Vidmap? && s.ptr >= KERNEL_TOP && Current(k) == p then VidmapEntry(e.tables, p, k.pcbs[p].terminal)
      else k.dirs[p][VIDEO_PDE]
  {
    hide Linked, Execute, Walk, VidmapEntry, UserEntry, Program;
    Simulates(e, k, a, s);
    RefinesTables(k, a);
    if !s.Poke? {
      Caller(k, a, s);
      var me := Running(a);
      match s
      case Tick(regs, residue) =>
        if k.shells < 3 {
          RootsUsed(k, a);
          SchedBoots(e, k, me, s, k.shells);
        }
      case Exec(_, _, _, _) => ExecVideoEntry(e, k, a, s, p);
      case Exit(regs, residue, status) => ExitVideoEntry(e, k, a, s, p);
      case Vidmap(_, _) =>
    }
  }

  lemma ExecVideoEntry(e: Env, k: State, a: Calls, s: Step, p: Pid)
    requires EnvOk(e) && Refines(k, a) && Enabled(k, s) && s.Exec?
    ensures Defined(k, s) && Next(e, k, s).dirs[p][VIDEO_PDE] == k.dirs[p][VIDEO_PDE]
  {
    hide Linked, Execute, EnvOk, Walk, Program, Halt, Lookup, Reading, UserEntry;
    Caller(k, a, s);
    if Torn(e, k, s) {
      TornIsKilled(e, k, a, s);
      ExitVideoEntry(e, AtFault(k, s), LostOne(a), Killing(s), p);
    } else if s.ptr != 0 && FirstFree(k.used, 0) < MAX_USER_PROG {
      ExecuteSpawns(e, k, s.regs, Asked(s).text, s.residue, Running(a));
    }
  }

  lemma ExitVideoEntry(e: Env, k: State, a: Calls, s: Step, p: Pid)
    requires EnvOk(e) && Refines(k, a) && Enabled(k, s) && s.Exit?
    ensures Defined(k, s) && Next(e, k, s).dirs[p][VIDEO_PDE] == k.dirs[p][VIDEO_PDE]
  {
    hide Linked, Execute, Walk, VidmapEntry, UserEntry, Program, Leaving;
    Caller(k, a, s);
    var me := Running(a);
    var freed := Leaving(k, me, k.pcbs[me].parent.value);
    HaltFrees(e, k, s.regs, s.status, s.residue, me);
    ExecuteSpawns(e, freed, s.regs, SHELL, s.residue, me);
  }

  /** A process stays on its terminal for as long as its slot stays used. */
  lemma StepTerminal(e: Env, k: State, a: Calls, s: Step, p: Pid)
    requires EnvOk(e) && Refines(k, a) && Enabled(k, s) && k.used[p]
    ensures Defined(k, s)
    ensures Next(e, k, s).used[p] ==> Next(e, k, s).pcbs[p].terminal == k.pcbs[p].terminal
  {
    hide Linked, EnvOk, Next, NextCalls;
    Simulates(e, k, a, s);
    match s
    case Tick(_, _) => TickTerminal(e, k, a, s, p);
    case Exec(_, _, _, _) => ExecTerminal(e, k, a, s, p);
    case Exit(_, _, _) => ExitTerminal(e, k, a, s, p);
    case _ => OtherTerminal(e, k, s, p);
  }

  lemma OtherTerminal(e: Env, k: State, s: Step, p: Pid)
    requires EnvOk(e) && Defined(k, s) && (s.Vidmap? || s.Poke?)
    ensures Next(e, k, s).pcbs[p].terminal == k.pcbs[p].terminal
  {
    hide Store, EnvOk, VidmapEntry;
  }

  lemma TickTerminal(e: Env, k: State, a: Calls, s: Step, p: Pid)
    requires EnvOk(e) && Refines(k, a) && Enabled(k, s) && s.Tick? && k.used[p]
    ensures Defined(k, s) && Next(e, k, s).pcbs[p].terminal == k.pcbs[p].terminal
  {
    hide Linked, Execute, Walk, UserEntry, Program;
    Caller(k, a, s);
    if k.shells < 3 {
      RootsUsed(k, a);
      SchedBoots(e, k, Running(a), s, k.shells);
    }
  }

  lemma ExecTerminal(e: Env, k: State, a: Calls, s: Step, p: Pid)
    requires EnvOk(e) && Refines(k, a) && Enabled(k, s) && s.Exec? && k.used[p]
    ensures Defined(k, s) && Next(e, k, s).pcbs[p].terminal == k.pcbs[p].terminal
  {
    hide Linked, Execute, EnvOk, Walk, Program, Halt, Lookup, Reading, UserEntry;
    Caller(k, a, s);
    if Torn(e, k, s) {
      TornIsKilled(e, k, a, s);
      ExitTerminal(e, AtFault(k, s), LostOne(a), Killing(s), p);
    } else if s.ptr != 0 && FirstFree(k.used, 0) < MAX_USER_PROG {
      ExecuteSpawns(e, k, s.regs, Asked(s).text, s.residue, Running(a));
    }
  }

  lemma ExitTerminal(e: Env, k: State, a: Calls, s: Step, p: Pid)
    requires EnvOk(e) && Refines(k, a) && Enabled(k, s) && s.Exit?
    ensures Defined(k, s) && Next(e, k, s).pcbs[p].terminal == k.pcbs[p].terminal
  {
    hide Execute, Walk, VidmapEntry, UserEntry, Program, Leaving;
    Caller(k, a, s);
    var me := Running(a);
    var freed := Leaving(k, me, k.pcbs[me].parent.value);
    HaltFrees(e, k, s.regs, s.status, s.residue, me);
    if |a.stacks[a.cur]| == 1 {
      FreedRoot(k, freed, a);
    } else {
      assert StackOk(k, a.stacks[a.cur], a.cur, true);
    }
  }

  // ----- where a program can get

  lemma ThreeBits(q: nat)
    ensures (8 * q + 7) % 2 == 1 && (8 * q + 7) / 2 % 2 == 1 && (8 * q + 7) / 4 % 2 == 1
  {
    DivModIs(8 * q + 7, 2, 4 * q + 3, 1);
    DivModIs(4 * q + 3, 2, 2 * q + 1, 1);
    DivModIs(8 * q + 7, 4, 2 * q + 1, 3);
    DivModIs(2 * q + 1, 2, q, 1);
  }

  /** The three low bits set: present, writable, a user's. */
  lemma LowThree(x: nat, write: bool)
    requires x % 8 == 7
    ensures Allows(x, true, write)
  {
    ThreeBits(x / 8);
    assert x == 8 * (x / 8) + 7;
  }

  /** A video entry lets a program through to one of the three tables. */
  lemma VideoEntryReach(e: Env, p: Pid, x: nat, write: bool)
    requires EnvOk(e) && EntryOk(e, p, VIDEO_PDE, x) && x != 0
    ensures Allows(x, true, write) && x / FLAG_4MB_PAGE % 2 == 0
    ensures exists t | 0 <= t < TERMINALS :: PageOf(x) == e.tables + PAGE * t
  {
    hide VidmapEntry, UserEntry, Allows;
    var t :| 0 <= t < TERMINALS && x == VidmapEntry(e.tables, p, t);
    VidmapEntryIs(e.tables, p, t);
    LowThree(x, write);
  }

  lemma OwnEntryReach(p: Pid, write: bool)
    ensures var x := UserEntry(p);
      Allows(x, true, write) && x / FLAG_4MB_PAGE % 2 == 1 && x / MB4 * MB4 == MB4 * (USER_FRAME + p)
  {
    hide UserEntry;
    UserEntryIs(p);
  }

  lemma OtherEntryReach(e: Env, p: Pid, i: nat, x: nat, write: bool)
    requires EnvOk(e) && EntryOk(e, p, i, x) && (x == 0 || (i != USER_PDE && i != VIDEO_PDE))
    ensures !Allows(x, true, write)
  {
    hide UserEntry, VidmapEntry, Or, Allows;
    VideoTableEntryIs(e.videoTable);
    KernelEntryIs();
    ZeroAllowsNothing(write);
    NoUserBit(x, write);
  }

  lemma NoUserBit(x: nat, write: bool)
    ensures x / FLAG_USER % 2 == 0 ==> !Allows(x, true, write)
  {
  }

  /** From 8MB on the kernel, which need not heed the user bit, gets to the same places through a
      process's directory as the process itself. */
  lemma KernelReaches(e: Env, k: State, p: Pid, addr: nat, write: bool)
    requires EnvOk(e) && Shape(k) && DirsOk(e, k) && KERNEL_TOP <= addr < ENTRIES * MB4
    ensures Walk(k.dirs[p], addr, false, write) == Walk(k.dirs[p], addr, true, write)
  {
    hide UserEntry, EntryOk, EnvOk;
    var dir, i := k.dirs[p], addr / MB4;
    assert DirOk(e, p, dir);
    assert EntryOk(e, p, i, dir[i]);
    UserEntryAllows(e, p, i, dir[i], write);
  }

  lemma UserEntryAllows(e: Env, p: Pid, i: nat, x: nat, write: bool)
    requires EnvOk(e) && EntryOk(e, p, i, x) && i > 1
    ensures Allows(x, true, write) <==> Allows(x, false, write)
  {
    hide UserEntry, VidmapEntry, Allows, Or;
    if x == 0 {
      ZeroAllowsNothing(write);
    } else if i == USER_PDE {
      OwnEntryReach(p, write);
      UserIsEnough(x, write);
    } else {
      VideoEntryReach(e, p, x, write);
      UserIsEnough(x, write);
    }
  }

  lemma UserIsEnough(x: nat, write: bool)
    requires Allows(x, true, write)
    ensures Allows(x, false, write)
  {
  }

  lemma ZeroAllowsNothing(write: bool)
    ensures !Allows(0, true, write) && !Allows(0, false, write)
  {
  }

  /** Whatever address a program reads or writes, it gets to its own 4MB frame from its user page,
      to a terminal's video table from the USER_VIDEO page if its entry there is set, and to
      nothing from anywhere else. */
  lemma ProgramReaches(e: Env, k: State, p: Pid, addr: nat, write: bool)
    requires EnvOk(e) && Shape(k) && DirsOk(e, k) && addr < ENTRIES * MB4 && k.dirs[p][USER_PDE] == UserEntry(p)
    ensures Walk(k.dirs[p], addr, true, write) ==
      if addr / MB4 == USER_PDE then Large(MB4 * (USER_FRAME + p) + addr % MB4)
      else if addr / MB4 == VIDEO_PDE && k.dirs[p][VIDEO_PDE] != 0 then Table(PageOf(k.dirs[p][VIDEO_PDE]))
      else Fault
    ensures k.dirs[p][VIDEO_PDE] != 0 ==>
      exists t | 0 <= t < TERMINALS :: PageOf(k.dirs[p][VIDEO_PDE]) == e.tables + PAGE * t
  {
    hide UserEntry, EntryOk, EnvOk, Allows, PageOf;
    var dir, i := k.dirs[p], addr / MB4;
    assert DirOk(e, p, dir);
    assert EntryOk(e, p, i, dir[i]) && EntryOk(e, p, VIDEO_PDE, dir[VIDEO_PDE]);
    if dir[VIDEO_PDE] != 0 {
      VideoEntryReach(e, p, dir[VIDEO_PDE], write);
    }
    if i == USER_PDE {
      OwnEntryReach(p, write);
    } else if i != VIDEO_PDE || dir[i] == 0 {
      OtherEntryReach(e, p, i, dir[i], write);
    }
  }
}
