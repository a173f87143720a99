/** Address spaces: each process sees its own 4MB frame, and starts in a clean one. */
module UserMemory {
  import opened Machine
  import opened Paging
  import opened Files
  import opened Commands
  import opened Processes
  import opened CallStacks
  import opened Lifecycle
  import opened Directories
  import opened Runs

  const LOAD_OFFSET := USER_PROG_LOCATION - USER_MEM_LOCATION

  ghost function FrameOf(k: State, p: Pid): seq<byte>
    requires Shape(k)
  {
    k.frames[USER_FRAME + p]
  }

  /** The byte of memory a program reads at any address; none on a fault, and none where a page
      table leads on to video memory. */
  ghost function Load(k: State, addr: nat): Option<byte>
    requires Shape(k) && addr < ENTRIES * MB4
  {
    match Walk(k.dirs[k.cr3], addr, true, false)
    case Large(phys) => if phys / MB4 < FRAMES then Some(k.frames[phys / MB4][phys % MB4]) else None
    case _ => None
  }

  ghost predicate Mapped(k: State, p: Pid)
    requires Shape(k)
  {
    k.dirs[p][USER_PDE] == UserEntry(p)
  }

  lemma UserPageAddress(addr: nat)
    ensures addr / MB4 == USER_PDE <==> USER_MEM_LOCATION <= addr < USER_MEM_LOCATION + MB4
    ensures addr / MB4 == USER_PDE ==> addr % MB4 == addr - USER_MEM_LOCATION
  {
  }

  lemma WalkUser(k: State, p: Pid, offset: nat, user: bool, write: bool)
    requires Shape(k) && Mapped(k, p) && offset < MB4
    ensures Walk(k.dirs[p], USER_MEM_LOCATION + offset, user, write) == Large(MB4 * (USER_FRAME + p) + offset)
  {
    hide UserEntry;
    OwnEntryReach(p, write);
    assert (USER_MEM_LOCATION + offset) / MB4 == USER_PDE;
  }

  /** Outside its own page a program gets to no 4MB page. */
  lemma ProgramWalk(e: Env, k: State, p: Pid, addr: nat, write: bool)
    requires EnvOk(e) && Shape(k) && DirsOk(e, k) && addr < ENTRIES * MB4 && Mapped(k, p)
    ensures var r := Walk(k.dirs[p], addr, true, write);
      if USER_MEM_LOCATION <= addr < USER_MEM_LOCATION + MB4
      then r == Large(MB4 * (USER_FRAME + p) + (addr - USER_MEM_LOCATION))
      else !r.Large?
  {
    hide Walk, DirsOk, UserEntry, EnvOk, Shape;
    ProgramReaches(e, k, p, addr, write);
    UserPageAddress(addr);
  }

  /** Whoever runs, an address of the user page is a byte of its own frame. */
  lemma UserPageIsOwnFrame(k: State, a: Calls, offset: nat)
    requires Refines(k, a) && offset < MB4
    ensures Load(k, USER_MEM_LOCATION + offset) == Some(FrameOf(k, Running(a))[offset])
    ensures Current(k) == Running(a)
  {
    RefinesTables(k, a);
    RunningMapped(k, a);
    WalkUser(k, Running(a), offset, true, false);
  }

  lemma RunningMapped(k: State, a: Calls)
    requires Refines(k, a)
    ensures k.cr3 == Running(a) && Mapped(k, Running(a))
  {
    assert StackOk(k, a.stacks[a.cur], a.cur, true);
    assert FrameOk(k, a.stacks[a.cur], a.cur, |a.stacks[a.cur]| - 1, true);
  }

  lemma StoreOwnFrame(k: State, p: Pid, offset: nat, bytes: seq<byte>, user: bool)
    requires Shape(k) && k.cr3 == p && Mapped(k, p) && offset < MB4 && offset + |bytes| <= MB4
    ensures Store(k, USER_MEM_LOCATION + offset, bytes, user)
      == k.(frames := k.frames[USER_FRAME + p := Splice(FrameOf(k, p), offset, bytes)])
  {
    WalkUser(k, p, offset, user, true);
  }

  lemma ProgramFits(fs: Image, command: seq<byte>, residue: seq<byte>)
    requires WellFormed(fs) && ProgramsFit(fs) && |residue| == HEAD && Program(fs, command, residue).Some?
    ensures LOAD_OFFSET + |Program(fs, command, residue).value| <= MB4
  {
  }

  /** execute writes the program into the new process's frame and nothing else. */
  lemma ExecuteLoads(e: Env, k: State, regs: Regs, command: seq<byte>, residue: seq<byte>, p: Pid, b: seq<byte>)
    requires EnvOk(e) && Shape(k) && |residue| == HEAD && 0 <= CurPcb(regs.esp) < MAX_USER_PROG
    requires FirstFree(k.used, 0) == p && Program(e.fs, command, residue) == Some(b)
    ensures LOAD_OFFSET + |b| <= MB4 && IsNamedFile(e.fs, command, b)
    ensures Execute(e, k, regs, command, residue).0.frames
      == k.frames[USER_FRAME + p := Splice(FrameOf(k, p), LOAD_OFFSET, b)]
  {
    hide Program, Store, UserEntry, Directory, IsNamedFile;
    ProgramFits(e.fs, command, residue);
    ProgramIsFile(e.fs, command, residue);
    var blank := k.(pcbs := k.pcbs[p := Blank(p, command)]);
    StoreOwnFrame(Entered(e, blank, p), p, LOAD_OFFSET, b, false);
  }

  lemma ZeroedIsZeros(frame: seq<byte>)
    requires |frame| == MB4
    ensures Splice(frame, 0, Zeros()) == Zeros()
  {
  }

  /** halt zeroes the leaving process's frame and nothing else. */
  lemma LeavingClears(k: State, a: Calls, parent: Pid)
    requires Refines(k, a)
    ensures Leaving(k, Running(a), parent).frames == k.frames[USER_FRAME + Running(a) := Zeros()]
  {
    RunningMapped(k, a);
    StoreOwnFrame(k, Running(a), 0, Zeros(), false);
    ZeroedIsZeros(FrameOf(k, Running(a)));
  }

  lemma ExitFrames(e: Env, k: State, a: Calls, s: Step)
    requires EnvOk(e) && Refines(k, a) && Enabled(k, s) && s.Exit? && |a.stacks[a.cur]| > 1
    ensures Defined(k, s) && Next(e, k, s).frames == k.frames[USER_FRAME + Running(a) := Zeros()]
  {
    Caller(k, a, s);
    var st := a.stacks[a.cur];
    assert StackOk(k, st, a.cur, true) && st[|st| - 2].pid != Running(a);
    HaltFrees(e, k, s.regs, s.status, s.residue, Running(a));
    LeavingClears(k, a, st[|st| - 2].pid);
  }

  /** A shell that exits leaves a frame with the new shell's program and zeros around it. */
  lemma RestartFrames(e: Env, k: State, a: Calls, s: Step, b: seq<byte>)
    requires EnvOk(e) && Refines(k, a) && Enabled(k, s) && s.Exit? && |a.stacks[a.cur]| == 1
    requires Program(e.fs, SHELL, s.residue) == Some(b)
    ensures Defined(k, s) && LOAD_OFFSET + |b| <= MB4 && IsNamedFile(e.fs, SHELL, b)
    ensures Next(e, k, s).frames == k.frames[USER_FRAME + Running(a) := Splice(Zeros(), LOAD_OFFSET, b)]
  {
    hide Linked, Execute, Halt, Leaving, Spawned, Program, IsNamedFile;
    Caller(k, a, s);
    var me := Running(a);
    var freed := Leaving(k, me, me);
    HaltFrees(e, k, s.regs, s.status, s.residue, me);
    LeavingClears(k, a, me);
    FreedRoot(k, freed, a);
    ExecuteLoads(e, freed, s.regs, SHELL, s.residue, me, b);
  }

  /** execute is asked for a program it can read and that is one. */
  ghost predicate Starts(e: Env, s: Step)
    requires EnvOk(e)
  {
    && s.Exec? && |s.residue| == HEAD && s.ptr != 0 && !Faults(e.fs, Asked(s))
    && Program(e.fs, Asked(s).text, s.residue).Some?
  }

  lemma ExecFrames(e: Env, k: State, a: Calls, s: Step, p: Pid)
    requires EnvOk(e) && Refines(k, a) && Enabled(k, s) && Starts(e, s) && FirstFree(k.used, 0) == p
    ensures var b := Program(e.fs, Asked(s).text, s.residue).value;
      && Defined(k, s) && !k.used[p] && Next(e, k, s).used[p] && LOAD_OFFSET + |b| <= MB4
      && Next(e, k, s).frames == k.frames[USER_FRAME + p := Splice(FrameOf(k, p), LOAD_OFFSET, b)]
  {
    hide Program, Reading, Lookup, Store, Linked;
    Caller(k, a, s);
    var text := Asked(s).text;
    ExecuteSpawns(e, k, s.regs, text, s.residue, Running(a));
    ExecuteLoads(e, k, s.regs, text, s.residue, p, Program(e.fs, text, s.residue).value);
  }

  lemma BootFrames(e: Env, k: State, a: Calls, s: Step, p: Pid)
    requires EnvOk(e) && Refines(k, a) && Enabled(k, s) && s.Tick? && p == k.shells < 3
    ensures Defined(k, s) && !k.used[p] && Next(e, k, s).used[p]
    ensures forall f | 0 <= f < FRAMES && f != USER_FRAME + p :: Next(e, k, s).frames[f] == k.frames[f]
  {
    hide Linked, Execute, Spawned, Program;
    Caller(k, a, s);
    RootsUsed(k, a);
    ShellIsProgram(e.fs, s.residue);
    SchedBoots(e, k, Running(a), s, p);
    ExecuteLoads(e, Booting(k, Running(a), s.regs), s.regs, SHELL, s.residue, p, Program(e.fs, SHELL, s.residue).value);
  }

  /** Dispatching, and an execute that fails, leave memory alone. */
  lemma QuietFrames(e: Env, k: State, s: Step)
    requires EnvOk(e) && Defined(k, s)
    requires if s.Exec? then !Torn(e, k, s) && (FirstFree(k.used, 0) == MAX_USER_PROG || !Starts(e, s))
             else s.Tick? && k.shells >= 3
    ensures Next(e, k, s).frames == k.frames
  {
    hide Program, Reading, Lookup;
  }

  /** A program's store at any of the 2^32 addresses, or a system call's at a pointer of it that is
      not refused: a byte of its own frame if the address is in its page, and no byte of memory if it
      is anywhere else. */
  lemma ProgramStores(e: Env, k: State, a: Calls, addr: nat, value: byte, user: bool)
    requires EnvOk(e) && Refines(k, a) && DirsOk(e, k) && addr < ENTRIES * MB4 && (!user ==> addr >= KERNEL_TOP)
    ensures Store(k, addr, [value], user) ==
      if USER_MEM_LOCATION <= addr < USER_MEM_LOCATION + MB4
      then k.(frames := k.frames[USER_FRAME + Running(a) := FrameOf(k, Running(a))[addr - USER_MEM_LOCATION := value]])
      else k
  {
    hide Linked, DirsOk, UserEntry, Walk, EnvOk;
    RunningMapped(k, a);
    ProgramWalk(e, k, Running(a), addr, true);
    if !user {
      KernelReaches(e, k, Running(a), addr, true);
    }
    if USER_MEM_LOCATION <= addr < USER_MEM_LOCATION + MB4 {
      var at := addr - USER_MEM_LOCATION;
      StoreOwnFrame(k, Running(a), at, [value], user);
      assert Splice(FrameOf(k, Running(a)), at, [value]) == FrameOf(k, Running(a))[at := value];
    }
  }

  /** What a program reads at any of the 2^32 addresses: its own frame's byte in its page, and no
      byte of memory anywhere else. */
  lemma ProgramLoads(e: Env, k: State, a: Calls, addr: nat)
    requires EnvOk(e) && Refines(k, a) && DirsOk(e, k) && addr < ENTRIES * MB4
    ensures Load(k, addr) ==
      if USER_MEM_LOCATION <= addr < USER_MEM_LOCATION + MB4
      then Some(FrameOf(k, Running(a))[addr - USER_MEM_LOCATION]) else None
  {
    hide Linked, DirsOk, UserEntry, Walk, EnvOk;
    RunningMapped(k, a);
    ProgramWalk(e, k, Running(a), addr, false);
    if USER_MEM_LOCATION <= addr < USER_MEM_LOCATION + MB4 {
      UserPageIsOwnFrame(k, a, addr - USER_MEM_LOCATION);
    }
  }

  /** Programs cannot see each other's memory: whatever differs outside the running process's own
      frame, it reads the same at every address. */
  lemma LoadsSeeOwnFrame(e: Env, k: State, k': State, a: Calls, addr: nat)
    requires EnvOk(e) && Refines(k, a) && DirsOk(e, k) && addr < ENTRIES * MB4
    requires Shape(k') && k' == k.(frames := k'.frames) && FrameOf(k', Running(a)) == FrameOf(k, Running(a))
    ensures Load(k', addr) == Load(k, addr)
  {
    SameTablesRefine(k, k', a);
    ProgramLoads(e, k, a, addr);
    ProgramLoads(e, k', a, addr);
  }

  lemma VidmapFrames(e: Env, k: State, a: Calls, s: Step)
    requires EnvOk(e) && Refines(k, a) && Enabled(k, s) && s.Vidmap?
    ensures Defined(k, s)
    ensures forall f | 0 <= f < FRAMES && f != USER_FRAME + Running(a) :: Next(e, k, s).frames[f] == k.frames[f]
  {
    Caller(k, a, s);
    RunningMapped(k, a);
    if s.ptr >= KERNEL_TOP {
      StoreOwnFrame(k, Running(a), s.ptr - USER_MEM_LOCATION, USER_VIDEO_BYTES, false);
    }
  }

  /** The pointer a program finds in the four bytes at an address of its page, lowest byte first. */
  ghost function PointerAt(k: State, addr: nat): Option<nat>
    requires Shape(k) && addr + 3 < ENTRIES * MB4
  {
    var b0, b1, b2, b3 := Load(k, addr), Load(k, addr + 1), Load(k, addr + 2), Load(k, addr + 3);
    if b0.Some? && b1.Some? && b2.Some? && b3.Some?
    then Some(LittleEndian([b0.value, b1.value, b2.value, b3.value])) else None
  }

  /** The number whose four bytes these are, lowest first. */
  function LittleEndian(b: seq<byte>): nat
    requires |b| == 4
  {
    var b0: nat, b1: nat, b2: nat, b3: nat := b[0], b[1], b[2], b[3];
    b0 + 256 * b1 + 65536 * b2 + 16777216 * b3
  }

  /** A vidmap that is not refused tells its caller USER_VIDEO, in the four bytes at the pointer, and
      changes no other byte of memory; one that is refused changes nothing. */
  lemma VidmapTells(e: Env, k: State, a: Calls, s: Step)
    requires EnvOk(e) && Refines(k, a) && Enabled(k, s) && s.Vidmap?
    ensures Defined(k, s)
    ensures var k', at := Next(e, k, s), s.ptr - USER_MEM_LOCATION;
      if s.ptr < KERNEL_TOP then k' == k
      else
        && PointerAt(k', s.ptr) == Some(USER_VIDEO)
        && (forall i | 0 <= i < MB4 && !(at <= i < at + 4) :: FrameOf(k', Running(a))[i] == FrameOf(k, Running(a))[i])
        && forall f | 0 <= f < FRAMES && f != USER_FRAME + Running(a) :: k'.frames[f] == k.frames[f]
  {
    hide Linked, UserEntry, VidmapEntry, Next, Splice, EnvOk;
    VidmapStores(e, k, a, s);
    if s.ptr >= KERNEL_TOP {
      var at := s.ptr - USER_MEM_LOCATION;
      Simulates(e, k, a, s);
      SplicedPointer(FrameOf(k, Running(a)), at);
      PointerInFrame(Next(e, k, s), NextCalls(e, a, s), at);
    }
  }

  lemma VidmapStores(e: Env, k: State, a: Calls, s: Step)
    requires EnvOk(e) && Refines(k, a) && Enabled(k, s) && s.Vidmap?
    ensures Defined(k, s)
    ensures s.ptr < KERNEL_TOP ==> Next(e, k, s) == k
    ensures s.ptr >= KERNEL_TOP ==>
      && s.ptr >= USER_MEM_LOCATION && s.ptr - USER_MEM_LOCATION + 4 <= MB4
      && var told := Splice(FrameOf(k, Running(a)), s.ptr - USER_MEM_LOCATION, USER_VIDEO_BYTES);
      Next(e, k, s).frames == k.frames[USER_FRAME + Running(a) := told]
  {
    hide Linked, UserEntry, VidmapEntry, Splice, EnvOk, Store;
    Caller(k, a, s);
    RunningMapped(k, a);
    if s.ptr >= KERNEL_TOP {
      StoreOwnFrame(k, Running(a), s.ptr - USER_MEM_LOCATION, USER_VIDEO_BYTES, false);
    }
  }

  lemma SplicedPointer(f: seq<byte>, at: nat)
    requires at + 4 <= |f|
    ensures var r := Splice(f, at, USER_VIDEO_BYTES);
      && LittleEndian(r[at..at + 4]) == USER_VIDEO
      && forall i | 0 <= i < |f| && !(at <= i < at + 4) :: r[i] == f[i]
  {
    assert Splice(f, at, USER_VIDEO_BYTES)[at..at + 4] == USER_VIDEO_BYTES;
  }

  lemma PointerInFrame(k: State, a: Calls, at: nat)
    requires Refines(k, a) && at + 4 <= MB4
    ensures PointerAt(k, USER_MEM_LOCATION + at) == Some(LittleEndian(FrameOf(k, Running(a))[at..at + 4]))
  {
    hide Linked, Load, LittleEndian;
    UserPageIsOwnFrame(k, a, at);
    UserPageIsOwnFrame(k, a, at + 1);
    UserPageIsOwnFrame(k, a, at + 2);
    UserPageIsOwnFrame(k, a, at + 3);
    var f := FrameOf(k, Running(a));
    assert f[at..at + 4] == [f[at], f[at + 1], f[at + 2], f[at + 3]];
  }

  /** halt changes the frame of the process that halts and no other. */
  lemma EndFrames(e: Env, k: State, a: Calls, s: Step)
    requires EnvOk(e) && Refines(k, a) && Enabled(k, s) && s.Exit?
    ensures Defined(k, s)
    ensures forall f | 0 <= f < FRAMES && f != USER_FRAME + Running(a) :: Next(e, k, s).frames[f] == k.frames[f]
  {
    hide Linked, Sched, Execute, Halt, Program, Store, Next;
    ShellIsProgram(e.fs, s.residue);
    if |a.stacks[a.cur]| > 1 {
      ExitFrames(e, k, a, s);
    } else {
      RestartFrames(e, k, a, s, Program(e.fs, SHELL, s.residue).value);
    }
  }

  /** A step changes at most one 4MB frame: the running process's own, or that of a process it
      starts in a slot that was free. The kernel's frames 0 and 1 are never among them. */
  lemma Isolation(e: Env, k: State, a: Calls, s: Step) returns (q: Pid)
    requires EnvOk(e) && Refines(k, a) && DirsOk(e, k) && Enabled(k, s)
    ensures Defined(k, s)
    ensures q == Running(a) || (!k.used[q] && Next(e, k, s).used[q])
    ensures forall f | 0 <= f < FRAMES && f != USER_FRAME + q :: Next(e, k, s).frames[f] == k.frames[f]
  {
    hide Linked, Sched, Execute, Halt, Program, Store, DirsOk, Processes.Vidmap;
    q := Running(a);
    if s.Poke? {
      ProgramStores(e, k, a, s.addr, s.value, s.user);
      return;
    } else if s.Vidmap? {
      VidmapFrames(e, k, a, s);
      return;
    }
    Caller(k, a, s);
    if s.Exit? {
      EndFrames(e, k, a, s);
    } else if Torn(e, k, s) {
      TornIsKilled(e, k, a, s);
      EndFrames(e, AtFault(k, s), LostOne(a), Killing(s));
    } else if s.Tick? && k.shells < 3 {
      q := k.shells;
      BootFrames(e, k, a, s, q);
    } else if s.Exec? && FirstFree(k.used, 0) < MAX_USER_PROG && Starts(e, s) {
      q := FirstFree(k.used, 0);
      ExecFrames(e, k, a, s, q);
    } else {
      QuietFrames(e, k, s);
    }
  }

  lemma FreeFrameStep(e: Env, k: State, a: Calls, s: Step, k': State, p: Pid)
    requires EnvOk(e) && Refines(k, a) && DirsOk(e, k) && Steps(e, k, s, k') && !k.used[p]
    requires Shape(k') ==> !k'.used[p]
    ensures Shape(k) && Shape(k') && Live(a) && HeadOk(s) && Refines(k', NextCalls(e, a, s)) && DirsOk(e, k')
    ensures FrameOf(k', p) == FrameOf(k, p)
  {
    hide Next, NextCalls, Linked, DirsOk, EnvOk;
    Simulates(e, k, a, s);
    StepKeepsDirs(e, k, a, s);
    var q := Isolation(e, k, a, s);
    assert OnStack(a.stacks[a.cur], Running(a));
    OnStackUsed(k, a, a.cur, Running(a));
  }

  /** A frame that is zero while its slot is free stays zero for as long as the slot stays free. */
  lemma {:induction false} FreeFrameStaysZero(e: Env, ks: seq<State>, ss: seq<Step>, a: Calls, p: Pid)
    requires EnvOk(e) && Path(e, ks, ss) && Refines(ks[0], a) && DirsOk(e, ks[0]) && FrameOf(ks[0], p) == Zeros()
    requires forall i | 0 <= i < |ks| :: Shape(ks[i]) ==> !ks[i].used[p]
    ensures Shape(ks[|ss|]) && FrameOf(ks[|ss|], p) == Zeros()
    decreases |ss|
  {
    hide Next, NextCalls, Linked, Zeros, DirsOk, EnvOk, Steps, Shape;
    if ss != [] {
      assert Steps(e, ks[0], ss[0], ks[1]);
      FreeFrameStep(e, ks[0], a, ss[0], ks[1], p);
      PathTail(e, ks, ss);
      FreeFrameStaysZero(e, ks[1..], ss[1..], NextCalls(e, a, ss[0]), p);
    }
  }

  /** At this offset of its page the running program finds its file's byte, or zero outside it. */
  ghost predicate SeesOnly(k: State, program: seq<byte>, offset: nat)
    requires Shape(k) && offset < MB4
  {
    Load(k, USER_MEM_LOCATION + offset)
      == Some(if LOAD_OFFSET <= offset < LOAD_OFFSET + |program| then program[offset - LOAD_OFFSET] else 0)
  }

  /** At this offset of its page the running program finds the byte that the image has there for the
      file of inode n, loaded at 0x48000, and zero before and behind the file. */
  ghost predicate SeesFile(k: State, fs: Image, n: nat, offset: nat)
    requires Shape(k) && offset < MB4
  {
    var found, at := Load(k, USER_MEM_LOCATION + offset), offset - 0x48000;
    if n < |fs.inodes| && 0 <= at < fs.inodes[n].length then
      && at / 4096 < |fs.inodes[n].blocks| && 4096 * fs.inodes[n].blocks[at / 4096] + at % 4096 < |fs.data|
      && found == Some(fs.data[4096 * fs.inodes[n].blocks[at / 4096] + at % 4096])
    else found == Some(0)
  }

  lemma SeesNamedFile(k: State, fs: Image, command: seq<byte>, program: seq<byte>, offset: nat)
    requires Shape(k) && offset < MB4 && IsNamedFile(fs, command, program) && SeesOnly(k, program, offset)
    ensures SeesFile(k, fs, Lookup(fs.entries, Name(command)).value.inode, offset)
  {
    hide Lookup, Name, Load;
  }

  /** From the exit of one program to the start of the next in the same slot: the new program
      finds exactly its file at the load address, and zeros everywhere else in its page. */
  lemma CleanStart(e: Env, ks: seq<State>, ss: seq<Step>, a: Calls, p: Pid, offset: nat)
    requires EnvOk(e) && Path(e, ks, ss) && Refines(ks[0], a) && DirsOk(e, ks[0]) && |ss| >= 2 && offset < MB4
    requires ss[0].Exit? && Current(ks[0]) == p && p > 2
    requires forall i | 1 <= i < |ss| :: Shape(ks[i]) ==> !ks[i].used[p]
    requires ss[|ss| - 1].Exec? && Current(ks[|ss|]) == p
    ensures var s, k' := ss[|ss| - 1], ks[|ss|];
      && Starts(e, s) && Shape(k')
      && var d := Lookup(e.fs.entries, Name(Asked(s).text)); d.Some? && SeesFile(k', e.fs, d.value.inode, offset)
  {
    hide Next, NextCalls, Linked, Zeros, SeesOnly, SeesFile, Program, IsNamedFile, Lookup, Reading;
    var n := |ss| - 1;
    var b := ZeroSinceExit(e, ks, ss, a, p, n);
    assert Steps(e, ks[n], ss[n], ks[n + 1]);
    Simulates(e, ks[n], b, ss[n]);
    assert !ks[n].used[p];
    StartedFrame(e, ks[n], b, ss[n], p, offset);
    StartsFile(e, ss[n]);
    SeesNamedFile(ks[n + 1], e.fs, Asked(ss[n]).text, Program(e.fs, Asked(ss[n]).text, ss[n].residue).value, offset);
  }

  lemma StartsFile(e: Env, s: Step)
    requires EnvOk(e) && Starts(e, s)
    ensures IsNamedFile(e.fs, Asked(s).text, Program(e.fs, Asked(s).text, s.residue).value)
    ensures Lookup(e.fs.entries, Name(Asked(s).text)).Some?
  {
    hide Program, Lookup, Reading, IsFile;
    ProgramIsFile(e.fs, Asked(s).text, s.residue);
  }

  lemma ZeroSinceExit(e: Env, ks: seq<State>, ss: seq<Step>, a: Calls, p: Pid, n: nat) returns (b: Calls)
    requires EnvOk(e) && Path(e, ks, ss) && Refines(ks[0], a) && DirsOk(e, ks[0]) && 1 <= n < |ks|
    requires ss[0].Exit? && Current(ks[0]) == p && p > 2
    requires forall i | 1 <= i <= n :: Shape(ks[i]) ==> !ks[i].used[p]
    ensures Refines(ks[n], b) && FrameOf(ks[n], p) == Zeros()
  {
    hide Next, NextCalls, Linked, Zeros, DirsOk;
    assert Steps(e, ks[0], ss[0], ks[1]);
    Simulates(e, ks[0], a, ss[0]);
    RefinesTables(ks[0], a);
    var a1 := NextCalls(e, a, ss[0]);
    ExitedFrame(e, ks[0], a, ss[0], p);
    StepKeepsDirs(e, ks[0], a, ss[0]);
    PathMiddle(e, ks, ss, n);
    FreeFrameStaysZero(e, ks[1..n + 1], ss[1..n], a1, p);
    RunRefines(e, ks[1..n + 1], ss[1..n], a1);
    b := Follow(e, a1, ss[1..n]);
  }

  lemma PathMiddle(e: Env, ks: seq<State>, ss: seq<Step>, n: nat)
    requires EnvOk(e) && Path(e, ks, ss) && 1 <= n <= |ss|
    ensures Path(e, ks[1..n + 1], ss[1..n])
  {
    forall i | 0 <= i < n - 1 ensures Steps(e, ks[1..n + 1][i], ss[1..n][i], ks[1..n + 1][i + 1]) {
      assert Steps(e, ks[i + 1], ss[i + 1], ks[i + 2]);
    }
  }

  lemma ExitedFrame(e: Env, k: State, a: Calls, s: Step, p: Pid)
    requires EnvOk(e) && Refines(k, a) && Enabled(k, s) && s.Exit? && Running(a) == p > 2
    ensures Defined(k, s) && FrameOf(Next(e, k, s), p) == Zeros()
  {
    assert StackOk(k, a.stacks[a.cur], a.cur, true) && FrameOk(k, a.stacks[a.cur], a.cur, 0, true);
    ExitFrames(e, k, a, s);
  }

  /** A process that was not there before runs after an execute only if that started it. */
  lemma StartsNew(e: Env, k: State, a: Calls, s: Step, p: Pid)
    requires EnvOk(e) && Refines(k, a) && Enabled(k, s) && s.Exec? && !k.used[p]
    requires Defined(k, s) && Current(Next(e, k, s)) == p
    ensures Starts(e, s) && FirstFree(k.used, 0) == p
  {
    hide Linked, Next, NextCalls, Program, Faults, EnvOk;
    Simulates(e, k, a, s);
    RefinesTables(k, a);
    RefinesTables(Next(e, k, s), NextCalls(e, a, s));
    var st := a.stacks[a.cur];
    forall i | 0 <= i < |st| ensures st[i].pid != p {
      OnOwnStack(k, a, a.cur, i);
    }
    NewTop(e, a, s, p);
  }

  lemma NewTop(e: Env, a: Calls, s: Step, p: Pid)
    requires EnvOk(e) && Live(a) && HeadOk(s) && s.Exec? && Running(NextCalls(e, a, s)) == p
    requires forall i | 0 <= i < |a.stacks[a.cur]| :: a.stacks[a.cur][i].pid != p
    ensures Starts(e, s) && FirstFree(UsedOf(a), 0) == p
  {
    hide Program, Reading, Lookup, UsedOf, FirstFree;
  }

  lemma OnOwnStack(k: State, a: Calls, t: nat, i: nat)
    requires Refines(k, a) && t < TERMINALS && i < |a.stacks[t]|
    ensures k.used[a.stacks[t][i].pid]
  {
    assert OnStack(a.stacks[t], a.stacks[t][i].pid);
    OnStackUsed(k, a, t, a.stacks[t][i].pid);
  }

  lemma StartedFrame(e: Env, k: State, a: Calls, s: Step, p: Pid, offset: nat)
    requires EnvOk(e) && Refines(k, a) && Enabled(k, s) && s.Exec? && offset < MB4
    requires !k.used[p] && FrameOf(k, p) == Zeros()
    requires Defined(k, s) && Current(Next(e, k, s)) == p
    ensures Starts(e, s) && SeesOnly(Next(e, k, s), Program(e.fs, Asked(s).text, s.residue).value, offset)
  {
    hide Linked, Program, Next, NextCalls, Reading, Lookup, Halt, Starts;
    StartsNew(e, k, a, s, p);
    ExecFrames(e, k, a, s, p);
    Simulates(e, k, a, s);
    UserPageIsOwnFrame(Next(e, k, s), NextCalls(e, a, s), offset);
    RefinesTables(Next(e, k, s), NextCalls(e, a, s));
  }
}
