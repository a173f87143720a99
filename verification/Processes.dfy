/** The process table: execute, halt and sched as functions on the kernel's state
    (syscall.c, scheduler.c). The class Kernel carries them out in place. */
module Processes {
  import opened Machine
  import opened CStrings
  import opened Paging
  import opened Files
  import opened Commands

  type Pid = p: int | 0 <= p < MAX_USER_PROG

  const USER_PDE := 32      // USER_MEM_LOCATION >> 22
  const VIDEO_PDE := 33     // USER_VIDEO >> 22
  const USER_FRAME := 2     // the first 4MB frame after the kernel's
  const FRAMES := 8
  const HEAD := 40
  const ELF: seq<byte> := [0x7f, 69, 76, 70]
  const SHELL: seq<byte> := [115, 104, 101, 108, 108]

  /** A kernel context: the stack and frame pointers saved in a control block. */
  datatype Regs = Regs(esp: int, ebp: int)

  /** A control block; a pointer to one is the number of its slot. */
  datatype Pcb = Pcb(pid: Pid, parent: Option<Pid>, terminal: nat, esp0: int, regs: Regs,
                     name: seq<byte>, args: seq<byte>)

  /** What the kernel keeps about processes: the two flag tables, the control blocks, the task
      state's kernel stack, the loaded directory, the registers of the last context switch, the
      page directories, physical memory in 4MB frames, and the count of shells started. */
  datatype State = State(used: seq<bool>, active: seq<bool>, pcbs: seq<Pcb>, esp0: int, cr3: Pid,
                         regs: Regs, eax: int, dirs: seq<seq<nat>>, frames: seq<seq<byte>>, shells: nat)

  ghost predicate Shape(k: State) {
    && |k.used| == |k.active| == |k.pcbs| == |k.dirs| == MAX_USER_PROG
    && (forall p: Pid :: |k.dirs[p]| == ENTRIES)
    && |k.frames| == FRAMES && (forall f | 0 <= f < FRAMES :: |k.frames[f]| == MB4)
  }

  // ----- kernel stacks

  function PcbAddress(p: Pid): int {
    KERNEL_TOP - KB8 * (p + 1)
  }

  function Esp0(p: Pid): int {
    KERNEL_TOP - KB8 * p - 4
  }

  predicate InStack(esp: int, p: Pid) {
    PcbAddress(p) <= esp < PcbAddress(p) + KB8
  }

  /** cur_pcb: the stack pointer with its low 13 bits masked off, as a slot number. */
  function CurPcb(esp: int): int {
    (KERNEL_TOP - esp / KB8 * KB8) / KB8 - 1
  }

  /** The process whose kernel stack the task state names: it holds the processor. */
  function Current(k: State): int {
    (KERNEL_TOP - 4 - k.esp0) / KB8
  }

  lemma CurPcbIsOwner(esp: int, p: Pid)
    requires InStack(esp, p)
    ensures CurPcb(esp) == p
    ensures esp / KB8 * KB8 == PcbAddress(p)
    ensures InStack(Esp0(p), p)
  {
  }

  // ----- the two scans

  /** The lowest free slot from `from`, or MAX_USER_PROG. */
  function FirstFree(used: seq<bool>, from: nat): (p: nat)
    requires |used| == MAX_USER_PROG && from <= MAX_USER_PROG
    ensures from <= p <= MAX_USER_PROG
    ensures p < MAX_USER_PROG ==> !used[p]
    ensures forall q | from <= q < p :: used[q]
    decreases MAX_USER_PROG - from
  {
    if from == MAX_USER_PROG || !used[from] then from else FirstFree(used, from + 1)
  }

  /** How many slots a round-robin scan starting after a passes before it looks at b. */
  function Dist(a: Pid, b: Pid): (d: nat)
    ensures d < MAX_USER_PROG
  {
    if b > a then b - a - 1 else b - a + MAX_USER_PROG - 1
  }

  function After(a: Pid, d: nat): (b: Pid)
    requires d < MAX_USER_PROG
    ensures Dist(a, b) == d
  {
    if a + 1 + d >= MAX_USER_PROG then a + 1 + d - MAX_USER_PROG else a + 1 + d
  }

  /** The active process the scan from `cur` meets first, looking from distance d on. */
  function NextFrom(active: seq<bool>, cur: Pid, d: nat): (p: Pid)
    requires |active| == MAX_USER_PROG && active[cur] && d < MAX_USER_PROG
    ensures active[p] && d <= Dist(cur, p)
    ensures forall q: Pid | active[q] && d <= Dist(cur, q) :: Dist(cur, p) <= Dist(cur, q)
    decreases MAX_USER_PROG - d
  {
    var p := After(cur, d);
    if active[p] then p else NextFrom(active, cur, d + 1)
  }

  function NextProc(active: seq<bool>, cur: Pid): (p: Pid)
    requires |active| == MAX_USER_PROG && active[cur]
    ensures active[p]
    ensures forall q: Pid | active[q] :: Dist(cur, p) <= Dist(cur, q)
  {
    NextFrom(active, cur, 0)
  }

  lemma NextProcIs(active: seq<bool>, cur: Pid, p: Pid)
    requires |active| == MAX_USER_PROG && active[cur] && active[p]
    requires forall q: Pid | active[q] :: Dist(cur, p) <= Dist(cur, q)
    ensures p == NextProc(active, cur)
  {
    hide NextFrom;
    assert Dist(cur, p) == Dist(cur, NextProc(active, cur));
  }

  /** The process number d behind another, around the table. */
  function Behind(cur: Pid, d: nat): Pid {
    (cur + d) % MAX_USER_PROG
  }

  /** The scan as the source counts it: 1, 2, 3 and so on behind the current process, modulo 6, to the
      first that is active. */
  lemma NextProcScans(active: seq<bool>, cur: Pid)
    requires |active| == MAX_USER_PROG && active[cur]
    ensures exists d | 1 <= d <= MAX_USER_PROG ::
      && NextProc(active, cur) == Behind(cur, d) && active[Behind(cur, d)]
      && forall j | 1 <= j < d :: !active[Behind(cur, j)]
  {
    hide NextFrom;
    var p := NextProc(active, cur);
    var d := Dist(cur, p) + 1;
    assert Behind(cur, d) == p;
    forall j | 1 <= j < d ensures !active[Behind(cur, j)] {
      assert Dist(cur, Behind(cur, j)) == j - 1;
    }
  }

  // ----- user memory

  function UserEntry(p: Pid): nat {
    Or(KERNEL_TOP + MB4 * p, FLAG_4MB_PAGE + FLAG_WRITE_ENABLE + FLAG_PRESENT + FLAG_USER)
  }

  function Splice(frame: seq<byte>, at: nat, bytes: seq<byte>): (r: seq<byte>)
    requires at + |bytes| <= |frame|
    ensures |r| == |frame|
    ensures forall i | 0 <= i < |frame| :: r[i] == if at <= i < at + |bytes| then bytes[i - at] else frame[i]
  {
    frame[..at] + bytes + frame[at + |bytes|..]
  }

  function Zeros(): (z: seq<byte>)
    ensures |z| == MB4 && forall i | 0 <= i < MB4 :: z[i] == 0
  {
    seq(MB4, _ => 0)
  }

  /** A store of consecutive bytes through the loaded directory, by a program or by the kernel.
      A fault stores nothing, and a page table leads to video memory, which is not part of this
      state. */
  function Store(k: State, addr: nat, bytes: seq<byte>, user: bool): (r: State)
    requires Shape(k) && addr < ENTRIES * MB4
    ensures Shape(r) && r == k.(frames := r.frames)
  {
    match Walk(k.dirs[k.cr3], addr, user, true)
    case Large(phys) =>
      var f, at := phys / MB4, phys % MB4;
      if f < FRAMES && at + |bytes| <= MB4 then k.(frames := k.frames[f := Splice(k.frames[f], at, bytes)]) else k
    case _ => k
  }

  /** vidmap's directory entry: the address of element p of terminal t's table, and flags. */
  function VidmapEntry(tables: nat, p: Pid, t: nat): nat {
    Or(tables + PAGE * t + 4 * p, FLAG_WRITE_ENABLE + FLAG_PRESENT + FLAG_USER)
  }

  lemma UserEntryIs(p: Pid)
    ensures UserEntry(p) == MB4 * (USER_FRAME + p) + 0x87
  {
    hide Or;
    OrPage(KERNEL_TOP + MB4 * p, 0, 0x87);
    OrZero(0x87);
  }

  // ----- execute, halt, sched

  /** The bytes of a program, or nothing for an inode number the image does not have. */
  ghost function FileBytes(fs: Image, inode: nat): (b: seq<byte>)
    requires WellFormed(fs)
  {
    if inode < |fs.inodes| then Contents(fs, inode) else []
  }

  /** The program a command names, if it passes both checks of execute. The header buffer is
      not cleared, so behind a short file it still holds `residue`. */
  ghost function Program(fs: Image, command: seq<byte>, residue: seq<byte>): (r: Option<seq<byte>>)
    requires WellFormed(fs) && |residue| == HEAD
  {
    var d := Lookup(fs.entries, Name(command));
    if d.None? then None
    else
      var b := FileBytes(fs, d.value.inode);
      var head := b[..Min(HEAD, |b|)] + residue[Min(HEAD, |b|)..];
      if head[..4] == ELF then Some(b) else None
  }

  /** These bytes are the file that the first word of the command names; an entry with an inode number
      that the image does not have gives none. */
  ghost predicate IsNamedFile(fs: Image, command: seq<byte>, bytes: seq<byte>) {
    var d := Lookup(fs.entries, Name(command));
    d.Some? && if d.value.inode < |fs.inodes| then IsFile(fs, d.value.inode, bytes) else bytes == []
  }

  /** What execute runs is the whole file its command names. */
  lemma ProgramIsFile(fs: Image, command: seq<byte>, residue: seq<byte>)
    requires WellFormed(fs) && |residue| == HEAD && Program(fs, command, residue).Some?
    ensures IsNamedFile(fs, command, Program(fs, command, residue).value)
  {
    hide IsFile, WellFormed;
    var n := Lookup(fs.entries, Name(command)).value.inode;
    if n < |fs.inodes| {
      ContentsIsFile(fs, n);
    }
  }

  /** Programs are no longer than the user page behind the load address. */
  ghost predicate ProgramsFit(fs: Image)
    requires WellFormed(fs)
  {
    forall n | 0 <= n < |fs.inodes| :: |Contents(fs, n)| <= MB4 - (USER_PROG_LOCATION - USER_MEM_LOCATION)
  }

  /** There is a shell, and it is a program. */
  ghost predicate ShellLoads(fs: Image)
    requires WellFormed(fs)
  {
    var d := Lookup(fs.entries, SHELL);
    d.Some? && ELF <= FileBytes(fs, d.value.inode)
  }

  lemma MagicTexts()
    ensures SHELL == Ascii("shell") && ELF == [127] + Ascii("ELF")
  {
  }

  lemma ShellIsProgram(fs: Image, residue: seq<byte>)
    requires WellFormed(fs) && ShellLoads(fs) && |residue| == HEAD
    ensures Program(fs, SHELL, residue).Some?
  {
    NameOfWord(SHELL);
    var b := FileBytes(fs, Lookup(fs.entries, SHELL).value.inode);
    var head := b[..Min(HEAD, |b|)] + residue[Min(HEAD, |b|)..];
    assert head[..4] == b[..4] == ELF;
  }

  /** Four bytes of a file over what the header buffer held are the magic in exactly two cases: a
      file of at least four bytes starts with it, or a shorter one is the start of it and the
      buffer still holds the rest. */
  lemma HeaderExact(b: seq<byte>, residue: seq<byte>)
    requires |residue| == HEAD
    ensures (b[..Min(HEAD, |b|)] + residue[Min(HEAD, |b|)..])[..4] == ELF <==>
      if |b| >= 4 then ELF <= b else b <= ELF && residue[|b|..4] == ELF[|b|..]
  {
    var n := Min(HEAD, |b|);
    var head := b[..n] + residue[n..];
    if |b| >= 4 {
      assert head[..4] == b[..4];
    } else {
      assert head[..4] == b + residue[|b|..4];
      assert ELF == ELF[..|b|] + ELF[|b|..];
      assert |residue[|b|..4]| == |ELF[|b|..]|;
    }
  }

  /** execute takes a file for a program in exactly those two cases. */
  lemma ProgramExact(fs: Image, command: seq<byte>, residue: seq<byte>)
    requires WellFormed(fs) && |residue| == HEAD
    ensures var d := Lookup(fs.entries, Name(command));
      Program(fs, command, residue) == if d.None? then None else
        var b := FileBytes(fs, d.value.inode);
        if (if |b| >= 4 then ELF <= b else b <= ELF && residue[|b|..4] == ELF[|b|..]) then Some(b) else None
  {
    hide FileBytes, Lookup, Name;
    var d := Lookup(fs.entries, Name(command));
    if d.Some? {
      HeaderExact(FileBytes(fs, d.value.inode), residue);
    }
  }

  /** Whether a command runs does not depend on what the buffer held, if and only if there is no
      such file, or it has four bytes, or it is no start of the magic. */
  lemma ResidueMatters(fs: Image, command: seq<byte>)
    requires WellFormed(fs)
    ensures var d := Lookup(fs.entries, Name(command));
      (forall r, s | |r| == |s| == HEAD :: Program(fs, command, r).Some? == Program(fs, command, s).Some?)
        <==> d.None? || var b := FileBytes(fs, d.value.inode); |b| >= 4 || !(b <= ELF)
  {
    hide FileBytes, Lookup, Name, Program;
    forall r | |r| == HEAD { ProgramExact(fs, command, r); }
    var zero: seq<byte> := seq(HEAD, _ => 0);
    var magic: seq<byte> := ELF + seq(HEAD - 4, _ => 0);
    var d := Lookup(fs.entries, Name(command));
    if d.Some? && |FileBytes(fs, d.value.inode)| < 4 && FileBytes(fs, d.value.inode) <= ELF {
      var n := |FileBytes(fs, d.value.inode)|;
      assert magic[n..4] == ELF[n..];
      assert zero[n..4][0] != ELF[n..][0];
      assert Program(fs, command, magic).Some? && Program(fs, command, zero).None?;
    }
  }

  lemma NameOfWord(c: seq<byte>)
    requires SPACE !in c
    ensures Name(c) == c
  {
    WordEndIs(c, 0, |c|);
  }

  function Directory(dir: seq<nat>, p: Pid, videoTable: nat): (r: seq<nat>)
    requires |dir| == ENTRIES
    ensures |r| == ENTRIES && r[USER_PDE] == UserEntry(p)
    ensures forall i | 0 <= i < ENTRIES && i !in {0, 1, USER_PDE} :: r[i] == dir[i]
  {
    dir[0 := Or(videoTable, FLAG_WRITE_ENABLE + FLAG_PRESENT)]
       [1 := Or(MB4, FLAG_4MB_PAGE + FLAG_WRITE_ENABLE + FLAG_PRESENT + FLAG_GLOBAL)]
       [USER_PDE := UserEntry(p)]
  }

  /** The control block after memset and command parsing. */
  function Blank(p: Pid, command: seq<byte>): Pcb {
    Pcb(p, if p == 0 then Some(p) else None, 0, 0, Regs(0, 0), Name(command), Args(command))
  }

  /** What the environment fixes: the file system image, and where video_page_table and
      term_video_tables lie. */
  datatype Env = Env(fs: Image, videoTable: nat, tables: nat)

  ghost predicate EnvOk(e: Env) {
    && WellFormed(e.fs) && ProgramsFit(e.fs) && ShellLoads(e.fs)
    && e.videoTable % PAGE == 0 && e.tables % PAGE == 0
    && (e.videoTable + PAGE <= e.tables || e.tables + PAGE * TERMINALS <= e.videoTable)
  }

  /** What entry i of process p's directory can hold: nothing, or what execute and vidmap put there. */
  ghost predicate EntryOk(e: Env, p: Pid, i: nat, entry: nat) {
    || entry == 0
    || (i == 0 && entry == Or(e.videoTable, FLAG_WRITE_ENABLE + FLAG_PRESENT))
    || (i == 1 && entry == Or(MB4, FLAG_4MB_PAGE + FLAG_WRITE_ENABLE + FLAG_PRESENT + FLAG_GLOBAL))
    || (i == USER_PDE && entry == UserEntry(p))
    || (i == VIDEO_PDE && exists t | 0 <= t < TERMINALS :: entry == VidmapEntry(e.tables, p, t))
  }

  /** A directory is empty or execute has filled it in, the kernel's two entries with the rest. */
  ghost predicate DirOk(e: Env, p: Pid, dir: seq<nat>) {
    && |dir| == ENTRIES && (forall i | 0 <= i < ENTRIES :: EntryOk(e, p, i, dir[i]))
    && (dir[USER_PDE] != 0 ==> dir[0] != 0 && dir[1] != 0)
  }

  ghost predicate DirsOk(e: Env, k: State) {
    |k.dirs| == MAX_USER_PROG && forall p: Pid :: DirOk(e, p, k.dirs[p])
  }

  /** The new process's slot taken and its directory filled in and loaded. */
  ghost function Entered(e: Env, k: State, p: Pid): (r: State)
    requires Shape(k)
    ensures Shape(r) && r.cr3 == p && r.frames == k.frames && r.dirs[p][USER_PDE] == UserEntry(p)
  {
    k.(used := k.used[p := true], dirs := k.dirs[p := Directory(k.dirs[p], p, e.videoTable)], cr3 := p)
  }

  /** The loaded process made a child that runs while its parent waits in its call. */
  ghost function Adopted(k: State, p: Pid, parent: Pid, terminal: nat, regs: Regs): (r: State)
    requires Shape(k)
    ensures Shape(r) && r.frames == k.frames && r.dirs == k.dirs
  {
    var pcbs := k.pcbs[p := k.pcbs[p].(parent := Some(parent), terminal := terminal)];
    k.(pcbs := pcbs[parent := pcbs[parent].(esp0 := k.esp0, regs := regs)],
       active := k.active[parent := false][p := true],
       esp0 := Esp0(p), regs := regs)
  }

  /** The program loaded and entered as process p. */
  ghost function Launched(e: Env, k: State, p: Pid, program: seq<byte>, parent: Pid, terminal: nat, regs: Regs):
      (r: State)
    requires Shape(k)
    ensures Shape(r)
  {
    Adopted(Store(Entered(e, k, p), USER_PROG_LOCATION, program, false), p, parent, terminal, regs)
  }

  /** execute marks the slot as used before anything else, and entering the program keeps the mark. */
  lemma MarkedLaunches(e: Env, k: State, p: Pid, program: seq<byte>, parent: Pid, terminal: nat, regs: Regs)
    requires Shape(k)
    ensures Launched(e, k.(used := k.used[p := true]), p, program, parent, terminal, regs)
      == Launched(e, k, p, program, parent, terminal, regs)
  {
    assert k.used[p := true][p := true] == k.used[p := true];
    assert Entered(e, k.(used := k.used[p := true]), p) == Entered(e, k, p);
  }

  /** execute, up to the entry into the new program: the new state, and whether it got there. */
  ghost function Execute(e: Env, k: State, regs: Regs, command: seq<byte>, residue: seq<byte>): (r: (State, bool))
    requires EnvOk(e) && Shape(k) && |residue| == HEAD && 0 <= CurPcb(regs.esp) < MAX_USER_PROG
    ensures Shape(r.0)
    ensures !r.1 ==> r.0 == k.(pcbs := r.0.pcbs) && forall p: Pid | k.used[p] :: r.0.pcbs[p] == k.pcbs[p]
  {
    var pid := FirstFree(k.used, 0);
    if pid == MAX_USER_PROG then (k, false)
    else
      var program := Program(e.fs, command, residue);
      var blank := k.(pcbs := k.pcbs[pid := Blank(pid, command)]);
      if program.None? then (blank, false)
      else
        var me := CurPcb(regs.esp);
        var parent, terminal := if pid <= 2 then pid else me, if pid <= 2 then pid else k.pcbs[me].terminal;
        (Launched(e, blank, pid, program.value, parent, terminal, regs), true)
  }

  /** The last part of halt: back to the context the parent saved. */
  ghost function ReturnTo(k: State, parent: Pid, status: byte): (r: State)
    requires Shape(k)
    ensures Shape(r)
  {
    k.(regs := k.pcbs[parent].regs, eax := status)
  }

  /** The first part of halt: user memory cleared, the slot given up, the parent active again. */
  ghost function Leaving(k: State, me: Pid, parent: Pid): (r: State)
    requires Shape(k)
    ensures Shape(r) && r.frames == Store(k, USER_MEM_LOCATION, Zeros(), false).frames
  {
    var cleared := Store(k, USER_MEM_LOCATION, Zeros(), false);
    cleared.(used := k.used[me := false], active := k.active[me := false][parent := true],
             cr3 := parent, esp0 := k.pcbs[parent].esp0)
  }

  ghost function Halt(e: Env, k: State, regs: Regs, status: byte, residue: seq<byte>): (r: State)
    requires EnvOk(e) && Shape(k) && |residue| == HEAD && 0 <= CurPcb(regs.esp) < MAX_USER_PROG
    requires k.pcbs[CurPcb(regs.esp)].parent.Some?
    ensures Shape(r)
  {
    var me: Pid := CurPcb(regs.esp);
    var parent := k.pcbs[me].parent.value;
    var freed := Leaving(k, me, parent);
    if me == parent then
      var (again, ok) := Execute(e, freed, regs, SHELL, residue);
      if ok then again else ReturnTo(again, parent, status)
    else
      ReturnTo(freed, parent, status)
  }

  // ----- the command pointer

  /** What the kernel reads at an address through the loaded directory, as far as directory and
      memory decide it; behind a page table it may be anything, or nothing. */
  ghost predicate Fetches(k: State, addr: nat, b: Option<byte>)
    requires Shape(k) && addr < ENTRIES * MB4
  {
    match Walk(k.dirs[k.cr3], addr, false, false)
    case Fault => b == None
    case Large(phys) => phys / MB4 < FRAMES ==> b == Some(k.frames[phys / MB4][phys % MB4])
    case Table(_) => true
  }

  ghost predicate FetchesAll(k: State, ptr: nat, m: Memory)
    requires Shape(k)
  {
    forall i | 0 <= i < LINE_BUF_SIZE :: Fetches(k, (ptr + i) % (ENTRIES * MB4), m[i])
  }

  /** execute meets a page fault: its command cannot be read to the end, or it names a file and the
      history cannot copy its 127 bytes. */
  ghost predicate Faults(fs: Image, cmd: Cmd) {
    cmd.Broken? || (!cmd.whole && Lookup(fs.entries, Name(cmd.text)).Some?)
  }

  /** The new control block after memset and as much of the parsing as can be done. */
  function Block(p: Pid, cmd: Cmd): Pcb {
    if cmd.Broken? then Blank(p, cmd.prefix).(args := RawArgs(cmd.prefix)) else Blank(p, cmd.text)
  }

  /** The slot execute has taken by then stays marked, with what it has parsed in its block. */
  ghost function Lost(k: State, p: Pid, cmd: Cmd): (r: State)
    requires Shape(k)
    ensures Shape(r)
  {
    k.(used := k.used[p := true], pcbs := k.pcbs[p := Block(p, cmd)])
  }

  /** How execute ends: it returns -1, meets a page fault, or enters the program. */
  datatype Entry = Refused | Faulted | Started

  /** execute with the memory at its pointer, which it refuses to be NULL. */
  ghost function ExecuteAt(e: Env, k: State, regs: Regs, ptr: nat, m: Memory, residue: seq<byte>): (r: (State, Entry))
    requires EnvOk(e) && Shape(k) && |residue| == HEAD && 0 <= CurPcb(regs.esp) < MAX_USER_PROG
    ensures Shape(r.0)
  {
    var p, cmd := FirstFree(k.used, 0), Reading(m);
    if ptr == 0 || p == MAX_USER_PROG then (k, Refused)
    else if Faults(e.fs, cmd) then (Lost(k, p, cmd), Faulted)
    else
      var (k', ok) := Execute(e, k, regs, cmd.text, residue);
      (k', if ok then Started else Refused)
  }

  const KILLED: byte := 255

  /** execute as a system call: a fault ends in the exception handler's halt(-1) of the caller. */
  ghost function ExecuteCall(e: Env, k: State, regs: Regs, ptr: nat, m: Memory, residue: seq<byte>): (r: State)
    requires EnvOk(e) && Shape(k) && |residue| == HEAD && 0 <= CurPcb(regs.esp) < MAX_USER_PROG
    requires k.used[CurPcb(regs.esp)] && k.pcbs[CurPcb(regs.esp)].parent.Some?
    ensures Shape(r)
  {
    var (k', entry) := ExecuteAt(e, k, regs, ptr, m, residue);
    if entry.Faulted? then Halt(e, k', regs, KILLED, residue) else k'
  }

  /** The kernel's own execute("shell"): a short string with readable memory behind it. */
  lemma ShellReads()
    ensures Short(Held(SHELL)) && Reading(Held(SHELL)) == Cmd(SHELL, true)
  {
    PrefixIs(Held(SHELL), SHELL);
  }

  lemma ShellAt(e: Env, k: State, regs: Regs, ptr: nat, residue: seq<byte>)
    requires EnvOk(e) && Shape(k) && |residue| == HEAD && 0 <= CurPcb(regs.esp) < MAX_USER_PROG && ptr != 0
    ensures var (k', ok) := Execute(e, k, regs, SHELL, residue);
      ExecuteAt(e, k, regs, ptr, Held(SHELL), residue) == (k', if ok then Started else Refused)
  {
    ShellReads();
    hide Reading, Program, Launched, EnvOk;
  }

  ghost function Dispatch(k: State, me: Pid): (r: State)
    requires Shape(k) && k.active[me]
    ensures Shape(r)
  {
    var next := NextProc(k.active, me);
    k.(cr3 := next, esp0 := Esp0(next), regs := k.pcbs[next].regs)
  }

  ghost function Sched(e: Env, k: State, regs: Regs, residue: seq<byte>): (r: State)
    requires EnvOk(e) && Shape(k) && |residue| == HEAD && 0 <= CurPcb(regs.esp) < MAX_USER_PROG
    ensures Shape(r)
  {
    var me: Pid := CurPcb(regs.esp);
    var saved := k.(active := k.active[me := true], pcbs := k.pcbs[me := k.pcbs[me].(regs := regs)]);
    if saved.shells < 3 then
      var (started, ok) := Execute(e, saved.(shells := saved.shells + 1), regs, SHELL, residue);
      if ok then started else Dispatch(started, me)
    else
      Dispatch(saved, me)
  }

  /** The little-endian bytes of USER_VIDEO, which vidmap stores for its caller. */
  const USER_VIDEO_BYTES: seq<byte> := [0, 0, 0x40, 0x08]

  /** vidmap: refused for a kernel pointer; otherwise the caller is told USER_VIDEO, and its
      directory entry for it leads to its own terminal's table. */
  function Vidmap(e: Env, k: State, regs: Regs, ptr: nat): (r: State)
    requires Shape(k) && 0 <= CurPcb(regs.esp) < MAX_USER_PROG && ptr < ENTRIES * MB4
    ensures Shape(r) && r == k.(frames := r.frames, dirs := r.dirs, cr3 := r.cr3)
  {
    if ptr < KERNEL_TOP then k
    else
      var current := k.pcbs[CurPcb(regs.esp)];
      var told := Store(k, ptr, USER_VIDEO_BYTES, false);
      var dir: seq<nat> := k.dirs[current.pid];
      told.(dirs := k.dirs[current.pid := dir[VIDEO_PDE := VidmapEntry(e.tables, current.pid, current.terminal)]],
            cr3 := current.pid)
  }

  /** What a successful execute of process p does to the tables. */
  ghost predicate Spawned(k: State, k': State, p: Pid, parent: Pid, terminal: nat, regs: Regs)
    requires Shape(k) && Shape(k')
  {
    && k'.used == k.used[p := true]
    && k'.active == k.active[parent := false][p := true]
    && k'.pcbs[p].pid == p && k'.pcbs[p].parent == Some(parent) && k'.pcbs[p].terminal == terminal
    && (forall q: Pid | q != p ::
          k'.pcbs[q] == if q == parent then k.pcbs[q].(esp0 := k.esp0, regs := regs) else k.pcbs[q])
    && k'.dirs[p][USER_PDE] == UserEntry(p) && k'.dirs[p][VIDEO_PDE] == k.dirs[p][VIDEO_PDE]
    && (forall q: Pid | q != p :: k'.dirs[q] == k.dirs[q])
    && k'.esp0 == Esp0(p) && k'.cr3 == p && k'.regs == regs && k'.eax == k.eax && k'.shells == k.shells
  }

  /** execute succeeds exactly when a slot is free and the command names a program; the new
      process takes the lowest free slot, and carries the command's name and arguments. */
  lemma ExecuteSpawns(e: Env, k: State, regs: Regs, command: seq<byte>, residue: seq<byte>, me: Pid)
    requires EnvOk(e) && Shape(k) && |residue| == HEAD && CurPcb(regs.esp) == me
    ensures var (k', ok) := Execute(e, k, regs, command, residue);
      var p := FirstFree(k.used, 0);
      && (ok <==> p < MAX_USER_PROG && Program(e.fs, command, residue).Some?)
      && (ok ==>
            && Spawned(k, k', p, if p <= 2 then p else me, if p <= 2 then p else k.pcbs[me].terminal, regs)
            && k'.pcbs[p].name == Name(command) && k'.pcbs[p].args == Args(command))
  {
    hide Program, Walk, UserEntry, EnvOk;
  }

  /** What halt does to the tables before it leaves: the process is gone, its parent goes on. */
  ghost predicate Freed(k: State, k': State, me: Pid, parent: Pid)
    requires Shape(k) && Shape(k')
  {
    k' == k.(used := k.used[me := false], active := k.active[me := false][parent := true],
             cr3 := parent, esp0 := k.pcbs[parent].esp0, frames := k'.frames)
  }

  lemma HaltFrees(e: Env, k: State, regs: Regs, status: byte, residue: seq<byte>, me: Pid)
    requires EnvOk(e) && Shape(k) && |residue| == HEAD && CurPcb(regs.esp) == me
    requires k.pcbs[me].parent.Some?
    ensures var parent := k.pcbs[me].parent.value;
      var freed, k' := Leaving(k, me, parent), Halt(e, k, regs, status, residue);
      && Freed(k, freed, me, parent)
      && (parent != me ==> k' == ReturnTo(freed, parent, status) && k'.frames == freed.frames)
      && (parent == me && FirstFree(freed.used, 0) == me <= 2 ==>
            Spawned(freed, k', me, me, me, regs) && k' == Execute(e, freed, regs, SHELL, residue).0)
  {
    var freed := Leaving(k, me, k.pcbs[me].parent.value);
    ShellIsProgram(e.fs, residue);
    ExecuteSpawns(e, freed, regs, SHELL, residue, me);
  }
}
