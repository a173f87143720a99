/** execute, halt, sched and get_next_proc carried out in place on the kernel's tables. */
module KernelTables {
  import opened Machine
  import opened CStrings
  import opened Paging
  import opened Files
  import opened Commands
  import opened Processes

  const SHELL_STRING := MB4   // some address in the kernel, where its own "shell" lies

  class Kernel {
    const env: Env
    var used: array<bool>
    var active: array<bool>
    var pcbs: array<Pcb>
    var esp0: int
    var cr3: Pid
    var regs: Regs
    var eax: int
    var dirs: seq<seq<nat>>
    var frames: seq<seq<byte>>
    var shells: nat

    /** The state the tables stand for. */
    ghost function View(): State
      reads this, used, active, pcbs
    {
      State(used[..], active[..], pcbs[..], esp0, cr3, regs, eax, dirs, frames, shells)
    }

    ghost predicate Valid()
      reads this, used, active, pcbs
    {
      EnvOk(env) && used != active && Shape(View())
    }

    /** get_next_proc: the active process the round-robin scan after `cur` meets first. */
    method GetNextProc(cur: Pid) returns (next: Pid)
      requires active.Length == MAX_USER_PROG && active[cur]
      ensures next == NextProc(active[..], cur)
      ensures active[next] && forall q: Pid | active[q] :: Dist(cur, next) <= Dist(cur, q)
    {
      hide NextProc;
      ghost var d := 0;
      next := if cur + 1 >= MAX_USER_PROG then cur + 1 - MAX_USER_PROG else cur + 1;
      while !active[next]
        invariant 0 <= d < MAX_USER_PROG && Dist(cur, next) == d
        invariant forall q: Pid | active[q] :: d <= Dist(cur, q)
        decreases MAX_USER_PROG - d
      {
        next := if next + 1 >= MAX_USER_PROG then next + 1 - MAX_USER_PROG else next + 1;
        d := d + 1;
      }
      NextProcIs(active[..], cur, next);
    }

    /** The allocation loop of execute: takes the lowest free slot. */
    method TakeSlot() returns (pid: nat)
      requires Valid()
      modifies used
      ensures Valid() && pid == FirstFree(old(used[..]), 0)
      ensures pid < MAX_USER_PROG ==> View() == old(View()).(used := old(used[..])[pid := true])
      ensures pid == MAX_USER_PROG ==> View() == old(View())
    {
      for i := 0 to MAX_USER_PROG
        invariant used[..] == old(used[..])
        invariant FirstFree(used[..], 0) == FirstFree(used[..], i)
      {
        if !used[i] {
          used[i] := true;
          assert used[..] == old(used[..])[i := true];
          return i;
        }
      }
      return MAX_USER_PROG;
    }

    /** Bytes stored by the kernel through the loaded directory. */
    method StoreUser(addr: nat, bytes: seq<byte>)
      requires Valid() && addr < ENTRIES * MB4
      modifies this`frames
      ensures Valid() && View() == Store(old(View()), addr, bytes, false)
    {
      match Walk(dirs[cr3], addr, false, true)
      case Large(phys) =>
        var f, at := phys / MB4, phys % MB4;
        if f < FRAMES && at + |bytes| <= MB4 {
          frames := frames[f := Splice(frames[f], at, bytes)];
        }
      case _ =>
    }

    /** The header buffer after the read: the file's first bytes over what it held. */
    method ReadHeader(inode: nat, residue: seq<byte>) returns (head: seq<byte>)
      requires Valid() && |residue| == HEAD
      ensures var b := FileBytes(env.fs, inode); head == b[..Min(HEAD, |b|)] + residue[Min(HEAD, |b|)..]
    {
      hide Contents, WellFormed;
      var buf := new byte[HEAD](i requires 0 <= i < HEAD => residue[i]);
      ghost var b := FileBytes(env.fs, inode);
      var n := ReadData(env.fs, inode, 0, buf, HEAD);
      if n == -1 {
        assert b == [] && buf[..] == residue;
      } else {
        assert buf[..] == buf[..n] + buf[n..] && residue[n..] == buf[n..];
      }
      head := buf[..];
    }

    method CheckHeader(inode: nat, residue: seq<byte>) returns (ok: bool)
      requires Valid() && |residue| == HEAD
      ensures var b := FileBytes(env.fs, inode);
        ok <==> (b[..Min(HEAD, |b|)] + residue[Min(HEAD, |b|)..])[..4] == ELF
    {
      hide FileBytes;
      var head := ReadHeader(inode, residue);
      assert head[..4] == [head[0], head[1], head[2], head[3]];
      ok := !(head[0] != ELF[0] || head[1] != ELF[1] || head[2] != ELF[2] || head[3] != ELF[3]);
    }

    method ReadAll(inode: nat) returns (program: seq<byte>)
      requires Valid()
      ensures program == FileBytes(env.fs, inode)
      ensures inode < |env.fs.inodes| ==> IsFile(env.fs, inode, program)
    {
      hide Contents, WellFormed, IsFile;
      if inode < |env.fs.inodes| {
        ContentsIsFile(env.fs, inode);
      }
      var image := new byte[MB4](_ => 0);
      var m := ReadData(env.fs, inode, 0, image, MB4);
      program := if m == -1 then [] else image[..m];
    }

    /** The program's header checked and the program read. */
    method ReadProgram(inode: nat, residue: seq<byte>) returns (r: Option<seq<byte>>)
      requires Valid() && |residue| == HEAD
      ensures var b := FileBytes(env.fs, inode);
        r == if (b[..Min(HEAD, |b|)] + residue[Min(HEAD, |b|)..])[..4] == ELF then Some(b) else None
      ensures r.Some? && inode < |env.fs.inodes| ==> IsFile(env.fs, inode, r.value)
    {
      hide FileBytes, WellFormed, IsFile;
      var elf := CheckHeader(inode, residue);
      if !elf {
        return None;
      }
      var program := ReadAll(inode);
      r := Some(program);
    }

    method Parse(m: Memory) returns (name: seq<byte>, args: seq<byte>, ok: bool)
      requires Short(m)
      ensures ok <==> Reading(m).Cmd?
      ensures name == Name(Prefix(m)) && args == if ok then Args(Prefix(m)) else RawArgs(Prefix(m))
    {
      hide Prefix;
      var nameField := new byte[LINE_BUF_SIZE](_ => NUL);
      var argsField := new byte[LINE_BUF_SIZE](_ => NUL);
      ok := ParseCommand(m, nameField, argsField);
      name, args := Str(nameField[..]), Str(argsField[..]);
    }

    /** Name lookup, the command history, and the program: it is not there, or the history faults,
        or here it is. */
    method Find(name: seq<byte>, m: Memory, hist: array2<byte>, residue: seq<byte>)
        returns (fault: bool, program: Option<seq<byte>>)
      requires Valid() && Reading(m).Cmd? && name == Name(Reading(m).text) && |residue| == HEAD
      requires hist.Length0 == 5 && hist.Length1 == LINE_BUF_SIZE
      modifies hist
      ensures fault <==> Faults(env.fs, Reading(m))
      ensures program == if fault then None else Program(env.fs, Reading(m).text, residue)
    {
      hide FileBytes, Lookup, WellFormed, Prefix;
      assert NUL !in name;
      var d := ReadDentryByName(env.fs, name);
      if d.None? {
        return false, None;
      }
      var copied := PushHistory(hist, m);
      if !copied {
        return true, None;
      }
      fault := false;
      program := ReadProgram(d.value.inode, residue);
    }

    /** The new control block cleared and given the command's words, and the program read. `hist` is
        the command history of the terminal. */
    method Prepare(pid: Pid, m: Memory, hist: array2<byte>, residue: seq<byte>)
        returns (fault: bool, program: Option<seq<byte>>)
      requires Valid() && Short(m) && |residue| == HEAD
      requires hist.Length0 == 5 && hist.Length1 == LINE_BUF_SIZE
      modifies pcbs, hist
      ensures Valid() && View() == old(View()).(pcbs := old(pcbs[..])[pid := Block(pid, Reading(m))])
      ensures fault <==> Faults(env.fs, Reading(m))
      ensures !fault ==> Reading(m).Cmd?
      ensures program == if fault then None else Program(env.fs, Reading(m).text, residue)
    {
      hide Program, Faults, Prefix, Name, Args, RawArgs;
      var name, args, ok := Parse(m);
      pcbs[pid] := Pcb(pid, if pid == 0 then Some(pid) else None, 0, 0, Regs(0, 0), name, args);
      assert pcbs[..] == old(pcbs[..])[pid := Block(pid, Reading(m))];
      if !ok {
        BrokenFaults(env.fs, Reading(m));
        return true, None;
      }
      fault, program := Find(name, m, hist, residue);
    }

    static lemma BrokenFaults(fs: Image, cmd: Cmd)
      requires cmd.Broken?
      ensures Faults(fs, cmd)
    {
    }

    /** execute, from the NULL test to the entry into the program. `kregs` are the stack and frame
        pointers in execute, `m` the memory at the command pointer, `residue` what the header buffer
        holds, and `full` tells whether it prints that the table is full. */
    method ExecuteCommand(kregs: Regs, ptr: nat, m: Memory, hist: array2<byte>, residue: seq<byte>)
        returns (entry: Entry, full: bool)
      requires Valid() && Short(m) && |residue| == HEAD && 0 <= CurPcb(kregs.esp) < MAX_USER_PROG
      requires hist.Length0 == 5 && hist.Length1 == LINE_BUF_SIZE
      modifies this, used, active, pcbs, hist
      ensures Valid() && used == old(used) && active == old(active) && pcbs == old(pcbs)
      ensures (View(), entry) == ExecuteAt(env, old(View()), kregs, ptr, m, residue)
      ensures full <==> ptr != 0 && forall p: Pid :: old(used[p])
    {
      hide Program, Faults, Reading, EnvOk, Launched;
      ghost var k := View();
      if ptr == 0 {
        return Refused, false;
      }
      var slot := TakeSlot();
      if slot == MAX_USER_PROG {
        return Refused, true;
      }
      var pid: Pid := slot;
      var me: Pid := CurPcb(kregs.esp);
      var parent := me;
      var terminal := pcbs[me].terminal;
      if pid <= 2 {
        parent := pid;
        terminal := pid;
      }
      var fault, program := Prepare(pid, m, hist, residue);
      if fault {
        return Faulted, false;
      }
      if program.None? {
        used[pid] := false;
        assert used[..] == k.used;
        return Refused, false;
      }
      MarkedLaunches(env, View().(used := k.used), pid, program.value, parent, terminal, kregs);
      Launch(pid, program.value, parent, terminal, kregs);
      return Started, false;
    }

    /** The directory filled in, the program loaded through it, and the child made. */
    method Launch(pid: Pid, program: seq<byte>, parent: Pid, terminal: nat, kregs: Regs)
      requires Valid()
      modifies this`dirs, this`cr3, this`frames, this`esp0, this`regs, active, pcbs
      ensures Valid() && used[..] == old(used[..])
      ensures used[pid] ==> View() == Launched(env, old(View()), pid, program, parent, terminal, kregs)
    {
      hide Store, Adopted, Directory, EnvOk;
      ghost var k := View();
      Enter(pid);
      assert used[pid] ==> k.used == k.used[pid := true];
      StoreUser(USER_PROG_LOCATION, program);
      Adopt(pid, parent, terminal, kregs);
    }

    /** The kernel's own execute("shell"). */
    method ExecuteShell(kregs: Regs, hist: array2<byte>, residue: seq<byte>) returns (ok: bool)
      requires Valid() && |residue| == HEAD && 0 <= CurPcb(kregs.esp) < MAX_USER_PROG
      requires hist.Length0 == 5 && hist.Length1 == LINE_BUF_SIZE
      modifies this, used, active, pcbs, hist
      ensures Valid() && used == old(used) && active == old(active) && pcbs == old(pcbs)
      ensures (View(), ok) == Execute(env, old(View()), kregs, SHELL, residue)
    {
      ShellReads();
      ShellAt(env, View(), kregs, SHELL_STRING, residue);
      hide Execute, ExecuteAt, EnvOk, Held, Reading;
      var entry, _ := ExecuteCommand(kregs, SHELL_STRING, Held(SHELL), hist, residue);
      ok := entry.Started?;
    }

    /** The execute system call, with the exception handler behind it. */
    method ExecuteSyscall(kregs: Regs, ptr: nat, m: Memory, hist: array2<byte>, residue: seq<byte>)
        returns (full: bool)
      requires Valid() && Short(m) && |residue| == HEAD && 0 <= CurPcb(kregs.esp) < MAX_USER_PROG
      requires used[CurPcb(kregs.esp)] && pcbs[CurPcb(kregs.esp)].parent.Some?
      requires hist.Length0 == 5 && hist.Length1 == LINE_BUF_SIZE
      modifies this, used, active, pcbs, hist
      ensures Valid() && used == old(used) && active == old(active) && pcbs == old(pcbs)
      ensures View() == ExecuteCall(env, old(View()), kregs, ptr, m, residue)
      ensures full <==> ptr != 0 && forall p: Pid :: old(used[p])
    {
      hide Execute, Faults, Reading, EnvOk, Halt;
      var entry;
      entry, full := ExecuteCommand(kregs, ptr, m, hist, residue);
      if entry.Faulted? {
        HaltCurrent(kregs, KILLED, hist, residue);
      }
    }

    /** The parent's context saved, the flags handed over, and the task state set. */
    method Adopt(pid: Pid, parent: Pid, terminal: nat, kregs: Regs)
      requires Valid()
      modifies this`esp0, this`regs, active, pcbs
      ensures Valid() && View() == Adopted(old(View()), pid, parent, terminal, kregs)
    {
      ghost var k := View();
      pcbs[pid] := pcbs[pid].(parent := Some(parent), terminal := terminal);
      pcbs[parent] := pcbs[parent].(esp0 := esp0, regs := kregs);
      active[parent] := false;
      active[pid] := true;
      regs := kregs;
      esp0 := KERNEL_TOP - KB8 * pid - 4;
      assert active[..] == k.active[parent := false][pid := true];
      ghost var filled := k.pcbs[pid := k.pcbs[pid].(parent := Some(parent), terminal := terminal)];
      assert pcbs[..] == filled[parent := filled[parent].(esp0 := k.esp0, regs := kregs)];
    }

    /** The new directory's three entries, and its load into cr3. */
    method Enter(pid: Pid)
      requires Valid()
      modifies this`dirs, this`cr3
      ensures Valid() && View() == old(View()).(dirs := dirs, cr3 := pid)
      ensures dirs == old(dirs)[pid := Directory(old(dirs[pid]), pid, env.videoTable)]
    {
      hide Or, UserEntry, EnvOk;
      var dir := dirs[pid];
      dir := dir[0 := Or(env.videoTable, FLAG_WRITE_ENABLE + FLAG_PRESENT)];
      dir := dir[1 := Or(MB4, FLAG_4MB_PAGE + FLAG_WRITE_ENABLE + FLAG_PRESENT + FLAG_GLOBAL)];
      dir := dir[USER_MEM_LOCATION / MB4 := UserEntry(pid)];
      dirs := dirs[pid := dir];
      cr3 := pid;
    }

    /** User memory cleared, the slot given up, the parent active again. */
    method Leave(me: Pid, parent: Pid)
      requires Valid()
      modifies this`frames, this`cr3, this`esp0, used, active
      ensures Valid() && View() == Leaving(old(View()), me, parent)
    {
      ghost var k := View();
      StoreUser(USER_MEM_LOCATION, Zeros());
      cr3 := parent;
      used[me] := false;
      active[me] := false;
      active[parent] := true;
      esp0 := pcbs[parent].esp0;
      assert used[..] == k.used[me := false];
      assert active[..] == k.active[me := false][parent := true];
    }

    /** halt. */
    method HaltCurrent(kregs: Regs, status: byte, hist: array2<byte>, residue: seq<byte>)
      requires Valid() && |residue| == HEAD && hist.Length0 == 5 && hist.Length1 == LINE_BUF_SIZE
      requires 0 <= CurPcb(kregs.esp) < MAX_USER_PROG && pcbs[CurPcb(kregs.esp)].parent.Some?
      modifies this, used, active, pcbs, hist
      ensures Valid() && used == old(used) && active == old(active) && pcbs == old(pcbs)
      ensures View() == Halt(env, old(View()), kregs, status, residue)
    {
      hide Execute, Leaving, EnvOk;
      var me: Pid := CurPcb(kregs.esp);
      var parent := pcbs[me].parent.value;
      Leave(me, parent);
      if me == parent {
        var ok := ExecuteShell(kregs, hist, residue);
        if ok {
          return;
        }
      }
      regs := pcbs[parent].regs;
      eax := status;
    }

    /** vidmap; `ptr` is screen_start. */
    method VidmapCurrent(kregs: Regs, ptr: nat) returns (r: int)
      requires Valid() && 0 <= CurPcb(kregs.esp) < MAX_USER_PROG && ptr < ENTRIES * MB4
      modifies this`dirs, this`cr3, this`frames
      ensures Valid() && View() == Vidmap(env, old(View()), kregs, ptr)
      ensures r == if ptr < KERNEL_TOP then -1 else 0
    {
      hide Walk, Or, EnvOk, Store;
      if ptr == 0 || ptr < KERNEL_TOP {
        return -1;
      }
      StoreUser(ptr, USER_VIDEO_BYTES);
      var current := pcbs[CurPcb(kregs.esp)];
      var entry: nat := Or(env.tables + PAGE * current.terminal + 4 * current.pid,
                      FLAG_WRITE_ENABLE + FLAG_PRESENT + FLAG_USER);
      var dir: seq<nat> := dirs[current.pid];
      dirs := dirs[current.pid := dir[USER_VIDEO / MB4 := entry]];
      cr3 := current.pid;
      r := 0;
    }

    method SaveContext(me: Pid, kregs: Regs)
      requires Valid()
      modifies active, pcbs
      ensures Valid() && View() == old(View()).(active := old(active[..])[me := true],
                                                pcbs := old(pcbs[..])[me := old(pcbs[me]).(regs := kregs)])
    {
      active[me] := true;
      pcbs[me] := pcbs[me].(regs := kregs);
      assert active[..] == old(active[..])[me := true];
      assert pcbs[..] == old(pcbs[..])[me := old(pcbs[me]).(regs := kregs)];
    }

    /** sched. */
    method SchedTick(kregs: Regs, hist: array2<byte>, residue: seq<byte>)
      requires Valid() && |residue| == HEAD && 0 <= CurPcb(kregs.esp) < MAX_USER_PROG
      requires hist.Length0 == 5 && hist.Length1 == LINE_BUF_SIZE
      modifies this, used, active, pcbs, hist
      ensures Valid() && used == old(used) && active == old(active) && pcbs == old(pcbs)
      ensures View() == Sched(env, old(View()), kregs, residue)
    {
      hide Execute, Dispatch, EnvOk;
      var me: Pid := CurPcb(kregs.esp);
      SaveContext(me, kregs);
      if shells < 3 {
        shells := shells + 1;
        var ok := ExecuteShell(kregs, hist, residue);
        if ok {
          return;
        }
      }
      DispatchFrom(me);
    }

    /** The switch to the next process. */
    method DispatchFrom(me: Pid)
      requires Valid() && active[me]
      modifies this`cr3, this`esp0, this`regs
      ensures Valid() && View() == Dispatch(old(View()), me)
    {
      var next := GetNextProc(me);
      cr3 := next;
      esp0 := KERNEL_TOP - KB8 * next - 4;
      regs := pcbs[next].regs;
    }
  }
}
