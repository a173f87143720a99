/** The process table refines the call stacks: every step of the kernel, on every run. */
module Lifecycle {
  import opened Machine
  import opened Paging
  import opened Files
  import opened Commands
  import opened Processes
  import opened CallStacks

  /** One step of the machine: a timer tick, execute and halt with the kernel context they are
      entered in, vidmap, and a store of one byte, by the program or by a system call for it at a
      pointer it gave. `residue` is what the header buffer held before, `m` the memory at execute's
      pointer. A program whose access faults, or that meets another exception, exits as KILLED. */
  datatype Step =
    | Tick(regs: Regs, residue: seq<byte>)
    | Exec(regs: Regs, residue: seq<byte>, ptr: nat, m: Memory)
    | Exit(regs: Regs, residue: seq<byte>, status: byte)
    | Vidmap(regs: Regs, ptr: nat)
    | Poke(addr: nat, value: byte, user: bool)

  /** The steps that may run execute come with the 40 bytes of its header buffer. */
  predicate HeadOk(s: Step) {
    s.Vidmap? || s.Poke? || |s.residue| == HEAD
  }

  /** What execute reads through its pointer. */
  function Asked(s: Step): Cmd
    requires s.Exec?
  {
    Reading(s.m)
  }

  /** The processor enters the kernel on the stack the task state names; programs call execute,
      halt and vidmap once all three shells have been started. A pointer given to vidmap is in the
      program's page, or is a kernel pointer, which is refused. A store goes through the loaded
      directory, and no system call is given a pointer into the kernel that it does not refuse. */
  ghost predicate Enabled(k: State, s: Step) {
    if s.Poke? then
      && s.addr < ENTRIES * MB4 && (!s.user ==> s.addr >= KERNEL_TOP)
      && (Shape(k) ==> !Walk(k.dirs[k.cr3], s.addr, s.user, true).Fault?)
    else
      && HeadOk(s)
      && 0 <= Current(k) < MAX_USER_PROG && InStack(s.regs.esp, Current(k))
      && (!s.Tick? ==> k.shells == 3)
      && (s.Exec? ==> s.ptr < ENTRIES * MB4 && Short(s.m) && (Shape(k) ==> FetchesAll(k, s.ptr, s.m)))
      && (s.Vidmap? ==> s.ptr < KERNEL_TOP || USER_MEM_LOCATION <= s.ptr <= USER_MEM_LOCATION + MB4 - 4)
  }

  /** The step meets no bad pointer. */
  ghost predicate Defined(k: State, s: Step) {
    && Shape(k) && Enabled(k, s)
    && (!s.Poke? ==> 0 <= CurPcb(s.regs.esp) < MAX_USER_PROG)
    && (s.Exit? || s.Exec? ==> k.used[CurPcb(s.regs.esp)] && k.pcbs[CurPcb(s.regs.esp)].parent.Some?)
  }

  ghost function Next(e: Env, k: State, s: Step): (r: State)
    requires EnvOk(e) && Defined(k, s)
    ensures Shape(r)
  {
    match s
    case Tick(regs, residue) => Sched(e, k, regs, residue)
    case Exec(regs, residue, ptr, m) => ExecuteCall(e, k, regs, ptr, m, residue)
    case Exit(regs, residue, status) => Halt(e, k, regs, status, residue)
    case Vidmap(regs, ptr) => Processes.Vidmap(e, k, regs, ptr)
    case Poke(addr, value, user) => Store(k, addr, [value], user)
  }

  ghost function NextCalls(e: Env, a: Calls, s: Step): (r: Calls)
    requires EnvOk(e) && Live(a) && HeadOk(s)
    ensures Live(r)
  {
    match s
    case Tick(regs, _) => Preempt(a, regs)
    case Exec(regs, residue, ptr, m) =>
      if ptr == 0 then a
      else if Faults(e.fs, Asked(s)) then Lose(a, regs)
      else Call(a, regs, Program(e.fs, Asked(s).text, residue).Some?)
    case Exit(regs, _, status) => Return(a, regs, status)
    case Vidmap(_, _) => a
    case Poke(_, _, _) => a
  }

  // ----- the refinement relation

  /** Frame i of terminal t's stack as the table shows it. */
  ghost predicate FrameOk(k: State, st: seq<Frame>, t: nat, i: nat, running: bool)
    requires Shape(k) && i < |st|
  {
    var p := st[i].pid;
    && k.used[p] && k.pcbs[p].pid == p && k.pcbs[p].terminal == t
    && k.pcbs[p].parent == Some(if i == 0 then p else st[i - 1].pid)
    && (i == 0 ==> p == t)
    && (k.active[p] <==> i == |st| - 1)
    && (i < |st| - 1 ==> k.pcbs[p].esp0 == Esp0(p))
    && ((running && i == |st| - 1) || k.pcbs[p].regs == st[i].regs)
    && k.dirs[p][USER_PDE] == UserEntry(p)
  }

  ghost predicate Distinct(st: seq<Frame>) {
    forall i, j | 0 <= i < j < |st| :: st[i].pid != st[j].pid
  }

  ghost predicate StackOk(k: State, st: seq<Frame>, t: nat, running: bool)
    requires Shape(k)
  {
    Distinct(st) && forall i | 0 <= i < |st| :: FrameOk(k, st, t, i, running)
  }

  ghost predicate Nowhere(a: Calls, p: Pid)
    requires Live(a)
  {
    forall t | 0 <= t < TERMINALS :: !OnStack(a.stacks[t], p)
  }

  /** A slot is used for a process on a stack, or lost, or free. */
  ghost predicate SlotOk(k: State, a: Calls, p: Pid)
    requires Shape(k) && Live(a)
  {
    if k.used[p] && p !in a.lost then k.pcbs[p].terminal < TERMINALS && OnStack(a.stacks[k.pcbs[p].terminal], p)
    else !k.active[p] && (p in a.lost ==> k.used[p] && k.pcbs[p].terminal < TERMINALS && p > 2 && Nowhere(a, p))
  }

  /** Every stack is in the table, and everything in the table is on a stack. */
  ghost predicate Linked(k: State, a: Calls)
    requires Shape(k) && Live(a)
  {
    && (forall t | 0 <= t < TERMINALS :: StackOk(k, a.stacks[t], t, t == a.cur))
    && (forall t | 0 <= t < TERMINALS :: a.stacks[t] != [] <==> t < k.shells)
    && (k.shells < 3 ==> a.lost == {} && forall t | 0 <= t < TERMINALS :: |a.stacks[t]| <= 1)
    && (forall p: Pid :: SlotOk(k, a, p))
  }

  ghost predicate Refines(k: State, a: Calls) {
    && Shape(k) && Live(a) && Linked(k, a) && 1 <= k.shells <= 3
    && k.esp0 == Esp0(Running(a)) && k.cr3 == Running(a)
    && k.regs == a.regs && k.eax == a.eax
  }

  lemma OnStackUsed(k: State, a: Calls, t: nat, p: Pid)
    requires Refines(k, a) && t < TERMINALS && OnStack(a.stacks[t], p)
    ensures k.used[p] && k.pcbs[p].terminal == t && (k.active[p] <==> IsTop(a, t, p))
  {
    var st := a.stacks[t];
    assert StackOk(k, st, t, t == a.cur);
    var i :| 0 <= i < |st| && st[i].pid == p;
    assert FrameOk(k, st, t, i, t == a.cur);
  }

  /** The two flag tables say exactly who is on a stack and who is on top of one. */
  lemma RefinesTables(k: State, a: Calls)
    requires Refines(k, a)
    ensures k.used == UsedOf(a) && k.active == ActiveOf(a) && Current(k) == Running(a)
  {
    forall p: Pid
      ensures k.used[p] == UsedOf(a)[p] && k.active[p] == ActiveOf(a)[p]
    {
      assert SlotOk(k, a, p);
      forall t | 0 <= t < TERMINALS && OnStack(a.stacks[t], p)
        ensures k.used[p] && k.pcbs[p].terminal == t && (k.active[p] <==> IsTop(a, t, p))
      {
        OnStackUsed(k, a, t, p);
      }
      assert forall t | 0 <= t < TERMINALS && IsTop(a, t, p) :: OnStack(a.stacks[t], p);
    }
  }

  /** The processes of a stack are untouched by changes to other slots. */
  lemma StackKept(k: State, k': State, st: seq<Frame>, t: nat, running: bool, running': bool)
    requires Shape(k) && Shape(k') && StackOk(k, st, t, running) && (running ==> running')
    requires forall p: Pid | OnStack(st, p) ::
      k'.used[p] == k.used[p] && k'.active[p] == k.active[p] && k'.pcbs[p] == k.pcbs[p]
      && k'.dirs[p][USER_PDE] == k.dirs[p][USER_PDE]
    ensures StackOk(k', st, t, running')
  {
    forall i | 0 <= i < |st| ensures FrameOk(k', st, t, i, running') {
      assert FrameOk(k, st, t, i, running);
      assert OnStack(st, st[i].pid);
    }
  }

  // ----- the steps

  /** The caller's slot, its place on its stack, and where the kernel finds its control block. */
  lemma Caller(k: State, a: Calls, s: Step)
    requires Refines(k, a) && Enabled(k, s) && !s.Poke?
    ensures CurPcb(s.regs.esp) == Running(a) && Defined(k, s)
    ensures FrameOk(k, a.stacks[a.cur], a.cur, |a.stacks[a.cur]| - 1, true)
    ensures k.used[Running(a)] && k.active[Running(a)] && k.pcbs[Running(a)].terminal == a.cur
  {
    RefinesTables(k, a);
    CurPcbIsOwner(s.regs.esp, Current(k));
    assert StackOk(k, a.stacks[a.cur], a.cur, true);
    assert FrameOk(k, a.stacks[a.cur], a.cur, |a.stacks[a.cur]| - 1, true);
  }

  lemma OthersDisjoint(k: State, a: Calls, t: nat, p: Pid)
    requires Refines(k, a) && t < TERMINALS && t != a.cur && OnStack(a.stacks[t], p)
    ensures k.used[p] && p != Running(a)
  {
    OnStackUsed(k, a, t, p);
    assert OnStack(a.stacks[a.cur], Running(a));
    OnStackUsed(k, a, a.cur, Running(a));
  }

  lemma RootsUsed(k: State, a: Calls)
    requires Refines(k, a)
    ensures forall t: Pid | t < k.shells :: k.used[t]
    ensures k.shells < 3 ==> FirstFree(k.used, 0) == k.shells
  {
    forall t: Pid | t < k.shells ensures k.used[t] {
      assert StackOk(k, a.stacks[t], t, t == a.cur);
      assert FrameOk(k, a.stacks[t], t, 0, t == a.cur);
    }
    forall p: Pid | k.used[p] && k.shells < 3 ensures p < k.shells {
      assert SlotOk(k, a, p);
      var t := k.pcbs[p].terminal;
      var i :| 0 <= i < |a.stacks[t]| && a.stacks[t][i].pid == p;
      assert StackOk(k, a.stacks[t], t, t == a.cur) && FrameOk(k, a.stacks[t], t, i, t == a.cur);
    }
  }

  /** The stack a new process is pushed on. */
  lemma PushedStack(k: State, k': State, a: Calls, p: Pid, regs: Regs)
    requires Refines(k, a) && Shape(k') && k.shells == 3 && !k.used[p] && p > 2
    requires Spawned(k, k', p, Running(a), a.cur, regs)
    ensures StackOk(k', SaveTop(a.stacks[a.cur], regs) + [Frame(p, regs)], a.cur, true)
  {
    var st := a.stacks[a.cur];
    var st' := SaveTop(st, regs) + [Frame(p, regs)];
    assert StackOk(k, st, a.cur, true);
    forall i | 0 <= i < |st| ensures st'[i].pid == st[i].pid != p && (i < |st| - 1 ==> st[i].pid != Running(a)) {
      assert FrameOk(k, st, a.cur, i, true);
    }
    forall i | 0 <= i < |st'| ensures FrameOk(k', st', a.cur, i, true) {
      if i < |st| {
        assert FrameOk(k, st, a.cur, i, true);
      }
    }
  }

  lemma StackGrows(st: seq<Frame>, regs: Regs, p: Pid, q: Pid)
    requires st != []
    ensures OnStack(SaveTop(st, regs) + [Frame(p, regs)], q) <==> q == p || OnStack(st, q)
  {
    var st' := SaveTop(st, regs) + [Frame(p, regs)];
    assert st'[|st|].pid == p;
    assert forall i | 0 <= i < |st| :: st'[i].pid == st[i].pid;
  }

  lemma PushRefines(k: State, k': State, a: Calls, p: Pid, regs: Regs)
    requires Refines(k, a) && Shape(k') && k.shells == 3 && !k.used[p] && p > 2
    requires Spawned(k, k', p, Running(a), a.cur, regs)
    ensures Refines(k', a.(stacks := a.stacks[a.cur := SaveTop(a.stacks[a.cur], regs) + [Frame(p, regs)]],
                           regs := regs))
  {
    var a' := a.(stacks := a.stacks[a.cur := SaveTop(a.stacks[a.cur], regs) + [Frame(p, regs)]], regs := regs);
    PushedStack(k, k', a, p, regs);
    forall t | 0 <= t < TERMINALS && t != a.cur ensures StackOk(k', a.stacks[t], t, false) {
      forall q: Pid | OnStack(a.stacks[t], q) ensures q != p && q != Running(a) {
        OthersDisjoint(k, a, t, q);
      }
      assert StackOk(k, a.stacks[t], t, false);
      StackKept(k, k', a.stacks[t], t, false, false);
    }
    forall q: Pid ensures SlotOk(k', a', q) {
      assert SlotOk(k, a, q);
      assert q == Running(a) ==> k.used[q] by { OnStackUsed(k, a, a.cur, Running(a)); }
      StackGrows(a.stacks[a.cur], regs, p, q);
    }
  }

  /** Changes confined to free slots' control blocks, to memory or to other directory entries are
      invisible. */
  lemma SameTablesRefine(k: State, k': State, a: Calls)
    requires Refines(k, a) && Shape(k')
    requires k' == k.(pcbs := k'.pcbs, frames := k'.frames, dirs := k'.dirs)
    requires forall p: Pid | k.used[p] :: k'.pcbs[p] == k.pcbs[p]
    requires forall p: Pid :: k'.dirs[p][USER_PDE] == k.dirs[p][USER_PDE]
    ensures Refines(k', a)
  {
    forall t | 0 <= t < TERMINALS ensures StackOk(k', a.stacks[t], t, t == a.cur) {
      forall q: Pid | OnStack(a.stacks[t], q) ensures k.used[q] {
        OnStackUsed(k, a, t, q);
      }
      StackKept(k, k', a.stacks[t], t, t == a.cur, t == a.cur);
    }
    forall q: Pid ensures SlotOk(k', a, q) {
      assert SlotOk(k, a, q);
    }
  }

  lemma PushedCall(e: Env, k: State, a: Calls, regs: Regs, text: seq<byte>, residue: seq<byte>)
    requires EnvOk(e) && Refines(k, a) && k.shells == 3 && |residue| == HEAD && CurPcb(regs.esp) == Running(a)
    requires k.pcbs[Running(a)].terminal == a.cur
    ensures Refines(Execute(e, k, regs, text, residue).0, Call(a, regs, Program(e.fs, text, residue).Some?))
  {
    hide Program, Linked;
    RefinesTables(k, a);
    RootsUsed(k, a);
    ExecuteSpawns(e, k, regs, text, residue, Running(a));
    var (k', ok) := Execute(e, k, regs, text, residue);
    if ok {
      hide Execute;
      PushRefines(k, k', a, FirstFree(k.used, 0), regs);
    } else {
      SameTablesRefine(k, k', a);
    }
  }

  lemma CallRefines(e: Env, k: State, a: Calls, s: Step)
    requires EnvOk(e) && Refines(k, a) && Enabled(k, s) && s.Exec? && !Torn(e, k, s)
    ensures Defined(k, s) && Refines(Next(e, k, s), NextCalls(e, a, s))
  {
    hide Reading, Program, Linked, Execute, Lookup, EnvOk, FetchesAll;
    Caller(k, a, s);
    RefinesTables(k, a);
    if s.ptr != 0 && FirstFree(k.used, 0) < MAX_USER_PROG {
      PushedCall(e, k, a, s.regs, Asked(s).text, s.residue);
    }
  }

  /** The running process saves its context; the relation then holds for all stacks alike. */
  lemma SavedStack(k: State, k': State, a: Calls, regs: Regs)
    requires Refines(k, a) && Shape(k')
    requires k' == k.(pcbs := k.pcbs[Running(a) := k.pcbs[Running(a)].(regs := regs)])
    ensures StackOk(k', SaveTop(a.stacks[a.cur], regs), a.cur, false)
    ensures forall t | 0 <= t < TERMINALS && t != a.cur :: StackOk(k', a.stacks[t], t, false)
    ensures forall t, p: Pid | 0 <= t < TERMINALS :: OnStack(a.stacks[t], p) <==> OnStack(SavedStacks(a, regs)[t], p)
  {
    var st := a.stacks[a.cur];
    var st' := SaveTop(st, regs);
    assert StackOk(k, st, a.cur, true);
    assert forall i | 0 <= i < |st| :: st'[i].pid == st[i].pid;
    forall i | 0 <= i < |st'| ensures FrameOk(k', st', a.cur, i, false) {
      assert FrameOk(k, st, a.cur, i, true);
    }
    forall t | 0 <= t < TERMINALS && t != a.cur ensures StackOk(k', a.stacks[t], t, false) {
      forall q: Pid | OnStack(a.stacks[t], q) ensures q != Running(a) {
        OthersDisjoint(k, a, t, q);
      }
      assert StackOk(k, a.stacks[t], t, false);
      StackKept(k, k', a.stacks[t], t, false, false);
    }
  }

  function SavedStacks(a: Calls, regs: Regs): (r: seq<seq<Frame>>)
    requires Live(a)
    ensures |r| == TERMINALS
  {
    a.stacks[a.cur := SaveTop(a.stacks[a.cur], regs)]
  }

  /** Saving the context and moving the processor to the top of terminal t's stack. */
  lemma SwitchRefines(k: State, k': State, a: Calls, regs: Regs, t: nat)
    requires Refines(k, a) && Shape(k') && t < k.shells
    requires var p := Top(a.stacks[t]).pid;
      k' == k.(pcbs := k.pcbs[Running(a) := k.pcbs[Running(a)].(regs := regs)],
               esp0 := Esp0(p), cr3 := p, regs := k'.regs)
    requires k'.regs == k'.pcbs[Top(a.stacks[t]).pid].regs
    ensures Refines(k', a.(stacks := SavedStacks(a, regs), cur := t, regs := Top(SavedStacks(a, regs)[t]).regs))
  {
    var a' := a.(stacks := SavedStacks(a, regs), cur := t, regs := Top(SavedStacks(a, regs)[t]).regs);
    var mid := k.(pcbs := k'.pcbs);
    SavedStack(k, mid, a, regs);
    forall u | 0 <= u < TERMINALS ensures StackOk(k', a'.stacks[u], u, u == t) {
      assert StackOk(mid, a'.stacks[u], u, false);
      StackKept(mid, k', a'.stacks[u], u, false, u == t);
    }
    assert FrameOk(mid, a'.stacks[t], t, |a'.stacks[t]| - 1, false) by {
      assert StackOk(mid, a'.stacks[t], t, false);
    }
    forall q: Pid ensures SlotOk(k', a', q) {
      assert SlotOk(k, a, q);
    }
  }

  lemma TickRefines(e: Env, k: State, a: Calls, s: Step)
    requires EnvOk(e) && Refines(k, a) && Enabled(k, s) && s.Tick? && k.shells == 3
    ensures Defined(k, s) && Refines(Next(e, k, s), NextCalls(e, a, s))
  {
    Caller(k, a, s);
    RefinesTables(k, a);
    var me := Running(a);
    assert k.active[me := true] == k.active;
    var t := Owner(a, NextProc(k.active, me));
    assert a.stacks[1] != [] && a.stacks[2] != [];
    SwitchRefines(k, Next(e, k, s), a, s.regs, t);
  }

  /** A shell (re)started as the bottom of stack t, whose slot is t. */
  lemma RootRefines(k: State, k': State, a: Calls, t: Pid, regs: Regs)
    requires Shape(k) && Shape(k') && Live(a) && t < TERMINALS && 1 <= k.shells <= 3
    requires !k.used[t] && a.stacks[t] == [] && t != a.cur
    requires forall u | 0 <= u < TERMINALS :: StackOk(k, a.stacks[u], u, false)
    requires forall u | 0 <= u < TERMINALS && u != t :: a.stacks[u] != [] <==> u < k.shells
    requires t < k.shells && (k.shells < 3 ==> a.lost == {} && forall u | 0 <= u < TERMINALS :: |a.stacks[u]| <= 1)
    requires (forall p: Pid | p != t :: SlotOk(k, a, p)) && t !in a.lost
    requires k.eax == a.eax && Spawned(k, k', t, t, t, regs)
    ensures Refines(k', a.(stacks := a.stacks[t := [Frame(t, regs)]], cur := t, regs := regs))
  {
    var root := [Frame(t, regs)];
    var a' := a.(stacks := a.stacks[t := root], cur := t, regs := regs);
    assert FrameOk(k', root, t, 0, true);
    forall u | 0 <= u < TERMINALS && u != t ensures StackOk(k', a.stacks[u], u, false) {
      forall q: Pid | OnStack(a.stacks[u], q) ensures q != t {
        var i :| 0 <= i < |a.stacks[u]| && a.stacks[u][i].pid == q;
        assert FrameOk(k, a.stacks[u], u, i, false);
      }
      StackKept(k, k', a.stacks[u], u, false, false);
    }
    assert root[0].pid == t;
    forall q: Pid ensures SlotOk(k', a', q) {
      if q != t {
        assert SlotOk(k, a, q);
      } else {
        assert OnStack(a'.stacks[t], t);
      }
    }
  }

  /** sched between saving the context and starting the next shell. */
  ghost function Booting(k: State, me: Pid, regs: Regs): (r: State)
    requires Shape(k)
    ensures Shape(r)
  {
    k.(active := k.active[me := true], pcbs := k.pcbs[me := k.pcbs[me].(regs := regs)], shells := k.shells + 1)
  }

  lemma BootingStacks(k: State, a: Calls, regs: Regs)
    requires Refines(k, a) && k.active[Running(a)]
    ensures var r := Booting(k, Running(a), regs);
      && (forall u | 0 <= u < TERMINALS :: StackOk(r, SavedStacks(a, regs)[u], u, false))
      && (forall p: Pid :: SlotOk(r, a.(stacks := SavedStacks(a, regs)), p))
  {
    var mid := k.(pcbs := k.pcbs[Running(a) := k.pcbs[Running(a)].(regs := regs)]);
    var r := Booting(k, Running(a), regs);
    SavedStack(k, mid, a, regs);
    forall u | 0 <= u < TERMINALS ensures StackOk(r, SavedStacks(a, regs)[u], u, false) {
      assert StackOk(mid, SavedStacks(a, regs)[u], u, false);
      StackKept(mid, r, SavedStacks(a, regs)[u], u, false, false);
    }
    forall p: Pid ensures SlotOk(r, a.(stacks := SavedStacks(a, regs)), p) {
      assert SlotOk(k, a, p);
    }
  }

  lemma SchedBoots(e: Env, k: State, me: Pid, s: Step, p: Pid)
    requires EnvOk(e) && Defined(k, s) && s.Tick? && k.shells < 3 && CurPcb(s.regs.esp) == me
    requires FirstFree(k.used, 0) == p && p <= 2
    ensures Spawned(Booting(k, me, s.regs), Next(e, k, s), p, p, p, s.regs)
  {
    ShellIsProgram(e.fs, s.residue);
    ExecuteSpawns(e, Booting(k, me, s.regs), s.regs, SHELL, s.residue, me);
  }

  lemma StartedRefines(k: State, k': State, a: Calls, regs: Regs, t: Pid)
    requires Refines(k, a) && Shape(k') && t == k.shells < 3 && !k.used[t] && k.active[Running(a)]
    requires Spawned(Booting(k, Running(a), regs), k', t, t, t, regs)
    ensures Refines(k', Preempt(a, regs))
  {
    BootingStacks(k, a, regs);
    var a1 := a.(stacks := SavedStacks(a, regs));
    assert a.stacks[t] == [] && t != a.cur;
    RootRefines(Booting(k, Running(a), regs), k', a1, t, regs);
  }

  lemma BootRefines(e: Env, k: State, a: Calls, s: Step)
    requires EnvOk(e) && Refines(k, a) && Enabled(k, s) && s.Tick? && k.shells < 3
    ensures Defined(k, s) && Refines(Next(e, k, s), NextCalls(e, a, s))
  {
    Caller(k, a, s);
    RootsUsed(k, a);
    SchedBoots(e, k, Running(a), s, k.shells);
    StartedRefines(k, Next(e, k, s), a, s.regs, k.shells);
  }

  /** A program returns to its caller: the stack loses its top. */
  lemma PoppedRefines(k: State, freed: State, k': State, a: Calls, status: byte)
    requires Refines(k, a) && Shape(k') && |a.stacks[a.cur]| > 1
    requires var st := a.stacks[a.cur];
      Shape(freed) && Freed(k, freed, Running(a), st[|st| - 2].pid) && k' == ReturnTo(freed, st[|st| - 2].pid, status)
    ensures Refines(k', Return(a, a.regs, status))
  {
    var st := a.stacks[a.cur];
    var me, parent := Running(a), st[|st| - 2].pid;
    var st' := st[..|st| - 1];
    var a' := Return(a, a.regs, status);
    assert StackOk(k, st, a.cur, true);
    assert FrameOk(k, st, a.cur, |st| - 2, true);
    forall i | 0 <= i < |st'| ensures FrameOk(k', st', a.cur, i, true) {
      assert FrameOk(k, st, a.cur, i, true);
      assert st'[i] == st[i] && st[i].pid != me && (i < |st| - 2 ==> st[i].pid != parent);
    }
    forall t | 0 <= t < TERMINALS && t != a.cur ensures StackOk(k', a.stacks[t], t, false) {
      forall q: Pid | OnStack(a.stacks[t], q) ensures q != me && q != parent {
        OthersDisjoint(k, a, t, q);
        OnStackUsed(k, a, t, q);
      }
      assert StackOk(k, a.stacks[t], t, false);
      StackKept(k, k', a.stacks[t], t, false, false);
    }
    forall q: Pid ensures SlotOk(k', a', q) {
      assert SlotOk(k, a, q);
      StackShrinks(st, q);
      assert q !in a.lost && k.used[q] && k.pcbs[q].terminal == a.cur && q != me ==> OnStack(st', q);
      assert OnStack(st', q) ==> OnStack(st, q);
    }
  }

  lemma StackShrinks(st: seq<Frame>, q: Pid)
    requires st != []
    ensures OnStack(st, q) && q != Top(st).pid ==> OnStack(st[..|st| - 1], q)
    ensures OnStack(st[..|st| - 1], q) ==> OnStack(st, q)
  {
    if OnStack(st, q) && q != Top(st).pid {
      var i :| 0 <= i < |st| && st[i].pid == q;
      assert st[..|st| - 1][i].pid == q;
    }
  }

  /** The stacks without the shell that is just being restarted. */
  function WithoutRoot(a: Calls): (r: Calls)
    requires |a.stacks| == TERMINALS && a.cur < TERMINALS
  {
    a.(stacks := a.stacks[a.cur := []], cur := if a.cur == 0 then 1 else 0)
  }

  /** Between a shell's exit and its restart the other two stacks are as they were, and the
      lowest free slot is the one just left. */
  lemma FreedRoot(k: State, freed: State, a: Calls)
    requires Refines(k, a) && Shape(freed) && k.shells == 3 && |a.stacks[a.cur]| == 1
    requires Freed(k, freed, Running(a), Running(a))
    ensures Running(a) == a.cur && FirstFree(freed.used, 0) == a.cur && freed.eax == a.eax && freed.shells == 3
    ensures a.cur !in a.lost
    ensures forall u | 0 <= u < TERMINALS && u != a.cur :: a.stacks[u] != [] && StackOk(freed, a.stacks[u], u, false)
    ensures Live(WithoutRoot(a)) && forall p: Pid | p != a.cur :: SlotOk(freed, WithoutRoot(a), p)
  {
    var t := Running(a);
    assert SlotOk(k, a, a.cur);
    assert StackOk(k, a.stacks[a.cur], a.cur, true) && FrameOk(k, a.stacks[a.cur], a.cur, 0, true);
    RootsUsed(k, a);
    forall u | 0 <= u < TERMINALS && u != t ensures StackOk(freed, a.stacks[u], u, false) {
      forall q: Pid | OnStack(a.stacks[u], q) ensures q != t {
        OthersDisjoint(k, a, u, q);
      }
      assert StackOk(k, a.stacks[u], u, false);
      StackKept(k, freed, a.stacks[u], u, false, false);
    }
    forall p: Pid | p != t ensures SlotOk(freed, WithoutRoot(a), p) {
      assert SlotOk(k, a, p);
    }
  }

  /** A shell that exits comes back as a new shell in the same slot. */
  lemma RestartRefines(freed: State, k': State, a: Calls, regs: Regs)
    requires Shape(freed) && Shape(k') && freed.shells == 3 && freed.eax == a.eax
    requires Live(a) && |a.stacks[a.cur]| == 1 && Running(a) == a.cur && FirstFree(freed.used, 0) == a.cur
    requires a.cur !in a.lost
    requires forall u | 0 <= u < TERMINALS && u != a.cur :: a.stacks[u] != [] && StackOk(freed, a.stacks[u], u, false)
    requires Live(WithoutRoot(a)) && forall p: Pid | p != a.cur :: SlotOk(freed, WithoutRoot(a), p)
    requires Spawned(freed, k', a.cur, a.cur, a.cur, regs)
    ensures Refines(k', Return(a, regs, 0))
  {
    var b := WithoutRoot(a);
    assert b.stacks[a.cur] == [];
    RootRefines(freed, k', b, a.cur, regs);
    ReturnOfRoot(a, regs);
  }

  lemma ReturnOfRoot(a: Calls, regs: Regs)
    requires Live(a) && |a.stacks[a.cur]| == 1 && Running(a) == a.cur
    ensures var b := WithoutRoot(a);
      Return(a, regs, 0) == b.(stacks := b.stacks[a.cur := [Frame(a.cur, regs)]], cur := a.cur, regs := regs)
  {
    assert SaveTop(a.stacks[a.cur], regs) == [Frame(a.cur, regs)];
    assert WithoutRoot(a).stacks[a.cur := [Frame(a.cur, regs)]] == Return(a, regs, 0).stacks;
  }

  lemma ReturnRefines(e: Env, k: State, a: Calls, s: Step)
    requires EnvOk(e) && Refines(k, a) && Enabled(k, s) && s.Exit?
    ensures Defined(k, s) && Refines(Next(e, k, s), NextCalls(e, a, s))
  {
    Caller(k, a, s);
    HaltFrees(e, k, s.regs, s.status, s.residue, Running(a));
    var st := a.stacks[a.cur];
    assert FrameOk(k, st, a.cur, |st| - 1, true);
    var freed := Leaving(k, Running(a), k.pcbs[Running(a)].parent.value);
    if |st| > 1 {
      assert StackOk(k, st, a.cur, true) && st[|st| - 2].pid != Running(a);
      PoppedRefines(k, freed, Next(e, k, s), a, s.status);
    } else {
      FreedRoot(k, freed, a);
      RestartRefines(freed, Next(e, k, s), a, s.regs);
    }
  }

  /** execute takes a slot and then faults on its command. */
  ghost predicate Torn(e: Env, k: State, s: Step) {
    Shape(k) && s.Exec? && s.ptr != 0 && FirstFree(k.used, 0) < MAX_USER_PROG && Faults(e.fs, Asked(s))
  }

  /** The state in which the exception handler finds such an execute, and the halt it calls. */
  ghost function AtFault(k: State, s: Step): (r: State)
    requires Shape(k) && s.Exec? && FirstFree(k.used, 0) < MAX_USER_PROG
    ensures Shape(r)
  {
    Lost(k, FirstFree(k.used, 0), Asked(s))
  }

  function Killing(s: Step): (r: Step)
    requires s.Exec?
  {
    Exit(s.regs, s.residue, KILLED)
  }

  ghost function LostOne(a: Calls): (r: Calls)
    requires Live(a) && FirstFree(UsedOf(a), 0) < MAX_USER_PROG
    ensures Live(r)
  {
    a.(lost := a.lost + {FirstFree(UsedOf(a), 0)})
  }

  lemma LostSlot(k: State, k': State, a: Calls, p: Pid)
    requires Refines(k, a) && Shape(k') && k.shells == 3 && !k.used[p] && p > 2
    requires k' == k.(used := k.used[p := true], pcbs := k'.pcbs) && k'.pcbs == k.pcbs[p := k'.pcbs[p]]
    requires k'.pcbs[p].terminal < TERMINALS
    ensures Refines(k', a.(lost := a.lost + {p}))
  {
    var a' := a.(lost := a.lost + {p});
    forall t | 0 <= t < TERMINALS ensures StackOk(k', a.stacks[t], t, t == a.cur) && !OnStack(a.stacks[t], p) {
      forall q: Pid | OnStack(a.stacks[t], q) ensures q != p {
        OnStackUsed(k, a, t, q);
      }
      StackKept(k, k', a.stacks[t], t, t == a.cur, t == a.cur);
    }
    forall q: Pid ensures SlotOk(k', a', q) {
      assert SlotOk(k, a, q);
    }
  }

  /** An execute that faults is a halt of its caller, in a table where one more slot is lost. */
  lemma TornIsKilled(e: Env, k: State, a: Calls, s: Step)
    requires EnvOk(e) && Refines(k, a) && Enabled(k, s) && Torn(e, k, s)
    ensures Defined(k, s) && FirstFree(UsedOf(a), 0) == FirstFree(k.used, 0) > 2
    ensures var k1, a1 := AtFault(k, s), LostOne(a);
      && Refines(k1, a1) && Enabled(k1, Killing(s)) && Defined(k1, Killing(s)) && k1.frames == k.frames
      && Next(e, k, s) == Next(e, k1, Killing(s)) && NextCalls(e, a, s) == NextCalls(e, a1, Killing(s))
  {
    hide Faults, Reading, Halt, Linked, Program, FetchesAll, Execute, EnvOk;
    Caller(k, a, s);
    RefinesTables(k, a);
    RootsUsed(k, a);
    LostSlot(k, AtFault(k, s), a, FirstFree(k.used, 0));
  }

  lemma LoseRefines(e: Env, k: State, a: Calls, s: Step)
    requires EnvOk(e) && Refines(k, a) && Enabled(k, s) && Torn(e, k, s)
    ensures Defined(k, s) && Refines(Next(e, k, s), NextCalls(e, a, s))
  {
    hide Linked, Next, NextCalls, Faults, AtFault, LostOne, EnvOk;
    TornIsKilled(e, k, a, s);
    ReturnRefines(e, AtFault(k, s), LostOne(a), Killing(s));
  }

  lemma VidmapRefines(e: Env, k: State, a: Calls, s: Step)
    requires EnvOk(e) && Refines(k, a) && Enabled(k, s) && s.Vidmap?
    ensures Defined(k, s) && Refines(Next(e, k, s), a)
  {
    Caller(k, a, s);
    SameTablesRefine(k, Next(e, k, s), a);
  }

  /** Every step of the kernel is a step of the call stacks, and meets no bad pointer. */
  lemma Simulates(e: Env, k: State, a: Calls, s: Step)
    requires EnvOk(e) && Refines(k, a) && Enabled(k, s)
    ensures Defined(k, s) && Refines(Next(e, k, s), NextCalls(e, a, s))
  {
    match s
    case Tick(_, _) => if k.shells < 3 { BootRefines(e, k, a, s); } else { TickRefines(e, k, a, s); }
    case Exec(_, _, _, _) => if Torn(e, k, s) { LoseRefines(e, k, a, s); } else { CallRefines(e, k, a, s); }
    case Exit(_, _, _) => ReturnRefines(e, k, a, s);
    case Vidmap(_, _) => VidmapRefines(e, k, a, s);
    case Poke(addr, value, user) => SameTablesRefine(k, Store(k, addr, [value], user), a);
  }
}
