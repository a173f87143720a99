/** What holds on every run of the kernel, from the first shell on. */
module Runs {
  import opened Machine
  import opened Commands
  import opened Processes
  import opened CallStacks
  import opened Lifecycle
  import opened Directories

  ghost predicate Steps(e: Env, k: State, s: Step, k': State)
    requires EnvOk(e)
  {
    Enabled(k, s) && (Defined(k, s) ==> k' == Next(e, k, s))
  }

  /** A run: ks[i] becomes ks[i + 1] by step ss[i]. */
  ghost predicate Path(e: Env, ks: seq<State>, ss: seq<Step>)
    requires EnvOk(e)
  {
    |ks| == |ss| + 1 && forall i | 0 <= i < |ss| :: Steps(e, ks[i], ss[i], ks[i + 1])
  }

  /** The state in which the first shell has just been entered. */
  ghost predicate Booted(e: Env, k: State) {
    && Shape(k) && k.shells == 1 && DirsOk(e, k)
    && (forall p: Pid :: k.used[p] == k.active[p] == (p == 0))
    && k.pcbs[0].pid == 0 && k.pcbs[0].parent == Some(0) && k.pcbs[0].terminal == 0
    && k.dirs[0][USER_PDE] == UserEntry(0) && (forall p: Pid :: k.dirs[p][VIDEO_PDE] == 0)
    && k.esp0 == Esp0(0) && k.cr3 == 0
  }

  function Start(k: State): Calls {
    Calls([[Frame(0, k.regs)], [], []], 0, k.regs, k.eax, {})
  }

  ghost function Follow(e: Env, a: Calls, ss: seq<Step>): (r: Calls)
    requires EnvOk(e) && Live(a) && forall s | s in ss :: HeadOk(s)
    ensures Live(r)
  {
    if ss == [] then a else NextCalls(e, Follow(e, a, ss[..|ss| - 1]), ss[|ss| - 1])
  }

  lemma BootedRefines(e: Env, k: State)
    requires Booted(e, k)
    ensures Refines(k, Start(k))
  {
    var a := Start(k);
    assert FrameOk(k, a.stacks[0], 0, 0, true);
    assert a.stacks[0][0].pid == 0 && OnStack(a.stacks[0], 0);
    forall p: Pid ensures SlotOk(k, a, p) {
      assert p != 0 ==> !k.used[p];
    }
  }

  lemma PathResidues(e: Env, ks: seq<State>, ss: seq<Step>)
    requires EnvOk(e) && Path(e, ks, ss)
    ensures forall s | s in ss :: HeadOk(s)
  {
    forall s | s in ss ensures HeadOk(s) {
      var i :| 0 <= i < |ss| && ss[i] == s;
      assert Steps(e, ks[i], ss[i], ks[i + 1]);
    }
  }

  lemma PathFront(e: Env, ks: seq<State>, ss: seq<Step>)
    requires EnvOk(e) && Path(e, ks, ss) && ss != []
    ensures Path(e, ks[..|ss|], ss[..|ss| - 1]) && Steps(e, ks[|ss| - 1], ss[|ss| - 1], ks[|ss|])
  {
    forall i | 0 <= i < |ss| - 1 ensures Steps(e, ks[..|ss|][i], ss[..|ss| - 1][i], ks[..|ss|][i + 1]) {
      assert Steps(e, ks[i], ss[i], ks[i + 1]);
    }
  }

  lemma StepRefines(e: Env, k: State, a: Calls, s: Step, k': State)
    requires EnvOk(e) && Refines(k, a) && Steps(e, k, s, k')
    ensures Live(a) && HeadOk(s) && Refines(k', NextCalls(e, a, s))
  {
    hide Next, NextCalls, Linked, Program;
    Simulates(e, k, a, s);
  }

  /** On every run the table is the three call stacks that calls and returns alone would build. */
  lemma {:induction false} RunRefines(e: Env, ks: seq<State>, ss: seq<Step>, a: Calls)
    requires EnvOk(e) && Path(e, ks, ss) && Refines(ks[0], a)
    ensures forall s | s in ss :: HeadOk(s)
    ensures Refines(ks[|ss|], Follow(e, a, ss))
    decreases |ss|
  {
    hide NextCalls, Steps, EnvOk, Linked, Shape;
    PathResidues(e, ks, ss);
    if ss != [] {
      var pre := ss[..|ss| - 1];
      PathFront(e, ks, ss);
      RunRefines(e, ks[..|ss|], pre, a);
      StepRefines(e, ks[|ss| - 1], Follow(e, a, pre), ss[|ss| - 1], ks[|ss|]);
    }
  }

  /** The tops of two different stacks are different processes. */
  lemma TopsDiffer(k: State, a: Calls, t: nat, u: nat)
    requires Refines(k, a) && t < TERMINALS && u < TERMINALS && t != u && a.stacks[t] != [] && a.stacks[u] != []
    ensures Top(a.stacks[t]).pid != Top(a.stacks[u]).pid
    ensures k.active[Top(a.stacks[t]).pid] && k.pcbs[Top(a.stacks[t]).pid].terminal == t
  {
    var p, q := Top(a.stacks[t]).pid, Top(a.stacks[u]).pid;
    assert OnStack(a.stacks[t], p) && OnStack(a.stacks[u], q);
    OnStackUsed(k, a, t, p);
    OnStackUsed(k, a, u, q);
  }

  /** Once the shells are up three processes are active, one per terminal, the running one among
      them, and the task state and the loaded directory are its own. */
  lemma ThreeActive(k: State, a: Calls)
    requires Refines(k, a) && k.shells == 3
    ensures 0 <= Current(k) < MAX_USER_PROG && k.active[Current(k)]
    ensures k.cr3 == Current(k) && k.esp0 == Esp0(Current(k))
    ensures |set p: Pid | 0 <= p < MAX_USER_PROG && k.active[p]| == 3
    ensures forall p: Pid, q: Pid | k.active[p] && k.active[q] && p != q :: k.pcbs[p].terminal != k.pcbs[q].terminal
  {
    RefinesTables(k, a);
    var x, y, z := Top(a.stacks[0]).pid, Top(a.stacks[1]).pid, Top(a.stacks[2]).pid;
    TopsDiffer(k, a, 0, 1);
    TopsDiffer(k, a, 1, 2);
    TopsDiffer(k, a, 2, 0);
    forall p: Pid ensures k.active[p] <==> p == x || p == y || p == z {
      assert ActiveOf(a)[p] <==> IsTop(a, 0, p) || IsTop(a, 1, p) || IsTop(a, 2, p);
    }
    assert (set p: Pid | 0 <= p < MAX_USER_PROG && k.active[p]) == {x, y, z};
  }

  /** Every used slot's parent is used and on the same terminal; slots 0, 1 and 2 are the
      bottoms of the chains. */
  lemma ParentOk(k: State, a: Calls, p: Pid)
    requires Refines(k, a) && k.shells == 3 && k.used[p] && p !in a.lost
    ensures k.pcbs[p].parent.Some? && k.used[k.pcbs[p].parent.value]
      && k.pcbs[k.pcbs[p].parent.value].terminal == k.pcbs[p].terminal
      && (k.pcbs[p].parent == Some(p) <==> p < 3)
  {
    assert SlotOk(k, a, p);
    var t := k.pcbs[p].terminal;
    var st := a.stacks[t];
    assert StackOk(k, st, t, t == a.cur);
    var i :| 0 <= i < |st| && st[i].pid == p;
    assert FrameOk(k, st, t, i, t == a.cur);
    if i > 0 {
      assert FrameOk(k, st, t, i - 1, t == a.cur);
    }
    if p < 3 {
      assert StackOk(k, a.stacks[p], p, p == a.cur) && FrameOk(k, a.stacks[p], p, 0, p == a.cur);
    }
  }

  // ----- bounded waiting

  function Ticks(ss: seq<Step>): nat {
    if ss == [] then 0 else (if ss[0].Tick? then 1 else 0) + Ticks(ss[1..])
  }

  /** The place, in the scan that starts after waiter w, of the other process that waits. */
  function Rank(a: Calls, t: nat, w: Pid): (r: nat)
    requires Live(a) && t < TERMINALS && t != a.cur && forall u | 0 <= u < TERMINALS :: a.stacks[u] != []
    ensures r < MAX_USER_PROG
  {
    Dist(w, Top(a.stacks[TERMINALS - t - a.cur]).pid)
  }

  lemma CyclicOrder(me: Pid, w: Pid, other: Pid)
    requires me != w && w != other && other != me && Dist(me, other) <= Dist(me, w)
    ensures Dist(w, me) < Dist(w, other)
  {
  }

  /** With three distinct tops, a tick that does not reach w's terminal reaches the third one. */
  lemma TickGoesToOther(a: Calls, regs: Regs, t: nat, w: Pid)
    requires Live(a) && forall u | 0 <= u < TERMINALS :: a.stacks[u] != []
    requires t < TERMINALS && t != a.cur && IsTop(a, t, w) && Running(a) != w && Preempt(a, regs).cur != t
    ensures var o := TERMINALS - t - a.cur;
      && Preempt(a, regs).cur == o
      && Dist(Running(a), Top(a.stacks[o]).pid) <= Dist(Running(a), w)
  {
    var next := NextProc(ActiveOf(a), Running(a));
    assert ActiveOf(a)[w];
    assert Dist(Running(a), next) <= Dist(Running(a), w) < MAX_USER_PROG - 1;
    assert IsTop(a, Owner(a, next), next);
  }

  lemma TickRank(a: Calls, regs: Regs, t: nat, w: Pid)
    requires Live(a) && forall u | 0 <= u < TERMINALS :: a.stacks[u] != []
    requires forall u, v | 0 <= u < TERMINALS && 0 <= v < TERMINALS && u != v ::
      Top(a.stacks[u]).pid != Top(a.stacks[v]).pid
    requires t < TERMINALS && t != a.cur && IsTop(a, t, w) && Preempt(a, regs).cur != t
    ensures var a' := Preempt(a, regs);
      && IsTop(a', t, w) && (forall u | 0 <= u < TERMINALS :: a'.stacks[u] != [])
      && Rank(a', t, w) < Rank(a, t, w)
  {
    var o := TERMINALS - t - a.cur;
    TickGoesToOther(a, regs, t, w);
    CyclicOrder(Running(a), w, Top(a.stacks[o]).pid);
    assert Top(Preempt(a, regs).stacks[a.cur]).pid == Running(a);
  }

  /** Calls, returns and stores move only the running process's own stack. */
  lemma OwnStackOnly(e: Env, a: Calls, s: Step)
    requires EnvOk(e) && Live(a) && !s.Tick? && HeadOk(s)
    ensures var a' := NextCalls(e, a, s);
      a'.cur == a.cur && forall u | 0 <= u < TERMINALS && u != a.cur :: a'.stacks[u] == a.stacks[u]
  {
    hide EnvOk, Program, Faults, Reading, FirstFree, UsedOf;
  }

  /** While w waits nothing but a tick changes who else waits, and a tick that passes w over
      brings the other waiting process strictly nearer behind w. */
  lemma RankFalls(e: Env, k: State, a: Calls, s: Step, t: nat, w: Pid)
    requires EnvOk(e) && Refines(k, a) && k.shells == 3 && Enabled(k, s)
    requires forall u | 0 <= u < TERMINALS :: a.stacks[u] != []
    requires t < TERMINALS && t != a.cur && IsTop(a, t, w)
    requires NextCalls(e, a, s).cur != t
    ensures var a' := NextCalls(e, a, s);
      && IsTop(a', t, w) && (forall u | 0 <= u < TERMINALS :: a'.stacks[u] != [])
      && (s.Tick? ==> Rank(a', t, w) < Rank(a, t, w))
      && (!s.Tick? ==> Rank(a', t, w) == Rank(a, t, w))
  {
    hide Linked, Program;
    if s.Tick? {
      hide Preempt;
      TickRankFalls(k, a, s.regs, t, w);
    } else {
      hide NextCalls;
      OwnStackOnly(e, a, s);
    }
  }

  lemma TickRankFalls(k: State, a: Calls, regs: Regs, t: nat, w: Pid)
    requires Refines(k, a) && k.shells == 3
    requires t < TERMINALS && t != a.cur && IsTop(a, t, w) && Preempt(a, regs).cur != t
    ensures var a' := Preempt(a, regs);
      && IsTop(a', t, w) && (forall u | 0 <= u < TERMINALS :: a'.stacks[u] != [])
      && Rank(a', t, w) < Rank(a, t, w)
  {
    hide Preempt;
    forall u, v | 0 <= u < TERMINALS && 0 <= v < TERMINALS && u != v
      ensures Top(a.stacks[u]).pid != Top(a.stacks[v]).pid
    {
      TopsDiffer(k, a, u, v);
    }
    TickRank(a, regs, t, w);
  }

  /** A waiting process gets the processor within MAX_USER_PROG - 1 ticks, whatever the others
      execute and halt meanwhile: a stretch of a run in which it never does has at most four. */
  lemma {:induction false} BoundedWaiting(e: Env, ks: seq<State>, ss: seq<Step>, a: Calls, w: Pid)
    requires EnvOk(e) && Path(e, ks, ss) && Refines(ks[0], a) && ks[0].shells == 3
    requires ks[0].active[w] && forall i | 0 <= i < |ks| :: Current(ks[i]) != w
    ensures Ticks(ss) <= MAX_USER_PROG - 2
  {
    var t := WaiterTerminal(ks[0], a, w);
    OtherIsNotWaiter(ks[0], a, t, w);
    WaitingTicks(e, ks, ss, a, t, w);
  }

  lemma WaiterTerminal(k: State, a: Calls, w: Pid) returns (t: nat)
    requires Refines(k, a) && k.shells == 3 && k.active[w] && Current(k) != w
    ensures t < TERMINALS && t != a.cur && IsTop(a, t, w)
  {
    RefinesTables(k, a);
    t := Owner(a, w);
  }

  lemma OtherIsNotWaiter(k: State, a: Calls, t: nat, w: Pid)
    requires Refines(k, a) && k.shells == 3 && t < TERMINALS && t != a.cur && IsTop(a, t, w)
    ensures Rank(a, t, w) <= MAX_USER_PROG - 2
  {
    var o := TERMINALS - t - a.cur;
    var other := Top(a.stacks[o]).pid;
    assert OnStack(a.stacks[t], w) && OnStack(a.stacks[o], other);
    OnStackUsed(k, a, t, w);
    OnStackUsed(k, a, o, other);
  }

  lemma {:induction false} WaitingTicks(e: Env, ks: seq<State>, ss: seq<Step>, a: Calls, t: nat, w: Pid)
    requires EnvOk(e) && Path(e, ks, ss) && Refines(ks[0], a) && ks[0].shells == 3
    requires t < TERMINALS && t != a.cur && IsTop(a, t, w)
    requires forall i | 0 <= i < |ks| :: Current(ks[i]) != w
    ensures Ticks(ss) <= Rank(a, t, w)
    decreases |ss|
  {
    if ss != [] {
      assert Steps(e, ks[0], ss[0], ks[1]);
      Simulates(e, ks[0], a, ss[0]);
      var a' := NextCalls(e, a, ss[0]);
      NotDispatched(e, ks[0], a, ss[0], t, w);
      assert forall u | 0 <= u < TERMINALS :: a.stacks[u] != [];
      RankFalls(e, ks[0], a, ss[0], t, w);
      PathTail(e, ks, ss);
      ShellsCount(e, ks[0], a, ss[0]);
      WaitingTicks(e, ks[1..], ss[1..], a', t, w);
    }
  }

  lemma Occupied(e: Env, a: Calls, s: Step, t: nat)
    requires EnvOk(e) && Live(a) && HeadOk(s) && t < TERMINALS
    ensures NextCalls(e, a, s).stacks[t] != []
      <==> a.stacks[t] != [] || (s.Tick? && t == if a.stacks[1] == [] then 1 else 2)
  {
    hide ActiveOf, NextProc, FirstFree, UsedOf, Program, IsTop;
  }

  lemma ShellStacks(k: State, a: Calls)
    requires Refines(k, a)
    ensures forall t | 0 <= t < TERMINALS :: a.stacks[t] != [] <==> t < k.shells
  {
  }

  /** A tick starts the next shell while there is one to start; nothing else changes their count. */
  lemma ShellsCount(e: Env, k: State, a: Calls, s: Step)
    requires EnvOk(e) && Refines(k, a) && Enabled(k, s)
    ensures Defined(k, s) && Next(e, k, s).shells == if s.Tick? && k.shells < 3 then k.shells + 1 else k.shells
  {
    hide Next, NextCalls, Linked, Program;
    Simulates(e, k, a, s);
    ShellStacks(k, a);
    ShellStacks(Next(e, k, s), NextCalls(e, a, s));
    Occupied(e, a, s, 0);
    Occupied(e, a, s, 1);
    Occupied(e, a, s, 2);
  }

  lemma PathTail(e: Env, ks: seq<State>, ss: seq<Step>)
    requires EnvOk(e) && Path(e, ks, ss) && ss != []
    ensures Path(e, ks[1..], ss[1..])
  {
    forall i | 0 <= i < |ss[1..]| ensures Steps(e, ks[1..][i], ss[1..][i], ks[1..][i + 1]) {
      assert Steps(e, ks[i + 1], ss[i + 1], ks[i + 2]);
    }
  }

  lemma NotDispatched(e: Env, k: State, a: Calls, s: Step, t: nat, w: Pid)
    requires EnvOk(e) && Refines(k, a) && k.shells == 3 && Enabled(k, s)
    requires t < TERMINALS && t != a.cur && IsTop(a, t, w)
    requires Defined(k, s) && Current(Next(e, k, s)) != w
    ensures NextCalls(e, a, s).cur != t
  {
    hide Next, NextCalls, Linked;
    Simulates(e, k, a, s);
    OthersWait(e, a, s, t, w);
    CurrentByTerminal(Next(e, k, s), NextCalls(e, a, s), t, w);
  }

  lemma OthersWait(e: Env, a: Calls, s: Step, t: nat, w: Pid)
    requires EnvOk(e) && Live(a) && HeadOk(s) && t < TERMINALS && t != a.cur && IsTop(a, t, w)
    ensures IsTop(NextCalls(e, a, s), t, w)
  {
    hide NextCalls;
    WaitingTop(e, a, s, t);
  }

  // ----- contexts

  /** The step ends the running process: it exits, or its execute faults. */
  ghost predicate Ends(e: Env, s: Step) {
    s.Exit? || (s.Exec? && s.ptr != 0 && Faults(e.fs, Asked(s)))
  }

  function Status(s: Step): byte {
    if s.Exit? then s.status else KILLED
  }

  /** Frame n of stack t survives every step that leaves something above it, and the step that
      uncovers it is the end of a process that hands its saved context back. */
  lemma CoveredFrame(e: Env, a: Calls, s: Step, t: nat, n: nat)
    requires EnvOk(e) && Live(a) && HeadOk(s) && t < TERMINALS && n + 1 < |a.stacks[t]|
    ensures var a' := NextCalls(e, a, s);
      && n < |a'.stacks[t]| && a'.stacks[t][n] == a.stacks[t][n]
      && (n + 1 == |a'.stacks[t]| ==>
            Ends(e, s) && a'.cur == t && a'.regs == a.stacks[t][n].regs && a'.eax == Status(s))
  {
    hide Program, Reading, Preempt, Call, Return, UsedOf, FirstFree, Lose;
    match s
    case Tick(regs, _) => PreemptCovers(a, regs, t, n);
    case Exec(regs, residue, ptr, m) =>
      if ptr != 0 {
        if Faults(e.fs, Asked(s)) {
          LoseCovers(a, regs, t, n);
        } else {
          CallCovers(a, regs, Program(e.fs, Asked(s).text, residue).Some?, t, n);
        }
      }
    case Exit(regs, _, status) => ReturnCovers(a, regs, status, t, n);
    case Vidmap(_, _) =>
    case Poke(_, _, _) =>
  }

  lemma PreemptCovers(a: Calls, regs: Regs, t: nat, n: nat)
    requires Live(a) && t < TERMINALS && n + 1 < |a.stacks[t]|
    ensures |Preempt(a, regs).stacks[t]| == |a.stacks[t]| && Preempt(a, regs).stacks[t][n] == a.stacks[t][n]
  {
    hide ActiveOf, NextProc, IsTop, Owner;
  }

  lemma CallCovers(a: Calls, regs: Regs, loads: bool, t: nat, n: nat)
    requires Live(a) && t < TERMINALS && n + 1 < |a.stacks[t]|
    ensures |Call(a, regs, loads).stacks[t]| >= |a.stacks[t]| && Call(a, regs, loads).stacks[t][n] == a.stacks[t][n]
  {
    hide UsedOf, FirstFree;
  }

  lemma ReturnCovers(a: Calls, regs: Regs, status: byte, t: nat, n: nat)
    requires Live(a) && t < TERMINALS && n + 1 < |a.stacks[t]|
    ensures var a' := Return(a, regs, status);
      && n < |a'.stacks[t]| && a'.stacks[t][n] == a.stacks[t][n]
      && (n + 1 == |a'.stacks[t]| ==> a'.cur == t && a'.regs == a.stacks[t][n].regs && a'.eax == status)
  {
  }

  lemma LoseCovers(a: Calls, regs: Regs, t: nat, n: nat)
    requires Live(a) && t < TERMINALS && n + 1 < |a.stacks[t]|
    ensures var a' := Lose(a, regs);
      && n < |a'.stacks[t]| && a'.stacks[t][n] == a.stacks[t][n]
      && (n + 1 == |a'.stacks[t]| ==> a'.cur == t && a'.regs == a.stacks[t][n].regs && a'.eax == KILLED)
  {
    hide UsedOf, FirstFree, Return;
    if FirstFree(UsedOf(a), 0) < MAX_USER_PROG {
      ReturnCovers(a.(lost := a.lost + {FirstFree(UsedOf(a), 0)}), regs, KILLED, t, n);
    }
  }

  /** A preempted top stays as it is until a tick gives it the processor and its context back. */
  lemma WaitingTop(e: Env, a: Calls, s: Step, t: nat)
    requires EnvOk(e) && Live(a) && HeadOk(s)
    requires t < TERMINALS && t != a.cur && a.stacks[t] != []
    ensures var a' := NextCalls(e, a, s);
      && a'.stacks[t] == a.stacks[t]
      && (a'.cur == t ==> s.Tick? && a'.regs == Top(a.stacks[t]).regs)
  {
    hide ActiveOf, NextProc, FirstFree, UsedOf, Program, IsTop, EnvOk, Faults, Reading;
    if !s.Tick? {
      hide NextCalls;
      OwnStackOnly(e, a, s);
    }
  }

  ghost predicate ActiveIn(k: State, p: Pid) {
    Shape(k) && k.active[p]
  }

  /** A program whose execute did not fault is resumed by the end of its callee, and by nothing else,
      with exactly the stack and frame pointers of its call, on its own kernel stack and in its
      own address space. */
  lemma ReturnToCaller(e: Env, ks: seq<State>, ss: seq<Step>, a: Calls, p: Pid)
    requires EnvOk(e) && Path(e, ks, ss) && Refines(ks[0], a) && |ss| >= 2
    requires ss[0].Exec? && !Ends(e, ss[0]) && Current(ks[0]) == p
    requires (forall i | 1 <= i < |ss| :: !ActiveIn(ks[i], p)) && ActiveIn(ks[|ss|], p)
    ensures var last := ss[|ss| - 1];
      && Ends(e, last) && ks[|ss|].regs == ss[0].regs && ks[|ss|].eax == Status(last)
      && Current(ks[|ss|]) == p && ks[|ss|].cr3 == p && ks[|ss|].esp0 == Esp0(p)
  {
    hide Next, NextCalls, Linked, EnvOk, Ends;
    assert Steps(e, ks[0], ss[0], ks[1]);
    RefinesTables(ks[0], a);
    Simulates(e, ks[0], a, ss[0]);
    var a1 := NextCalls(e, a, ss[0]);
    var t, n := a.cur, |a.stacks[a.cur]| - 1;
    RefinesTables(ks[1], a1);
    CalledFrame(e, a, ss[0], ks[1]);
    PathTail(e, ks, ss);
    UncoveredByExit(e, ks[1..], ss[1..], a1, t, n, p);
  }

  lemma CalledFrame(e: Env, a: Calls, s: Step, k': State)
    requires EnvOk(e) && Live(a) && s.Exec? && !Ends(e, s) && |s.residue| == HEAD
    requires Refines(k', NextCalls(e, a, s)) && !k'.active[Running(a)]
    ensures var st, st' := a.stacks[a.cur], NextCalls(e, a, s).stacks[a.cur];
      |st'| == |st| + 1 && st'[|st| - 1] == Frame(Running(a), s.regs)
  {
    hide Program, Faults, Reading, FirstFree, Linked;
    RefinesTables(k', NextCalls(e, a, s));
  }

  lemma TopIsLast(k: State, a: Calls, t: nat, n: nat)
    requires Refines(k, a) && t < TERMINALS && n < |a.stacks[t]|
    ensures k.active[a.stacks[t][n].pid] <==> n + 1 == |a.stacks[t]|
  {
    assert StackOk(k, a.stacks[t], t, t == a.cur) && FrameOk(k, a.stacks[t], t, n, t == a.cur);
  }

  /** One step of a run while frame n of stack t, process p's, is covered. */
  lemma CoveredStep(e: Env, k: State, a: Calls, s: Step, k': State, t: nat, n: nat)
    requires EnvOk(e) && Refines(k, a) && Steps(e, k, s, k') && t < TERMINALS && n + 1 < |a.stacks[t]|
    ensures var a', p := NextCalls(e, a, s), a.stacks[t][n].pid;
      && Refines(k', a') && n < |a'.stacks[t]| && a'.stacks[t][n] == a.stacks[t][n]
      && (if n + 1 < |a'.stacks[t]| then !ActiveIn(k', p) else
            && ActiveIn(k', p) && Ends(e, s) && k'.regs == a.stacks[t][n].regs && k'.eax == Status(s)
            && Current(k') == p && k'.cr3 == p && k'.esp0 == Esp0(p))
  {
    hide Next, NextCalls, Linked, Program;
    Simulates(e, k, a, s);
    var a' := NextCalls(e, a, s);
    CoveredFrame(e, a, s, t, n);
    TopIsLast(k', a', t, n);
    if n + 1 == |a'.stacks[t]| {
      RefinesTables(k', a');
    }
  }

  lemma {:induction false} UncoveredByExit(e: Env, ks: seq<State>, ss: seq<Step>, a: Calls, t: nat, n: nat, p: Pid)
    requires EnvOk(e) && Path(e, ks, ss) && Refines(ks[0], a) && |ss| >= 1
    requires t < TERMINALS && n + 1 < |a.stacks[t]| && a.stacks[t][n].pid == p
    requires (forall i | 0 <= i < |ss| :: !ActiveIn(ks[i], p)) && ActiveIn(ks[|ss|], p)
    ensures var last := ss[|ss| - 1];
      && Ends(e, last) && ks[|ss|].regs == a.stacks[t][n].regs && ks[|ss|].eax == Status(last)
      && Current(ks[|ss|]) == p && ks[|ss|].cr3 == p && ks[|ss|].esp0 == Esp0(p)
    decreases |ss|
  {
    hide Next, NextCalls, Linked, ActiveIn, Program;
    assert Steps(e, ks[0], ss[0], ks[1]);
    CoveredStep(e, ks[0], a, ss[0], ks[1], t, n);
    if |ss| > 1 {
      PathTail(e, ks, ss);
      assert ss[1..][|ss| - 2] == ss[|ss| - 1] && ks[1..][|ss| - 1] == ks[|ss|];
      UncoveredByExit(e, ks[1..], ss[1..], NextCalls(e, a, ss[0]), t, n, p);
    }
  }

  /** A preempted process gets the processor back by a tick, with exactly the stack and frame
      pointers it was preempted with. */
  lemma ResumedWhereStopped(e: Env, ks: seq<State>, ss: seq<Step>, a: Calls, p: Pid)
    requires EnvOk(e) && Path(e, ks, ss) && Refines(ks[0], a) && |ss| >= 1
    requires ss[0].Tick? && Current(ks[0]) == p
    requires (forall i | 1 <= i < |ss| :: Current(ks[i]) != p) && Current(ks[|ss|]) == p
    ensures ss[|ss| - 1].Tick? && ks[|ss|].regs == ss[0].regs
  {
    assert Steps(e, ks[0], ss[0], ks[1]);
    RefinesTables(ks[0], a);
    Simulates(e, ks[0], a, ss[0]);
    var a1 := NextCalls(e, a, ss[0]);
    RefinesTables(ks[1], a1);
    PreemptedTop(ks[1], a, ss[0].regs);
    if |ss| > 1 {
      PathTail(e, ks, ss);
      WaitsForTick(e, ks[1..], ss[1..], a1, a.cur, p);
    }
  }

  lemma PreemptedTop(k': State, a: Calls, regs: Regs)
    requires Live(a) && Refines(k', Preempt(a, regs))
    ensures var a' := Preempt(a, regs);
      && a'.stacks[a.cur] != [] && Top(a'.stacks[a.cur]) == Frame(Running(a), regs)
      && (a'.cur == a.cur <==> Running(a') == Running(a)) && (a'.cur == a.cur ==> a'.regs == regs)
  {
    var a' := Preempt(a, regs);
    assert |SaveTop(a.stacks[a.cur], regs)| == |a.stacks[a.cur]|;
    if a'.cur != a.cur {
      TopsDiffer(k', a', a'.cur, a.cur);
    }
  }

  lemma {:induction false} WaitsForTick(e: Env, ks: seq<State>, ss: seq<Step>, a: Calls, t: nat, p: Pid)
    requires EnvOk(e) && Path(e, ks, ss) && Refines(ks[0], a) && |ss| >= 1
    requires t < TERMINALS && t != a.cur && IsTop(a, t, p)
    requires (forall i | 0 <= i < |ss| :: Current(ks[i]) != p) && Current(ks[|ss|]) == p
    ensures ss[|ss| - 1].Tick? && ks[|ss|].regs == Top(a.stacks[t]).regs
    decreases |ss|
  {
    hide Next, NextCalls, Linked;
    assert Steps(e, ks[0], ss[0], ks[1]);
    Simulates(e, ks[0], a, ss[0]);
    var a' := NextCalls(e, a, ss[0]);
    WaitingTop(e, a, ss[0], t);
    CurrentByTerminal(ks[1], a', t, p);
    if |ss| == 1 {
      assert a'.cur == t && ss[|ss| - 1] == ss[0];
    } else {
      PathTail(e, ks, ss);
      assert ss[1..][|ss| - 2] == ss[|ss| - 1] && ks[1..][|ss| - 1] == ks[|ss|];
      WaitsForTick(e, ks[1..], ss[1..], a', t, p);
    }
  }

  lemma CurrentByTerminal(k: State, a: Calls, t: nat, p: Pid)
    requires Refines(k, a) && t < TERMINALS && IsTop(a, t, p)
    ensures Current(k) == p <==> a.cur == t
  {
    RefinesTables(k, a);
    if a.cur != t {
      TopsDiffer(k, a, a.cur, t);
    }
  }

  lemma StepShells(e: Env, k: State, a: Calls, s: Step, k': State)
    requires EnvOk(e) && Refines(k, a) && Steps(e, k, s, k')
    ensures k'.shells == Min(3, k.shells + if s.Tick? then 1 else 0)
  {
    hide Next, NextCalls, Linked, Program;
    ShellsCount(e, k, a, s);
  }

  lemma {:induction false} ShellsAfter(e: Env, ks: seq<State>, ss: seq<Step>, a: Calls)
    requires EnvOk(e) && Path(e, ks, ss) && Refines(ks[0], a) && ks[0].shells <= 3
    ensures ks[|ss|].shells == Min(3, ks[0].shells + Ticks(ss))
    decreases |ss|
  {
    hide NextCalls, Steps, Refines, EnvOk, Program, Live;
    if ss != [] {
      assert Steps(e, ks[0], ss[0], ks[1]);
      StepRefines(e, ks[0], a, ss[0], ks[1]);
      StepShells(e, ks[0], a, ss[0], ks[1]);
      PathTail(e, ks, ss);
      ShellsAfter(e, ks[1..], ss[1..], NextCalls(e, a, ss[0]));
    }
  }

  /** Every directory stays made of the entries execute and vidmap put there. */
  lemma {:induction false} RunKeepsDirs(e: Env, ks: seq<State>, ss: seq<Step>, a: Calls)
    requires EnvOk(e) && Path(e, ks, ss) && Refines(ks[0], a) && DirsOk(e, ks[0])
    ensures DirsOk(e, ks[|ss|])
    decreases |ss|
  {
    hide NextCalls, Steps, Refines, EnvOk, Program, Live, DirsOk;
    if ss != [] {
      assert Steps(e, ks[0], ss[0], ks[1]);
      StepRefines(e, ks[0], a, ss[0], ks[1]);
      StepDirs(e, ks[0], a, ss[0], ks[1]);
      PathTail(e, ks, ss);
      RunKeepsDirs(e, ks[1..], ss[1..], NextCalls(e, a, ss[0]));
    }
  }

  lemma StepDirs(e: Env, k: State, a: Calls, s: Step, k': State)
    requires EnvOk(e) && Refines(k, a) && Steps(e, k, s, k') && DirsOk(e, k)
    ensures DirsOk(e, k')
  {
    hide Next, NextCalls, Linked, Program, DirsOk;
    StepKeepsDirs(e, k, a, s);
  }

  /** On every run from the first shell the table is the call stacks of that run, and from the
      second tick on all three shells are up. */
  lemma FromBoot(e: Env, ks: seq<State>, ss: seq<Step>)
    requires EnvOk(e) && Path(e, ks, ss) && Booted(e, ks[0])
    ensures forall s | s in ss :: HeadOk(s)
    ensures Refines(ks[|ss|], Follow(e, Start(ks[0]), ss))
    ensures ks[|ss|].shells == Min(3, 1 + Ticks(ss)) && DirsOk(e, ks[|ss|])
  {
    BootedRefines(e, ks[0]);
    RunRefines(e, ks, ss, Start(ks[0]));
    RunKeepsDirs(e, ks, ss, Start(ks[0]));
    ShellsAfter(e, ks, ss, Start(ks[0]));
  }

  // ----- lost slots

  ghost predicate OnSomeStack(a: Calls, p: Pid)
    requires Live(a)
  {
    exists t | 0 <= t < TERMINALS :: OnStack(a.stacks[t], p)
  }

  /** A slot is used for a process on a stack or lost, never both; so the used flags are exactly the
      stacks if and only if nothing is lost. */
  lemma UsedExact(k: State, a: Calls)
    requires Refines(k, a)
    ensures forall p: Pid :: k.used[p] <==> OnSomeStack(a, p) || p in a.lost
    ensures forall p: Pid :: p in a.lost ==> !OnSomeStack(a, p) && !k.active[p] && p > 2
    ensures (forall p: Pid :: k.used[p] <==> OnSomeStack(a, p)) <==> a.lost == {}
  {
    RefinesTables(k, a);
    forall p: Pid
      ensures k.used[p] <==> OnSomeStack(a, p) || p in a.lost
      ensures p in a.lost ==> k.used[p] && !OnSomeStack(a, p) && !k.active[p] && p > 2
    {
      assert SlotOk(k, a, p);
      assert OnSomeStack(a, p) <==> OnStack(a.stacks[0], p) || OnStack(a.stacks[1], p) || OnStack(a.stacks[2], p);
      assert UsedOf(a)[p] <==> OnSomeStack(a, p) || p in a.lost;
    }
    if a.lost != {} {
      var p :| p in a.lost;
      assert k.used[p] && !OnSomeStack(a, p);
    }
  }

  lemma CallsLose(e: Env, a: Calls, s: Step)
    requires EnvOk(e) && Live(a) && HeadOk(s)
    ensures var p := FirstFree(UsedOf(a), 0);
      NextCalls(e, a, s).lost ==
        if s.Exec? && s.ptr != 0 && Faults(e.fs, Asked(s)) && p < MAX_USER_PROG then a.lost + {p} else a.lost
  {
    hide EnvOk, Program, Reading, Faults, FirstFree, UsedOf, ActiveOf, NextProc, IsTop;
  }

  /** A step loses a slot, the lowest free one, if and only if it is an execute that faults. */
  lemma StepLoses(e: Env, k: State, a: Calls, s: Step)
    requires EnvOk(e) && Refines(k, a) && Enabled(k, s)
    ensures NextCalls(e, a, s).lost == if Torn(e, k, s) then a.lost + {FirstFree(k.used, 0)} else a.lost
    ensures Torn(e, k, s) ==> FirstFree(k.used, 0) !in a.lost
  {
    hide Linked, EnvOk, NextCalls, Reading, Faults, FirstFree, ActiveOf, UsedOf, FetchesAll;
    RefinesTables(k, a);
    CallsLose(e, a, s);
    if Torn(e, k, s) && FirstFree(k.used, 0) in a.lost {
      LostIsUsed(k, a, FirstFree(k.used, 0));
    }
  }

  lemma LostIsUsed(k: State, a: Calls, p: Pid)
    requires Refines(k, a) && p in a.lost
    ensures k.used[p]
  {
    assert SlotOk(k, a, p);
  }

  /** On every run, no slot is ever given back once lost, and one is lost exactly when an execute
      faults on its command. */
  lemma {:induction false} LostExact(e: Env, ks: seq<State>, ss: seq<Step>, a: Calls)
    requires EnvOk(e) && Path(e, ks, ss) && Refines(ks[0], a)
    ensures forall s | s in ss :: HeadOk(s)
    ensures a.lost <= Follow(e, a, ss).lost
    ensures Follow(e, a, ss).lost == a.lost <==> forall i | 0 <= i < |ss| :: !Torn(e, ks[i], ss[i])
    decreases |ss|
  {
    hide NextCalls, Linked, Torn, EnvOk, Next;
    PathResidues(e, ks, ss);
    if ss != [] {
      var n := |ss| - 1;
      var pre := ss[..n];
      PathFront(e, ks, ss);
      LostExact(e, ks[..|ss|], pre, a);
      RunRefines(e, ks[..|ss|], pre, a);
      StepLoses(e, ks[n], Follow(e, a, pre), ss[n]);
      assert forall i | 0 <= i < n :: Torn(e, ks[i], ss[i]) == Torn(e, ks[..|ss|][i], pre[i]);
      if Torn(e, ks[n], ss[n]) {
        assert FirstFree(ks[n].used, 0) in Follow(e, a, ss).lost;
      }
    }
  }

  /** With three slots lost no execute does anything any more. */
  lemma LostForGood(e: Env, k: State, a: Calls, s: Step)
    requires EnvOk(e) && Refines(k, a) && Enabled(k, s) && s.Exec? && a.lost == {3, 4, 5}
    ensures Defined(k, s) && Next(e, k, s) == k
  {
    hide Linked;
    Caller(k, a, s);
    RootsUsed(k, a);
    LostIsUsed(k, a, 3);
    LostIsUsed(k, a, 4);
    LostIsUsed(k, a, 5);
  }

  /** execute with a NULL pointer changes nothing. */
  lemma NullRefused(e: Env, k: State, a: Calls, s: Step)
    requires EnvOk(e) && Refines(k, a) && Enabled(k, s) && s.Exec? && s.ptr == 0
    ensures Defined(k, s) && Next(e, k, s) == k
  {
    hide Linked, EnvOk;
    Caller(k, a, s);
  }
}
