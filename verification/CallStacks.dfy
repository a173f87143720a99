/** What the process table is for: three stacks of suspended calls, one per terminal, whose
    tops share the processor. */
module CallStacks {
  import opened Machine
  import opened Processes

  /** A process on a stack, with the context it had when it last gave up the processor. */
  datatype Frame = Frame(pid: Pid, regs: Regs)

  /** The stacks, the one that has the processor, the registers of the last switch, and the process
      numbers lost to calls that faulted half way. */
  datatype Calls = Calls(stacks: seq<seq<Frame>>, cur: nat, regs: Regs, eax: int, lost: set<Pid>)

  predicate Live(a: Calls) {
    |a.stacks| == TERMINALS && a.cur < TERMINALS && a.stacks[a.cur] != []
  }

  function Top(st: seq<Frame>): Frame
    requires st != []
  {
    st[|st| - 1]
  }

  function Running(a: Calls): Pid
    requires Live(a)
  {
    Top(a.stacks[a.cur]).pid
  }

  ghost predicate OnStack(st: seq<Frame>, p: Pid) {
    exists i | 0 <= i < |st| :: st[i].pid == p
  }

  ghost function UsedOf(a: Calls): (r: seq<bool>)
    requires Live(a)
    ensures |r| == MAX_USER_PROG
  {
    seq(MAX_USER_PROG, p requires 0 <= p < MAX_USER_PROG =>
      OnStack(a.stacks[0], p) || OnStack(a.stacks[1], p) || OnStack(a.stacks[2], p) || p in a.lost)
  }

  predicate IsTop(a: Calls, t: nat, p: Pid)
    requires Live(a) && t < TERMINALS
  {
    a.stacks[t] != [] && Top(a.stacks[t]).pid == p
  }

  function ActiveOf(a: Calls): (r: seq<bool>)
    requires Live(a)
    ensures |r| == MAX_USER_PROG && r[Running(a)]
  {
    var r := seq(MAX_USER_PROG, p requires 0 <= p < MAX_USER_PROG =>
      IsTop(a, 0, p) || IsTop(a, 1, p) || IsTop(a, 2, p));
    assert IsTop(a, a.cur, Running(a));
    r
  }

  /** The terminal whose stack p is on top of. */
  function Owner(a: Calls, p: Pid): (t: nat)
    requires Live(a) && ActiveOf(a)[p]
    ensures t < TERMINALS && IsTop(a, t, p)
  {
    if IsTop(a, 0, p) then 0 else if IsTop(a, 1, p) then 1 else 2
  }

  function SaveTop(st: seq<Frame>, regs: Regs): (r: seq<Frame>)
    requires st != []
    ensures |r| == |st|
  {
    st[|st| - 1 := Top(st).(regs := regs)]
  }

  /** A tick: while shells are missing it starts the next one, otherwise the top met first in
      round-robin order of process numbers goes on from where it stopped. */
  function Preempt(a: Calls, regs: Regs): (r: Calls)
    requires Live(a)
    ensures Live(r)
  {
    var saved := a.(stacks := a.stacks[a.cur := SaveTop(a.stacks[a.cur], regs)]);
    if a.stacks[1] == [] || a.stacks[2] == [] then
      var t := if a.stacks[1] == [] then 1 else 2;
      saved.(stacks := saved.stacks[t := [Frame(t, regs)]], cur := t, regs := regs)
    else
      var t := Owner(a, NextProc(ActiveOf(a), Running(a)));
      saved.(cur := t, regs := Top(saved.stacks[t]).regs)
  }

  /** A call: push the lowest process number not taken, if there is one and the program loads. */
  ghost function Call(a: Calls, regs: Regs, loads: bool): (r: Calls)
    requires Live(a)
    ensures Live(r)
  {
    var p := FirstFree(UsedOf(a), 0);
    if p == MAX_USER_PROG || !loads then a
    else a.(stacks := a.stacks[a.cur := SaveTop(a.stacks[a.cur], regs) + [Frame(p, regs)]], regs := regs)
  }

  /** A return: pop, and go on where the caller stopped; the bottom process starts afresh. */
  function Return(a: Calls, regs: Regs, status: byte): (r: Calls)
    requires Live(a)
    ensures Live(r)
  {
    var st := a.stacks[a.cur];
    if |st| == 1 then a.(stacks := a.stacks[a.cur := SaveTop(st, regs)], regs := regs)
    else a.(stacks := a.stacks[a.cur := st[..|st| - 1]], regs := st[|st| - 2].regs, eax := status)
  }

  /** A call that faults: the process number is lost, and the caller returns as if killed. */
  ghost function Lose(a: Calls, regs: Regs): (r: Calls)
    requires Live(a)
    ensures Live(r)
  {
    var p := FirstFree(UsedOf(a), 0);
    if p == MAX_USER_PROG then a else Return(a.(lost := a.lost + {p}), regs, KILLED)
  }
}
