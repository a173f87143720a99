/** RTC_read: a process clears its terminal's flag and waits until an interrupt sets it again,
    while the scheduler moves the processor around (RTC.c). */
module Rtc {
  import opened Machine
  import opened Processes
  import opened CallStacks
  import opened Lifecycle
  import opened Runs

  /** A process in RTC_read remembers how many interrupts there had been when it cleared its flag. */
  datatype Reader = Idle | Waiting(since: nat)

  datatype World = World(k: State, flags: seq<bool>, readers: seq<Reader>, interrupts: nat)

  datatype Event = Kernel(step: Step) | Begin | Poll | Interrupt

  /** What an event does to the flags, where `t` is the running process's terminal. */
  function FlagsAfter(flags: seq<bool>, e: Event, t: nat): (r: seq<bool>)
    requires |flags| == TERMINALS && t < TERMINALS
    ensures |r| == TERMINALS
  {
    match e
    case Begin => flags[t := false]
    case Interrupt => [true, true, true]
    case _ => flags
  }

  /** rtc_interrupt_occured, one flag per terminal, as the handler and the readers change it. */
  class Flags {
    var occured: array<bool>

    ghost function View(): seq<bool>
      reads this, occured
    {
      occured[..]
    }

    constructor ()
      ensures occured.Length == TERMINALS && fresh(occured) && View() == [false, false, false]
    {
      occured := new bool[TERMINALS](_ => false);
    }

    /** rtc_irq_handler: one interrupt raises every terminal's flag. */
    method Interrupt()
      requires occured.Length == TERMINALS
      modifies occured
      ensures View() == FlagsAfter(old(View()), Event.Interrupt, 0)
    {
      for i := 0 to TERMINALS
        invariant forall t | 0 <= t < i :: occured[t]
      {
        occured[i] := true;
      }
    }

    /** The start of RTC_read on terminal t. */
    method Clear(t: nat)
      requires occured.Length == TERMINALS && t < TERMINALS
      modifies occured
      ensures View() == FlagsAfter(old(View()), Begin, t)
    {
      occured[t] := false;
    }

    /** One look of RTC_read's waiting loop. */
    method Poll(t: nat) returns (released: bool)
      requires occured.Length == TERMINALS && t < TERMINALS
      ensures released == View()[t]
    {
      released := occured[t];
    }
  }

  ghost predicate Shaped(w: World) {
    Shape(w.k) && |w.flags| == TERMINALS && |w.readers| == MAX_USER_PROG
  }

  /** Begin and Poll are the running process's; one that waits in RTC_read does nothing else, but
      can be preempted. */
  ghost predicate Can(w: World, e: Event) {
    && Shaped(w) && 0 <= Current(w.k) < MAX_USER_PROG
    && var me := w.readers[Current(w.k)];
    match e
    case Kernel(s) => Lifecycle.Enabled(w.k, s) && (me.Waiting? ==> s.Tick?)
    case Begin => me.Idle? && w.k.pcbs[Current(w.k)].terminal < TERMINALS
    case Poll => me.Waiting? && w.k.pcbs[Current(w.k)].terminal < TERMINALS
    case Interrupt => true
  }

  ghost function After(v: Env, w: World, e: Event): (r: World)
    requires EnvOk(v) && Can(w, e) && (e.Kernel? ==> Defined(w.k, e.step))
    ensures Shaped(r)
  {
    var me := Current(w.k);
    match e
    case Kernel(s) => w.(k := Next(v, w.k, s))
    case Begin =>
      w.(flags := FlagsAfter(w.flags, e, w.k.pcbs[me].terminal), readers := w.readers[me := Waiting(w.interrupts)])
    case Poll => if w.flags[w.k.pcbs[me].terminal] then w.(readers := w.readers[me := Idle]) else w
    case Interrupt => w.(flags := FlagsAfter(w.flags, e, 0), interrupts := w.interrupts + 1)
  }

  /** A waiting process is active, and its terminal's flag says whether there has been an
      interrupt since that process cleared it. */
  ghost predicate ReaderOk(w: World, p: Pid)
    requires Shaped(w)
  {
    w.readers[p].Waiting? ==>
      && w.k.active[p] && w.k.pcbs[p].terminal < TERMINALS
      && w.readers[p].since <= w.interrupts
      && (w.flags[w.k.pcbs[p].terminal] <==> w.interrupts > w.readers[p].since)
  }

  ghost predicate Inv(w: World, a: Calls) {
    Shaped(w) && Refines(w.k, a) && forall p: Pid :: ReaderOk(w, p)
  }

  /** Two active processes are on different terminals. */
  lemma OneActivePerTerminal(k: State, a: Calls, p: Pid, q: Pid)
    requires Refines(k, a) && k.active[p] && k.active[q] && p != q
    ensures k.pcbs[p].terminal != k.pcbs[q].terminal
    ensures k.pcbs[p].terminal < TERMINALS
  {
    RefinesTables(k, a);
    var t, u := Owner(a, p), Owner(a, q);
    assert OnStack(a.stacks[t], p) && OnStack(a.stacks[u], q);
    OnStackUsed(k, a, t, p);
    OnStackUsed(k, a, u, q);
  }

  /** A process that only waits stays active on its terminal through every kernel step. */
  lemma StaysActive(v: Env, k: State, a: Calls, s: Step, p: Pid)
    requires EnvOk(v) && Refines(k, a) && Lifecycle.Enabled(k, s) && k.active[p]
    requires Current(k) == p ==> s.Tick?
    ensures Defined(k, s) && Next(v, k, s).active[p] && Next(v, k, s).pcbs[p].terminal == k.pcbs[p].terminal
  {
    hide Next;
    Simulates(v, k, a, s);
    RefinesTables(k, a);
    var a', t := NextCalls(v, a, s), Owner(a, p);
    assert OnStack(a.stacks[t], p);
    OnStackUsed(k, a, t, p);
    if t == a.cur {
      PreemptedTop(Next(v, k, s), a, s.regs);
    } else {
      WaitingTop(v, a, s, t);
    }
    assert IsTop(a', t, p) && OnStack(a'.stacks[t], p);
    OnStackUsed(Next(v, k, s), a', t, p);
  }

  /** Every event keeps every reader's flag true to its own history: in particular no other
      process ever clears it. */
  lemma EventKeepsReaders(v: Env, w: World, a: Calls, e: Event) returns (a': Calls)
    requires EnvOk(v) && Inv(w, a) && Can(w, e)
    ensures (e.Kernel? ==> Defined(w.k, e.step)) && Inv(After(v, w, e), a')
  {
    hide Next, Linked, NextCalls, EnvOk, ReaderOk;
    a' := a;
    if e.Kernel? {
      Simulates(v, w.k, a, e.step);
      a' := NextCalls(v, a, e.step);
      forall p: Pid ensures ReaderOk(After(v, w, e), p) {
        KernelKeepsReader(v, w, a, e.step, p);
      }
    } else {
      forall p: Pid ensures ReaderOk(After(v, w, e), p) {
        EventKeepsReader(v, w, a, e, p);
      }
    }
  }

  lemma KernelKeepsReader(v: Env, w: World, a: Calls, s: Step, p: Pid)
    requires EnvOk(v) && Inv(w, a) && Can(w, Kernel(s))
    ensures Defined(w.k, s) && ReaderOk(After(v, w, Kernel(s)), p)
  {
    hide Next, Linked, NextCalls, EnvOk;
    Simulates(v, w.k, a, s);
    assert ReaderOk(w, p);
    if w.readers[p].Waiting? {
      StaysActive(v, w.k, a, s, p);
    }
  }

  lemma EventKeepsReader(v: Env, w: World, a: Calls, e: Event, p: Pid)
    requires EnvOk(v) && Inv(w, a) && Can(w, e) && !e.Kernel?
    ensures ReaderOk(After(v, w, e), p)
  {
    hide Linked, EnvOk;
    RefinesTables(w.k, a);
    var me: Pid := Current(w.k);
    assert ReaderOk(w, p) && ReaderOk(w, me);
    if p != me && w.readers[p].Waiting? && !e.Interrupt? {
      assert w.k.active[me] by { RunningActive(w.k, a); }
      OneActivePerTerminal(w.k, a, p, me);
    }
  }

  lemma RunningActive(k: State, a: Calls)
    requires Refines(k, a)
    ensures 0 <= Current(k) < MAX_USER_PROG && k.active[Current(k)]
  {
    RefinesTables(k, a);
    assert IsTop(a, a.cur, Running(a));
  }

  ghost predicate Happens(v: Env, w: World, e: Event, w': World)
    requires EnvOk(v)
  {
    Can(w, e) && ((e.Kernel? ==> Defined(w.k, e.step)) ==> w' == After(v, w, e))
  }

  ghost predicate Run(v: Env, ws: seq<World>, es: seq<Event>)
    requires EnvOk(v)
  {
    |ws| == |es| + 1 && forall i | 0 <= i < |es| :: Happens(v, ws[i], es[i], ws[i + 1])
  }

  lemma RunTail(v: Env, ws: seq<World>, es: seq<Event>)
    requires EnvOk(v) && Run(v, ws, es) && es != []
    ensures Run(v, ws[1..], es[1..])
  {
    forall i | 0 <= i < |es[1..]| ensures Happens(v, ws[1..][i], es[1..][i], ws[1..][i + 1]) {
      assert Happens(v, ws[i + 1], es[i + 1], ws[i + 2]);
    }
  }

  lemma {:induction false} InvThroughout(v: Env, ws: seq<World>, es: seq<Event>, a: Calls) returns (a': Calls)
    requires EnvOk(v) && Run(v, ws, es) && Inv(ws[0], a)
    ensures Inv(ws[|es|], a')
    decreases |es|
  {
    if es == [] {
      a' := a;
    } else {
      assert Happens(v, ws[0], es[0], ws[1]);
      var b := EventKeepsReaders(v, ws[0], a, es[0]);
      RunTail(v, ws, es);
      a' := InvThroughout(v, ws[1..], es[1..], b);
    }
  }

  /** On every run a read that returns has seen an interrupt since its own clear, and a read that
      does not return has not. */
  lemma ReadReturnsAfterInterrupt(v: Env, ws: seq<World>, es: seq<Event>, a: Calls)
    requires EnvOk(v) && Run(v, ws, es) && Inv(ws[0], a) && Can(ws[|es|], Poll)
    ensures var w := ws[|es|];
      var me := w.readers[Current(w.k)];
      After(v, w, Poll).readers[Current(w.k)].Idle? <==> w.interrupts > me.since
  {
    var b := InvThroughout(v, ws, es, a);
    RefinesTables(ws[|es|].k, b);
    assert ReaderOk(ws[|es|], Current(ws[|es|].k));
  }

  /** The reader's flag is up. */
  ghost predicate Released(w: World, p: Pid) {
    Shaped(w) && w.k.active[p] && w.k.pcbs[p].terminal < TERMINALS && w.flags[w.k.pcbs[p].terminal]
  }

  /** One interrupt releases every reader that waits, on whatever terminal: from then on, as long
      as it has not polled, its next poll returns. */
  lemma InterruptReleasesAll(v: Env, ws: seq<World>, es: seq<Event>, a: Calls, p: Pid)
    requires EnvOk(v) && Run(v, ws, es) && Inv(ws[0], a) && |es| > 0 && es[0].Interrupt?
    requires ws[0].readers[p].Waiting?
    requires forall i | 0 <= i < |ws| :: Shaped(ws[i]) ==> ws[i].readers[p] == ws[0].readers[p]
    ensures Released(ws[|es|], p)
  {
    var b := InvThroughout(v, ws, es, a);
    assert Happens(v, ws[0], es[0], ws[1]);
    assert ReaderOk(ws[0], p) && ReaderOk(ws[|es|], p);
    InterruptsGrow(v, ws, es, a);
  }

  lemma {:induction false} InterruptsGrow(v: Env, ws: seq<World>, es: seq<Event>, a: Calls)
    requires EnvOk(v) && Run(v, ws, es) && Inv(ws[0], a) && |es| > 0
    ensures ws[|es|].interrupts >= ws[1].interrupts >= ws[0].interrupts
    decreases |es|
  {
    assert Happens(v, ws[0], es[0], ws[1]);
    var b := EventKeepsReaders(v, ws[0], a, es[0]);
    if |es| > 1 {
      RunTail(v, ws, es);
      InterruptsGrow(v, ws[1..], es[1..], b);
    }
  }

  // ----- a released reader runs

  function TickEvents(es: seq<Event>): nat {
    if es == [] then 0 else (if es[0].Kernel? && es[0].step.Tick? then 1 else 0) + TickEvents(es[1..])
  }

  /** The kernel's own run inside a run of readers and interrupts. */
  lemma {:induction false} KernelRun(v: Env, ws: seq<World>, es: seq<Event>, a: Calls, p: Pid)
      returns (ks: seq<State>, ss: seq<Step>)
    requires EnvOk(v) && Run(v, ws, es) && Inv(ws[0], a) && forall i | 0 <= i < |ws| :: Current(ws[i].k) != p
    ensures Path(v, ks, ss) && ks[0] == ws[0].k && Ticks(ss) == TickEvents(es)
    ensures forall i | 0 <= i < |ks| :: Current(ks[i]) != p
    decreases |es|
  {
    hide Next, Inv, EnvOk, Ticks;
    if es == [] {
      ks, ss := [ws[0].k], [];
      NoTicks();
    } else {
      assert Happens(v, ws[0], es[0], ws[1]);
      var b := EventKeepsReaders(v, ws[0], a, es[0]);
      RunTail(v, ws, es);
      ks, ss := KernelRun(v, ws[1..], es[1..], b, p);
      if es[0].Kernel? {
        ks, ss := KernelMore(v, ks, ss, ws[0].k, es[0].step, p);
      }
    }
  }

  lemma NoTicks()
    ensures Ticks([]) == 0
  {
  }

  lemma KernelMore(v: Env, ks: seq<State>, ss: seq<Step>, k: State, s: Step, p: Pid)
      returns (ks': seq<State>, ss': seq<Step>)
    requires EnvOk(v) && Path(v, ks, ss) && Lifecycle.Enabled(k, s) && Defined(k, s) && ks[0] == Next(v, k, s)
    requires Current(k) != p && forall i | 0 <= i < |ks| :: Current(ks[i]) != p
    ensures Path(v, ks', ss') && ks'[0] == k && Ticks(ss') == Ticks(ss) + if s.Tick? then 1 else 0
    ensures forall i | 0 <= i < |ks'| :: Current(ks'[i]) != p
  {
    hide Next, EnvOk;
    ks', ss' := [k] + ks, [s] + ss;
    forall i | 0 <= i < |ss'| ensures Steps(v, ks'[i], ss'[i], ks'[i + 1]) {
      if i > 0 {
        assert Steps(v, ks[i - 1], ss[i - 1], ks[i]);
      }
    }
    assert ss'[1..] == ss;
  }

  /** After an interrupt a waiting reader holds the processor with its flag up by the fifth tick,
      whatever the other processes do: its next poll is then, and returns. */
  lemma ReleasedReaderRuns(v: Env, ws: seq<World>, es: seq<Event>, a: Calls, p: Pid)
    requires EnvOk(v) && Run(v, ws, es) && Inv(ws[0], a) && ws[0].k.shells == 3 && |es| > 0 && es[0].Interrupt?
    requires ws[0].readers[p].Waiting? && TickEvents(es) >= MAX_USER_PROG - 1
    requires forall i | 0 <= i < |ws| :: Shaped(ws[i]) ==> ws[i].readers[p] == ws[0].readers[p]
    ensures exists i | 1 <= i < |ws| :: Current(ws[i].k) == p && Released(ws[i], p)
  {
    hide Refines, Released, TickEvents;
    assert Happens(v, ws[0], es[0], ws[1]) && ReaderOk(ws[0], p);
    if forall i | 1 <= i < |ws| :: Current(ws[i].k) != p {
      assert ws[1].k == ws[0].k;
      var ks, ss := KernelRun(v, ws, es, a, p);
      BoundedWaiting(v, ks, ss, a, p);
    }
    var i :| 1 <= i < |ws| && Current(ws[i].k) == p;
    RunFront(v, ws, es, i);
    InterruptReleasesAll(v, ws[..i + 1], es[..i], a, p);
  }

  lemma RunFront(v: Env, ws: seq<World>, es: seq<Event>, n: nat)
    requires EnvOk(v) && Run(v, ws, es) && n <= |es|
    ensures Run(v, ws[..n + 1], es[..n])
  {
    forall i | 0 <= i < n ensures Happens(v, ws[..n + 1][i], es[..n][i], ws[..n + 1][i + 1]) {
      assert Happens(v, ws[i], es[i], ws[i + 1]);
    }
  }
}
