/** File sessions of the processes in the table: each begins with its process, reads its own files,
    and ends with it. */
module Sessions {
  import opened Machine
  import opened Files
  import opened Commands
  import opened Processes
  import opened CallStacks
  import opened Lifecycle
  import opened Runs
  import S = Streams

  /** The process table, and per slot the descriptors of its process with what they delivered. */
  datatype World = World(k: State, cs: seq<S.Client>)

  /** A step of the process table, or a file system call of the running process. */
  datatype Event = Kernel(step: Step) | Call(call: S.Call)

  ghost predicate Shaped(v: Env, w: World) {
    && Shape(w.k) && 0 <= Current(w.k) < MAX_USER_PROG
    && |w.cs| == MAX_USER_PROG && forall p: Pid :: S.Shaped(v.fs, w.cs[p])
  }

  ghost predicate Can(v: Env, w: World, e: Event) {
    match e
    case Kernel(s) => Enabled(w.k, s)
    case Call(call) => !call.Restart?
  }

  /** halt's loop over the descriptors from i on. */
  function CloseFrom(fds: seq<File>, i: nat): (r: seq<File>)
    requires |fds| == 8 && i <= 8
    ensures |r| == 8
    decreases 8 - i
  {
    if i == 8 then fds else CloseFrom(CloseSpec(fds, i).0, i + 1)
  }

  lemma {:induction false} ClosedFrom(v: Env, fds: seq<File>, i: nat)
    requires FilesOk(v.fs, fds) && i <= 8 && forall j | 2 <= j < i :: fds[j] == CLOSED
    ensures CloseFrom(fds, i) == FRESH_TABLE
    decreases 8 - i
  {
    assert FileOk(v.fs, fds[if i < 8 then i else 0]);
    if i < 8 {
      ClosedFrom(v, CloseSpec(fds, i).0, i + 1);
    }
  }

  /** The step ends process p. */
  ghost predicate EndsOf(v: Env, k: State, s: Step, p: Pid) {
    Current(k) == p && (s.Exit? || Torn(v, k, s))
  }

  /** The step starts a process in slot p: it runs in a slot that was free, or it is a shell that
      takes the place of the one that ended. */
  ghost predicate StartsOf(v: Env, k: State, s: Step, k': State, p: Pid)
    requires Shape(k)
  {
    Current(k') == p && (!k.used[p] || EndsOf(v, k, s, p))
  }

  /** The descriptors of slot p: closed by the end of its process, made by the start of one. */
  ghost function SlotAfter(v: Env, k: State, s: Step, k': State, c: S.Client, p: Pid): (r: S.Client)
    requires Shape(k) && S.Shaped(v.fs, c)
    ensures S.Shaped(v.fs, r)
  {
    if StartsOf(v, k, s, k', p) then S.IDLE
    else if EndsOf(v, k, s, p) then ClosedFrom(v, c.fds, 0); c.(fds := CloseFrom(c.fds, 0))
    else c
  }

  ghost function After(v: Env, w: World, e: Event): (r: World)
    requires EnvOk(v) && Shaped(v, w) && Can(v, w, e) && (e.Kernel? ==> Defined(w.k, e.step))
    ensures |r.cs| == MAX_USER_PROG && forall p: Pid :: S.Shaped(v.fs, r.cs[p])
  {
    match e
    case Kernel(s) =>
      var k' := Next(v, w.k, s);
      World(k', seq(MAX_USER_PROG, p requires 0 <= p < MAX_USER_PROG => SlotAfter(v, w.k, s, k', w.cs[p], p)))
    case Call(call) => w.(cs := w.cs[Current(w.k) := S.Do(v.fs, w.cs[Current(w.k)], call)])
  }

  // ----- what every event keeps

  /** Nothing is open in a slot without a process, and what is open is in step with its file. */
  ghost predicate SlotOk(v: Env, w: World, p: Pid)
    requires EnvOk(v) && Shaped(v, w)
  {
    S.AllInStep(v.fs, w.cs[p]) && (!w.k.used[p] ==> w.cs[p].fds == FRESH_TABLE)
  }

  ghost predicate Inv(v: Env, w: World, a: Calls)
    requires EnvOk(v)
  {
    Shaped(v, w) && Refines(w.k, a) && forall p: Pid :: SlotOk(v, w, p)
  }

  lemma FreshInStep(v: Env, c: S.Client)
    requires EnvOk(v) && S.Shaped(v.fs, c) && c.fds == FRESH_TABLE
    ensures S.AllInStep(v.fs, c)
  {
    hide WellFormed, Contents;
  }

  /** A slot that becomes free is that of the process the step ends. */
  lemma FreedIsEnded(v: Env, k: State, a: Calls, s: Step, p: Pid)
    requires EnvOk(v) && Refines(k, a) && Enabled(k, s)
    ensures Defined(k, s) && (k.used[p] && !Next(v, k, s).used[p] ==> EndsOf(v, k, s, p))
  {
    hide Linked, Execute, Program, Store;
    Simulates(v, k, a, s);
    RefinesTables(k, a);
    if !s.Poke? && !EndsOf(v, k, s, p) {
      Caller(k, a, s);
      match s
      case Tick(_, _) => TickUses(v, k, a, s, p);
      case Exec(_, _, _, _) => ExecUses(v, k, a, s, p);
      case Exit(_, _, _) => ExitUses(v, k, a, s, p);
      case Vidmap(_, _) =>
    }
  }

  lemma TickUses(v: Env, k: State, a: Calls, s: Step, p: Pid)
    requires EnvOk(v) && Refines(k, a) && Enabled(k, s) && s.Tick?
    ensures Defined(k, s) && (k.used[p] ==> Next(v, k, s).used[p])
  {
    hide Linked, Execute, Program;
    Caller(k, a, s);
    if k.shells < 3 {
      RootsUsed(k, a);
      SchedBoots(v, k, Running(a), s, k.shells);
    }
  }

  lemma ExecUses(v: Env, k: State, a: Calls, s: Step, p: Pid)
    requires EnvOk(v) && Refines(k, a) && Enabled(k, s) && s.Exec? && (Torn(v, k, s) ==> p != Current(k))
    ensures Defined(k, s) && (k.used[p] ==> Next(v, k, s).used[p])
  {
    hide Linked, Execute, EnvOk, Program, Halt, Lookup, Reading;
    Caller(k, a, s);
    RefinesTables(k, a);
    if Torn(v, k, s) {
      TornIsKilled(v, k, a, s);
      ExitUses(v, AtFault(k, s), LostOne(a), Killing(s), p);
    } else if s.ptr != 0 && FirstFree(k.used, 0) < MAX_USER_PROG {
      ExecuteSpawns(v, k, s.regs, Asked(s).text, s.residue, Running(a));
    }
  }

  lemma ExitUses(v: Env, k: State, a: Calls, s: Step, p: Pid)
    requires EnvOk(v) && Refines(k, a) && Enabled(k, s) && s.Exit? && p != Current(k)
    ensures Defined(k, s) && (k.used[p] ==> Next(v, k, s).used[p])
  {
    hide Execute, Program, Leaving;
    Caller(k, a, s);
    RefinesTables(k, a);
    var me := Running(a);
    HaltFrees(v, k, s.regs, s.status, s.residue, me);
    if |a.stacks[a.cur]| == 1 {
      FreedRoot(k, Leaving(k, me, k.pcbs[me].parent.value), a);
    } else {
      assert StackOk(k, a.stacks[a.cur], a.cur, true);
    }
  }

  lemma SlotKept(v: Env, w: World, a: Calls, s: Step, p: Pid)
    requires EnvOk(v) && Inv(v, w, a) && Enabled(w.k, s)
    ensures Defined(w.k, s)
    ensures var k' := Next(v, w.k, s);
      var c := SlotAfter(v, w.k, s, k', w.cs[p], p);
      S.AllInStep(v.fs, c) && (!k'.used[p] ==> c.fds == FRESH_TABLE)
  {
    hide Next, S.AllInStep, Refines, EnvOk, Torn;
    FreedIsEnded(v, w.k, a, s, p);
    assert SlotOk(v, w, p);
    FreshInStep(v, S.IDLE);
    if EndsOf(v, w.k, s, p) {
      ClosedFrom(v, w.cs[p].fds, 0);
      FreshInStep(v, w.cs[p].(fds := FRESH_TABLE));
    }
  }

  lemma CallKept(v: Env, w: World, a: Calls, call: S.Call)
    requires EnvOk(v) && Inv(v, w, a) && !call.Restart?
    ensures Inv(v, After(v, w, Call(call)), a)
  {
    assert WellFormed(v.fs);
    hide Refines, EnvOk, S.Do, S.InStep;
    RunningUsed(w.k, a);
    var me: Pid := Current(w.k);
    assert SlotOk(v, w, me);
    var r := S.Do(v.fs, w.cs[me], call);
    forall i | 0 <= i < 8 ensures S.InStep(v.fs, r, i) {
      S.DoKeepsInStep(v.fs, w.cs[me], call, i);
    }
    var w' := After(v, w, Call(call));
    forall p: Pid ensures SlotOk(v, w', p) {
      assert SlotOk(v, w, p);
    }
  }

  lemma RunningUsed(k: State, a: Calls)
    requires Refines(k, a)
    ensures 0 <= Current(k) < MAX_USER_PROG && k.used[Current(k)]
  {
    RefinesTables(k, a);
    assert OnStack(a.stacks[a.cur], Running(a));
    OnStackUsed(k, a, a.cur, Running(a));
  }

  lemma EventKeeps(v: Env, w: World, a: Calls, e: Event) returns (a': Calls)
    requires EnvOk(v) && Inv(v, w, a) && Can(v, w, e)
    ensures (e.Kernel? ==> Defined(w.k, e.step)) && Inv(v, After(v, w, e), a')
  {
    hide Next, NextCalls, Linked, EnvOk, S.AllInStep, SlotAfter;
    if e.Call? {
      a' := a;
      CallKept(v, w, a, e.call);
    } else {
      Simulates(v, w.k, a, e.step);
      a' := NextCalls(v, a, e.step);
      RunningUsed(Next(v, w.k, e.step), a');
      forall p: Pid ensures SlotOk(v, After(v, w, e), p) {
        SlotKept(v, w, a, e.step, p);
      }
    }
  }

  // ----- every run

  ghost predicate Happens(v: Env, w: World, e: Event, w': World)
    requires EnvOk(v)
  {
    Can(v, w, e) && (Shaped(v, w) && (e.Kernel? ==> Defined(w.k, e.step)) ==> w' == After(v, w, e))
  }

  ghost predicate Run(v: Env, ws: seq<World>, es: seq<Event>)
    requires EnvOk(v)
  {
    |ws| == |es| + 1 && forall i | 0 <= i < |es| :: Happens(v, ws[i], es[i], ws[i + 1])
  }

  /** The first shell, with nothing open anywhere. */
  ghost predicate Begins(v: Env, w: World) {
    Booted(v, w.k) && |w.cs| == MAX_USER_PROG && forall p: Pid :: w.cs[p] == S.IDLE
  }

  lemma BeginsInOrder(v: Env, w: World)
    requires EnvOk(v) && Begins(v, w)
    ensures Inv(v, w, Start(w.k))
  {
    BootedRefines(v, w.k);
    RunningUsed(w.k, Start(w.k));
    hide EnvOk, Refines, S.AllInStep, Booted;
    IdleShaped(v);
    FreshInStep(v, S.IDLE);
  }

  lemma IdleShaped(v: Env)
    ensures S.Shaped(v.fs, S.IDLE)
  {
  }

  /** In every reachable state every session is in step with its file, and a slot without a process
      has nothing open. */
  lemma {:induction false} SessionsInOrder(v: Env, ws: seq<World>, es: seq<Event>, n: nat) returns (a: Calls)
    requires EnvOk(v) && Run(v, ws, es) && Begins(v, ws[0]) && n <= |es|
    ensures Inv(v, ws[n], a)
  {
    hide Inv, After, EnvOk, Can;
    if n == 0 {
      BeginsInOrder(v, ws[0]);
      a := Start(ws[0].k);
    } else {
      var b := SessionsInOrder(v, ws, es, n - 1);
      assert Happens(v, ws[n - 1], es[n - 1], ws[n]);
      a := EventKeeps(v, ws[n - 1], b, es[n - 1]);
      InvShaped(v, ws[n - 1], b);
    }
  }

  lemma InvShaped(v: Env, w: World, a: Calls)
    requires EnvOk(v) && Inv(v, w, a)
    ensures Shaped(v, w)
  {
  }

  /** The file calls of process p among events i to n. */
  ghost function OwnCalls(ws: seq<World>, es: seq<Event>, i: nat, n: nat, p: Pid): seq<S.Call>
    requires |ws| == |es| + 1 && i <= n <= |es|
  {
    if n == i then []
    else
      var pre := OwnCalls(ws, es, i, n - 1, p);
      pre + if es[n - 1].Call? && Current(ws[n - 1].k) == p then [es[n - 1].call] else []
  }

  /** No event from i to n ends the process in slot p, which is in use all the time. */
  ghost predicate Lives(v: Env, ws: seq<World>, es: seq<Event>, i: nat, n: nat, p: Pid)
    requires |ws| == |es| + 1 && i <= n <= |es|
  {
    forall j | i <= j < n :: Shape(ws[j].k) ==>
      ws[j].k.used[p] && (es[j].Kernel? ==> !EndsOf(v, ws[j].k, es[j].step, p))
  }

  /** A session lasts as long as its process and no longer: from the state after the event that
      starts a process in slot p, until one ends it, its descriptors are what its own calls alone
      make of a new table; and that event leaves a new table, and the one that ends it a closed one. */
  lemma {:induction false} SessionIsOwn(v: Env, ws: seq<World>, es: seq<Event>, i: nat, n: nat, p: Pid)
    requires EnvOk(v) && Run(v, ws, es) && Begins(v, ws[0]) && i < n <= |es| && Lives(v, ws, es, i + 1, n, p)
    requires es[i].Kernel? && Shape(ws[i].k) && StartsOf(v, ws[i].k, es[i].step, ws[i + 1].k, p)
    ensures |ws[n].cs| == MAX_USER_PROG && S.Shaped(v.fs, S.IDLE)
    ensures ws[n].cs[p] == S.DoAll(v.fs, S.IDLE, OwnCalls(ws, es, i + 1, n, p))
    decreases n
  {
    hide Inv, EnvOk, Next, Begins, S.Do, EndsOf, Can, Run;
    RunShape(v, ws, es);
    IdleShaped(v);
    var a := SessionsInOrder(v, ws, es, n - 1);
    InvShaped(v, ws[n - 1], a);
    var b := Stepped(v, ws, es, a, n - 1);
    if n - 1 > i {
      SessionIsOwn(v, ws, es, i, n - 1, p);
      SessionStep(v, ws, es, n - 1, p);
      var pre, e := OwnCalls(ws, es, i + 1, n - 1, p), es[n - 1];
      if e.Call? && Current(ws[n - 1].k) == p {
        assert (pre + [e.call])[..|pre|] == pre;
      } else {
        assert OwnCalls(ws, es, i + 1, n, p) == pre;
      }
    }
  }

  lemma RunShape(v: Env, ws: seq<World>, es: seq<Event>)
    requires EnvOk(v) && Run(v, ws, es)
    ensures |ws| == |es| + 1
  {
  }

  lemma Stepped(v: Env, ws: seq<World>, es: seq<Event>, a: Calls, n: nat) returns (a': Calls)
    requires EnvOk(v) && Run(v, ws, es) && n < |es| && Inv(v, ws[n], a)
    ensures Shaped(v, ws[n]) && Can(v, ws[n], es[n]) && (es[n].Kernel? ==> Defined(ws[n].k, es[n].step))
    ensures ws[n + 1] == After(v, ws[n], es[n]) && Inv(v, ws[n + 1], a')
  {
    hide Inv, After, EnvOk, Can, Defined;
    assert Happens(v, ws[n], es[n], ws[n + 1]);
    InvShaped(v, ws[n], a);
    a' := EventKeeps(v, ws[n], a, es[n]);
  }

  /** A process that is there before and after an event has its own call done, and no other. */
  lemma SessionStep(v: Env, ws: seq<World>, es: seq<Event>, j: nat, p: Pid)
    requires EnvOk(v) && |ws| == |es| + 1 && j < |es| && Shaped(v, ws[j]) && Can(v, ws[j], es[j])
    requires (es[j].Kernel? ==> Defined(ws[j].k, es[j].step)) && ws[j + 1] == After(v, ws[j], es[j])
    requires ws[j].k.used[p] && (es[j].Kernel? ==> !EndsOf(v, ws[j].k, es[j].step, p))
    ensures ws[j + 1].cs[p] ==
      if es[j].Call? && Current(ws[j].k) == p then S.Do(v.fs, ws[j].cs[p], es[j].call) else ws[j].cs[p]
  {
    hide Next, EndsOf, EnvOk, S.Do, Defined, Can;
  }

  /** The event that ends process p leaves nothing open in its slot. */
  lemma SessionEnds(v: Env, ws: seq<World>, es: seq<Event>, n: nat, p: Pid)
    requires EnvOk(v) && Run(v, ws, es) && Begins(v, ws[0]) && n < |es|
    requires es[n].Kernel? && EndsOf(v, ws[n].k, es[n].step, p)
    ensures |ws[n + 1].cs| == MAX_USER_PROG && ws[n + 1].cs[p].fds == FRESH_TABLE
  {
    hide Inv, EnvOk, Next, Begins, EndsOf, Can, Run, CloseFrom, Defined;
    RunShape(v, ws, es);
    var a := SessionsInOrder(v, ws, es, n);
    var b := Stepped(v, ws, es, a, n);
    ClosedFrom(v, ws[n].cs[p].fds, 0);
  }
}
