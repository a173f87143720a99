/** What getargs gives a program at any later time: the arguments it was started with. */
module Arguments {
  import opened Machine
  import opened Files
  import opened Commands
  import opened Processes
  import opened CallStacks
  import opened Lifecycle
  import opened Runs
  import opened UserMemory

  /** The command words in slot p are those of the other state. */
  ghost predicate SameWords(k: State, k': State, p: Pid)
    requires Shape(k) && Shape(k')
  {
    k'.pcbs[p].name == k.pcbs[p].name && k'.pcbs[p].args == k.pcbs[p].args
  }

  lemma ExitWords(e: Env, k: State, a: Calls, s: Step, p: Pid)
    requires EnvOk(e) && Refines(k, a) && Enabled(k, s) && s.Exit? && p > 2
    ensures Defined(k, s) && SameWords(k, Next(e, k, s), p)
  {
    hide Execute, Program, Leaving;
    Caller(k, a, s);
    var me := Running(a);
    var freed := Leaving(k, me, k.pcbs[me].parent.value);
    HaltFrees(e, k, s.regs, s.status, s.residue, me);
    if |a.stacks[a.cur]| == 1 {
      FreedRoot(k, freed, a);
    } else {
      assert StackOk(k, a.stacks[a.cur], a.cur, true);
    }
  }

  lemma ExecWords(e: Env, k: State, a: Calls, s: Step, p: Pid)
    requires EnvOk(e) && Refines(k, a) && Enabled(k, s) && s.Exec? && k.used[p] && p > 2
    ensures Defined(k, s) && SameWords(k, Next(e, k, s), p)
  {
    hide Linked, Execute, EnvOk, Program, Halt, Lookup, Reading;
    Caller(k, a, s);
    if Torn(e, k, s) {
      TornIsKilled(e, k, a, s);
      ExitWords(e, AtFault(k, s), LostOne(a), Killing(s), p);
    } else if s.ptr != 0 && FirstFree(k.used, 0) < MAX_USER_PROG {
      ExecuteSpawns(e, k, s.regs, Asked(s).text, s.residue, Running(a));
    }
  }

  /** No step changes the words of a program that stays. */
  lemma StepWords(e: Env, k: State, a: Calls, s: Step, p: Pid)
    requires EnvOk(e) && Refines(k, a) && Enabled(k, s) && k.used[p] && p > 2
    ensures Defined(k, s) && SameWords(k, Next(e, k, s), p)
  {
    hide Linked, EnvOk, Execute, Store, Next, NextCalls, SameWords;
    Simulates(e, k, a, s);
    match s
    case Tick(_, _) => TickWords(e, k, a, s, p);
    case Exec(_, _, _, _) => ExecWords(e, k, a, s, p);
    case Exit(_, _, _) => ExitWords(e, k, a, s, p);
    case _ => OtherWords(e, k, s, p);
  }

  lemma OtherWords(e: Env, k: State, s: Step, p: Pid)
    requires EnvOk(e) && Defined(k, s) && (s.Vidmap? || s.Poke?)
    ensures SameWords(k, Next(e, k, s), p)
  {
    hide Store, EnvOk;
  }

  lemma TickWords(e: Env, k: State, a: Calls, s: Step, p: Pid)
    requires EnvOk(e) && Refines(k, a) && Enabled(k, s) && s.Tick? && p > 2
    ensures Defined(k, s) && SameWords(k, Next(e, k, s), p)
  {
    hide Linked, Execute, Program;
    Caller(k, a, s);
    if k.shells < 3 {
      RootsUsed(k, a);
      SchedBoots(e, k, Running(a), s, k.shells);
    }
  }

  /** Slot p is in use in every state from the i-th on. */
  ghost predicate Stays(ks: seq<State>, i: nat, p: Pid) {
    forall j | i <= j < |ks| :: Shape(ks[j]) ==> ks[j].used[p]
  }

  lemma {:induction false} WordsStay(e: Env, ks: seq<State>, ss: seq<Step>, a: Calls, p: Pid)
    requires EnvOk(e) && Path(e, ks, ss) && Refines(ks[0], a) && p > 2 && Stays(ks, 0, p)
    ensures Shape(ks[|ss|]) && SameWords(ks[0], ks[|ss|], p)
    decreases |ss|
  {
    hide Next, NextCalls, Linked, EnvOk;
    if ss != [] {
      assert Steps(e, ks[0], ss[0], ks[1]);
      StepWords(e, ks[0], a, ss[0], p);
      Simulates(e, ks[0], a, ss[0]);
      PathTail(e, ks, ss);
      WordsStay(e, ks[1..], ss[1..], NextCalls(e, a, ss[0]), p);
    }
  }

  lemma StartsWithWords(e: Env, k: State, a: Calls, s: Step, p: Pid)
    requires EnvOk(e) && Refines(k, a) && Enabled(k, s) && Starts(e, s) && FirstFree(k.used, 0) == p
    ensures Defined(k, s) && p > 2
    ensures Next(e, k, s).pcbs[p].name == Name(Asked(s).text) && Next(e, k, s).pcbs[p].args == Args(Asked(s).text)
  {
    hide Program, Reading, Lookup, Linked, Execute;
    Caller(k, a, s);
    RootsUsed(k, a);
    ExecuteSpawns(e, k, s.regs, Asked(s).text, s.residue, Running(a));
  }

  /** On every run: from a successful execute on, until the program exits, whatever else happens, its
      getargs with enough room gives the arguments of the command, and one with too little nothing. */
  lemma ArgumentsLast(e: Env, ks: seq<State>, ss: seq<Step>, a: Calls, p: Pid, nbytes: nat)
    requires EnvOk(e) && Path(e, ks, ss) && Refines(ks[0], a) && ss != []
    requires Starts(e, ss[0]) && FirstFree(ks[0].used, 0) == p && Stays(ks, 1, p)
    ensures Shape(ks[|ss|]) && ks[|ss|].pcbs[p].args == Args(Asked(ss[0]).text)
    ensures var args := Args(Asked(ss[0]).text);
      CopiedArgs(ks[|ss|].pcbs[p].args, nbytes) ==
        if nbytes > |args| then args + [NUL] else if nbytes == |args| then args else []
  {
    hide Next, NextCalls, Linked, Starts, Program, EnvOk, Args, Reading;
    assert Steps(e, ks[0], ss[0], ks[1]);
    StartsWithWords(e, ks[0], a, ss[0], p);
    Simulates(e, ks[0], a, ss[0]);
    PathTail(e, ks, ss);
    WordsStay(e, ks[1..], ss[1..], NextCalls(e, a, ss[0]), p);
  }
}
