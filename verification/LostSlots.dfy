/** What a bad pointer given to execute costs: a slot, for good. */
module LostSlots {
  import opened Machine
  import opened Paging
  import opened Files
  import opened Commands
  import opened Processes
  import opened CallStacks
  import opened Lifecycle
  import opened Directories
  import opened Runs
  import opened UserMemory
  import opened Traces

  /** An address behind no directory entry. */
  const UNMAPPED := 0x1000_0000

  const NOTHING: Memory := seq(LINE_BUF_SIZE, _ => None)

  ghost predicate OnlyShells(a: Calls) {
    Live(a) && forall t | 0 <= t < TERMINALS :: |a.stacks[t]| == 1
  }

  /** Three shells and no program, with so many slots lost. */
  ghost predicate Idle(e: Env, k: State, a: Calls, lost: set<Pid>) {
    Refines(k, a) && DirsOk(e, k) && k.shells == 3 && OnlyShells(a) && a.lost == lost
  }

  lemma NothingThere(e: Env, k: State, p: Pid, addr: nat)
    requires Shape(k) && DirsOk(e, k) && UNMAPPED <= addr < UNMAPPED + LINE_BUF_SIZE
    ensures Walk(k.dirs[p], addr, false, false).Fault?
  {
    hide UserEntry, VidmapEntry, Or;
    var dir := k.dirs[p];
    assert DirOk(e, p, dir);
    assert addr / MB4 == 64;
    assert EntryOk(e, p, 64, dir[64]);
  }

  lemma FetchesNothing(e: Env, k: State)
    requires Shape(k) && DirsOk(e, k)
    ensures FetchesAll(k, UNMAPPED, NOTHING)
  {
    hide Walk, DirsOk;
    forall i | 0 <= i < LINE_BUF_SIZE ensures Fetches(k, (UNMAPPED + i) % (ENTRIES * MB4), NOTHING[i]) {
      assert (UNMAPPED + i) % (ENTRIES * MB4) == UNMAPPED + i;
      NothingThere(e, k, k.cr3, UNMAPPED + i);
    }
  }

  lemma NothingBreaks(e: Env)
    ensures Short(NOTHING) && Faults(e.fs, Reading(NOTHING))
  {
  }

  /** The slots of a machine with shells only. */
  lemma ShellSlots(k: State, a: Calls, p: Pid)
    requires Refines(k, a) && OnlyShells(a)
    ensures k.used[p] <==> p < 3 || p in a.lost
  {
    UsedExact(k, a);
    forall t | 0 <= t < TERMINALS ensures OnStack(a.stacks[t], p) <==> p == t {
      assert StackOk(k, a.stacks[t], t, t == a.cur) && FrameOk(k, a.stacks[t], t, 0, t == a.cur);
      assert a.stacks[t][0].pid == t;
    }
    assert p < 3 ==> OnStack(a.stacks[p], p);
  }

  /** The running shell calls execute at an address that is not mapped. */
  lemma LoseOne(e: Env, k: State, a: Calls, lost: set<Pid>, p: Pid) returns (s: Step, a': Calls)
    requires EnvOk(e) && Idle(e, k, a, lost) && p > 2 && p !in lost && forall q: Pid | 3 <= q < p :: q in lost
    ensures Enabled(k, s) && Defined(k, s) && Torn(e, k, s)
    ensures Idle(e, Next(e, k, s), a', lost + {p})
  {
    hide Linked, DirsOk, Next, NextCalls, FetchesAll, Reading, Faults, OnlyShells;
    RefinesTables(k, a);
    CurPcbIsOwner(Esp0(Current(k)), Current(k));
    FetchesNothing(e, k);
    NothingBreaks(e);
    s := Exec(Regs(Esp0(Current(k)), 0), NoResidue(), UNMAPPED, NOTHING);
    forall q: Pid ensures k.used[q] <==> q < 3 || q in lost {
      ShellSlots(k, a, q);
    }
    assert FirstFree(k.used, 0) == p;
    Simulates(e, k, a, s);
    StepKeepsDirs(e, k, a, s);
    ShellsCount(e, k, a, s);
    StepLoses(e, k, a, s);
    a' := NextCalls(e, a, s);
    ShellComesBack(e, k, a, s);
  }

  lemma ShellComesBack(e: Env, k: State, a: Calls, s: Step)
    requires EnvOk(e) && Refines(k, a) && OnlyShells(a) && Enabled(k, s) && Torn(e, k, s)
    ensures OnlyShells(NextCalls(e, a, s))
  {
    hide Linked, Faults, Reading;
  }

  ghost predicate From(e: Env, k: State, ks: seq<State>, ss: seq<Step>, a: Calls, lost: set<Pid>)
    requires EnvOk(e)
  {
    Path(e, ks, ss) && ks[0] == k && Idle(e, ks[|ss|], a, lost)
  }

  lemma LoseAfter(e: Env, k: State, ks: seq<State>, ss: seq<Step>, a: Calls, lost: set<Pid>, p: Pid)
      returns (ks': seq<State>, ss': seq<Step>, a': Calls)
    requires EnvOk(e) && From(e, k, ks, ss, a, lost)
    requires p > 2 && p !in lost && forall q: Pid | 3 <= q < p :: q in lost
    ensures From(e, k, ks', ss', a', lost + {p}) && |ss'| == |ss| + 1
  {
    hide Next, Idle, Torn, EnvOk;
    var end := ks[|ss|];
    var s;
    s, a' := LoseOne(e, end, a, lost, p);
    PathSnoc(e, ks, ss, s, Next(e, end, s));
    ks', ss' := ks + [Next(e, end, s)], ss + [s];
  }

  /** From every boot there is a run of two ticks and three executes after which all six slots are
      used, by the three shells alone. */
  lemma LostRun(e: Env, k: State)
    requires EnvOk(e) && Booted(e, k)
    ensures exists ks, ss, a :: From(e, k, ks, ss, a, {3, 4, 5}) && |ss| == 5
  {
    hide Booted, EnvOk, Next, Idle, Torn;
    var ks, ss, a := ShellsUp(e, k);
    ks, ss, a := LoseAfter(e, k, ks, ss, a, {}, 3);
    ks, ss, a := LoseAfter(e, k, ks, ss, a, {} + {3}, 4);
    ks, ss, a := LoseAfter(e, k, ks, ss, a, {} + {3} + {4}, 5);
    assert {} + {3} + {4} + {5} == {3, 4, 5};
  }

  lemma ShellsUp(e: Env, k: State) returns (ks: seq<State>, ss: seq<Step>, a: Calls)
    requires EnvOk(e) && Booted(e, k)
    ensures From(e, k, ks, ss, a, {}) && |ss| == 2
  {
    hide EnvOk, Next, DirsOk, Linked;
    var tr := BootTrail(e, k);
    BootedRefines(e, k);
    RunKeepsDirs(e, tr.ks, tr.ss, Start(k));
    ks, ss, a := tr.ks, tr.ss, tr.a;
  }

  /** And from then on, whatever happens, no execute starts anything. */
  lemma NoMorePrograms(e: Env, ks: seq<State>, ss: seq<Step>, a: Calls, i: nat)
    requires EnvOk(e) && Path(e, ks, ss) && Refines(ks[0], a) && a.lost == {3, 4, 5} && i < |ss| && ss[i].Exec?
    ensures ks[i + 1] == ks[i]
  {
    hide Linked, Next, NextCalls, EnvOk;
    assert Steps(e, ks[i], ss[i], ks[i + 1]);
    PathUpTo(e, ks, ss, i);
    RunRefines(e, ks[..i + 1], ss[..i], a);
    LostExact(e, ks[..i + 1], ss[..i], a);
    var b := Follow(e, a, ss[..i]);
    UsedExact(ks[i], b);
    forall p: Pid ensures p in b.lost <==> p in {3, 4, 5} {
    }
    LostForGood(e, ks[i], b, ss[i]);
  }

  lemma PathUpTo(e: Env, ks: seq<State>, ss: seq<Step>, n: nat)
    requires EnvOk(e) && Path(e, ks, ss) && n <= |ss|
    ensures Path(e, ks[..n + 1], ss[..n])
  {
    forall i | 0 <= i < n ensures Steps(e, ks[..n + 1][i], ss[..n][i], ks[..n + 1][i + 1]) {
      assert Steps(e, ks[i], ss[i], ks[i + 1]);
    }
  }

  // ----- when it happens

  /** Without a window, what execute finds behind a pointer into its caller's page: the page's bytes,
      and nothing behind its end. */
  lemma PageMemory(e: Env, k: State, a: Calls, s: Step, at: nat, i: nat)
    requires EnvOk(e) && Refines(k, a) && DirsOk(e, k) && Enabled(k, s) && s.Exec?
    requires at < MB4 && s.ptr == USER_MEM_LOCATION + at && k.dirs[k.cr3][VIDEO_PDE] == 0 && i < LINE_BUF_SIZE
    ensures s.m[i] == if at + i < MB4 then Some(FrameOf(k, Running(a))[at + i]) else None
  {
    hide Linked, DirsOk, EnvOk, UserEntry, Walk, Short;
    RunningMapped(k, a);
    var addr := s.ptr + i;
    assert Fetches(k, addr % (ENTRIES * MB4), s.m[i]) && addr % (ENTRIES * MB4) == addr;
    KernelReaches(e, k, k.cr3, addr, false);
    ProgramReaches(e, k, k.cr3, addr, false);
    UserPageAddress(addr);
    if at + i < MB4 {
      DivModIs(MB4 * (USER_FRAME + Running(a)) + (at + i), MB4, USER_FRAME + Running(a), at + i);
    }
  }

  /** Such an execute faults if and only if the string runs off the page, or names a file and starts
      less than 127 bytes before the end of the page. */
  lemma CommandFaultsExact(e: Env, k: State, a: Calls, s: Step, at: nat)
    requires EnvOk(e) && Refines(k, a) && DirsOk(e, k) && Enabled(k, s) && s.Exec?
    requires at < MB4 && s.ptr == USER_MEM_LOCATION + at && k.dirs[k.cr3][VIDEO_PDE] == 0
    ensures var runsOff := forall j | at <= j < at + LINE_BUF_SIZE && j < MB4 :: FrameOf(k, Running(a))[j] != NUL;
      && (Asked(s).Broken? <==> runsOff)
      && (Faults(e.fs, Asked(s)) <==>
            runsOff || (at + MAX_BUF_INDEX > MB4 && Lookup(e.fs.entries, Name(Asked(s).text)).Some?))
  {
    var page, m, c := FrameOf(k, Running(a)), s.m, Prefix(s.m);
    assert |c| < LINE_BUF_SIZE;
    hide Refines, DirsOk, EnvOk, Enabled, Lookup, Prefix, FrameOf;
    forall i | 0 <= i < LINE_BUF_SIZE ensures m[i] == if at + i < MB4 then Some(page[at + i]) else None {
      PageMemory(e, k, a, s, at, i);
    }
    if at + |c| < MB4 {
      assert page[at + |c|] == NUL;
    } else {
      forall j | at <= j < at + LINE_BUF_SIZE && j < MB4 ensures page[j] != NUL {
        assert m[j - at] == Some(c[j - at]);
      }
    }
    if at + MAX_BUF_INDEX > MB4 {
      assert m[MAX_BUF_INDEX - 1] == None;
    }
  }
}
