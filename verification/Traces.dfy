/** Runs of the kernel built move by move, followed on the process numbers of the three stacks. */
module Traces {
  import opened Machine
  import opened Paging
  import opened Commands
  import opened Processes
  import opened CallStacks
  import opened Lifecycle
  import opened Runs
  import opened UserMemory

  /** A tick, an execute of the shell, a halt, a vidmap. */
  datatype Move = T | C | R | V

  ghost function NoResidue(): (r: seq<byte>)
    ensures |r| == HEAD
  {
    seq(HEAD, _ => 0)
  }

  /** The first bytes of the running process's page. */
  ghost function OwnPage(k: State): (m: Memory)
    requires Shape(k) && 0 <= Current(k) < MAX_USER_PROG
  {
    var page := FrameOf(k, Current(k));
    seq<Option<byte>>(LINE_BUF_SIZE, i requires 0 <= i < LINE_BUF_SIZE => Some(page[i]))
  }

  /** The move made by the running process, from the top of its kernel stack. */
  ghost function StepOf(k: State, m: Move): Step
    requires Shape(k) && 0 <= Current(k) < MAX_USER_PROG
  {
    var regs := Regs(Esp0(Current(k)), 0);
    match m
    case T => Tick(regs, NoResidue())
    case C => Exec(regs, NoResidue(), USER_MEM_LOCATION, OwnPage(k))
    case R => Exit(regs, NoResidue(), 0)
    case V => Step.Vidmap(regs, USER_MEM_LOCATION)
  }

  /** The three stacks of process numbers, and the terminal that has the processor. */
  datatype Pids = Pids(x: seq<Pid>, y: seq<Pid>, z: seq<Pid>, cur: nat)

  predicate Full(s: Pids) {
    s.x != [] && s.y != [] && s.z != [] && s.cur < TERMINALS
  }

  function At(s: Pids, t: nat): seq<Pid> {
    if t == 0 then s.x else if t == 1 then s.y else s.z
  }

  function With(s: Pids, ps: seq<Pid>): Pids {
    if s.cur == 0 then s.(x := ps) else if s.cur == 1 then s.(y := ps) else s.(z := ps)
  }

  function TopOf(s: Pids, t: nat): Pid
    requires At(s, t) != []
  {
    At(s, t)[|At(s, t)| - 1]
  }

  ghost predicate Numbers(st: seq<Frame>, ps: seq<Pid>) {
    |st| == |ps| && forall i | 0 <= i < |st| :: st[i].pid == ps[i]
  }

  /** The call stacks hold these process numbers, whatever contexts they hold. */
  ghost predicate Pict(a: Calls, s: Pids) {
    && Live(a) && a.lost == {} && Full(s) && a.cur == s.cur
    && Numbers(a.stacks[0], s.x) && Numbers(a.stacks[1], s.y) && Numbers(a.stacks[2], s.z)
  }

  // ----- the command in memory

  const WORD: seq<byte> := SHELL + [NUL]

  /** The running process's page starts with these bytes. */
  ghost predicate Holds(k: State, bytes: seq<byte>) {
    Shape(k) && 0 <= Current(k) < MAX_USER_PROG && bytes <= FrameOf(k, Current(k))
  }

  lemma PageFetches(k: State, a: Calls)
    requires Refines(k, a)
    ensures 0 <= Current(k) < MAX_USER_PROG && FetchesAll(k, USER_MEM_LOCATION, OwnPage(k))
  {
    hide Walk, Mapped;
    RefinesTables(k, a);
    RunningMapped(k, a);
    forall i | 0 <= i < LINE_BUF_SIZE
      ensures Fetches(k, (USER_MEM_LOCATION + i) % (ENTRIES * MB4), OwnPage(k)[i])
    {
      WalkUser(k, Running(a), i, false, false);
      var phys := MB4 * (USER_FRAME + Running(a)) + i;
      assert (USER_MEM_LOCATION + i) % (ENTRIES * MB4) == USER_MEM_LOCATION + i;
      assert phys / MB4 == USER_FRAME + Running(a) && phys % MB4 == i;
    }
  }

  lemma PageReads(e: Env, k: State)
    requires EnvOk(e) && Holds(k, WORD)
    ensures Short(OwnPage(k)) && Reading(OwnPage(k)) == Cmd(SHELL, true) && !Faults(e.fs, Reading(OwnPage(k)))
  {
    hide EnvOk;
    HeldShell(FrameOf(k, Current(k)), OwnPage(k));
  }

  lemma HeldShell(page: seq<byte>, m: Memory)
    requires |page| >= LINE_BUF_SIZE && WORD <= page && forall i | 0 <= i < LINE_BUF_SIZE :: m[i] == Some(page[i])
    ensures Prefix(m) == SHELL && m[|SHELL|] == Some(NUL) && Whole(m)
  {
    assert forall j | 0 <= j < |SHELL| :: page[j] == WORD[j] == SHELL[j] != NUL;
    assert page[|SHELL|] == WORD[|SHELL|] == NUL;
    PrefixIs(m, SHELL);
  }

  // ----- moves

  /** All process numbers below p are taken. */
  predicate TakenBelow(s: Pids, p: nat) {
    p == 0 || ((p - 1 in s.x || p - 1 in s.y || p - 1 in s.z) && TakenBelow(s, p - 1))
  }

  /** The move leads from s to s2; for a call, the new process is s2's running one. */
  predicate Leads(s: Pids, m: Move, s2: Pids) {
    && Full(s) && Full(s2)
    && match m
       case C =>
         var p := TopOf(s2, s2.cur);
         p !in s.x && p !in s.y && p !in s.z && TakenBelow(s, p) && s2 == With(s, At(s, s.cur) + [p])
       case R =>
         |At(s, s.cur)| > 1 && s2 == With(s, At(s, s.cur)[..|At(s, s.cur)| - 1])
       case T =>
         var me, p := TopOf(s, s.cur), TopOf(s, s2.cur);
         && TopOf(s, 0) != TopOf(s, 1) && TopOf(s, 1) != TopOf(s, 2) && TopOf(s, 2) != TopOf(s, 0)
         && Dist(me, p) <= Dist(me, TopOf(s, 0)) && Dist(me, p) <= Dist(me, TopOf(s, 1))
         && Dist(me, p) <= Dist(me, TopOf(s, 2)) && s2 == s.(cur := s2.cur)
       case V => s2 == s
  }

  lemma {:induction false} TakenAll(s: Pids, p: nat, q: nat)
    requires TakenBelow(s, p) && q < p
    ensures q in s.x || q in s.y || q in s.z
  {
    if q < p - 1 {
      TakenAll(s, p - 1, q);
    }
  }

  lemma OnNumbers(st: seq<Frame>, ps: seq<Pid>, q: Pid)
    requires Numbers(st, ps)
    ensures OnStack(st, q) <==> q in ps
  {
    if q in ps {
      var i :| 0 <= i < |ps| && ps[i] == q;
      assert st[i].pid == q;
    }
  }

  lemma CallMove(a: Calls, s: Pids, p: Pid, regs: Regs)
    requires Pict(a, s) && p !in s.x && p !in s.y && p !in s.z && TakenBelow(s, p)
    ensures Pict(Call(a, regs, true), With(s, At(s, s.cur) + [p]))
  {
    forall q: Pid ensures UsedOf(a)[q] <==> q in s.x || q in s.y || q in s.z {
      OnNumbers(a.stacks[0], s.x, q);
      OnNumbers(a.stacks[1], s.y, q);
      OnNumbers(a.stacks[2], s.z, q);
    }
    forall q: Pid | q < p ensures UsedOf(a)[q] {
      TakenAll(s, p, q);
    }
    assert FirstFree(UsedOf(a), 0) == p;
  }

  lemma ReturnMove(a: Calls, s: Pids, regs: Regs, status: byte)
    requires Pict(a, s) && |At(s, s.cur)| > 1
    ensures Pict(Return(a, regs, status), With(s, At(s, s.cur)[..|At(s, s.cur)| - 1]))
  {
  }

  lemma TopsAre(a: Calls, s: Pids, t: nat)
    requires Pict(a, s) && t < TERMINALS
    ensures IsTop(a, t, TopOf(s, t)) && Numbers(a.stacks[t], At(s, t))
    ensures a.cur == t ==> Running(a) == TopOf(s, t)
  {
  }

  lemma NextTerminal(a: Calls, s: Pids, t: nat)
    requires Pict(a, s) && t < TERMINALS && Leads(s, T, s.(cur := t))
    ensures Owner(a, NextProc(ActiveOf(a), Running(a))) == t
  {
    hide TopOf, NextProc, Numbers;
    var me, p := TopOf(s, s.cur), TopOf(s, t);
    TopsAre(a, s, 0);
    TopsAre(a, s, 1);
    TopsAre(a, s, 2);
    forall q: Pid | ActiveOf(a)[q] ensures Dist(me, p) <= Dist(me, q) {
      assert q == TopOf(s, Owner(a, q));
    }
    assert ActiveOf(a)[p];
    NextProcIs(ActiveOf(a), me, p);
    var o := Owner(a, p);
    assert IsTop(a, o, p) && TopOf(s, o) == p;
    assert (o == 0 || o == 1 || o == 2) && (t == 0 || t == 1 || t == 2);
  }

  lemma TickMove(a: Calls, s: Pids, t: nat, regs: Regs)
    requires Pict(a, s) && t < TERMINALS && Leads(s, T, s.(cur := t))
    ensures Pict(Preempt(a, regs), s.(cur := t))
  {
    NextTerminal(a, s, t);
    hide NextProc, ActiveOf, Owner;
  }

  /** A move of the process numbers is a move of the kernel; for a call, if the command is in
      memory. */
  lemma LeadsStep(e: Env, k: State, a: Calls, s: Pids, m: Move, s2: Pids)
    requires EnvOk(e) && Refines(k, a) && k.shells == 3 && Pict(a, s) && Leads(s, m, s2)
    requires m.C? ==> Holds(k, WORD)
    ensures 0 <= Current(k) < MAX_USER_PROG && Enabled(k, StepOf(k, m))
    ensures Pict(NextCalls(e, a, StepOf(k, m)), s2)
  {
    hide Linked, Program, Leads, NextCalls, Pict, FetchesAll, OwnPage, Reading, Faults, FrameOf;
    RefinesTables(k, a);
    CurPcbIsOwner(Esp0(Current(k)), Current(k));
    ShellIsProgram(e.fs, NoResidue());
    if m.C? {
      PageFetches(k, a);
      PageReads(e, k);
    }
    MoveStep(e, a, s, m, s2, StepOf(k, m));
  }

  lemma MoveStep(e: Env, a: Calls, s: Pids, m: Move, s2: Pids, step: Step)
    requires EnvOk(e) && Pict(a, s) && Leads(s, m, s2) && HeadOk(step)
    requires match m
             case T => step.Tick?
             case C => Starts(e, step)
             case R => step.Exit?
             case V => step.Vidmap?
    ensures Pict(NextCalls(e, a, step), s2)
  {
    hide Program, Faults, Reading, Pict, Preempt, Call, Return, EnvOk, TakenBelow;
    match m
    case C => CallMove(a, s, TopOf(s2, s2.cur), step.regs);
    case R => ReturnMove(a, s, step.regs, step.status);
    case T => TickMove(a, s, s2.cur, step.regs);
    case V =>
  }

  // ----- runs

  /** A run so far, and the call stacks its last state stands for. */
  datatype Trail = Trail(ks: seq<State>, ss: seq<Step>, a: Calls)

  ghost predicate Reaches(e: Env, tr: Trail, s: Pids)
    requires EnvOk(e)
  {
    && Path(e, tr.ks, tr.ss)
    && Refines(tr.ks[|tr.ss|], tr.a) && tr.ks[|tr.ss|].shells == 3 && Pict(tr.a, s)
  }

  lemma PathSnoc(e: Env, ks: seq<State>, ss: seq<Step>, s: Step, k': State)
    requires EnvOk(e) && Path(e, ks, ss) && Steps(e, ks[|ss|], s, k')
    ensures Path(e, ks + [k'], ss + [s])
  {
    var ks', ss' := ks + [k'], ss + [s];
    forall i | 0 <= i < |ss'| ensures Steps(e, ks'[i], ss'[i], ks'[i + 1]) {
      if i < |ss| {
        assert Steps(e, ks[i], ss[i], ks[i + 1]);
      }
    }
  }

  /** The running program stores into its own page. */
  ghost predicate Typed(s: Step) {
    s.Poke? && s.user && USER_MEM_LOCATION <= s.addr < USER_MEM_LOCATION + MB4
  }

  /** Trail mid goes on from tr by such stores only. */
  ghost predicate Types(tr: Trail, mid: Trail) {
    && |tr.ks| == |tr.ss| + 1 && |mid.ks| == |mid.ss| + 1 && tr.ss <= mid.ss && tr.ks <= mid.ks
    && (forall i | |tr.ss| <= i < |mid.ss| :: Typed(mid.ss[i]))
    && (forall i | |tr.ss| <= i < |mid.ks| :: mid.ks[i] == tr.ks[|tr.ss|].(frames := mid.ks[i].frames))
  }

  lemma TypeByte(e: Env, tr: Trail, s: Pids, bytes: seq<byte>, b: byte) returns (tr': Trail)
    requires EnvOk(e) && Reaches(e, tr, s) && |bytes| < MB4 && Holds(tr.ks[|tr.ss|], bytes)
    ensures Reaches(e, tr', s) && Types(tr, tr') && Holds(tr'.ks[|tr'.ss|], bytes + [b])
  {
    hide Linked, Pict, Next, NextCalls, Mapped;
    var k, step := tr.ks[|tr.ss|], Poke(USER_MEM_LOCATION + |bytes|, b, true);
    StoresByte(e, k, tr.a, |bytes|, b);
    var k' := Next(e, k, step);
    PathSnoc(e, tr.ks, tr.ss, step, k');
    tr' := Trail(tr.ks + [k'], tr.ss + [step], tr.a);
    var f, f' := FrameOf(k, Current(k)), FrameOf(k', Current(k'));
    assert forall j | 0 <= j < |bytes| :: f'[j] == f[j] == bytes[j];
  }

  lemma StoresByte(e: Env, k: State, a: Calls, at: nat, b: byte)
    requires EnvOk(e) && Refines(k, a) && at < MB4
    ensures 0 <= Current(k) < MAX_USER_PROG
    ensures var s, f := Poke(USER_MEM_LOCATION + at, b, true), USER_FRAME + Current(k);
      && Enabled(k, s) && Defined(k, s) && Refines(Next(e, k, s), a)
      && Next(e, k, s) == k.(frames := k.frames[f := FrameOf(k, Current(k))[at := b]])
  {
    hide Linked, Mapped, Walk, Splice, EnvOk, Store, Sched, Halt, ExecuteCall, Processes.Vidmap;
    var s := Poke(USER_MEM_LOCATION + at, b, true);
    RefinesTables(k, a);
    RunningMapped(k, a);
    WalkUser(k, Running(a), at, true, true);
    Simulates(e, k, a, s);
    StoreOwnFrame(k, Running(a), at, [b], true);
    OneByte(FrameOf(k, Running(a)), at, b);
  }

  lemma OneByte(f: seq<byte>, at: nat, b: byte)
    requires at < |f|
    ensures Splice(f, at, [b]) == f[at := b]
  {
  }

  /** The running program writes a text at the start of its page. */
  lemma Type(e: Env, tr: Trail, s: Pids, bytes: seq<byte>) returns (tr': Trail)
    requires EnvOk(e) && Reaches(e, tr, s) && |bytes| <= MB4
    ensures Reaches(e, tr', s) && Types(tr, tr') && Holds(tr'.ks[|tr'.ss|], bytes)
  {
    hide Reaches, EnvOk;
    tr' := tr;
    Reached(e, tr, s);
    TrailShape(e, tr, s);
    for i := 0 to |bytes|
      invariant Reaches(e, tr', s) && Types(tr, tr') && Holds(tr'.ks[|tr'.ss|], bytes[..i])
    {
      var before := tr';
      tr' := TypeByte(e, before, s, bytes[..i], bytes[i]);
      TypesMore(tr, before, tr');
      assert bytes[..i] + [bytes[i]] == bytes[..i + 1];
    }
    assert bytes[..|bytes|] == bytes;
  }

  lemma TypesMore(a: Trail, b: Trail, c: Trail)
    requires Types(a, b) && Types(b, c)
    ensures Types(a, c)
  {
  }

  lemma TrailShape(e: Env, tr: Trail, s: Pids)
    requires EnvOk(e) && Reaches(e, tr, s)
    ensures |tr.ks| == |tr.ss| + 1
  {
  }

  /** One move more: for a call, the caller first writes the command into its page. */
  lemma Go(e: Env, tr: Trail, s: Pids, m: Move, s2: Pids) returns (mid: Trail, tr': Trail)
    requires EnvOk(e) && Reaches(e, tr, s) && Leads(s, m, s2)
    ensures Reaches(e, tr', s2) && tr'.ks[0] == tr.ks[0]
    ensures Reaches(e, mid, s) && Types(tr, mid) && (!m.C? ==> mid == tr)
    ensures var k := mid.ks[|mid.ss|];
      && Shape(k) && 0 <= Current(k) < MAX_USER_PROG && Defined(k, StepOf(k, m)) && (m.C? ==> Holds(k, WORD))
      && tr'.ss == mid.ss + [StepOf(k, m)] && tr'.ks == mid.ks + [Next(e, k, StepOf(k, m))]
  {
    hide Next, Refines, Leads, Pict, Path, OwnPage, EnvOk, Defined, Holds;
    TrailShape(e, tr, s);
    mid := tr;
    if m.C? {
      mid := Type(e, tr, s, WORD);
    }
    tr' := Make(e, mid, s, m, s2);
  }

  /** The move itself. */
  lemma Make(e: Env, tr: Trail, s: Pids, m: Move, s2: Pids) returns (tr': Trail)
    requires EnvOk(e) && Reaches(e, tr, s) && Leads(s, m, s2) && (m.C? ==> Holds(tr.ks[|tr.ss|], WORD))
    ensures |tr.ks| == |tr.ss| + 1 && Reaches(e, tr', s2)
    ensures var k := tr.ks[|tr.ss|];
      && Shape(k) && 0 <= Current(k) < MAX_USER_PROG && Defined(k, StepOf(k, m))
      && tr'.ss == tr.ss + [StepOf(k, m)] && tr'.ks == tr.ks + [Next(e, k, StepOf(k, m))]
  {
    hide Next, NextCalls, Linked, Leads, Pict, OwnPage, EnvOk, Holds;
    var k := tr.ks[|tr.ss|];
    LeadsStep(e, k, tr.a, s, m, s2);
    var step := StepOf(k, m);
    Simulates(e, k, tr.a, step);
    ShellsCount(e, k, tr.a, step);
    var k' := Next(e, k, step);
    PathSnoc(e, tr.ks, tr.ss, step, k');
    tr' := Trail(tr.ks + [k'], tr.ss + [step], NextCalls(e, tr.a, step));
  }

  /** Who runs, and who is on which terminal, at the end of a trail. */
  lemma Reached(e: Env, tr: Trail, s: Pids)
    requires EnvOk(e) && Reaches(e, tr, s)
    ensures var k := tr.ks[|tr.ss|];
      && Shape(k) && Current(k) == TopOf(s, s.cur) && k.used[Current(k)] && k.pcbs[Current(k)].terminal == s.cur
      && forall t | 0 <= t < TERMINALS :: k.active[TopOf(s, t)]
  {
    var k := tr.ks[|tr.ss|];
    RefinesTables(k, tr.a);
    forall t | 0 <= t < TERMINALS
      ensures k.active[TopOf(s, t)] && k.pcbs[TopOf(s, t)].terminal == t && k.used[TopOf(s, t)]
    {
      TopsAre(tr.a, s, t);
      assert OnStack(tr.a.stacks[t], TopOf(s, t));
      OnStackUsed(k, tr.a, t, TopOf(s, t));
    }
    TopsAre(tr.a, s, s.cur);
  }

  // ----- the start

  const SHELLS := Pids([0], [1], [2], 2)

  lemma BootTick(e: Env, k: State, a: Calls)
    requires EnvOk(e) && Refines(k, a) && k.shells < 3
    ensures 0 <= Current(k) < MAX_USER_PROG && Enabled(k, StepOf(k, T)) && Defined(k, StepOf(k, T))
    ensures var k', a' := Next(e, k, StepOf(k, T)), NextCalls(e, a, StepOf(k, T));
      Refines(k', a') && k'.shells == k.shells + 1
  {
    hide Next, NextCalls, Linked, Program;
    RefinesTables(k, a);
    CurPcbIsOwner(Esp0(Current(k)), Current(k));
    Simulates(e, k, a, StepOf(k, T));
    ShellsCount(e, k, a, StepOf(k, T));
  }

  lemma BootStacks(k: State, r1: Regs, r2: Regs)
    ensures Pict(Preempt(Preempt(Start(k), r1), r2), SHELLS)
  {
    hide ActiveOf, NextProc, Owner, IsTop;
    var a1 := Preempt(Start(k), r1);
    assert a1.stacks[0] == [Frame(0, r1)] && a1.stacks[1] == [Frame(1, r1)] && a1.stacks[2] == [] && a1.cur == 1;
    var a2 := Preempt(a1, r2);
    assert a2.stacks[0] == [Frame(0, r1)] && a2.stacks[1] == [Frame(1, r2)] && a2.stacks[2] == [Frame(2, r2)];
  }

  /** One tick that starts a shell. */
  lemma BootOn(e: Env, tr: Trail) returns (tr': Trail)
    requires EnvOk(e) && Path(e, tr.ks, tr.ss) && Refines(tr.ks[|tr.ss|], tr.a) && tr.ks[|tr.ss|].shells < 3
    ensures Path(e, tr'.ks, tr'.ss) && tr'.ks[0] == tr.ks[0] && |tr'.ss| == |tr.ss| + 1 && tr.ss <= tr'.ss
    ensures var s := tr'.ss[|tr.ss|]; s.Tick? && Live(tr.a) && tr'.a == Preempt(tr.a, s.regs)
    ensures Refines(tr'.ks[|tr'.ss|], tr'.a) && tr'.ks[|tr'.ss|].shells == tr.ks[|tr.ss|].shells + 1
  {
    hide Next, Linked, Preempt, EnvOk;
    var k := tr.ks[|tr.ss|];
    BootTick(e, k, tr.a);
    var s := StepOf(k, T);
    PathSnoc(e, tr.ks, tr.ss, s, Next(e, k, s));
    tr' := Trail(tr.ks + [Next(e, k, s)], tr.ss + [s], NextCalls(e, tr.a, s));
  }

  /** Two ticks after the first shell all three are up, and the last one runs. */
  lemma BootTrail(e: Env, k: State) returns (tr: Trail)
    requires EnvOk(e) && Booted(e, k)
    ensures Reaches(e, tr, SHELLS) && tr.ks[0] == k && |tr.ss| == 2 && tr.ss[0].Tick? && tr.ss[1].Tick?
  {
    BootedRefines(e, k);
    assert k.shells == 1;
    hide Steps, Refines, Preempt, Booted, EnvOk, Pict, Start;
    tr := BootOn(e, Trail([k], [], Start(k)));
    var one := tr;
    tr := BootOn(e, one);
    assert tr.ss[0] == one.ss[0];
    BootStacks(k, tr.ss[0].regs, tr.ss[1].regs);
  }
}
