/** Runs from every boot that show what the exact conditions are for: a program that draws on
    another terminal's screen, messages that leave the hardware cursor behind, and a page fault that
    spoils the displayed line. */
module Interference {
  import opened Machine
  import opened Paging
  import opened Commands
  import opened Processes
  import opened CallStacks
  import opened Lifecycle
  import opened Directories
  import opened Runs
  import opened Screens
  import opened Consoles
  import opened FaultMessages
  import opened Systems
  import Traces
  import LostSlots
  import UserMemory
  import W = Windows
  import P = Projection

  // ----- a run of the kernel is a run of the system

  lemma SomeLook(e: Env, k: State, p: Pid) returns (t: Option<nat>)
    requires Shape(k) && DirsOk(e, k)
    ensures LooksAt(e, p, k.dirs[p][VIDEO_PDE], t)
  {
    hide VidmapEntry, Processes.UserEntry, Or;
    assert DirOk(e, p, k.dirs[p]);
    var x := k.dirs[p][VIDEO_PDE];
    assert EntryOk(e, p, VIDEO_PDE, x);
    if x == 0 {
      t := None;
    } else {
      var u :| 0 <= u < TERMINALS && x == VidmapEntry(e.tables, p, u);
      t := Some(u);
    }
  }

  /** The steps of the trails: nothing of them depends on the console. */
  ghost predicate Plain(e: Env, k: State, s: Step) {
    || s.Tick? || s.Exit? || s.Vidmap? || Traces.Typed(s)
    || (Traces.Holds(k, Traces.WORD) && s.Exec? && s.ptr == USER_MEM_LOCATION && s.m == Traces.OwnPage(k))
  }

  ghost predicate AllPlain(e: Env, ks: seq<State>, ss: seq<Step>) {
    |ks| == |ss| + 1 && forall i | 0 <= i < |ss| :: Plain(e, ks[i], ss[i])
  }

  lemma OwnBytes(e: Env, w: Sys, a: Calls, user: bool, write: bool, at: nat)
    requires Inv(e, w, a) && at < MB4
    ensures Shape(w.k) && 0 <= Current(w.k) < MAX_USER_PROG && !NoAccess(e, w, USER_MEM_LOCATION + at, user, write)
    ensures ByteAt(e, w, USER_MEM_LOCATION + at) == Some(UserMemory.FrameOf(w.k, Current(w.k))[at])
  {
    hide Linked, Walk, Good, PageAt, DirsOk;
    RefinesTables(w.k, a);
    UserMemory.RunningMapped(w.k, a);
    UserMemory.WalkUser(w.k, Running(a), at, user, write);
    UserMemory.WalkUser(w.k, Running(a), at, false, false);
    DivModIs(MB4 * (USER_FRAME + Running(a)) + at, MB4, USER_FRAME + Running(a), at);
  }

  lemma OwnMemory(e: Env, w: Sys, a: Calls)
    requires Inv(e, w, a)
    ensures Shape(w.k) && 0 <= Current(w.k) < MAX_USER_PROG && MemoryAt(e, w, USER_MEM_LOCATION) == Traces.OwnPage(w.k)
  {
    hide Refines, Agree, ByteAt, DirsOk, UserMemory.FrameOf;
    OwnBytes(e, w, a, false, false, 0);
    forall i | 0 <= i < LINE_BUF_SIZE ensures MemoryAt(e, w, USER_MEM_LOCATION)[i] == Traces.OwnPage(w.k)[i] {
      assert (USER_MEM_LOCATION + i) % (ENTRIES * MB4) == USER_MEM_LOCATION + i;
      OwnBytes(e, w, a, false, false, i);
    }
  }

  lemma PlainCan(e: Env, w: Sys, a: Calls, s: Step)
    requires EnvOk(e) && Inv(e, w, a) && Enabled(w.k, s) && Plain(e, w.k, s)
    ensures Can(e, w, Kernel(s))
  {
    hide Refines, Good, DirsOk, MemoryAt, NoAccess, Traces.OwnPage, Enabled, EnvOk, Shape, Faults, Reading;
    match s
    case Exec(_, _, _, _) =>
      OwnMemory(e, w, a);
      Traces.PageReads(e, w.k);
    case Poke(addr, _, user) => OwnBytes(e, w, a, user, true, addr - USER_MEM_LOCATION);
    case _ =>
  }

  ghost function Kernels(ss: seq<Step>): (es: seq<Event>)
    ensures |es| == |ss| && forall i | 0 <= i < |ss| :: es[i] == Kernel(ss[i])
  {
    seq(|ss|, i requires 0 <= i < |ss| => Kernel(ss[i]))
  }

  /** A run of the system that makes these steps, and keeps everything in order. */
  ghost predicate Lifts(e: Env, ks: seq<State>, ss: seq<Step>, ws: seq<Sys>, a: Calls)
    requires EnvOk(e)
  {
    && W.Run(e, ws, Kernels(ss)) && |ks| == |ws| && (forall i | 0 <= i < |ks| :: ws[i].k == ks[i])
    && Inv(e, ws[|ss|], a)
  }

  lemma LiftStep(e: Env, k: State, a: Calls, s: Step, k': State, c: Console) returns (a': Calls, c': Console)
    requires EnvOk(e) && Inv(e, Sys(k, c), a) && Steps(e, k, s, k') && Plain(e, k, s)
    ensures Can(e, Sys(k, c), Kernel(s)) && Ready(e, Sys(k, c), Kernel(s))
    ensures Inv(e, Sys(k', c'), a') && Sys(k', c') == Outcome(e, Sys(k, c), Kernel(s))
  {
    hide Refines, DirsOk, Good, Next, LooksAt, KernelPart, Shape, EnvOk, Enabled, Plain, Can;
    var w := Sys(k, c);
    StepsEnabled(e, k, s, k');
    PlainCan(e, w, a, s);
    RunningIsReady(e, w, a, Kernel(s));
    var t := SomeLook(e, k, Current(k));
    a' := EventStep(e, w, a, Kernel(s), t);
    c' := KernelPart(e, w, s);
  }

  lemma StepsEnabled(e: Env, k: State, s: Step, k': State)
    requires EnvOk(e) && Steps(e, k, s, k')
    ensures Enabled(k, s)
  {
  }

  lemma {:induction false} Lift(e: Env, ks: seq<State>, ss: seq<Step>, a: Calls, c: Console)
      returns (ws: seq<Sys>, a': Calls)
    requires EnvOk(e) && Path(e, ks, ss) && AllPlain(e, ks, ss) && Inv(e, Sys(ks[0], c), a)
    ensures Lifts(e, ks, ss, ws, a') && ws[0] == Sys(ks[0], c)
    decreases |ss|
  {
    hide Inv, Steps, Outcome, Ready, EnvOk, Plain, Can;
    var w := Sys(ks[0], c);
    if ss == [] {
      ws, a' := [w], a;
    } else {
      assert Steps(e, ks[0], ss[0], ks[1]) && Plain(e, ks[0], ss[0]);
      var b, c' := LiftStep(e, ks[0], a, ss[0], ks[1], c);
      PathTail(e, ks, ss);
      var rest;
      rest, a' := Lift(e, ks[1..], ss[1..], b, c');
      ws := [w] + rest;
      forall i | 0 <= i < |ss| ensures W.Happened(e, ws[i], Kernels(ss)[i], ws[i + 1]) {
        if i > 0 {
          assert W.Happened(e, rest[i - 1], Kernels(ss[1..])[i - 1], rest[i]);
        }
      }
    }
  }

  /** One event more. */
  lemma RunSnoc(e: Env, ws: seq<Sys>, es: seq<Event>, ev: Event)
    requires EnvOk(e) && W.Run(e, ws, es) && Ready(e, ws[|es|], ev)
    ensures W.Run(e, ws + [Outcome(e, ws[|es|], ev)], es + [ev])
  {
    hide Outcome, Ready, EnvOk, Can;
    ReadyCan(e, ws[|es|], ev);
    var ws', es' := ws + [Outcome(e, ws[|es|], ev)], es + [ev];
    forall i | 0 <= i < |es'| ensures W.Happened(e, ws'[i], es'[i], ws'[i + 1]) {
      if i < |es| {
        assert W.Happened(e, ws[i], es[i], ws[i + 1]);
      }
    }
  }

  lemma ReadyCan(e: Env, w: Sys, ev: Event)
    requires Ready(e, w, ev)
    ensures Can(e, w, ev)
  {
  }

  /** One move more on a plain trail. */
  lemma GoPlain(e: Env, tr: Traces.Trail, s: Traces.Pids, m: Traces.Move, s2: Traces.Pids)
      returns (mid: Traces.Trail, tr': Traces.Trail)
    requires EnvOk(e) && Traces.Reaches(e, tr, s) && Traces.Leads(s, m, s2) && AllPlain(e, tr.ks, tr.ss)
    ensures Traces.Reaches(e, tr', s2) && tr'.ks[0] == tr.ks[0] && AllPlain(e, tr'.ks, tr'.ss)
    ensures Traces.Reaches(e, mid, s) && Traces.Types(tr, mid) && (!m.C? ==> mid == tr)
    ensures var k := mid.ks[|mid.ss|];
      && Shape(k) && 0 <= Current(k) < MAX_USER_PROG && Defined(k, Traces.StepOf(k, m))
      && tr'.ss == mid.ss + [Traces.StepOf(k, m)] && tr'.ks == mid.ks + [Next(e, k, Traces.StepOf(k, m))]
  {
    hide Traces.Leads, Traces.Reaches, EnvOk, Next, Defined, Shape, Traces.OwnPage, Traces.Holds;
    mid, tr' := Traces.Go(e, tr, s, m, s2);
    forall i | 0 <= i < |tr'.ss| ensures Plain(e, tr'.ks[i], tr'.ss[i]) {
      if i < |tr.ss| {
        assert Plain(e, tr.ks[i], tr.ss[i]);
      } else if i < |mid.ss| {
        assert Traces.Typed(mid.ss[i]);
      }
    }
  }

  lemma BootPlain(e: Env, k: State) returns (tr: Traces.Trail)
    requires EnvOk(e) && Booted(e, k)
    ensures Traces.Reaches(e, tr, Traces.SHELLS) && tr.ks[0] == k && AllPlain(e, tr.ks, tr.ss)
    ensures |tr.ss| == 2 && tr.ss[0].Tick? && tr.ss[1].Tick?
  {
    hide EnvOk, Booted, Traces.Pict, Refines;
    tr := Traces.BootTrail(e, k);
  }

  lemma LiftTrail(e: Env, k: State, c: Console, tr: Traces.Trail, s: Traces.Pids) returns (ws: seq<Sys>, a: Calls)
    requires EnvOk(e) && Booted(e, k) && Good(c) && Traces.Reaches(e, tr, s) && AllPlain(e, tr.ks, tr.ss)
    requires tr.ks[0] == k
    ensures Lifts(e, tr.ks, tr.ss, ws, a) && ws[0] == Sys(k, c)
  {
    hide EnvOk, Good, Booted, Refines, DirsOk, Traces.Pict, AllPlain;
    W.BootBegins(e, k, c);
    ws, a := Lift(e, tr.ks, tr.ss, Start(k), c);
  }

  // ----- a draw on another terminal

  const A1 := Traces.Pids([0], [1], [2, 3], 2)
  const A2 := Traces.Pids([0], [1], [2], 0)
  const A3 := Traces.Pids([0, 3], [1], [2], 0)

  lemma StrayMoves()
    ensures Traces.Leads(Traces.SHELLS, Traces.C, A1) && Traces.Leads(A1, Traces.V, A1)
    ensures Traces.Leads(A1, Traces.R, Traces.SHELLS) && Traces.Leads(Traces.SHELLS, Traces.T, A2)
    ensures Traces.Leads(A2, Traces.C, A3)
    ensures Traces.TopOf(A1, 2) == 3 && Traces.TopOf(A3, 0) == 3
  {
  }

  /** At the end of the trail slot 3's directory leads to terminal 2's screen. */
  ghost predicate Haunted(e: Env, tr: Traces.Trail) {
    |tr.ks| == |tr.ss| + 1 && Shape(tr.ks[|tr.ss|]) && tr.ks[|tr.ss|].dirs[3][VIDEO_PDE] == VidmapEntry(e.tables, 3, 2)
  }

  /** Only a vidmap changes that. */
  lemma GoHaunted(e: Env, tr: Traces.Trail, s: Traces.Pids, m: Traces.Move, s2: Traces.Pids) returns (tr': Traces.Trail)
    requires EnvOk(e) && Traces.Reaches(e, tr, s) && Traces.Leads(s, m, s2) && AllPlain(e, tr.ks, tr.ss)
    requires if m.V? then s.cur == 2 && Traces.Full(s) && Traces.TopOf(s, 2) == 3 else Haunted(e, tr)
    ensures Traces.Reaches(e, tr', s2) && tr'.ks[0] == tr.ks[0] && AllPlain(e, tr'.ks, tr'.ss) && Haunted(e, tr')
  {
    hide Traces.Leads, EnvOk, Next, VidmapEntry, Traces.OwnPage, Linked, Path, Traces.Pict, AllPlain;
    var mid;
    mid, tr' := GoPlain(e, tr, s, m, s2);
    var k := mid.ks[|mid.ss|];
    Traces.Reached(e, mid, s);
    assert k == tr.ks[|tr.ss|].(frames := k.frames);
    DefinedEnabled(k, Traces.StepOf(k, m));
    StepVideoEntry(e, k, mid.a, Traces.StepOf(k, m), 3);
  }

  lemma DefinedEnabled(k: State, s: Step)
    requires Defined(k, s)
    ensures Enabled(k, s)
  {
  }

  /** Shell 2 runs a program that maps and exits, and then shell 0 runs one in the same slot. */
  lemma HauntedTrail(e: Env, k: State) returns (tr: Traces.Trail)
    requires EnvOk(e) && Booted(e, k)
    ensures Traces.Reaches(e, tr, A3) && tr.ks[0] == k && AllPlain(e, tr.ks, tr.ss) && Haunted(e, tr)
  {
    StrayMoves();
    hide Traces.Leads, Traces.Reaches, Booted, EnvOk, Next, Defined, Traces.TopOf, Shape, AllPlain, Haunted;
    tr := BootPlain(e, k);
    var mid;
    mid, tr := GoPlain(e, tr, Traces.SHELLS, Traces.C, A1);
    tr := GoHaunted(e, tr, A1, Traces.V, A1);
    tr := GoHaunted(e, tr, A1, Traces.R, Traces.SHELLS);
    tr := GoHaunted(e, tr, Traces.SHELLS, Traces.T, A2);
    tr := GoHaunted(e, tr, A2, Traces.C, A3);
  }

  /** The last event of the run is a stray draw: by a program on terminal 0, in the first cell of
      terminal 2's screen. */
  ghost predicate EndsStray(e: Env, ws: seq<Sys>, es: seq<Event>, value: byte)
    requires EnvOk(e)
  {
    && W.Run(e, ws, es) && |es| > 0 && W.Strays(e, ws, es, |es| - 1) && MyTerm(ws[|es| - 1]) == 0
    && Good(ws[|es|].c) && Proj(ws[|es|].c, 2).screen.cells[0] == value
  }

  /** From every boot there is a run in which a program on terminal 0 writes any byte it likes onto
      terminal 2's screen. */
  lemma StrayRun(e: Env, k: State, c: Console, value: byte)
    requires EnvOk(e) && Booted(e, k) && Good(c)
    ensures exists ws, es :: EndsStray(e, ws, es, value) && ws[0] == Sys(k, c)
  {
    hide Booted, EnvOk, Good, W.Happened, Traces.Reaches, AllPlain, Inv, EndsStray;
    var tr := HauntedTrail(e, k);
    var ws, a := LiftTrail(e, k, c, tr, A3);
    Traces.Reached(e, tr, A3);
    StrayMoves();
    assert ws[|tr.ss|].k == tr.ks[|tr.ss|];
    var ws', es' := StrayEnd(e, ws, Kernels(tr.ss), a, value);
    assert EndsStray(e, ws', es', value) && ws'[0] == Sys(k, c);
  }

  lemma StrayEnd(e: Env, ws: seq<Sys>, es: seq<Event>, a: Calls, value: byte) returns (ws': seq<Sys>, es': seq<Event>)
    requires EnvOk(e) && W.Run(e, ws, es) && Inv(e, ws[|es|], a)
    requires var k := ws[|es|].k;
      Current(k) == 3 && k.pcbs[3].terminal == 0 && k.dirs[3][VIDEO_PDE] == VidmapEntry(e.tables, 3, 2)
    ensures EndsStray(e, ws', es', value) && |ws'| > 0 && ws'[0] == ws[0]
  {
    var w := ws[|es|];
    var ev := Kernel(Poke(USER_VIDEO, value, true));
    hide Inv, EnvOk, Good, Outcome, Ready, VidmapEntry, PageAt, W.Happened, KernelPage, W.Strays, Systems.Shaped, Proj;
    DrawsOn(e, w, a, value);
    RunSnoc(e, ws, es, ev);
    ws', es' := ws + [Outcome(e, w, ev)], es + [ev];
    assert ws'[|es|] == w && es'[|es|] == ev;
    StraysNow(e, ws', es', |es|);
  }

  lemma StraysNow(e: Env, ws: seq<Sys>, es: seq<Event>, i: nat)
    requires |ws| == |es| + 1 && i < |es| && Systems.Shaped(ws[i]) && MyTerm(ws[i]) == 0
    requires es[i].Kernel? && es[i].step.Poke? && es[i].step.addr == USER_VIDEO && es[i].step.user
    requires PageAt(e, ws[i].k.dirs[ws[i].k.cr3], ws[i].c, USER_VIDEO, true, true) == Some(KernelPage(ws[i].c, 2))
    ensures W.Strays(e, ws, es, i)
  {
    hide PageAt, KernelPage, Shape, Agree;
  }

  /** Such a program's store: it can happen, it strays, and this is what it does. */
  lemma DrawsOn(e: Env, w: Sys, a: Calls, value: byte)
    requires EnvOk(e) && Inv(e, w, a) && Current(w.k) == 3 && w.k.pcbs[3].terminal == 0
    requires w.k.dirs[3][VIDEO_PDE] == VidmapEntry(e.tables, 3, 2)
    ensures var ev := Kernel(Poke(USER_VIDEO, value, true));
      && Ready(e, w, ev) && Systems.Shaped(w) && MyTerm(w) == 0
      && PageAt(e, w.k.dirs[w.k.cr3], w.c, USER_VIDEO, true, true) == Some(KernelPage(w.c, 2))
      && Good(Outcome(e, w, ev).c) && Proj(Outcome(e, w, ev).c, 2).screen.cells[0] == value
  {
    hide Linked, DirsOk, EnvOk, VidmapEntry, Agree, Proj, P.Draw, KernelPage;
    RefinesTables(w.k, a);
    assert LooksAt(e, 3, w.k.dirs[3][VIDEO_PDE], Some(2));
    VideoPageIs(e, w.k, w.c, 3, Some(2), USER_VIDEO, true);
    assert Can(e, w, Kernel(Poke(USER_VIDEO, value, true)));
    RunningIsReady(e, w, a, Kernel(Poke(USER_VIDEO, value, true)));
    DrawIsStore(e, w, a, USER_VIDEO, value, true, Some(2));
    P.DrawProj(w.c, 2, 0, value);
  }

  // ----- a message that leaves the cursor behind

  const B1 := Traces.Pids([0, 3, 4], [1], [2], 0)
  const B2 := Traces.Pids([0, 3, 4, 5], [1], [2], 0)

  lemma FullMoves()
    ensures Traces.Leads(Traces.SHELLS, Traces.T, A2) && Traces.Leads(A2, Traces.C, A3)
    ensures Traces.Leads(A3, Traces.C, B1) && Traces.Leads(B1, Traces.C, B2)
    ensures Traces.TopOf(A2, 0) == 0 && Traces.TopOf(A3, 0) == 3 && Traces.TopOf(B1, 0) == 4 && Traces.TopOf(B2, 0) == 5
  {
  }

  /** A step of the kernel that leaves everything of the console but video memory alone. */
  ghost predicate Quiet(k: State, s: Step) {
    s.Tick? || Traces.Typed(s) || (s.Exec? && Shape(k) && FirstFree(k.used, 0) < MAX_USER_PROG)
  }

  ghost predicate AllQuiet(tr: Traces.Trail) {
    |tr.ks| == |tr.ss| + 1 && forall i | 0 <= i < |tr.ss| :: Quiet(tr.ks[i], tr.ss[i])
  }

  lemma GoQuiet(e: Env, tr: Traces.Trail, s: Traces.Pids, m: Traces.Move, s2: Traces.Pids) returns (tr': Traces.Trail)
    requires EnvOk(e) && Traces.Reaches(e, tr, s) && Traces.Leads(s, m, s2) && AllPlain(e, tr.ks, tr.ss)
    requires AllQuiet(tr) && (m.T? || m.C?)
    ensures Traces.Reaches(e, tr', s2) && tr'.ks[0] == tr.ks[0] && AllPlain(e, tr'.ks, tr'.ss) && AllQuiet(tr')
  {
    hide EnvOk, Next, Traces.OwnPage, Path, AllPlain, Traces.Pict, Refines;
    var mid;
    mid, tr' := GoPlain(e, tr, s, m, s2);
    if m.C? {
      SlotLeft(mid.ks[|mid.ss|], mid.a, s, s2);
    }
    forall i | 0 <= i < |tr'.ss| ensures Quiet(tr'.ks[i], tr'.ss[i]) {
      if i < |tr.ss| {
        assert Quiet(tr.ks[i], tr.ss[i]);
      } else if i < |mid.ss| {
        assert Traces.Typed(mid.ss[i]);
      }
    }
  }

  lemma SlotLeft(k: State, a: Calls, s: Traces.Pids, s2: Traces.Pids)
    requires Refines(k, a) && Traces.Pict(a, s) && Traces.Leads(s, Traces.C, s2)
    ensures FirstFree(k.used, 0) < MAX_USER_PROG
  {
    hide Linked, Traces.TakenBelow;
    RefinesTables(k, a);
    var p := Traces.TopOf(s2, s2.cur);
    Traces.OnNumbers(a.stacks[0], s.x, p);
    Traces.OnNumbers(a.stacks[1], s.y, p);
    Traces.OnNumbers(a.stacks[2], s.z, p);
    assert !k.used[p];
  }

  /** Quiet steps to a full table, with a process of terminal 0 running. */
  lemma FillTrail(e: Env, k: State) returns (tr: Traces.Trail)
    requires EnvOk(e) && Booted(e, k)
    ensures Traces.Reaches(e, tr, B2) && tr.ks[0] == k && AllPlain(e, tr.ks, tr.ss) && AllQuiet(tr)
  {
    FullMoves();
    hide Traces.Leads, Traces.Reaches, Booted, EnvOk, AllPlain, Quiet;
    tr := BootQuiet(e, k);
    tr := GoQuiet(e, tr, Traces.SHELLS, Traces.T, A2);
    tr := GoQuiet(e, tr, A2, Traces.C, A3);
    tr := GoQuiet(e, tr, A3, Traces.C, B1);
    tr := GoQuiet(e, tr, B1, Traces.C, B2);
  }

  lemma BootQuiet(e: Env, k: State) returns (tr: Traces.Trail)
    requires EnvOk(e) && Booted(e, k)
    ensures Traces.Reaches(e, tr, Traces.SHELLS) && tr.ks[0] == k && AllPlain(e, tr.ks, tr.ss) && AllQuiet(tr)
    ensures |tr.ss| == 2
  {
    hide Traces.Reaches, Booted, EnvOk;
    tr := BootPlain(e, k);
  }

  lemma AllTaken(e: Env, tr: Traces.Trail)
    requires EnvOk(e) && Traces.Reaches(e, tr, B2)
    ensures Shape(tr.ks[|tr.ss|]) && FirstFree(tr.ks[|tr.ss|].used, 0) == MAX_USER_PROG
  {
    var k := tr.ks[|tr.ss|];
    RefinesTables(k, tr.a);
    forall p: Pid ensures k.used[p] {
      Traces.OnNumbers(tr.a.stacks[0], B2.x, p);
      Traces.OnNumbers(tr.a.stacks[1], B2.y, p);
      Traces.OnNumbers(tr.a.stacks[2], B2.z, p);
      assert p in B2.x || p in B2.y || p in B2.z by {
        assert B2.x[0] == 0 && B2.x[1] == 3 && B2.x[2] == 4 && B2.x[3] == 5 && B2.y[0] == 1 && B2.z[0] == 2;
      }
    }
  }

  /** The terminals' fields, the displayed one and the hardware cursor. */
  predicate SameFields(c: Console, c': Console) {
    c'.terms == c.terms && c'.csr == c.csr && c'.cur == c.cur
  }

  lemma QuietStep(e: Env, w: Sys, s: Step)
    requires EnvOk(e) && Ready(e, w, Kernel(s)) && Quiet(w.k, s)
    ensures SameFields(w.c, Outcome(e, w, Kernel(s)).c) && Outcome(e, w, Kernel(s)).k == Next(e, w.k, s)
  {
    hide Good, PageAt, NoAccess, MemoryAt, Next;
  }

  lemma {:induction false} QuietRun(e: Env, ks: seq<State>, ss: seq<Step>, ws: seq<Sys>, a0: Calls, a: Calls, n: nat)
    requires EnvOk(e) && Lifts(e, ks, ss, ws, a) && n <= |ss| && W.Begins(e, ws[0], a0)
    requires forall i | 0 <= i < |ss| :: Quiet(ks[i], ss[i])
    ensures SameFields(ws[0].c, ws[n].c)
  {
    hide Outcome, Quiet, W.Begins, EnvOk, Inv, Ready, W.Happened, DoneTo, W.ConsoleEvent;
    if n > 0 {
      QuietRun(e, ks, ss, ws, a0, a, n - 1);
      KernelsCalm(ws, Kernels(ss), n - 1);
      W.ConsoleAt(e, ws, Kernels(ss), a0, n - 1);
      assert ws[n - 1].k == ks[n - 1] && Quiet(ks[n - 1], ss[n - 1]);
      QuietStep(e, ws[n - 1], ss[n - 1]);
    }
  }

  lemma KernelsCalm(ws: seq<Sys>, es: seq<Event>, n: nat)
    requires |ws| == |es| + 1 && n <= |es| && forall i | 0 <= i < |es| :: es[i].Kernel?
    ensures W.Calm(ws, es, n)
  {
  }

  /** Quiet steps from boot: the console is as it was, but for video memory. */
  lemma QuietTrail(e: Env, k: State, c: Console, tr: Traces.Trail, s: Traces.Pids) returns (ws: seq<Sys>, a: Calls)
    requires EnvOk(e) && Booted(e, k) && Good(c) && Traces.Reaches(e, tr, s) && AllPlain(e, tr.ks, tr.ss)
    requires tr.ks[0] == k && AllQuiet(tr)
    ensures Lifts(e, tr.ks, tr.ss, ws, a) && ws[0] == Sys(k, c) && SameFields(c, ws[|tr.ss|].c)
  {
    ws, a := LiftTrail(e, k, c, tr, s);
    hide EnvOk, Good, Booted, Traces.Reaches, AllPlain, Quiet, Inv, W.Happened, W.Begins;
    W.BootBegins(e, k, c);
    QuietRun(e, tr.ks, tr.ss, ws, Start(k), a, |tr.ss|);
  }

  /** The run ends with the hardware cursor away from the displayed terminal's. */
  ghost predicate EndsLagging(e: Env, ws: seq<Sys>, es: seq<Event>)
    requires EnvOk(e)
  {
    W.Run(e, ws, es) && Good(ws[|es|].c) && !CsrShown(ws[|es|].c)
  }

  /** From every boot, with the hardware cursor anywhere but at the bottom left, there is a run that
      fills the table and leaves the hardware cursor behind. */
  lemma LagRun(e: Env, k: State, c: Console)
    requires EnvOk(e) && Booted(e, k) && Good(c) && CsrShown(c) && c.cur == 0 && c.csr != COLS * (ROWS - 1)
    ensures exists ws, es :: EndsLagging(e, ws, es) && ws[0] == Sys(k, c)
  {
    hide Booted, EnvOk, Good, W.Happened, Traces.Reaches, AllPlain, AllQuiet, Inv, EndsLagging;
    var tr := FillTrail(e, k);
    var ws, a := QuietTrail(e, k, c, tr, B2);
    Traces.Reached(e, tr, B2);
    AllTaken(e, tr);
    FullMoves();
    assert ws[|tr.ss|].k == tr.ks[|tr.ss|];
    ReachedShells(e, tr, B2);
    var ws', es' := FullEnd(e, ws, Kernels(tr.ss), a);
    assert EndsLagging(e, ws', es') && ws'[0] == Sys(k, c);
  }

  lemma ReachedShells(e: Env, tr: Traces.Trail, s: Traces.Pids)
    requires EnvOk(e) && Traces.Reaches(e, tr, s)
    ensures tr.ks[|tr.ss|].shells == 3
  {
  }

  lemma FullEnd(e: Env, ws: seq<Sys>, es: seq<Event>, a: Calls) returns (ws': seq<Sys>, es': seq<Event>)
    requires EnvOk(e) && W.Run(e, ws, es) && Inv(e, ws[|es|], a)
    requires var w := ws[|es|];
      && CsrShown(w.c) && w.c.cur == 0 && w.c.csr != COLS * (ROWS - 1)
      && Current(w.k) == 5 && w.k.pcbs[5].terminal == 0 && w.k.shells == 3 && FirstFree(w.k.used, 0) == MAX_USER_PROG
    ensures EndsLagging(e, ws', es') && |ws'| > 0 && ws'[0] == ws[0]
  {
    hide Refines, DirsOk, EnvOk, Outcome, Ready, W.Happened, Agree;
    var w := ws[|es|];
    var s := FullStep(e, w, a);
    P.MessageLags(w.c);
    assert [P.Printed(0, P.FULL_MESSAGE)][..0] == [];
    RunSnoc(e, ws, es, Kernel(s));
    ws', es' := ws + [Outcome(e, w, Kernel(s))], es + [Kernel(s)];
  }

  /** A call of execute when the table is full. */
  lemma FullStep(e: Env, w: Sys, a: Calls) returns (s: Step)
    requires EnvOk(e) && Inv(e, w, a) && Current(w.k) == 5 && w.k.pcbs[5].terminal == 0 && w.k.shells == 3
    requires FirstFree(w.k.used, 0) == MAX_USER_PROG
    ensures Ready(e, w, Kernel(s)) && Outcome(e, w, Kernel(s)).c == PrintBy(w.c, 0, P.FULL_MESSAGE)
  {
    hide Linked, DirsOk, EnvOk, Good, MemoryAt, PrintBy, Traces.OwnPage, Reading;
    s := Exec(Regs(Esp0(5), 0), Traces.NoResidue(), LostSlots.UNMAPPED, LostSlots.NOTHING);
    CurPcbIsOwner(Esp0(5), 5);
    LostSlots.FetchesNothing(e, w.k);
    LostSlots.NothingBreaks(e);
    NoMemory(e, w, a);
    RunningIsReady(e, w, a, Kernel(s));
  }

  lemma NoMemory(e: Env, w: Sys, a: Calls)
    requires EnvOk(e) && Inv(e, w, a)
    ensures Shape(w.k) && MemoryAt(e, w, LostSlots.UNMAPPED) == LostSlots.NOTHING
  {
    hide Linked, EnvOk, Agree, DirsOk, Walk;
    forall i | 0 <= i < LINE_BUF_SIZE ensures MemoryAt(e, w, LostSlots.UNMAPPED)[i] == None {
      assert (LostSlots.UNMAPPED + i) % (ENTRIES * MB4) == LostSlots.UNMAPPED + i;
      LostSlots.NothingThere(e, w.k, w.k.cr3, LostSlots.UNMAPPED + i);
    }
  }

  // ----- page faults

  /** The running process reads at an address that is not mapped. */
  lemma CrashStep(e: Env, w: Sys, a: Calls) returns (ev: Event)
    requires EnvOk(e) && Inv(e, w, a) && w.k.shells == 3
    ensures ev.Crash? && Ready(e, w, ev) && Outcome(e, w, ev).c == FaultBy(w.c, MyTerm(w), LostSlots.UNMAPPED, 0)
  {
    hide Linked, DirsOk, EnvOk, Good, FaultBy, Next;
    RefinesTables(w.k, a);
    CurPcbIsOwner(Esp0(Current(w.k)), Current(w.k));
    ev := Crash(Exit(Regs(Esp0(Current(w.k)), 0), Traces.NoResidue(), KILLED), LostSlots.UNMAPPED, true, false, 0);
    NoReading(e, w, a);
    RunningIsReady(e, w, a, ev);
  }

  lemma NoReading(e: Env, w: Sys, a: Calls)
    requires EnvOk(e) && Inv(e, w, a)
    ensures Shape(w.k) && NoAccess(e, w, LostSlots.UNMAPPED, true, false)
  {
    hide Linked, EnvOk, Agree, DirsOk, Processes.UserEntry, PageOf;
    UserMemory.RunningMapped(w.k, a);
    ProgramReaches(e, w.k, w.k.cr3, LostSlots.UNMAPPED, false);
  }

  /** The last event is the run's only one that is not a tick, a page fault. */
  ghost predicate OneFault(es: seq<Event>) {
    && |es| > 0 && es[|es| - 1].Crash?
    && forall i | 0 <= i < |es| - 1 :: es[i].Kernel? && es[i].step.Tick?
  }

  /** From every boot, unless the message happens to end at the bottom left, there is a run of ticks
      and one page fault on the displayed terminal that leaves the hardware cursor behind. */
  lemma FaultLagRun(e: Env, k: State, c: Console)
    requires EnvOk(e) && Booted(e, k) && Good(c) && c.cur == 0
    requires FaultCursor(c, 0, LostSlots.UNMAPPED, 0) != (0, ROWS - 1)
    ensures exists ws, es :: EndsLagging(e, ws, es) && OneFault(es) && ws[0] == Sys(k, c)
  {
    hide Booted, EnvOk, W.Happened, AllPlain, Inv, Agree, FaultBy, FaultHead, CursorAfter;
    var ws, es, a := TicksToA2(e, k, c);
    var w := ws[|es|];
    var ev := CrashStep(e, w, a);
    FaultExact(w.c, 0, LostSlots.UNMAPPED, 0);
    RunSnoc(e, ws, es, ev);
    var ws', es' := ws + [Outcome(e, w, ev)], es + [ev];
    assert EndsLagging(e, ws', es') && OneFault(es') && ws'[0] == Sys(k, c);
  }

  lemma TicksToA2(e: Env, k: State, c: Console) returns (ws: seq<Sys>, es: seq<Event>, a: Calls)
    requires EnvOk(e) && Booted(e, k) && Good(c)
    ensures W.Run(e, ws, es) && ws[0] == Sys(k, c) && Inv(e, ws[|es|], a) && SameFields(c, ws[|es|].c)
    ensures ws[|es|].k.shells == 3 && Systems.Shaped(ws[|es|]) && MyTerm(ws[|es|]) == 0
    ensures forall i | 0 <= i < |es| :: es[i].Kernel? && es[i].step.Tick?
  {
    FullMoves();
    hide Traces.Leads, Booted, EnvOk, Next, Defined, Traces.OwnPage, W.Happened, Linked, DirsOk;
    var tr := BootPlain(e, k);
    var mid;
    mid, tr := GoPlain(e, tr, Traces.SHELLS, Traces.T, A2);
    assert forall i | 0 <= i < |tr.ss| :: tr.ss[i].Tick?;
    assert AllQuiet(tr);
    ws, a := QuietTrail(e, k, c, tr, A2);
    Traces.Reached(e, tr, A2);
    es := Kernels(tr.ss);
    assert ws[|es|].k == tr.ks[|tr.ss|];
  }

  /** The run ends with the displayed terminal's cursor moved by another's page fault, and its line
      out of Backspace's bounds. */
  ghost predicate EndsSpoiled(e: Env, ws: seq<Sys>, es: seq<Event>, c: Console)
    requires EnvOk(e)
  {
    && W.Run(e, ws, es) && OneFault(es) && Consoles.Shaped(c) && Consoles.Shaped(ws[|es|].c)
    && var was, now := c.terms[c.cur], ws[|es|].c.terms[c.cur];
    && now == was.(x := now.x, y := now.y) && COLS * now.y + now.x < now.index && !Good(ws[|es|].c)
  }

  /** From every boot with 35 characters or more typed on the displayed terminal, and an empty screen
      behind it, there is a run of ticks and one page fault on a hidden terminal that spoils the
      line. */
  lemma FaultSpillRun(e: Env, k: State, c: Console)
    requires EnvOk(e) && Booted(e, k) && Good(c) && c.cur == 0
    requires c.terms[2].x == c.terms[2].y == 0 && c.terms[0].index > 34
    ensures exists ws, es :: EndsSpoiled(e, ws, es, c) && ws[0] == Sys(k, c)
  {
    hide Booted, EnvOk, W.Happened, AllPlain, Inv, Agree, FaultBy, FaultHead, CursorAfter;
    var ws, es, a := TicksToShells(e, k, c);
    var w := ws[|es|];
    var ev := CrashStep(e, w, a);
    FaultTerms(w.c, 2, LostSlots.UNMAPPED, 0);
    FaultExact(w.c, 2, LostSlots.UNMAPPED, 0);
    TopRow(w.c, 2, LostSlots.UNMAPPED, 0);
    RunSnoc(e, ws, es, ev);
    var ws', es' := ws + [Outcome(e, w, ev)], es + [ev];
    assert EndsSpoiled(e, ws', es', c) && ws'[0] == Sys(k, c);
  }

  lemma TicksToShells(e: Env, k: State, c: Console) returns (ws: seq<Sys>, es: seq<Event>, a: Calls)
    requires EnvOk(e) && Booted(e, k) && Good(c)
    ensures W.Run(e, ws, es) && ws[0] == Sys(k, c) && Inv(e, ws[|es|], a) && SameFields(c, ws[|es|].c)
    ensures ws[|es|].k.shells == 3 && Systems.Shaped(ws[|es|]) && MyTerm(ws[|es|]) == 2
    ensures forall i | 0 <= i < |es| :: es[i].Kernel? && es[i].step.Tick?
  {
    hide Booted, EnvOk, Next, Defined, Traces.OwnPage, W.Happened, Linked, DirsOk;
    var tr := BootPlain(e, k);
    assert AllQuiet(tr);
    ws, a := QuietTrail(e, k, c, tr, Traces.SHELLS);
    Traces.Reached(e, tr, Traces.SHELLS);
    es := Kernels(tr.ss);
    assert ws[|es|].k == tr.ks[|tr.ss|];
  }
}
