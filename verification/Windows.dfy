/** Whose screen a program draws on, on every run of processes, keys and switches: exactly when it
    is its own terminal's, and what each terminal then shows. */
module Windows {
  import opened Machine
  import opened Paging
  import opened Processes
  import opened CallStacks
  import opened Lifecycle
  import opened Directories
  import opened Runs
  import opened Screens
  import opened Terminals
  import opened Consoles
  import opened FaultMessages
  import opened Systems
  import P = Projection
  import UserMemory

  ghost predicate Happened(e: Env, w: Sys, ev: Event, w': Sys)
    requires EnvOk(e)
  {
    Can(e, w, ev) && (Ready(e, w, ev) ==> w' == Outcome(e, w, ev))
  }

  /** A run: ws[i] becomes ws[i + 1] by event es[i]. */
  ghost predicate Run(e: Env, ws: seq<Sys>, es: seq<Event>)
    requires EnvOk(e)
  {
    |ws| == |es| + 1 && forall i | 0 <= i < |es| :: Happened(e, ws[i], es[i], ws[i + 1])
  }

  lemma RunShape(e: Env, ws: seq<Sys>, es: seq<Event>)
    requires EnvOk(e) && Run(e, ws, es)
    ensures |ws| == |es| + 1
  {
  }

  /** No page fault among the first n events moves the displayed cursor too far up for its line. */
  ghost predicate Calm(ws: seq<Sys>, es: seq<Event>, n: nat)
    requires |ws| == |es| + 1 && n <= |es|
  {
    forall i | 0 <= i < n :: Systems.Shaped(ws[i]) ==> Tame(ws[i], es[i])
  }

  /** In order, and no process has a window. */
  ghost predicate Begins(e: Env, w: Sys, a: Calls) {
    Inv(e, w, a) && forall p: Pid :: w.k.dirs[p][VIDEO_PDE] == 0
  }

  lemma BootBegins(e: Env, k: State, c: Console)
    requires EnvOk(e) && Booted(e, k) && Good(c)
    ensures Begins(e, Sys(k, c), Start(k))
  {
    hide Good;
    BootedRefines(e, k);
  }

  // ----- who mapped last

  /** The event is a vidmap of process p that is not refused. */
  ghost predicate Maps(w: Sys, ev: Event, p: Pid) {
    ev.Kernel? && ev.step.Vidmap? && ev.step.ptr >= KERNEL_TOP && Current(w.k) == p && Shape(w.k)
  }

  /** The terminal of the last process with number p to map, in the first n events. */
  ghost function LastMap(ws: seq<Sys>, es: seq<Event>, n: nat, p: Pid): Option<nat>
    requires |ws| == |es| + 1 && n <= |es|
  {
    if n == 0 then None
    else if Maps(ws[n - 1], es[n - 1], p) then Some(ws[n - 1].k.pcbs[p].terminal)
    else LastMap(ws, es, n - 1, p)
  }

  lemma {:induction false} NobodyMapped(ws: seq<Sys>, es: seq<Event>, n: nat, p: Pid)
    requires |ws| == |es| + 1 && n <= |es|
    ensures LastMap(ws, es, n, p) == None <==> forall i | 0 <= i < n :: !Maps(ws[i], es[i], p)
  {
    if n > 0 {
      NobodyMapped(ws, es, n - 1, p);
    }
  }

  ghost predicate AllLook(e: Env, ws: seq<Sys>, es: seq<Event>, n: nat)
    requires |ws| == |es| + 1 && n <= |es|
  {
    Shape(ws[n].k) && forall p: Pid :: LooksAt(e, p, ws[n].k.dirs[p][VIDEO_PDE], LastMap(ws, es, n, p))
  }

  lemma LookStep(e: Env, w: Sys, a: Calls, ev: Event, p: Pid, t: Option<nat>)
    requires EnvOk(e) && Inv(e, w, a) && Ready(e, w, ev) && LooksAt(e, p, w.k.dirs[p][VIDEO_PDE], t)
    ensures Shape(Outcome(e, w, ev).k)
    ensures LooksAt(e, p, Outcome(e, w, ev).k.dirs[p][VIDEO_PDE],
                    if Maps(w, ev, p) then Some(w.k.pcbs[p].terminal) else t)
  {
    hide Next, Good, Linked, DirsOk, VidmapEntry, KernelPart, NoAccess, MemoryAt, Torn, FaultBy, PrintBy;
    if Moves(ev) {
      StepVideoEntry(e, w.k, a, ev.step, p);
    }
  }

  /** In every state reached without such a page fault everything is in order, and each process number's window looks at
      the terminal of the last process of that number to map. */
  lemma {:induction false} Reached(e: Env, ws: seq<Sys>, es: seq<Event>, a0: Calls, n: nat) returns (a: Calls)
    requires EnvOk(e) && Run(e, ws, es) && Begins(e, ws[0], a0) && n <= |es| && Calm(ws, es, n)
    ensures Inv(e, ws[n], a) && AllLook(e, ws, es, n)
  {
    hide Outcome, LooksAt, Refines, DirsOk, Good, EnvOk, Shape;
    if n == 0 {
      a := a0;
      FirstLook(e, ws, es, a0);
    } else {
      var b := Reached(e, ws, es, a0, n - 1);
      var w, ev := ws[n - 1], es[n - 1];
      assert Happened(e, w, ev, ws[n]);
      RunningIsReady(e, w, b, ev);
      a := EventStep(e, w, b, ev, LastMap(ws, es, n - 1, Current(w.k)));
      NextLook(e, ws, es, n, b);
    }
  }

  lemma FirstLook(e: Env, ws: seq<Sys>, es: seq<Event>, a0: Calls)
    requires |ws| == |es| + 1 && Begins(e, ws[0], a0)
    ensures AllLook(e, ws, es, 0)
  {
    hide Linked, DirsOk, Good;
  }

  lemma NextLook(e: Env, ws: seq<Sys>, es: seq<Event>, n: nat, b: Calls)
    requires EnvOk(e) && |ws| == |es| + 1 && 0 < n <= |es| && Inv(e, ws[n - 1], b) && AllLook(e, ws, es, n - 1)
    requires Ready(e, ws[n - 1], es[n - 1]) && ws[n] == Outcome(e, ws[n - 1], es[n - 1])
    ensures AllLook(e, ws, es, n)
  {
    hide Outcome, LooksAt, Refines, DirsOk, Good, EnvOk;
    LookStep(e, ws[n - 1], b, es[n - 1], 0, LastMap(ws, es, n - 1, 0));
    forall p: Pid ensures LooksAt(e, p, ws[n].k.dirs[p][VIDEO_PDE], LastMap(ws, es, n, p)) {
      LookStep(e, ws[n - 1], b, es[n - 1], p, LastMap(ws, es, n - 1, p));
    }
  }

  // ----- windows

  /** On every run, whatever address a program with process number p uses: in the window page it
      gets to the page of the last mapper's terminal, or faults if nobody of that number has ever
      mapped; at every other address it gets to no page of video memory. */
  lemma WindowExact(e: Env, ws: seq<Sys>, es: seq<Event>, a0: Calls, n: nat, p: Pid, addr: nat, write: bool)
    requires EnvOk(e) && Run(e, ws, es) && Begins(e, ws[0], a0) && n <= |es| && addr < ENTRIES * MB4
    requires Calm(ws, es, n)
    ensures Shape(ws[n].k) && Good(ws[n].c)
    ensures LastMap(ws, es, n, p).Some? ==> LastMap(ws, es, n, p).value < TERMINALS
    ensures VideoPage(e, ws[n].k.dirs[p], ws[n].c, addr, write) ==
      if InWindow(addr) && LastMap(ws, es, n, p).Some? then Some(KernelPage(ws[n].c, LastMap(ws, es, n, p).value))
      else None
  {
    hide VideoPage, Linked, DirsOk, Good, VidmapEntry;
    var a := Reached(e, ws, es, a0, n);
    assert LooksAt(e, p, ws[n].k.dirs[p][VIDEO_PDE], LastMap(ws, es, n, p));
    VideoPageIs(e, ws[n].k, ws[n].c, p, LastMap(ws, es, n, p), addr, write);
  }

  /** On every run, at every address, for reading and for writing: the running program gets to its
      own 4MB frame, or through its window to the page of the last mapper's terminal, or faults. */
  lemma EveryAccess(e: Env, ws: seq<Sys>, es: seq<Event>, a0: Calls, n: nat, addr: nat, write: bool)
    requires EnvOk(e) && Run(e, ws, es) && Begins(e, ws[0], a0) && n <= |es| && addr < ENTRIES * MB4
    requires Calm(ws, es, n)
    ensures Systems.Shaped(ws[n])
    ensures var k, p := ws[n].k, Current(ws[n].k);
      var place, page := Walk(k.dirs[k.cr3], addr, true, write), VideoPage(e, k.dirs[k.cr3], ws[n].c, addr, write);
      if USER_MEM_LOCATION <= addr < USER_MEM_LOCATION + MB4 then
        place == Large(MB4 * (USER_FRAME + p) + (addr - USER_MEM_LOCATION)) && page == None
      else if InWindow(addr) && LastMap(ws, es, n, p).Some? then
        LastMap(ws, es, n, p).value < TERMINALS && page == Some(KernelPage(ws[n].c, LastMap(ws, es, n, p).value))
      else !place.Large? && page == None
  {
    hide VideoPage, Refines, DirsOk, Good, Walk, EnvOk, Run, Begins, Calm, LastMap, InWindow, KernelPage, AllLook;
    RunShape(e, ws, es);
    var a := Reached(e, ws, es, a0, n);
    RunningIsReady(e, ws[n], a, Switch(0));
    OwnDirectory(e, ws[n], a);
    UserMemory.ProgramWalk(e, ws[n].k, Running(a), addr, write);
    WindowExact(e, ws, es, a0, n, Running(a), addr, write);
    PageIsNoWindow(addr);
  }

  lemma OwnDirectory(e: Env, w: Sys, a: Calls)
    requires Inv(e, w, a)
    ensures Shape(w.k) && Live(a) && DirsOk(e, w.k) && UserMemory.Mapped(w.k, Running(a))
  {
    hide Linked, DirsOk, Good;
    UserMemory.RunningMapped(w.k, a);
  }

  lemma PageIsNoWindow(addr: nat)
    ensures InWindow(addr) ==> addr >= USER_MEM_LOCATION + MB4
  {
  }

  ghost predicate UsedIn(w: Sys, p: Pid) {
    Shape(w.k) && w.k.used[p]
  }

  /** Process p maps in event i and is not gone by the n-th state. */
  ghost predicate MapsAndStays(ws: seq<Sys>, es: seq<Event>, i: nat, n: nat, p: Pid)
    requires |ws| == |es| + 1 && i < n <= |es|
  {
    Maps(ws[i], es[i], p) && forall j | i <= j <= n :: UsedIn(ws[j], p)
  }

  lemma SameTerminal(e: Env, w: Sys, a: Calls, ev: Event, p: Pid)
    requires EnvOk(e) && Inv(e, w, a) && Ready(e, w, ev) && UsedIn(w, p) && UsedIn(Outcome(e, w, ev), p)
    ensures Outcome(e, w, ev).k.pcbs[p].terminal == w.k.pcbs[p].terminal
  {
    hide Next, Linked, DirsOk, Good, KernelPart, NoAccess, MemoryAt, Torn, FaultBy, PrintBy;
    if Moves(ev) {
      StepTerminal(e, w.k, a, ev.step, p);
    }
  }

  /** Since its own vidmap a process is the last of its number to have mapped. */
  lemma {:induction false} MappedItself(e: Env, ws: seq<Sys>, es: seq<Event>, a0: Calls, i: nat, n: nat, p: Pid)
    requires EnvOk(e) && Run(e, ws, es) && Begins(e, ws[0], a0) && i < n <= |es| && MapsAndStays(ws, es, i, n, p)
    requires Calm(ws, es, n)
    ensures UsedIn(ws[n], p) && LastMap(ws, es, n, p) == Some(ws[n].k.pcbs[p].terminal)
    decreases n
  {
    hide Outcome, Refines, DirsOk, Good, EnvOk, Shape;
    assert UsedIn(ws[n], p) && UsedIn(ws[n - 1], p);
    if n - 1 > i {
      MappedItself(e, ws, es, a0, i, n - 1, p);
    }
    var b := Reached(e, ws, es, a0, n - 1);
    assert Happened(e, ws[n - 1], es[n - 1], ws[n]);
    RunningIsReady(e, ws[n - 1], b, es[n - 1]);
    SameTerminal(e, ws[n - 1], b, es[n - 1], p);
  }

  /** A vidmap lasts: through every later switch, call and draw, until the process exits, its
      window is the page the kernel prints its own terminal on. */
  lemma WindowLasts(e: Env, ws: seq<Sys>, es: seq<Event>, a0: Calls, i: nat, n: nat, p: Pid)
    requires EnvOk(e) && Run(e, ws, es) && Begins(e, ws[0], a0) && i < n <= |es| && MapsAndStays(ws, es, i, n, p)
    requires Calm(ws, es, n)
    ensures Shape(ws[n].k) && Good(ws[n].c) && ws[n].k.pcbs[p].terminal < TERMINALS
    ensures VideoPage(e, ws[n].k.dirs[p], ws[n].c, USER_VIDEO, true) ==
      Some(KernelPage(ws[n].c, ws[n].k.pcbs[p].terminal))
  {
    hide VideoPage, Maps;
    MappedItself(e, ws, es, a0, i, n, p);
    WindowExact(e, ws, es, a0, n, p, USER_VIDEO, true);
  }

  /** A running process's window is its own terminal's screen if and only if it has mapped since it
      started or the last process of its number to map was on the same terminal; and it has no
      window if and only if nobody of its number has ever mapped. */
  lemma OwnWindowExact(e: Env, ws: seq<Sys>, es: seq<Event>, a0: Calls, n: nat, p: Pid)
    requires EnvOk(e) && Run(e, ws, es) && Begins(e, ws[0], a0) && n <= |es| && UsedIn(ws[n], p)
    requires Calm(ws, es, n)
    ensures Good(ws[n].c) && ws[n].k.pcbs[p].terminal < TERMINALS
    ensures var own, page := ws[n].k.pcbs[p].terminal, VideoPage(e, ws[n].k.dirs[p], ws[n].c, USER_VIDEO, true);
      && (page == Some(KernelPage(ws[n].c, own)) <==>
            (exists i | 0 <= i < n :: MapsAndStays(ws, es, i, n, p)) || LastMap(ws, es, n, p) == Some(own))
      && (page == None <==> forall i | 0 <= i < n :: !Maps(ws[i], es[i], p))
  {
    hide VideoPage, Maps, Refines, DirsOk;
    var own := ws[n].k.pcbs[p].terminal;
    WindowExact(e, ws, es, a0, n, p, USER_VIDEO, true);
    var a := Reached(e, ws, es, a0, n);
    UsedTerminal(ws[n].k, a, p);
    NobodyMapped(ws, es, n, p);
    forall i | 0 <= i < n && MapsAndStays(ws, es, i, n, p) ensures LastMap(ws, es, n, p) == Some(own) {
      MappedItself(e, ws, es, a0, i, n, p);
    }
    if LastMap(ws, es, n, p).Some? {
      PagesDiffer(ws[n].c, own, LastMap(ws, es, n, p).value);
    }
  }

  lemma UsedTerminal(k: State, a: Calls, p: Pid)
    requires Refines(k, a) && k.used[p]
    ensures k.pcbs[p].terminal < TERMINALS
  {
    assert SlotOk(k, a, p);
  }

  lemma PagesDiffer(c: Console, t: nat, u: nat)
    requires Good(c) && t < TERMINALS && u < TERMINALS
    ensures KernelPage(c, t) == KernelPage(c, u) <==> t == u
  {
    P.UserPage(c, t);
    P.UserPage(c, u);
  }

  /** What vidmap is for: the address it stores for its caller is one at which the caller's stores land
      on the page the kernel prints the caller's terminal on. */
  lemma VidmapWorks(e: Env, w: Sys, a: Calls, s: Step)
    requires EnvOk(e) && Inv(e, w, a) && Ready(e, w, Kernel(s)) && s.Vidmap? && s.ptr >= KERNEL_TOP
    ensures var w' := Outcome(e, w, Kernel(s));
      && Systems.Shaped(w') && MyTerm(w') == MyTerm(w) && w'.c == w.c
      && var told := UserMemory.PointerAt(w'.k, s.ptr);
      && told.Some? && told.value < ENTRIES * MB4
      && VideoPage(e, w'.k.dirs[w'.k.cr3], w'.c, told.value, true) == Some(KernelPage(w'.c, MyTerm(w')))
  {
    hide VideoPage, Linked, DirsOk, Good, VidmapEntry, KernelPage, EnvOk, UserMemory.PointerAt, Next;
    UserMemory.VidmapTells(e, w.k, a, s);
    KernelKeeps(e, w.k, a, s);
    var w', a' := Outcome(e, w, Kernel(s)), NextCalls(e, a, s);
    var p: Pid := Running(a);
    RefinesTables(w.k, a);
    RunningStays(e, w.k, a, s);
    StepVideoEntry(e, w.k, a, s, p);
    RunningIsReady(e, w', a', Switch(0));
    VideoPageIs(e, w'.k, w'.c, p, Some(MyTerm(w)), USER_VIDEO, true);
  }

  lemma RunningStays(e: Env, k: State, a: Calls, s: Step)
    requires EnvOk(e) && Refines(k, a) && Enabled(k, s) && s.Vidmap?
    ensures Defined(k, s) && NextCalls(e, a, s) == a && Current(Next(e, k, s)) == Current(k) == Running(a)
    ensures k.pcbs[Running(a)].terminal < TERMINALS
    ensures Next(e, k, s).pcbs[Running(a)].terminal == k.pcbs[Running(a)].terminal
  {
    hide VidmapEntry, EnvOk, Linked;
    Caller(k, a, s);
    RefinesTables(k, a);
  }

  // ----- what the terminals show

  /** Event i as an event of the console. */
  ghost function ConsoleEvent(ws: seq<Sys>, es: seq<Event>, i: nat): Option<P.Event>
    requires |ws| == |es| + 1 && i < |es|
  {
    if Systems.Shaped(ws[i]) && (es[i].Kernel? ==> Defined(ws[i].k, es[i].step))
    then EventOf(ws[i], es[i], LastMap(ws, es, i, Current(ws[i].k))) else None
  }

  ghost function ConsoleEvents(ws: seq<Sys>, es: seq<Event>, n: nat): seq<P.Event>
    requires |ws| == |es| + 1 && n <= |es|
  {
    if n == 0 then []
    else
      var x := ConsoleEvent(ws, es, n - 1);
      ConsoleEvents(ws, es, n - 1) + if x.Some? then [x.value] else []
  }

  lemma ConsoleAt(e: Env, ws: seq<Sys>, es: seq<Event>, a0: Calls, i: nat)
    requires EnvOk(e) && Run(e, ws, es) && Begins(e, ws[0], a0) && i < |es| && Calm(ws, es, i)
    ensures Ready(e, ws[i], es[i]) && ws[i + 1] == Outcome(e, ws[i], es[i])
    ensures DoneTo(ws[i].c, ConsoleEvent(ws, es, i), ws[i + 1].c)
    ensures Good(ws[i + 1].c) <==> Tame(ws[i], es[i])
  {
    hide Outcome, LooksAt, Refines, DirsOk, Good, EnvOk, Shape, DoneTo, EventOf, Can, Defined, Tame;
    var b := Reached(e, ws, es, a0, i);
    var w, ev := ws[i], es[i];
    assert Happened(e, w, ev, ws[i + 1]);
    RunningIsReady(e, w, b, ev);
    var a := EventStep(e, w, b, ev, LastMap(ws, es, i, Current(w.k)));
  }

  /** The console stays in order up to the n-th state if and only if each page fault before it leaves
      the displayed line within reach. */
  lemma {:induction false} CalmExact(e: Env, ws: seq<Sys>, es: seq<Event>, a0: Calls, n: nat)
    requires EnvOk(e) && Run(e, ws, es) && Begins(e, ws[0], a0) && n <= |es|
    ensures Calm(ws, es, n) <==> forall i | 0 <= i <= n :: Good(ws[i].c)
  {
    hide Outcome, Refines, DirsOk, Good, EnvOk, Shape, Ready, Tame, Happened;
    if n > 0 {
      CalmExact(e, ws, es, a0, n - 1);
      if Calm(ws, es, n - 1) {
        ConsoleAt(e, ws, es, a0, n - 1);
        assert Systems.Shaped(ws[n - 1]) by { ReadyShaped(e, ws[n - 1], es[n - 1]); }
      }
    }
  }

  lemma ReadyShaped(e: Env, w: Sys, ev: Event)
    requires Ready(e, w, ev)
    ensures Systems.Shaped(w)
  {
  }

  lemma FitsWell(ws: seq<Sys>, es: seq<Event>, i: nat)
    requires |ws| == |es| + 1 && i < |es| && Systems.Shaped(ws[i])
    requires var x := ConsoleEvent(ws, es, i); x.Some? && P.Enabled(x.value)
    ensures P.Fits(ws[i].c, ConsoleEvent(ws, es, i).value) <==> Tame(ws[i], es[i])
  {
    hide Good, Shape, EventOf, Tame, P.Fits, Defined;
    TameFits(ws[i], es[i], LastMap(ws, es, i, Current(ws[i].k)));
  }

  /** The console of a run is the console its events alone would give. */
  lemma {:induction false} ConsoleRun(e: Env, ws: seq<Sys>, es: seq<Event>, a0: Calls, n: nat)
    requires EnvOk(e) && Run(e, ws, es) && Begins(e, ws[0], a0) && n <= |es| && Calm(ws, es, n)
    ensures Good(ws[0].c) && P.Legal(ws[0].c, ConsoleEvents(ws, es, n))
    ensures ws[n].c == P.Run(ws[0].c, ConsoleEvents(ws, es, n))
  {
    hide Outcome, LooksAt, Refines, DirsOk, EnvOk, Shape, ConsoleEvent, P.Happens, P.Enabled, P.Fits, Agree, Tame, Can;
    if n > 0 {
      ConsoleRun(e, ws, es, a0, n - 1);
      ConsoleAt(e, ws, es, a0, n - 1);
      var pre, x := ConsoleEvents(ws, es, n - 1), ConsoleEvent(ws, es, n - 1);
      if x.Some? {
        FitsWell(ws, es, n - 1);
        P.RunSnoc(ws[0].c, pre, x.value);
      } else {
        assert ConsoleEvents(ws, es, n) == pre;
      }
    }
  }

  /** On every run each terminal shows what the console's events did to it: its own, the draws that
      stray to it, and the moves of its cursor by page faults elsewhere. */
  lemma TerminalsShow(e: Env, ws: seq<Sys>, es: seq<Event>, a0: Calls, n: nat, t: nat)
    requires EnvOk(e) && Run(e, ws, es) && Begins(e, ws[0], a0) && n <= |es| && Calm(ws, es, n) && t < TERMINALS
    ensures Good(ws[0].c) && P.Legal(ws[0].c, ConsoleEvents(ws, es, n)) && Good(ws[n].c)
    ensures Proj(ws[n].c, t) == ApplyAll(Proj(ws[0].c, t), P.OpsFor(ws[0].c, ConsoleEvents(ws, es, n), t))
  {
    hide Refines, DirsOk, EnvOk, ConsoleEvents, P.Run, P.OpsFor, P.Legal, Calm;
    ConsoleRun(e, ws, es, a0, n);
    P.TerminalsAreIndependent(ws[0].c, ConsoleEvents(ws, es, n), t);
  }

  /** The terminal an event of the system is for, by the process table alone, and what it does
      there: a key is for the displayed terminal, everything else for the running program's. */
  ghost function Own(ws: seq<Sys>, es: seq<Event>, i: nat): Option<(nat, Op)>
    requires |ws| == |es| + 1 && i < |es|
  {
    var x := ConsoleEvent(ws, es, i);
    if x.None? then None
    else
      var aim := P.Aim(ws[i].c.cur, x.value);
      if x.value.Drew? then Some((MyTerm(ws[i]), aim.value.1)) else aim
  }

  /** Which terminal an event is for and what it does there: a key acts on the displayed terminal, and a
      read, a write, an exception's message, the message of a full table and a draw on that of the
      running process; every other event is for none. */
  lemma OwnExact(e: Env, ws: seq<Sys>, es: seq<Event>, i: nat)
    requires |ws| == |es| + 1 && i < |es| && Ready(e, ws[i], es[i])
    ensures var w, ev := ws[i], es[i];
      Own(ws, es, i) ==
        if ev.Press? then Some((w.c.cur, ev.key))
        else if ev.WriteCall? then Some((MyTerm(w), Write(ev.text)))
        else if ev.ReadCall? then Some((MyTerm(w), Read(ev.count)))
        else if ev.Crash? then Some((MyTerm(w), Write(FaultText(ev.addr, ev.eec))))
        else if ev.Trap? then Some((MyTerm(w), Write(TrapText(ev.vector))))
        else if ev.Kernel? && Complains(w.k, ev.step) then Some((MyTerm(w), Write(P.FULL_MESSAGE)))
        else if ev.Kernel? && ev.step.Poke? && InWindow(ev.step.addr) && LastMap(ws, es, i, Current(w.k)).Some?
        then Some((MyTerm(w), Op.Draw(ev.step.addr - USER_VIDEO, ev.step.value)))
        else None
  {
    hide Good, Shape, LastMap, TrapText, FaultText, Can, Enabled;
  }

  ghost function OwnOps(ws: seq<Sys>, es: seq<Event>, n: nat, t: nat): seq<Op>
    requires |ws| == |es| + 1 && n <= |es|
  {
    if n == 0 then []
    else
      var own := Own(ws, es, n - 1);
      OwnOps(ws, es, n - 1, t) + if own.Some? && own.value.0 == t then [own.value.1] else []
  }

  /** Event i stores on the page the kernel prints another terminal on than the storing program's. */
  ghost predicate Strays(e: Env, ws: seq<Sys>, es: seq<Event>, i: nat)
    requires |ws| == |es| + 1 && i < |es|
  {
    var w := ws[i];
    && Systems.Shaped(w) && es[i].Kernel? && es[i].step.Poke? && es[i].step.addr < ENTRIES * MB4
    && exists u | 0 <= u < TERMINALS && u != MyTerm(w) ::
         PageAt(e, w.k.dirs[w.k.cr3], w.c, es[i].step.addr, es[i].step.user, true) == Some(KernelPage(w.c, u))
  }

  /** Where a store of event i goes. */
  lemma StorePage(e: Env, ws: seq<Sys>, es: seq<Event>, a0: Calls, i: nat)
    requires EnvOk(e) && Run(e, ws, es) && Begins(e, ws[0], a0) && i < |es| && Calm(ws, es, i)
    requires es[i].Kernel? && es[i].step.Poke?
    ensures Systems.Shaped(ws[i]) && es[i].step.addr < ENTRIES * MB4
    ensures var p, w := Current(ws[i].k), ws[i];
      && (LastMap(ws, es, i, p).Some? ==> LastMap(ws, es, i, p).value < TERMINALS)
      && PageAt(e, w.k.dirs[w.k.cr3], w.c, es[i].step.addr, es[i].step.user, true) ==
           if InWindow(es[i].step.addr) && LastMap(ws, es, i, p).Some?
           then Some(KernelPage(w.c, LastMap(ws, es, i, p).value)) else None
  {
    hide PageAt, Refines, DirsOk, Good, Outcome, InWindow, KernelPage;
    var b := Reached(e, ws, es, a0, i);
    assert Happened(e, ws[i], es[i], ws[i + 1]);
    RunningIsReady(e, ws[i], b, es[i]);
    var w, p, s := ws[i], Current(ws[i].k), es[i].step;
    WindowExact(e, ws, es, a0, i, p, s.addr, true);
    if !s.user {
      assert LooksAt(e, p, w.k.dirs[p][VIDEO_PDE], LastMap(ws, es, i, p));
      CallerPage(e, w.k, w.c, p, LastMap(ws, es, i, p), s.addr, true);
    }
  }

  lemma StraysIf(e: Env, ws: seq<Sys>, es: seq<Event>, i: nat, last: Option<nat>)
    requires |ws| == |es| + 1 && i < |es| && Systems.Shaped(ws[i])
    requires es[i].Kernel? && es[i].step.Poke? && es[i].step.addr < ENTRIES * MB4
    requires last.Some? ==> last.value < TERMINALS
    requires var w, s := ws[i], es[i].step;
      PageAt(e, w.k.dirs[w.k.cr3], w.c, s.addr, s.user, true) ==
        if InWindow(s.addr) && last.Some? then Some(KernelPage(w.c, last.value)) else None
    ensures Strays(e, ws, es, i) <==> InWindow(es[i].step.addr) && last.Some? && last.value != MyTerm(ws[i])
  {
    hide PageAt, Agree, Shape, InWindow, KernelPage, TermOk;
    if last.Some? {
      forall u | 0 <= u < TERMINALS
        ensures KernelPage(ws[i].c, u) == KernelPage(ws[i].c, last.value) <==> u == last.value
      {
        PagesDiffer(ws[i].c, u, last.value);
      }
    }
  }

  /** By the last mapper alone. */
  lemma StraysByMap(e: Env, ws: seq<Sys>, es: seq<Event>, a0: Calls, i: nat)
    requires EnvOk(e) && Run(e, ws, es) && Begins(e, ws[0], a0) && i < |es| && Calm(ws, es, i)
    ensures Ready(e, ws[i], es[i]) && Systems.Shaped(ws[i])
    ensures var last := LastMap(ws, es, i, Current(ws[i].k));
      Strays(e, ws, es, i) <==>
        && es[i].Kernel? && es[i].step.Poke? && InWindow(es[i].step.addr)
        && last.Some? && last.value != MyTerm(ws[i])
  {
    hide Begins, Outcome, Good, EnvOk, Shape, PageAt, InWindow, KernelPage, Ready, Calm, Happened, LastMap, Defined;
    ConsoleAt(e, ws, es, a0, i);
    ReadyShaped(e, ws[i], es[i]);
    if es[i].Kernel? && es[i].step.Poke? {
      StorePage(e, ws, es, a0, i);
      StraysIf(e, ws, es, i, LastMap(ws, es, i, Current(ws[i].k)));
    }
  }

  /** A store strays if and only if it is in the window page, the program has not mapped since it
      started, and the last process of its number to map was on another terminal. */
  lemma StraysExact(e: Env, ws: seq<Sys>, es: seq<Event>, a0: Calls, i: nat)
    requires EnvOk(e) && Run(e, ws, es) && Begins(e, ws[0], a0) && i < |es| && Calm(ws, es, i)
    ensures Systems.Shaped(ws[i])
    ensures var p := Current(ws[i].k);
      Strays(e, ws, es, i) <==>
        && es[i].Kernel? && es[i].step.Poke? && InWindow(es[i].step.addr)
        && !(exists j | 0 <= j < i :: MapsAndStays(ws, es, j, i, p))
        && LastMap(ws, es, i, p).Some? && LastMap(ws, es, i, p).value != MyTerm(ws[i])
  {
    hide Maps, Begins, Outcome, Good, EnvOk, Shape, InWindow, Ready, Calm, Happened, LastMap, Strays, UsedIn;
    StraysByMap(e, ws, es, a0, i);
    var p: Pid := Current(ws[i].k);
    forall j | 0 <= j < i && MapsAndStays(ws, es, j, i, p) ensures LastMap(ws, es, i, p) == Some(MyTerm(ws[i])) {
      MappedItself(e, ws, es, a0, j, i, p);
    }
  }

  lemma DrewStrays(e: Env, ws: seq<Sys>, es: seq<Event>, a0: Calls, i: nat)
    requires EnvOk(e) && Run(e, ws, es) && Begins(e, ws[0], a0) && i < |es| && Calm(ws, es, i)
    ensures Systems.Shaped(ws[i])
    ensures var x := ConsoleEvent(ws, es, i);
      x.Some? && x.value.Drew? && x.value.t != MyTerm(ws[i]) <==> Strays(e, ws, es, i)
  {
    hide Begins, EnvOk, Run, Calm, Strays, Ready, Systems.Shaped, ConsoleEvent, LastMap, InWindow;
    RunShape(e, ws, es);
    StraysByMap(e, ws, es, a0, i);
    DrewEvent(e, ws, es, i);
  }

  lemma DrewEvent(e: Env, ws: seq<Sys>, es: seq<Event>, i: nat)
    requires |ws| == |es| + 1 && i < |es| && Ready(e, ws[i], es[i])
    ensures var x, last := ConsoleEvent(ws, es, i), LastMap(ws, es, i, Current(ws[i].k));
      x.Some? && x.value.Drew? && x.value.t != MyTerm(ws[i]) <==>
        && es[i].Kernel? && es[i].step.Poke? && InWindow(es[i].step.addr)
        && last.Some? && last.value != MyTerm(ws[i])
  {
    hide Good, Shape, InWindow, LastMap, Can, Enabled;
  }

  /** A page fault leaves every terminal but its own as it was: its own is displayed, or the
      displayed cursor is where the message's second number ends. */
  ghost predicate Harmless(w: Sys, ev: Event)
    requires Systems.Shaped(w)
  {
    ev.Crash? ==>
      || MyTerm(w) == w.c.cur
      || (w.c.terms[w.c.cur].x, w.c.terms[w.c.cur].y) == FaultCursor(w.c, MyTerm(w), ev.addr, ev.eec)
  }

  ghost predicate AllHarmless(ws: seq<Sys>, es: seq<Event>, n: nat)
    requires |ws| == |es| + 1 && n <= |es|
  {
    forall i | 0 <= i < n :: Systems.Shaped(ws[i]) ==> Harmless(ws[i], es[i])
  }

  lemma HarmlessIsTame(w: Sys, ev: Event)
    requires Systems.Shaped(w) && Harmless(w, ev)
    ensures Tame(w, ev)
  {
    hide FaultCursor, Agree;
    assert TermOk(w.c.terms[w.c.cur]);
  }

  lemma HarmlessIsCalm(ws: seq<Sys>, es: seq<Event>, n: nat)
    requires |ws| == |es| + 1 && n <= |es| && AllHarmless(ws, es, n)
    ensures Calm(ws, es, n)
  {
    hide Systems.Shaped, Harmless, Tame;
    forall i | 0 <= i < n && Systems.Shaped(ws[i]) ensures Tame(ws[i], es[i]) {
      HarmlessIsTame(ws[i], es[i]);
    }
  }

  /** What a harmless event that does not stray does to terminal t is its own operation there. */
  lemma OwnStep(e: Env, ws: seq<Sys>, es: seq<Event>, a0: Calls, i: nat, t: nat)
    requires EnvOk(e) && Run(e, ws, es) && Begins(e, ws[0], a0) && i < |es| && Calm(ws, es, i) && t < TERMINALS
    requires !Strays(e, ws, es, i) && Systems.Shaped(ws[i]) && Harmless(ws[i], es[i])
    requires Good(ws[i + 1].c)
    ensures var own := Own(ws, es, i);
      Proj(ws[i + 1].c, t) ==
        if own.Some? && own.value.0 == t then Apply(Proj(ws[i].c, t), own.value.1) else Proj(ws[i].c, t)
  {
    hide Refines, DirsOk, EnvOk, Outcome, Strays, Good, Calm, Run, Begins, Proj, Apply, Can, Harmless, ConsoleEvent;
    RunShape(e, ws, es);
    ConsoleAt(e, ws, es, a0, i);
    DrewStrays(e, ws, es, a0, i);
    var x, c := ConsoleEvent(ws, es, i), ws[i].c;
    if x.Some? {
      HarmlessIsTame(ws[i], es[i]);
      FitsWell(ws, es, i);
      P.EventProj(c, x.value, t);
      OpIsOwn(ws, es, i, t);
    }
  }

  lemma OpIsOwn(ws: seq<Sys>, es: seq<Event>, i: nat, t: nat)
    requires |ws| == |es| + 1 && i < |es| && t < TERMINALS && Systems.Shaped(ws[i]) && Harmless(ws[i], es[i])
    requires var x := ConsoleEvent(ws, es, i);
      x.Some? && P.Enabled(x.value) && (x.value.Drew? ==> x.value.t == MyTerm(ws[i]))
    ensures var own, op := Own(ws, es, i), P.OpOn(ws[i].c, ConsoleEvent(ws, es, i).value, t);
      if own.Some? && own.value.0 == t then op == Some(own.value.1)
      else op.Some? ==> Apply(Proj(ws[i].c, t), op.value) == Proj(ws[i].c, t)
  {
    hide Agree, Shape, FaultCursor, Cells, FaultText, Defined, LastMap;
  }

  /** On every run without a stray draw, on which every page fault is harmless, each terminal shows
      exactly what its own keys and its own programs did to it. */
  lemma {:induction false} TerminalsAreOwn(e: Env, ws: seq<Sys>, es: seq<Event>, a0: Calls, n: nat, t: nat)
    requires EnvOk(e) && Run(e, ws, es) && Begins(e, ws[0], a0) && n <= |es| && t < TERMINALS
    requires forall i | 0 <= i < n :: !Strays(e, ws, es, i)
    requires AllHarmless(ws, es, n)
    ensures Good(ws[n].c) && Good(ws[0].c)
    ensures Proj(ws[n].c, t) == ApplyAll(Proj(ws[0].c, t), OwnOps(ws, es, n, t))
  {
    hide Begins, EnvOk, Own, Strays, Good, Run, Proj, Apply, Happened, Harmless, Systems.Shaped, AllHarmless, Calm;
    RunShape(e, ws, es);
    GoodThen(e, ws, es, a0, n);
    if n > 0 {
      HarmlessLast(ws, es, n);
      TerminalsAreOwn(e, ws, es, a0, n - 1, t);
      OwnStep(e, ws, es, a0, n - 1, t);
      var own, before := Own(ws, es, n - 1), OwnOps(ws, es, n - 1, t);
      if own.Some? && own.value.0 == t {
        assert (before + [own.value.1])[..|before|] == before;
      } else {
        assert OwnOps(ws, es, n, t) == before;
      }
    }
  }

  lemma HarmlessLast(ws: seq<Sys>, es: seq<Event>, n: nat)
    requires |ws| == |es| + 1 && 0 < n <= |es| && AllHarmless(ws, es, n)
    ensures AllHarmless(ws, es, n - 1)
    ensures Systems.Shaped(ws[n - 1]) ==> Harmless(ws[n - 1], es[n - 1])
  {
  }

  lemma GoodThen(e: Env, ws: seq<Sys>, es: seq<Event>, a0: Calls, n: nat)
    requires EnvOk(e) && Run(e, ws, es) && Begins(e, ws[0], a0) && n <= |es| && AllHarmless(ws, es, n)
    ensures Calm(ws, es, n) && Good(ws[n].c) && Good(ws[0].c)
    ensures n > 0 ==> Calm(ws, es, n - 1) && Systems.Shaped(ws[n - 1])
  {
    hide Begins, EnvOk, Run, Calm, AllHarmless, Good, Systems.Shaped, Ready, Outcome, DoneTo, ConsoleEvent, Tame;
    RunShape(e, ws, es);
    HarmlessIsCalm(ws, es, n);
    CalmExact(e, ws, es, a0, n);
    if n > 0 {
      HarmlessLast(ws, es, n);
      HarmlessIsCalm(ws, es, n - 1);
      ConsoleAt(e, ws, es, a0, n - 1);
      ReadyShaped(e, ws[n - 1], es[n - 1]);
    }
  }

  /** An exception ends the program with status 255, unless it is execute's on its command, which ends it
      the same way behind a lost slot, after a message on its own terminal: the text of the
      exception, or for a page fault its address and the error code. */
  lemma ExceptionShows(e: Env, w: Sys, a: Calls, ev: Event)
    requires EnvOk(e) && Inv(e, w, a) && Ready(e, w, ev) && (ev.Trap? || ev.Crash?) && Tame(w, ev)
    ensures Outcome(e, w, ev).k == Next(e, w.k, ev.step) && (ev.step.Exit? ==> ev.step.status == 255)
    ensures ev.step.Exit? <==> !Torn(e, w.k, ev.step)
    ensures var c, t := Outcome(e, w, ev).c, MyTerm(w);
      var text := if ev.Trap? then TrapText(ev.vector) else FaultText(ev.addr, ev.eec);
      Good(c) && Proj(c, t) == Apply(Proj(w.c, t), Write(text))
  {
    hide Refines, DirsOk, EnvOk, Agree, TrapText, FaultText, PrintBy, FaultBy, Apply, Proj, Next, FaultFits;
    if ev.Trap? {
      PrintProj(w.c, MyTerm(w), TrapText(ev.vector));
    } else {
      FaultProj(w.c, MyTerm(w), ev.addr, ev.eec);
      FaultGood(w.c, MyTerm(w), ev.addr, ev.eec, Outcome(e, w, ev).c);
    }
  }

  /** Where the display has the attribute of the cell for process number p. */
  const STATUS := 2 * (COLS - MAX_USER_PROG) + 1

  /** Green for the top of a stack, red for a caller below one and for a lost slot, plain for neither. */
  ghost function StatusOf(a: Calls, p: Pid): byte
    requires Live(a)
  {
    if exists t | 0 <= t < TERMINALS :: IsTop(a, t, p) then 0x20
    else if OnSomeStack(a, p) || p in a.lost then 0x40
    else 0x07
  }

  /** With the shells up a tick colours one cell for each process number, at the right end of the first
      row of the display: green for the tops of the three stacks, red for their callers and for lost
      slots, plain for free ones. It changes nothing else of the console. */
  lemma StatusShows(e: Env, w: Sys, a: Calls, s: Step)
    requires EnvOk(e) && Inv(e, w, a) && Ready(e, w, Kernel(s)) && s.Tick? && w.k.shells == 3
    ensures var c := Outcome(e, w, Kernel(s)).c;
      && |c.vram| == VRAM && c == w.c.(vram := c.vram)
      && (forall p: Pid :: c.vram[STATUS + 2 * p] == StatusOf(a, p))
      && (forall j | 0 <= j < VRAM && !(STATUS <= j < STATUS + 2 * MAX_USER_PROG && j % 2 == 1) ::
            c.vram[j] == w.c.vram[j])
  {
    hide Inv, EnvOk, Good, Next, StatusOf, Colours, ShowStatus;
    InvLive(e, w, a);
    StatusCells(w.c, Colours(w.k));
    ColoursAre(w.k, a);
  }

  lemma InvLive(e: Env, w: Sys, a: Calls)
    requires Inv(e, w, a)
    ensures Refines(w.k, a) && Live(a) && Shape(w.k) && Consoles.Shaped(w.c)
  {
  }

  lemma StatusCells(c: Console, colours: seq<byte>)
    requires Consoles.Shaped(c) && |colours| == MAX_USER_PROG
    ensures var r := ShowStatus(c, colours);
      && |r.vram| == VRAM && r == c.(vram := r.vram)
      && (forall p: Pid :: r.vram[STATUS + 2 * p] == colours[p])
      && (forall j | 0 <= j < VRAM && !(STATUS <= j < STATUS + 2 * MAX_USER_PROG && j % 2 == 1) ::
            r.vram[j] == c.vram[j])
  {
    forall p: Pid ensures ShowStatus(c, colours).vram[STATUS + 2 * p] == colours[p] {
      assert (STATUS + 2 * p) / 2 == COLS - MAX_USER_PROG + p && (STATUS + 2 * p) % 2 == 1;
    }
  }

  lemma ColoursAre(k: State, a: Calls)
    requires Refines(k, a)
    ensures forall p: Pid :: Colours(k)[p] == StatusOf(a, p)
  {
    hide Linked, OnSomeStack;
    RefinesTables(k, a);
    UsedExact(k, a);
    forall p: Pid ensures k.active[p] <==> exists t | 0 <= t < TERMINALS :: IsTop(a, t, p) {
      assert ActiveOf(a)[p] <==> IsTop(a, 0, p) || IsTop(a, 1, p) || IsTop(a, 2, p);
    }
    forall p: Pid | k.active[p] ensures k.used[p] {
      ActiveUsed(k, a, p);
    }
  }

  lemma ActiveUsed(k: State, a: Calls, p: Pid)
    requires Refines(k, a) && k.active[p]
    ensures k.used[p]
  {
    assert SlotOk(k, a, p);
  }

  // ----- the hardware cursor

  /** On every run the hardware cursor is the displayed terminal's if and only if nothing has been
      printed on the displayed terminal since the last move_csr without another, or that was to the
      last row and the column is the same again. What is so printed are the message of a full table,
      the text of an exception and the line end of a page fault; without exceptions it is the same
      column again if and only if that was the first. */
  lemma SystemCursorExact(e: Env, ws: seq<Sys>, es: seq<Event>, a0: Calls, n: nat)
    requires EnvOk(e) && Run(e, ws, es) && Begins(e, ws[0], a0) && n <= |es| && Calm(ws, es, n)
    requires CsrShown(ws[0].c)
    ensures Good(ws[n].c) && Good(ws[0].c) && P.Legal(ws[0].c, ConsoleEvents(ws, es, n))
    ensures var c, pending := ws[n].c, P.Pending(ws[0].c, ConsoleEvents(ws, es, n));
      && (CsrShown(c) <==> pending == [] || (c.csr / COLS == ROWS - 1 && c.terms[c.cur].x == c.csr % COLS))
      && ((forall i | 0 <= i < n :: !es[i].Trap?) ==>
            (CsrShown(c) <==> pending == [] || c.csr == COLS * (ROWS - 1)))
  {
    hide Refines, DirsOk, EnvOk, ConsoleEvents, P.Pending, P.Legal, Agree, Calm;
    ConsoleRun(e, ws, es, a0, n);
    var xs, c := ConsoleEvents(ws, es, n), ws[n].c;
    P.CursorExact(ws[0].c, xs);
    P.CursorLag(ws[0].c, xs);
    if forall i | 0 <= i < n :: !es[i].Trap? {
      OnlyFullMessages(ws, es, n);
      if P.Pending(ws[0].c, xs) != [] {
        PendingEndsLine(ws[0].c, xs, c.csr % COLS, c.csr / COLS);
      }
    }
  }

  ghost predicate FullMessages(xs: seq<P.Event>) {
    forall i | 0 <= i < |xs| :: xs[i].Printed? ==> xs[i].text == P.FULL_MESSAGE
  }

  lemma {:induction false} OnlyFullMessages(ws: seq<Sys>, es: seq<Event>, n: nat)
    requires |ws| == |es| + 1 && n <= |es| && forall i | 0 <= i < n :: !es[i].Trap?
    ensures FullMessages(ConsoleEvents(ws, es, n))
  {
    hide Good, Shape, LastMap;
    if n > 0 {
      OnlyFullMessages(ws, es, n - 1);
    }
  }

  lemma {:induction false} PendingEndsLine(c: Console, xs: seq<P.Event>, x: nat, y: nat)
    requires Good(c) && P.Legal(c, xs) && FullMessages(xs) && P.Pending(c, xs) != [] && x < COLS && y < ROWS
    ensures CursorAfter(x, y, P.Pending(c, xs)).0 == 0
    decreases |xs|
  {
    hide Agree, P.Happens, CursorAfter, P.Syncs, P.Fits, P.Enabled;
    var pre, last := xs[..|xs| - 1], xs[|xs| - 1];
    var before := P.Run(c, pre);
    if P.Syncs(before, last) {
      LineEndAt(x, y);
    } else if last.Printed? && last.t == before.cur {
      P.FullMessageIs();
      P.MessageEndsLine(x, y, P.Pending(c, pre));
    } else {
      PendingEndsLine(c, pre, x, y);
    }
  }
}
