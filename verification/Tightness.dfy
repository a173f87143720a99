/** The waiting bound cannot be improved: from every boot the kernel can run into four ticks in a
    row that pass a waiting shell over. */
module Tightness {
  import opened Machine
  import opened Processes
  import opened CallStacks
  import opened Lifecycle
  import opened Runs
  import opened Traces

  lemma {:induction false} TicksSnoc(ss: seq<Step>, s: Step)
    ensures Ticks(ss + [s]) == Ticks(ss) + if s.Tick? then 1 else 0
  {
    if ss == [] {
      assert [] + [s] == [s] && [s][1..] == [];
    } else {
      TicksSnoc(ss[1..], s);
      assert (ss + [s])[1..] == ss[1..] + [s];
    }
  }

  /** Shell 0 is never the running process. */
  ghost predicate Passed(tr: Trail) {
    forall i | 0 <= i < |tr.ks| :: Current(tr.ks[i]) != 0
  }

  predicate Away(s: Pids) {
    Full(s) && TopOf(s, s.cur) != 0
  }

  /** Stores into the running program's page are no ticks and move nobody. */
  lemma {:induction false} TypesPass(tr: Trail, mid: Trail, n: nat)
    requires Types(tr, mid) && Passed(tr) && |tr.ss| <= n <= |mid.ss|
    ensures Ticks(mid.ss[..n]) == Ticks(tr.ss) && Current(mid.ks[n]) != 0
  {
    hide Ticks;
    if n == |tr.ss| {
      assert mid.ss[..n] == tr.ss;
    } else {
      TypesPass(tr, mid, n - 1);
      assert Typed(mid.ss[n - 1]);
      TicksSnoc(mid.ss[..n - 1], mid.ss[n - 1]);
      assert mid.ss[..n - 1] + [mid.ss[n - 1]] == mid.ss[..n];
    }
  }

  lemma PassedOn(tr: Trail, mid: Trail)
    requires Types(tr, mid) && Passed(tr)
    ensures Passed(mid) && Ticks(mid.ss) == Ticks(tr.ss)
  {
    hide Ticks;
    TypesPass(tr, mid, |mid.ss|);
    assert mid.ss[..|mid.ss|] == mid.ss;
  }

  /** One move more that does not reach shell 0. */
  lemma Pass(e: Env, tr: Trail, s: Pids, m: Move, s2: Pids) returns (tr': Trail)
    requires EnvOk(e) && Reaches(e, tr, s) && Passed(tr) && Leads(s, m, s2) && Away(s2)
    ensures Reaches(e, tr', s2) && Passed(tr') && tr'.ks[0] == tr.ks[0]
    ensures Ticks(tr'.ss) == Ticks(tr.ss) + if m.T? then 1 else 0
  {
    hide Next, Leads, Refines, Pict, Ticks, Steps, Types, OwnPage;
    var mid;
    mid, tr' := Go(e, tr, s, m, s2);
    Reached(e, tr', s2);
    PassedOn(tr, mid);
    TicksSnoc(mid.ss, StepOf(mid.ks[|mid.ss|], m));
  }

  const STAGE := Pids([0], [1, 5], [2, 4], 2)

  const S0 := Pids([0], [1], [2], 0)
  const S1 := Pids([0, 3], [1], [2], 0)
  const S2 := Pids([0, 3], [1], [2], 1)
  const S3 := Pids([0, 3], [1], [2], 2)
  const S4 := Pids([0, 3], [1], [2, 4], 2)
  const S5 := Pids([0, 3], [1], [2, 4], 1)
  const S6 := Pids([0, 3], [1, 5], [2, 4], 1)
  const S7 := Pids([0, 3], [1, 5], [2, 4], 0)
  const S8 := Pids([0], [1, 5], [2, 4], 0)
  const S10 := Pids([0], [1, 5], [2, 4], 1)
  const S11 := Pids([0], [1, 5, 3], [2, 4], 1)
  const S12 := Pids([0], [1, 5, 3], [2, 4], 2)
  const S13 := Pids([0], [1, 5, 3], [2], 2)
  const S14 := Pids([0], [1, 5, 3], [2], 1)
  const S15 := Pids([0], [1, 5], [2], 1)
  const S16 := Pids([0], [1], [2], 1)
  const S17 := Pids([0], [1], [2], 2)

  lemma StageIsSet()
    ensures Leads(SHELLS, T, S0) && Leads(S0, C, S1) && Leads(S1, T, S2) && Leads(S2, T, S3) && Leads(S3, C, S4)
    ensures Leads(S4, T, S5) && Leads(S5, C, S6) && Leads(S6, T, S7) && Leads(S7, R, S8) && Leads(S8, T, STAGE)
  {
  }

  lemma StagePasses()
    ensures Leads(STAGE, T, S10) && Leads(S10, C, S11) && Leads(S11, T, S12) && Leads(S12, R, S13)
    ensures Leads(S13, T, S14) && Leads(S14, R, S15) && Leads(S15, R, S16) && Leads(S16, T, S17)
    ensures Away(S10) && Away(S11) && Away(S12) && Away(S13) && Away(S14) && Away(S15) && Away(S16) && Away(S17)
  {
  }

  /** Calls by shells 0, 2 and 1, and a return, set the stage. */
  lemma Setting(e: Env, k: State) returns (tr: Trail)
    requires EnvOk(e) && Booted(e, k)
    ensures Reaches(e, tr, STAGE) && tr.ks[0] == k
  {
    StageIsSet();
    hide Next, Leads, Reaches, EnvOk, Booted, Path, Defined;
    var mid;
    tr := BootTrail(e, k);
    mid, tr := Go(e, tr, SHELLS, T, S0);
    mid, tr := Go(e, tr, S0, C, S1);
    mid, tr := Go(e, tr, S1, T, S2);
    mid, tr := Go(e, tr, S2, T, S3);
    mid, tr := Go(e, tr, S3, C, S4);
    mid, tr := Go(e, tr, S4, T, S5);
    mid, tr := Go(e, tr, S5, C, S6);
    mid, tr := Go(e, tr, S6, T, S7);
    mid, tr := Go(e, tr, S7, R, S8);
    mid, tr := Go(e, tr, S8, T, STAGE);
  }

  lemma Starting(e: Env, k: State, a: Calls) returns (tr: Trail)
    requires EnvOk(e) && Reaches(e, Trail([k], [], a), STAGE)
    ensures Reaches(e, tr, STAGE) && Passed(tr) && tr.ks[0] == k && Ticks(tr.ss) == 0
  {
    tr := Trail([k], [], a);
    Reached(e, tr, STAGE);
  }

  /** Four ticks pass shell 0 over. */
  lemma Passing(e: Env, k: State, a: Calls) returns (tr: Trail)
    requires EnvOk(e) && Reaches(e, Trail([k], [], a), STAGE)
    ensures Reaches(e, tr, S17) && Passed(tr) && tr.ks[0] == k && Ticks(tr.ss) == 4
  {
    StagePasses();
    hide Leads, Reaches, EnvOk, Passed, Ticks, Away;
    tr := Starting(e, k, a);
    tr := Pass(e, tr, STAGE, T, S10);
    tr := Pass(e, tr, S10, C, S11);
    tr := Pass(e, tr, S11, T, S12);
    tr := Pass(e, tr, S12, R, S13);
    tr := Pass(e, tr, S13, T, S14);
    tr := Pass(e, tr, S14, R, S15);
    tr := Pass(e, tr, S15, R, S16);
    tr := Pass(e, tr, S16, T, S17);
  }

  /** A stretch of a run as in the waiting bound: all shells up, w active and never running. */
  ghost predicate WaitsThrough(e: Env, ks: seq<State>, ss: seq<Step>, w: Pid)
    requires EnvOk(e)
  {
    && Path(e, ks, ss) && Shape(ks[0]) && ks[0].shells == 3 && ks[0].active[w]
    && forall i | 0 <= i < |ks| :: Current(ks[i]) != w
  }

  /** From every boot there is a run of the kernel to a state in which a shell waits, and on from
      there a stretch with MAX_USER_PROG - 2 ticks in which it never gets the processor. */
  lemma BoundIsTight(e: Env, k: State)
    requires EnvOk(e) && Booted(e, k)
    ensures exists ks, ss, more, on ::
      && Path(e, ks, ss) && ks[0] == k && WaitsThrough(e, more, on, 0) && more[0] == ks[|ss|]
      && Ticks(on) == MAX_USER_PROG - 2
  {
    hide Booted, Next, Leads, Ticks, EnvOk;
    var tr := Setting(e, k);
    var stage := tr.ks[|tr.ss|];
    Reached(e, tr, STAGE);
    assert TopOf(STAGE, 0) == 0;
    var pass := Passing(e, stage, tr.a);
    assert WaitsThrough(e, pass.ks, pass.ss, 0);
  }
}
