/** The blinking characters of fish: what the list means and how it blinks (fish/blink.S,
    fish/fish.c). The class BlinkList carries it out on the static pool. */
module Blinking {
  import opened Machine

  type uint16 = n: int | 0 <= n < 0x1_0000

  const POOL := 2000
  const SCREEN := 2000

  /** mp1_blink_struct without its link. */
  datatype Rec = Rec(location: uint16, onChar: byte, offChar: byte, onLength: uint16, offLength: uint16,
                     countdown: uint16, status: uint16)

  const FREE := Rec(0, 0, 0, 0, 0, 0, 0)

  /** The blinking elements: their slots in list order, and all slots of the pool. */
  datatype Blinks = Blinks(list: seq<nat>, recs: seq<Rec>)

  ghost predicate Distinct(list: seq<nat>) {
    forall i, j | 0 <= i < j < |list| :: list[i] != list[j]
  }

  /** The list has no slot twice, and its slots are exactly those with a nonzero location. */
  ghost predicate Sound(b: Blinks) {
    && |b.recs| == POOL && Distinct(b.list)
    && (forall i | 0 <= i < |b.list| :: b.list[i] < POOL)
    && forall k | 0 <= k < POOL :: b.recs[k].location != 0 <==> k in b.list
  }

  /** mp1_malloc's choice: the first slot with location 0, or POOL. */
  function FirstFree(recs: seq<Rec>, from: nat): (k: nat)
    requires |recs| == POOL && from <= POOL
    ensures from <= k <= POOL && (k < POOL ==> recs[k].location == 0)
    ensures forall j | from <= j < k :: recs[j].location != 0
    decreases POOL - from
  {
    if from == POOL || recs[from].location == 0 then from else FirstFree(recs, from + 1)
  }

  /** The first element of the list, from index i, at a location; |list| if there is none. */
  function Find(b: Blinks, loc: uint16, i: nat): (r: nat)
    requires |b.recs| == POOL && i <= |b.list| && forall j | 0 <= j < |b.list| :: b.list[j] < POOL
    ensures i <= r <= |b.list| && (r < |b.list| ==> b.recs[b.list[r]].location == loc)
    ensures forall j | i <= j < r :: b.recs[b.list[j]].location != loc
    decreases |b.list| - i
  {
    if i == |b.list| || b.recs[b.list[i]].location == loc then i else Find(b, loc, i + 1)
  }

  /** The record as add stores it: on, with a full countdown. */
  function Started(rec: Rec): Rec {
    rec.(status := 1, countdown := rec.onLength)
  }

  function Add(b: Blinks, rec: Rec): (r: (Blinks, int))
    requires |b.recs| == POOL
  {
    var k := FirstFree(b.recs, 0);
    if rec.location >= SCREEN || k == POOL then (b, -1)
    else (Blinks([k] + b.list, b.recs[k := Started(rec)]), 0)
  }

  function Without(list: seq<nat>, i: nat): (r: seq<nat>)
    requires i < |list|
  {
    list[..i] + list[i + 1..]
  }

  function Remove(b: Blinks, loc: uint16): (r: (Blinks, int))
    requires |b.recs| == POOL && forall j | 0 <= j < |b.list| :: b.list[j] < POOL
  {
    var i := Find(b, loc, 0);
    if i == |b.list| then (b, -1) else (Blinks(Without(b.list, i), b.recs[b.list[i] := FREE]), 0)
  }

  function Copied(from: Rec, to: Rec): Rec {
    to.(onLength := from.onLength, offLength := from.offLength, countdown := from.countdown, status := from.status)
  }

  /** sync copies the timing of the element at the high half of the argument to the low half's. */
  function Sync(b: Blinks, arg: uint32): (r: (Blinks, int))
    requires |b.recs| == POOL && forall j | 0 <= j < |b.list| :: b.list[j] < POOL
  {
    var i, j := Find(b, arg / 0x1_0000, 0), Find(b, arg % 0x1_0000, 0);
    if i == |b.list| || j == |b.list| then (b, -1)
    else (b.(recs := b.recs[b.list[j] := Copied(b.recs[b.list[i]], b.recs[b.list[j]])]), 0)
  }

  predicate Positive16(n: uint16) {
    0 < n < 0x8000
  }

  /** One timer tick for one element. */
  function TickRec(r: Rec): Rec {
    var left: uint16 := (r.countdown - 1) % 0x1_0000;
    if Positive16(left) then r.(countdown := left)
    else if r.status % 2 == 1 then r.(countdown := r.offLength, status := r.status - 1)
    else r.(countdown := r.onLength, status := r.status + 1)
  }

  function Tick(b: Blinks): (r: Blinks)
    requires |b.recs| == POOL
    ensures |r.recs| == POOL && r.list == b.list
    ensures forall k | 0 <= k < POOL :: r.recs[k] == if k in b.list then TickRec(b.recs[k]) else b.recs[k]
  {
    b.(recs := seq(POOL, k requires 0 <= k < POOL => if k in b.list then TickRec(b.recs[k]) else b.recs[k]))
  }

  // ----- what every operation keeps

  lemma AddKeepsSound(b: Blinks, rec: Rec)
    requires Sound(b) && rec.location != 0
    ensures Sound(Add(b, rec).0)
  {
    var k := FirstFree(b.recs, 0);
    if rec.location < SCREEN && k < POOL {
      assert k !in b.list;
    }
  }

  lemma RemoveKeepsSound(b: Blinks, loc: uint16)
    requires Sound(b)
    ensures Sound(Remove(b, loc).0)
  {
    var i := Find(b, loc, 0);
    if i < |b.list| {
      var list := Without(b.list, i);
      forall k | 0 <= k < POOL ensures k in list <==> k in b.list && k != b.list[i] {
        WithoutMember(b.list, i, k);
      }
    }
  }

  lemma WithoutMember(list: seq<nat>, i: nat, k: nat)
    requires i < |list| && Distinct(list)
    ensures k in Without(list, i) <==> k in list && k != list[i]
  {
    var r := Without(list, i);
    if k in list && k != list[i] {
      var j :| 0 <= j < |list| && list[j] == k;
      assert r[if j < i then j else j - 1] == k;
    }
  }

  lemma SyncKeepsSound(b: Blinks, arg: uint32)
    requires Sound(b)
    ensures Sound(Sync(b, arg).0)
  {
  }

  lemma TickKeepsSound(b: Blinks)
    requires Sound(b)
    ensures Sound(Tick(b))
  {
  }

  // ----- what each operation does

  /** No element of the list is at the location. */
  ghost predicate Vacant(b: Blinks, loc: uint16)
    requires Sound(b)
  {
    forall i | 0 <= i < |b.list| :: b.recs[b.list[i]].location != loc
  }

  /** add fails, changing nothing, if and only if the location is off the screen or every slot is in
      use. Otherwise the lowest free slot comes to the front of the list, on, with its full on-length
      to go and everything else as given, and no other record changes. */
  lemma AddExact(b: Blinks, rec: Rec)
    requires Sound(b)
    ensures var (b', r) := Add(b, rec);
      && (r == -1 <==> rec.location >= SCREEN || forall k | 0 <= k < POOL :: b.recs[k].location != 0)
      && (r == -1 ==> b' == b)
      && (r != -1 ==>
            && r == 0 && |b'.list| == |b.list| + 1 && b'.list[1..] == b.list && |b'.recs| == POOL
            && var k := b'.list[0];
            && k < POOL && b.recs[k].location == 0 && (forall j | 0 <= j < k :: b.recs[j].location != 0)
            && b'.recs[k].location == rec.location
            && b'.recs[k].onChar == rec.onChar && b'.recs[k].offChar == rec.offChar
            && b'.recs[k].onLength == rec.onLength && b'.recs[k].offLength == rec.offLength
            && b'.recs[k].status == 1 && b'.recs[k].countdown == rec.onLength
            && forall j | 0 <= j < POOL && j != k :: b'.recs[j] == b.recs[j])
  {
  }

  /** remove fails, changing nothing, if and only if no element is at the location. Otherwise the
      first one there leaves the list and its slot is free; the others keep their order and their
      records. */
  lemma RemoveExact(b: Blinks, loc: uint16)
    requires Sound(b)
    ensures var (b', r) := Remove(b, loc);
      && (r == -1 <==> Vacant(b, loc)) && (r == -1 ==> b' == b)
      && (r != -1 ==>
            && r == 0 && |b'.list| == |b.list| - 1 && |b'.recs| == POOL
            && exists i | 0 <= i < |b.list| ::
                 && b.recs[b.list[i]].location == loc
                 && (forall j | 0 <= j < i :: b.recs[b.list[j]].location != loc)
                 && b'.recs[b.list[i]].location == 0 && b.list[i] !in b'.list
                 && b'.list == b.list[..i] + b.list[i + 1..]
                 && forall k | 0 <= k < POOL && k != b.list[i] :: b'.recs[k] == b.recs[k])
  {
    var i := Find(b, loc, 0);
    if i < |b.list| {
      WithoutMember(b.list, i, b.list[i]);
    }
  }

  /** An element added and then removed: the list is the old one, and so is every record but that of
      the slot, which is free as it was. */
  lemma AddThenRemove(b: Blinks, rec: Rec)
    requires Sound(b) && rec.location != 0 && Add(b, rec).1 == 0
    ensures Sound(Add(b, rec).0)
    ensures var (b', r) := Remove(Add(b, rec).0, rec.location);
      && r == 0 && b'.list == b.list && |b'.recs| == POOL
      && forall k | 0 <= k < POOL :: b'.recs[k] == b.recs[k] || (b.recs[k].location == b'.recs[k].location == 0)
  {
    AddKeepsSound(b, rec);
    AddExact(b, rec);
    var one := Add(b, rec).0;
    hide Add, Remove, Sound;
    FrontGoes(one, rec.location);
  }

  /** The element at the front is the first one at its location. */
  lemma FrontGoes(b: Blinks, loc: uint16)
    requires Sound(b) && b.list != [] && b.recs[b.list[0]].location == loc
    ensures Remove(b, loc) == (Blinks(b.list[1..], b.recs[b.list[0] := FREE]), 0)
  {
    assert Find(b, loc, 0) == 0;
    assert Without(b.list, 0) == b.list[1..];
  }

  /** sync fails, changing nothing, if and only if one of the two locations has no element. Otherwise
      the element at the low half takes both lengths, the countdown and the status of the one at the
      high half, keeps its place and its characters, and no other record changes. */
  lemma SyncExact(b: Blinks, arg: uint32)
    requires Sound(b)
    ensures var (b', r) := Sync(b, arg);
      && b'.list == b.list && |b'.recs| == POOL
      && (r == -1 <==> Vacant(b, arg / 0x1_0000) || Vacant(b, arg % 0x1_0000)) && (r == -1 ==> b' == b)
      && (r != -1 ==> r == 0 && exists i, j | 0 <= i < |b.list| && 0 <= j < |b.list| ::
            var from, to, now := b.recs[b.list[i]], b.recs[b.list[j]], b'.recs[b.list[j]];
            && from.location == arg / 0x1_0000 && to.location == arg % 0x1_0000
            && now.location == to.location && now.onChar == to.onChar && now.offChar == to.offChar
            && now.onLength == from.onLength && now.offLength == from.offLength
            && now.countdown == from.countdown && now.status == from.status
            && forall k | 0 <= k < POOL && k != b.list[j] :: b'.recs[k] == b.recs[k])
  {
    var i, j := Find(b, arg / 0x1_0000, 0), Find(b, arg % 0x1_0000, 0);
    if i < |b.list| && j < |b.list| {
      assert b.recs[b.list[i]].location == arg / 0x1_0000 && b.recs[b.list[j]].location == arg % 0x1_0000;
    }
  }

  /** The pool marks a free slot by location 0, so adding an element there is the one add that
      breaks the list: a successful add keeps it sound exactly when the location is not 0. */
  lemma AddSoundIff(b: Blinks, rec: Rec)
    requires Sound(b) && Add(b, rec).1 == 0
    ensures Sound(Add(b, rec).0) <==> rec.location != 0
  {
    if rec.location != 0 {
      AddKeepsSound(b, rec);
    } else {
      var r := Add(b, rec).0;
      assert r.list[0] in r.list && r.recs[r.list[0]].location == 0;
    }
  }

  /** Two adds at location 0 take the same slot: the list then holds it twice. */
  lemma AddAtZeroTwice(b: Blinks, rec: Rec)
    requires Sound(b) && rec.location == 0 && FirstFree(b.recs, 0) < POOL
    ensures var twice := Add(Add(b, rec).0, rec).0; |twice.list| == |b.list| + 2 && twice.list[0] == twice.list[1]
  {
    var k, one := FirstFree(b.recs, 0), Add(b, rec).0;
    FirstFreeIs(one.recs, 0, k);
  }

  lemma FirstFreeIs(recs: seq<Rec>, from: nat, k: nat)
    requires |recs| == POOL && from <= k < POOL && recs[k].location == 0
    requires forall j | from <= j < k :: recs[j].location != 0
    ensures FirstFree(recs, from) == k
  {
  }

  // ----- timing

  /** How many ticks a 16-bit length really lasts: the countdown is compared as signed. */
  function Lasts(length: uint16): (n: nat)
    ensures 1 <= n <= 0x8000
  {
    if 1 <= length <= 0x8000 then length else 1
  }

  function TickedRec(r: Rec, n: nat): (t: Rec)
    ensures t == r.(countdown := t.countdown, status := t.status)
  {
    if n == 0 then r else TickRec(TickedRec(r, n - 1))
  }

  /** A tick either uses up one of the ticks left, or switches over and starts the other length. */
  lemma TickSwitches(r: Rec)
    requires r.status <= 1
    ensures var t := TickRec(r);
      if Lasts(r.countdown) > 1 then t.status == r.status && Lasts(t.countdown) == Lasts(r.countdown) - 1
      else t.status == 1 - r.status && t.countdown == if r.status == 1 then r.offLength else r.onLength
  {
  }

  lemma ModStep(n: nat, m: nat)
    requires m > 0
    ensures (n + 1) % m == if n % m + 1 == m then 0 else n % m + 1
  {
    var q, r := n / m, n % m;
    if r + 1 == m {
      DivModIs(n + 1, m, q + 1, 0);
    } else {
      DivModIs(n + 1, m, q, r + 1);
    }
  }

  /** n ticks after its add an element is on exactly in the first part of its period, for every
      pair of 16-bit lengths. */
  lemma {:induction false} BlinkPeriod(rec: Rec, n: nat)
    ensures var a, b := Lasts(rec.onLength), Lasts(rec.offLength);
      var t, m := TickedRec(Started(rec), n), n % (a + b);
      && (t.status == 1 <==> m < a) && t.status <= 1
      && Lasts(t.countdown) == if m < a then a - m else a + b - m
  {
    var a, b := Lasts(rec.onLength), Lasts(rec.offLength);
    if n > 0 {
      BlinkPeriod(rec, n - 1);
      TickSwitches(TickedRec(Started(rec), n - 1));
      ModStep(n - 1, a + b);
    } else {
      DivModIs(0, a + b, 0, 0);
    }
  }

  // ----- runs

  datatype Op = Adding(rec: Rec) | Removing(loc: uint16) | Syncing(arg: uint32) | Ticking

  ghost function Do(b: Blinks, op: Op): (r: Blinks)
    requires Sound(b) && (op.Adding? ==> op.rec.location != 0)
    ensures Sound(r)
  {
    match op
    case Adding(rec) => AddKeepsSound(b, rec); Add(b, rec).0
    case Removing(loc) => RemoveKeepsSound(b, loc); Remove(b, loc).0
    case Syncing(arg) => SyncKeepsSound(b, arg); Sync(b, arg).0
    case Ticking => TickKeepsSound(b); Tick(b)
  }

  predicate Proper(ops: seq<Op>) {
    forall i | 0 <= i < |ops| :: ops[i].Adding? ==> ops[i].rec.location != 0
  }

  /** Every sequence of adds, removes, syncs and ticks keeps the list and the pool in agreement. */
  ghost function DoAll(b: Blinks, ops: seq<Op>): (r: Blinks)
    requires Sound(b) && Proper(ops)
    ensures Sound(r)
  {
    if ops == [] then b else Do(DoAll(b, ops[..|ops| - 1]), ops[|ops| - 1])
  }

  function Ticks(ops: seq<Op>): nat {
    if ops == [] then 0 else Ticks(ops[..|ops| - 1]) + if ops[|ops| - 1].Ticking? then 1 else 0
  }

  /** The operation neither removes the element in slot k nor copies another's timing into it. */
  ghost predicate Spares(b: Blinks, op: Op, k: nat)
    requires Sound(b)
  {
    match op
    case Removing(loc) => var i := Find(b, loc, 0); i < |b.list| ==> b.list[i] != k
    case Syncing(arg) => var j := Find(b, arg % 0x1_0000, 0); j < |b.list| ==> b.list[j] != k
    case _ => true
  }

  ghost predicate SparedBy(b: Blinks, ops: seq<Op>, k: nat)
    requires Sound(b) && Proper(ops)
  {
    forall n | 0 <= n < |ops| :: Spares(DoAll(b, ops[..n]), ops[n], k)
  }

  lemma SparedStep(b: Blinks, op: Op, k: nat)
    requires Sound(b) && (op.Adding? ==> op.rec.location != 0) && k in b.list && Spares(b, op, k)
    ensures var r := Do(b, op);
      k in r.list && r.recs[k] == if op.Ticking? then TickRec(b.recs[k]) else b.recs[k]
  {
    if op.Removing? {
      var i := Find(b, op.loc, 0);
      if i < |b.list| {
        WithoutMember(b.list, i, k);
      }
    }
  }

  /** An element that is spared ticks exactly as often as the timer does, whatever happens to the
      others. */
  lemma {:induction false} SparedRun(b: Blinks, ops: seq<Op>, k: nat)
    requires Sound(b) && Proper(ops) && k in b.list && SparedBy(b, ops, k)
    ensures k in DoAll(b, ops).list && DoAll(b, ops).recs[k] == TickedRec(b.recs[k], Ticks(ops))
    decreases |ops|
  {
    hide Do, Sound, Spares, TickRec;
    if ops != [] {
      var pre := ops[..|ops| - 1];
      assert SparedBy(b, pre, k) by {
        forall n | 0 <= n < |pre| ensures Spares(DoAll(b, pre[..n]), pre[n], k) {
          assert pre[..n] == ops[..n];
        }
      }
      SparedRun(b, pre, k);
      assert Spares(DoAll(b, pre), ops[|ops| - 1], k);
      SparedStep(DoAll(b, pre), ops[|ops| - 1], k);
    }
  }

  /** After an add, and any operations that neither remove nor sync the new element, it is on
      exactly when the number of ticks since, modulo its period, is below its on-length. */
  lemma BlinkTiming(b: Blinks, rec: Rec, ops: seq<Op>)
    requires Sound(b) && rec.location != 0 && Add(b, rec).1 == 0 && Proper(ops)
    requires Sound(Add(b, rec).0) && SparedBy(Add(b, rec).0, ops, FirstFree(b.recs, 0))
    ensures var k, on, off := FirstFree(b.recs, 0), Lasts(rec.onLength), Lasts(rec.offLength);
      var r := DoAll(Add(b, rec).0, ops).recs[k];
      && r.location == rec.location && r.onChar == rec.onChar && r.offChar == rec.offChar
      && (r.status == 1 <==> Ticks(ops) % (on + off) < on)
  {
    var k, added := FirstFree(b.recs, 0), Add(b, rec).0;
    assert added.list[0] == k;
    SparedRun(added, ops, k);
    BlinkPeriod(rec, Ticks(ops));
  }

  /** An element that has been spared since its add, and is the only one at its location, is what a
      remove there takes away: its slot is free again, it does not blink any more, and the others are
      as they were. */
  lemma RemovedAfterRun(b: Blinks, rec: Rec, ops: seq<Op>)
    requires Sound(b) && rec.location != 0 && Add(b, rec).1 == 0 && Proper(ops)
    requires Sound(Add(b, rec).0) && SparedBy(Add(b, rec).0, ops, FirstFree(b.recs, 0))
    requires var k, w := FirstFree(b.recs, 0), DoAll(Add(b, rec).0, ops);
      forall l | l in w.list && w.recs[l].location == rec.location :: l == k
    ensures var k, w := FirstFree(b.recs, 0), DoAll(Add(b, rec).0, ops);
      var (w', r) := Remove(w, rec.location);
      && r == 0 && k !in w'.list && |w'.recs| == POOL && w'.recs[k].location == 0
      && forall l | 0 <= l < POOL && l != k :: w'.recs[l] == w.recs[l] && (l in w'.list <==> l in w.list)
  {
    hide Do, Spares, TickRec;
    var k, added := FirstFree(b.recs, 0), Add(b, rec).0;
    assert added.list[0] == k;
    SparedRun(added, ops, k);
    var w := DoAll(added, ops);
    var i := Find(w, rec.location, 0);
    var at :| 0 <= at < |w.list| && w.list[at] == k;
    assert w.list[i] in w.list;
    forall l | 0 <= l < POOL ensures l in Without(w.list, i) <==> l in w.list && l != k {
      WithoutMember(w.list, i, l);
    }
  }

  predicate InStep(r: Rec, s: Rec) {
    r.onLength == s.onLength && r.offLength == s.offLength && r.countdown == s.countdown && r.status == s.status
  }

  lemma {:induction false} TickedInStep(r: Rec, s: Rec, n: nat)
    requires InStep(r, s)
    ensures InStep(TickedRec(r, n), TickedRec(s, n))
  {
    if n > 0 {
      TickedInStep(r, s, n - 1);
    }
  }

  /** After a sync the two elements show the same status and countdown at every later time, as
      long as neither is removed or synced again. */
  lemma SyncedStayInStep(b: Blinks, arg: uint32, ops: seq<Op>, k: nat, l: nat)
    requires Sound(b) && Sync(b, arg).1 == 0 && Proper(ops)
    requires k == b.list[Find(b, arg / 0x1_0000, 0)] && l == b.list[Find(b, arg % 0x1_0000, 0)]
    requires var s := Do(b, Syncing(arg)); SparedBy(s, ops, k) && SparedBy(s, ops, l)
    ensures var r := DoAll(Do(b, Syncing(arg)), ops);
      k in r.list && l in r.list && InStep(r.recs[k], r.recs[l])
  {
    var s := Do(b, Syncing(arg));
    SparedRun(s, ops, k);
    SparedRun(s, ops, l);
    TickedInStep(s.recs[k], s.recs[l], Ticks(ops));
  }
}
