/** The blink list carried out on its static pool: links through the slots, first-fit
    allocation, and the assembly's searches. */
module BlinkPool {
  import opened Machine
  import opened Blinking

  const NULL := -1

  datatype Slot = Slot(rec: Rec, next: int)

  /** The pointer to element i of the list, null past its end. */
  function Ptr(list: seq<nat>, i: nat): int {
    if i < |list| then list[i] else NULL
  }

  /** Element i links to element i + 1. */
  ghost predicate Hop(slots: seq<Slot>, list: seq<nat>, i: nat)
    requires i < |list|
  {
    list[i] < |slots| && slots[list[i]].next == Ptr(list, i + 1)
  }

  ghost predicate Linked(slots: seq<Slot>, head: int, list: seq<nat>) {
    head == Ptr(list, 0) && forall i | 0 <= i < |list| :: Hop(slots, list, i)
  }

  function RecsOf(slots: seq<Slot>): (r: seq<Rec>)
    ensures |r| == |slots| && forall k | 0 <= k < |slots| :: r[k] == slots[k].rec
  {
    seq(|slots|, k requires 0 <= k < |slots| => slots[k].rec)
  }

  lemma RecsUpdate(slots: seq<Slot>, k: nat, s: Slot)
    requires k < |slots|
    ensures RecsOf(slots[k := s]) == RecsOf(slots)[k := s.rec]
  {
  }

  lemma LinkedAdd(slots: seq<Slot>, head: int, list: seq<nat>, k: nat, rec: Rec)
    requires Linked(slots, head, list) && k < |slots| && k !in list
    ensures Linked(slots[k := Slot(rec, head)], k, [k] + list)
  {
    var more := [k] + list;
    var slots' := slots[k := Slot(rec, head)];
    forall i | 0 <= i < |more| ensures Hop(slots', more, i) {
      if i > 0 {
        assert Hop(slots, list, i - 1) && more[i] == list[i - 1] && more[i] in list;
      }
    }
  }

  /** Changing records and no link keeps the list linked. */
  lemma LinkedRecs(slots: seq<Slot>, slots': seq<Slot>, head: int, list: seq<nat>)
    requires Linked(slots, head, list) && |slots'| == |slots|
    requires forall k | 0 <= k < |slots| :: slots'[k].next == slots[k].next
    ensures Linked(slots', head, list)
  {
    forall i | 0 <= i < |list| ensures Hop(slots', list, i) {
      assert Hop(slots, list, i);
    }
  }

  lemma FreeNotListed(b: Blinks, k: nat)
    requires Sound(b) && k < POOL && b.recs[k].location == 0
    ensures k !in b.list
  {
  }

  class BlinkList {
    var pool: array<Slot>
    var head: int
    ghost var list: seq<nat>

    ghost function View(): Blinks
      reads this, pool
    {
      Blinks(list, RecsOf(pool[..]))
    }

    ghost predicate Valid()
      reads this, pool
    {
      pool.Length == POOL && Sound(View()) && Linked(pool[..], head, list)
    }

    constructor ()
      ensures Valid() && fresh(pool) && list == []
    {
      pool := new Slot[POOL](_ => Slot(FREE, NULL));
      head := NULL;
      list := [];
    }

    /** mp1_find_helper: walks the links; the ghost index is the element's place in the list. */
    method FindHelper(loc: uint16) returns (p: int, ghost i: nat)
      requires Valid()
      ensures i == Find(View(), loc, 0) && p == Ptr(list, i)
    {
      p, i := head, 0;
      while p != NULL && pool[p].rec.location != loc
        invariant i <= |list| && p == Ptr(list, i)
        invariant Find(View(), loc, 0) == Find(View(), loc, i)
        decreases |list| - i
      {
        assert Hop(pool[..], list, i);
        p := pool[p].next;
        i := i + 1;
      }
    }

    /** mp1_malloc. */
    method Malloc() returns (k: int)
      requires Valid()
      ensures var f := FirstFree(View().recs, 0); k == if f < POOL then f else NULL
    {
      for i := 0 to POOL
        invariant FirstFree(View().recs, 0) == FirstFree(View().recs, i)
      {
        if pool[i].rec.location == 0 {
          return i;
        }
      }
      return NULL;
    }

    /** mp1_ioctl_add; the list stays sound unless the new element is at location 0. */
    method IoctlAdd(rec: Rec) returns (r: int)
      requires Valid()
      modifies this, pool
      ensures pool == old(pool) && (View(), r) == Add(old(View()), rec)
      ensures Valid() <==> r == -1 || rec.location != 0
    {
      if rec.location >= SCREEN {
        return -1;
      }
      var k := Malloc();
      if k == NULL {
        return -1;
      }
      hide Sound, Linked;
      AddSoundIff(View(), rec);
      FreeNotListed(View(), k);
      Link(k, Started(rec));
      r := 0;
    }

    /** The copy into slot k and its insertion at the front. */
    method Link(k: nat, rec: Rec)
      requires k < pool.Length && k !in list && Linked(pool[..], head, list)
      modifies this, pool
      ensures pool == old(pool) && Linked(pool[..], head, list)
      ensures View() == Blinks([k] + old(list), old(View()).recs[k := rec])
    {
      hide Linked;
      LinkedAdd(pool[..], head, list, k, rec);
      RecsUpdate(pool[..], k, Slot(rec, head));
      pool[k] := Slot(rec, head);
      assert pool[..] == old(pool[..])[k := Slot(rec, old(head))];
      head := k;
      list := [k] + list;
    }

    /** mp1_ioctl_remove: find the element, find the pointer to it, unlink it, zero its slot. */
    method IoctlRemove(arg: uint32) returns (r: int)
      requires Valid()
      modifies this, pool
      ensures Valid() && pool == old(pool)
      ensures (View(), r) == Remove(old(View()), arg % 0x1_0000)
    {
      var p, i := FindHelper(arg % 0x1_0000);
      if p == NULL {
        return -1;
      }
      hide Linked;
      RemoveKeepsSound(View(), arg % 0x1_0000);
      Unlink(p, i);
      r := 0;
    }

    /** The unlinking and mp1_free. */
    method Unlink(p: nat, ghost i: nat)
      requires Linked(pool[..], head, list) && Distinct(list) && i < |list| && list[i] == p < pool.Length
      modifies this, pool
      ensures pool == old(pool) && Linked(pool[..], head, list)
      ensures View() == Blinks(Without(old(list), i), old(View()).recs[p := FREE])
    {
      ghost var slots := pool[..];
      assert Hop(slots, list, i) && (i > 0 ==> Hop(slots, list, i - 1));
      var prev := FindPrev(p, i);
      if prev == NULL {
        head := pool[p].next;
      } else {
        pool[prev] := pool[prev].(next := pool[p].next);
      }
      Free(p);
      list := Without(list, i);
      UnlinkedIsLinked(slots, old(list), i, pool[..], head);
    }

    /** mp1_free: the slot zeroed. */
    method Free(p: nat)
      requires p < pool.Length
      modifies pool
      ensures pool[..] == old(pool[..])[p := Slot(FREE, 0)]
      ensures RecsOf(pool[..]) == RecsOf(old(pool[..]))[p := FREE]
    {
      pool[p] := Slot(FREE, 0);
    }

    /** The search for the pointer to p: null stands for mp1_list_head. It ends because p is on
        the list. */
    method FindPrev(p: nat, ghost i: nat) returns (prev: int)
      requires Linked(pool[..], head, list) && Distinct(list) && i < |list| && list[i] == p
      ensures prev == if i == 0 then NULL else list[i - 1]
    {
      prev := NULL;
      ghost var j := 0;
      while (if prev == NULL then head else pool[prev].next) != p
        invariant 0 <= j <= i && prev == if j == 0 then NULL else list[j - 1]
        invariant j > 0 ==> Hop(pool[..], list, j - 1)
        decreases i - j
      {
        assert Hop(pool[..], list, j);
        prev := if prev == NULL then head else pool[prev].next;
        j := j + 1;
      }
    }

    /** mp1_ioctl_sync, without its screen write. */
    method IoctlSync(arg: uint32) returns (r: int)
      requires Valid()
      modifies this, pool
      ensures Valid() && pool == old(pool)
      ensures (View(), r) == Sync(old(View()), arg)
    {
      hide Sound;
      var from, i := FindHelper(arg / 0x1_0000);
      if from == NULL {
        return -1;
      }
      var to, j := FindHelper(arg % 0x1_0000);
      if to == NULL {
        return -1;
      }
      ghost var b, slots := View(), pool[..];
      SyncKeepsSound(b, arg);
      var s := pool[from].rec;
      pool[to] := pool[to].(rec := pool[to].rec.(onLength := s.onLength, offLength := s.offLength,
                                                 countdown := s.countdown, status := s.status));
      RecsUpdate(slots, to, pool[to]);
      assert pool[..] == slots[to := pool[to]];
      LinkedRecs(slots, pool[..], head, list);
      r := 0;
    }

    /** mp1_rtc_tasklet, without its screen writes. */
    method RtcTasklet()
      requires Valid()
      modifies pool
      ensures Valid() && View() == Tick(old(View()))
    {
      hide Linked;
      ghost var b, slots := View(), pool[..];
      TickKeepsSound(b);
      TickAll();
      LinkedRecs(slots, pool[..], head, list);
      assert RecsOf(pool[..]) == Tick(b).recs;
    }

    /** The loop of the tasklet. */
    method TickAll()
      requires Linked(pool[..], head, list) && Distinct(list)
      modifies pool
      ensures forall k | 0 <= k < pool.Length :: pool[k].next == old(pool[k].next)
      ensures forall k | 0 <= k < pool.Length ::
        pool[k].rec == if k in list then TickRec(old(pool[k].rec)) else old(pool[k].rec)
    {
      hide TickRec;
      var p := head;
      ghost var i := 0;
      while p != NULL
        invariant 0 <= i <= |list| && p == Ptr(list, i)
        invariant forall k | 0 <= k < pool.Length :: pool[k].next == old(pool[k].next)
        invariant forall k | 0 <= k < pool.Length ::
          pool[k].rec == if k in list[..i] then TickRec(old(pool[k].rec)) else old(pool[k].rec)
        decreases |list| - i
      {
        assert Hop(old(pool[..]), list, i);
        NotBefore(list, i);
        assert list[..i + 1] == list[..i] + [list[i]];
        pool[p] := pool[p].(rec := TickRec(pool[p].rec));
        p := pool[p].next;
        i := i + 1;
      }
      assert list[..i] == list;
    }
  }

  lemma NotBefore(list: seq<nat>, i: nat)
    requires Distinct(list) && i < |list|
    ensures list[i] !in list[..i]
  {
  }

  /** Unlinking element i leaves the rest linked in order. */
  lemma UnlinkedIsLinked(slots: seq<Slot>, list: seq<nat>, i: nat, slots': seq<Slot>, head': int)
    requires Linked(slots, Ptr(list, 0), list) && Distinct(list) && i < |list| && |slots'| == |slots|
    requires head' == if i == 0 then Ptr(list, 1) else Ptr(list, 0)
    requires forall k | 0 <= k < |slots| && k != list[i] && (i == 0 || k != list[i - 1]) :: slots'[k] == slots[k]
    requires i > 0 ==> list[i - 1] < |slots| && slots'[list[i - 1]].next == Ptr(list, i + 1)
    ensures Linked(slots', head', Without(list, i))
  {
    var rest := Without(list, i);
    forall j | 0 <= j < |rest| ensures Hop(slots', rest, j) {
      var at := if j < i then j else j + 1;
      assert rest[j] == list[at] && Hop(slots, list, at) && Hop(slots, list, i);
    }
  }
}
