/** 32-bit paging entries (paging.c, paging.h; section 4.3 of the Intel SDM, Volume 3A). */
module Paging {
  import opened Machine

  const FLAG_PRESENT := 0x01
  const FLAG_WRITE_ENABLE := 0x02
  const FLAG_USER := 0x04
  const FLAG_4MB_PAGE := 0x80
  const FLAG_GLOBAL := 0x100
  const PAGE := 4096
  const ENTRIES := 1024

  /** Bitwise or. */
  function Or(x: nat, y: nat): (r: nat)
    decreases x + y
  {
    if x == 0 && y == 0 then 0 else 2 * Or(x / 2, y / 2) + Max(x % 2, y % 2)
  }

  function Pow2(n: nat): nat {
    if n == 0 then 1 else 2 * Pow2(n - 1)
  }

  lemma {:induction false} OrZero(x: nat)
    ensures Or(x, 0) == x && Or(0, x) == x
  {
    if x > 0 {
      OrZero(x / 2);
    }
  }

  /** The low n bits are clear. */
  predicate Aligned(base: nat, n: nat) {
    n == 0 || (base % 2 == 0 && Aligned(base / 2, n - 1))
  }

  /** Or-ing a value below 2^n into an address leaves the bits from n up alone. */
  lemma {:induction false} OrLow(base: nat, n: nat, z: nat, y: nat)
    requires Aligned(base, n) && z < Pow2(n) && y < Pow2(n)
    ensures Or(base + z, y) == base + Or(z, y)
    ensures Or(z, y) < Pow2(n)
  {
    hide Or;
    if n == 0 {
      OrZero(base);
      OrZero(0);
    } else {
      OrLow(base / 2, n - 1, z / 2, y / 2);
      OrHalf(base + z, y, base / 2 + z / 2);
      OrHalf(z, y, z / 2);
    }
  }

  lemma AlignedUp(x: nat, n: nat)
    requires Aligned(x, n)
    ensures Aligned(8 * x, n + 3)
  {
    assert 2 * x / 2 == x && Aligned(2 * x, n + 1);
    assert 4 * x / 2 == 2 * x && Aligned(4 * x, n + 2);
    assert 8 * x / 2 == 4 * x;
  }

  /** A page address keeps its page number under any flags and any offset below a page. */
  lemma OrPage(base: nat, z: nat, y: nat)
    requires base % PAGE == 0 && z < PAGE && y < PAGE
    ensures Or(base + z, y) == base + Or(z, y) && Or(z, y) < PAGE
    ensures Or(base + z, y) / PAGE * PAGE == base
  {
    hide Or, Aligned;
    PageAligned(base);
    assert Pow2(12) == PAGE;
    OrLow(base, 12, z, y);
  }

  lemma PageAligned(base: nat)
    requires base % PAGE == 0
    ensures Aligned(base, 12)
  {
    hide Aligned;
    var m := base / PAGE;
    assert Aligned(m, 0) by { AlignedZero(m); }
    AlignedUp(m, 0);
    AlignedUp(8 * m, 3);
    AlignedUp(64 * m, 6);
    AlignedUp(512 * m, 9);
  }

  lemma AlignedZero(x: nat)
    ensures Aligned(x, 0)
  {
  }

  lemma OrHalf(x: nat, y: nat, half: nat)
    requires half == x / 2
    ensures Or(x, y) == 2 * Or(half, y / 2) + Max(x % 2, y % 2)
  {
  }

  function PageOf(entry: nat): nat {
    entry / PAGE * PAGE
  }

  /** The entry lets the access through: it is present, and for a program it is a user entry, and
      a writable one for a store. Kernel stores ignore the write bit, as CR0.WP is never set. */
  predicate Allows(entry: nat, user: bool, write: bool) {
    entry % 2 == 1 && (user ==> entry / FLAG_USER % 2 == 1 && (write ==> entry / FLAG_WRITE_ENABLE % 2 == 1))
  }

  /** Where a directory entry leads: nowhere, into a 4MB page, or on to a page table. */
  datatype Target = Fault | Large(phys: nat) | Table(base: nat)

  function Walk(dir: seq<nat>, addr: nat, user: bool, write: bool): Target
    requires |dir| == ENTRIES && addr < ENTRIES * MB4
  {
    var pde := dir[addr / MB4];
    if !Allows(pde, user, write) then Fault
    else if pde / FLAG_4MB_PAGE % 2 == 1 then Large(pde / MB4 * MB4 + addr % MB4)
    else Table(PageOf(pde))
  }
}
