/** Sizes, addresses and integer types shared by the kernel modules
    (paging.h, syscall.h, lib.h, keyboard.h, types.h). */
module Machine {
  type byte = b: int | 0 <= b < 256
  type uint32 = n: int | 0 <= n < 0x1_0000_0000

  datatype Option<+T> = None | Some(value: T)

  const NUL: byte := 0
  const LINEFEED: byte := 10
  const RETURN: byte := 13
  const SPACE: byte := 32

  const MAX_USER_PROG := 6
  const TERMINALS := 3
  const LINE_BUF_SIZE := 128
  const MAX_BUF_INDEX := 127
  const KB8 := 0x2000
  const MB4 := 0x40_0000
  const KERNEL_TOP := 0x80_0000
  const USER_MEM_LOCATION := 0x800_0000
  const USER_PROG_LOCATION := 0x804_8000
  const USER_VIDEO := 0x840_0000

  function Min(a: int, b: int): int {
    if a <= b then a else b
  }

  function Max(a: int, b: int): int {
    if a <= b then b else a
  }

  lemma SmallMultiple(x: int, m: int)
    requires -m < x * m < m
    ensures x == 0
  {
  }

  /** Quotient and remainder are unique. */
  lemma DivModIs(v: nat, m: nat, q: nat, d: nat)
    requires v == q * m + d && d < m
    ensures v / m == q && v % m == d
  {
    var q', d' := v / m, v % m;
    assert v == q' * m + d';
    assert (q' - q) * m == d - d';
    SmallMultiple(q' - q, m);
  }
}
