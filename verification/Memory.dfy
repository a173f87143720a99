/** memcpy, memset and memmove of lib.c, on memory as an array of bytes indexed by address. */
module Memory {
  import opened Machine

  /** Byte j once the bytes of dest in [lo, hi) have come from the matching bytes of src. */
  function Arrived(m: seq<byte>, dest: nat, src: nat, lo: int, hi: int, j: nat): byte
    requires j < |m| && dest <= lo && (lo <= hi ==> src + (hi - dest) <= |m|)
  {
    if lo <= j < hi then m[src + (j - dest)] else m[j]
  }

  /** Memory with the n bytes at src copied, all at once, to dest. */
  function Moved(m: seq<byte>, dest: nat, src: nat, n: nat): (r: seq<byte>)
    requires dest + n <= |m| && src + n <= |m|
    ensures |r| == |m|
    ensures forall j | 0 <= j < |m| :: r[j] == Arrived(m, dest, src, dest, dest + n, j)
  {
    seq(|m|, j requires 0 <= j < |m| => Arrived(m, dest, src, dest, dest + n, j))
  }

  function Filled(m: seq<byte>, at: nat, n: nat, b: byte): (r: seq<byte>)
    requires at + n <= |m|
    ensures |r| == |m|
    ensures forall j | 0 <= j < |m| :: r[j] == if at <= j < at + n then b else m[j]
  {
    seq(|m|, j requires 0 <= j < |m| => if at <= j < at + n then b else m[j])
  }

  /** The bytes of dest in [lo, hi) have arrived, everything else is as it was. */
  ghost predicate Copied(was: seq<byte>, now: seq<byte>, dest: nat, src: nat, lo: int, hi: int) {
    && |now| == |was| && dest <= lo && (lo <= hi ==> src + (hi - dest) <= |was|)
    && forall j | 0 <= j < |was| :: now[j] == Arrived(was, dest, src, lo, hi, j)
  }

  /** memcpy: single bytes up to a dword boundary of the destination, then dwords, then the rest.
      Correct for disjoint regions, and also when the destination starts below the source. */
  method Memcpy(mem: array<byte>, dest: nat, src: nat, n: nat)
    requires dest + n <= mem.Length && src + n <= mem.Length
    requires dest <= src || src + n <= dest
    modifies mem
    ensures mem[..] == Moved(old(mem[..]), dest, src, n)
  {
    ghost var was := mem[..];
    var ecx := CopyBytes(mem, was, dest, src, dest, n, n, true);
    var edi := dest + (n - ecx);
    ecx := CopyDwords(mem, was, dest, src, edi, ecx, n);
    edi := dest + (n - ecx);
    ecx := CopyBytes(mem, was, dest, src, edi, ecx, n, false);
  }

  /** movb one at a time, `ecx` of them; the first loop of memcpy stops at a dword boundary. */
  method CopyBytes(mem: array<byte>, ghost was: seq<byte>, dest: nat, src: nat, from: nat, count: nat, n: nat,
                   align: bool)
      returns (ecx: nat)
    requires |was| == mem.Length && dest <= from && from + count == dest + n
    requires dest + n <= mem.Length && src + n <= mem.Length && (dest <= src || src + n <= dest)
    requires Copied(was, mem[..], dest, src, dest, from)
    modifies mem
    ensures ecx <= count && Copied(was, mem[..], dest, src, dest, dest + (n - ecx))
    ensures ecx == 0 || (align && (dest + (n - ecx)) % 4 == 0)
  {
    var edi, esi := from, src + (from - dest);
    ecx := count;
    while ecx != 0 && !(align && edi % 4 == 0)
      invariant dest <= edi && edi + ecx == dest + n && esi - src == edi - dest && ecx <= count
      invariant Copied(was, mem[..], dest, src, dest, edi)
    {
      assert mem[..][esi] == was[esi];
      mem[edi] := mem[esi];
      edi, esi, ecx := edi + 1, esi + 1, ecx - 1;
    }
  }

  /** A forward copy never overwrites source bytes it has still to read. */
  lemma SourceIntact(was: seq<byte>, now: seq<byte>, dest: nat, src: nat, edi: nat, n: nat)
    requires dest <= edi <= dest + n && dest + n <= |was| && src + n <= |was| && (dest <= src || src + n <= dest)
    requires Copied(was, now, dest, src, dest, edi)
    ensures |now| == |was| && forall j | src + (edi - dest) <= j < src + n :: now[j] == was[j]
  {
  }

  /** rep movsl; leaves the bytes that do not make a dword. */
  method CopyDwords(mem: array<byte>, ghost was: seq<byte>, dest: nat, src: nat, from: nat, count: nat, n: nat)
      returns (edx: nat)
    requires |was| == mem.Length && dest <= from && from + count == dest + n
    requires dest + n <= mem.Length && src + n <= mem.Length && (dest <= src || src + n <= dest)
    requires Copied(was, mem[..], dest, src, dest, from)
    modifies mem
    ensures edx == count % 4 && Copied(was, mem[..], dest, src, dest, dest + (n - edx))
  {
    hide Copied, Arrived, Moved;
    var edi, esi, ecx := from, src + (from - dest), count / 4;
    edx := count % 4;
    while ecx != 0
      invariant dest <= edi && edi + 4 * ecx + edx == dest + n && esi - src == edi - dest && 0 <= ecx
      invariant Copied(was, mem[..], dest, src, dest, edi)
    {
      ghost var before := mem[..];
      SourceIntact(was, before, dest, src, edi, n);
      MoveDword(mem, edi, esi);
      DwordCopied(was, before, mem[..], dest, src, edi);
      edi, esi, ecx := edi + 4, esi + 4, ecx - 1;
    }
  }

  lemma DwordCopied(was: seq<byte>, before: seq<byte>, after: seq<byte>, dest: nat, src: nat, edi: nat)
    requires Copied(was, before, dest, src, dest, edi)
    requires dest <= edi && edi + 4 <= |was| && src + (edi - dest) + 4 <= |was|
    requires forall j | src + (edi - dest) <= j < src + (edi - dest) + 4 :: before[j] == was[j]
    requires after == Moved(before, edi, src + (edi - dest), 4)
    ensures Copied(was, after, dest, src, dest, edi + 4)
  {
  }

  /** movsl: the four bytes are read before any is written. */
  method MoveDword(mem: array<byte>, edi: nat, esi: nat)
    requires edi + 4 <= mem.Length && esi + 4 <= mem.Length
    modifies mem
    ensures mem[..] == Moved(old(mem[..]), edi, esi, 4)
  {
    mem[edi], mem[edi + 1], mem[edi + 2], mem[edi + 3] := mem[esi], mem[esi + 1], mem[esi + 2], mem[esi + 3];
  }

  /** Byte k of a little-endian dword. */
  function DwordByte(d: nat, k: nat): byte {
    if k == 0 then d % 256
    else if k == 1 then d / 0x100 % 256
    else if k == 2 then d / 0x1_0000 % 256
    else d / 0x100_0000 % 256
  }

  lemma SpreadByte(b: byte)
    ensures var d := b * 0x100_0000 + b * 0x1_0000 + b * 0x100 + b;
      DwordByte(d, 0) == b && DwordByte(d, 1) == b && DwordByte(d, 2) == b && DwordByte(d, 3) == b
  {
    Split(b * 0x1_0000 + b * 0x100 + b, b);
    Split(b * 0x100 + b, b);
    Split(b, b);
    var d := b * 0x100_0000 + b * 0x1_0000 + b * 0x100 + b;
    assert d / 0x1_0000 == d / 0x100 / 0x100 && d / 0x100_0000 == d / 0x100 / 0x100 / 0x100;
  }

  lemma Split(high: nat, low: byte)
    ensures (high * 0x100 + low) / 0x100 == high && (high * 0x100 + low) % 256 == low
  {
  }

  /** memset: the byte spread over a dword and stored by bytes, dwords, bytes. */
  method Memset(mem: array<byte>, s: nat, c: int, n: nat)
    requires s + n <= mem.Length
    modifies mem
    ensures mem[..] == Filled(old(mem[..]), s, n, c % 256)
  {
    hide DwordByte;
    ghost var was := mem[..];
    var b: byte := c % 256;
    var eax := b * 0x100_0000 + b * 0x1_0000 + b * 0x100 + b;
    SpreadByte(b);
    assert was == Filled(was, s, 0, b);
    var ecx := FillBytes(mem, was, s, n, n, b, eax, true);
    ecx := FillDwords(mem, was, s, ecx, n, b, eax);
    ecx := FillBytes(mem, was, s, ecx, n, b, eax, false);
  }

  method FillBytes(mem: array<byte>, ghost was: seq<byte>, s: nat, count: nat, n: nat, ghost b: byte, eax: nat,
                   align: bool)
      returns (ecx: nat)
    requires count <= n && s + n <= mem.Length && |was| == mem.Length && DwordByte(eax, 0) == b
    requires mem[..] == Filled(was, s, n - count, b)
    modifies mem
    ensures ecx <= count && mem[..] == Filled(was, s, n - ecx, b)
    ensures ecx == 0 || (align && (s + (n - ecx)) % 4 == 0)
  {
    hide DwordByte;
    var edi := s + (n - count);
    ecx := count;
    while ecx != 0 && !(align && edi % 4 == 0)
      invariant edi == s + (n - ecx) && ecx <= count && mem[..] == Filled(was, s, n - ecx, b)
    {
      mem[edi] := DwordByte(eax, 0);
      edi, ecx := edi + 1, ecx - 1;
    }
  }

  method FillDwords(mem: array<byte>, ghost was: seq<byte>, s: nat, count: nat, n: nat, ghost b: byte, eax: nat)
      returns (edx: nat)
    requires count <= n && s + n <= mem.Length && |was| == mem.Length
    requires DwordByte(eax, 0) == b && DwordByte(eax, 1) == b && DwordByte(eax, 2) == b && DwordByte(eax, 3) == b
    requires mem[..] == Filled(was, s, n - count, b)
    modifies mem
    ensures edx == count % 4 && mem[..] == Filled(was, s, n - edx, b)
  {
    hide DwordByte;
    var edi, ecx := s + (n - count), count / 4;
    edx := count % 4;
    while ecx != 0
      invariant 0 <= ecx && edi == s + (n - 4 * ecx - edx) && s <= edi && 4 * ecx + edx <= n
      invariant mem[..] == Filled(was, s, edi - s, b)
    {
      mem[edi], mem[edi + 1], mem[edi + 2], mem[edi + 3] :=
        DwordByte(eax, 0), DwordByte(eax, 1), DwordByte(eax, 2), DwordByte(eax, 3);
      edi, ecx := edi + 4, ecx - 1;
    }
  }

  /** memmove: forward unless the source starts below the destination, then backward from the
      ends; the original source bytes arrive however the regions overlap. The direction flag is
      left as the copy used it. */
  method Memmove(mem: array<byte>, dest: nat, src: nat, n: nat) returns (df: bool)
    requires dest + n <= mem.Length && src + n <= mem.Length
    modifies mem
    ensures mem[..] == Moved(old(mem[..]), dest, src, n)
    ensures df <==> src < dest
  {
    ghost var was := mem[..];
    df := false;
    var edi: int, esi: int, ecx: int := dest, src, n;
    if !(esi >= edi) {
      esi, edi, df := esi + ecx - 1, edi + ecx - 1, true;
    }
    while ecx != 0
      invariant 0 <= ecx <= n && df == (src < dest)
      invariant edi == (if df then dest + ecx - 1 else dest + (n - ecx)) && esi - src == edi - dest
      invariant Copied(was, mem[..], dest, src, if df then dest + ecx else dest,
                       if df then dest + n else dest + (n - ecx))
    {
      assert mem[..][esi] == was[esi];
      mem[edi] := mem[esi];
      edi := if df then edi - 1 else edi + 1;
      esi := if df then esi - 1 else esi + 1;
      ecx := ecx - 1;
    }
  }
}
