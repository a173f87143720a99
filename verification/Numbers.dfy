/** itoa, strrev and the number conversions of printf (lib.c). */
module Numbers {
  import opened Machine
  import opened CStrings

  /** The lookup string "0123456789ABCDEFGHIJKLMNOPQRSTUVWXYZ". */
  function Digit(d: nat): (c: byte)
    requires d < 36
    ensures c != NUL && DigitValue(c) == d
  {
    if d < 10 then 48 + d else 55 + d
  }

  function DigitValue(c: byte): int {
    if 48 <= c <= 57 then c - 48 else if 65 <= c <= 90 then c - 55 else -1
  }

  /** The numeral of v, most significant digit first. */
  function Numeral(v: nat, radix: nat): (s: seq<byte>)
    requires 2 <= radix <= 36
    ensures |s| > 0
    decreases v
  {
    if v < radix then [Digit(v)] else QuotientFalls(v, radix); Numeral(v / radix, radix) + [Digit(v % radix)]
  }

  lemma QuotientFalls(v: nat, radix: nat)
    requires 2 <= radix <= v
    ensures 0 < v / radix < v
  {
  }

  predicate IsNumeral(s: seq<byte>, radix: nat) {
    forall i | 0 <= i < |s| :: 0 <= DigitValue(s[i]) < radix
  }

  /** What a digit string denotes. */
  function Parse(s: seq<byte>, radix: nat): (v: nat)
    requires IsNumeral(s, radix)
  {
    if s == [] then 0
    else
      assert 0 <= DigitValue(s[|s| - 1]);
      Parse(s[..|s| - 1], radix) * radix + DigitValue(s[|s| - 1])
  }

  /** The numeral uses only digits of the radix, and has no leading zero except in "0" itself. */
  lemma {:induction false} NumeralDigits(v: nat, radix: nat)
    requires 2 <= radix <= 36
    ensures IsNumeral(Numeral(v, radix), radix) && NUL !in Numeral(v, radix)
    ensures v > 0 ==> DigitValue(Numeral(v, radix)[0]) > 0
    decreases v
  {
    if v >= radix {
      QuotientFalls(v, radix);
      NumeralDigits(v / radix, radix);
    }
  }

  /** The numeral reads back as the number. */
  lemma {:induction false} NumeralParses(v: nat, radix: nat)
    requires 2 <= radix <= 36
    ensures IsNumeral(Numeral(v, radix), radix) && Parse(Numeral(v, radix), radix) == v
    decreases v
  {
    NumeralDigits(v, radix);
    if v < radix {
      assert Numeral(v, radix)[..0] == [];
    } else {
      QuotientFalls(v, radix);
      var q, d := v / radix, v % radix;
      assert Numeral(v, radix) == Numeral(q, radix) + [Digit(d)];
      NumeralParses(q, radix);
      hide Parse, Numeral;
      ParseSnoc(Numeral(q, radix), d, radix);
      Recompose(v, radix);
    }
  }

  lemma Recompose(v: nat, m: nat)
    requires m > 0
    ensures v / m * m + v % m == v
  {
  }

  lemma ParseSnoc(s: seq<byte>, d: nat, radix: nat)
    requires radix <= 36 && IsNumeral(s, radix) && d < radix
    ensures IsNumeral(s + [Digit(d)], radix) && Parse(s + [Digit(d)], radix) == Parse(s, radix) * radix + d
  {
    assert (s + [Digit(d)])[..|s|] == s;
  }

  /** Only one digit string without a leading zero denotes a given number: the numeral. */
  lemma {:induction false} NumeralIsUnique(s: seq<byte>, radix: nat)
    requires 2 <= radix <= 36 && s != [] && IsNumeral(s, radix)
    requires |s| == 1 || DigitValue(s[0]) > 0
    ensures s == Numeral(Parse(s, radix), radix)
    decreases |s|
  {
    var init, d := s[..|s| - 1], DigitValue(s[|s| - 1]);
    assert s == init + [s[|s| - 1]] && s[|s| - 1] == Digit(d);
    if |s| > 1 {
      var q := Parse(init, radix);
      NumeralIsUnique(init, radix);
      LeadingDigit(init, radix);
      DivideDigit(q, d, radix);
    } else {
      assert init == [] && Parse(s, radix) == d;
    }
  }

  lemma {:induction false} LeadingDigit(s: seq<byte>, radix: nat)
    requires 2 <= radix && s != [] && IsNumeral(s, radix) && DigitValue(s[0]) > 0
    ensures Parse(s, radix) > 0
    decreases |s|
  {
    if |s| > 1 {
      var init := s[..|s| - 1];
      LeadingDigit(init, radix);
      Positive(Parse(init, radix), radix);
    } else {
      assert s[..0] == [];
    }
  }

  lemma Positive(a: nat, b: nat)
    requires a > 0 && b > 0
    ensures a * b >= b
  {
  }

  lemma DivideDigit(q: nat, d: nat, radix: nat)
    requires q > 0 && d < radix
    ensures (q * radix + d) / radix == q && (q * radix + d) % radix == d && q * radix + d >= radix
  {
    DivModIs(q * radix + d, radix, q, d);
    Positive(q, radix);
  }

  // ----- strrev and itoa

  function Reversed(s: seq<byte>): (r: seq<byte>)
    ensures |r| == |s| && forall i | 0 <= i < |s| :: r[i] == s[|s| - 1 - i]
  {
    seq(|s|, i requires 0 <= i < |s| => s[|s| - 1 - i])
  }

  /** The swap loop of strrev. */
  method Reverse(s: array<byte>, at: nat, n: nat)
    requires at + n <= s.Length
    modifies s
    ensures s[at..at + n] == Reversed(old(s[at..at + n]))
    ensures s[..at] == old(s[..at]) && s[at + n..] == old(s[at + n..])
  {
    ghost var text := s[at..at + n];
    var beg, end := 0, n - 1;
    while beg < end
      invariant 0 <= beg && beg + end == n - 1
      invariant forall i | 0 <= i < s.Length ::
        s[i] == if at <= i < at + n && !(beg <= i - at <= end) then text[n - 1 - (i - at)] else old(s[i])
    {
      var tmp := s[at + end];
      s[at + end] := s[at + beg];
      s[at + beg] := tmp;
      beg, end := beg + 1, end - 1;
    }
    forall i | 0 <= i < n ensures s[at..at + n][i] == Reversed(text)[i] {
      assert s[at..at + n][i] == s[at + i] && text[i] == old(s[at + i]);
    }
  }

  /** strrev: the string at `at` reversed in place, its terminator and what lies before it kept. */
  method Strrev(s: array<byte>, at: nat)
    requires at <= s.Length && NUL in s[at..]
    modifies s
    ensures Str(s[at..]) == Reversed(Str(old(s[at..]))) && NUL in s[at..]
    ensures s[..at] == old(s[..at])
  {
    hide Str, Reversed;
    var n := Strlen(s, at);
    ghost var text := Str(s[at..]);
    assert text == s[at..at + n];
    Reverse(s, at, n);
    ReversedBack(text);
    NulFree(Reversed(text), text);
    assert s[at..][n] == s[at + n..][0] == NUL;
    assert s[at..][..n] == s[at..at + n];
    StrOf(s[at..], Reversed(text));
  }

  lemma ReversedBack(s: seq<byte>)
    ensures Reversed(Reversed(s)) == s
  {
  }

  lemma StrOf(s: seq<byte>, r: seq<byte>)
    requires |r| < |s| && s[..|r|] == r && s[|r|] == NUL && NUL !in r
    ensures Str(s) == r
  {
    assert forall j | 0 <= j < |r| :: s[j] == r[j];
    StrIs(s, |r|);
  }

  /** itoa: digits from the lowest up, then reversed in place. */
  method Itoa(value: nat, buf: array<byte>, at: nat, radix: nat)
    requires 2 <= radix <= 36 && at + |Numeral(value, radix)| < buf.Length
    modifies buf
    ensures Str(buf[at..]) == Numeral(value, radix) && NUL in buf[at..]
    ensures buf[..at] == old(buf[..at])
  {
    NumeralDigits(value, radix);
    assert Numeral(0, radix) == [48];
    hide Numeral, Str, Reversed;
    if value == 0 {
      buf[at] := 48;
      Terminate(buf, at, 1);
      return;
    }
    var k := LowDigits(value, buf, at, radix);
    NulFree(buf[at..at + k], Numeral(value, radix));
    Terminate(buf, at, k);
    Strrev(buf, at);
  }

  /** The terminator written behind k bytes makes them the string at `at`. */
  method Terminate(buf: array<byte>, at: nat, k: nat)
    requires at + k < buf.Length && NUL !in buf[at..at + k]
    modifies buf
    ensures Str(buf[at..]) == old(buf[at..at + k]) && NUL in buf[at..] && buf[..at] == old(buf[..at])
  {
    hide Str;
    buf[at + k] := NUL;
    assert buf[at..][k] == NUL;
    assert buf[at..][..k] == old(buf[at..at + k]);
    StrOf(buf[at..], old(buf[at..at + k]));
  }

  lemma NulFree(low: seq<byte>, s: seq<byte>)
    requires Reversed(low) == s && NUL !in s
    ensures NUL !in low
  {
    forall i | 0 <= i < |low| ensures low[i] != NUL {
      assert s[|low| - 1 - i] == low[i];
    }
  }

  /** The digit loop of itoa. */
  method LowDigits(value: nat, buf: array<byte>, at: nat, radix: nat) returns (k: nat)
    requires 2 <= radix <= 36 && value > 0 && at + |Numeral(value, radix)| < buf.Length
    modifies buf
    ensures k == |Numeral(value, radix)| && Reversed(buf[at..at + k]) == Numeral(value, radix)
    ensures buf[..at] == old(buf[..at])
  {
    hide Numeral, Reversed, Digit, Left;
    var newval: nat := value;
    ghost var low := [];
    NothingYet(value, radix);
    k := 0;
    while newval > 0
      invariant at + k < buf.Length && k == |low| && buf[at..at + k] == low
      invariant Numeral(value, radix) == Left(newval, radix) + Reversed(low)
      invariant buf[..at] == old(buf[..at])
      decreases newval
    {
      var q, d := NextDigit(newval, radix);
      MoveDigit(Left(q, radix), Digit(d), low);
      assert |Numeral(value, radix)| >= k + 1;
      AppendByte(buf, at, k, Digit(d));
      low := low + [Digit(d)];
      k := k + 1;
      newval := q;
    }
    NothingLeft(radix, Reversed(low));
  }

  lemma NothingYet(v: nat, radix: nat)
    requires 2 <= radix <= 36 && v > 0
    ensures Left(v, radix) + Reversed([]) == Numeral(v, radix)
  {
  }

  lemma NothingLeft(radix: nat, s: seq<byte>)
    requires 2 <= radix <= 36
    ensures Left(0, radix) + s == s
  {
  }

  lemma MoveDigit(high: seq<byte>, d: byte, low: seq<byte>)
    ensures high + [d] + Reversed(low) == high + Reversed(low + [d])
    ensures |Reversed(low)| == |low|
  {
    assert Reversed(low + [d]) == [d] + Reversed(low);
  }

  method NextDigit(v: nat, radix: nat) returns (q: nat, d: nat)
    requires 2 <= radix <= 36 && v > 0
    ensures q < v && d < radix && Left(v, radix) == Left(q, radix) + [Digit(d)]
  {
    DigitSplits(v, radix);
    q, d := v / radix, v % radix;
  }

  method AppendByte(buf: array<byte>, at: nat, k: nat, d: byte)
    requires at + k < buf.Length
    modifies buf
    ensures buf[at..at + k + 1] == old(buf[at..at + k]) + [d] && buf[..at] == old(buf[..at])
  {
    buf[at + k] := d;
  }

  /** The digits still to come. */
  function Left(v: nat, radix: nat): seq<byte>
    requires 2 <= radix <= 36
  {
    if v == 0 then [] else Numeral(v, radix)
  }

  lemma DigitSplits(v: nat, radix: nat)
    requires 2 <= radix <= 36 && v > 0
    ensures v / radix < v && Left(v, radix) == Left(v / radix, radix) + [Digit(v % radix)]
  {
    if v >= radix {
      QuotientFalls(v, radix);
    } else {
      SmallQuotient(v, radix);
    }
  }

  lemma SmallQuotient(v: nat, radix: nat)
    requires v < radix
    ensures v / radix == 0 && v % radix == v
  {
    DivModIs(v, radix, 0, v);
  }

  // ----- the conversions of printf

  function Pow(radix: nat, n: nat): nat {
    if n == 0 then 1 else radix * Pow(radix, n - 1)
  }

  lemma {:induction false} NumeralLength(v: nat, radix: nat, n: nat)
    requires 2 <= radix <= 36 && n > 0 && v < Pow(radix, n)
    ensures |Numeral(v, radix)| <= n
    decreases n
  {
    assert Pow(radix, 1) == radix;
    if v >= radix {
      QuotientBound(v, radix, Pow(radix, n - 1));
      NumeralLength(v / radix, radix, n - 1);
    }
  }

  lemma QuotientBound(v: nat, radix: nat, p: nat)
    requires radix > 0 && v < radix * p
    ensures v / radix < p
  {
  }

  function Zeros(n: nat): (z: seq<byte>)
    ensures |z| == n && forall i | 0 <= i < n :: z[i] == 48
  {
    seq(n, _ => 48)
  }

  lemma {:induction false} LeadingZeros(n: nat, s: seq<byte>, radix: nat)
    requires radix >= 2 && IsNumeral(s, radix)
    ensures IsNumeral(Zeros(n) + s, radix) && Parse(Zeros(n) + s, radix) == Parse(s, radix)
    decreases n + |s|
  {
    var z := Zeros(n);
    if s != [] {
      assert (z + s)[..n + |s| - 1] == z + s[..|s| - 1];
      LeadingZeros(n, s[..|s| - 1], radix);
    } else if n > 0 {
      assert z + s == z && z[..n - 1] == Zeros(n - 1) + [];
      LeadingZeros(n - 1, [], radix);
      assert Parse(z, radix) == Parse(z[..n - 1], radix) * radix;
    } else {
      assert z + s == [];
    }
  }

  /** %#x: itoa at offset 8 of the conversion buffer, and zeros filled in front of it. What is
      printed is the string from the offset that is itoa's length. */
  method FormatHex8(value: uint32) returns (s: seq<byte>)
    ensures |s| == 8 && IsNumeral(s, 16) && Parse(s, 16) == value
  {
    hide Str, IsNumeral;
    EightDigits(value);
    var buf := new byte[64];
    Itoa(value, buf, 8, 16);
    ghost var digits := Numeral(value, 16);
    var start := Strlen(buf, 8);
    FillZeros(buf, start);
    s := Str(buf[start..]);
    ZerosBefore(buf[start..], 8 - start, buf[8..], digits);
    PaddedHex(value, s);
  }

  /** Zeros in front of a terminated string are part of it. */
  lemma ZerosBefore(all: seq<byte>, n: nat, rest: seq<byte>, digits: seq<byte>)
    requires n <= |all| && all[..n] == Zeros(n) && all[n..] == rest && Str(rest) == digits && NUL in rest
    ensures Str(all) == Zeros(n) + digits
  {
    assert digits <= rest && rest[|digits|] == NUL && NUL !in digits;
    hide Str;
    assert all == Zeros(n) + rest;
    StrOf(all, Zeros(n) + digits);
  }

  lemma PaddedHex(value: uint32, s: seq<byte>)
    requires |Numeral(value, 16)| <= 8 && s == Zeros(8 - |Numeral(value, 16)|) + Numeral(value, 16)
    ensures |s| == 8 && IsNumeral(s, 16) && Parse(s, 16) == value
  {
    NumeralParses(value, 16);
    LeadingZeros(8 - |Numeral(value, 16)|, Numeral(value, 16), 16);
  }

  method FillZeros(buf: array<byte>, start: nat)
    requires start <= 8 < buf.Length
    modifies buf
    ensures buf[start..8] == Zeros(8 - start) && buf[8..] == old(buf[8..])
  {
    var i := start;
    while i < 8
      invariant start <= i <= 8
      invariant forall j | 0 <= j < buf.Length :: buf[j] == if start <= j < i then 48 else old(buf[j])
    {
      buf[i] := 48;
      i := i + 1;
    }
  }

  lemma EightDigits(value: uint32)
    ensures |Numeral(value, 16)| <= 8
  {
    assert Pow(16, 8) == 0x1_0000_0000;
    hide Pow;
    NumeralLength(value, 16, 8);
  }

  /** %u. */
  method FormatUnsigned(value: uint32) returns (s: seq<byte>)
    ensures s == Numeral(value, 10)
  {
    TenDigits(value);
    var buf := new byte[36];
    Itoa(value, buf, 0, 10);
    s := Str(buf[0..]);
  }

  lemma TenDigits(value: uint32)
    ensures |Numeral(value, 10)| <= 10
  {
    assert Pow(10, 10) == 10_000_000_000;
    hide Pow;
    NumeralLength(value, 10, 10);
  }

  /** %d: a minus sign and the magnitude, which the negation in 32 bits gives even for the
      smallest value. */
  method FormatSigned(value: int) returns (s: seq<byte>)
    requires -0x8000_0000 <= value < 0x8000_0000
    ensures value >= 0 ==> s == Numeral(value, 10)
    ensures value < 0 ==> s == [45] + Numeral(-value, 10)
  {
    var magnitude: uint32 := (if value < 0 then -value else value) % 0x1_0000_0000;
    TenDigits(magnitude);
    var buf := new byte[36];
    if value < 0 {
      buf[0] := 45;
      Itoa(magnitude, buf, 1, 10);
      s := [buf[0]] + Str(buf[1..]);
      assert buf[..1][0] == 45;
    } else {
      Itoa(magnitude, buf, 0, 10);
      s := Str(buf[0..]);
    }
  }

  /** The digits are those of the lookup string. */
  lemma DigitIs(d: nat)
    requires d < 36
    ensures [Digit(d)] == Ascii("0123456789ABCDEFGHIJKLMNOPQRSTUVWXYZ")[d..d + 1]
  {
    hide Ascii;
    var text := "0123456789ABCDEFGHIJKLMNOPQRSTUVWXYZ";
    AsciiAt(text, d);
    assert if d < 10 then text[d] as int == 48 + d else text[d] as int == 55 + d;
  }
}
