/** NUL-terminated strings (strlen, strncmp of lib.c). */
module CStrings {
  import opened Machine

  /** The longest prefix of at most n bytes without a NUL. */
  function BeforeNul(s: seq<byte>, n: nat): (r: seq<byte>)
    requires n <= |s|
    ensures r <= s && |r| <= n && NUL !in r
    ensures |r| < n ==> s[|r|] == NUL
  {
    if n == 0 || s[0] == NUL then [] else [s[0]] + BeforeNul(s[1..], n - 1)
  }

  lemma {:induction false} BeforeNulIs(s: seq<byte>, n: nat, k: nat)
    requires k <= n <= |s|
    requires forall j | 0 <= j < k :: s[j] != NUL
    requires k < n ==> s[k] == NUL
    ensures BeforeNul(s, n) == s[..k]
  {
    if k > 0 {
      BeforeNulIs(s[1..], n - 1, k - 1);
      assert s[..k] == [s[0]] + s[1..][..k - 1];
    }
  }

  /** The C string a buffer holds: its bytes up to the first NUL. */
  function Str(s: seq<byte>): (r: seq<byte>)
    ensures r <= s && NUL !in r
    ensures NUL in s ==> |r| < |s| && s[|r|] == NUL
  {
    BeforeNul(s, |s|)
  }

  /** A text of the source as bytes. */
  function Ascii(s: string): (r: seq<byte>)
    ensures |r| == |s|
  {
    seq(|s|, i requires 0 <= i < |s| => s[i] as int % 256)
  }

  lemma AsciiAt(s: string, i: nat)
    requires i < |s|
    ensures Ascii(s)[i] == s[i] as int % 256
  {
  }

  lemma StrIs(s: seq<byte>, k: nat)
    requires k < |s| && s[k] == NUL
    requires forall j | 0 <= j < k :: s[j] != NUL
    ensures Str(s) == s[..k]
  {
    BeforeNulIs(s, |s|, k);
  }

  /** strlen of the string that starts at address `at`. */
  method Strlen(s: array<byte>, at: nat := 0) returns (len: nat)
    requires at <= s.Length && NUL in s[at..]
    ensures len == |Str(s[at..])| && at + len < s.Length && s[at + len] == NUL
  {
    ghost var j :| 0 <= j < |s[at..]| && s[at..][j] == NUL;
    len := 0;
    while s[at + len] != NUL
      invariant len <= j
      invariant forall i | 0 <= i < len :: s[at..][i] != NUL
      decreases j - len
    {
      len := len + 1;
    }
    StrIs(s[at..], len);
  }

  /** The value of a byte read through the signed `int8_t`. */
  function Signed(b: byte): int {
    if b < 128 then b else b - 256
  }

  /** s and t are the same C string as far as their first n bytes go. */
  ghost predicate SameFor(s: seq<byte>, t: seq<byte>, n: nat)
    requires n <= |s| && n <= |t|
  {
    forall i | 0 <= i < n && NUL !in s[..i] :: s[i] == t[i]
  }

  /** strncmp: zero exactly when the first n bytes form the same string; otherwise the
      difference at the first place where they do not. */
  method Strncmp(s: seq<byte>, t: seq<byte>, n: nat) returns (r: int)
    requires n <= |s| && n <= |t|
    ensures r == 0 <==> SameFor(s, t, n)
    ensures r != 0 ==> exists i | 0 <= i < n ::
      s[..i] == t[..i] && NUL !in s[..i] && s[i] != t[i] && r == Signed(s[i]) - Signed(t[i])
  {
    for i := 0 to n
      invariant s[..i] == t[..i] && NUL !in s[..i]
    {
      if s[i] != t[i] || s[i] == NUL {
        r := Signed(s[i]) - Signed(t[i]);
        if s[i] == t[i] {
          forall j | 0 <= j < n && NUL !in s[..j] ensures s[j] == t[j] {
            if j < i {
              assert s[j] == s[..i][j] == t[..i][j];
            }
          }
        }
        return;
      }
      assert s[..i + 1] == s[..i] + [s[i]] && t[..i + 1] == t[..i] + [t[i]];
    }
    forall j | 0 <= j < n && NUL !in s[..j] ensures s[j] == t[j] {
      assert s[j] == s[..n][j] == t[..n][j];
    }
    r := 0;
  }
}
