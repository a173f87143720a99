/** Command line parsing in execute, and getargs (syscall.c). */
module Commands {
  import opened Machine
  import opened CStrings

  /** The index of the first space from i on, or the end of the command. */
  function WordEnd(c: seq<byte>, i: nat): (r: nat)
    requires i <= |c|
    ensures i <= r <= |c| && forall j | i <= j < r :: c[j] != SPACE
    ensures r < |c| ==> c[r] == SPACE
    decreases |c| - i
  {
    if i == |c| || c[i] == SPACE then i else WordEnd(c, i + 1)
  }

  /** The index of the first non-space from i on, or the end of the command. */
  function SkipSpaces(c: seq<byte>, i: nat): (r: nat)
    requires i <= |c|
    ensures i <= r <= |c| && forall j | i <= j < r :: c[j] == SPACE
    ensures r < |c| ==> c[r] != SPACE
    decreases |c| - i
  {
    if i == |c| || c[i] != SPACE then i else SkipSpaces(c, i + 1)
  }

  /** The text without its trailing spaces. */
  function TrimEnd(c: seq<byte>): (r: seq<byte>)
    ensures r <= c && (r != [] ==> r[|r| - 1] != SPACE)
    ensures forall j | |r| <= j < |c| :: c[j] == SPACE
  {
    if c == [] || c[|c| - 1] != SPACE then c else TrimEnd(c[..|c| - 1])
  }

  function Name(c: seq<byte>): seq<byte> {
    c[..WordEnd(c, 0)]
  }

  function Args(c: seq<byte>): seq<byte> {
    TrimEnd(c[SkipSpaces(c, WordEnd(c, 0))..])
  }

  /** The argument text before its trailing spaces go. */
  function RawArgs(c: seq<byte>): seq<byte> {
    c[SkipSpaces(c, WordEnd(c, 0))..]
  }

  // ----- the command in memory

  /** The 128 bytes at a command pointer; a byte that is not there faults when it is read. */
  type Memory = m: seq<Option<byte>> | |m| == LINE_BUF_SIZE witness seq(LINE_BUF_SIZE, _ => None)

  /** The bytes that can be read before the first NUL. */
  function Prefix(m: seq<Option<byte>>): (c: seq<byte>)
    ensures |c| <= |m| && forall j | 0 <= j < |c| :: m[j] == Some(c[j]) && c[j] != NUL
    ensures |c| < |m| ==> m[|c|] == None || m[|c|] == Some(NUL)
  {
    if m == [] || m[0].None? || m[0].value == NUL then [] else [m[0].value] + Prefix(m[1..])
  }

  /** What execute makes of the bytes at its pointer: a string it cannot read to its end, or a
      command, of which the history may or may not be able to copy 127 bytes. */
  datatype Cmd = Broken(prefix: seq<byte>) | Cmd(text: seq<byte>, whole: bool)

  predicate Whole(m: Memory) {
    forall j | 0 <= j < MAX_BUF_INDEX :: m[j].Some?
  }

  /** A string of 128 bytes or more is none that execute is made for. */
  predicate Short(m: Memory) {
    |Prefix(m)| < LINE_BUF_SIZE
  }

  function Reading(m: Memory): Cmd {
    var c := Prefix(m);
    if |c| < LINE_BUF_SIZE && m[|c|] == Some(NUL) then Cmd(c, Whole(m)) else Broken(c)
  }

  /** The bytes of the command that end a copy loop. */
  predicate Ends(b: Option<byte>) {
    b.None? || b.value == NUL
  }

  /** The two copy loops and the trailing-space loop of execute, filling the zeroed name and
      args fields of the new control block; not ok if a byte of the command cannot be read. */
  method ParseCommand(m: Memory, name: array<byte>, args: array<byte>) returns (ok: bool)
    requires Short(m)
    requires name.Length == LINE_BUF_SIZE && args.Length == LINE_BUF_SIZE && name != args
    requires forall j | 0 <= j < LINE_BUF_SIZE :: name[j] == NUL && args[j] == NUL
    modifies name, args
    ensures ok <==> Reading(m).Cmd?
    ensures Str(name[..]) == Name(Prefix(m)) && NUL in name[..]
    ensures Str(args[..]) == (if ok then Args(Prefix(m)) else RawArgs(Prefix(m))) && NUL in args[..]
  {
    hide Prefix;
    ghost var c := Prefix(m);
    var i := CopyWord(m, name);
    StrIs(args[..], 0);
    if m[i].None? {
      return false;
    }
    name[i] := NUL;
    StrIs(name[..], i);
    while m[i] == Some(SPACE)
      invariant WordEnd(c, 0) <= i <= |c|
      invariant SkipSpaces(c, WordEnd(c, 0)) == SkipSpaces(c, i)
      decreases |c| - i
    {
      i := i + 1;
    }
    ok := CopyArgs(m, i, name, args);
  }

  /** The loop over the command's first word. */
  method CopyWord(m: Memory, name: array<byte>) returns (i: nat)
    requires Short(m) && name.Length == LINE_BUF_SIZE && forall j | 0 <= j < LINE_BUF_SIZE :: name[j] == NUL
    modifies name
    ensures i == WordEnd(Prefix(m), 0) && Str(name[..]) == Name(Prefix(m)) && i < LINE_BUF_SIZE
    ensures forall j | 0 <= j < LINE_BUF_SIZE :: name[j] == if j < i then Prefix(m)[j] else NUL
  {
    hide Prefix;
    ghost var c := Prefix(m);
    i := 0;
    while i < LINE_BUF_SIZE && !Ends(m[i]) && m[i].value != SPACE
      invariant 0 <= i <= |c| && WordEnd(c, 0) == WordEnd(c, i)
      invariant forall j | 0 <= j < LINE_BUF_SIZE :: name[j] == if j < i then c[j] else NUL
    {
      name[i] := m[i].value;
      i := i + 1;
    }
    StrIs(name[..], i);
  }

  method CopyArgs(m: Memory, offset: nat, name: array<byte>, args: array<byte>) returns (ok: bool)
    requires Short(m) && offset <= |Prefix(m)|
    requires offset < |Prefix(m)| ==> Prefix(m)[offset] != SPACE
    requires name.Length == LINE_BUF_SIZE && args.Length == LINE_BUF_SIZE && name != args
    requires name[LINE_BUF_SIZE - 1] == NUL
    requires forall j | 0 <= j < LINE_BUF_SIZE :: args[j] == NUL
    modifies args
    ensures ok <==> Reading(m).Cmd?
    ensures Str(args[..]) == (if ok then TrimEnd(Prefix(m)[offset..]) else Prefix(m)[offset..]) && NUL in args[..]
  {
    hide TrimEnd, Str, Prefix;
    ghost var c := Prefix(m);
    ghost var rest := c[offset..];
    var i := offset;
    while i < LINE_BUF_SIZE && !Ends(m[i])
      invariant offset <= i <= |c|
      invariant forall j | 0 <= j < i - offset :: args[j] == rest[j]
      invariant forall j | i - offset <= j < LINE_BUF_SIZE :: args[j] == NUL
    {
      args[i - offset] := m[i].value;
      i := i + 1;
    }
    assert i == |c|;
    if m[i].None? {
      StrIs(args[..], |rest|);
      return false;
    }
    TrimArgs(rest, i - offset - 1, name, args);
    ok := true;
  }

  /** The loop that removes trailing spaces. With no argument text it starts at index -1, the byte
      before args: the last one of name. */
  method TrimArgs(ghost rest: seq<byte>, last: int, name: array<byte>, args: array<byte>)
    requires |rest| < LINE_BUF_SIZE && last == |rest| - 1 && NUL !in rest && (rest != [] ==> rest[0] != SPACE)
    requires name.Length == LINE_BUF_SIZE && args.Length == LINE_BUF_SIZE && name != args
    requires name[LINE_BUF_SIZE - 1] == NUL
    requires forall j | 0 <= j < LINE_BUF_SIZE :: args[j] == if j < |rest| then rest[j] else NUL
    modifies args
    ensures Str(args[..]) == TrimEnd(rest) && NUL in args[..]
  {
    var k := last;
    while (if k < 0 then name[LINE_BUF_SIZE - 1] else args[k]) == SPACE
      invariant -1 <= k < |rest| && (rest != [] ==> k >= 0)
      invariant forall j | 0 <= j <= k :: args[j] == rest[j]
      invariant forall j | k < j < LINE_BUF_SIZE :: args[j] == NUL
      invariant forall j | k < j < |rest| :: rest[j] == SPACE
      decreases k
    {
      args[k] := NUL;
      k := k - 1;
    }
    StrIs(args[..], k + 1);
    TrimEndIs(rest, k + 1);
  }

  /** How many of the first 127 bytes can be read before one that cannot. */
  function Readable(m: Memory, i: nat): (n: nat)
    requires i <= MAX_BUF_INDEX
    ensures i <= n <= MAX_BUF_INDEX && forall j | i <= j < n :: m[j].Some?
    ensures n < MAX_BUF_INDEX ==> m[n].None?
    decreases MAX_BUF_INDEX - i
  {
    if i == MAX_BUF_INDEX || m[i].None? then i else Readable(m, i + 1)
  }

  /** The command history: older entries move down one, and 127 bytes are copied into the first,
      however short the command is; not ok if one of them cannot be read. */
  method PushHistory(hist: array2<byte>, m: Memory) returns (ok: bool)
    requires hist.Length0 == 5 && hist.Length1 == LINE_BUF_SIZE
    modifies hist
    ensures ok <==> Whole(m)
    ensures forall i, j | 1 <= i < 5 && 0 <= j < LINE_BUF_SIZE :: hist[i, j] == old(hist[i - 1, j])
    ensures forall j | 0 <= j < LINE_BUF_SIZE ::
      hist[0, j] == if j < Readable(m, 0) then m[j].value else old(hist[0, j])
  {
    var i := 4;
    while i > 0
      invariant 0 <= i <= 4
      invariant forall r, j | 0 <= r < 5 && 0 <= j < LINE_BUF_SIZE ::
        hist[r, j] == if r > i then old(hist[r - 1, j]) else old(hist[r, j])
    {
      for j := 0 to LINE_BUF_SIZE
        invariant forall r, q | 0 <= r < 5 && 0 <= q < LINE_BUF_SIZE ::
          hist[r, q] == if r > i || (r == i && q < j) then old(hist[r - 1, q]) else old(hist[r, q])
      {
        hist[i, j] := hist[i - 1, j];
      }
      i := i - 1;
    }
    ok := CopyHistory(hist, m);
  }

  method CopyHistory(hist: array2<byte>, m: Memory) returns (ok: bool)
    requires hist.Length0 == 5 && hist.Length1 == LINE_BUF_SIZE
    modifies hist
    ensures ok <==> Whole(m)
    ensures forall i, j | 1 <= i < 5 && 0 <= j < LINE_BUF_SIZE :: hist[i, j] == old(hist[i, j])
    ensures forall j | 0 <= j < LINE_BUF_SIZE ::
      hist[0, j] == if j < Readable(m, 0) then m[j].value else old(hist[0, j])
  {
    var n := 0;
    while n < MAX_BUF_INDEX
      invariant 0 <= n <= MAX_BUF_INDEX && Readable(m, 0) == Readable(m, n)
      invariant forall i, j | 0 <= i < 5 && 0 <= j < LINE_BUF_SIZE ::
        hist[i, j] == if i == 0 && j < n then m[j].value else old(hist[i, j])
    {
      if m[n].None? {
        return false;
      }
      hist[0, n] := m[n].value;
      n := n + 1;
    }
    ok := true;
  }

  // ----- getargs

  /** The bytes getargs stores for a caller that gives it room for `nbytes`; the count is compared
      as unsigned, so a negative one passes and copies nothing. */
  function CopiedArgs(text: seq<byte>, nbytes: int): (r: seq<byte>)
    ensures |r| <= |text| + 1 && (nbytes < |text| ==> r == [])
  {
    if nbytes < |text| then [] else if nbytes == |text| then text else text + [NUL]
  }

  lemma CopiedArgsAt(a: seq<byte>, nbytes: int)
    requires NUL in a && (nbytes < 0 || |Str(a)| <= nbytes)
    ensures |CopiedArgs(Str(a), nbytes)| == Max(0, Min(nbytes, |Str(a)| + 1))
    ensures forall j | 0 <= j < |CopiedArgs(Str(a), nbytes)| :: CopiedArgs(Str(a), nbytes)[j] == a[j]
    ensures forall j | 0 <= j < |Str(a)| :: a[j] != NUL
  {
    hide Str;
    var text := Str(a);
    assert forall j | 0 <= j < |text| :: a[j] == text[j] && text[j] in text;
  }

  method GetArgs(args: array<byte>, buf: array<byte>, nbytes: int) returns (r: int)
    requires args.Length == LINE_BUF_SIZE && NUL in args[..] && args != buf
    requires |CopiedArgs(Str(args[..]), nbytes)| <= buf.Length
    modifies buf
    ensures r == if 0 <= nbytes < |Str(args[..])| then -1 else 0
    ensures forall j | 0 <= j < buf.Length ::
      var out := CopiedArgs(Str(args[..]), nbytes); buf[j] == if j < |out| then out[j] else old(buf[j])
  {
    hide Str, CopiedArgs;
    assert args[0..] == args[..];
    var len := Strlen(args);
    if nbytes >= 0 && len > nbytes {
      return -1;
    }
    CopiedArgsAt(args[..], nbytes);
    var n := if nbytes > LINE_BUF_SIZE then LINE_BUF_SIZE else nbytes;
    StoreArgs(args, buf, n, len);
    r := 0;
  }

  /** The loop of getargs: up to n bytes, the terminator the last of them. */
  method StoreArgs(args: array<byte>, buf: array<byte>, n: int, ghost len: nat)
    requires len < args.Length && args[len] == NUL && (forall j | 0 <= j < len :: args[j] != NUL) && args != buf
    requires Min(n, len + 1) <= buf.Length
    modifies buf
    ensures forall j | 0 <= j < buf.Length :: buf[j] == if j < Min(n, len + 1) then args[j] else old(buf[j])
  {
    var i := 0;
    while i < n
      invariant 0 <= i <= len && (i <= n || i == 0)
      invariant forall j | 0 <= j < buf.Length :: buf[j] == if j < i then args[j] else old(buf[j])
    {
      buf[i] := args[i];
      if args[i] == NUL {
        break;
      }
      i := i + 1;
    }
  }

  function Spaces(n: nat): (s: seq<byte>)
    ensures |s| == n && forall j | 0 <= j < n :: s[j] == SPACE
  {
    seq(n, _ => SPACE)
  }

  /** What execute stores for `name`, spaces, `text`, spaces: the name, and the text with its
      outer spaces gone and its inner ones kept. */
  lemma CommandRoundTrip(name: seq<byte>, k: nat, text: seq<byte>, j: nat)
    requires SPACE !in name && (k > 0 || text == [])
    requires text != [] ==> text[0] != SPACE && text[|text| - 1] != SPACE
    ensures Name(name + Spaces(k) + text + Spaces(j)) == name
    ensures Args(name + Spaces(k) + text + Spaces(j)) == text
  {
    var c := name + Spaces(k) + text + Spaces(j);
    WordEndIs(c, 0, |name|);
    var start := |name| + k + if text == [] then j else 0;
    SkipSpacesIs(c, |name|, start);
    if text != [] {
      assert c[start..] == text + Spaces(j);
      TrimEndIs(c[start..], |text|);
    } else {
      assert c[start..] == [];
    }
  }

  lemma WordEndIs(c: seq<byte>, i: nat, r: nat)
    requires i <= r <= |c| && (forall j | i <= j < r :: c[j] != SPACE) && (r < |c| ==> c[r] == SPACE)
    ensures WordEnd(c, i) == r
  {
  }

  lemma SkipSpacesIs(c: seq<byte>, i: nat, r: nat)
    requires i <= r <= |c| && (forall j | i <= j < r :: c[j] == SPACE) && (r < |c| ==> c[r] != SPACE)
    ensures SkipSpaces(c, i) == r
  {
  }

  lemma TrimEndIs(c: seq<byte>, r: nat)
    requires r <= |c| && (forall j | r <= j < |c| :: c[j] == SPACE) && (r > 0 ==> c[r - 1] != SPACE)
    ensures TrimEnd(c) == c[..r]
  {
  }

  /** A command with its terminator, and readable bytes behind it. */
  function Held(c: seq<byte>): (m: Memory)
    requires |c| < LINE_BUF_SIZE
    ensures forall j | 0 <= j < LINE_BUF_SIZE :: m[j] == Some(if j < |c| then c[j] else NUL)
  {
    seq(LINE_BUF_SIZE, j requires 0 <= j < LINE_BUF_SIZE => Some(if j < |c| then c[j] else NUL))
  }

  lemma {:induction false} PrefixIs(m: seq<Option<byte>>, c: seq<byte>)
    requires |c| < |m| && m[|c|] == Some(NUL) && forall j | 0 <= j < |c| :: m[j] == Some(c[j]) && c[j] != NUL
    ensures Prefix(m) == c
    decreases |c|
  {
    if c != [] {
      PrefixIs(m[1..], c[1..]);
    }
  }

  /** Round trip through the control block: getargs after execute returns the argument text. */
  method ArgsRoundTrip(name: seq<byte>, k: nat, text: seq<byte>, j: nat, buf: array<byte>) returns (r: int)
    requires SPACE !in name && NUL !in name && NUL !in text && k > 0
    requires text != [] ==> text[0] != SPACE && text[|text| - 1] != SPACE
    requires |name| + k + |text| + j < LINE_BUF_SIZE && |text| < buf.Length
    modifies buf
    ensures r == 0 && buf[..|text|] == text && buf[|text|] == NUL
  {
    var c := name + Spaces(k) + text + Spaces(j);
    CommandRoundTrip(name, k, text, j);
    hide Str, Name, Args, Spaces;
    var args := ParsedArgs(c);
    r := GetArgs(args, buf, buf.Length);
  }

  method ParsedArgs(c: seq<byte>) returns (args: array<byte>)
    requires |c| < LINE_BUF_SIZE && NUL !in c
    ensures fresh(args) && args.Length == LINE_BUF_SIZE && NUL in args[..] && Str(args[..]) == Args(c)
  {
    PrefixIs(Held(c), c);
    hide Str, Name, Args, Prefix, RawArgs;
    var name := new byte[LINE_BUF_SIZE](_ => NUL);
    args := new byte[LINE_BUF_SIZE](_ => NUL);
    var ok := ParseCommand(Held(c), name, args);
  }
}
