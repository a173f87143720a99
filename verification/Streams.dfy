/** Any interleaving of open, read and close by any processes: every open session reads its
    own file from the start, byte for byte. */
module Streams {
  import opened Machine
  import opened Files

  datatype Call = Open(name: seq<byte>) | Read(fd: int, size: nat) | Close(fd: int) | Restart
  datatype Event = Event(pid: nat, call: Call)

  /** One process: its descriptors, and per descriptor everything read since it was opened
      (`got`) and the number of reads since then (`count`). */
  datatype Client = Client(fds: seq<File>, got: seq<seq<byte>>, count: seq<nat>)

  const IDLE := Client(FRESH_TABLE, [[], [], [], [], [], [], [], []], [0, 0, 0, 0, 0, 0, 0, 0])

  ghost predicate Shaped(img: Image, c: Client) {
    FilesOk(img, c.fds) && |c.got| == 8 && |c.count| == 8
  }

  ghost function Do(img: Image, c: Client, call: Call): (r: Client)
    requires WellFormed(img) && Shaped(img, c)
    ensures Shaped(img, r)
  {
    match call
    case Open(name) =>
      var (fds, i) := OpenSpec(img, c.fds, name);
      if i == -1 then c else Client(fds, c.got[i := []], c.count[i := 0])
    case Close(fd) =>
      c.(fds := CloseSpec(c.fds, fd).0)
    case Read(fd, n) =>
      var (fds, r) := ReadSpec(img, c.fds, fd, n);
      if r.Data? then Client(fds, c.got[fd := c.got[fd] + r.bytes], c.count[fd := c.count[fd] + 1]) else c
    case Restart => IDLE
  }

  ghost function Play(img: Image, cs: seq<Client>, events: seq<Event>): (r: seq<Client>)
    requires WellFormed(img) && forall c | c in cs :: Shaped(img, c)
    ensures |r| == |cs| && forall c | c in r :: Shaped(img, c)
    decreases |events|
  {
    if events == [] then cs
    else
      var before := Play(img, cs, events[..|events| - 1]);
      var e := events[|events| - 1];
      if e.pid < |before| then before[e.pid := Do(img, before[e.pid], e.call)] else before
  }

  /** A run of one process's calls. */
  ghost function DoAll(img: Image, c: Client, calls: seq<Call>): (r: Client)
    requires WellFormed(img) && Shaped(img, c)
    ensures Shaped(img, r)
  {
    if calls == [] then c else Do(img, DoAll(img, c, calls[..|calls| - 1]), calls[|calls| - 1])
  }

  /** What descriptor i has delivered is a prefix of its file, and it stands at the end of that
      prefix; a directory has moved one entry per read until the entries ran out. */
  ghost predicate InStep(img: Image, c: Client, i: nat)
    requires WellFormed(img) && Shaped(img, c) && i < 8
  {
    var f := c.fds[i];
    && (f.op.FileOps? ==>
          f.pos <= |Contents(img, f.inode)| && c.got[i] == Contents(img, f.inode)[..f.pos])
    && (f.op.DirOps? ==> f.pos == DENTRY_SIZE * (1 + Min(c.count[i], |img.entries|)))
  }

  ghost predicate AllInStep(img: Image, c: Client)
    requires WellFormed(img) && Shaped(img, c)
  {
    forall i | 0 <= i < 8 :: InStep(img, c, i)
  }

  /** A read moves the descriptor it reads along its file, and no other. */
  lemma ReadKeepsInStep(img: Image, c: Client, fd: nat, n: nat)
    requires WellFormed(img) && Shaped(img, c) && fd < 8 && InStep(img, c, fd)
    ensures InStep(img, Do(img, c, Read(fd, n)), fd)
  {
    hide Contents, WellFormed;
    var f := c.fds[fd];
    assert FileOk(img, f);
    if f.op.FileOps? {
      var all := Contents(img, f.inode);
      var got := Slice(all, f.pos, n);
      assert all[..f.pos] + got == all[..f.pos + |got|];
    }
  }

  lemma DoKeepsInStep(img: Image, c: Client, call: Call, i: nat)
    requires WellFormed(img) && Shaped(img, c) && i < 8 && InStep(img, c, i)
    ensures InStep(img, Do(img, c, call), i)
  {
    if call.Read? && call.fd == i {
      ReadKeepsInStep(img, c, i, call.size);
    }
  }

  /** In every state reachable by any calls of any processes, every session is a prefix of its
      file's contents and descriptors 0 and 1 are open. */
  lemma {:induction false} SessionsArePrefixes(img: Image, cs: seq<Client>, events: seq<Event>)
    requires WellFormed(img) && forall c | c in cs :: c == IDLE
    ensures forall c | c in Play(img, cs, events) :: AllInStep(img, c) && c.fds[0].used && c.fds[1].used
    decreases |events|
  {
    if events != [] {
      var pre := events[..|events| - 1];
      SessionsArePrefixes(img, cs, pre);
      var before, e := Play(img, cs, pre), events[|events| - 1];
      if e.pid < |before| {
        forall i | 0 <= i < 8 ensures InStep(img, Do(img, before[e.pid], e.call), i) {
          DoKeepsInStep(img, before[e.pid], e.call, i);
        }
      }
    }
  }

  /** Descriptor fd is a session on the file of inode n: what it delivered is the start of that file. */
  ghost predicate Reads(img: Image, c: Client, fd: nat, n: nat)
    requires WellFormed(img) && Shaped(img, c) && fd < 8
  {
    && c.fds[fd].op.FileOps? && c.fds[fd].inode == n < |img.inodes| && InStep(img, c, fd)
    && c.got[fd] <= Contents(img, n)
  }

  lemma DoKeepsReads(img: Image, c: Client, call: Call, fd: nat, n: nat)
    requires WellFormed(img) && Shaped(img, c) && fd < 8 && Reads(img, c, fd, n)
    requires call != Close(fd) && !call.Restart?
    ensures Reads(img, Do(img, c, call), fd, n)
  {
    hide Contents, WellFormed, Lookup;
    assert FileOk(img, c.fds[fd]);
    DoKeepsInStep(img, c, call, fd);
  }

  /** A file opened by name: whatever the process calls after that, as long as it does not close the
      descriptor, what it reads there concatenates to the start of the file whose entry the name
      found. */
  lemma {:induction false} NamedSession(img: Image, c: Client, name: seq<byte>, i: nat, calls: seq<Call>)
    requires WellFormed(img) && Shaped(img, c) && |name| <= FILE_NAME_LEN
    requires FirstStart(img.entries, name, i) && Named(img.entries[i], name) && img.entries[i].kind == FILE_TYPE
    requires var fd := OpenSpec(img, c.fds, name).1;
      fd != -1 && forall j | 0 <= j < |calls| :: calls[j] != Close(fd) && !calls[j].Restart?
    ensures var fd := OpenSpec(img, c.fds, name).1;
      2 <= fd < 8 && Reads(img, DoAll(img, Do(img, c, Open(name)), calls), fd, img.entries[i].inode)
    decreases |calls|
  {
    OpenByName(img, c.fds, name, i);
    var fd := OpenSpec(img, c.fds, name).1;
    assert img.entries[i] in img.entries;
    if calls != [] {
      hide Do, WellFormed, Reads, Lookup, Contents;
      var pre := calls[..|calls| - 1];
      NamedSession(img, c, name, i, pre);
      DoKeepsReads(img, DoAll(img, Do(img, c, Open(name)), pre), calls[|calls| - 1], fd, img.entries[i].inode);
    }
  }

  /** A session's next read of a file continues exactly where its earlier reads stopped, and
      comes back empty just at end of file or when nothing was asked for. */
  lemma ReadContinues(img: Image, c: Client, fd: nat, n: nat)
    requires WellFormed(img) && Shaped(img, c) && AllInStep(img, c)
    requires fd < 8 && c.fds[fd].op.FileOps?
    ensures InStep(img, c, fd)
    ensures var all := Contents(img, c.fds[fd].inode);
      exists bytes :: ReadSpec(img, c.fds, fd, n).1 == Data(bytes)
        && |bytes| == Min(n, |all| - |c.got[fd]|)
        && c.got[fd] + bytes == all[..|c.got[fd]| + |bytes|]
        && (bytes == [] <==> n == 0 || c.got[fd] == all)
  {
    assert InStep(img, c, fd);
    var f, all := c.fds[fd], Contents(img, c.fds[fd].inode);
    assert FileOk(img, f);
    var got := Slice(all, f.pos, n);
    assert ReadSpec(img, c.fds, fd, n).1 == Data(got);
    assert all[..f.pos] + got == all[..f.pos + |got|];
  }

  /** The k-th read of a directory returns the name of entry k, and nothing once all entries
      have been returned. */
  lemma DirectoryListsEveryEntry(img: Image, c: Client, fd: nat, n: nat)
    requires WellFormed(img) && Shaped(img, c) && AllInStep(img, c)
    requires fd < 8 && c.fds[fd].op.DirOps?
    ensures ReadSpec(img, c.fds, fd, n).1 ==
      Data(if c.count[fd] < |img.entries| then NameOf(img, c.count[fd], n) else [])
  {
    assert InStep(img, c, fd);
    DivModIs(c.fds[fd].pos, DENTRY_SIZE, 1 + Min(c.count[fd], |img.entries|), 0);
    assert NameOf(img, |img.entries|, n) == [];
    hide AllInStep, InStep, NameOf, Contents, WellFormed, FileOk;
  }

  /** open takes the lowest free descriptor of 2..7, from the start of the file, touching no
      other descriptor; close frees exactly it again. */
  lemma OpenTakesLowest(img: Image, c: Client, name: seq<byte>)
    requires WellFormed(img) && Shaped(img, c)
    ensures var (fds, r) := OpenSpec(img, c.fds, name);
      && (r == -1 <==> Lookup(img.entries, name) == None || forall i | 2 <= i < 8 :: c.fds[i].used)
      && (r == -1 ==> fds == c.fds)
      && (r != -1 ==>
            && 2 <= r < 8 && !c.fds[r].used && fds[r].used
            && (forall i | 2 <= i < r :: c.fds[i].used)
            && (forall i | 0 <= i < 8 && i != r :: fds[i] == c.fds[i])
            && CloseSpec(fds, r) == (c.fds, 0))
  {
    var (fds, r) := OpenSpec(img, c.fds, name);
    if r != -1 {
      assert fds[r := c.fds[r]] == c.fds;
    }
  }

  /** A read fails if and only if nothing is open there or it is the terminal's output. */
  lemma ReadFails(img: Image, c: Client, fd: int, n: nat)
    requires WellFormed(img) && Shaped(img, c)
    ensures var (fds, r) := ReadSpec(img, c.fds, fd, n);
      && (r.Failed? <==> !(0 <= fd < 8) || !c.fds[fd].used || c.fds[fd].op.StdoutOps?)
      && (!r.Data? ==> fds == c.fds)
  {
    hide Contents, WellFormed, NameOf;
    forall i | 0 <= i < 8 ensures FileOk(img, c.fds[i]) {
    }
  }
}
