/** The read-only file system and its file descriptors
    (filesystem.c, and open/read/close of syscall.c). */
module Files {
  import opened Machine
  import opened CStrings

  const BLOCK_BYTES := 4096
  const FILE_NAME_LEN := 32
  const DENTRY_SIZE := 64
  const BLOCKS_PER_INODE := 1023
  const RTC_TYPE := 0
  const DIR_TYPE := 1
  const FILE_TYPE := 2

  datatype Dentry = Dentry(name: seq<byte>, kind: nat, inode: nat)
  datatype Inode = Inode(length: nat, blocks: seq<nat>)
  /** The boot block's entries, the inodes, and the data blocks as one flat run of bytes. */
  datatype Image = Image(entries: seq<Dentry>, inodes: seq<Inode>, data: seq<byte>)

  ghost predicate WellFormedInode(img: Image, node: Inode) {
    && |node.blocks| == BLOCKS_PER_INODE
    && node.length <= BLOCK_BYTES * BLOCKS_PER_INODE
    && forall b | 0 <= b < BLOCKS_PER_INODE && BLOCK_BYTES * b < node.length ::
         BLOCK_BYTES * (node.blocks[b] + 1) <= |img.data|
  }

  ghost predicate WellFormed(img: Image) {
    && |img.entries| <= 63
    && (forall e | e in img.entries :: |e.name| == FILE_NAME_LEN && e.kind <= FILE_TYPE)
    && (forall e | e in img.entries && e.kind == FILE_TYPE :: e.inode < |img.inodes|)
    && (forall n | 0 <= n < |img.inodes| :: WellFormedInode(img, img.inodes[n]))
  }

  /** What a file holds: byte i lives in the block the inode lists for i / 4096. */
  ghost function Contents(img: Image, n: nat): (bytes: seq<byte>)
    requires WellFormed(img) && n < |img.inodes|
    ensures |bytes| == img.inodes[n].length
  {
    var node := img.inodes[n];
    assert WellFormedInode(img, node);
    seq(node.length, i requires 0 <= i < node.length =>
      img.data[BLOCK_BYTES * node.blocks[i / BLOCK_BYTES] + i % BLOCK_BYTES])
  }

  lemma ContentsAt(img: Image, n: nat, bnum: nat, bpos: nat)
    requires WellFormed(img) && n < |img.inodes| && bpos < BLOCK_BYTES
    requires BLOCK_BYTES * bnum + bpos < img.inodes[n].length
    ensures WellFormedInode(img, img.inodes[n]) && bnum < BLOCKS_PER_INODE
    ensures BLOCK_BYTES * img.inodes[n].blocks[bnum] + bpos < |img.data|
    ensures Contents(img, n)[BLOCK_BYTES * bnum + bpos] == img.data[BLOCK_BYTES * img.inodes[n].blocks[bnum] + bpos]
  {
    assert WellFormedInode(img, img.inodes[n]);
    var i := BLOCK_BYTES * bnum + bpos;
    assert i / BLOCK_BYTES == bnum && i % BLOCK_BYTES == bpos;
  }

  /** These bytes are the file of inode n, length and every byte, as the image holds it. */
  ghost predicate IsFile(img: Image, n: nat, bytes: seq<byte>)
    requires n < |img.inodes|
  {
    var node := img.inodes[n];
    && |bytes| == node.length
    && forall i | 0 <= i < |bytes| ::
         && i / 4096 < |node.blocks| && 4096 * node.blocks[i / 4096] + i % 4096 < |img.data|
         && bytes[i] == img.data[4096 * node.blocks[i / 4096] + i % 4096]
  }

  lemma ContentsIsFile(img: Image, n: nat)
    requires WellFormed(img) && n < |img.inodes|
    ensures IsFile(img, n, Contents(img, n))
  {
    forall i | 0 <= i < img.inodes[n].length
      ensures i / 4096 < |img.inodes[n].blocks| && 4096 * img.inodes[n].blocks[i / 4096] + i % 4096 < |img.data|
      ensures Contents(img, n)[i] == img.data[4096 * img.inodes[n].blocks[i / 4096] + i % 4096]
    {
      ContentsAt(img, n, i / 4096, i % 4096);
    }
  }

  /** The bytes a read of `length` at `offset` is entitled to. */
  ghost function Slice(bytes: seq<byte>, offset: nat, length: nat): (r: seq<byte>)
    ensures |r| == Max(0, Min(length, |bytes| - offset))
    ensures r == [] <==> length == 0 || offset >= |bytes|
    ensures forall i | 0 <= i < |r| :: r[i] == bytes[offset + i]
  {
    if offset >= |bytes| then [] else bytes[offset..Min(offset + length, |bytes|)]
  }

  /** read_data: walks the block list byte by byte; equals the slice of the file's contents. */
  method ReadData(img: Image, inode: nat, offset: nat, buf: array<byte>, length: nat) returns (r: int)
    requires WellFormed(img)
    requires inode < |img.inodes| ==> |Slice(Contents(img, inode), offset, length)| <= buf.Length
    modifies buf
    ensures inode >= |img.inodes| ==> r == -1 && buf[..] == old(buf[..])
    ensures inode < |img.inodes| ==>
      && r == |Slice(Contents(img, inode), offset, length)|
      && buf[..r] == Slice(Contents(img, inode), offset, length)
      && buf[r..] == old(buf[r..])
  {
    if inode >= |img.inodes| {
      return -1;
    }
    r := CopyBlocks(img, inode, offset, buf, length);
    assert buf[..r] == Slice(Contents(img, inode), offset, length);
  }

  /** The loop of read_data. */
  method CopyBlocks(img: Image, inode: nat, offset: nat, buf: array<byte>, length: nat) returns (read: int)
    requires WellFormed(img) && inode < |img.inodes|
    requires |Slice(Contents(img, inode), offset, length)| <= buf.Length
    modifies buf
    ensures read == |Slice(Contents(img, inode), offset, length)|
    ensures forall i | 0 <= i < read :: buf[i] == Slice(Contents(img, inode), offset, length)[i]
    ensures forall i | read <= i < buf.Length :: buf[i] == old(buf[i])
  {
    hide Contents, Slice, WellFormed;
    var node := img.inodes[inode];
    ghost var want := Slice(Contents(img, inode), offset, length);
    var fpos, bpos, bnum := offset, offset % BLOCK_BYTES, offset / BLOCK_BYTES;
    // a position past the last block gives an address that is never read
    var addr := if bnum < |node.blocks| then BLOCK_BYTES * node.blocks[bnum] + bpos else 0;
    read := 0;
    while read < length && fpos < node.length
      invariant 0 <= read <= |want| <= length
      invariant fpos == offset + read
      invariant 0 <= bpos <= BLOCK_BYTES && 0 <= bnum
      invariant BLOCK_BYTES * bnum + bpos == fpos
      invariant bnum < |node.blocks| ==> addr == BLOCK_BYTES * node.blocks[bnum] + bpos
      invariant forall i | 0 <= i < read :: buf[i] == want[i]
      invariant forall i | read <= i < buf.Length :: buf[i] == old(buf[i])
    {
      if bpos >= BLOCK_BYTES {
        bpos := 0;
        bnum := bnum + 1;
        ContentsAt(img, inode, bnum, bpos);
        addr := BLOCK_BYTES * node.blocks[bnum];
        if addr >= |img.data| {
          return -1;
        }
      }
      ContentsAt(img, inode, bnum, bpos);
      buf[read] := img.data[addr];
      bpos, addr, fpos, read := bpos + 1, addr + 1, fpos + 1, read + 1;
    }
  }

  // ----- read_dentry_by_name

  /** The entry's name field starts with `name`. */
  predicate StartsWith(e: Dentry, name: seq<byte>) {
    |name| <= |e.name| && e.name[..|name|] == name
  }

  /** The entry is called `name`: the field holds it, then a NUL unless it fills the field. */
  predicate Named(e: Dentry, name: seq<byte>) {
    StartsWith(e, name) && (|name| < |e.name| ==> e.name[|name|] == NUL)
  }

  /** The entry's name is longer than `name` and begins with it. */
  predicate Extends(e: Dentry, name: seq<byte>) {
    StartsWith(e, name) && !Named(e, name)
  }

  /** What read_dentry_by_name returns: the verdict of the first entry starting with the name. */
  function Lookup(entries: seq<Dentry>, name: seq<byte>): (r: Option<Dentry>)
    ensures r.Some? ==> r.value in entries && Named(r.value, name)
  {
    if entries == [] || |name| > FILE_NAME_LEN then None
    else if StartsWith(entries[0], name) then
      if Named(entries[0], name) then Some(entries[0]) else None
    else Lookup(entries[1..], name)
  }

  method ReadDentryByName(img: Image, name: seq<byte>) returns (r: Option<Dentry>)
    requires WellFormed(img) && NUL !in name
    ensures r == Lookup(img.entries, name)
  {
    if |name| > FILE_NAME_LEN {
      return None;
    }
    for i := 0 to |img.entries|
      invariant Lookup(img.entries, name) == Lookup(img.entries[i..], name)
    {
      var e := img.entries[i];
      assert e in img.entries;
      assert img.entries[i..][1..] == img.entries[i + 1..];
      var c := Strncmp(name, e.name, |name|);
      assert SameFor(name, e.name, |name|) <==> StartsWith(e, name);
      if c == 0 {
        if |name| < FILE_NAME_LEN && e.name[|name|] != NUL {
          return None;
        }
        return Some(e);
      }
    }
    return None;
  }

  /** Where the source's search stops: the first entry that starts with the name. */
  ghost predicate FirstStart(entries: seq<Dentry>, name: seq<byte>, i: nat) {
    && i < |entries|
    && StartsWith(entries[i], name)
    && forall j | 0 <= j < i :: !StartsWith(entries[j], name)
  }

  lemma {:induction false} LookupAtFirstStart(entries: seq<Dentry>, name: seq<byte>, i: nat)
    requires FirstStart(entries, name, i) && |name| <= FILE_NAME_LEN
    ensures Lookup(entries, name) == if Named(entries[i], name) then Some(entries[i]) else None
  {
    if i > 0 {
      assert !StartsWith(entries[0], name);
      LookupAtFirstStart(entries[1..], name, i - 1);
    }
  }

  lemma {:induction false} LookupNoStart(entries: seq<Dentry>, name: seq<byte>)
    requires forall e | e in entries :: !StartsWith(e, name)
    ensures Lookup(entries, name) == None
  {
    if entries != [] && |name| <= FILE_NAME_LEN {
      LookupNoStart(entries[1..], name);
    }
  }

  /** A lookup succeeds exactly when an entry of that name stands before every entry that
      merely extends the name, and then yields the first entry of that name. */
  lemma LookupExact(entries: seq<Dentry>, name: seq<byte>)
    ensures Lookup(entries, name).Some? <==>
      && |name| <= FILE_NAME_LEN
      && exists i | 0 <= i < |entries| :: Named(entries[i], name) && forall j | 0 <= j < i :: !Extends(entries[j], name)
    ensures forall i | 0 <= i < |entries| && |name| <= FILE_NAME_LEN && Named(entries[i], name)
              && (forall j | 0 <= j < i :: !StartsWith(entries[j], name)) ::
              Lookup(entries, name) == Some(entries[i])
  {
    if |name| <= FILE_NAME_LEN {
      if i :| 0 <= i < |entries| && StartsWith(entries[i], name) {
        var k := LeastStart(entries, name, i);
        LookupAtFirstStart(entries, name, k);
      } else {
        LookupNoStart(entries, name);
      }
    }
  }

  lemma LeastStart(entries: seq<Dentry>, name: seq<byte>, i: nat) returns (k: nat)
    requires i < |entries| && StartsWith(entries[i], name)
    ensures k <= i && FirstStart(entries, name, k)
  {
    k := 0;
    while !StartsWith(entries[k], name)
      invariant k <= i && forall j | 0 <= j < k :: !StartsWith(entries[j], name)
      decreases i - k
    {
      k := k + 1;
    }
  }

  /** Not every listed file can be opened: "a" is hidden behind "ab". */
  lemma LookupHidesShorterName()
    ensures exists entries: seq<Dentry>, name: seq<byte> ::
      |name| <= FILE_NAME_LEN && (exists e | e in entries :: Named(e, name)) && Lookup(entries, name) == None
  {
    var pad := seq(30, _ => NUL);
    var ab := Dentry([97, 98] + pad, FILE_TYPE, 0);
    var a := Dentry([97, 0] + pad, FILE_TYPE, 1);
    var entries := [ab, a];
    assert a.name[..1] == [97] && ab.name[..1] == [97];
    assert a in entries && Named(a, [97]) && Extends(ab, [97]);
    assert Lookup(entries, [97]) == None;
  }

  // ----- file descriptors

  datatype Ops = NoOps | StdinOps | StdoutOps | RtcOps | DirOps | FileOps
  datatype File = File(op: Ops, inode: nat, pos: nat, used: bool)

  const CLOSED := File(NoOps, 0, 0, false)
  const STDIN := File(StdinOps, 0, 0, true)
  const STDOUT := File(StdoutOps, 0, 0, true)
  const FRESH_TABLE := [STDIN, STDOUT, CLOSED, CLOSED, CLOSED, CLOSED, CLOSED, CLOSED]

  /** What a read hands back: a failure, bytes of this file system, or a wait for a device. */
  datatype ReadResult = Failed | Data(bytes: seq<byte>) | Device

  /** The file record open writes for an entry of the given type. */
  function Opened(d: Dentry): File {
    if d.kind == RTC_TYPE then File(RtcOps, 0, 0, true)
    else if d.kind == DIR_TYPE then File(DirOps, d.inode, DENTRY_SIZE, true)
    else File(FileOps, d.inode, 0, true)
  }

  /** The lowest descriptor from `from` that is free, or 8. */
  function LowestFree(fds: seq<File>, from: nat): (i: nat)
    requires |fds| == 8 && from <= 8
    ensures from <= i <= 8
    ensures i < 8 ==> !fds[i].used
    ensures forall j | from <= j < i :: fds[j].used
    decreases 8 - from
  {
    if from == 8 || !fds[from].used then from else LowestFree(fds, from + 1)
  }

  function OpenSpec(img: Image, fds: seq<File>, name: seq<byte>): (r: (seq<File>, int))
    requires |fds| == 8
  {
    var d := Lookup(img.entries, name);
    var i := LowestFree(fds, 2);
    var fd: int := if d == None || i == 8 then -1 else i;
    (if fd == -1 then fds else fds[i := Opened(d.value)], fd)
  }

  function CloseSpec(fds: seq<File>, fd: int): (r: (seq<File>, int))
    requires |fds| == 8
  {
    if fd > 7 || fd < 2 || !fds[fd].used then (fds, -1) else (fds[fd := CLOSED], 0)
  }

  /** open by name: the first entry that starts with the name decides. Its type gives the operations,
      and a file is opened on its own inode, at its start. */
  lemma OpenByName(img: Image, fds: seq<File>, name: seq<byte>, i: nat)
    requires |fds| == 8 && |name| <= FILE_NAME_LEN && FirstStart(img.entries, name, i)
    ensures var (fds', r), d := OpenSpec(img, fds, name), img.entries[i];
      && (r == -1 <==> Extends(d, name) || forall j | 2 <= j < 8 :: fds[j].used)
      && (r != -1 ==>
            && 2 <= r < 8 && fds'[r].used
            && (fds'[r].op.RtcOps? <==> d.kind == 0) && (fds'[r].op.DirOps? <==> d.kind == 1)
            && (fds'[r].op.FileOps? <==> d.kind != 0 && d.kind != 1)
            && (fds'[r].op.FileOps? ==> fds'[r].inode == d.inode && fds'[r].pos == 0)
            && (fds'[r].op.DirOps? ==> fds'[r].pos == DENTRY_SIZE))
  {
    LookupAtFirstStart(img.entries, name, i);
  }

  /** close refuses 0, 1, everything out of range and what is not open, and changes nothing then;
      otherwise it frees the descriptor and no other. */
  lemma CloseExact(fds: seq<File>, fd: int)
    requires |fds| == 8
    ensures var (fds', r) := CloseSpec(fds, fd);
      && (r == -1 <==> fd == 0 || fd == 1 || !(0 <= fd < 8) || !fds[fd].used)
      && (r == -1 ==> fds' == fds)
      && (r != -1 ==> r == 0 && !fds'[fd].used && forall j | 0 <= j < 8 && j != fd :: fds'[j] == fds[j])
  {
  }

  /** The name of directory entry k as one directory read of n bytes returns it. */
  ghost function NameOf(img: Image, k: nat, n: nat): (r: seq<byte>)
    requires WellFormed(img)
    ensures |r| <= Min(n, FILE_NAME_LEN) && NUL !in r
    ensures k < |img.entries| && Min(n, FILE_NAME_LEN) > |r| ==>
      |r| < |img.entries[k].name| && img.entries[k].name[|r|] == NUL
    ensures k < |img.entries| ==> r <= img.entries[k].name
  {
    if k >= |img.entries| then []
    else
      assert img.entries[k] in img.entries;
      BeforeNul(img.entries[k].name, Min(n, FILE_NAME_LEN))
  }

  ghost function ReadSpec(img: Image, fds: seq<File>, fd: int, n: nat): (r: (seq<File>, ReadResult))
    requires WellFormed(img) && FilesOk(img, fds)
  {
    if fd < 0 || fd >= 8 || !fds[fd].used then (fds, Failed)
    else
      var f := fds[fd];
      match f.op
      case NoOps => (fds, Failed)
      case StdoutOps => (fds, Failed)
      case StdinOps => (fds, Device)
      case RtcOps => (fds, Device)
      case FileOps =>
        var got := Slice(Contents(img, f.inode), f.pos, n);
        (fds[fd := f.(pos := f.pos + |got|)], Data(got))
      case DirOps =>
        if f.pos / DENTRY_SIZE > |img.entries| then (fds, Data([]))
        else (fds[fd := f.(pos := f.pos + DENTRY_SIZE)], Data(NameOf(img, f.pos / DENTRY_SIZE - 1, n)))
  }

  /** Descriptors 0 and 1 are the terminal's; every open file names an inode of the image
      and every open directory stands on an entry boundary. */
  ghost predicate FilesOk(img: Image, fds: seq<File>) {
    && |fds| == 8
    && fds[0] == STDIN && fds[1] == STDOUT
    && forall i | 0 <= i < 8 :: FileOk(img, fds[i])
  }

  ghost predicate FileOk(img: Image, f: File) {
    && (f.used <==> !f.op.NoOps?) && (!f.used ==> f == CLOSED)
    && (f.op.FileOps? ==> f.inode < |img.inodes|)
    && (f.op.DirOps? ==> f.pos >= DENTRY_SIZE && f.pos % DENTRY_SIZE == 0)
  }

  /** The descriptor table of one process control block. */
  class FdTable {
    const img: Image
    var fd: array<File>

    ghost predicate Valid()
      reads this, fd
    {
      WellFormed(img) && fd.Length == 8 && FilesOk(img, fd[..])
    }

    constructor (img: Image)
      requires WellFormed(img)
      ensures Valid() && fresh(fd) && this.img == img
      ensures fd[..] == FRESH_TABLE
    {
      this.img := img;
      fd := new File[8](_ => CLOSED);
      new;
      fd[0], fd[1] := STDIN, STDOUT;
    }

    method Open(name: seq<byte>) returns (r: int)
      requires Valid() && NUL !in name
      modifies fd
      ensures Valid()
      ensures (fd[..], r) == OpenSpec(img, old(fd[..]), name)
    {
      var d := ReadDentryByName(img, name);
      if d.None? {
        return -1;
      }
      for i := 2 to 8
        invariant fd[..] == old(fd[..])
        invariant LowestFree(fd[..], 2) == LowestFree(fd[..], i)
      {
        if !fd[i].used {
          if d.value.kind == RTC_TYPE {
            fd[i] := File(RtcOps, 0, 0, true);
          } else if d.value.kind == DIR_TYPE {
            fd[i] := File(DirOps, d.value.inode, 0, true);
          } else if d.value.kind == FILE_TYPE {
            fd[i] := File(FileOps, d.value.inode, 0, true);
          }
          if fd[i].op.DirOps? {
            fd[i] := fd[i].(pos := DENTRY_SIZE);
          }
          assert fd[..] == old(fd[..])[i := Opened(d.value)];
          return i;
        }
      }
      return -1;
    }

    method Close(n: int) returns (r: int)
      requires Valid()
      modifies fd
      ensures Valid()
      ensures (fd[..], r) == CloseSpec(old(fd[..]), n)
    {
      if n > 7 || n < 2 || !fd[n].used {
        return -1;
      }
      fd[n] := CLOSED;
      assert fd[..] == old(fd[..])[n := CLOSED];
      r := 0;
    }

    /** The loop of halt over all descriptors: afterwards the table is as a new process finds it. */
    method CloseAll()
      requires Valid()
      modifies fd
      ensures Valid() && fd[..] == FRESH_TABLE
    {
      var i := 0;
      while i < 8
        invariant 0 <= i <= 8 && Valid()
        invariant forall j | 2 <= j < i :: fd[j] == CLOSED
      {
        var r := Close(i);
        i := i + 1;
      }
    }

    /** read of an open file or directory; the bytes land in the front of buf. */
    method Read(n: int, buf: array<byte>, count: nat) returns (r: ReadResult)
      requires Valid() && count <= buf.Length && buf as object != fd
      modifies fd, buf
      ensures Valid()
      ensures (fd[..], r) == ReadSpec(img, old(fd[..]), n, count)
      ensures r.Data? ==> |r.bytes| <= buf.Length && buf[..|r.bytes|] == r.bytes
    {
      if n < 0 || n >= 8 || !fd[n].used {
        return Failed;
      }
      match fd[n].op {
        case NoOps => return Failed;
        case StdoutOps => return Failed;
        case StdinOps => return Device;
        case RtcOps => return Device;
        case FileOps =>
          r := FileRead(n, buf, count);
        case DirOps =>
          r := DirRead(n, buf, count);
      }
    }

    method FileRead(n: nat, buf: array<byte>, count: nat) returns (r: ReadResult)
      requires Valid() && count <= buf.Length && buf as object != fd
      requires n < 8 && fd[n].op.FileOps?
      modifies fd, buf
      ensures Valid()
      ensures (fd[..], r) == ReadSpec(img, old(fd[..]), n, count)
      ensures r.Data? && |r.bytes| <= buf.Length && buf[..|r.bytes|] == r.bytes
    {
      assert FileOk(img, fd[n]);
      var got := ReadData(img, fd[n].inode, fd[n].pos, buf, count);
      if got > 0 {
        fd[n] := fd[n].(pos := fd[n].pos + got);
      }
      assert fd[..] == old(fd[..])[n := old(fd[n]).(pos := old(fd[n]).pos + got)];
      r := Data(buf[..got]);
    }

    method DirRead(n: nat, buf: array<byte>, count: nat) returns (r: ReadResult)
      requires Valid() && count <= buf.Length && buf as object != fd
      requires n < 8 && fd[n].op.DirOps?
      modifies fd, buf
      ensures Valid()
      ensures (fd[..], r) == ReadSpec(img, old(fd[..]), n, count)
      ensures r.Data? && |r.bytes| <= buf.Length && buf[..|r.bytes|] == r.bytes
    {
      assert FileOk(img, fd[n]);
      var bytes := if count > FILE_NAME_LEN then FILE_NAME_LEN else count;
      if fd[n].pos / DENTRY_SIZE > |img.entries| {
        return Data([]);
      }
      var name := img.entries[fd[n].pos / DENTRY_SIZE - 1].name;
      assert img.entries[fd[n].pos / DENTRY_SIZE - 1] in img.entries;
      var i := CopyName(name, bytes, buf);
      fd[n] := fd[n].(pos := fd[n].pos + DENTRY_SIZE);
      assert fd[..] == old(fd[..])[n := old(fd[n]).(pos := old(fd[n]).pos + DENTRY_SIZE)];
      r := Data(buf[..i]);
    }
  }

  /** The copy loop of dir_read. */
  method CopyName(name: seq<byte>, n: nat, buf: array<byte>) returns (i: nat)
    requires n <= |name| && n <= buf.Length
    modifies buf
    ensures i <= n && buf[..i] == BeforeNul(name, n)
  {
    i := 0;
    while i < n && name[i] != NUL
      invariant i <= n
      invariant forall j | 0 <= j < i :: buf[j] == name[j] && name[j] != NUL
    {
      buf[i] := name[i];
      i := i + 1;
    }
    BeforeNulIs(name, n, i);
  }
}
