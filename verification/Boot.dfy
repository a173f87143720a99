/** How the kernel starts: the first execute("shell") on empty tables (kernel.c, boot.S), and a
    file system it starts from. */
module Boot {
  import opened Machine
  import opened Paging
  import opened Files
  import opened Processes
  import opened Directories
  import opened Runs

  /** The tables as the loader leaves them: no process, no directory entry, and shells_started 1. */
  ghost predicate Empty(k: State) {
    && Shape(k) && k.shells == 1
    && (forall p: Pid :: !k.used[p] && !k.active[p])
    && (forall p: Pid, i | 0 <= i < ENTRIES :: k.dirs[p][i] == 0)
  }

  /** execute("shell") from the boot stack, the 8KB below 8MB, starts the first shell in slot 0:
      every run of the kernel starts in a booted state. */
  lemma BootsFirstShell(e: Env, k: State, regs: Regs, residue: seq<byte>)
    requires EnvOk(e) && Empty(k) && InStack(regs.esp, 0) && |residue| == HEAD
    ensures CurPcb(regs.esp) == 0
    ensures var (k', ok) := Execute(e, k, regs, SHELL, residue); ok && Booted(e, k')
  {
    hide Program, Walk, UserEntry, Directory, DirOk, WellFormed, ProgramsFit, ShellLoads;
    CurPcbIsOwner(regs.esp, 0);
    ShellIsProgram(e.fs, residue);
    assert FirstFree(k.used, 0) == 0;
    ExecuteSpawns(e, k, regs, SHELL, residue, 0);
    forall p: Pid ensures DirOk(e, p, k.dirs[p]) {
      EmptyDirOk(e, p, k.dirs[p]);
    }
    ExecuteDirs(e, k, regs, SHELL, residue);
  }

  lemma EmptyDirOk(e: Env, p: Pid, dir: seq<nat>)
    requires |dir| == ENTRIES && forall i | 0 <= i < ENTRIES :: dir[i] == 0
    ensures DirOk(e, p, dir)
  {
    hide UserEntry, VidmapEntry, Or;
  }

  // ----- a small file system

  function Padded(name: seq<byte>): (r: seq<byte>)
    requires |name| <= FILE_NAME_LEN
    ensures |r| == FILE_NAME_LEN
  {
    name + seq(FILE_NAME_LEN - |name|, _ => NUL)
  }

  const EMPTY_NAME: seq<byte> := [120]

  /** A shell of four bytes, the magic alone, and an empty file. */
  function Small(): Image {
    Image([Dentry(Padded(SHELL), FILE_TYPE, 0), Dentry(Padded(EMPTY_NAME), FILE_TYPE, 1)],
          [Inode(4, seq(BLOCKS_PER_INODE, _ => 0)), Inode(0, seq(BLOCKS_PER_INODE, _ => 0))],
          ELF + seq(BLOCK_BYTES - 4, _ => 0))
  }

  lemma SmallWellFormed()
    ensures WellFormed(Small())
  {
    var img := Small();
    assert WellFormedInode(img, img.inodes[0]) && WellFormedInode(img, img.inodes[1]);
  }

  lemma SmallContents()
    ensures WellFormed(Small()) && Contents(Small(), 0) == ELF && Contents(Small(), 1) == []
  {
    SmallWellFormed();
    forall i | 0 <= i < 4 ensures Contents(Small(), 0)[i] == ELF[i] {
      ContentsAt(Small(), 0, 0, i);
    }
  }

  lemma SmallNames()
    ensures Lookup(Small().entries, SHELL) == Some(Small().entries[0])
    ensures Lookup(Small().entries, EMPTY_NAME) == Some(Small().entries[1])
  {
    var es := Small().entries;
    assert es[0].name[..5] == SHELL && es[0].name[5] == NUL;
    assert FirstStart(es, SHELL, 0);
    LookupAtFirstStart(es, SHELL, 0);
    assert es[0].name[..1][0] == 115;
    assert es[1].name[..1] == EMPTY_NAME && es[1].name[1] == NUL;
    assert FirstStart(es, EMPTY_NAME, 1);
    LookupAtFirstStart(es, EMPTY_NAME, 1);
  }

  /** There is an environment of the kind every run assumes. */
  lemma SmallEnvironment()
    ensures EnvOk(Env(Small(), 0x40_1000, 0x40_2000))
  {
    SmallContents();
    SmallNames();
    hide Contents, Lookup, WellFormed;
    assert |Small().inodes| == 2 && Small().entries[0].inode == 0;
  }

  /** execute runs an empty file when its header buffer still holds the magic. */
  lemma EmptyFileRuns()
    ensures WellFormed(Small())
    ensures Program(Small(), EMPTY_NAME, ELF + seq(HEAD - 4, _ => 0)) == Some([])
  {
    SmallContents();
    SmallNames();
    NameOfWord(EMPTY_NAME);
    var residue: seq<byte> := ELF + seq(HEAD - 4, _ => 0);
    assert residue[0..4] == ELF[0..];
    ProgramExact(Small(), EMPTY_NAME, residue);
  }
}
