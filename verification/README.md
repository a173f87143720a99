# A model of the bOSs kernel

Dafny model and proofs for the stateful core of a small x86 teaching kernel: its six-slot
process table (`execute`, `halt`, `sched`), the file system calls, the three virtual terminals
that share one display page, the memory and number routines of its library, the real-time-clock
read, and the blinking-text list of its `fish` program.

Where the C or assembly updates state in place the model is a class over arrays
(`KernelTables.Kernel`, `Files.FdTable`, `Driver.Display`, `BlinkPool.BlinkList`, `Rtc.Flags`)
whose methods, loops included, are proved equal to a function on a value that describes the
whole state. What holds on every run is proved about those functions.

| file | what it holds |
|---|---|
| Machine, CStrings, Paging | bytes, C strings, bitwise or, the page-directory walk |
| Files, Streams, Sessions | file system image, descriptors, sessions alone and with their processes |
| Commands, Arguments | the command line, and its arguments for as long as the program runs |
| Processes, Kernel | the process table as a value and as arrays |
| CallStacks, Lifecycle, Runs, Boot | three call stacks, the refinement, every run, and where runs start |
| Traces, Tightness, LostSlots | runs built move by move, the exact waiting bound, lost slots |
| Directories, UserMemory, CallerStore | page directories, isolation, clean loads, where system calls store |
| Screen, Terminal | one terminal alone |
| Console, FaultMessage, Projection, Driver | three terminals on one display, page tables included |
| System, Windows, Interference | processes and console together: whose screen a program draws on, and what faults do |
| Memory, Numbers | memcpy, memset, memmove, itoa, strrev, number formats |
| Rtc, Blink, BlinkList | the clock read; the blink list and its timing |

## Main results

- The process table refines three call stacks (`Lifecycle.Simulates`, `Runs.FromBoot`): `execute`
  is a call, `halt` a return, a tick a switch between the tops. An `execute` that faults on its
  command loses its slot for good (`Runs.LostExact`, `LostSlots.LostRun`).
- Bounded waiting: an active process is dispatched by the fifth tick (`Runs.BoundedWaiting`), and
  no smaller number would do, from any boot (`Tightness.BoundIsTight`). What falls at each tick is
  the distance from the waiter to the other waiting process.
- A caller is resumed with exactly the context of its call, a preempted process with exactly that
  of its preemption (`Runs.ReturnToCaller`, `Runs.ResumedWhereStopped`).
- Whatever address a program uses, it gets to its own memory, to its window on video memory, or
  nowhere (`Windows.EveryAccess`): by their own accesses programs cannot change or see each other's
  memory, nor their predecessor's (`UserMemory.Isolation`, `UserMemory.LoadsSeeOwnFrame`,
  `UserMemory.CleanStart`). System calls that store for a program stay within the same bounds, with
  one exception that is exact (`CallerStores.CopyExact`).
- Each terminal behaves as if it were alone (`Projection.TerminalsAreIndependent`,
  `Windows.TerminalsAreOwn`), under exact conditions on stray draws and page faults; its text is
  laid out in wrapped rows (`Screens.WriteLaysOut`), its keys obey a line discipline
  (`Terminals.LineDiscipline`), and its mappings agree at all times
  (`Projection.MappingsAgree`). A process's window is its own terminal's screen under an exact
  condition (`Windows.OwnWindowExact`), and lasts (`Windows.WindowLasts`).
- Interleaved reads deliver prefixes of their files, in sessions that begin and end with their
  processes (`Streams.SessionsArePrefixes`, `Sessions.SessionIsOwn`).
- Blinking elements keep their period for all 16-bit lengths (`Blinking.BlinkTiming`).

## What the code does that its comments do not say

- `read_dentry_by_name` gives up at the first entry that starts with the name, so a file is
  hidden behind an earlier one whose name extends its own (`Files.LookupExact` has the exact
  condition, `Files.LookupHidesShorterName` an instance).
- `execute` does not clear its header buffer: behind a file of less than four bytes the check
  reads what the buffer held before. `Processes.ProgramExact` has the exact condition for every
  content, `Boot.EmptyFileRuns` an instance.
- The blink pool uses location 0 for "free" and `add` accepts it (`Blinking.AddSoundIff`).
- A blink length of 0 or above 32768 lasts one tick, because the countdown is tested as signed.
- `execute` marks its slot before it reads its command, and the history copies 127 bytes however
  short the command is; a page fault there halts the caller and leaves the slot marked
  (`Lifecycle.TornIsKilled`, `LostSlots.LostRun`).
- `getargs` does not test its pointer as `read`, `write` and `vidmap` do: below 8MB it stores into
  the kernel's memory or the display (`CallerStores.CopyExact`, `CallerStores.GetArgsSpills`).
- `getargs` compares its count as unsigned: a negative count passes the test and copies nothing.
- `memmove` leaves the direction flag set after a backward copy.
- `halt` leaves the `USER_VIDEO` entry of its directory in place, so that the next process with
  that number has the old window until it maps its own, and can draw on another terminal
  (`Windows.StraysExact`, `Interference.StrayRun`).
- `execute` on a full table prints by `putc`, which does not move the hardware cursor
  (`Projection.CursorExact`, `Interference.LagRun`).
- Kernel `puts` hands the running process's cursor to `move_csr`, which makes it the displayed
  terminal's (`Consoles.PutsExact`, `Consoles.PutsSpills`). The page fault handler prints its two
  numbers that way (`FaultMessages.FaultExact`): a fault on the displayed terminal leaves the
  hardware cursor behind, one on a hidden terminal can move the displayed cursor into the line
  being typed (`Interference.FaultLagRun`, `Interference.FaultSpillRun`).
- Echo scrolls once more when the cursor arrives at the last cell of the screen
  (`Terminals.EchoExact`); typing is laid out like output as long as no key does that
  (`Terminals.EchoAfterClear`).

## Assumptions

- Runs start after the first `execute("shell")`; programs call `execute` and `halt` once all three
  shells are up, and enter the kernel on the stack the task state names.
- The image is well formed, its programs fit the user page, and it has a shell that is a program
  (`Boot.SmallEnvironment` is one such image). The video tables are page aligned.
- An access that faults ends in the page fault handler: its message, and an exit with status 255.
  The error code it prints may be any number, since the handler pops it from its own frame.
- No call of `getargs` has a pointer below 8MB: what such a call does is stated exactly, but runs do
  not go on from it, since it may have changed the kernel's tables.
- `vidmap` is given a pointer into the program's page, or a kernel pointer, which it refuses.
- Each kernel entry is one step. What a busy-wait loop waits for is an input of its poll.
- A screen is its character bytes; attribute bytes are modelled but not part of what a terminal shows.
- Commands are shorter than 128 bytes and hold no NUL; keys that yield NUL and typing between
  Enter and the read are excluded from the line discipline.

## Model

| member | source | states |
|---|---|---|
| `Lifecycle.Simulates` | student-distrib/syscall.c:15-197 | Every execute, halt, vidmap and timer tick and every store by a program or for it, from any table that stands for three call stacks and a set of lost slots, meets no bad pointer and lands in the table of the stacks that a call, a return, a round-robin switch or nothing gives; an execute that faults on its command loses a slot and returns for its caller |
| `Lifecycle.CallRefines` | student-distrib/syscall.c:21-128 | An execute that does not fault pushes the lowest free process number on the caller's stack with the caller's context saved below it; with a NULL pointer, no free slot, unknown name or bad header no stack changes |
| `Lifecycle.TornIsKilled` | student-distrib/syscall.c:21-80 | An execute that faults while it reads its command is, step for step, the marking of a slot and then the exception handler's halt of the caller |
| `Lifecycle.LoseRefines` | student-distrib/idt.c:198-206 | After it the caller's stack is popped and one more slot is lost |
| `Lifecycle.ReturnRefines` | student-distrib/syscall.c:164-197 | halt pops the caller's stack; a halting shell comes back in its own slot as the bottom of its own stack |
| `Lifecycle.TickRefines` | student-distrib/scheduler.c:19-55 | A tick saves the running top and resumes the top that the scan of process numbers meets first |
| `Lifecycle.BootRefines` | student-distrib/scheduler.c:36-40 | While shells are missing, a tick starts the next one as the bottom of an empty stack whose number is its slot |
| `Lifecycle.RefinesTables` | student-distrib/syscall.c:106-110 | The used flags are exactly the processes on a stack and the lost slots, the active flags exactly the tops, and the task state names the running one |
| `Processes.ExecuteSpawns` | student-distrib/syscall.c:21-128 | Without a fault execute succeeds if and only if a slot is free and the command names a program; what it does to every slot, and that the new block carries the command's name and arguments |
| `Processes.HaltFrees` | student-distrib/syscall.c:164-197 | What halt does to every slot, for a program and for a shell |
| `Processes.CurPcbIsOwner` | student-distrib/types.h:64-71 | Masking any stack pointer of a process's 8KB kernel stack gives the address of that process's control block |
| `Processes.NextProcIs` | student-distrib/scheduler.c:60-67 | The next process is the only active one nearest behind the current one in cyclic order |
| `Processes.NextProcScans` | student-distrib/scheduler.c:60-67 | The next process is the first active one at 1, 2, 3 and so on behind the current one, modulo 6 |
| `Processes.UserEntryIs` | student-distrib/syscall.c:96-96 | The user page entry of process p is a present, writable, user 4MB page at 8MB + 4MB p |
| `Processes.ProgramExact` | student-distrib/syscall.c:82-87 | A file runs in exactly two cases, for every content of the header buffer: it has at least four bytes and starts with the magic, or it is a shorter start of the magic and the buffer still holds the rest |
| `Processes.ResidueMatters` | student-distrib/syscall.c:82-87 | The verdict does not depend on what the buffer held if and only if there is no such file, it has four bytes, or it is no start of the magic |
| `Processes.ProgramIsFile` | student-distrib/syscall.c:101-101 | What execute loads is the whole file of the entry its command names, length and every byte as the image's blocks hold them |
| `Boot.EmptyFileRuns` | student-distrib/syscall.c:82-87 | An empty file is executed when the buffer holds the magic |
| `Boot.BootsFirstShell` | student-distrib/kernel.c:373-373 | execute("shell") from the boot stack on empty tables starts the first shell and gives a booted state |
| `Boot.SmallEnvironment` | student-distrib/filesystem.c:122-183 | There is a file system of the kind every run assumes |
| `Runs.FromBoot` | student-distrib/scheduler.c:19-55 | On every run from the first shell on, of any length, the table is the call stacks of that run, there are min(3, 1 + ticks) shells, and every entry of every directory is one execute or vidmap may have put there |
| `Runs.RunRefines` | student-distrib/scheduler.c:19-67 | The same from any state in the relation: the table after a run is the table of the stacks after the run's calls, returns and ticks |
| `Runs.BootedRefines` | student-distrib/syscall.c:15-46 | A booted state stands for one stack with one shell |
| `Runs.ThreeActive` | student-distrib/scheduler.c:60-67 | Once the shells are up exactly three processes are active, one per terminal, the running one among them; the loaded directory and kernel stack are its own |
| `Runs.ParentOk` | student-distrib/syscall.c:33-46 | Every used slot that is not lost has a used parent on the same terminal, and is its own parent exactly if it is slot 0, 1 or 2 |
| `Runs.UsedExact` | student-distrib/syscall.c:21-32 | A used slot is on a stack or lost, never both; the used flags are exactly the stacks if and only if nothing is lost |
| `Runs.StepLoses` | student-distrib/syscall.c:21-80 | A step loses a slot, the lowest free one, if and only if it is an execute that faults after taking it |
| `Runs.NullRefused` | student-distrib/syscall.c:18-19 | execute with a NULL pointer changes nothing |
| `Runs.LostExact` | student-distrib/syscall.c:21-80 | On every run no lost slot comes back, and none is lost if and only if no execute faults on its command |
| `LostSlots.CommandFaultsExact` | student-distrib/syscall.c:49-80 | An execute of a string in its caller's page, without a window behind it, faults if and only if the string runs off the page, or it names a file and starts less than 127 bytes before the end of the page |
| `LostSlots.LostRun` | student-distrib/syscall.c:75-78 | From every boot two ticks and three executes at an unmapped address lead to a table with all slots used, by the three shells alone |
| `LostSlots.NoMorePrograms` | student-distrib/syscall.c:21-32 | From then on, on every run, no execute changes anything |
| `Runs.ShellsCount` | student-distrib/scheduler.c:36-40 | Only a tick with fewer than three shells changes their number, by one |
| `Runs.BoundedWaiting` | student-distrib/scheduler.c:19-67 | A stretch of any run in which an active process never gets the processor has at most MAX_USER_PROG - 2 ticks, whatever the others execute and halt: it is dispatched by the fifth tick |
| `Runs.RankFalls` | student-distrib/scheduler.c:60-67 | Each tick that passes a waiter over brings the other waiting process strictly nearer behind it; no other step changes that rank |
| `Tightness.BoundIsTight` | student-distrib/scheduler.c:60-67 | For every file system and every boot there is a run of the kernel to a state in which a shell waits, and on from there a stretch of MAX_USER_PROG - 2 ticks in which it never runs: the bound cannot be lowered |
| `Traces.LeadsStep` | student-distrib/scheduler.c:60-67 | A move of process numbers between the stacks is an enabled step of the kernel to the stacks it leads to |
| `Traces.Go` | student-distrib/syscall.c:15-128 | Every such move is a run of the kernel, for a call one in which the caller first writes the command into its page |
| `Traces.BootTrail` | student-distrib/scheduler.c:36-40 | From every boot two ticks lead to the three shells with the last one running |
| `Runs.ReturnToCaller` | student-distrib/syscall.c:112-194 | On every run a program that called execute becomes active again only by the exit of its callee, with the esp and ebp of its call, the exit status, its own kernel stack and its own directory |
| `Runs.UncoveredByExit` | student-distrib/syscall.c:172-194 | A covered frame of a stack stays as saved until an exit uncovers it and hands its context back |
| `Runs.ResumedWhereStopped` | student-distrib/scheduler.c:23-53 | On every run a preempted process gets the processor back by a tick, with exactly the esp and ebp it was preempted with |
| `Runs.WaitingTop` | student-distrib/scheduler.c:23-53 | No step changes the stack of a terminal that does not run, and only a tick gives it the processor |
| `KernelTables.Kernel.GetNextProc` | student-distrib/scheduler.c:60-67 | The do-while scan ends, at the active process nearest behind the current one |
| `KernelTables.Kernel.TakeSlot` | student-distrib/syscall.c:21-32 | The allocation loop marks the lowest free slot, or changes nothing if there is none |
| `KernelTables.Kernel.Prepare` | student-distrib/syscall.c:33-87 | The control block cleared and given the command's words as far as they can be read, and the program found or refused; it faults exactly when the command cannot be read to its end, or names a file and its 127 bytes cannot be read |
| `KernelTables.Kernel.ReadProgram` | student-distrib/syscall.c:82-101 | The header read over the uncleared header buffer and the four-byte check decide whether there is a program, and the program is the whole file, every byte as the image's blocks hold it |
| `KernelTables.Kernel.CheckHeader` | student-distrib/syscall.c:82-87 | The check passes if and only if the header buffer, file bytes over what it held before, starts with the ELF magic |
| `KernelTables.Kernel.ExecuteCommand` | student-distrib/syscall.c:15-155 | execute on the mutable tables, with the memory at its pointer as it finds it, gives the state of the specification that ExecuteSpawns, ExecuteLoads and Simulates are about, tells apart refused, faulted and started, and reports a full table exactly when every slot is used |
| `KernelTables.Kernel.ExecuteSyscall` | student-distrib/syscall.c:15-155 | The system call with the exception handler behind it gives the state of one step of the runs |
| `KernelTables.Kernel.Enter` | student-distrib/syscall.c:94-98 | Three entries of the new directory are set, everything else in every directory is kept, and the directory is loaded |
| `KernelTables.Kernel.Adopt` | student-distrib/syscall.c:106-128 | The parent's context is saved before the flags and the task state move to the child |
| `KernelTables.Kernel.HaltCurrent` | student-distrib/syscall.c:164-197 | halt on the mutable tables gives the state of its specification, including the shell restart |
| `KernelTables.Kernel.Leave` | student-distrib/syscall.c:169-183 | User memory is cleared through the leaving process's own directory before the parent's is loaded |
| `KernelTables.Kernel.SchedTick` | student-distrib/scheduler.c:19-55 | sched on the mutable tables gives the state of its specification |
| `KernelTables.Kernel.VidmapCurrent` | student-distrib/syscall.c:360-372 | vidmap refuses NULL and kernel pointers and otherwise tells the caller USER_VIDEO and sets its own directory entry, of all entries, to its own terminal's table |
| `KernelTables.Kernel.DispatchFrom` | student-distrib/scheduler.c:42-53 | Directory, kernel stack and registers become those of the next process |
| `Directories.StepKeepsDirs` | student-distrib/syscall.c:94-96 | Every step keeps all 1024 entries of every directory: the kernel's mappings without the user bit at 0 and 1, both there once the own frame is at 32, nothing or a terminal table at 33, nothing elsewhere |
| `Directories.ProgramReaches` | student-distrib/syscall.c:94-98 | Whatever address a program uses, to read or write, it gets to its own frame from its page, to a terminal table from the USER_VIDEO page if that entry is set, and faults everywhere else |
| `Directories.KernelReaches` | student-distrib/syscall.c:94-98 | From 8MB on a system call gets through its caller's directory exactly where the caller itself would |
| `Directories.VidmapEntryIs` | student-distrib/syscall.c:369-369 | The 4*pid added to the table address only sets harmless flag bits: the entry is present, writable, a user's, no 4MB page, and still names the terminal's table |
| `Directories.StepVideoEntry` | student-distrib/syscall.c:360-372 | Only a vidmap by the process itself changes its USER_VIDEO entry; neither its exit nor the next start in its slot does |
| `Directories.StepTerminal` | student-distrib/syscall.c:106-107 | A process stays on its terminal while its slot is used |
| `UserMemory.ProgramStores` | student-distrib/syscall.c:94-98 | A program's store at any of the 2^32 addresses, and a system call's for it at any from 8MB on, changes one byte of its own frame if the address is in its page, and no byte of memory otherwise |
| `UserMemory.ProgramLoads` | student-distrib/syscall.c:94-98 | What a program reads at any of the 2^32 addresses is its own frame's byte in its page and no byte of memory elsewhere |
| `UserMemory.LoadsSeeOwnFrame` | student-distrib/syscall.c:94-98 | However the rest of memory differs, a program with the same frame reads the same at every address |
| `UserMemory.UserPageIsOwnFrame` | student-distrib/syscall.c:94-98 | In every reachable state each of the 4MB of user addresses is the byte at that offset of the running process's own frame |
| `UserMemory.VidmapTells` | student-distrib/syscall.c:360-372 | A vidmap that is not refused stores USER_VIDEO, lowest byte first, at the pointer and changes no other byte of memory; a refused one changes nothing |
| `UserMemory.Isolation` | student-distrib/syscall.c:94-172 | Any step changes at most one frame: the running process's, or that of a process started in a slot that was free; the kernel's frames never. Stores by the program are at any address, stores for it from 8MB on |
| `CallerStores.LowByte` | student-distrib/syscall.c:343-359 | Below 8MB, where getargs may be sent, a kernel store reaches the display or a backing page at 0xB8000 to 0xBBFFF, the kernel's own 4MB from 4MB on, and faults everywhere else |
| `CallerStores.HighByte` | student-distrib/syscall.c:205-215 | From 8MB on it reaches the caller's own page or its window, and faults everywhere else |
| `CallerStores.HighBytes` | student-distrib/syscall.c:205-215 | However many bytes are stored from a pointer not below 8MB, wherever they run into a fault, no other frame and no other page of video memory changes |
| `CallerStores.KernelBytes` | student-distrib/syscall.c:343-359 | From a pointer into the kernel's page they go there, exactly up to its end |
| `CallerStores.CopyExact` | student-distrib/syscall.c:343-359 | A getargs or a read leaves every other frame alone if and only if it is not a getargs with a pointer into the kernel's page that changes a byte there |
| `CallerStores.GetArgsSpills` | student-distrib/syscall.c:343-359 | An instance where it does not: arguments stored at the start of the kernel's page |
| `UserMemory.ExecuteLoads` | student-distrib/syscall.c:94-101 | execute puts the named file, whole and as the image's blocks hold it, at offset 0x48000 of the new frame and changes no other byte of memory |
| `UserMemory.LeavingClears` | student-distrib/syscall.c:170-170 | halt zeroes exactly the leaving process's frame |
| `UserMemory.RestartFrames` | student-distrib/syscall.c:170-187 | A restarted shell has the file named shell at the load address and zeros around it |
| `UserMemory.FreeFrameStaysZero` | student-distrib/syscall.c:170-172 | On every run a zero frame of a free slot stays zero as long as the slot stays free |
| `UserMemory.CleanStart` | student-distrib/syscall.c:94-172 | On every run, between one program's exit and the next start in its slot, the new program finds at each offset from 0x48000 on the byte that the image's blocks hold there for the file its command names, and zero at every other address of its page |
| `Files.ReadData` | student-distrib/filesystem.c:158-183 | The byte-by-byte walk of the block list returns the slice of the file's contents at the offset, cut at end of file, touches nothing behind it, and returns -1 for an inode number out of range |
| `Files.ReadDentryByName` | student-distrib/filesystem.c:122-141 | The search loop with its two tests gives the verdict of the first entry that starts with the name |
| `Files.LookupExact` | student-distrib/filesystem.c:122-141 | A lookup succeeds if and only if an entry of that name stands before every entry that extends the name, and then gives the first entry of that name, and never for a name of more than 32 bytes |
| `Files.LookupHidesShorterName` | student-distrib/filesystem.c:122-141 | An existing file can be impossible to open: a directory with "ab" before "a" does not find "a" |
| `Files.OpenByName` | student-distrib/syscall.c:244-310 | open takes the first entry that starts with the name: it fails if and only if that entry's name is longer or no descriptor is free; the entry's type decides whether the clock, a directory or a file is opened, and a file is opened on the entry's own inode, at its start |
| `Files.CloseExact` | student-distrib/syscall.c:318-342 | close returns -1 and changes nothing if and only if the number is 0, 1, out of range or not open; otherwise it frees that descriptor and no other |
| `Files.FdTable.constructor` | student-distrib/syscall.c:122-126 | A new process has descriptors 0 and 1 on the terminal and the other six closed |
| `Files.FdTable.Open` | student-distrib/syscall.c:244-310 | open refines its specification and keeps every descriptor on an inode of the image |
| `Files.FdTable.Close` | student-distrib/syscall.c:318-342 | close frees exactly the descriptor; 0, 1, closed and out-of-range ones are refused |
| `Files.FdTable.CloseAll` | student-distrib/syscall.c:173-177 | The loop of halt leaves the table exactly as a new process finds it |
| `Files.FdTable.Read` | student-distrib/syscall.c:205-218 | read dispatches on the open descriptor; the bytes returned are in the front of the buffer |
| `Files.FdTable.FileRead` | student-distrib/filesystem.c:15-20 | A file read returns the slice at the position and moves the position by its length |
| `Files.FdTable.DirRead` | student-distrib/filesystem.c:36-51 | A directory read returns one name cut at its NUL or the count and moves one entry on, until the entries have run out |
| `Streams.SessionsArePrefixes` | student-distrib/filesystem.c:15-51 | After any interleaving of open, read, close and restarts by any number of processes, what each open file has delivered concatenates to a prefix of its contents ending at its position, directories stand one entry per read on, and descriptors 0 and 1 are open |
| `Streams.NamedSession` | student-distrib/syscall.c:244-310 | After an open by name, whatever else the process calls short of closing it, what it reads there concatenates to a prefix of the contents of the file that entry names |
| `Streams.ReadContinues` | student-distrib/filesystem.c:15-20 | The next read continues exactly behind what was delivered, and is empty if and only if nothing was asked for or the whole file has been delivered |
| `Streams.ReadFails` | student-distrib/syscall.c:205-215 | read fails if and only if nothing is open at the number or it is the terminal's output, and moves no descriptor unless it delivers |
| `Streams.DirectoryListsEveryEntry` | student-distrib/filesystem.c:36-51 | The k-th read of a directory returns the name of entry k, and nothing after the last |
| `Streams.OpenTakesLowest` | student-distrib/syscall.c:244-310 | open fails if and only if the lookup does or 2..7 are taken; otherwise it takes the lowest of them, touches no other, and close gives back the very table before it |
| `Sessions.SessionIsOwn` | student-distrib/syscall.c:175-177 | On every run of processes and file calls, from the step that starts a process until the one that ends it, its descriptors are what its own calls alone make of a new table |
| `Sessions.SessionsInOrder` | student-distrib/syscall.c:175-177 | In every reachable state what each descriptor has delivered is in step with its file, and nothing is open in a slot without a process |
| `Sessions.SessionEnds` | student-distrib/syscall.c:175-177 | The step that ends a process closes all it has open |
| `Commands.ParseCommand` | student-distrib/syscall.c:49-59 | The copy loops leave the first word in the name field and the rest, without outer spaces, in the args field, both terminated; they stop at the first byte that cannot be read, with what comes before it in the fields |
| `Commands.PushHistory` | student-distrib/syscall.c:68-80 | Older entries move down one and 127 bytes are copied into the first, however short the command; it stops at the first byte that cannot be read |
| `Commands.CommandRoundTrip` | student-distrib/syscall.c:49-59 | For a name, one or more spaces, a text and any trailing spaces, name and text come back, with the text's inner spaces kept |
| `Commands.GetArgs` | student-distrib/syscall.c:343-359 | The arguments are copied and terminated if they fit; -1 with the buffer untouched if the count is too small; a negative count copies nothing and returns 0 |
| `Commands.ArgsRoundTrip` | student-distrib/syscall.c:343-359 | getargs after execute's parsing returns the argument text |
| `Arguments.ArgumentsLast` | student-distrib/syscall.c:343-359 | On every run, from a successful execute until the program exits, getargs gives exactly the arguments of its command |
| `Screens.WriteLaysOut` | student-distrib/lib.c:305-356 | On a cleared screen any text of any length shows its last 25 rows wrapped at 80 columns, blank-padded, with the cursor behind the last character |
| `Screens.PutShown` | student-distrib/lib.c:335-356 | One more character turns the picture of some rows into the picture of the extended rows, scrolling included |
| `Terminals.WritesAfterClear` | student-distrib/keyboard.c:398-421 | After Ctrl-L any number of writes show the layout of their concatenated texts |
| `Terminals.EchoExact` | student-distrib/keyboard.c:277-304 | A character key shows its character in the cell where the cursor was and nowhere else; at the last cell and at the one before it the picture moves up one row; where the cursor goes |
| `Terminals.EchoAfterClear` | student-distrib/keyboard.c:277-304 | After a Ctrl-L a screen shows typing, Enter and output together as one text laid out in wrapped rows, as long as each key has room and none takes the cursor to the last cell |
| `Terminals.TypedIsShown` | student-distrib/keyboard.c:277-304 | A line typed on a cleared screen is seen as it is typed, character by character, and is in the buffer |
| `Terminals.BackspaceUndoesKey` | student-distrib/lib.c:64-75 | Backspace takes a key back from the line, and from the screen if and only if it was typed over a blank |
| `Terminals.CtrlLClears` | student-distrib/keyboard.c:265-270 | Ctrl-L blanks every cell, empties the line, and zeroes of the buffer what was typed behind its first character |
| `Screens.CursorReturns` | student-distrib/lib.c:305-356 | A printed text leaves the cursor where it was if and only if it is empty, or it starts in the last row and ends in the column it started in |
| `Terminals.ApplyAll` | student-distrib/keyboard.c:158-304 | Cursor safety on every run of keys, writes, reads and draws: cursor on the screen, line index at most 127, and at least that many cells before the cursor |
| `Terminals.PressEnter` | student-distrib/keyboard.c:158-169 | Enter moves screen and cursor exactly as printing a line feed would |
| `Terminals.PutKeepsRoom` | student-distrib/lib.c:335-356 | Printing any text never moves the cursor back past the cells Backspace may still delete |
| `Terminals.BufferHoldsEdited` | student-distrib/keyboard.c:172-304 | Whatever is printed meanwhile, the line buffer holds the line an abstract editor with 127 places makes of the keys |
| `Terminals.EditedKeys` | student-distrib/keyboard.c:277-304 | The abstract editor keeps all keys that fit in the line |
| `Terminals.EditedTakesBack` | student-distrib/keyboard.c:172-176 | Its Backspace takes the last key back and its Ctrl-L all of them |
| `Terminals.LineDiscipline` | student-distrib/keyboard.c:361-388 | The read after Enter returns the edited line and its line feed, cut to the count, and leaves an empty line that waits for the next Enter |
| `Projection.TerminalsAreIndependent` | student-distrib/keyboard.c:398-456 | After any interleaving of keys, switches, writes, kernel messages, page faults, reads and stores through the user tables, each terminal's characters, cursor and line are those of a terminal alone that saw only the operations on it and the moves of its cursor by page faults elsewhere while it was displayed |
| `Projection.MappingsAgree` | student-distrib/keyboard.c:427-456 | In every reachable state kernel and user mapping of each terminal name the same page, the display exactly for the displayed one, and different terminals have different pages |
| `Projection.CursorExact` | student-distrib/lib.c:81-103 | In every reachable state the hardware cursor is the displayed terminal's if and only if no kernel message has been printed there since the last move_csr, a page fault's line end included, or that was in the last row and the messages end in the same column |
| `Projection.CursorLag` | student-distrib/lib.c:270-276 | The displayed cursor is where the messages since the last move_csr take it from the hardware cursor |
| `Projection.MessageLags` | student-distrib/syscall.c:29-32 | The full-table message on the displayed terminal leaves the hardware cursor behind unless that is at the bottom left |
| `Windows.EveryAccess` | student-distrib/syscall.c:94-98 | On every run of processes and console, at every address, the running program gets to its own frame, through its window to the page of the last mapper's terminal, or faults |
| `Windows.CalmExact` | student-distrib/idt.c:198-206 | On every run the console stays in order if and only if each page fault leaves the displayed line within reach of Backspace |
| `Windows.WindowExact` | student-distrib/syscall.c:360-372 | On every run a process number's window, walked from its directory through the terminal table, is the page the kernel prints the terminal of the last process of that number to map on, whichever terminal is displayed |
| `Windows.OwnWindowExact` | student-distrib/syscall.c:360-372 | A process's window is its own terminal's screen if and only if it has mapped since it started or the last process of its number to map was on the same terminal; it faults if and only if nobody of that number ever mapped |
| `Windows.WindowLasts` | student-distrib/syscall.c:360-372 | A vidmap lasts through all later switches and calls until the process exits: its window stays the page its own terminal is printed on |
| `Windows.VidmapWorks` | student-distrib/syscall.c:360-372 | A store at the address that vidmap told its caller lands on the page the kernel prints the caller's own terminal on |
| `Windows.StraysExact` | student-distrib/syscall.c:360-372 | A store lands on the page the kernel prints another terminal on if and only if it is in the window page, the program has not mapped, and the last process of its number to map was on another terminal |
| `Windows.TerminalsShow` | student-distrib/keyboard.c:398-456 | On every run that stays in order each terminal shows what the events aimed at it did, draws from elsewhere and cursor moves by page faults elsewhere included |
| `Windows.TerminalsAreOwn` | student-distrib/keyboard.c:398-456 | On every run without such a store, and on which each page fault is on the displayed terminal or ends where the displayed cursor is, each terminal shows exactly what its own keys and the programs on it did, by the process table alone |
| `Windows.SystemCursorExact` | student-distrib/syscall.c:29-32 | On every run of the whole system that stays in order the hardware cursor is the displayed terminal's if and only if nothing is pending there, or the last move_csr was to the last row and the column is the same again; without exceptions other than page faults, if and only if nothing is pending or the hardware cursor is at the bottom left |
| `Windows.StatusShows` | student-distrib/scheduler.c:69-85 | With the shells up a tick colours six cells of the display, green for the tops of the three stacks, red for their callers and for lost slots, plain for free slots, and changes nothing else |
| `Windows.ExceptionShows` | student-distrib/idt.c:111-236 | An exception prints its message on its own program's terminal as one write, and ends the program with status 255 |
| `Windows.OwnExact` | student-distrib/keyboard.c:398-420 | A key acts on the displayed terminal; a read, a write, an exception's message, the message of a full table and a draw on that of the running process; every other event on none |
| `Windows.BootBegins` | student-distrib/kernel.c:318-373 | A booted kernel and an initialised console are where these runs start |
| `Systems.EventStep` | student-distrib/keyboard.c:398-456 | Each step of a process, page fault, other exception, key or call keeps table and directories in order and does to the console what one console event does; it keeps the console in order exactly when that event does |
| `Systems.VideoPageIs` | student-distrib/syscall.c:369-369 | The two-level walk from a video entry leads to exactly one page, at the first 4KB behind USER_VIDEO |
| `Interference.StrayRun` | student-distrib/syscall.c:164-197 | From every boot there is a run in which a program on terminal 0 writes any byte onto terminal 2's screen |
| `Interference.LagRun` | student-distrib/syscall.c:29-32 | From every boot there is a run that fills the table and leaves the hardware cursor behind |
| `Interference.FaultLagRun` | student-distrib/idt.c:198-206 | From every boot there is a run of ticks and one page fault on the displayed terminal that leaves the hardware cursor behind, unless the message ends at the bottom left |
| `Interference.FaultSpillRun` | student-distrib/idt.c:198-206 | From every boot with a line of 35 characters on the displayed terminal there is a run of ticks and one page fault on a hidden terminal with an empty screen after which the displayed cursor is inside that line |
| `Projection.LayoutOnConsole` | student-distrib/keyboard.c:398-421 | A terminal that got Ctrl-L and any writes shows the layout of their texts, whatever the other terminals did and however often it was switched away |
| `Projection.EchoOnConsole` | student-distrib/keyboard.c:277-304 | The same on the console, whatever the other terminals did in between |
| `Projection.LineOnConsole` | student-distrib/keyboard.c:361-388 | A line typed on a terminal reaches its reader edited as if the terminal were alone |
| `Projection.EventKeepsGood` | student-distrib/keyboard.c:427-456 | An event keeps the mappings in agreement and every cursor and line in bounds if and only if it is not a page fault on a hidden terminal that moves the displayed cursor too far up |
| `Projection.EventProj` | student-distrib/keyboard.c:398-456 | One event is one step of the terminal it is aimed at and no step of the others, but for the move of the displayed cursor by a page fault |
| `Consoles.SwitchProj` | student-distrib/keyboard.c:427-456 | A switch changes no terminal's screen, cursor or line |
| `Consoles.SwitchAgrees` | student-distrib/keyboard.c:433-452 | After the copies and the four page-table stores the mappings agree again, with the new terminal on the display |
| `Consoles.CharKey` | student-distrib/keyboard.c:277-304 | A character key acts on the displayed terminal as on one alone, on no other, and if it acts puts the hardware cursor on it |
| `Consoles.EnterKey` | student-distrib/keyboard.c:158-169 | The same for Enter |
| `Consoles.BackspaceKey` | student-distrib/keyboard.c:172-176 | The same for Backspace with its unsigned column step |
| `Consoles.CtrlLKey` | student-distrib/keyboard.c:265-270 | The same for Ctrl-L |
| `Consoles.WriteProj` | student-distrib/keyboard.c:398-421 | terminal_write acts on the writer's terminal as on one alone, displayed or not |
| `Consoles.ReadProj` | student-distrib/keyboard.c:361-388 | terminal_read consumes the line of the reader's terminal only |
| `Consoles.StatusProj` | student-distrib/scheduler.c:69-85 | show_status changes no character, cursor or line of any terminal |
| `Consoles.PrintProj` | student-distrib/lib.c:270-328 | A kernel message acts on the running process's terminal as a write would, and leaves the hardware cursor alone |
| `Consoles.PutAttributes` | student-distrib/lib.c:335-356 | Printing gives plain attributes to the cell it writes, or to the whole page if it scrolls, and leaves every other attribute |
| `Consoles.PutsExact` | student-distrib/lib.c:286-298 | Kernel puts leaves the other terminals as they were if and only if its own is displayed or the cursors end up equal, and keeps the displayed line within reach of Backspace if and only if the writer's cursor is far enough down |
| `Consoles.PutsSpills` | student-distrib/lib.c:286-298 | An instance where it does not |
| `FaultMessages.FaultIs` | student-distrib/idt.c:198-206 | The five calls behind the page fault handler's printf put the whole text on the process's terminal and move the displayed cursor once, to where the second number ends |
| `FaultMessages.FaultProj` | student-distrib/idt.c:198-206 | On its own terminal the message is one write |
| `FaultMessages.FaultReads` | student-distrib/idt.c:204-204 | The page fault message reads back as the faulting address and the error code, in hexadecimal, in this order |
| `FaultMessages.FaultExact` | student-distrib/idt.c:198-206 | The message leaves the other terminals as they were if and only if its own is displayed or the displayed cursor is where the second number ends; it keeps the displayed line within reach of Backspace if and only if its own is displayed or that is far enough down; it leaves the hardware cursor on the displayed one if and only if its own is hidden or the number ends at the bottom left |
| `Driver.Display.constructor` | student-distrib/keyboard.c:49-69 | After initialisation terminal 0 is displayed, lines are empty and the mappings agree |
| `Driver.Display.InitKernelPd` | student-distrib/paging.c:18-34 | The table loops leave every terminal on its own page and terminal 0 on the display, in both tables, and nothing behind the other entries of the user tables |
| `Driver.ScrollBytes` | student-distrib/lib.c:136-148 | The two in-place loops move every row one up and blank the last |
| `Driver.ClearBytes` | student-distrib/lib.c:31-43 | The loop blanks the page |
| `Driver.Display.TermScroll` | student-distrib/lib.c:136-148 | term_scroll changes just the page its terminal is mapped to |
| `Driver.Display.ClearScreen` | student-distrib/lib.c:31-43 | The clearing part of term_clear changes just the page its terminal is mapped to |
| `Driver.Display.TermPutc` | student-distrib/lib.c:335-356 | term_putc through the page tables prints on its terminal's page and moves its cursor, and nothing else |
| `Driver.Display.MoveCursor` | student-distrib/lib.c:81-103 | move_csr sets the displayed terminal's cursor and the hardware's |
| `Driver.Display.PressChar` | student-distrib/keyboard.c:277-304 | The character branch refines the key specification, with its extra scroll at the last cell |
| `Driver.Display.PressEnterKey` | student-distrib/keyboard.c:158-169 | The Enter branch refines the key specification |
| `Driver.Display.PressBackspaceKey` | student-distrib/keyboard.c:172-176 | The Backspace branch with term_delete_char refines the key specification |
| `Driver.Display.StepBack` | student-distrib/lib.c:64-75 | The column that wraps below zero as unsigned ends at the end of the row above |
| `Driver.Display.PressCtrlLKey` | student-distrib/keyboard.c:265-270 | The Ctrl-L branch refines the key specification |
| `Driver.Display.TerminalWrite` | student-distrib/keyboard.c:398-421 | terminal_write prints the bytes before the first NUL or the count and returns how many |
| `Driver.Display.PutUntilNul` | student-distrib/lib.c:270-276 | Its loop, and that of printf's plain text, prints each byte before the first NUL and touches no hardware cursor |
| `Driver.Display.Puts` | student-distrib/lib.c:286-298 | puts prints the string and hands the process's cursor to move_csr |
| `Driver.Display.PageFaultMessage` | student-distrib/idt.c:198-206 | The handler's message on the mutable display, number by number through itoa and puts, gives the state FaultExact is about |
| `Driver.Display.TerminalRead` | student-distrib/keyboard.c:361-388 | terminal_read waits, changing nothing, until Enter; then it copies out min(count, line + 1) bytes and a NUL, zeroes what it copied, and returns the string length |
| `Driver.Display.SwitchTerminals` | student-distrib/keyboard.c:427-456 | switch_terminals, page by page through the remapped tables, refines the switch; a bad or the same number changes nothing |
| `Memory.Memcpy` | student-distrib/lib.c:553-593 | The byte, dword and byte loops equal a bytewise copy for every alignment and length, for disjoint regions and whenever the destination starts at or below the source, and touch nothing else |
| `Memory.Memset` | student-distrib/lib.c:452-489 | The three loops with the spread byte equal a bytewise fill for every alignment and length, and touch nothing else |
| `Memory.Memmove` | student-distrib/lib.c:605-626 | The original source bytes arrive for every overlap; the direction flag is left set exactly when the copy ran backward |
| `Memory.SourceIntact` | student-distrib/lib.c:553-593 | A forward copy never overwrites a source byte it has still to read |
| `CStrings.Strlen` | student-distrib/lib.c:433-441 | The loop counts the bytes before the first NUL |
| `CStrings.Strncmp` | student-distrib/lib.c:642-660 | Zero if and only if the first n bytes form the same string; otherwise the signed difference at the first place they differ |
| `Numbers.Itoa` | student-distrib/lib.c:366-399 | For every value and radix 2 to 36 the buffer holds the value's numeral |
| `Numbers.NumeralParses` | student-distrib/lib.c:366-399 | The numeral read in the radix is the value |
| `Numbers.NumeralDigits` | student-distrib/lib.c:366-399 | The numeral has only digits of the radix and no leading zero |
| `Numbers.NumeralIsUnique` | student-distrib/lib.c:366-399 | It is the only such digit string |
| `Numbers.Strrev` | student-distrib/lib.c:408-424 | The string is reversed in place; its terminator and what lies before it stay |
| `Numbers.FormatHex8` | student-distrib/lib.c:203-223 | %#x prints, up to the terminator, exactly eight hexadecimal digits that read as the value |
| `Numbers.FormatUnsigned` | student-distrib/lib.c:225-233 | %u gives the decimal numeral within its buffer |
| `Numbers.FormatSigned` | student-distrib/lib.c:235-249 | %d gives the decimal numeral, with a minus sign and the magnitude for every negative value down to the smallest |
| `Rtc.ReadReturnsAfterInterrupt` | student-distrib/RTC.c:66-78 | On every run of scheduler, reader and interrupt steps, a poll of RTC_read returns if and only if an interrupt came after that reader's own clear |
| `Rtc.InterruptReleasesAll` | student-distrib/RTC.c:40-54 | One interrupt leaves the flag of every pending reader on every terminal set until that reader polls |
| `Rtc.ReleasedReaderRuns` | student-distrib/RTC.c:66-78 | After an interrupt a pending reader holds the processor with its flag up by the fifth tick, whatever the others do |
| `Rtc.EventKeepsReaders` | student-distrib/RTC.c:66-78 | No event of another process clears a pending reader's flag |
| `Rtc.OneActivePerTerminal` | student-distrib/syscall.c:106-110 | Two active processes are on different terminals |
| `Rtc.StaysActive` | student-distrib/RTC.c:66-78 | A process that only waits stays active on its terminal through every kernel step of the others |
| `Rtc.Flags.Interrupt` | student-distrib/RTC.c:40-54 | The handler's loop makes of the flags what an interrupt makes of them in the runs above |
| `Rtc.Flags.Clear` | student-distrib/RTC.c:66-78 | A reader's clear makes of the flags what the start of a read makes of them |
| `Rtc.Flags.Poll` | student-distrib/RTC.c:76-76 | A look of the waiting loop sees its terminal's flag |
| `Blinking.DoAll` | fish/blink.S:49-300 | After any adds away from location 0, removes, syncs and ticks the list repeats no slot and holds exactly the pool slots with nonzero location |
| `Blinking.AddExact` | fish/blink.S:105-184 | add fails, changing nothing, if and only if the location is off the screen or the pool is full; otherwise the lowest free slot comes to the front of the list, switched on, with the location, characters and lengths given, and no other record changes |
| `Blinking.AddSoundIff` | fish/blink.S:105-184 | A successful add keeps that if and only if its location is not 0 |
| `Blinking.AddAtZeroTwice` | fish/fish.c:161-171 | Two adds at location 0 put one slot on the list twice |
| `Blinking.RemoveKeepsSound` | fish/blink.S:187-237 | remove keeps list and pool in agreement |
| `Blinking.RemoveExact` | fish/blink.S:187-237 | remove fails, changing nothing, if and only if no element is at the location; otherwise the first one there leaves the list, its slot is free, and the others keep their order and records |
| `Blinking.AddThenRemove` | fish/blink.S:105-237 | An element added and then removed leaves the old list and every other record as it was |
| `Blinking.RemovedAfterRun` | fish/blink.S:187-237 | After any run that spares it, the remove at an element's location takes it off the list and frees its slot, and leaves the others |
| `Blinking.SyncKeepsSound` | fish/blink.S:240-300 | sync keeps list and pool in agreement |
| `Blinking.SyncExact` | fish/blink.S:240-300 | sync fails, changing nothing, if and only if one of the locations has no element; otherwise the low half's element takes the lengths, countdown and status of the high half's, keeps its place and characters, and no other record changes |
| `Blinking.TickKeepsSound` | fish/blink.S:49-99 | A tick keeps list and pool in agreement |
| `Blinking.BlinkPeriod` | fish/blink.S:49-99 | n ticks after its add an element is on if and only if n mod (a + b) < a, for all 16-bit lengths, where a length 0 or above 32768 counts as 1 |
| `Blinking.BlinkTiming` | fish/blink.S:49-138 | The same inside any run of operations on the whole list that neither remove nor sync the element |
| `Blinking.SyncedStayInStep` | fish/blink.S:267-275 | After a sync the two elements have the same lengths, status and countdown at every later time until one is removed or synced |
| `Blinking.SparedRun` | fish/blink.S:49-99 | An element ticks exactly as often as the timer, whatever happens to the others |
| `BlinkPool.BlinkList.IoctlAdd` | fish/blink.S:105-184 | add on the linked pool refines cons; the list stays sound unless it succeeded at location 0 |
| `BlinkPool.BlinkList.IoctlRemove` | fish/blink.S:187-237 | remove on the linked pool refines removing the first element at the location, and fails if there is none |
| `BlinkPool.BlinkList.FindPrev` | fish/blink.S:206-217 | The search for the pointer to the element ends, at its predecessor |
| `BlinkPool.BlinkList.IoctlSync` | fish/blink.S:240-300 | sync copies the timing of one element to another, or fails if one is missing |
| `BlinkPool.BlinkList.RtcTasklet` | fish/blink.S:49-99 | The walk ticks each element once and changes no link |
| `BlinkPool.BlinkList.FindHelper` | fish/blink.S:351-379 | The walk ends at the first element at the location, or null |
| `BlinkPool.BlinkList.Malloc` | fish/fish.c:161-171 | The first pool slot with location 0, or null |
| `BlinkPool.BlinkList.Free` | fish/fish.c:173-176 | The slot is zeroed and no other |

## Left out

- Port I/O, interrupt controller, descriptor tables, boot and multiboot output: hardware setup.
- The iret, segment and register assembly of `execute`, `halt` and `sched`: only its effect on esp, ebp, esp0, cr3 and eax is modelled.
- Up/Down command history: it has no settled behaviour at its first entry.
- Scancode tables and modifier keys: a key arrives as its character.
- Kernel `clear` and `delete_char`: only the terminal forms are modelled.
- The pointers of `open` and `write`: names and texts arrive as values, and a fault in the middle of a `write` is a page fault without what it had printed.
- Exceptions while the kernel runs for itself, and a page fault on the kernel's own stack.
- `write` and the dispatch of `read` to the terminal or the clock: the device operations are modelled in their own files.
- Malformed images, `read_dentry_by_index`, and the -1 of `read_data` seen through `file_read`.
- Interrupts inside `execute`, `halt` and `sched`: they are single steps, although `halt` does not disable interrupts itself.
- Translation caches, and address wrap-around at 32 bits in the memory routines.
- RTC rate programming, signal stubs, `grep` and the other user programs.
- The blink `find` copy-out and all blink screen writes: the list and its timing only.
- Memory.Memcpy: requires disjoint regions or a destination not above the source, which is all its callers may rely on.
- Commands.GetArgs: the buffer is required to hold what is copied, since the source has no bound to check.
- Driver.Display.TerminalRead: is one pass of the waiting loop, and requires room for the NUL written behind the count.
- Commands.ParseCommand: commands of 128 bytes or more are excluded; the source would write behind its fields.
- Consoles.PutsExact: is about one call; in the runs puts is part of the page fault message, and they go on only from one that keeps the bounds.
- Windows.TerminalsAreOwn: is about runs that stay in order; after a page fault that breaks the bounds of the displayed line nothing is said.
- Runs.ParentOk: says nothing about lost slots, whose control blocks no process uses.
- Files.FdTable.Read: a read of the terminal or the clock is only told apart as a device; the devices are modelled by Driver.Display.TerminalRead and Rtc.Flags.
- KernelTables.Kernel.ExecuteCommand: what it does to the command history is stated by Commands.PushHistory, and the text of the full-table message is part of Systems.EventStep.
- KernelTables.Kernel.Prepare: the same for the command history.
- KernelTables.Kernel.HaltCurrent: the loop that closes the descriptors is Files.FdTable.CloseAll, on the descriptor table that the control block here leaves out.
- KernelTables.Kernel.Leave: the same.
