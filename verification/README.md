# Verification model of the CHZOS kernel, file system and text routines

CHZOS is a small 32-bit teaching kernel written in C.  This project models three connected
parts of it in Dafny and proves what they are for:

* the FAT12 file system: cluster chains, allocation and deletion, the packed table, 8.3
  names, the root directory, the current path and the open-file slots
  (`include/fat12.h`, `include/ide.h`, `include/sysfile.h`, `include/string.h`);
* the process table, the round-robin scheduler, semaphores and threads, and the four user
  programs that depend on them (`include/task.h`, `include/semaphore.h`,
  `include/systhread.h`, `usr/fruit.c`, `usr/pro-con.c`, `usr/bank.c`, `usr/matmal.c`);
* the text routines: `itoa`/`read_int`, `sprintf`/`sscanf` and the scrolling text screen
  (`include/stdio.h`, `include/string.h`).

`dafny verify dfyconfig.toml` checks the whole project.

## How it is built

Code that works in place is modelled by classes and loops over arrays (`Fat12.Fat`,
`FatDirectory.Directory`, `FatPath.CurrentDir`, `SysFile.File`, `KernelCode.Machine`,
`Screen.Display`, the methods of `CString`, `Number` and `Format`).  Each method is proved
equal to a function on plain values, and the properties are proved about those functions,
over all inputs and all runs.

The user programs are step systems on top of the kernel: one step is a timer interrupt, a
system call, or one statement of the running process, where a load and a store of a shared
global are different steps.  `fork` shares globals because there is one flat memory.  Their
results quantify over every schedule, that is, every sequence of steps and timer interrupts.

Buffers are arrays that hold NUL-terminated text; the text is passed along as a ghost
argument.  Integer arithmetic is unbounded except where the width matters: `itoa` takes
32-bit unsigned values, `read_int` computes modulo 2^32 as the machine does, `wakeup` and
`kill` keep eight bits of a pid, packed FAT entries have twelve bits, register images are
32-bit words.

| file | contents |
|---|---|
| `FatTable.dfy` | chains, allocation, deletion, volumes and their runs |
| `FatPacking.dfy` | three bytes for two table entries |
| `Ide.dfy`, `ChainData.dfy`, `DiskLayout.dfy`, `Fat12.dfy` | sector transfers, bytes along chains, where they lie on the disk, and the loops over the table and along chains |
| `FatNames.dfy`, `FatDirectory.dfy`, `DirectoryRuns.dfy` | 8.3 names; lookup, creation and removal in the root directory, and runs of them |
| `FatPath.dfy`, `SysFile.dfy` | the current path; open files |
| `Task.dfy`, `Semaphores.dfy`, `KernelRuns.dfy`, `KernelCode.dfy` | the kernel as functions, its runs, and its code |
| `SemaphoreQueues.dfy`, `SemaphoreLimits.dfy`, `SemaphoreWitnesses.dfy` | counting semaphores, where they end, and how those states are reached |
| `RoundRobin.dfy`, `ContextSwitch.dfy` | bounded waiting; context switches |
| `KernelFacts.dfy`, `Fruit.dfy`, `ProCon.dfy`, `Bank.dfy`, `MatMul.dfy`, `Prologue.dfy` | the user programs: safety, and how they start |
| `FruitProgress.dfy`, `ProConProgress.dfy`, `BankProgress.dfy`, `MatMulProgress.dfy` | that they get on, or come to an end |
| `CString.dfy`, `Number.dfy`, `Format.dfy`, `Screen.dfy` | text |
| `Arithmetic.dfy`, `Basics.dfy` | shared facts and definitions |

## Where the code departs from its intent

* `include/fat12.h:406` passes the value of a table entry to `memset` as an address.  The
  stores land below 0x1004, the kernel text starts at 0x7e00, so the table is not changed.
  `Fat12.Fat.DelFatEntry` stores 0 in the entry, as was meant; `Fat12.Fat.DelFatEntryAsWritten`
  is the literal loop, and `FatTable.RemoveAsWrittenLeaks` says what it loses.
* That literal loop never ends on a cyclic table; `FatTable.EndsOnTrailIff` and
  `FatTable.EndsSoonIff` say exactly when it does.
* `include/semaphore.h:52` pops the queue with the `next` field of the caller instead of that
  of the head.  Both versions are modelled: `SemaphoreQueues.PopAgrees` gives the exact
  condition under which they agree, `SemaphoreQueues.PopLosesWaiters` what goes wrong, and the
  counting-semaphore theorem is proved for the intended pop with any number of waiters and for
  the literal one with at most one waiter per semaphore.  The user programs are proved on the
  literal code.
* `schedule_proc` returns when nobody is READY (`include/task.h:316-320`), so `do_wait` and
  `do_thread_join` can fall through.  The program models keep that path: the father of
  `usr/bank.c` and the parent of `usr/matmal.c` may take it, and the results hold either way.
* `wakeup` does not ask what a process waits for, so `exit` and `kill` can take a process out of a
  semaphore queue: `SemaphoreLimits.ExitKeepsQueuesIff`, `SemaphoreLimits.KillKeepsQueuesIff`.  The
  counting theorem is about runs in which they do not, and in which no P falls through
  (`SemaphoreLimits.BlockedPReturns`); the user programs are proved to stay within them.
  `SemaphoreWitnesses` reaches each of the failing states from power-on.
* `do_freesem` clears the queue but keeps the counter: `SemaphoreLimits.FreedHeadIff`,
  `SemaphoreLimits.FreedWaitersStranded`.
* `exit` returns to its caller when it wakes nobody, so the child of `usr/bank.c` can go on to
  the `wait` after the if-else (`usr/bank.c:33`).  The model follows it there.
* `fat12_create_file` with no cluster to take, or too few free ones, leaves no terminated chain;
  `FatTable.CreateWellFormed` gives the exact condition.
* `curr_dir` uses 19 for the root (`include/fat12.h:228`, `511`).  `FatPath.IntoExact`: path and
  cluster number stay in step with the directory, after entering it and after any further step, if
  and only if it starts neither at cluster 19 nor at cluster 0; `FatPath.Cluster19IsLost` shows what
  happens at 19.
* `fat12_cd` looks at no attributes.  `cd .` at the root takes the first never-used entry and leaves
  the path "/.", which no directory has, and in a zeroed directory `curr_dir` 0
  (`DirectoryRuns.CdDotAtRoot`, `FatPath.DotsAtRoot`, `FatPath.DotTwiceAtRoot`).
* `fat12_create_file` does not look for an existing name, so names may occur twice: lookups find the
  first entry, and after a removal the second (`FatDirectory.CreateThenFind`,
  `FatDirectory.RemoveThenFind`, `DirectoryRuns.DuplicateSurvives`).
* `do_fopen` does not reset `pos` (`include/sysfile.h:45-70`); `SysFile.WritesAppend` says that a
  buffer holds exactly what was written if and only if the slot started at 0.
* `fat12_find_entry` does not skip entries that are not in use.  An entry that was never used
  decodes to "." exactly when its extension starts with NUL, as in a zeroed directory
  (`FatDirectory.DecodedDot`), so that looking up "." at the root finds the first unused entry
  (`DirectoryRuns.ZeroEntryFound`, `DirectoryRuns.DotFindsBlank`); a deleted entry is found under its
  name with byte 0xE5 in front.  `DirectoryRuns.FoundLiveIff` says which names find live entries only.
* Hence `rm` of such a name frees the chain of a deleted file again, although another file may have
  the clusters by then: `DirectoryRuns.RmSoundIff` gives the exact condition and
  `DirectoryRuns.DeadEntryReachable` a run of four calls on a formatted volume that destroys a file.
* `print_at` with a place given prints every character at that same place
  (`include/stdio.h:142-145`): `Screen.OverprintsAnyText`, `Screen.StandsAtPlaceIff`,
  `Screen.LastCellScrolls`.
* `clear_screen` scrolls once at the end, so its last row holds zero bytes instead of spaces
  (`include/stdio.h:162-173`); `Screen.Display.ClearScreen`.
* `%d` prints a negative int as an unsigned number; `read_int` still gives the same int back, by
  32-bit wrap-around (`Number.ReadBack`).

## Model

| member | source | states |
|---|---|---|
| FatTable.WalkUnique | include/fat12.h:283-290 | two walks along the table from the same cluster visit the same clusters |
| FatTable.AllocationMakesChain | include/fat12.h:602-625 | asking for n clusters yields a terminated acyclic chain at the returned start if and only if 1 <= n <= number of free clusters; then the chain is the n lowest free clusters in ascending order, ends in 0xFFF, and no other entry changed |
| FatTable.TakenAreLowest | include/fat12.h:611-625 | every free cluster that was not taken is above all that were |
| FatTable.ClustersFor | include/fat12.h:604-606 | the number of 512-byte clusters is the least that holds the size; for negative sizes it is at most 1 |
| FatTable.DeletedClearsWalk | include/fat12.h:397-412 | deletion from the start of a walk clears exactly the entries of that walk |
| FatTable.FreeUndoesAllocate | include/fat12.h:397-412 | deleting a freshly allocated chain restores the table entry for entry |
| FatTable.CreateKeepsChain | include/fat12.h:602-625 | every chain that was there before an allocation is still there, and shares no cluster with the new one |
| FatTable.CreateWellFormed | include/fat12.h:602-650 | creation keeps all chains acyclic, terminated and disjoint if and only if 1 <= n <= free clusters, and then conserves free plus used clusters |
| FatTable.RemoveWellFormed | include/fat12.h:586-600 | removal keeps all chains acyclic, terminated and disjoint and frees exactly the clusters of the removed chain |
| FatTable.RunSafe | include/fat12.h:586-650 | over every run of creations and removals chains stay acyclic, terminated and disjoint, and free plus used clusters is constant |
| FatTable.DeletedVisited | include/fat12.h:397-412 | on any table in range deletion clears exactly the entries it comes to |
| FatTable.DeletionHarmlessIff | include/fat12.h:397-412 | deletion from any cluster leaves all files in order if and only if it comes to none of their clusters |
| FatTable.CutDestroysChain | include/fat12.h:397-412 | deletion that starts at any cluster of a chain leaves its file without a terminated chain |
| FatTable.EndsOnTrailIff | include/fat12.h:397-412 | the literal deletion loop ends if and only if distinct entries, each pointing to the next, lead from its first cluster to one that stops |
| FatTable.EndsSoonIff | include/fat12.h:397-412 | it ends if and only if it ends within as many rounds as the table has entries |
| FatTable.RemoveAsWrittenLeaks | include/fat12.h:397-412 | the literal deletion keeps the other chains sound but loses exactly the clusters of the removed chain |
| FatPacking.UnpackPack | include/fat12.h:217-222 | decoding a packed table gives the table back if and only if every entry fits in twelve bits |
| FatPacking.PackUnpack | include/fat12.h:380-391 | packing a decoded table gives all 4608 bytes back |
| FatPacking.UnpackedIsFat12 | include/fat12.h:217-222 | entry n is the low or high twelve bits of the 16-bit word at byte n + n/2, as the FAT overview lays the table out |
| FatPacking.AllocatedTwelveBit | include/fat12.h:602-625 | allocation keeps every entry within twelve bits |
| FatPacking.DeletedTwelveBit | include/fat12.h:397-412 | deletion keeps every entry within twelve bits |
| Ide.ReadSectors | include/ide.h:58-64 | the buffer receives the requested sectors in order and keeps its other bytes, although every round copies the whole staging area |
| Ide.FlatAt | include/ide.h:58-64 | byte j of the i-th sector is byte 512 i + j of the buffer |
| Ide.WriteSectors | include/ide.h:85-90 | the sectors receive the buffer and the rest of the disk is unchanged |
| ChainData.ReadBack | include/fat12.h:317-378 | the data stored along a chain is what reading the chain returns |
| ChainData.WriteIsPrivate | include/fat12.h:317-378 | writing through one live file changes no byte readable through another |
| DiskLayout.DataBehindRoot | include/fat12.h:22-45 | boot sector, two FATs of 9 sectors and 224 root entries take the first 33 sectors, and clusters 2, 3, ... cover exactly the sectors behind them, in order |
| DiskLayout.SystemSectorsKept | include/fat12.h:360-378 | writing along a chain leaves boot sector, FATs and root directory alone |
| DiskLayout.ContentAt | include/fat12.h:317-335 | byte j of the i-th cluster of a chain comes from sector 31 + that cluster |
| DiskLayout.StoredAt | include/fat12.h:360-378 | the i-th 512 bytes of the data go to sector 31 + the i-th cluster |
| Fat12.Fat.Init | include/fat12.h:190-222 | the table is decoded from sectors 1 to 9 |
| Fat12.Fat.Decode | include/fat12.h:217-222 | the loop of fat12_init computes the unpacked table |
| Fat12.Fat.WriteBack | include/fat12.h:380-395 | the packed table is brought in step with the table |
| Fat12.Fat.NextSector | include/fat12.h:283-290 | 0 and values from 0xFF0 on end a chain |
| Fat12.Fat.GetNumCluster | include/fat12.h:449-466 | the number of clusters of the walk, or the size of the root directory for start 0 |
| Fat12.Fat.ReadClusters | include/fat12.h:317-335 | the buffer receives the contents of the whole chain; the result is one less than its length |
| Fat12.Fat.WriteClusters | include/fat12.h:360-378 | the disk receives the buffer along the whole chain and nowhere else; the result is one less than its length |
| Fat12.Fat.DelFatEntry | include/fat12.h:397-412 | on any table in range the loop ends, clears what a walk from the start visits, and leaves the packed table in step |
| Fat12.Fat.DelFatEntryAsWritten | include/fat12.h:397-412 | wherever the literal loop ends (FatTable.EndsOnTrailIff) it leaves the table as it was and the packed table in step |
| Fat12.Fat.Allocate | include/fat12.h:611-625 | the first-fit loop computes the allocation and the start cluster of FatTable |
| FatNames.ConstructFileName | include/fat12.h:258-281 | the name of an entry is decoded to text in the 13-byte buffer |
| FatNames.DecodedTidy | include/fat12.h:258-281 | for an entry without NUL the decoded name is base, dot and extension, each up to its first space, in lower case |
| FatNames.DecodedEncoded | include/fat12.h:631-649 | what decoding makes of an encoded name, for every name that fits |
| FatNames.DecodedSpelling | include/fat12.h:258-281 | a name with an extension and without spaces decodes to exactly its lower-case spelling |
| FatNames.EncodedFields | include/fat12.h:631-645 | base and extension filled up with blanks, the archive bit set, the other attributes kept, or cleared by a three-letter extension |
| FatNames.ReadmeDecodes | include/fat12.h:258-281 | the entry README, TXT decodes to readme.txt |
| FatNames.NameRoundTrip | include/fat12.h:258-281 | decoding undoes encoding if and only if the name has no capitals, no space and an extension |
| FatDirectory.Directory.FindEntry | include/fat12.h:538-547 | the first root entry whose decoded name is the given one, or NULL |
| FatDirectory.Directory.CreateFile | include/fat12.h:602-651 | clusters are allocated and the first never-used entry gets name, start and length; without such an entry the clusters stay taken |
| FatDirectory.Directory.FillName | include/fat12.h:631-642 | the overlapping strcpy and padding loops leave the encoded name, the archive bit, and all other entries |
| FatDirectory.Directory.Rm | include/fat12.h:586-600 | a found entry is marked deleted and its chain freed; otherwise nothing changes |
| FatDirectory.DecodedFirst | include/fat12.h:258-281 | a decoded name starts with the first byte of its entry in lower case, or is empty or starts with a dot |
| FatDirectory.DecodedDot | include/fat12.h:258-281 | an entry whose name starts with NUL, as a never-used one, or a space decodes to "." if and only if its extension starts with NUL, and to nothing if and only if it starts with a space |
| FatDirectory.CreateThenFind | include/fat12.h:538-547 | after a creation the name finds an earlier entry of that name if there is one, else the new one if the name survives the encoding, else a later one; the new entry if and only if the name survives and no earlier entry has it |
| FatDirectory.FoundUnderSpelling | include/fat12.h:538-547 | a created file is found under the lower-case spelling of its name and under no other new name |
| FatDirectory.StruckFields | include/fat12.h:592 | removal stores byte 0xE5 over the first character of one entry and nothing else |
| FatDirectory.RemoveThenFind | include/fat12.h:586-600 | a removed name is no longer found if and only if it did not start with byte 0xE5 and no later entry has the same name |
| FatDirectory.CreateFindRemoveFind | include/fat12.h:538-651 | create under a fresh name, find, remove, find again: found, then not found, the table restored, the entry not reused |
| FatDirectory.CreatesFile | include/fat12.h:602-651 | on live files and chains fat12_create_file is the creation of FatTable |
| FatDirectory.RemovesFile | include/fat12.h:586-600 | marking a live entry deleted and freeing its chain is the removal of FatTable; DirectoryRuns.RmSound is about the entry a name finds |
| FatDirectory.DirectoryKeepsVolume | include/fat12.h:586-651 | creation, and removal of a live entry, keep the chains of live files acyclic, terminated and disjoint and lose no cluster |
| DirectoryRuns.ZeroEntryFound | include/fat12.h:538-547 | the name "." finds a zeroed entry or one before it |
| DirectoryRuns.FoundLive | include/fat12.h:538-547 | a name that does not start with a dot finds a live entry if and only if it does not start with byte 0xE5 |
| DirectoryRuns.FoundLiveIff | include/fat12.h:538-547 | in an orderly directory any name finds a live entry if and only if it is neither "." nor starts with byte 0xE5 |
| DirectoryRuns.DotFindsBlank | include/fat12.h:538-547 | in an orderly directory "." finds the first entry that was never used |
| DirectoryRuns.CreateSound | include/fat12.h:602-651 | creation with an entry to spare keeps directory and volume sound if and only if 1 <= n <= free clusters |
| DirectoryRuns.CreateUnlisted | include/fat12.h:629-651 | creation in a full directory, or under a name that starts with byte 0xE5, harms no file and loses exactly the clusters it took |
| DirectoryRuns.RmSound | include/fat12.h:586-600 | rm under a name other than "." that does not start with byte 0xE5 keeps directory and volume sound and loses no cluster, whatever it finds |
| DirectoryRuns.RmSoundIff | include/fat12.h:586-600 | rm by any name keeps directory and volume sound if and only if it finds nothing, has such a name, or comes to no cluster of a file |
| DirectoryRuns.DeadRmHarmlessIff | include/fat12.h:586-600 | rm that hits a dead entry keeps the volume sound if and only if the walk from its start cluster meets no cluster of a file; then exactly the clusters it meets are free again |
| DirectoryRuns.DeadRmIff | include/fat12.h:586-600 | in particular, when that start cluster is free or in use: if and only if it is free |
| DirectoryRuns.DotRemoved | include/fat12.h:586-600 | rm of "." with start 0 clears the media entry and spends the first never-used entry, and harms no file |
| DirectoryRuns.CdDotAtRoot | include/fat12.h:509-584 | cd . at the root of a zeroed directory leaves curr_dir 0 and a path that stands for no directory |
| DirectoryRuns.CdAtRootExact | include/fat12.h:509-584 | cd by name at the root stays in step, then and after any further step, if and only if the entry found starts neither at cluster 19 nor at cluster 0 |
| DirectoryRuns.DuplicateSurvives | include/fat12.h:538-651 | two creations of a.b on a formatted volume: the first is found, and after one removal the second |
| DirectoryRuns.DeadEntryDestroysFile | include/fat12.h:586-651 | create, rm, create, and rm under the marked name: the first three are sound, the last destroys the second file, for all names and sizes that fit |
| DirectoryRuns.DeadEntryReachable | include/fat12.h:586-651 | that happens on a formatted volume with a.b and c.d |
| DirectoryRuns.CallSoundIff | include/fat12.h:586-651 | one call of fat12_create_file or fat12_rm keeps directory and volume sound if and only if its condition, checkable before the call, holds |
| DirectoryRuns.DirectoryRunSafe | include/fat12.h:586-651 | over every run of calls that meet their condition, chains of live files stay acyclic, terminated and disjoint; clusters are lost only by creations that list no file, and come back only by the removal of dead entries |
| FatPath.CurrentDir.CutLast | include/fat12.h:524-528 | reverse, strsep, reverse and the overlapping strcpy cut the path at its last slash |
| FatPath.CurrentDir.SetDir | include/fat12.h:509-536 | the in-place edits leave the new path in the buffer and the new cluster in curr_dir |
| FatPath.ParentOfJoined | include/fat12.h:524-528 | cutting a path at its last slash gives back the path before a name without slashes was joined |
| FatPath.CdRefines | include/fat12.h:509-536 | one cd step on the string and the number is one step on the stack of directories |
| FatPath.PathIsStack | include/fat12.h:509-536 | over every sequence of valid steps the path is "/" plus the joined names of the stack, and curr_dir is 19 exactly at the root |
| FatPath.IntoExact | include/fat12.h:509-536 | entering a directory keeps path and number in step, then and after any valid step that follows, if and only if it starts neither at cluster 19 nor at cluster 0 |
| FatPath.DotsAtRoot | include/fat12.h:511-514 | "." and ".." at the root lead to a path that no stack of directories has |
| FatPath.DotTwiceAtRoot | include/fat12.h:511-521 | "." twice from the root with start 0: the path "/.", and curr_dir 0, then 19 |
| FatPath.Cluster19IsLost | include/fat12.h:511-514 | a directory at cluster 19 is taken for the root and its name is lost at the next step down |
| SysFile.File.constructor | include/sysfile.h:33-43 | an unused slot: mode "u", zero buffer, position 0 |
| SysFile.File.Open | include/sysfile.h:56-69 | the outcomes of do_fopen on the slot it picked; an existing file's buffer receives the bytes of its whole chain |
| SysFile.Fopen | include/sysfile.h:45-70 | the first unused slot is tried and returned unless the file is missing and the mode is "r"; its whole new state, and every other slot untouched |
| SysFile.FindUnused | include/sysfile.h:50-55 | the first slot with mode "u" |
| SysFile.File.Fputs | include/sysfile.h:110-117 | appends the string in mode "w", does nothing otherwise |
| SysFile.File.Fwrite | include/sysfile.h:94-102 | appends size * count bytes in mode "w", does nothing otherwise |
| SysFile.File.Fgets | include/sysfile.h:104-108 | returns the first bytes of the buffer, wherever the position is |
| SysFile.File.Fclose | include/sysfile.h:72-79 | in mode "w" makes a file of the bytes written; the slot becomes unused and keeps its position |
| SysFile.WritesAppend | include/sysfile.h:94-117 | after any sequence of writes the buffer is the old prefix and the concatenation; just the concatenation if and only if the position was 0 |
| SysFile.WriteThenClose | include/sysfile.h:45-117 | a new file opened in a fresh slot, written and closed: buffer contents, do_fgets prefix, and a directory entry of length n with a chain of ceil(n/512) clusters |
| Task.PickFacts | include/task.h:191-211 | proc_pick finds a READY process whenever there is one, keeps the RUNNING one when it is alone, and fails only when neither exists |
| Task.ScheduleFacts | include/task.h:316-323 | scheduling only exchanges READY and RUNNING, leaves a RUNNING current process whenever anybody is runnable, and otherwise changes nothing |
| Task.FirstNewIs | include/task.h:139-150 | proc_alloc takes the slot after the last used one, or fails when the table is full |
| KernelRuns.EventKeepsTable | include/task.h:125-486 | every timer interrupt, system call and launch keeps the table invariant |
| KernelRuns.KillOk | include/task.h:472-486 | kill keeps the table invariant except when it is aimed at pid 0 while a slot is unused, and then it breaks it |
| KernelRuns.TableInvariant | include/task.h:125-150 | in every reachable state used slots are a prefix, slot i has pid i+1, pids are unique and fit in eight bits, and only the current process is RUNNING |
| KernelRuns.TerminatedIsFinal | include/task.h:461-486 | a step makes a TERMINATED process anything else only when it is itself the caller of a blocking call |
| KernelRuns.TerminatedAbsorbing | include/task.h:461-470 | over runs in which only RUNNING processes make calls, TERMINATED is final |
| KernelRuns.KillHits | include/task.h:472-486 | kill of a pid in use makes exactly that process TERMINATED, and of one out of use does nothing |
| KernelCode.Machine.constructor | include/task.h:125-136 | the tables as the kernel starts with them |
| KernelCode.Machine.ProcInit | include/task.h:125-136 | every slot becomes NEW with pid 0 and no links |
| KernelCode.Machine.SemInit | include/semaphore.h:22-28 | every semaphore becomes unused |
| KernelCode.Machine.ProcAlloc | include/task.h:139-150 | the first NEW slot becomes READY under the next pid |
| KernelCode.Machine.ProcPick | include/task.h:191-211 | the two scans compute the round-robin choice |
| KernelCode.Machine.SaveRegs | include/task.h:228-265 | the registers go to the current slot, data segments cut to 16 bits |
| KernelCode.Machine.ProcSwitch | include/task.h:269-307 | the chosen process runs and the processor loads its saved image |
| KernelCode.Machine.ScheduleProc | include/task.h:316-323 | if anybody can run the picked process runs and the processor has its saved image; otherwise neither changes |
| KernelCode.Machine.PitHandler | include/task.h:326-363 | the timer interrupt: count down, or save and schedule; when somebody is picked the processor has his image, and otherwise what it had |
| KernelCode.Machine.CreateProcess | include/task.h:154-189 | a READY process with its creation image |
| KernelCode.Machine.DoFork | include/task.h:368-427 | the child slot is filled from the parent's image and the parent gets its pid, or -1 |
| KernelCode.Machine.DoWakeup | include/task.h:430-444 | the first WAITING process with that eight-bit pid becomes READY and the scheduler runs; then the processor has the image of the picked process, and otherwise what it had |
| KernelCode.Machine.DoWait | include/task.h:450-458 | the caller waits and somebody else runs on his own image, if there is anybody; otherwise the processor keeps what it had |
| KernelCode.Machine.DoExit | include/task.h:461-470 | the caller is TERMINATED and its parent woken; if it was waiting the picked process runs on its own image |
| KernelCode.Machine.KillPid | include/task.h:472-486 | the first slot with that pid is TERMINATED |
| KernelCode.Machine.DoSemP | include/semaphore.h:30-42 | decrement, and queue and block below zero; the processor changes only when another process is picked |
| KernelCode.Machine.DoSemV | include/semaphore.h:44-56 | increment, and wake the head, with the literal pop; the processor changes only when somebody is woken |
| KernelCode.Machine.DoGetSem | include/semaphore.h:58-70 | the first unused semaphore, or -1 |
| KernelCode.Machine.DoFreeSem | include/semaphore.h:72-75 | the semaphore becomes unused with an empty queue |
| KernelCode.Machine.DoThreadCreate | include/systhread.h:15-86 | the child slot is filled with the thread image, or -1 |
| SemaphoreQueues.VWakesOne | include/semaphore.h:44-56 | a V that finds a waiter wakes exactly the process it unlinks (intended pop) |
| SemaphoreQueues.PKeepsQueues | include/semaphore.h:30-42 | P leaves every queue a list of distinct WAITING processes of the right length |
| SemaphoreQueues.VKeepsQueues | include/semaphore.h:44-56 | V leaves every queue a list of distinct WAITING processes of the right length (intended pop) |
| SemaphoreQueues.StepRefines | include/semaphore.h:30-75 | every fair step of the kernel is the step of abstract semaphores that know only tallies and queues: P passes if and only if fewer P than initial value plus V have passed, V releases the head if the queue is not empty |
| SemaphoreQueues.CountingSafety | include/semaphore.h:30-75 | over every fair run, any number of waiters: completed P operations never exceed initial value plus V operations, queues hold max(0,-val) distinct WAITING processes, nobody waits while one more could pass |
| SemaphoreQueues.PopAgrees | include/semaphore.h:50-54 | the literal pop equals the intended one if and only if the caller's next equals the head's |
| SemaphoreQueues.PopLosesWaiters | include/semaphore.h:50-54 | with two waiters and a caller whose next is NULL the list is lost |
| SemaphoreQueues.AsWrittenAgrees | include/semaphore.h:30-56 | with at most one waiter per semaphore the literal code takes the intended steps |
| SemaphoreQueues.CountingSafetyAsWritten | include/semaphore.h:30-75 | the counting theorem for the literal code with at most one waiter per semaphore |
| SemaphoreLimits.BlockedPReturns | include/semaphore.h:36-40 | a P that does not pass returns to its caller, queued but executing, if and only if nobody else is READY |
| SemaphoreLimits.ExitKeepsQueuesIff | include/task.h:461-470 | exit leaves every semaphore a proper queue if and only if the caller's parent waits for no semaphore |
| SemaphoreLimits.KillKeepsQueuesIff | include/task.h:472-486 | kill leaves every semaphore a proper queue if and only if its victim waits for no semaphore |
| SemaphoreWitnesses.LostWaitersReachable | include/semaphore.h:44-56 | from power-on, launch, get_sem(0), two forks, two blocking P and a V by the third process: two processes in the queue, then a counter that promises a waiter and no list |
| SemaphoreWitnesses.ExitAndKillReachable | include/task.h:461-486 | from power-on, a state in which exit of the child, and kill of the father, leave no proper queues |
| SemaphoreWitnesses.FallsThroughReachable | include/semaphore.h:30-42 | from power-on, a state in which P returns to its blocked caller |
| SemaphoreLimits.HandedOut | include/semaphore.h:58-70 | the first unused semaphore gets the counter and keeps its old queue head; when all are used nothing changes |
| SemaphoreLimits.FreedHeadIff | include/semaphore.h:72-75 | after do_freesem the head a V needs is there if and only if the counter is not negative |
| SemaphoreLimits.FreedWaitersStranded | include/semaphore.h:72-75 | the other queues survive do_freesem; the waiters of the freed semaphore still wait and are in no queue |
| RoundRobin.PickOnTheWay | include/task.h:191-211 | the picked process is no further from the running one than any READY process |
| RoundRobin.EventNearer | include/task.h:269-363 | a timer interrupt or a call that neither blocks nor exits brings every READY process nearer, or keeps it and uses up a tick |
| RoundRobin.BoundedWaiting | include/task.h:326-363 | a READY process runs before (MAX_TICK+1) * distance timer interrupts have passed, whoever becomes READY meanwhile |
| ContextSwitch.SwitchTransparent | include/task.h:228-307 | over whole runs the image of a process is the one it last stored, or its creation image |
| ContextSwitch.ResumesWhereItStopped | include/task.h:269-323 | over whole runs, whenever somebody is picked the current process is RUNNING and its image, which the code loads, is the one it last stored or its creation image; without a pick the processor does not change hands |
| ContextSwitch.PickedRuns | include/task.h:316-323 | every event whose condition for a pick holds ends with a RUNNING current process |
| ContextSwitch.OnlyPicksSwitch | include/task.h:316-359 | without a pick the current process stays, or the processor goes back to the shell |
| ContextSwitch.SavedFields | include/task.h:228-265 | field by field: 16 bits of ds, es, fs and gs, and every other register whole |
| ContextSwitch.ForkSplits | include/task.h:368-427 | the child resumes where the parent called, with result 0, all other registers inherited, and both stack registers shifted by pid * 0x100 modulo 2^32; the parent gets the child's pid, neither 0 nor -1 |
| ContextSwitch.ForkFails | include/task.h:376-380 | with a full table the result is -1 and only the caller's image changes |
| ContextSwitch.LaunchStarts | include/task.h:154-189 | a launched program gets the next slot, READY with a full time slice and its creation image, and nobody else changes |
| ContextSwitch.ThreadStarts | include/systhread.h:23-78 | a thread starts at its function, eight bytes down a stack shifted by pid * 0x100, all other registers inherited |
| ContextSwitch.StacksApart | include/task.h:396-408 | two children of the same registers have different stacks |
| Fruit.EveryInterleaving | usr/fruit.c:22-66 | over every interleaving: the father sees a full plate, the fruit child an empty one, the lines printed carry the blessing and fruit 1 + k mod 3, and one of the three is always executing |
| FruitProgress.FatherEatsAgain | usr/fruit.c:38-66 | from every reachable state, in every schedule of 84 program steps and any number of timer interrupts, the father prints another line |
| ProCon.EveryInterleaving | usr/pro-con.c:20-34 | over every interleaving: mutual exclusion, tot = produced - consumed >= 0, tot >= 1 at each consume, and one of the two is always executing |
| ProConProgress.ConsumerEatsAgain | usr/pro-con.c:20-34 | from every reachable state, in every schedule with 111 timer interrupts and a program step between any two of them, the consumer takes another item |
| Bank.EveryInterleaving | usr/bank.c:10-35 | over every interleaving: mutual exclusion, account = 1000 + 10 deposits - 20 withdrawals, and 1000 again at the end |
| Bank.ChildExitsKernel | usr/bank.c:25-32 | the child's exit never takes the father off the semaphore queue |
| BankProgress.BankEnds | usr/bank.c:10-35 | after 1057 program steps, however they are interrupted, both loops and main are over and the account is at 1000 |
| MatMul.RowsPartition | usr/matmal.c:26 | every row below (c+1)*M/T of the last thread has exactly one owning thread |
| MatMul.RowIsQuotient | usr/matmal.c:26 | the range of thread c starts at c*M/T, rounded down |
| MatMul.PartialIsDot | usr/matmal.c:26-31 | the accumulated terms are the scalar product of a row and a column |
| MatMul.IdentityNeutral | usr/matmal.c:26-31 | a product with the identity on either side is the other factor |
| MatMul.EveryInterleaving | usr/matmal.c:19-72 | over every interleaving, matrix size and number of threads: when the last join has returned every thread is TERMINATED and every cell of matC is the scalar product of its row of matA and its column of matB |
| MatMulProgress.ProductComesBack | usr/matmal.c:19-72 | in every schedule with a program step between any two timer interrupts and enough interrupts, a bound computed from the job, the last join returns, and then matC is the product |
| Prologue.FruitStarts | usr/fruit.c:32-38 | from power-on, launch and four get_sem calls reach the start of the fruit program |
| Prologue.ProConStarts | usr/pro-con.c:11-14 | from power-on, launch and two get_sem calls reach the start of the producer and consumer |
| Prologue.BankStarts | usr/bank.c:10-12 | from power-on, launch and one get_sem call reach the start of the bank program |
| Prologue.MatMulStarts | usr/matmal.c:35-65 | from power-on, launch reaches the start of the matrix product |
| CString.StrLen | include/string.h:31-37 | the number of characters before the terminator |
| CString.StrCmp | include/string.h:39-47 | 0 if and only if the texts are equal, otherwise the first difference |
| CString.StrCpy | include/string.h:49-54 | the text is stored with its terminator, also when it moves down within one buffer |
| CString.StrCat | include/string.h:77-84 | the concatenation is stored |
| CString.Reverse | include/string.h:94-103 | the text is reversed in place |
| CString.StrChr | include/string.h:106-112 | the first occurrence, if and only if there is one |
| CString.StrSep | include/string.h:114-132 | the text is cut at the first of the delimiters, if and only if there is one |
| CString.ToLower | include/string.h:170-177 | every capital becomes the small letter at its place of the alphabet, and every other character stays |
| CString.MemCpy | include/string.h:22-29 | the range is copied and the rest kept |
| CString.MemSet | include/string.h:15-20 | the range is filled and the rest kept |
| CString.CompareAt | include/string.h:39-47 | the result is the difference of the characters at the first place where the texts differ |
| CString.CompareZero | include/string.h:39-47 | the comparison is 0 exactly for equal texts, and antisymmetric |
| Number.Itoa | include/string.h:134-158 | the numeral is stored, within 32 scratch digits |
| Number.NumeralFits | include/string.h:134-158 | every 32-bit value in every base needs between 1 and 32 digits |
| Number.DigitsSpell | include/string.h:134-158 | the digits have the value they were made from, and no leading zero |
| Number.ValuePositional | include/string.h:134-158 | the first of n+1 digits counts base^n |
| Number.DigitChar | include/string.h:136 | the digit characters are 0123456789ABCDEF in this order |
| Number.SpellingUnique | include/string.h:134-158 | every digit string without a leading zero is what itoa prints for its value |
| Number.DoReadInt | include/stdio.h:200-216 | the int and the number of characters read, in 32-bit arithmetic |
| Number.ReadBack | include/stdio.h:200-216 | read_int undoes itoa for every 32-bit int if and only if no digit follows |
| Number.NegativeRead | include/stdio.h:200-216 | a minus sign in front of a number that fits makes it negative |
| Format.Sprintf | include/stdio.h:218-269 | the buffer holds what the format prints |
| Format.Sscanf | include/stdio.h:316-364 | the values stored through the arguments |
| Format.PrintsItems | include/stdio.h:218-269 | a format of literals, %d, %s and %c prints its items one after the other |
| Format.NumbersPrinted | include/stdio.h:237-247 | %x and %X print the 32-bit value in base 16, %d and %i in base 10 |
| Format.PercentPrinted | include/stdio.h:256-260 | %% prints a percent sign, any other unknown conversion nothing |
| Format.ReturnPrinted | include/stdio.h:261-262 | a carriage return prints a newline, and so does a newline |
| Format.WidthIgnored | include/stdio.h:234-261 | a field width is skipped |
| Format.LiteralScanned | include/stdio.h:351-360 | a literal takes its character if it is there and nothing otherwise, a space takes all spaces |
| Format.ReadTakes | include/stdio.h:316-364 | a conversion reads back what it printed if and only if no digit, or a space or the end, follows |
| Format.ScanUndoesPrint | include/stdio.h:316-364 | reading what a format printed with the same format gives back the arguments |
| Screen.Display.HandleScrolling | include/stdio.h:69-90 | at the end of the screen every row moves up by one and the last one becomes zero |
| Screen.Display.PutChar | include/stdio.h:93-134 | the screen goes on showing its window of the tape, with an even cursor inside it |
| Screen.Display.PrintAt | include/stdio.h:136-146 | after a whole text, at the cursor or at a given place, the screen still shows its window of the tape |
| Screen.Display.ClearScreen | include/stdio.h:162-173 | 24 rows of spaces, a last row of zero bytes, cursor at the top, and again a window of the tape |
| Screen.PrintTypes | include/stdio.h:93-146 | printing types the text on a tape that knows nothing of the window |
| Screen.ScrollsOneRow | include/stdio.h:69-90 | the window moves by at most one row, and then the cursor is at the start of the last row |
| Screen.ControlCharacters | include/stdio.h:112-121 | character 8 blanks the cell before the position and goes back to it, character 10 goes to the start of the next row |
| Screen.PrintedTextVisible | include/stdio.h:93-146 | text of up to 24 rows stands in front of the cursor after it was printed, however often the screen scrolled |
| Screen.OverprintsAtPlace | include/stdio.h:136-146 | with a place given only the last character of printable text stays |
| Screen.StandsAtPlaceIff | include/stdio.h:136-146 | the text stands at its place if and only if it ends with its first character and its rest stood there before |
| Screen.OverprintsAnyText | include/stdio.h:136-146 | any text at a place above the last row: the last printable character stays, a backspace blanks the cell before, newlines do nothing, and the screen does not scroll |
| Screen.LastCellScrolls | include/stdio.h:136-146 | at the last cell every character scrolls and stands at the end of a row of its own |

## Left out

- FatDirectory.Directory.FindEntry: at the root only; the branch for subdirectories reads one directory into a shared buffer.
- FatDirectory.Directory.Rm: removal at the root, with the deletion as it was meant to be.
- FatDirectory.RemovesFile: for live entries; what the name finds is the subject of DirectoryRuns.RmSound and DirectoryRuns.DeadRmIff.
- FatDirectory.DirectoryKeepsVolume: its second half is for live entries too.
- Fat12.Fat.DelFatEntry: stores 0 in the entry, where line 406 misses the table; see DelFatEntryAsWritten.
- CString.StrSep: not for a null string pointer, for which the code returns NULL at once.
- Prologue.MatMulStarts: takes the loops that fill the three matrices (`usr/matmal.c:37-43`) as done.
- Number.DoReadInt: signed overflow wraps modulo 2^32, as the compiled code does; C leaves it undefined.
- FatTable.ClustersFor: the int size is unbounded, so the model has no overflow for sizes near 2^31.
- KernelCode.Machine.CreateProcess: demands a free slot, where the code would use the NULL that proc_alloc returns (`include/task.h:157-158`).
- KernelCode.Machine.DoFork: the register image only; the user stack that is copied along is not modelled.
- KernelCode.Machine.DoThreadCreate: the two words pushed on the thread's stack are not modelled, only the stack pointer they leave.
- System calls are atomic: the code disables interrupts around them.
- printf inside the user programs is one step that shows the value read.
- Other programs launched beside one of the four user programs, and waiting for keyboard input.
- fat12_read_bytes and fat12_write_bytes, which repeat the cluster loops with one more bound.
- File contents after fat12_create_file and the copy of the table on disk: the sector writes are commented out.
- Data clusters beyond the end of the 2880-sector disk: a chain that is read or written is assumed to lie on the disk.
- Directory entries that are labels or belong to empty files have no chain; volumes are those whose live entries all have one.
- Dates and times of directory entries, attributes other than the archive bit, and listing directories.
- do_fread, which is do_fgets with a product for its length.
- Port I/O, interrupt controllers, keyboard, descriptor tables, ELF loading, the shell and terminal switching.
- Padding and field widths: sprintf reads a width and ignores it, sscanf does not know them; the round trip is for formats without them.
