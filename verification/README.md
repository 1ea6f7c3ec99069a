# yar, verified

A Dafny model of yar, the daemon that runs command lines behind pseudo-terminals, and proofs
about its three hard parts:

- **The broadcast relay** (`cmd.c`). Each command's output goes through a 4096-byte ring buffer
  to its own client tty and, line by line if asked, to one broadcast tty that all commands share.
- **The command lifecycle and the ready protocol** (`cmd.c`, `main.c`, `tty.c`). Processes start
  and stop as the ttys are opened, closed and drained, restart when they exit, and receive input
  only once they have printed the ready string, and no faster than their delay allows.
- **The synthetic file system** (`fs.c`, `yarfs.c`): inode table, directories with two indexes,
  recursive removal, one-pass cleanup, and the files it serves. The command specs of the command
  line and the monitor (`main.c`) are here too.

Each part is stated twice. Value modules say what happens as functions and transition systems,
and carry the theorems about whole runs; classes with the source's fields do the same work step by
step in place, and each method's contract ties the heap to those functions. `Loop.Handle` takes
every enabled step of the transition system on the heap, and `Loop.TheLoop` composes them: the
heap after any sequence of events and times is where the lifecycle, the relay and the bytes sent to
the commands end up, so what is proved about those runs holds of the classes. `course.dfy` carries
gating and pacing over to everything that such a run sends.

| file | what it holds |
|---|---|
| `text.dfy` | lines of a stream, first separator, splitting and joining |
| `ready.dfy` | the ready-string matcher |
| `relay.dfy`, `ring.dfy`, `drain.dfy` | the relay on plain text; the ring's arithmetic; draining a queue |
| `lifecycle.dfy`, `promises.dfy` | the transition system and its invariant; what it promises over runs |
| `gating.dfy`, `stale.dfy` | the ready count and end-to-end gating over runs; the runs in which they fail |
| `pacing.dfy`, `deliver.dfy` | delivery times; the handlers that deliver bytes as steps of that model |
| `wire.dfy`, `course.dfy` | what each step sends to the commands; gating and pacing of everything sent along a run |
| `tty.dfy`, `cmd.dfy`, `main.dfy`, `loop.dfy` | the classes `Tty`, `Cmd`, `Globals`, the handlers on them, and runs of handlers |
| `cmdspec.dfy` | `strsep` and `cmdspecParse` on a character array |
| `inodes.dfy`, `fsinv.dfy`, `fs.dfy` | the file system as values, its invariant, and the class `Fs` |
| `yarfs.dfy` | sizes, contents, chunked reading and parsing of the synthetic files |

Characters stand for bytes, `real` for seconds and counters are unbounded where the source has 64
bits. The operating system is not modelled: pids returned by `fork`, the clock, whether a path
exists and what `strtod` returns are parameters or fields of events.

## Where the code and its promises part

Each of these is a theorem that says exactly when the promise holds.

- Taking the broadcast stream apart by name (usage text, `main.c:152-158`) works for every
  interleaving if and only if no name contains a newline or `": "`; nothing checks names
  (`Relay.DemuxIffGoodNames`).
- A line of exactly 4096 bytes takes the overflow branch and yet loses nothing; only the excess
  over 4096 bytes is lost (`Relay.Conservation`, `Ring.Overflowed`).
- The ready matcher drops a mismatching byte instead of trying it as a first byte. It notices
  every occurrence if and only if all bytes of the ready string are equal
  (`Ready.CompleteIffConstant`).
- A process that receives input has printed the ready string itself, unless yar matched a stale
  byte. What a process leaves in its tty is read after its end (`cmdStart` flushes nothing,
  `cmdCmdttyEvent` reads one byte at a time), and the match does not ask who wrote a byte. Every
  step keeps all matches the running processes' own if and only if it does not match a stale byte
  (`Gating.StepOwn`); in runs without one gating holds (`Gating.Gated`). For every ready string, a
  process that prints it and exits makes its restarted successor ready, which has printed nothing,
  and the ready count notices nothing (`Stale.StaleHappens`).
- `cmdsreadycnt` equals the number of ready commands after a step if and only if the step is not a
  stale byte that completes the match of a command that is down (`Lifecycle.StepInv`); such bytes
  occur for every ready string (`Stale.LateReadyHappens`). In every run the count is the number of
  ready commands plus the matches of that kind that a start or a deletion has forgotten
  (`Gating.CountDrift`), so it is never negative, and the assert on its upper bound fails exactly
  when a match completes while no more commands are unready than were forgotten
  (`Gating.UpperAssert`). The drift lets a broadcast byte through to a process that has printed
  nothing (`Stale.LateReadyDrifts`), or ends yar (`Stale.AbortHappens`).
- An empty ready string makes every command ready and blocks the broadcast tty for good
  (`Gating.BroadcastGate`).
- `bcstttyEvent` never stops a command, so the last byte of a closed broadcast tty is the one step
  that leaves an idle process running (`Promises.NoIdleStep`).
- A broadcast byte waits only for the slowest command: client and broadcast bytes together keep a
  command's delay over every continuation without additions if and only if it is the slowest or has
  no delay (`Pacing.MixedIff`). It does not wait at all while the slowest command's own tty is
  closed (`Pacing.BackToBack`).
- The result of `dir_add` is ignored: creating an item keeps the tree if and only if its name is new
  (`FsInv.CreateIff`).
- A freed slot keeps its pointer, so creation stops after any removal (`FsInv.CreateIff`), and
  `fsCleanup` goes through if and only if nothing was removed before (`FsInv.CleanupIff`).
- `discards` is addressed with an `int` taken from a 64-bit counter, and the space left is computed
  as a `size_t` and cut to an `int`. The copy stays inside the array if and only if the counter does
  not read as negative or reads as one of the 1025 most negative values, for which the space left
  wraps to below zero and nothing is copied (`Ttys.WindowInside`).
- `/lcmds` and `/ttys` read back as what they list if and only if no name or link has a comma and no
  field a newline (`Yarfs.ListingIff`, `Yarfs.TtysIff`).
- The content of `/bcst` ends with the terminator of the C string, not with a newline
  (`Yarfs.BcstRead`).

## Model

| member | source | states |
|---|---|---|
| Ready.MatchSound | cmd.c:73-97 | a full match counter means the ready string occurred contiguously in the output; a partial one of k means the output ends with its first k bytes |
| Ready.CompleteIffConstant | cmd.c:88-97 | every occurrence is noticed if and only if all bytes of the ready string are the same |
| Ready.NonConstantMisses | cmd.c:88-97 | for any other ready string, its first byte followed by the string is an occurrence that is missed |
| Relay.LineAtomicity | cmd.c:109-190 | for every interleaving, the broadcast tty is offered whole lines in the order of their newlines, each prefix followed by the last 4096 bytes of that command's line |
| Relay.TailIs | cmd.h:8 | what is kept of a line is its longest ending of at most 4096 bytes |
| Relay.RawRun | cmd.c:110-113 | without line buffering, over every interleaving, the broadcast tty is offered exactly the bytes read in their order, each counted twice, and nothing is flushed from the buffer |
| Relay.OffRun | cmd.c:103-108 | without a broadcast tty nothing is offered to one and each byte is counted once |
| Relay.CompletedOf | cmd.c:121-188 | one command's lines among all completed ones are exactly the lines of its output |
| Relay.DemuxRoundTrip | main.c:152-158 | with good names, line and `": "` recover each command's exact sequence of tail-cut lines from any interleaving |
| Relay.BadNameLoses | cmd.c:536-538 | for a name with a newline or `": "`, one byte of output is enough to lose it |
| Relay.DemuxIffGoodNames | main.c:152-158 | the demultiplexing promise holds over all interleavings if and only if all names are good |
| Relay.Conservation | cmd.c:103-188 | bytes written by a command are broadcast, lost beyond 4096 of their line, or still buffered; the three add up |
| Relay.ReturnedCounts | cmd.c:106-185 | the returned counts of a run add up to the client bytes and the broadcast bytes without prefixes |
| Ring.Store | cmd.c:100-103 | storing a byte keeps the ring equal to the last 4096 bytes of the unbounded output |
| Ring.Wraps | cmd.c:115-120 | counting at the wrap test keeps `bufof` equal to `(bufn - bufstart) / 4096` |
| Ring.Contiguous | cmd.c:134-143 | when start is not after end, that slice of the ring is the line |
| Ring.TwoPieces | cmd.c:144-164 | when it is, the two slices put together are the line |
| Ring.Overflowed | cmd.c:165-187 | after a wrap, from behind the newest byte around to it are the last 4096 bytes of the line, all of it if it has exactly 4096 |
| Drains.FoldIsRun | cmd.c:208-213 | draining a queue is the matcher and the relay run over it, and offers all of it to the client |
| Ttys.WindowInside | tty.c:321-328 | the copy into `discards` stays inside the array if and only if the counter reads as an `int` that is not negative or at most 1024 above the smallest |
| Ttys.Tty.constructor | tty.c:110-129 | a new tty has counted, delivered and discarded nothing |
| Ttys.Tty.Create | tty.c:225-228 | an unopened tty is reset to no opens and nothing to read, and stays consistent |
| Ttys.Tty.NotifyEvent | tty.c:50-79 | opens count up by one, closes down by one but never below zero |
| Ttys.Tty.WriteBuf | tty.c:281-332 | all bytes are delivered when the tty is open and discarded, with the first 1024 kept, when it is not; only delivery asks for a timestamp |
| Ttys.Tty.ReadChar | tty.c:344-374 | nothing is read while the delay is positive and has not passed; as soon as it has, the next byte in order, or -1 when there is none |
| Cmds.Cmd.constructor | cmd.c:523-570 | a new command is idle, with an empty ring and the prefix of its name |
| Cmds.Cmd.MatchReady | cmd.c:73-98 | the counter advances as the matcher does, the global count by one exactly when the string is completed, and yar aborts exactly when that takes the count beyond the table |
| Cmds.Cmd.TakeByte | cmd.c:49-98 | the next byte is read and matched whoever wrote it; an empty tty changes nothing |
| Cmds.Cmd.PassByte | cmd.c:100-206 | a byte is stored and passed to the client tty; the broadcast tty is offered nothing without one, the byte itself unbuffered, and in line mode at a newline the prefix and the last 4096 bytes of the line; the count returned is that of the bytes without prefix |
| Cmds.Cmd.StoreByte | cmd.c:100-103 | the byte joins the output and the ring keeps its meaning |
| Cmds.Cmd.FlushComplete | cmd.c:132-164 | the broadcast tty is offered exactly the buffered line, in one piece or two, and its length is returned |
| Cmds.Cmd.FlushOverflowed | cmd.c:165-187 | the broadcast tty is offered the last 4096 bytes of the line, in order |
| Cmds.Cmd.FlushLine | cmd.c:130-188 | whichever branch is taken, what goes out is the tail of the pending line, and nothing is pending afterwards |
| Cmds.Cmd.SendLine | cmd.c:121-188 | the prefix, if enabled, and then the tail of the line go out, and only the line is counted |
| Cmds.Cmd.BroadcastLine | cmd.c:115-189 | in line mode one byte offers what the plain-text relay offers and keeps what it keeps |
| Cmds.Cmd.ProcessOutput | cmd.c:42-206 | one byte of output is matched, stored, passed to the client tty and relayed as the mode says, with the count returned; nothing after the match happens if that aborts; an empty tty changes nothing |
| Cmds.Cmd.Drain | cmd.c:208-213 | draining ends with an empty queue and the fold of the step over it, unless the queue completes the match with the global count already full, and then yar aborts |
| Cmds.Cmd.WriteChar | cmd.h:54-57 | the byte is written once, and the timestamp moves exactly when it is delivered |
| Cmds.Cmd.Start | cmd.c:583-663 | a process is launched exactly if none runs, and is then the command's one child, with nothing matched |
| Cmds.Cmd.Stop | cmd.c:666-762 | a running process is stopped exactly if forced or both ttys are closed and read empty; it is sent a newline and its own stop string, else the global one, else nothing; the match count is cleared if it was full, and the ready count loses it exactly then |
| Cmds.Cmd.OpenClient | cmd.c:447-458 | an open is counted and leaves the command running |
| Cmds.Cmd.CloseClient | cmd.c:459-471 | a close is counted and stops the command exactly if that made it idle |
| Cmds.Cmd.ReadClient | cmd.c:378-412 | one byte goes to the command exactly if it is ready and due, and may then stop it: the next of the client tty or, if that is empty, an undefined one; otherwise nothing is sent |
| Lifecycle.StepCore | cmd.c:583-760 | every step keeps one child for each running command and none for others, starts and reaped terminations alternating, and the global count at least the number of ready commands |
| Lifecycle.WithoutIs | main.c:748-753 | a deletion leaves the other commands in the order in which the loops visit them |
| Lifecycle.StepGap | cmd.c:649-662 | every step moves the difference between the global count and the number of ready commands by exactly the late matches that it forgets |
| Lifecycle.StepInv | yar.h:134-142 | every step keeps the global count equal to the number of ready commands, all running, if and only if it is not a late ready byte |
| Lifecycle.CleanupInv | main.c:1314-1328 | after cleanup no child remains, whatever the count was |
| Gating.CountDrift | cmd.c:251-253 | in every run the global count is the number of ready commands plus the late matches forgotten so far, so the assert that it is not negative cannot fire |
| Gating.UpperAssert | cmd.c:80-81 | after every run, the assert that the count is at most the number of commands fails in a step if and only if that step completes a match while no more commands are unready than late matches were forgotten |
| Gating.MatchedIs | cmd.c:73-97 | the bytes the counter stands for are a contiguous stretch of what was read and spell the beginning of the ready string |
| Gating.OwnMatch | cmd.c:73-97 | a full match whose bytes one process wrote is a contiguous occurrence in what that process wrote |
| Gating.StepOwn | cmd.c:73-97 | every step keeps all matches the running processes' own, and no command ready that is down, if and only if it does not match a stale byte |
| Gating.AgreeingRun | cmd.c:73-97 | in every run without a late ready byte the count is that of the ready commands and yar does not abort |
| Gating.BroadcastGate | main.c:593-597 | while the count agrees, broadcast bytes are held back if and only if some command is not ready or the ready string is empty |
| Gating.Gated | cmd.c:380-399 | in every run that matches no stale byte, each client or broadcast byte goes to a running process that has itself written the ready string, contiguously |
| Promises.StepEffect | cmd.c:217-471 | what every event does to open counts, waiting bytes, running processes and their pids, the table, its order and the flags, exactly |
| Promises.KeepStep | cmd.c:256-285 | every step keeps open commands running if and only if it is not the unrestarted exit of an open command |
| Promises.KeptRunningRun | main.c:218-235 | in every run with global restart, a command runs whenever its client tty or the broadcast tty is open |
| Promises.NoIdleStep | cmd.c:404-407 | every step leaves running only commands with an open or unread tty, if and only if it is not the last byte of a closed broadcast tty |
| Promises.NoIdleRun | cmd.c:459-468 | no idle process in any run without that step |
| Promises.IdleExitDrains | main.c:653-677 | `monIdleExit` marks every command and exits at once exactly when there is none |
| Promises.DrainingStep | main.c:653-677 | from then on every command, later ones too, goes with its process; an exit starts nothing; yar has exited exactly when the table is empty |
| Promises.Converges | main.c:747-753 | without additions yar exits exactly when as many exits and deletions have happened as there were commands |
| Promises.StopTwice | cmd.c:669-671 | stopping a second time does nothing |
| Stale.StaleHappens | cmd.c:323-324 | for every ready string, a process that prints it and exits makes its restarted successor ready, which has written nothing and is sent client bytes, while the count agrees |
| Stale.LateReadyHappens | cmd.c:323-324 | for every ready string, an open, a close and what the stopped process had printed make a late ready byte |
| Stale.LateReadyDrifts | cmd.c:660 | after a late ready byte the next start leaves the count one too high, and a broadcast byte can go to a process that printed nothing |
| Stale.AbortHappens | cmd.c:80-81 | for every ready string and a single command, a late match, a start and a real match make the assert fail |
| Pacing.Paced | tty.c:346-359 | in every add-only run the slowest command has the largest delay, client bytes are at least the command's delay after anything delivered to it, broadcast bytes too while it is the slowest, and broadcast bytes are spaced for all while one slowest command takes them |
| Pacing.AddedInv | main.c:472-476 | adding a command keeps the maximum and the spacing |
| Pacing.BackToBack | main.c:598-600 | a second broadcast byte gets through before the delay if and only if the slowest command's tty was closed |
| Pacing.ClientIff | tty.c:351-359 | a byte that waits at the client tty of an open command is delivered, to it alone, if and only if the delay is not positive or has passed since the last delivery |
| Pacing.BcstIff | main.c:598-610 | a byte that waits at the broadcast tty is delivered to every open command if and only if that holds of the slowest command |
| Pacing.MixedIff | main.c:598-600 | over every continuation without additions, client and broadcast bytes to a command come at least its delay after all before, if and only if it is the slowest or its delay is not positive |
| Deliveries.ClientByte | cmd.c:378-407 | on the heap, a readable client tty is the pacing step of its command, delivery log included, followed by exactly the bytes of its stop string if that stopped it and by none if not; nothing if it is not ready |
| Deliveries.BcstByte | main.c:589-613 | on the heap, a readable broadcast tty is the pacing step of all commands, delivery logs included, paced by the slowest; nothing while a ready string is set and the ready count is below the number of commands |
| Deliveries.Add | main.c:455-478 | on the heap, adding a command is the pacing step: it starts with an empty delivery log, and becomes the slowest exactly if it is slower |
| Main.CltttyOpen | cmd.c:441-458 | on the heap, an open of a client tty is the lifecycle step |
| Main.CltttyClose | cmd.c:459-471 | on the heap, a close of a client tty is the lifecycle step; the command is sent its stop string exactly if that stopped it, the others nothing |
| Main.CltttyEvent | cmd.c:368-412 | on the heap, a readable client tty is the lifecycle step, paced by the last delivery; what the command is sent is that byte and, if it stops, its stop string |
| Main.BcstttyOpen | main.c:545-560 | on the heap, opening the broadcast tty is the lifecycle step: every command runs |
| Main.BcstttyClose | main.c:561-572 | on the heap, closing it is the lifecycle step over all commands; exactly those that it stops are sent their stop strings |
| Main.WriteEach | main.c:488-502 | every command is written the byte exactly once, and stamped exactly if it takes it |
| Main.BcstttyEvent | main.c:582-613 | a byte is taken from the broadcast tty exactly if no command is unready and the slowest is due; then every command is sent exactly that byte, and otherwise none anything |
| Main.PidEvent | cmd.c:217-285 | on the heap, the end of a process is the lifecycle step: delete, restart or neither |
| Main.AddCmd | main.c:442-478 | a new name joins the table with its own parts, command line, stop string and delay, has been sent nothing, and becomes the slowest exactly if it is slower |
| Main.MonAdd | main.c:688-716 | on the heap, adding a command is the lifecycle step |
| Main.MonDel | main.c:728-753 | on the heap, deleting a command is the lifecycle step; if it was running it is stopped and sent its stop string first |
| Main.MonIdleExit | main.c:653-677 | on the heap, idle exit is the lifecycle step |
| Main.Cleanup | main.c:1314-1328 | on the heap, cleanup is the lifecycle step: all stopped, each that was running sent its stop string, table empty |
| Loop.CmdReady | cmd.c:313-326 | on the heap, a readable command tty is the lifecycle step and the relay step, whoever wrote the byte and whether or not a process runs; only the lifecycle step if the match aborts yar |
| Loop.Handle | main.c:1163-1175 | every enabled step of the lifecycle, in every state reachable by such steps, is taken on the heap by its handler, with the relay's step beside it; a waiting byte is read exactly if the delay is not positive or has passed; and what every command is sent is what the step sends |
| Loop.TheLoop | main.c:1144-1191 | for every sequence of events and times the heap ends where those that can happen, as the clock decides them, take the lifecycle, the relay and what each command was sent |
| Loop.CourseRun | main.c:1144-1191 | what happens of a sequence is a run of the lifecycle, and the relay follows it |
| Loop.RelayIsRun | main.c:1144-1191 | with a broadcast tty from the start, the relay of such a run is the plain-text relay over the interleaving of the bytes read, as long as no name comes back after a deletion that left part of a line |
| Courses.Offered | cmd.c:378-407 | a step offers a command that stays exactly the byte that was waiting for it, if its gate is open, and its stop string, if it stops its process |
| Courses.GatedRun | cmd.c:380-399 | along every sequence that matches no stale byte, whatever is offered beside a stop string goes to a running process that has itself written the ready string |
| Courses.CourseRuns | tty.c:346-359 | along every sequence that removes no command, what the commands are sent is a run of the pacing model |
| Courses.CoursePaced | tty.c:346-359 | so the slowest command has the largest delay, and client bytes reach a command at least its delay after whatever reached it before |
| Cmdspec.Strsep | main.c:370-370 | the string is cut in place at its first comma; head and rest read back as such, nothing before changes |
| Cmdspec.ParseIff | main.c:360-439 | a spec is accepted if and only if it is four comma-free fields and a rest joined by commas, with the link empty or not taken, the delay empty or convertible, and the rest not empty; then its name, link, log, delay and command line are these, with the default delay for an empty one |
| Cmdspec.CmdspecParse | main.c:360-439 | the in-place parser accepts exactly those, and its pointers read as those fields |
| Text.SplitIff | main.c:370-435 | splitting at commas and joining undo each other, in both directions |
| Text.SplitCount | main.c:370-415 | there are k fields exactly when there are k commas |
| Fs.Fs.constructor | fs.c:77-95 | the initial table links every slot |
| Fs.Fs.Inoalloc | fs.c:103-118 | allocation takes the head of the free list, and stops on an empty list or a slot still in use |
| Fs.Fs.Inofree | fs.c:120-129 | the slot becomes the head of the free list |
| Fs.Fs.DirAdd | fs.c:131-161 | an item enters both indexes exactly if neither its inode nor its name is there |
| Fs.Fs.CreateItem | fs.c:163-220 | creation is allocation, entry in the directory and the slot's pointer to an item of the name, directory and kind asked for |
| Fs.Fs.Mount | fs.c:663-669 | a fresh table with inode 0 reserved and the root at inode 1 |
| Fs.Fs.YarfsCreate | yarfs.c:379-394 | the five regular files of the root get the next five inodes under their names, and the file system stays well formed |
| Fs.Fs.Unlink | fs.c:255-284 | an item leaves both indexes and the table; the asserts on counts and pointers hold |
| Fs.Fs.Removeitem | fs.c:222-293 | removal with upward purge, recursively, is the removal function |
| Fs.Fs.Cleanup | fs.c:765-788 | the scan counts as many removals as slots were allocated and ends with all free |
| Fs.Fs.FuseLookup | fs.c:356-383 | the answer is that of the name index |
| FsInv.MountInv | fs.c:663-669 | the fresh file system is well formed: free list, parts and tree |
| FsInv.CreateIff | fs.c:163-220 | creation succeeds if and only if there is room and nothing was removed, and keeps everything well formed if and only if the name is new |
| FsInv.CreateMakes | fs.c:195-216 | the new slot holds an item of the name, directory and kind asked for, empty, a directory exactly if asked; its directory lists it if the name is new; no other item changes |
| FsInv.DetachTree | fs.c:255-284 | taking an item out of its directory keeps the tree and both indexes of every directory |
| FsInv.RemoveInv | fs.c:222-293 | removal keeps free list, parts and tree; each freed inode joins the list once; it refuses exactly non-empty directories |
| FsInv.RemoveGone | fs.c:274-290 | what is gone stays gone, and the item itself goes |
| FsInv.RemoveExact | fs.c:222-293 | without purging the item alone goes; with it, also exactly the directories all of whose items went; what stays keeps its name, place and kind, and directories list those of their items that stay |
| FsInv.RemoveSweeps | fs.c:286-290 | removing the last item below a bound purges exactly what it empties and touches nothing above |
| FsInv.ScanRemovesAll | fs.c:771-779 | one ascending scan visits every item once and leaves nothing but what a later child would purge |
| FsInv.NoneLeft | fs.c:771-779 | and then nothing is left, since children have larger inodes |
| FsInv.ScanMeetsFreed | fs.c:774-777 | a slot that points to a freed item stops the scan |
| FsInv.CleanupIff | fs.c:765-788 | cleanup goes through if and only if no slot points to a freed item; it then frees every inode once and `removed == allocated` |
| FsInv.RunsFromMount | fs.c:77-293 | any run of creations and removals stays well formed; after creations alone cleanup succeeds and counts the items, the root and inode 0 |
| FsInv.IndexesAgree | fs.c:233-240 | a directory's two indexes hold the same items, namely those whose `dir` is it |
| FsInv.LookupUnique | fs.c:356-383 | lookup answers i if and only if i is the live item of that name in that directory |
| FsInv.ReachesRoot | fs.c:371-372 | every live item reaches the root |
| Yarfs.CmdNamesSize | yarfs.c:73-81 | the size loop gives the length of the content of /cmds |
| Yarfs.CmdsInfoSize | yarfs.c:126-143 | the size loop gives the length of the content of /lcmds |
| Yarfs.TtysInfoSize | yarfs.c:203-237 | the size loop gives the length of the content of /ttys |
| Yarfs.Stpcpy | yarfs.c:105-105 | the text and its terminator are written inside the buffer |
| Yarfs.CmdsRead | yarfs.c:95-108 | the buffer of that size is filled with the content, every terminator inside it and overwritten |
| Yarfs.LcmdsRead | yarfs.c:157-184 | the same for /lcmds |
| Yarfs.TtysRead | yarfs.c:251-315 | the same for /ttys, with the broadcast and monitor rows |
| Yarfs.BcstRead | yarfs.c:353-361 | the content of /bcst is the link and its terminator |
| Yarfs.ReplyBufLimited | fs.c:28-36 | the reply is the part of the content from the offset, at most the size asked for |
| Yarfs.ChunksReassemble | fs.c:28-36 | replies to any sequence of sizes, each from where the last ended, put together are the content |
| Yarfs.ReplyEmpty | fs.c:31-35 | an empty reply to a positive size means the end and only that |
| Yarfs.DecimalValue | yarfs.c:133-133 | pids and counts are written in base ten without leading zeros |
| Yarfs.CmdsIff | yarfs.c:95-108 | /cmds reads back as the list of names if and only if no name has a newline |
| Yarfs.TtysIff | yarfs.c:251-315 | /ttys reads back as the ttys of the commands, of the broadcast with the number of commands, and of the monitor, if and only if no name and no link has a comma and nothing has a newline |
| Yarfs.ListingIff | yarfs.c:157-191 | /lcmds reads back as the list of name, link, pid and command line if and only if names and links have no comma and no field a newline |

## Left out

- Toggling line mode, prefixing or global restart in mid-run, and `monDrain`: the buffer and restart bookkeeping they leave is not what the invariants describe; each run has fixed flags.
- Short writes, `EAGAIN` on writes, failing system calls and every path that ends in `NYI` or a failed assert on them: a write takes all its bytes.
- Roll-over of the 64-bit counters `bufn`, `wbytes` and `wdbytes`, and of the `int` counters `bufof` and `cmdsreadycnt`; the one truncation that matters, of `wdbytes`, is modelled.
- Ttys.Tty.WriteBuf: copies nothing into `discards` when the counter reads as negative. For the 1025 most negative values that is what the source does; for the others it would write before the array, and Ttys.WindowInside says when that is.
- Restart delays and exit statuses: a restart happens in the same step as the exit.
- Cmds.Cmd.Start: `fork`, `exec` and the child's side are one oracle pid; a start never fails.
- Cmds.Cmd.Stop: SIGTERM, the wait and SIGKILL are one step at one time; the pauses between stop-string bytes are not modelled.
- Gating.Gated: speaks of runs that match no stale byte; Gating.StepOwn says exactly which step that is and Stale.StaleHappens shows what happens otherwise. The writer of a byte is the process of its command that was last started before its origin, so descendants left behind count as the process that left them.
- Gating.UpperAssert: a failed assert is a flag that ends the run; the asserts are taken to be compiled in.
- Main.CltttyEvent: requires a waiting byte, as an input event promises. With nothing to read `ttyReadChar` returns -1, which the `if (n)` of `cmd.c:387` and `main.c:601` takes for a byte; Cmds.Cmd.ReadClient models that undefined byte for client ttys.
- Pacing.Paced: commands are only added, since `monDel` leaves `slowestcmd` pointing at a freed command; one handler call happens at one time, and the real clock and `timespec` rounding are not modelled.
- Courses.CoursePaced: speaks of sequences that remove no command, as Pacing.Paced does; times do not go back.
- Main.AddCmd: a command's own stop string is part of the request; the source has the field and gives it precedence, but nothing sets it.
- Main.BcstttyEvent: requires a waiting byte, as above, and a slowest command; with an empty table the source dereferences NULL.
- Loop.TheLoop: a broadcast byte is read only while the slowest command is in the table, since `monDel` can leave `slowestcmd` pointing at a freed one; line buffering is on from the start or not at all; batches of events and the lifetime of freed commands inside one batch are not modelled.
- Parsing the log field is modelled; using it is not, as `cmdInit` stops on it (`cmd.c:531`).
- Monitor prompts and line assembly, usage text, option parsing, logging and daemonising, path building and symbolic links.
- FUSE sessions, attributes, `readdir` encoding and extended attributes; libfuse is not part of this model.
- Inodes.File: a file object is its inode number and its content function is not modelled, so aliasing of file objects is not captured; `ino_table` is two arrays, one for each field.
- Fs.Fs.Cleanup: requires that the scan meets no freed item; FsInv.CleanupIff says when.
- Re-allocating a slot that held an item: the source stops there, and so does Fs.Fs.Inoalloc.
- The length limits of `pidstr` and of path buffers.
