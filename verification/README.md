# Model of the SWAP profiling daemon

The daemon of this repository receives commands from a host, keeps lists of instrumented
applications and libraries, passes them to a kernel driver, starts and stops profiling, serves the
instrumented processes that connect to it, and samples the system. The project models five parts of
it in Dafny and proves what each of them is for.

**Instrumentation lists** (`daemon/da_inst.c`, `daemon/da_protocol_inst.c`, the parse functions of
`daemon/da_protocol.c`). `lists.dfy` holds the doubly linked lists as heap objects: a list of records,
each with a list of probes, with ghost sequences for the order and ghost owners that keep lists
apart. `resolve.dfy` says on values what the resolution of an add or remove message and the move
between lists compute; `collide.dfy`, `removal.dfy` and `movelists.dfy` are the loops on the heap,
proved against those functions; `resolvefacts.dfy` proves what the functions achieve
for every path and probe, `resolveorder.dfy` in which order. `wire.dfy` says
how bytes are read, `msgbuf.dfy`, `parse.dfy` and `replaymsg.dfy` are the cursor and the parsers,
`pack.dfy` and `messages.dfy` the packers, and `roundtrip.dfy` connects both directions; `driver.dfy` reads
a message the way the driver has to, without the daemon's own checks. `inst.dfy` puts them together into
the handlers of the start, add and remove messages, and `instrun.dfy` runs sequences of messages through
them. `instspec.dfy` says on values what the handlers do, `instfacts.dfy` what they achieve and when,
`instcases.dfy` has messages on which they do not. `words.dfy` and `records.dfy` hold 32-bit arithmetic,
byte images and the cached fields.

**MD5** (`daemon/md5.c`). `md5.dfy` defines the digest as RFC 1321 does and proves the unrolled,
buffered implementation equal to it, for every way of feeding the message and for little-endian and
big-endian machines; `md5vector.dfy` follows the empty message through it.

**Process lists and samples** (`daemon/sys_stat.c`). `procspec.dfy` and `procs.dfy` are the singly
linked lists with their found marks and data, `sampling.dfy` the order in which a sample updates them,
`ticks.dfy` what becomes of the ticks and memory sizes of processes, `sysinfo.dfy` the layout of the message,
`syspack.dfy` the serializer, and `syssample.dfy` a sample from the first look at the processes to what a reader
finds in the packed message.

**Targets** (`daemon/target.c`, `daemon/thread.c`, parts of `daemon/threads.c` and `daemon/daemon.c`).
`targets.dfy` interleaves the receiver threads with the main loop, one message or one callback a step, and proves
what follows for runs of such steps.

**Session and replay** (`daemon/daemon.c`, `daemon/threads.c`, `daemon/da_protocol.c`,
`daemon/transfer_thread.c`, `daemon/input_events.c`). `session.dfy` is the life cycle of a session with
every external call allowed to fail, and what holds over runs of messages and events; `replay.dfy` is the timing loop of the replay thread.

Values that come from the system (file existence, `realpath`, what reading a process gives, message
contents, failures of calls) are parameters or arbitrary. Unsigned words are integers reduced
explicitly, so wrap-around is part of every statement; MD5 works on bit vectors.

What the code does not do, and when it does:

- An addition is parsed into the list of installed libs (`daemon/da_inst.c:720`), although the comment before
  `resolve_collisions_for_add_msg` speaks of a current and a new list. What is resolved, sent and moved is
  only what a removal that could not be parsed left behind. So the driver learns of the new probes exactly
  when what is left over happens to be what is new (`AddTellsWhen`); for a message that names a path once
  that means that nothing sent or left over is new (`AddTellsNothingNew`). The installed probes grow by the
  new ones exactly when all that is sent is new and nothing left over is (`AddInstallsWhen`), and with
  nothing left over both hold only for a message without probes (`AddServesWhen`). `LeftWhen` says when
  something is left over, `AddedTwice` is a run that fails. `AddThenMove` is what the two routines achieve on
  two lists.
- Because of that, installed paths stay distinct exactly as long as no addition repeats one
  (`PathsDistinctWhen`). As long as they are, a removal takes all it names (`RemoveTakes`); `AddedTwice` is a run
  in which it does not.
- A merge adds only the first moved probe's size to the cached size of the record it merges into
  (`daemon/da_inst.c:164-167`). Through a run of messages the sizes stay right exactly when no leftover record
  that is merged brings more than one probe (`MoveExactWhen`, `SingleMergesWhen`, `RunRightWhen`);
  `TwoProbeMerge` is a run of three messages after which one is wrong. The wrong size is too small, and the
  next message with that lib writes behind the buffer it is packed into: a list that moves have left fits
  exactly when all its sizes are right (`PlannedWhen`, `OverrunWhen`). As long as all merges are single, the
  driver reads what it should (`RunDecodes`, `InstRun.Run`).
- The payload of a driver message is computed in 32 bits. The buffer is as long as the message exactly when
  the payload stays below 4 GiB (`MsgFits`); `BigMessage` has two messages of less than 10 MiB that together
  exceed it. `generate_msg` stays in its buffers exactly when the libs go into what their cached sizes plan and
  the message size does not wrap, whatever the sizes say (`GenerateMsg`).
- The merge dereferences the first probe of both records. It finds one exactly under the condition of
  `MoveList`, which lists without empty records meet (`NonEmptyIsSafe`).
- The events of a target are faithful to what was written unless several PID events are read together,
  which takes a process that reports the pid -1 (`FaithfulWhen`, `Run` of the targets, `TwoPidsLookLikeError`).
- One pass over a process list can keep a dead process (`StaleMarkSurvivesOnePass`); two passes
  cannot, and a sample makes two over the instrumented processes (`TwoPassesExact`).
- A scan that meets a new process takes every process after it for new too, because the flag is not reset
  (`daemon/sys_stat.c:694`, `720`, `727-731`), so the ticks they used since they were last saved are in no load.
  That happens in samples that fail later on as well, although those compute no load at all. A load is that of
  the ticks used since they were saved if no new process came before and of none otherwise (`VisitTicks`,
  `NewBeforeWhen`); over many samples, failed ones among them, counted and lost ticks together are those used,
  so all are counted exactly when those lost add up to none (`TicksConserved`). The threads of a process lose
  none (`ThreadsLoseNone`).
- The recorded sleeps add up to the last event's offset exactly when the offsets never go back
  (`ReplayThread`).
- `pthread_create` reports failure by a positive number, and the daemon compares with zero from below,
  so a thread that could not be created goes unnoticed (`daemon/threads.c:323-327`, `232-235`,
  `daemon/transfer_thread.c:132-139`). The model follows the code; a failed call leaves an arbitrary
  handle. One left for the replay thread keeps every later replay from starting until the session is stopped
  (`ReplayBlocked`).
- A PID handler that fails returns before the STOP bit is looked at (`daemon/daemon.c:631-634`). A target whose
  STOP is read together with its PID event is released exactly if that handler succeeds (`EventAfterGivingUp`), and
  else never: nothing is left to be read, and it stays counted for ever (`StopLost`).
- A start message that the driver refuses leaves the transfer thread running without a session
  (`daemon/da_protocol.c:963-972`), and nothing but a later start or session ends it (`RefusedStarts`,
  `TransferWithoutSession`, `TransferWhen`). A stop whose message the driver refuses leaves the session running
  without samples and input events (`StopMeans`).
- A configuration stays stored when the driver cannot be told of it (`LastConf`). One that turns recording on
  registers the input handlers in a daemon that profiles nothing, too (`InputAfterStop`).
- The removal handler marks its message for the driver as an addition (`daemon/da_inst.c:796`); the
  model does the same.
- Removal through the wrong list head (`daemon/da_inst.c:397`) is modelled as it is and shown harmless.

## Model

| member | source | states |
|---|---|---|
| Words.UnLEOfLE | daemon/da_protocol.h:388-398 | reading n little-endian bytes gives back the number they were written from |
| Words.LEOfUnLE | daemon/da_protocol.c:276-301 | writing the number read from bytes gives back those bytes |
| Records.CharIs | daemon/da_protocol_inst.c:34-58 | the number a plain char stands for, on machines where it is signed and where it is not |
| Wire.Letters | daemon/da_protocol_check.h:45-46 | the letters accepted for arguments and results; the NUL that ends the list of result letters is found too |
| Wire.HeadsAccepted | daemon/da_protocol_inst.c:221-241 | which libs and apps are accepted, by kind, id and path |
| Resolve.FindIsByPath | daemon/da_inst.c:258-269 | with cached hashes that are hashes of the paths, the lookup that compares hashes first finds what a search by path alone finds |
| Lists.DataListAppend | daemon/da_inst.c:146-160 | the new record becomes the first, the rest keeps its order, links stay consistent in both directions |
| Lists.DataListUnlink | daemon/da_inst.c:224-245 | exactly the k-th record leaves its list; the list variable passed is written only if the record was first in it, so a wrong one stays as it was |
| Lists.FindData | daemon/da_inst.c:258-269 | the first record with equal hash and path, or none |
| Lists.FindProbe | daemon/da_inst.c:271-282 | the first probe with equal size, address and arguments, whatever its return letter |
| Lists.ProbeListRm | daemon/da_inst.c:204-222 | exactly the k-th probe leaves the record, the cached size and number go down by its share, another record is untouched |
| Collide.DropKnownProbes | daemon/da_inst.c:338-349 | the record keeps, in order, the probes the installed record lacks, with caches moved accordingly |
| Collide.ResolveAddList | daemon/da_inst.c:323-360 | on any two well-formed lists: both stay well formed, the current one unchanged, the new one is what ResolveAdd says |
| RemovalLists.MoveWhole | daemon/da_inst.c:392-397 | a request without probes takes the whole record over and disappears itself, although it is removed through the other list's head |
| RemovalLists.MergeRequest | daemon/da_inst.c:398-419 | each requested probe takes one matching probe out of the installed record, requests without a match are dropped, an emptied record goes |
| RemovalLists.ResolveRmList | daemon/da_inst.c:373-424 | on any two well-formed lists: both stay well formed and disjoint and hold what ResolveRm says |
| MoveLists.AppendProbesHash | daemon/da_inst.c:162-179 | the moved probes come before the old ones, linked both ways; the caches change as in Merge |
| MoveLists.MoveList | daemon/da_inst.c:284-302 | it ends well exactly when every merge finds a probe in both records; then the source list is empty and the destination is what Move says, both well formed |
| ResolveFacts.TakeSplits | daemon/da_inst.c:400-413 | of every probe key, min(have, want) are taken and the rest stay |
| ResolveFacts.RmConserves | daemon/da_inst.c:373-424 | for every path and probe key, what stays installed plus what the new list holds is what was installed |
| ResolveFacts.RmExactly | daemon/da_inst.c:373-424 | with distinct paths, exactly the requested number of each probe goes, all of them for a request without probes, and other paths lose nothing |
| ResolveFacts.KeepNewFilter | daemon/da_inst.c:338-349 | what is kept are the probes at an increasing list of positions, namely all positions whose probe is not installed |
| ResolveFacts.AddExactly | daemon/da_inst.c:323-360 | afterwards the new list holds, for every path and probe key, none if the installed lib of that path has it and all that were sent otherwise |
| ResolveFacts.AddLeavesNoEmpty | daemon/da_inst.c:351-355 | no record that matches an installed one is left without probes |
| ResolveFacts.MoveConserves | daemon/da_inst.c:284-302 | for every path and probe key the destination ends with what both lists held |
| ResolveFacts.MoveKeepsPathsDistinct | daemon/da_inst.c:284-302 | distinct paths in the destination stay distinct, whatever paths the source repeats |
| ResolveFacts.NonEmptyIsSafe | daemon/da_inst.c:162-179 | lists without empty records never make the merge dereference a missing probe |
| ResolveFacts.AddThenMove | daemon/da_inst.c:314-360 | after resolving and moving an addition, what was installed stays and exactly the sent probes that were not installed have come in |
| ResolveFacts.AddKeepsExact | daemon/da_inst.c:323-360 | cached sizes and numbers that were right stay right in every record of the new list |
| ResolveFacts.RmKeepsExact | daemon/da_inst.c:373-424 | cached sizes and numbers that were right stay right in both lists |
| ResolveFacts.MoveExactWhen | daemon/da_inst.c:162-179 | a move keeps all cached sizes right if and only if they were right and every merged record brings one probe |
| ResolveFacts.SingleMergesWhen | daemon/da_inst.c:284-302 | for messages that name a path once, that is so if and only if no installed path is sent two probes |
| ResolveOrder.AddOrder | daemon/da_inst.c:323-360 | what remains of an addition are sent records in order, each with some of its own probes in order |
| ResolveOrder.RmOrder | daemon/da_inst.c:373-424 | what stays installed keeps its order; of the requests met, the driver is told of their own probes, return letters included, in order; whole records come as they were installed, in the reverse order of their requests |
| ResolveOrder.MoveOrder | daemon/da_inst.c:284-302 | records that are not merged come in front, the last one first, and the others stay in their places |
| ResolveOrder.MoveProbes | daemon/da_inst.c:162-179 | with distinct paths in the source, the probes moved to a path come in front of those installed there, both in their order |
| MsgBufs.MsgBuf.ParseInt32 | daemon/da_protocol.c:276-288 | succeeds exactly when four bytes are left, gives their value, moves the cursor by four, else leaves it |
| MsgBufs.MsgBuf.ParseInt64 | daemon/da_protocol.c:290-301 | the same for eight bytes |
| MsgBufs.MsgBuf.ParseString | daemon/da_protocol.c:216-260 | succeeds exactly when a NUL lies within the message, gives the bytes before it, moves behind it |
| Parse.CalcHash | daemon/da_protocol_inst.c:34-58 | the loop computes the hash as a function of the path alone, for signed and unsigned chars |
| Parse.ProbeListAppend | daemon/da_inst.c:181-202 | the probe becomes the first, its size is added once, and the count grows by the length of the whole list |
| Parse.ParseUsInstFunc | daemon/da_protocol_inst.c:60-113 | accepts exactly the well-formed probes, with a size that fits what is stored |
| Parse.ParseFuncInstList | daemon/da_protocol_inst.c:115-141 | accepts exactly the well-formed lists; the probes end in reverse order, the size is their sum and the count is repaired |
| Parse.ParseInstData | daemon/da_protocol_inst.c:143-259 | a lib or app is accepted exactly when well formed, as a fresh record with probes, size, count and hash as read |
| Parse.ParseNext | daemon/da_protocol_inst.c:187-200 | one turn of that loop: a well-formed record comes in front, a malformed one leaves the list as it was |
| Parse.ParseInstList | daemon/da_protocol_inst.c:179-203 | records read are pushed in front of the list one by one; those before a malformed one stay |
| ReplayMsgs.ReplayReads | daemon/da_protocol.c:405-455 | a replay sequence is accepted exactly when it is disabled or as long as its number of events says, and each event is read from its 24 bytes |
| ReplayMsgs.SignedIs | daemon/da_protocol.c:340-358 | a signed field holds the one number of 32 signed bits with that image |
| ReplayMsgs.ParseReplaySeq | daemon/da_protocol.c:405-455 | the loop reads such a sequence and stores all of it; a disabled one keeps the times and events there were |
| RoundTrip.ParseOfPack | daemon/da_protocol_inst.c:143-203 | reparsing a packed list consumes exactly the packed bytes and gives every record with its probes reversed |
| RoundTrip.AcceptedIsPacked | daemon/da_protocol_inst.c:143-203 | every accepted message is the packed form of what was stored from it: nothing is skipped or read twice; all stored records have right caches, those before a malformed one too |
| RoundTrip.PackParseTwice | daemon/da_inst.c:444-486 | packing and parsing reverses a list at both levels, keeps its length, and doing it twice restores the list |
| Pack.PackData | daemon/da_inst.c:444-455 | writes the bytes of one record, exactly as many as its true size |
| Pack.PackDataList | daemon/da_inst.c:457-486 | whatever the caches say: the packed list goes into the buffer sized from them exactly when it is no longer than that |
| Pack.BufferFits | daemon/da_inst.c:457-486 | with right caches the computed buffer size is what is written if and only if that is below 4 GiB, else it is smaller |
| Pack.GenerateMsg | daemon/da_inst.c:500-547 | whatever the cached sizes of the libs: all writes stay in the buffers if and only if the packed libs go into what is planned for them and the message size does not wrap; then the message is 8 bytes and the payload: number of apps, then for each app in list order its record and the lib buffer, which begins with the packed libs |
| Pack.ExactMsg | daemon/da_inst.c:500-547 | with right caches that is so if and only if neither the libs nor the payload reach 4 GiB, and the lib buffer is just the packed libs |
| Driver.GeneratedMsgDecodes | daemon/da_inst.c:500-547 | for any libs and apps with right caches and a payload below 4 GiB, that message, under any id, has a right length field and decodes to those apps, each with all libs, and nothing else |
| Driver.MsgFits | daemon/da_inst.c:519-524 | the buffer allocated is as long as the message if and only if the payload is below 4 GiB, else it is shorter |
| Inst.MsgStart | daemon/da_inst.c:671-706 | the apps sent come in front of those there, the replay sequence behind them is stored, and the driver message holds all apps with all libs; no message unless apps and replay events were parsed; a buffer is overrun exactly when GenerateMsg says so |
| Inst.MsgSwapInstRemove | daemon/da_inst.c:765-811 | what stays installed and what is sent to the driver are the two results of resolving the request with what was left over; the request list ends empty, the apps are untouched; a malformed message changes no installed lib and leaves the records before the fault in the request list |
| Inst.MsgSwapInstAdd | daemon/da_inst.c:708-763 | as coded: the sent records come in front of the installed ones, and only what was left in the new list is resolved, sent and moved; it breaks exactly when a buffer is overrun or a merge misses a probe |
| InstFacts.LeftWhen | daemon/da_inst.c:765-801 | over any run, the list of new libs is nonempty between messages exactly when a removal failed behind a record and no accepted addition or removal came after it |
| InstFacts.AppsSinceStop | daemon/da_protocol.c:498-503 | over any run, the apps are those of the start messages since the last stop, newest first; those of the beginning are kept only if there was no stop |
| InstFacts.LibsWithoutStops | daemon/da_protocol.c:699-702 | over any run, installed and leftover libs are those of its additions and removals alone: starts and stops do not touch them |
| InstFacts.StartAfterStop | daemon/da_protocol.c:498-503 | the first start after a stop sends the driver, as the driver reads it, exactly the apps of its own message, each with the libs from before the stop |
| InstFacts.QuietAfterStop | daemon/da_inst.c:734-738 | after a stop a change of libs is told to the driver exactly if it is accepted and apps have been sent since |
| InstFacts.StepSound | daemon/da_inst.c:671-811 | every message keeps libs and apps apart and every cached hash that of its path |
| InstFacts.DriverMsgDecodes | daemon/da_inst.c:500-547 | whatever message it answers, what the driver is sent decodes to the apps in order, each with the libs of that message, if the caches are right |
| InstFacts.RunDecodes | daemon/da_inst.c:671-811 | the same for all that is sent in a run of safe messages with single merges, from any sound state whose caches are right |
| InstFacts.PlannedWhen | daemon/da_inst.c:162-179 | records that moves have left never plan a larger buffer than they need, and plan a large enough one if and only if all caches are right |
| InstFacts.OverrunWhen | daemon/da_inst.c:457-486 | so a message with such libs stays in its buffers if and only if all their caches are right and nothing wraps |
| InstFacts.StepRightWhen | daemon/da_inst.c:162-179 | one message keeps all caches right if and only if the leftover records it merges bring one probe each |
| InstFacts.RunRightWhen | daemon/da_inst.c:671-811 | all caches stay right throughout a run if and only if no addition in it merges a leftover record with more than one probe |
| InstFacts.AddTellsWhen | daemon/da_inst.c:708-763 | in every state, the driver is sent the new probes of an addition if and only if, for an installed probe, nothing left over is new, and for another, it is sent as often as it is left over and new |
| InstFacts.AddTellsNothingNew | daemon/da_inst.c:708-763 | for a message that names a path once, or with nothing left over, that is if and only if nothing sent is new and nothing left over is |
| InstFacts.AddInstallsWhen | daemon/da_inst.c:708-763 | the installed probes grow by exactly the new ones if and only if all that is sent is new and nothing left over is |
| InstFacts.AddServesWhen | daemon/da_inst.c:708-763 | with nothing left over an addition does both if and only if it names no probe |
| InstFacts.PathsDistinctWhen | daemon/da_inst.c:708-763 | distinct installed paths stay distinct if and only if the message is no addition that repeats a path or names an installed one |
| InstFacts.RemoveTakes | daemon/da_inst.c:765-811 | with distinct paths a removal takes exactly what it names and tells the driver exactly what it took |
| InstCases.AddedTwice | daemon/da_inst.c:719-731 | a lib added twice: the driver is not told, its probe counts twice, and removing the whole lib leaves it installed |
| InstCases.TwoProbeMerge | daemon/da_inst.c:162-179 | an addition, a removal that fails behind two probes and another addition after which a cached size is wrong, so that the next start overruns a buffer |
| InstCases.BigMessage | daemon/da_inst.c:516-524 | an addition and a start, both below 10 MiB and accepted, whose driver message does not fit 32 bits |
| InstRun.UserSpace.HandleStop | daemon/da_protocol.c:498-503 | the apps are gone; installed and leftover libs are as before |
| InstRun.UserSpace.Handle | daemon/da_inst.c:671-811 | for every message and stop in every state, right caches or not: the handler breaks exactly if the message is unsafe, else lists, replay sequence and driver message are those specified; of the lists a stop empties the apps and no other |
| InstRun.Run | daemon/da_protocol.c:1240-1264 | over every run of messages and stops: it goes on up to the first unsafe message, lists and driver messages are those specified, and with single merges from sound lists with right caches the driver reads in each message the apps in order with its libs |
| Messages.GenerateMapsMsg | daemon/da_inst.c:569-632 | both passes agree: the buffer sized by the first is filled exactly by the second, unresolved paths included, unless its length wraps |
| Messages.MapsMsgDecodes | daemon/da_inst.c:569-632 | the maps message has its type, its whole length with the header, the number of strings, and just those strings |
| Messages.AllPathsNamed | daemon/da_inst.c:569-632 | these strings are the path of every lib as it is, in list order, then what the path of every app that resolves gives, in list order, and nothing else |
| Md5.RotateIsRotated | daemon/md5.c:197 | the shift-and-or macro is rotation, for every amount the rounds use |
| Md5.FSelects | daemon/md5.c:202 | F selects bit by bit between its second and third argument |
| Md5.GSelects | daemon/md5.c:228 | G selects bit by bit, by its third argument |
| Md5.HIsParity | daemon/md5.c:254 | H does not depend on the order of its arguments and cancels equal ones |
| Md5.IComplements | daemon/md5.c:280 | I gives its second argument, complemented where the first has a bit or the third has none |
| Md5.AddZero | daemon/md5.c:204 | adding nothing changes nothing |
| Md5.AddOne | daemon/md5.c:204 | adding one more gives one more, in 32 bits |
| Md5.Rows1 | daemon/md5.c:64-80 | the constants of round 1, some written as complements, with word indexes and rotations, are those of RFC 1321 section 3.4 |
| Md5.Rows2 | daemon/md5.c:81-96 | the same for round 2 |
| Md5.Rows3 | daemon/md5.c:97-112 | the same for round 3 |
| Md5.Rows4 | daemon/md5.c:113-128 | the same for round 4 |
| Md5.Quarter | daemon/md5.c:199-301 | four macro calls with permuted registers are four steps of the table-driven loop |
| Md5.Round1 | daemon/md5.c:199-223 | the sixteen unrolled operations are steps 0 to 15 |
| Md5.Round2 | daemon/md5.c:225-249 | the sixteen unrolled operations are steps 16 to 31 |
| Md5.Round3 | daemon/md5.c:251-275 | the sixteen unrolled operations are steps 32 to 47 |
| Md5.Round4 | daemon/md5.c:277-301 | the sixteen unrolled operations are steps 48 to 63 |
| Md5.SumIsWord | daemon/md5.c:180-193 | the shifted sum of the big-endian path is the little-endian word |
| Md5.Load | daemon/md5.c:144-195 | the aligned, the copying and the big-endian input path give the same sixteen words |
| Md5.Process | daemon/md5.c:131-310 | for every block and state the result is the compression function of RFC 1321 |
| Md5.CountCarries | daemon/md5.c:334-338 | the two-word counter with its carry is the number of bits modulo 2^64 |
| Md5.Md5State.constructor | daemon/md5.c:312-320 | the initial state stands for the empty message |
| Md5.Md5State.Append | daemon/md5.c:322-358 | appends the bytes to the message the state stands for: counter, fold over whole blocks, rest in the buffer; nothing for a count of zero or less |
| Md5.Md5State.Finish | daemon/md5.c:360-381 | the digest is that of RFC 1321 sections 3.1 to 3.5 of all bytes appended, however they were cut up |
| Md5Vector.EmptyDigest | daemon/md5.c:360-381 | the digest of the empty message is the one RFC 1321 gives in appendix A.5 |
| Md5.FileDigest | daemon/da_protocol.c:790-807 | the digest of the whole file whatever amounts the reads return, of the part read if one fails, of nothing if it does not open |
| Replay.ReplayThread | daemon/threads.c:377-417 | every event is injected once, in order, after a sleep by which its offset lies behind the one before, and never before its recorded offset; the sleeps sum to the last offset if and only if the offsets never go back |
| Replay.TimeDiffReaches | daemon/threads.c:361-365 | the offset of an event leads from the recorded start to its time in 32 bits, and is their distance in microseconds if and only if that is not negative and fits |
| ProcSpec.ScannedHas | daemon/sys_stat.c:698-743 | after the loop a named pid is listed and marked iff it was accessible the last time it was named; others are as before |
| ProcSpec.PassHas | daemon/sys_stat.c:691-750 | a pass leaves exactly the accessible pids and the unnamed ones that carried a mark, without duplicates and without marks |
| ProcSpec.StaleMarkSurvivesOnePass | daemon/sys_stat.c:399-412 | a mark left by a lookup keeps a dead process through one pass |
| ProcSpec.TwoPassesExact | daemon/sys_stat.c:1916-1957 | two passes over the same pids leave exactly those accessible in the second, whatever the list held before |
| Procs.ProcList.Find | daemon/sys_stat.c:399-412 | finds and marks the first node with the pid, changes nothing else |
| Procs.ProcList.Add | daemon/sys_stat.c:414-431 | the new node is first and marked |
| Procs.ProcList.Del | daemon/sys_stat.c:433-456 | the first node with the pid goes, if there is one |
| Procs.ProcList.DelNotFound | daemon/sys_stat.c:458-486 | exactly the nodes without a mark go, the others keep their order |
| Procs.ProcList.ResetFound | daemon/sys_stat.c:488-496 | all marks are cleared |
| Sampling.UpdateProcessData | daemon/sys_stat.c:691-750 | the list becomes what a pass makes of it, with the saved ticks of new nodes and of all nodes behind a new one; the result is that of the last pid; thread lists of surviving processes are untouched |
| Sampling.UpdateThreadData | daemon/sys_stat.c:1139-1215 | it succeeds exactly when the task directory opens, the process is listed and the last task is read; then its thread list is exactly its accessible tasks, with their ticks, saved if they are new; only marks of processes change, and no thread list of another |
| Sampling.FillLoads | daemon/sys_stat.c:1365-1404 | every load is that of the ticks since the saved ones, which become those of now; pids and marks stay; the count is the number of nodes |
| Sampling.FillThreads | daemon/sys_stat.c:1406-1431 | the same for the threads of all processes; the count is the number of all thread nodes |
| Sampling.SysStat.Sample | daemon/sys_stat.c:1881-2066 | it succeeds exactly when no step fails and every scanned pid is accessible in the second pass; whether or not, processes, others and threads hold what the passes it came to make of them, and the loads if it succeeds; then the instrumented list holds exactly the pids accessible in the second pass, all scanned ones are among them, each with exactly its threads, and the counts are the list lengths |
| Sampling.Run | daemon/threads.c:240-304 | over every run of samples: what each leaves of both lists, failed ones too, is what its passes and, if it comes to its end, the fill step make of what was there; then the instrumented list holds exactly the accessible pids, each once |
| Ticks.NewBeforeWhen | daemon/sys_stat.c:717-731 | the flag is set when a process comes to its turn exactly if one before it was accessible and not listed |
| Ticks.VisitTicks | daemon/sys_stat.c:691-750 | a process or thread read in a sample gets the load of the ticks it used since they were saved, of none if the flag was set; they are saved then, or when the flag was set in a sample that fails |
| Ticks.VisitMemory | daemon/sys_stat.c:560-561 | after a sample that reads a process its virtual and resident size are those of its stat file, its shared size and pss those of its smaps file if the sample came to read it, else those from before |
| Ticks.TicksConserved | daemon/sys_stat.c:1365-1404 | over any number of samples, failed ones among them, counted and lost ticks of a process add up to those used up to the last saving in 64 bits, and the counted alone do if and only if the lost add up to none |
| Ticks.SamplesOfRun | daemon/threads.c:240-304 | the runs of samples proved above are runs of that kind, for instrumented and for other processes |
| Ticks.ThreadsVisited | daemon/sys_stat.c:1139-1215 | what a sample does to the threads of a process is of that kind too |
| Ticks.ThreadsLoseNone | daemon/sys_stat.c:1174-1206 | threads never lose a tick |
| SysInfo.PayloadDecodes | daemon/sys_stat.c:2241-2371 | the payload decodes to what was packed, whatever bytes follow it |
| SysInfo.PayloadLength | daemon/sys_stat.c:2241-2371 | how many bytes are packed, in terms of CPUs, processes and threads |
| SysInfo.IsSetWhen | daemon/da_protocol.h:151-152 | the arithmetic test for a feature is a test of its bit |
| SysInfo.Sizes | daemon/da_protocol.h:307-377 | the structure sizes are those of their members laid out in order, aligned to 4 or 8 bytes, for pointers of 4 and of 8 bytes |
| SysPack.MsgDataPayloadLength | daemon/sys_stat.c:2217-2239 | the length planned, in 32 bits |
| SysPack.PlannedIsEnough | daemon/sys_stat.c:2217-2239 | for any lists, counts of CPUs and feature mask, on both structure layouts, more is planned than packed |
| SysPack.PackCountedThreads | daemon/sys_stat.c:2304-2319 | the number patched in afterwards is the number of thread records that follow it |
| SysPack.PackInsts | daemon/sys_stat.c:2288-2326 | a loop bounded by the count stays on the list and packs every process with its threads in list order |
| SysPack.PackOthers | daemon/sys_stat.c:2328-2339 | the same for other processes |
| SysPack.FieldsAt | daemon/sys_stat.c:2341-2347 | which value stands at which of the first words behind the processes |
| SysPack.FieldsBetween | daemon/sys_stat.c:2348-2355 | the same for the words after those |
| SysPack.FieldsBehind | daemon/sys_stat.c:2356-2368 | the same for the last ones |
| SysPack.PackSystemInfo | daemon/sys_stat.c:2241-2371 | nothing is written behind the buffer, and the message begins with the payload of the lists, counts and fields |
| SysPack.PackedDecodes | daemon/sys_stat.c:2241-2371 | a reader gets the CPU values, processes with threads, and fields back |
| SysPack.SampleCounts | daemon/sys_stat.c:1963-1981 | the counts of a sample are those the serializer relies on if and only if the lists it packs are below 2^32 long |
| SysSample.WantedWhen | daemon/sys_stat.c:1895-1899 | process lists are sampled exactly if one of five neighbouring feature bits is set |
| SysSample.CountsWithin | daemon/sys_stat.c:1902-1912 | the lists a sample leaves are no longer than the pids it was shown, and a thread list no longer than its task directory |
| SysSample.SampleAndPack | daemon/threads.c:263-276 | for every feature mask a message is made exactly when the sample succeeds, and it begins with the payload of the lists as the sample left them, which are what its passes make of those before, packed with the sample's own counts |
| SysSample.ReaderSees | daemon/sys_stat.c:2288-2326 | a reader of that message finds each accessible instrumented process exactly once and no other |
| SysSample.ReaderSeesData | daemon/sys_stat.c:2291-2299 | the record it finds for a process that the sample names once and can read has the sizes of its stat and smaps files, its allocations, and the load of the ticks that count |
| SysSample.ReaderSeesThreads | daemon/sys_stat.c:2304-2319 | with thread loads asked for, it finds with each process exactly its accessible threads, each once |
| SysSample.ReaderSeesOthers | daemon/sys_stat.c:2328-2339 | with process loads asked for, it finds exactly the accessible other processes, each once |
| SysSample.ReaderSeesSystem | daemon/sys_stat.c:2256-2284 | it finds the memory in use if asked for, frequencies and loads of the CPUs if asked for and read, zeros otherwise, and the remaining values |
| Targets.FaithfulWhen | daemon/threads.c:95-161 | the low three bits of a read are the set of events written if and only if no PID event was written or their number is 1 modulo 4 |
| Targets.Target.Receive | daemon/threads.c:84-228 | a receiver that is told to give up writes STOP and ends, the first pid is kept and signalled, and nothing else changes anything |
| Targets.Target.ReadEvent | daemon/daemon.c:642-659 | a read takes the whole counter and is faithful to the events since the last one, unless the process reported pid -1 |
| Targets.TwoPidsLookLikeError | daemon/threads.c:95-161 | a receiver that gets the pid -1 twice before a read makes that read show ERROR and not PID |
| Targets.Target.Start | daemon/thread.c:63-76 | the run flag is set iff a thread was created; no failure is reported as negative |
| Targets.Target.Wait | daemon/thread.c:78-90 | a receiver that was started is joined, once, after it has ended, and if it had to be waited for STOP is written; otherwise nothing happens |
| Targets.TargetTable.Connect | daemon/daemon.c:666-744 | the first free slot is taken: for a live target as new, with a fresh eventfd and no type, given back when a later connection fails, left in use when a first one fails; no other slot changes |
| Targets.TargetTable.WaitAll | daemon/target.c:233-250 | every slot has been waited for; afterwards no receiver runs, and slots and count are unchanged |
| Targets.TargetTable.StopHandler | daemon/daemon.c:596-622 | the slot ends free and nothing of its connection goes on, the count goes down by one, the handler has run once on this connection, and no other slot changes; -11 exactly when the last target of a known type is gone |
| Targets.PidHandler | daemon/daemon.c:558-593 | it succeeds exactly when some app in the list is what the process runs and no replay has been started |
| Targets.TargetTable.EventCb | daemon/daemon.c:624-659 | the stop handler runs iff STOP or ERROR is set and no PID handler failed before; else the counter is emptied, the type is set exactly when PID is, the initial-log flag if the PID handler succeeded too; no other slot changes |
| Targets.TargetTable.Accounting | daemon/target.c:141-199 | used slots are the counted targets and the kept ones, the count is between 0 and 8, free slots have no receiver, each receiver is joined and each target stopped at most once |
| Targets.Run | daemon/daemon.c:642-744 | over every interleaving, every step does to its slot what was said above and nothing to another, accounting holds, connections and stop handlers are counted as they happen, and every read shows the events written since the one before unless the process reported the pid -1 |
| Targets.EndedWhen | daemon/threads.c:95-163 | over every run, the receiver of a connected target has ended if and only if since it connected the target disconnected, ended, reported a first pid that cannot be parsed, or was waited for |
| Targets.GivenUp | daemon/threads.c:95-163 | from then on until the main loop looks, the receiver has ended and the STOP bit is set |
| Targets.EventAfterGivingUp | daemon/daemon.c:624-659 | when it looks, the stop handler runs, is counted and releases the target if and only if no PID handler fails on the same read; if one does, nothing is left to be read |
| Targets.StopLost | daemon/daemon.c:624-640 | such a target is never released and stays counted, whatever happens later |
| Targets.RanWhenEnded | daemon/daemon.c:637-638 | unless the process reported the pid -1 the stop handler runs only for a target whose receiver has written STOP and ended |
| Session.InputEvents.Add | daemon/input_events.c:240-274 | the main loop is asked to watch every device with a file and no other, and those it takes are registered; a second time changes nothing |
| Session.InputEvents.Del | daemon/input_events.c:276-292 | no handler is left registered |
| Session.CheckedPeriod | daemon/threads.c:310-312 | a configured period within its bounds is the period the timer is set to |
| Session.CheckedConf | daemon/da_protocol_check.c:102-148 | which configurations pass the checks, bit by bit and bound by bound |
| Session.Manager.SamplingStart | daemon/threads.c:307-335 | it starts exactly when no thread is owned and the session is running, with the timer at the configured period; a thread is there exactly if it could be made |
| Session.Manager.SamplingStop | daemon/threads.c:337-359 | no thread is owned; the timer is off if one was |
| Session.Manager.StartTransfer | daemon/transfer_thread.c:112-142 | without a data socket nothing happens; else an owned thread is stopped first, on failure none is owned, on success buffer reads block and a thread is there exactly if it could be made |
| Session.Manager.StopProfiling | daemon/daemon.c:449-454 | no sampling thread and no input handler is left, although handlers are removed only if recording is configured |
| Session.Manager.StartProfiling | daemon/daemon.c:394-447 | it succeeds exactly if there are apps and they are launched; on failure with apps nothing is left running, on success sampling is timed as configured and input is recorded if configured |
| Session.Manager.Reconfigure | daemon/daemon.c:456-487 | the new configuration is stored; in a running session sampling starts again at the new period; input handlers come and go with the recording bit, and nothing else changes |
| Session.Manager.ProcessMsgConfig | daemon/da_protocol.c:1200-1230 | a malformed configuration changes nothing; any other is stored, whether or not the driver can be told |
| Session.Manager.StopAllNoLock | daemon/da_protocol.c:673-709 | on success from a running session no thread and no handler is left, the app list is empty and the session off; when the driver cannot be told it still counts as running, with apps and transfer; from a stopped session nothing changes |
| Session.Manager.StopTwice | daemon/da_protocol.c:673-709 | after a successful stop a second one changes nothing |
| Session.Manager.ProcessMsgStart | daemon/da_protocol.c:932-994 | the answer and the whole state after it, for every way in which parsing, killing, transfer, driver, threads and launch can succeed or fail |
| Session.Run | daemon/da_protocol.c:1173-1240 | over any sequence of messages and events each answer and each state is what was said above of its message, and the invariants hold throughout |
| Session.StartSucceeds | daemon/da_protocol.c:932-994 | a start succeeds if and only if the session is off, its configuration checked, the message parsed with some app, and killing, transfer, driver and launch work; then the session runs with the sent apps in front, samples, transfer and recording on; a start that fails leaves it running only if the launch failed and the driver refused the stop |
| Session.StopMeans | daemon/da_protocol.c:673-709 | a stop of a running session leaves nothing of it, or, if the driver refuses, a session with its apps and transfer but without samples, replay and input events |
| Session.RunningIsChecked | daemon/da_protocol.c:941-976 | in every state of a run: a running session has only known features, its sampling thread is woken at the configured period, every 0.1 to 1 seconds, and without a running session there is none |
| Session.LastConf | daemon/daemon.c:475-487 | the stored configuration is the last that was not answered as malformed |
| Session.RunningWhen | daemon/da_protocol.c:679-702 | the session runs if and only if it was begun and not ended since by a stop the driver was told of |
| Session.SamplingWhen | daemon/threads.c:307-359 | when there is a sampling thread: a start or a configuration in a running session made it, and none of these and no stop came since |
| Session.TransferWhen | daemon/transfer_thread.c:112-170 | when there is a transfer thread: a start message made it, and since then no start message came as far as that and no stop was told to the driver |
| Session.ReplayWhen | daemon/threads.c:419-467 | when there is a replay thread: a PID event made it while none was owned, and it has not ended and no stop came since |
| Session.ReplayBlocked | daemon/threads.c:419-440 | a replay thread that could not be made may leave a handle, and then no replay starts before a running session is stopped |
| Session.AppsSince | daemon/da_protocol.c:498-503 | the apps are those of the start messages looked at since the last stop the driver was told of, failed ones among them |
| Session.StaysOff | daemon/da_protocol.c:673-709 | after such a stop, and until a start message, the session is off, without apps, sampling, replay and transfer thread |
| Session.RefusedStarts | daemon/da_protocol.c:963-972 | start messages that do not get to the launch leave it off, but those the driver refuses may leave a transfer thread, if and only if it could be made and no later start stopped it |
| Session.TransferWithoutSession | daemon/da_protocol.c:963-972 | a run in which one does |
| Session.InputAfterStop | daemon/daemon.c:456-473 | after a stop input is listened to if and only if a configuration that came later turned recording on and the last one has it on |

## Left out

- Memory: `free`, leaks, failing `malloc` and the fixed-size path buffers; records taken out of a list simply stay unreferenced.
- MsgBuf: strlen is taken before bounds are checked, so nine readable bytes ending in a NUL are required behind the message; lengths beyond 2^31 are not truncated.
- ParseReplaySeq: memory for the events is always there.
- ParseString: a NUL behind the message is required, for the reason given at MsgBuf.
- ParseUsInstFunc: the same.
- ResolveAddList: the two lists are separate, as its comment has it; MsgSwapInstAdd calls it the way the code does.
- GenerateMsg: the caches of the apps have to be right, which StepApps shows they always are; the eight header bytes are added in a size wider than 32 bits; a planned size that wraps to nothing counts as a buffer that is too small.
- MsgStart: nothing is said about what follows a buffer that is overrun.
- MsgSwapInstAdd: the same, and for a null pointer.
- MsgSwapInstRemove: the same as for MsgStart.
- Append: the byte count and 63 more have to fit an int, as the addition in the code does.
- Sample: CPU data and frequencies are opaque; the float arithmetic that makes a load of ticks is a parameter.
- VisitTicks: a process named several times in one scan is not covered.
- PackSystemInfo: the length has to fit an int; the message header and the clock in it are left out, and lengths above 2^31 would wrap.
- SampleAndPack: what the sample is shown has to be so little that the planned length fits an int.
- EventCb: a replay thread that cannot be created goes unnoticed, as in the code.
- Wait: which messages a receiver gets while it is waited for is left open; a join ends with the receiver; that it does end, and deadlocks between locks, are outside the model.
- ReaderSeesData: a process that can be read in the second pass but not in the first is not covered.
- HandleStop: a replay sequence that is running is reset by the replay thread, or by the stop that cancels it; that is left out.
- ProcessMsgConfig: the driver is sent the configuration with the energy feature in its old place; what is sent is left out.
- Session.Run: the interplay with targets (terminating and waiting for them inside a stop) changes nothing in the session state and is modelled in targets.dfy; the launch and connection timers are left out.
- PutBytes: words are packed low byte first, as on the little-endian machines the daemon runs on; only MD5 is also modelled for the other order.
- ExitReplayThread: the race between the replay thread's own end and a join that cancels it.
- Sockets, ioctl, splice, fork and exec, signals, /proc and /sys text, device state, smack labels, ELF inspection, logging: replaced by arbitrary results or not modelled.
- Binary info, screenshot and process info messages, acknowledgements and target info: independent of the state modelled here.
