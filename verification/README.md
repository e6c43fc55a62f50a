# Atomic disk drive: a verified model

The atomic disk drive offers a block device whose sectors are replicated on N processes. Each sector is an
(N,N)-AtomicRegister: a client read or write collects the versions of a majority, chooses one, and has a majority
store what it carries. Versions are ordered by tags (timestamp, write rank). A process keeps its sectors in a
directory of files named after their tags, talks to the others in a framed and authenticated format, admits one
command per sector at a time, and answers the Linux driver, which relays kernel requests through a ring of 256
slots.

The project models these parts and proves what each of them is for.

| files | part |
|---|---|
| `Domain`, `Histories` | tags, messages, majorities; the sequential register and linearizability |
| `Register` | the message handlers, as functions and as the class that runs them |
| `Cluster` | N processes, a network that loses, repeats and reorders, crashes and recoveries |
| `QuorumCore`, `CoreInvariant`, `Timeline` | the protocol without volatile memory, its invariant, and linearizability from it |
| `Refinement`, `Safety` | the cluster refines the core; the safety theorems over runs |
| `Composition` | the cluster with directories of files for its stores: file operations interleave, and crashes cut them off anywhere |
| `AnySelection`, `Progress`, `Halting` | what holds whichever reported entry is selected, and when a message takes a worker down |
| `CodeSelection`, `Scenario`, `Counterexample`, `CodeTags` | the selection as coded: exactly when it keeps each property, and runs in which it does not |
| `FileNames`, `SectorStore`, `SectorWrites` | file names, recovery, writes |
| `Wire`, `Codec`, `CodecIO`, `Responses` | the formats, their readers and writers, the driver's decoder |
| `Permits` | the permit of a sector, the worker's queue and the register |
| `Ring`, `Relay` | the driver's window of requests, and the ring of slots that implements it |

A run is a sequence of enabled steps from the initial state. `Policy` says how the highest entry is selected:
`Lex` as documented, `RankOnly` as coded, `AnyEntry` arbitrarily. A result for `AnyEntry`, or for every policy, holds
for the code as it stands.

## Where the code and its documentation differ

- README.md:104 asks for the highest entry in the lexicographic order of (timestamp, rank). The code compares ranks
  only (solution/src/atomic_register.rs:199-200). `CodeSelectsHighestIff` says exactly when one selection is the
  documented one. `CodeLinearizableIff` says that all runs of the code are linearizable if and only if there is a
  single process. So do `CodeTagsIdentifyDataIff`, `CodeTagsFollowRealTimeIff`, `CodeDurableMajorityIff`,
  `CodeStoredTagsRiseIff` and `CodeStoreCallsIncreaseIff` for what the proof of linearizability rests on. `StaleRead`,
  `SharedTag`, `SameTagStored` and `Falls` give the failing runs.
- After recovery no operation identifier is set, and a VALUE or ACK then ends the worker
  (solution/src/atomic_register.rs:192 and 275). The handlers have the outcome `Halt` for it, and the process counts
  as crashed. `HaltsIff` says exactly when that happens in a run.
- A write with the stored tag deletes the file it has just renamed (solution/src/sectors_manager.rs:175-178), and one
  with a smaller tag is undone by a crash before the removal. `CutWriteIff` gives the condition. Under
  the documented selection the register meets it (`StoreCallsIncrease`). As coded it does not: `SameTagStored` is a run in
  which a process stores again under its stored tag, and `CallRisesIff` says which calls meet the condition.
- A file with the tag (0, 0) is taken for an absent sector during recovery (solution/src/sectors_manager.rs:76-78).
  `CrashRecovery` says exactly when more than one file of a sector is left.
- An unknown message type ends the connection handler (solution/src/transfer_operations.rs:205), where README.md:319
  asks for eight bytes to be discarded. The reader has the outcome `BadType` for it.
- The driver's test for a full ring subtracts promoted bytes (driver/atomic_disc_driver.c:269). `FullTestIff` shows
  that it notices a full ring exactly when the completed position is 0, `FullUnnoticed` reaches one that it misses,
  and `Submit` says that two submissions later the oldest request has been overwritten.
- A response with an unknown identifier ends a request that was not looked up (driver/atomic_disc_driver.c:174-178).
  `CompleteOne` has the outcome `Dangling` for it.

## Model

| member | source | states |
|---|---|---|
| `Domain.QuorumIntersection` | solution/src/atomic_register.rs:195 | any two sets that pass the majority test of the same N processes share a member |
| `Histories.LastWriteOf` | README.md:109 | a sequential register that holds anything but zeroes holds the data of its last write |
| `Histories.ContentsOfLastWrite` | README.md:109 | the contents after a sequence of operations are those of its last write |
| `Register.Highest` | solution/src/atomic_register.rs:198-200 | for every order of iteration, an entry of the list whose write rank is largest |
| `Register.AtomicRegister.constructor` | solution/src/lib.rs:111-137 | after start-up or recovery only the stored version is known; no operation, phase or callback is |
| `Register.AtomicRegister.ClientCommand` | solution/src/atomic_register.rs:105-153 | the operation, callback and request identifiers are set, both lists cleared, the kind and data noted, READ_PROC broadcast, and nothing else changes; this is the handler function that the run theorems are about |
| `Register.AtomicRegister.SystemCommand` | solution/src/atomic_register.rs:155-307 | READ_PROC is answered with the current version; WRITE_PROC is adopted and stored exactly if its tag is larger, and acknowledged either way; VALUE halts exactly without an operation identifier, and so does ACK; together the handler function of the run theorems, with an entry of largest rank selected when a read phase ends |
| `Register.AtomicRegister.ValueCommand` | solution/src/atomic_register.rs:187-241 | halts exactly without an operation identifier; stale answers change nothing; others are collected; a majority ends the read phase, and a write stores one timestamp above the selected one under its own rank while a read passes the selection on |
| `Register.AtomicRegister.StartWritePhase` | solution/src/atomic_register.rs:195-239 | the own entry is a candidate; a write stores before it broadcasts, a read broadcasts what it selected |
| `Register.AtomicRegister.AckCommand` | solution/src/atomic_register.rs:271-305 | halts exactly without an operation identifier (or, never in a run, without a request identifier); stale acknowledgements change nothing; others are collected; a majority clears the phase and runs the callback once with the read data or the write's success |
| `CoreInvariant.InvStep` | README.md:24-103 | every action of the protocol keeps the invariant: genuine values, distinct write tags, durable majorities, fresh quorums, tags in real-time order |
| `CoreInvariant.PickReaches` | README.md:63-67 | under the documented selection, what an operation selects that began after another returned reaches the other's tag, by quorum intersection |
| `CoreInvariant.NewTagDistinct` | README.md:67-75 | under the documented selection, a write's new tag differs from the tag of every write before it, across crashes |
| `CoreInvariant.AckersHold` | README.md:86-94 | under the documented selection, the processes whose ACKs complete an operation make a majority that stores its tag or a larger one |
| `CoreInvariant.FreshGrows` | solution/src/atomic_register.rs:162-184 | processes that hold a tag and have not reported less to an operation stay so in every extension |
| `Refinement.Simulates` | solution/src/atomic_register.rs:105-307 | every step of the cluster, with its volatile memory, crashes and repeated messages, is an action of the core |
| `Refinement.SysInvStep` | solution/src/atomic_register.rs:105-307 | every step keeps memory, disc, network and history consistent, whatever entry is selected |
| `Timeline.ReadsLatest` | README.md:109 | in the order of tags, a read carries the data of the latest write before it, or zeroes |
| `Timeline.RespectsRealTime` | README.md:109 | in the order of tags no operation precedes one that had returned when it was invoked |
| `Timeline.InvLinearizable` | README.md:109 | a state that satisfies the invariant has a linearizable history |
| `Safety.RunsLinearizable` | README.md:108-111 | for every N and every run with crashes, recoveries, loss, repetition and reordering, the history is linearizable under the documented selection |
| `Safety.TagsFollowRealTime` | README.md:63-104 | in every run under the documented selection: if one operation returned before another was invoked, the other's tag is at least as large, and larger if it is a write |
| `Safety.TagsIdentifyData` | README.md:63-104 | in every reachable state under the documented selection, equal tags anywhere in memory, in readlists, on disc or in transit carry equal data |
| `Safety.DurableMajority` | README.md:86-104 | under the documented selection, from the moment an operation returns a majority has its tag or a larger one on disc, for the rest of the run |
| `Safety.StoredTagsRise` | README.md:63-104 | under the documented selection, no process's stored tag decreases in any continuation of any run |
| `Safety.StoreCallsIncrease` | README.md:63-104 | in every run under the documented selection, the store is called only with tags strictly above the stored one and timestamps of at least 1 |
| `Composition.DiscsRefineStores` | solution/src/sectors_manager.rs:132-179 | for any number of sectors whose file operations interleave, and crashes between any two of them in writes and recoveries: what happens to processes with directories matches a run of the cluster with atomic stores, with the same messages and history, and each disc shows the stored entry. Holds under the documented selection, and under any other as long as each store call has a tag above the indexed one |
| `Composition.DiscsLinearizable` | README.md:104-115 | under the documented selection, registers on such discs have linearizable histories, for up to 255 processes and 2^64 events |
| `Composition.MidWriteShows` | solution/src/sectors_manager.rs:132-179 | at any moment of a write, whatever other sectors do meanwhile, a crash leaves the old sector before the rename and the new one from it on |
| `Composition.OperatedOk` | solution/src/sectors_manager.rs:132-179 | each file operation of a write takes the disc to the next stage of that write |
| `Composition.RestartReads` | solution/src/lib.rs:120-125 | whatever the directory showed before recovery is what the register starts with after it |
| `AnySelection.ReadsReturnWrittenData` | solution/src/atomic_register.rs:192-220 | for the code too: a read returns zeroes or the data of a write invoked before the read returned |
| `AnySelection.TimestampsBounded` | solution/src/atomic_register.rs:224 | for the code too: no timestamp anywhere exceeds the number of writes that reached their second phase |
| `AnySelection.CallbackIsOwn` | solution/src/atomic_register.rs:278-302 | a callback belongs to an unfinished operation of that process, has its request identifier and kind, and ends it |
| `AnySelection.StoredTagBounded` | solution/src/atomic_register.rs:224 | under every selection, a stored timestamp is at most the number of steps so far plus one, and its rank at most N |
| `Halting.HaltsIff` | solution/src/atomic_register.rs:187-305 | in every run and under every selection, a delivery takes the process down if and only if it is a VALUE or an ACK and the process has not been asked anything since it last started; nothing is then stored, sent or returned |
| `Halting.IdentIff` | solution/src/atomic_register.rs:115 | in every run a running process has an operation identifier if and only if it has been asked since it last started |
| `Halting.RecoveredHalts` | solution/src/atomic_register.rs:192 | a late VALUE or ACK takes a process down that has just recovered |
| `Progress.MajorityFinishes` | solution/src/atomic_register.rs:162-305 | from every reachable state, any majority of running processes and the initiator can finish a pending operation by deliveries among themselves, under every selection |
| `Progress.CollectAnswers` | solution/src/atomic_register.rs:192-195 | the answers of a majority can be delivered up to the one that ends the read phase |
| `Progress.Complete` | solution/src/atomic_register.rs:271-305 | the acknowledgements of a majority can be delivered up to the callback, with the result of the carried entry |
| `CodeSelection.CodeSelectsHighestIff` | solution/src/atomic_register.rs:198-200 | the code selects the documented maximum in every order of iteration if and only if every entry with an outdated timestamp is outranked |
| `CodeSelection.FaithfulRunsLinearizable` | solution/src/atomic_register.rs:198-200 | a run of the code in which that condition holds at each selection is linearizable |
| `CodeSelection.AloneLinearizable` | solution/src/atomic_register.rs:198-200 | every run of the code with one process is linearizable |
| `Counterexample.StaleRead` | solution/src/atomic_register.rs:198-200 | with three or more processes the code has a run without crashes or cut deliveries in which a write returns, then another, and then a read returns the data of the first |
| `Counterexample.SharedTag` | solution/src/atomic_register.rs:199-224 | with two or more processes the code has a run in which two writes of different data get one tag and, after the second has returned, one read returns the first and a later read the second |
| `Counterexample.CodeLinearizableIff` | solution/src/atomic_register.rs:198-200 | all runs of the code with N processes are linearizable if and only if N is at most 1 |
| `CodeTags.CallRisesIff` | solution/src/atomic_register.rs:199-251 | for every selection: a store call is above the stored tag if and only if it adopts a WRITE_PROC or the selected entry is recent enough for the stored tag |
| `CodeTags.Falls` | solution/src/atomic_register.rs:192-225 | with two or more processes the code has a reachable state in which process 2 stores (3, 1) and a step that makes it store (2, 2) |
| `CodeTags.SameTagStored` | solution/src/atomic_register.rs:199-225 | with two or more processes the code has a run in which process 1 stores other data under its stored tag |
| `CodeTags.TagShared` | solution/src/atomic_register.rs:199-224 | with two or more processes the code reaches a state in which two processes have stored different data under one tag |
| `CodeTags.ReadsBehind` | solution/src/atomic_register.rs:192-220 | with two or more processes a read of the code can carry a smaller tag than a write that returned before it began |
| `CodeTags.CodeTagsIdentifyDataIff` | solution/src/atomic_register.rs:198-224 | equal tags carry equal data in all reachable states of the code if and only if N is at most 1 |
| `CodeTags.CodeTagsFollowRealTimeIff` | solution/src/atomic_register.rs:192-238 | tags follow real time in all reachable states of the code if and only if N is at most 1 |
| `CodeTags.CodeDurableMajorityIff` | solution/src/atomic_register.rs:224-280 | a majority keeps the tag of every completed operation in all reachable states of the code if and only if N is at most 1 |
| `CodeTags.CodeStoreCallsIncreaseIff` | solution/src/atomic_register.rs:224-251 | every store call of the code is above the stored tag if and only if N is at most 1 |
| `CodeTags.CodeStoredTagsRiseIff` | solution/src/atomic_register.rs:224-251 | stored tags never fall in runs of the code if and only if N is at most 1 |
| `FileNames.FinalNameRoundTrip` | solution/src/sectors_manager.rs:64-73 | splitting and parsing a final name gives back sector, timestamp and rank |
| `FileNames.FinalNameRead` | solution/src/sectors_manager.rs:64-73 | a three-part name is read back if and only if its numbers fit 64, 64 and 8 bits; otherwise recovery fails |
| `FileNames.NameExample` | solution/src/sectors_manager.rs:45-51 | the literal form of a final and a temporary name |
| `FileNames.PlusIsRead` | solution/src/sectors_manager.rs:71-73 | a name with a plus sign, which the store never writes, is read as the name without it |
| `FileNames.FinalNamesDistinct` | solution/src/sectors_manager.rs:45-47 | different versions have different names |
| `FileNames.TmpNameIsOther` | solution/src/sectors_manager.rs:49-51 | no temporary name splits into three parts |
| `SectorStore.CrashRecovery` | solution/src/sectors_manager.rs:53-91 | the result is that of visiting the files one by one, for every directory; for the store's own names and every listing order the index maps each sector to its newest file, a crash after any file operation loses no newest file, no temporary is left, and one file per sector is left if and only if no sector is listed first with the tag (0, 0) and again later |
| `SectorStore.OneFileIff` | solution/src/sectors_manager.rs:76-87 | the condition under which recovery leaves one file per sector |
| `SectorStore.IndexUnique` | solution/src/sectors_manager.rs:58-90 | the recovered index does not depend on the order of the listing |
| `SectorStore.TrimmedShows` | solution/src/sectors_manager.rs:66-87 | removing files that are not the newest of their sector changes no sector |
| `SectorStore.RecoveryRestartable` | solution/src/sectors_manager.rs:58-90 | any number of crashes during recovery changes neither the index nor any sector |
| `SectorWrites.CutWriteShows` | solution/src/sectors_manager.rs:132-179 | a write with a larger tag, cut off anywhere, leaves the old sector before the rename and the new one from it on |
| `SectorWrites.CutWriteSparesOthers` | solution/src/sectors_manager.rs:132-179 | a write cut off anywhere leaves every other sector as it was |
| `SectorWrites.WriteSettles` | solution/src/sectors_manager.rs:160-178 | an uncut write leaves one file per sector, no temporaries, and the index in agreement |
| `SectorWrites.CutWriteIff` | solution/src/sectors_manager.rs:160-178 | the new sector is shown from the rename on, wherever the write is cut off, if and only if its tag is above the stored one |
| `SectorWrites.SameTagLoses` | solution/src/sectors_manager.rs:175-178 | a write under the stored tag leaves the sector without a file |
| `SectorWrites.OlderTagLoses` | solution/src/sectors_manager.rs:155-178 | a write under a smaller tag is undone by a crash after the rename |
| `SectorWrites.CutsAreOperations` | solution/src/sectors_manager.rs:138-178 | the directories between the operations of an undisturbed write come from its four file operations |
| `SectorWrites.OperationSpares` | solution/src/sectors_manager.rs:138-178 | each file operation of a write leaves the final and temporary files of other sectors alone, wherever it falls between theirs |
| `SectorWrites.RenameOperation` | solution/src/sectors_manager.rs:154-155 | the rename puts the new file beside the old one, however other sectors changed the directory since the temporary was written |
| `SectorWrites.RemoveOperation` | solution/src/sectors_manager.rs:175-178 | the removal leaves the sector with its new file only |
| `SectorWrites.SectorsManager.constructor` | solution/src/sectors_manager.rs:25-43 | start-up does what visiting the files one by one does; on the store's own names it leaves the newest files, and an index and directory in agreement |
| `SectorWrites.SectorsManager.ReadMetadata` | solution/src/sectors_manager.rs:125-130 | the tag of the sector, (0, 0) if it is absent |
| `SectorWrites.SectorsManager.ReadData` | solution/src/sectors_manager.rs:96-123 | the data of the sector, zeroes if it is absent; the file is always there |
| `SectorWrites.SectorsManager.Write` | solution/src/sectors_manager.rs:132-179 | the directory between its file operations is the one the crash lemmas are about; afterwards the sector is the new one, unless the tag is the stored one |
| `Wire.BigEndianByte` | solution/src/transfer_operations.rs:256-259 | byte i of a number in k bytes counts units of 256 to the power k - 1 - i |
| `Wire.HeaderBytes` | solution/src/transfer_operations.rs:244-286 | the eight header bytes of each of the six messages, literally, and the length of each |
| `Wire.ClientBytes` | solution/src/transfer_operations.rs:253-267 | where request identifier, sector index and data lie in a client message |
| `Wire.SystemBytes` | solution/src/transfer_operations.rs:286-314 | where operation identifier, sector index, timestamp, rank and data lie in a message between processes |
| `Wire.TagBytes` | solution/src/transfer_operations.rs:336-339 | the last 32 bytes are the tag of everything before them |
| `Codec.RoundTrip` | solution/src/transfer_operations.rs:182-343 | after any prefix without the magic number, a command serialised under the client key (client commands) or the system key (system commands) is read back with a valid tag and exactly its bytes are consumed |
| `Codec.ParseSerialized` | solution/src/transfer_operations.rs:209-343 | the same at a magic number, whatever follows the command |
| `Codec.NoMagicAcross` | solution/src/transfer_operations.rs:191-196 | no magic number begins in such a prefix and ends in the message after it |
| `Codec.StreamRoundTrip` | solution/src/transfer_operations.rs:182-343 | a concatenation of serialised commands is read back as the same list, all valid |
| `Codec.LengthByType` | README.md:320 | from the magic number on, 56, 4152, 64 or 4176 bytes are consumed, by the message type alone, even with a wrong tag |
| `Codec.UnknownTypeStops` | solution/src/transfer_operations.rs:198-205 | an unknown type stops the reader eight bytes after the start of the magic number |
| `Codec.SerializeParsed` | solution/src/transfer_operations.rs:182-343 | serialising a command read with a valid tag gives back its bytes if and only if the padding is zero |
| `CodecIO.SerializeClient` | solution/src/transfer_operations.rs:239-270 | the bytes appended for a client command are its header and body in the format |
| `CodecIO.SerializeSystem` | solution/src/transfer_operations.rs:272-318 | the bytes appended for a system command are its header and body in the format |
| `CodecIO.SerializeRc` | solution/src/transfer_operations.rs:321-343 | what is written is the format followed by its tag under the given key |
| `CodecIO.FindMagicIs` | solution/src/transfer_operations.rs:191-196 | the first position of a magic number is the one the reader's specification names |
| `CodecIO.ValidIff` | solution/src/transfer_operations.rs:207-231 | a message read from any stream is valid if and only if its last 32 bytes are the tag of all bytes from the first magic number on, under the client key for a client command and the system key for a system command |
| `CodecIO.SeekMagic` | solution/src/transfer_operations.rs:188-196 | the sliding four-byte window stops at the first magic number, and at none in between |
| `CodecIO.ConstructClient` | solution/src/transfer_operations.rs:50-86 | reading field by field gives the command, tag check and length that the format determines, or runs short; the tag is checked under the client key |
| `CodecIO.ConstructSystem` | solution/src/transfer_operations.rs:88-121 | the same for READ_PROC and ACK, under the system key |
| `CodecIO.ConstructAdvanced` | solution/src/transfer_operations.rs:123-179 | the same for VALUE and WRITE_PROC, under the system key |
| `CodecIO.DeserializeRc` | solution/src/transfer_operations.rs:182-232 | one call of the reader yields what the round-trip lemmas are about, for every byte stream, and valid means signed under the key of the command's kind |
| `Responses.ConstructValidResponse` | solution/src/register_process.rs:194-219 | the bytes of a successful response, with the sector for a read |
| `Responses.ConstructRefusal` | solution/src/register_process.rs:221-261 | the bytes of the two refusals |
| `Responses.ResponseBytes` | solution/src/register_process.rs:200-216 | the literal header, status and type bytes of a response, and where identifier, data and tag lie |
| `Responses.FetchedIff` | driver/atdd_tcp_client.c:262-350 | the driver's decoding succeeds if and only if magic number, status byte, length and tag are right, and gives the bytes in their places |
| `Responses.ResponseRoundTrip` | driver/atdd_tcp_client.c:307-380 | for every status, request identifier and sector, the driver decodes a response to the same status, identifier and data, and its length is that of the response |
| `Responses.TcpClient.ReadTo` | driver/atdd_tcp_client.c:297-305 | the buffer is filled up to the limit from the stream, or the stream has ended |
| `Responses.TcpClient.ReadHead` | driver/atdd_tcp_client.c:307-316 | the first 48 bytes are read once, and a stream that is not at a magic number is caught |
| `Responses.TcpClient.ReadRest` | driver/atdd_tcp_client.c:329-351 | the rest of a response is read and returned exactly if its tag is valid; after a failure another fetch may follow |
| `Responses.TcpClient.FetchCommand` | driver/atdd_tcp_client.c:353-381 | with nothing awaited nothing happens; otherwise a response is returned if and only if its magic number, status byte, length and tag are right, with the status, identifier and data at their places, and exactly its bytes are consumed; a wrong tag or status fails and completes nothing; unless the stream is out of step, another fetch may follow |
| `Responses.TcpClient.Receive` | driver/tcp.c:62-90 | arriving bytes join those not yet decoded |
| `Responses.TcpClient.Await` | driver/atdd_tcp_client.c:228-243 | sending a command makes one more response awaited, modulo 256 |
| `Responses.FirstReply` | driver/atdd_tcp_client.c:307-380 | the first of any sequence of responses is decoded and the others remain |
| `Responses.TcpClient.FetchResponse` | driver/atdd_tcp_client.c:307-380 | reading in two steps through the buffer gives the decoding of everything received so far |
| `Responses.TcpClient.FetchAll` | driver/atomic_disc_driver.c:172-203 | the fetch loop returns exactly the awaited responses, in order, and leaves nothing behind |
| `Permits.InvStep` | solution/src/register_process.rs:112-133 | every step keeps at most one client command granted, queued or executing, and none while the permit is free |
| `Permits.OneCommandAtATime` | solution/src/register_process.rs:123-133 | in every run the permit is taken exactly while one client command is granted, queued or executing |
| `Permits.ClientFindsRegisterIdle` | solution/src/register_process.rs:65-85 | in every run a client command reaches a register with no operation, phase or callback in progress |
| `Permits.AnsweredExactly` | solution/src/register_process.rs:177-191 | in every run a step gives an answer, and gives the permit back, if and only if it takes the register from busy to idle; the answer is for the command in progress, which had none, and is the data read or the write's success |
| `Permits.ServedInOrder` | solution/src/register_process.rs:74-84 | in every run work is served once, in the order in which it was queued |
| `Permits.WorkerStops` | solution/src/register_process.rs:74-84 | in every run the worker stops if and only if it serves a VALUE or an ACK to a register without an operation identifier |
| `Permits.AnswerDecoded` | solution/src/register_process.rs:183-189 | the response sent for an answer is decoded by the driver as a success with the request's identifier and the data read |
| `Permits.AnswersFitAndStay` | solution/src/register_process.rs:177-192 | an answer has the request identifier and kind of its command, is never replaced, and its command is not queued again |
| `Ring.InvStep` | driver/atomic_disc_driver.c:164-281 | every step conserves requests: window and ended together are what was submitted, within bounds |
| `Ring.SwapOut` | driver/atomic_disc_driver.c:180-185 | exchanging a request with the oldest one and dropping it removes exactly that request |
| `Ring.EachRequestOnce` | driver/atomic_disc_driver.c:164-281 | in every interleaving of submissions, sends, completions and resets, each submitted request is in the window once or has ended once, never both; submissions are refused at 255, as the arithmetic of lines 208-209 has it |
| `Ring.NothingInvented` | driver/atomic_disc_driver.c:164-281 | in every run nothing is in the window or ended that was not submitted, and completed <= forwarded <= accepted <= completed + 255 |
| `Ring.ResetForgets` | driver/atomic_disc_driver.c:243-258 | after any run a reset leaves nothing in flight and the window, the ended and the submitted requests as they were |
| `Ring.IdentsApart` | driver/atomic_disc_driver.c:113-278 | in any runs of two of the ten threads no two requests share an identifier |
| `Ring.FullUnnoticed` | driver/atomic_disc_driver.c:269 | a reachable full window that the coded test does not notice |
| `Relay.RelayData.constructor` | driver/atomic_disc_driver.c:104-113 | a new relay has an empty window, whatever its uncleared buffer contains |
| `Relay.RelayData.FullTestIff` | driver/atomic_disc_driver.c:269 | the coded test notices a full window if and only if the completed position is 0 |
| `Relay.RelayData.Submit` | driver/atomic_disc_driver.c:266-281 | below 255 requests the positions and slots implement a submission; the window stays well formed if and only if there are fewer than 255 or the coded test notices; otherwise the window is overfull, and the next submission overwrites its oldest request, which is then in no slot |
| `Relay.RelayData.Put` | driver/atomic_disc_driver.c:273-278 | the request is written at the accepted position under the next identifier, and the position wraps around |
| `Relay.Overwritten` | driver/atomic_disc_driver.c:269-277 | writing over the oldest of 256 requests leaves it in no slot |
| `Relay.RelayData.SendsAll` | driver/atomic_disc_driver.c:206-210 | the modulo-256 arithmetic yields exactly the number of accepted requests not yet forwarded |
| `Relay.RelayData.SendAccepted` | driver/atomic_disc_driver.c:212-227 | the waiting requests are sent in order, up to the first failure, and the forwarded position advances by as many; the window is unchanged |
| `Relay.RelayData.ErrorReset` | driver/atomic_disc_driver.c:243-258 | the forwarded position returns to the completed one, the window is unchanged, and all of it is to be sent |
| `Relay.RelayData.Resend` | driver/atomic_disc_driver.c:243-259 | the turn after a connection error sends the whole window again, in order; if a send fails, all of it is to be sent once more |
| `Relay.RelayData.FindRequest` | driver/atomic_disc_driver.c:154-162 | the first slot with the identifier, or none, over all 256 slots |
| `Relay.RelayData.CompleteOne` | driver/atomic_disc_driver.c:164-204 | the first slot with the identifier changes places with the oldest and ends, and a response without one is dangling; unless uncleared memory contains the identifier, this completes a request of the window if and only if it is in the window and something is in flight |
| `Relay.RelayData.EndAt` | driver/atomic_disc_driver.c:180-185 | the slot changes places with the one at the completed position, which advances modulo 256 |

## Left out

- HMAC-SHA256 is any function of key and bytes with 32-byte results; feeding it in pieces is feeding it the concatenation.
- Operation identifiers are fresh numbers; UUID generation is not part of the model.
- Tokio tasks, sockets, channels, timers and the retransmission task: the network is the set of messages ever sent, so safety covers every delivery, and no eventual delivery is claimed.
- Process start-up and configuration, apart from recovery.
- Durability of rename and removal: both take effect at once, and a temporary file has arbitrary contents until it is synchronised.
- Timestamps are unbounded in the protocol; `AnySelection.TimestampsBounded` and `AnySelection.StoredTagBounded` bound them, and `Composition` keeps to runs of fewer than 2^64 events and fewer than 256 processes, whose tags fit a file name.
- Composition.DiscsRefineStores: other sectors are any changes to files that are not this sector's and leave well-formed, non-zero names, which `SectorWrites.OperationSpares` shows of their writes; that a file another sector removes exists is not modelled.
- SectorStore.CrashRecovery: for three-part names that the store does not write, such as `01_2_3`, the result is described visit by visit and no property of it is stated beyond that names that do not parse make it fail.
- SectorWrites.SectorsManager.constructor: promises nothing where recovery fails.
- SectorWrites.SectorsManager.Write: failures of the file system, which panic, are not modelled apart from a missing old file.
- Ring.EachRequestOnce: submissions at 255 and completions that `Ring.Enabled` excludes are described by `Relay.RelayData.Submit` and `Relay.RelayData.CompleteOne`, not by this run theorem.
- Request identifiers of the driver and request counts are unbounded.
- The kernel's block layer, the driver's sending side, argument parsing and memory management: foreign calls.
- The dispatch of commands and self-addressed messages to the worker of their sector, and the writing of response bytes to the client's socket.
