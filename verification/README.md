# A model of the permission broker, the anchor registry and the guarded bridges

This project models the parts of apple-notes-mcp in which many small steps, in any order and with any
failure between them, have to add up to one promise, and proves those promises. Nothing was executed: every
statement below is a theorem about the model, for all inputs, all schedules and all runs.

## What is modelled

**The brokered session.** A Swift broker multiplexes a child's two output pipes into bounded frames and ends
with one exit frame; a TypeScript proxy reads them back under backpressure and must exit once, with the right
code. `Wire` has the format, a one-shot parser and an incremental one. `ProxySpec` says what each event does
to the proxy; `BrokerProxy` is the proxy in its own form, an object whose handlers change its fields, each
handler proved to do exactly what `ProxySpec.Step` says (through `PumpChunks`: reading in chunks is reading
byte by byte). `ProxyRuns` and `ProxyTheorems` are about every order of events. `BrokerRelay` is the broker's
loop, `Handshake` the request line and the answer line, and `EndToEnd` puts the halves together: exit 0 is
never a lie, and a session that settles is a round trip. `BrokerSessions` is the broker's bookkeeping of
concurrent sessions, whose shared object is driven through every run, and `NumericFilter` the settings filter that exists twice, once through a double and once
through a 64-bit integer.

**The anchor registry.** `RegistryProtocol` interleaves any number of processes that lock, read, write, sync,
rename, unlock, fail and crash one system call at a time. `AnchorRegistry` is what the updates do, and
`RegistryUpdates` puts the two together.

**The bridges.** `Shortcut` is the flat action list that Shortcuts stores, where a condition or a repeat is
only a set of actions that share a group, with an interpreter. `ShortcutMeaning` proves that a flat list
emitted from nested blocks means what the blocks mean. `OperationsBridge` and `TagsBridge` are the two
builders; `OperationsGate` proves what the emitted operations program does, mutation by mutation.
`BackgroundNotes` is the guarded mutation around it, and its report is connected to what the bridge did;
`BridgeErrors` shows what an error in the middle can leave behind, and when exactly the report is true.
`NoteChecks` has the checks on the note's text.

**Smaller machines.** `Limiter` (the resolver's limit on failed token checks), `Drawing` (the budgeted
decoder) and `BrokerSetup` (install and uninstall).

The form follows the source: the proxy, the client, the broker's shared state, the registry, the limiter and
the setup host are classes with the source's fields; its loops are loops; the builders' constructors and the
checks that are expressions are functions.

## What turned out differently from what one would expect

- `TagsBridge.TagsReachAnInexactTitle`: the tags bridge, unlike the operations bridge, does not compare the
  note's title or scope, only the count of the search result. Native search is by words, so a note with another
  title can be tagged. `TagsBridge.TagsKeepTheGateIff` has the exact condition.
- `BackgroundNotes.MarkIsTheRefusal`: the comment at src/services/backgroundNotes.ts:290-295 says that every
  bridge ends a refusal with `_REFUSED`. The tags bridge ends it with `APPLE_NOTES_TAGS_AMBIGUOUS_OR_MISSING`,
  which the test for that mark does not recognise. Only the comment is inaccurate and no run is affected: the
  tags bridge is run elsewhere (src/services/nativeTags.ts:382-410), where no output is read.
- "Not committed" after an error exit rests on the unchanged note alone, and is not always true.
  `BridgeErrors.NotCommittedIsTrueExactly`: nothing can have been started exactly when the bridge was not run to
  an error exit, or the request stands for no mutation on the notes that the bridge finds. Otherwise the same
  process, request and notes allow a list that has started any number of the wanted mutations, in any operation
  (`BridgeErrors.NotCommittedCanHideMutations`).
  `BridgeErrors.ReadbackCoversExactly` says what the readback can see: it looks at every note that may have been
  written exactly when nothing is wanted, or the operation is not a tag operation and the bridge's search found
  the very note that was asked for. There are two ways out of its sight: the tag branches create the tag before
  they attach it (`BridgeErrors.AnErrorCanLeaveATag`), and another note with the same title and scope may be the
  one found (`BridgeErrors.AnErrorCanWriteToAnotherNote`).
- `NoteChecks.TwoItemsAtOneStart`, `NoteChecks.EmptyItemBehindABlankLine`: "items at line starts, texts joined
  by newlines" is not enough for the checklist check; items must also follow one another.
  `NoteChecks.AcceptsExactLayouts` has the exact condition, and `NoteChecks.ProperListsNeedOnlyTheLayout` shows
  that for nonempty single-line items at distinct starts the layout is enough.
- `NumericFilter.PaddedSettingsDoNotArrive`: eight zero-padded settings that both filters accept do not reach
  the child, however the request is encoded: its line is too long for the broker.
  `NumericFilter.SettingsArriveExactly` has the exact condition.
- `ProxyTheorems.LastErrorAfterFailure`: when the last write reports an error after the session
  already failed, only the two-second deadline ends the process.
- `BrokerSetup.Host.InstallBroker`: a removal of the old app that fails halfway leaves a part of it beside the
  old manifest and agent, and a removal of the staging directory that throws ends the setup with that error.
- `BrokerSetup.WhatIsRemoved`: behind a symlinked state directory an uninstall leaves the socket and the
  manifest in the target.

## Model

| member | source | states |
|---|---|---|
| Wire.ParseSession | native/broker/apple-notes-mcp-broker.swift:600-606 | Parsing undoes framing: for every list of frames and every exit code the parser gives them back, and reports any byte after the exit frame. |
| Wire.ParseExact | src/services/brokerProxy.ts:285-335 | A stream parses to these frames and this code if and only if it is those frames, one exit frame, and nothing else. |
| Wire.StrictPrefixIncomplete | src/services/brokerProxy.ts:333-334 | Every strict prefix of a session is incomplete and gives only a prefix of its writes. |
| Wire.FeedAllRefinesParse | src/services/brokerProxy.ts:285-331 | Feeding the incremental parser byte by byte reaches the writes and the verdict of one-shot parsing. |
| Wire.Layout | native/broker/apple-notes-mcp-broker.swift:600-606 | The bytes of a frame: channel, four bytes of length with the most significant first, payload; the exit frame is 3, length 4, and the code last. |
| Wire.RefusedHeaders | src/services/brokerProxy.ts:294-306 | An unknown channel, an empty payload, one over 65,536 bytes and an exit frame that has not four end the session as invalid; every other header waits for its payload. |
| PumpChunks.ChunkStep | src/services/brokerProxy.ts:268-278 | A read of a chunk that completes at most its last byte's step leaves the pump's loop with the same result as byte-by-byte reading. |
| BrokerProxy.RelayBroker.Read | src/services/brokerProxy.ts:268-278 | The leftover first, then the socket: a nonempty prefix no longer than asked, and nothing else moves. |
| BrokerProxy.RelayBroker.WriteOutput | src/services/brokerProxy.ts:251-267 | The write is issued under its position; the pending count, the blocked set, the stall timer and a throw have the specified effect. |
| BrokerProxy.RelayBroker.Pump | src/services/brokerProxy.ts:279-339 | The loop over the header buffer and the payload buffer gives the state that byte-by-byte reading with the decision at the end gives. |
| BrokerProxy.RelayBroker.OnReadable | src/services/brokerProxy.ts:357-357 | The handler refines the specification's step for new bytes. |
| BrokerProxy.RelayBroker.OnDrain | src/services/brokerProxy.ts:340-346 | The handler refines the step for a drained stream, and does nothing after the exit. |
| BrokerProxy.RelayBroker.OnWriteDone | src/services/brokerProxy.ts:254-260 | The write callback refines its step: one fewer pending, then exit or failure. |
| BrokerProxy.RelayBroker.OnStreamFailed | src/services/brokerProxy.ts:351-356 | A stream's error or close refines its step. |
| BrokerProxy.RelayBroker.OnEnd | src/services/brokerProxy.ts:358-361 | The peer's end refines its step. |
| BrokerProxy.RelayBroker.OnSocketClose | src/services/brokerProxy.ts:362-365 | A close without an end refines its step. |
| BrokerProxy.RelayBroker.OnDeadline | src/services/brokerProxy.ts:211-222 | The flush deadline refines its step. |
| BrokerProxy.RelayBroker.OnStall | src/services/brokerProxy.ts:244-249 | The stall deadline refines its step. |
| BrokerProxy.Session | src/services/brokerProxy.ts:171-368 | Any events in any order drive the object through exactly the states of `ProxySpec.Run`, so every theorem about runs is about these handlers. |
| ProxyRuns.RunKeeps | src/services/brokerProxy.ts:177-266 | After any possible events the writes, the ending and the parser satisfy the invariant that the theorems below use. |
| ProxyTheorems.ReadSoFar | src/services/brokerProxy.ts:279-331 | Whatever the chunking and the drain schedule, what was read so far has given the writes and the verdict of parsing it at once. |
| ProxyTheorems.SettledRun | src/services/brokerProxy.ts:332-335 | A run without trouble whose peer has ended, whose channels were each drained after the last write that was answered full, and whose writes all called back, has exited once, with the one-shot verdict's code and the one-shot frames written. |
| ProxyTheorems.CanComplete | src/services/brokerProxy.ts:279-339 | Every session can be completed: delivered whole to outputs that accept it, it gives exactly its writes and one exit with its code. |
| ProxyTheorems.BlockedMeansOwed | src/services/brokerProxy.ts:251-267 | Until the exit, a channel is blocked if and only if the last write on it that was answered full came after the last drain of it. |
| ProxyTheorems.EventsTell | src/services/brokerProxy.ts:251-361 | In every run the peer's end is known exactly when it came, a write is outstanding exactly until its callback, and acknowledged only by one without an error. |
| ProxyTheorems.NoTroubleWithoutCause | src/services/brokerProxy.ts:251-266 | Trouble is only ever recorded for a write error or throw, a stream failure or a timer. |
| ProxyTheorems.NoFalseSuccess | src/services/brokerProxy.ts:201-239 | Exit 0 only when all that was delivered is data frames, one exit frame with code 0, and the end, and every write's callback came without an error. |
| ProxyTheorems.CutOrPaddedSessionFails | src/services/brokerProxy.ts:285-335 | A strict prefix or a strict extension of a session never gives exit 0. |
| ProxyTheorems.ExitOnce | src/services/brokerProxy.ts:201-210 | The exit function is called at most once, and until then the pending count is the number of outstanding callbacks and never negative. |
| ProxyTheorems.FailureIsSticky | src/services/brokerProxy.ts:223-237 | A decided non-zero code never becomes zero again and no exit is undone, whatever event comes. |
| ProxyTheorems.EveryWaitIsBounded | src/services/brokerProxy.ts:211-250 | When no timer is armed and the proxy has not exited, it waits for nothing but the peer's next bytes. |
| ProxyTheorems.TimersExactly | src/services/brokerProxy.ts:211-250 | Before the exit the stall timer is armed if and only if a callback or a drain is owed, the deadline if and only if the exit frame was read or a code decided; after it neither. |
| ProxyTheorems.TimersEnd | src/services/brokerProxy.ts:211-250 | An armed timer can fire, and then the session has exited with 1. |
| ProxyTheorems.FailuresDecide | src/services/brokerProxy.ts:251-365 | A stream's error or close and a write error decide 1; a close of the socket does so exactly when nothing was decided and the peer had not ended. |
| ProxyTheorems.InputStops | src/services/brokerProxy.ts:197-232 | The socket is destroyed exactly when a code is decided; the input is stopped from then or from the exit frame on. |
| ProxyTheorems.LastErrorAfterFailure | src/services/brokerProxy.ts:254-260 | If the last callback reports an error after a stream or a write had failed, the exit comes only from the deadline, with 1; without the error it comes at once. |
| ProxyTheorems.BlockedOutputStopsReading | src/services/brokerProxy.ts:285-285 | While an output is blocked no arriving byte is read, and at most a partial header or one payload of at most 65,536 bytes is held. |
| BrokerRelay.RunKeeps | native/broker/apple-notes-mcp-broker.swift:612-706 | For every answer of every system call, sent plus pending bytes are the frames begun, and no byte of a channel is lost, repeated or reordered. |
| BrokerRelay.RelayIsFaithful | native/broker/apple-notes-mcp-broker.swift:612-706 | A relay that sent its terminal frame sent a whole session with the child's bytes and its status modulo 256, or 128 plus its signal and at most 255; cut off anywhere else, what it sent parses as incomplete. |
| BrokerRelay.NoPipeStarves | native/broker/apple-notes-mcp-broker.swift:690-704 | In every run, as long as a pipe has data to give whenever it is asked, at most one more frame of the other pipe is begun before one of its own. |
| BrokerRelay.GivesUpExactly | native/broker/apple-notes-mcp-broker.swift:626-704 | A turn gives up if and only if the broker stops, the peer is gone, the child cannot be observed, a time limit passed, or a system call that it gets to fails. |
| BrokerRelay.CanFinish | native/broker/apple-notes-mcp-broker.swift:612-706 | From every state of a running relay some further turns finish it. |
| BrokerRelay.RelayLoop | native/broker/apple-notes-mcp-broker.swift:612-706 | The loop over its local variables does in each iteration what the specification's turn says, for all sequences of answers. |
| Handshake.AnswerIsFirstLine | src/services/brokerClient.ts:43-104 | Under any order of data, timer, error, end and close the promise settles at most once, and a resolved answer is the first line, with leftover and later bytes exactly the rest. |
| Handshake.SettledForGood | src/services/brokerClient.ts:48-53 | Once settled, no later events, in any number and order, settle the promise again or change how it was settled. |
| Handshake.OpenExactly | src/services/brokerClient.ts:43-104 | The promise is open if and only if nothing but data came, no newline in it, and at most 65,536 bytes. |
| Handshake.FailuresSettle | src/services/brokerClient.ts:48-66 | Timer, error, end and close each settle an open promise with their own failure; the socket is destroyed exactly for a refusal. |
| Handshake.DataDecides | src/services/brokerClient.ts:68-102 | With data alone, whatever the chunks, it resolves exactly when the first newline is at index 65,536 or before and the line is an object. |
| Handshake.RequestBroker.OnData | src/services/brokerClient.ts:68-102 | The handler over the fixed buffer refines the specification's step. |
| Handshake.Answered | src/services/brokerClient.ts:43-104 | Any events in any order drive the object through exactly the states of `Run`, so the theorems about runs are about these listeners. |
| Handshake.ReadRequestLine | native/broker/apple-notes-mcp-broker.swift:96-107 | A line is returned exactly when its newline is at index 65,535 or before and is delivered, and then exactly the line and its newline are consumed. |
| Handshake.DeliveredUntilEnd | native/broker/apple-notes-mcp-broker.swift:96-107 | The bytes that are delivered are as many as the reads that gave one before an end. |
| Handshake.WriteAll | native/broker/apple-notes-mcp-broker.swift:68-83 | Short writes and interruptions send a prefix; success means all of it. |
| EndToEnd.HandshakeLosesNothing | src/services/brokerClient.ts:97-101 | Wherever the chunks are cut, the proxy gets a prefix of the wire from its first byte on, and all of it when all was delivered. |
| EndToEnd.RoundTrip | src/services/brokerProxy.ts:171-339 | For every schedule of reads, sends, chunks, drains and callbacks, a completed session gives the child's bytes in order on each stream, and exits with the child's status modulo 256 or with 128 plus its signal, at most 255. |
| EndToEnd.ExitZeroIsTrue | src/services/brokerProxy.ts:201-339 | Whatever goes wrong anywhere, exit 0 means that the child exited with a status that is 0 modulo 256 and that each of its bytes was written and called back without an error. |
| EndToEnd.OnlyTheChildsBytes | native/broker/apple-notes-mcp-broker.swift:600-706 | At every moment of every run each stream was given a prefix of what the child wrote to it. |
| NumericFilter.FiltersAgree | native/broker/apple-notes-mcp-broker.swift:565-574 | For every string the two tests agree: they accept exactly the numerals of at most 8192 digits that mean 1 to 2147483647. |
| NumericFilter.DoubleKeepsRange | src/services/brokerProxy.ts:96-97 | Rounding to the nearest double keeps every number in range and brings none into it. |
| NumericFilter.RoundsToNearest | src/services/brokerProxy.ts:96-96 | The double of a numeral is a nearest multiple of its unit, and between two the even one. |
| NumericFilter.PassedEnvironment | src/services/brokerProxy.ts:86-101 | The result has exactly the known settings whose value passes the test. |
| NumericFilter.ChildGetsOnlySettings | native/broker/apple-notes-mcp-broker.swift:565-574 | Whatever a request carries, the child gets exactly the known settings whose value is a numeral of at most 8192 digits for 1 to 2147483647. |
| NumericFilter.SettingsArriveExactly | native/broker/apple-notes-mcp-broker.swift:96-107 | For every encoding without a newline, all settings that the proxy passes reach the child unchanged if and only if the request has fewer than 65,536 bytes and its line is delivered; otherwise none does. |
| NumericFilter.LongSettingsDoNotArrive | native/broker/apple-notes-mcp-broker.swift:99-106 | Eight accepted settings of 8192 digits pass both filters, and no encoding of the request brings any setting to the child. |
| NumericFilter.PaddedSettingsDoNotArrive | native/broker/apple-notes-mcp-broker.swift:565-574 | There are such settings: 8191 zeros and a one is accepted by both filters. |
| NumericFilter.PaddedSettingsAreLost | src/services/brokerProxy.ts:38-51 | So for the first eight of the ten settings by name: the proxy passes them all, and the child gets none. |
| BrokerSessions.Broker.Stop | native/broker/apple-notes-mcp-broker.swift:337-344 | The stopping mark is set and the loop shuts down every registered connection, none of which leaves the set. |
| BrokerSessions.Follow | native/broker/apple-notes-mcp-broker.swift:317-351 | The object's methods, called as the steps of any behaviour say, go through exactly the shared states of that behaviour, so the promises below are about them. |
| BrokerSessions.RegisteredAreLive | native/broker/apple-notes-mcp-broker.swift:337-351 | Closing under the lock: in every reachable state the registered descriptors are exactly those of the live threads, each of one thread and open, so a stop shuts down no descriptor that was closed and reused, and nothing else counts as shut down. |
| BrokerSessions.Kept | native/broker/apple-notes-mcp-broker.swift:424-482 | In every reachable state of accept, connection-thread and stop steps, descriptors, pids, children, slots and signals satisfy the invariant. |
| BrokerSessions.ChildrenAreBounded | native/broker/apple-notes-mcp-broker.swift:317-351 | Unreaped children are at most the active count, which is at most 16; each one's connection is still registered, and shut down if and only if the broker is stopping. |
| BrokerSessions.SignalsHitOwnChild | native/broker/apple-notes-mcp-broker.swift:592-598 | Every signal reached a group whose leader was the sender's own, still unreaped child. |
| BrokerSessions.SignalReachesOwnChild | native/broker/apple-notes-mcp-broker.swift:592-598 | When a signal is sent, the one unreaped process with that pid is the sender's own child. |
| BrokerSessions.PidsComeBack | native/broker/apple-notes-mcp-broker.swift:592-598 | Once a child is reaped its pid is free, and the next process that gets it is nobody's child. |
| BrokerSessions.ReapedAfterSignals | native/broker/apple-notes-mcp-broker.swift:592-598 | Every child was sent two signals before it is reaped; a spawn is only gone into when the broker was not stopping. |
| BrokerSessions.SlotGrantedExactly | native/broker/apple-notes-mcp-broker.swift:317-323 | In every reachable state a slot is granted if and only if the broker is not stopping and fewer than 16 threads hold one. |
| BrokerSessions.AcceptedIsRegistered | native/broker/apple-notes-mcp-broker.swift:452-466 | An accepted connection gets a thread and is registered if and only if the broker is not stopping; otherwise it is closed. |
| BrokerSessions.NoChildLeftAtExit | native/broker/apple-notes-mcp-broker.swift:468-482 | When the accept loop reaches its exit, no thread is left and no child is unreaped. |
| BrokerSessions.CanExit | native/broker/apple-notes-mcp-broker.swift:424-482 | From every reachable state, whatever its threads are doing, some steps lead to the exit. |
| BrokerSessions.CanSpawn | native/broker/apple-notes-mcp-broker.swift:708-790 | A thread whose slot was granted can go on to a child of its own, with any unused pid, unless the broker is stopping by then. |
| BrokerSessions.ExitIsLast | native/broker/apple-notes-mcp-broker.swift:439-482 | The accept loop is left only to stop, and nothing comes after the exit. |
| AnchorRegistry.RecordIsStableUpsert | src/services/anchorRegistry.ts:317-339 | Existing anchors stay a prefix; result i is the first stored anchor with candidate i's key; it is new exactly when the key was neither stored nor an earlier candidate's. |
| AnchorRegistry.RecordTellsApart | src/services/anchorRegistry.ts:321-334 | A candidate's answer agrees with it in note, paragraph, text and block index, and is new if and only if no stored anchor and no earlier candidate agrees with it in all four. |
| AnchorRegistry.RecordIsIdempotent | src/services/anchorRegistry.ts:317-339 | Recording the same candidates again creates nothing and returns the same anchors. |
| AnchorRegistry.RecordKeepsIdsUnique | src/services/anchorRegistry.ts:333-334 | Ids stay unique when the drawn ones are fresh and distinct. |
| AnchorRegistry.RemoveKeepsTheRest | src/services/anchorRegistry.ts:354-360 | What stays is exactly the anchors with other ids, in their order. |
| AnchorRegistry.RemoveReportsTheGone | src/services/anchorRegistry.ts:354-360 | What is reported is exactly the requested ids that were there, one for each anchor gone. |
| AnchorRegistry.ReplaceKeepsTheRest | src/services/anchorRegistry.ts:342-351 | Length, order, ids, creation times and every other anchor stay. |
| AnchorRegistry.Registry.Record | src/services/anchorRegistry.ts:317-339 | The loop saves and returns what the upsert says, or reports a load problem or a full registry and leaves the file. |
| AnchorRegistry.Registry.Replace | src/services/anchorRegistry.ts:342-351 | Only the first anchor with the id changes, and not its creation time; errors leave the file. |
| AnchorRegistry.Registry.Remove | src/services/anchorRegistry.ts:354-360 | The file has the rest and the result the ids that were there; errors leave the file. |
| RegistryProtocol.BehaviourKeeps | src/services/anchorRegistry.ts:217-310 | For any number of processes and any interleaving the invariant over disk, places and history holds. |
| RegistryProtocol.NoUpdateIsLost | src/services/anchorRegistry.ts:217-232 | The registry is the start with all committed changes applied one after another in lock order; an update that returned is one of them, one that threw is none. |
| RegistryProtocol.LockExcludes | src/services/anchorRegistry.ts:273-310 | At most one process is between taking the lock and removing it. |
| RegistryProtocol.LockIsGivenBack | src/services/anchorRegistry.ts:217-293 | The lock file is there only while its process holds the lock, or if that process crashed or could not write into the file. |
| RegistryProtocol.WaitingCanLock | src/services/anchorRegistry.ts:273-293 | So a waiting process can take the lock whenever nobody holds it and nobody left it behind. |
| RegistryProtocol.UndisturbedCall | src/services/anchorRegistry.ts:217-271 | From every reachable state with a free lock, an update that nothing disturbs gives the lock back, and saves and returns if and only if the registry parses and the change gives at most 20,000 anchors; otherwise it throws and leaves the disk as it was. |
| RegistryProtocol.FailureEndsWell | src/services/anchorRegistry.ts:217-271 | At every stage of an update a failing call leads to the lock given back, an error, and the registry as it was. |
| RegistryProtocol.LeftLockStays | src/services/anchorRegistry.ts:273-293 | A lock file left by a crash or a failed write stays for good, and then nobody can lock again (stale locks are not broken in this model). |
| RegistryProtocol.CrashTouchesNothing | src/services/anchorRegistry.ts:217-271 | A process can crash at any point, and the crash itself changes nothing on the disk. |
| RegistryProtocol.UndisturbedLoad | src/services/anchorRegistry.ts:141-174 | A load that nothing disturbs gets the current value. |
| RegistryProtocol.PeeksSeeVersions | src/services/anchorRegistry.ts:141-174 | A load without the lock sees one committed version: the one current when it opened the file. |
| RegistryProtocol.NeverPartial | src/services/anchorRegistry.ts:234-270 | One step, a crash among them, leaves the old value or, if it is the rename, the whole new one; an unparsable file is never replaced. |
| RegistryUpdates.CommitsWereBegun | src/services/anchorRegistry.ts:217-232 | Every committed change was begun by the process that committed it. |
| RegistryUpdates.CommitsAreCalls | src/services/anchorRegistry.ts:317-360 | When processes only begin record, replace and remove, every sequence of commits is one of such calls. |
| RegistryUpdates.IdsStayUnique | src/services/anchorRegistry.ts:333-334 | Whatever the interleaving, ids are unique in every version of the registry, given ids that were not drawn or present before. |
| RegistryUpdates.ConcurrentRecordsShare | src/services/anchorRegistry.ts:317-360 | Of two records of one key by any processes, when no call committed between them removes or replaces the earlier's anchor or gives another one its key, the later creates nothing and is answered with that anchor. |
| Shortcut.PartExactly | scripts/build-native-operations-shortcut.py:59-59 | A text contains another if and only if some text before it and some text after it make it up. |
| ShortcutMeaning.Simulates | scripts/build-native-operations-shortcut.py:38-43 | A flat list that contains a block, at any nesting of conditions and repeats, computes the block's meaning and then goes on after it. |
| ShortcutProperties.EveryMoment | scripts/build-native-operations-shortcut.py:84-92 | After any number of steps of the flat list, what was started is a prefix of what the block does, and a halted list has the block's result. |
| ShortcutProperties.GroupsNest | scripts/build-native-operations-shortcut.py:61-62 | Every group of a flattened block closes last-in first-out. |
| OperationsBridge.Build | scripts/build-native-operations-shortcut.py:64-92 | The builder's loops emit exactly the flattened program. |
| OperationsGate.ProgramIsHonest | scripts/build-native-operations-shortcut.py:49-92 | For every request and every search result the program does exactly the mutations of the table `Wanted` and answers for them, or a prefix of them when an action reports an error. |
| OperationsGate.BranchesAsWanted | scripts/build-native-operations-shortcut.py:73-83 | Each emitted branch does what the table says, with the request's text or tag as input and the found note as target. |
| OperationsGate.ListIsHonest | scripts/build-native-operations-shortcut.py:64-92 | The same for the flat list at every moment, and every execution halts. |
| OperationsGate.AnswersLiterally | scripts/build-native-operations-shortcut.py:86-91 | Without errors a probe that passes the gate is answered with the READY text, the seven other operations with the DONE text, and everything else with the REFUSED text. |
| OperationsGate.EveryKeyIsRead | scripts/build-native-operations-shortcut.py:68-72 | The list reads every key of a request but the list of tags. |
| OperationsGate.MutationsAreGated | scripts/build-native-operations-shortcut.py:49-62 | A mutation is only ever started when the search found one note with the exact title and the scope in its body, on that note, in the requested operation's branch. |
| OperationsGate.RefusedMeansUntouched | scripts/build-native-operations-shortcut.py:90-91 | The answer REFUSED means that no mutation was started; without errors it is given exactly when the gate does not pass or the operation is unknown. |
| OperationsGate.ListIsWellBuilt | scripts/build-native-operations-shortcut.py:38-62 | Groups nest, and no reference is ever to an output that was not produced earlier on the executed path. |
| BridgeErrors.OneActionLater | scripts/build-native-operations-shortcut.py:84-92 | For every program without repeats: letting errors begin one action later starts at most one more mutation, and otherwise changes nothing. |
| BridgeErrors.EveryPrefixHappens | scripts/build-native-operations-shortcut.py:73-89 | The bound is tight: for every request, every beginning of what it stands for is left behind by some error. |
| BridgeErrors.AnErrorCanLeaveATag | scripts/build-native-operations-shortcut.py:81-82 | In a tag branch some error leaves a tag created that was added to no note. |
| BridgeErrors.NotCommittedIsTrueExactly | src/services/backgroundNotes.ts:512-541 | Under a "not committed" report no list that may have run has started anything if and only if the bridge was not run to an error exit or nothing is wanted on the found notes. |
| BridgeErrors.NotCommittedCanHideMutations | src/services/backgroundNotes.ts:526-541 | After an error exit that is reported as "not committed", in any operation, the same process, request and notes allow a list that has started any given number of the wanted mutations. |
| BridgeErrors.ReadbackCoversExactly | src/services/backgroundNotes.ts:526-541 | All that may have been started is on the note that was read back if and only if nothing is wanted, or the operation is no tag operation and the bridge found the note that was asked for. |
| BridgeErrors.AnErrorCanWriteToAnotherNote | src/services/backgroundNotes.ts:526-541 | A concrete request and search result whose append breaks after it was started on a note other than the one read back. |
| TagsBridge.Build | scripts/build-native-tags-shortcut.py:41-79 | The builder emits exactly the flattened program with its otherwise branch and its repeat. |
| TagsBridge.TagListIsHonest | scripts/build-native-tags-shortcut.py:50-79 | At every moment the list has started a prefix of: for each tag in order, create it and add it to the one found note. |
| TagsBridge.TagsChangeExactlyOneFound | scripts/build-native-tags-shortcut.py:61-79 | Without errors a note is changed exactly when one note was found and there is a tag; the refusal is given exactly when not one was found, and then nothing was started. |
| TagsBridge.EachTagIsAdded | scripts/build-native-tags-shortcut.py:63-72 | Without errors, for one found note each tag in order is created and then added to it, and nothing else. |
| TagsBridge.TagsKeepTheGateIff | scripts/build-native-tags-shortcut.py:63-66 | The stricter gate of exact title and scope is kept exactly when a single search result already passes it. |
| TagsBridge.TagsReachAnInexactTitle | scripts/build-native-tags-shortcut.py:63-72 | A concrete request whose title differs from the found note's and that tags it all the same. |
| TagsBridge.TagListIsWellBuilt | scripts/build-native-tags-shortcut.py:63-79 | Groups nest, and no reference is ever unbound. |
| NoteChecks.BelowTitleIsTheRest | src/services/backgroundNotes.ts:404-409 | Only a first line that is the title is left out, and a scope found below the title is found in the whole text. |
| NoteChecks.TrimExactly | src/services/backgroundNotes.ts:407-407 | Trimming takes white space off both ends, all of it, and nothing else. |
| NoteChecks.SpacesAre | src/services/backgroundNotes.ts:407-407 | The 25 characters that `String.prototype.trim` removes. |
| NoteChecks.SortKeepsAll | src/services/backgroundNotes.ts:414-414 | The sorted items are the items. |
| NoteChecks.SortIsStable | src/services/backgroundNotes.ts:414-414 | Items with one start keep their order. |
| NoteChecks.AcceptsExactLayouts | src/services/backgroundNotes.ts:412-429 | The check accepts if and only if the items are one group at the end of the note and follow one another. |
| NoteChecks.TwoItemsAtOneStart | src/services/backgroundNotes.ts:418-422 | Two items at one start have the layout and are refused. |
| NoteChecks.EmptyItemBehindABlankLine | src/services/backgroundNotes.ts:418-422 | So has an empty item behind a blank line. |
| NoteChecks.ProperListsNeedOnlyTheLayout | src/services/backgroundNotes.ts:412-429 | For nonempty single-line items at distinct starts the check accepts if and only if they are laid out as one group at the end. |
| NoteChecks.AppendedLinks | src/services/backgroundNotes.ts:554-569 | The greedy matching succeeds if and only if the multiset of expected signatures is included in that of the links after the previous ones. |
| BackgroundNotes.MutateBackground | src/services/backgroundNotes.ts:445-551 | The bridge runs exactly when the preflight is clear, once, followed by a read; success exactly when the pair verifies; "not committed" exactly for an unchanged note and a run that did not take place, refused, or exited with an error; all else stays open. |
| BackgroundNotes.ClearExactly | src/services/backgroundNotes.ts:452-490 | What the preflight comes to: the scope's length and characters, revision, completeness, the search's single result, the second read, and the checklist's end. |
| BackgroundNotes.NotCommittedExactly | src/services/backgroundNotes.ts:512-541 | What "not committed" needs: the same revision and pin, and a bridge that was not installed, refused, or ended by itself with a status other than 0. |
| BackgroundNotes.RunBackgroundShortcut | src/services/backgroundNotes.ts:241-312 | Which error a run carries: not installed, the process's own, or refused by its output. |
| BackgroundNotes.MarkIsTheRefusal | src/services/backgroundNotes.ts:296-296 | The mark is in the operations bridge's refusal, in none of its other answers, and in no answer of the tags bridge. |
| BackgroundNotes.MarkIsAWord | src/services/backgroundNotes.ts:296-296 | Text that ends in the mark says refused; directly before a letter, a digit or an underscore it does not. |
| BackgroundNotes.FixedKeys | src/services/backgroundNotes.ts:492-492 | No data of the caller overrides the operation, the title or the scope that the bridge gets. |
| BackgroundNotes.NamesAreDistinct | src/services/backgroundNotes.ts:492-492 | No two keys of a request have one name. |
| BackgroundNotes.DataPassesOn | src/services/backgroundNotes.ts:492-492 | Every other key of the caller's data reaches the bridge as it is. |
| BackgroundNotes.DataReachesTheNote | src/services/backgroundNotes.ts:452-496 | Each mutation that a clear request starts has the caller's text, tag or change as its input, of the kind that the operation stands for, on the found note. |
| BackgroundNotes.MutationsAreScoped | src/services/backgroundNotes.ts:452-496 | Every mutation that a clear request starts is of its operation and on the one note with the title read before and the scope in its body. |
| BackgroundNotes.RefusalIsRecognized | src/services/backgroundNotes.ts:290-308 | A run that exits normally is taken for refused if and only if the list answered with the refusal, and then it started no mutation. |
| BackgroundNotes.NotCommittedIsTrue | src/services/backgroundNotes.ts:512-541 | Under a "not committed" report the list has started a prefix of what is wanted, and that is empty unless an installed bridge exited with an error and the note reads unchanged; a run that was killed or timed out is never reported so. |
| Limiter.AnchorLimiter.RecentFailures | src/services/anchorServer.ts:82-87 | The pruned list is the peer's recent failures of the full history; other peers' lists stay. |
| Limiter.AnchorLimiter.Sweep | src/services/anchorServer.ts:105-106 | Afterwards every list is its peer's recent failures, and a peer without one is not kept. |
| Limiter.AnchorLimiter.Handle | src/services/anchorServer.ts:103-129 | Each decision is that of keeping every refused token for ever, and only a refused token enters the history. |
| Limiter.Serve | src/services/anchorServer.ts:89-144 | So for whole request sequences with a clock that does not go back. |
| Limiter.LimitedExactly | src/services/anchorServer.ts:82-129 | A request is answered 429 if and only if at least the limit of earlier requests of its peer were answered 401 less than 60,000 ms before; otherwise 401 if and only if the token is wrong. |
| Limiter.PruneTwice | src/services/anchorServer.ts:83-83 | Pruning early never changes a later pruning. |
| Limiter.NoWindowOverflows | src/services/anchorServer.ts:107-129 | No window of one minute, wherever it begins, holds more refused tokens of one peer than the limit. |
| Limiter.PeersAreIndependent | src/services/anchorServer.ts:79-87 | A peer gets the decisions it would get if the others sent nothing. |
| Drawing.MaskedRangeSamples | native/public-helper/apple-notes-public-helper.swift:149-155 | A masked range is sampled at its ends and at exactly the control points strictly between them, in order. |
| Drawing.EntriesOfStroke | native/public-helper/apple-notes-public-helper.swift:134-200 | An unmasked stroke gives one entry with all its control points, a masked one with points one for each range, and none exactly when it is hidden. |
| Drawing.WidthIsAMean | native/public-helper/apple-notes-public-helper.swift:170-190 | An entry's width lies between those of its samples. |
| Drawing.SamplesInPath | native/public-helper/apple-notes-public-helper.swift:152-154 | No sampled control point lies outside the path. |
| Drawing.KeepSamples | native/public-helper/apple-notes-public-helper.swift:159-200 | Count, width and points of an entry are those of exactly the samples kept, as many as the budget allows. |
| Drawing.DecodeDrawing | native/public-helper/apple-notes-public-helper.swift:125-213 | The result begins the unlimited decode, its last entry possibly cut to a nonempty prefix; it respects both limits; truncated if and only if something is left out, and then a limit is used up; the hidden strokes counted are those before the stroke in which it stopped. |
| Drawing.HiddenAreCounted | native/public-helper/apple-notes-public-helper.swift:137-140 | The hidden count is the number of strokes that are masked and have no range or no point. |
| Drawing.ResultPoints | native/public-helper/apple-notes-public-helper.swift:165-200 | The points that the limit counts are the points in the result. |
| Drawing.StopsInOne | native/public-helper/apple-notes-public-helper.swift:143-148 | The stroke in which a truncated decode stopped is determined by its result. |
| BrokerSetup.Host.StopBroker | src/services/broker.ts:530-586 | Success exactly when one of the first 20 probes ends by itself with status 113 and the service's own diagnostic, and all before it ended with 0; the calls are those probes. |
| BrokerSetup.StoppingIsBounded | src/services/broker.ts:546-573 | At most 20 probes, one wait between any two, none after the last. |
| BrokerSetup.Host.RemoveBroker | src/services/broker.ts:589-650 | Only known artifacts go, and nothing is written, though a removal of the app that throws may leave a part of it; success means all of them are gone; and comes exactly when each of them can be removed and the directory is removed, kept or absent; the manifest, the link or the directory goes only when everything else is gone. |
| BrokerSetup.WhatIsRemoved | src/services/broker.ts:614-624 | Which artifacts that is: the five of an installation, or behind a link the agent, the app, the log and the link itself. |
| BrokerSetup.Host.InstallBroker | src/services/broker.ts:713-1000 | Without a confirmed stop no installed artifact changes; the manifest is touched only when the new app is in place, the agent only when the new manifest is; the app is untouched, gone, new, or the part that its failed removal left; staging is gone unless its removal failed. |
| BrokerSetup.Host.SetupBroker | src/services/broker.ts:664-1001 | In every mode and for every result of every command, each removal or write of something installed comes after a confirmed absence; a report has no failed step if and only if nothing that the mode needs fails, and then what it needs is in place or gone; only an installation can leave staging behind, and then it threw or the removal did nothing. |

## Left out

- Stale locks: breaking a lock older than 30 seconds (src/services/anchorRegistry.ts:295-302) is a separate stat and unlink; exclusion is proved with that step disabled, and a crashed holder's lock stays.
- Serialised bytes: JSON, plists and Unicode are abstract; the registry's codec is any pair that round-trips. A saved registry is taken to stay under the byte limit that only loading checks.
- Timers: they are events that may come at any moment; only the limiter has a clock. Poll timeouts and sleeps have no duration.
- Write callbacks and drains never come inside the call of `write` in this model, so the re-entrancy guard `pumping` of src/services/brokerProxy.ts:280-282 has nothing to do; a write that throws never calls back.
- BrokerProxy.RelayBroker.Read: the offset into a used-up leftover is reset to zero, which the source leaves at its old value; no read can tell.
- The stdin direction of the proxy (`stdin.pipe`), file descriptor plumbing, `posix_spawn` and process-group creation are steps with the answers the code distinguishes.
- A child's pipe reports its end only after all of its output was read, as pipes do.
- Shortcuts: its "is" comparison is taken as equality of texts and "contains" as a literal part; `uid` is taken to give different labels different identifiers. How Shortcuts shows a value that is no text is a parameter.
- Parameters of the bridges' actions that do not select, gate or feed a mutation (descriptors, comments, `OpenWhenRun`) are not in the action language.
- BackgroundNotes.MutateBackground: an error of a read or of the search is passed on as a plain error; `verify` is a predicate on the two snapshots and the messages of errors are not modelled; `assertPreserved` and the callers' verifiers are not part of this model.
- BackgroundNotes.NotCommittedIsTrue: the source claims that nothing was written; that is false after an error exit, and `BridgeErrors.NotCommittedIsTrueExactly` has the exact condition.
- NoteChecks: `linkSignature` and `htmlLinks` are opaque; `validateAppendContent` and the Markdown tables are patterns with little to prove.
- Limiter.AnchorLimiter.Handle: the clock does not go back; the source's `Date.now()` could.
- Drawing.KeepSamples: rounding to two decimals, colours, transforms and bounds are left out; widths are exact reals.
- BrokerSetup: building, signing and the manifest's contents are checks that pass or fail, and so is an error of a file operation before the stop, which the source throws; `finish` inspects and pings only to report.
- RegistryUpdates.IdsStayUnique: that drawn ids are new is a hypothesis, because the source draws them at random.
- The remaining tools, the SwiftUI window, PencilKit and Speech calls, HTTP plumbing and configuration would only add easy members.
