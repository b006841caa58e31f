# NekoChat: a verified model

NekoChat is a peer-to-peer chat program for Windows: peers find each other through a small TCP signalling server, test
address pairs with an ICE agent, and then send text, voice, screen pictures and files to each other over UDP. Its hard
parts are protocols and buffers written by hand. This project states what they do in Dafny and proves properties that
span many calls, many messages or whole runs.

| part | modules |
|---|---|
| Reliable file transfer over UDP: packets, receiver tables, stop-and-wait sender, any number of clients on a lossy network | `FilePackets`, `FileReceiver`, `FileMemory`, `FileEndpoint`, `FileSender`, `FileNetwork`, `FileSafety`, `FileDelivery`, `FileOutcomes` |
| ICE agent: pair formation, ranking, batches, retries, matching of responses, selection | `IcePairs`, `IceChecks`, `IceSafety`, `IceRuns`, `IceProgress`, `IceAgent` |
| STUN messages, built and parsed (RFC 5389) | `Stun`, `Datagrams` |
| Playback: queues per source, twelve output buffers, prime, underrun and rebuffer | `Playback`, `PlaybackRuns`, `PlaybackTurns` |
| Echo suppression: eight-lane kernels, choice of the three best references | `EchoKernels`, `BestMatch` |
| Signalling: framing, registry, relaying, candidate text | `Framing`, `SignallingServer`, `SignallingClient`, `SignallingRuns`, `SignallingAnswers`, `CandidateText` |
| Screen pictures, cut up and put together again | `ScreenFrames`, `ScreenRuns` |
| Shared: bytes, decimal text, options | `Bytes`, `Decimal`, `Wrappers` |

Where the program updates objects in place, a class does the same (`FileEndpoint.FileTransfers`, `IceAgent.Agent`,
`Playback.Engine`, `ScreenFrames.ScreenReceiver`, `Framing.LineReader`, `SignallingServer.Server`), and each method's
contract equates the new state with a function of the old one. Theorems over runs are about those functions: a run is a
sequence of steps, a step that is not enabled changes nothing, and timeouts, socket answers, disk errors (a close that
loses bytes among them), clocks and user decisions are arguments of the steps. In `FileNetwork` the wire is the growing
set of packets ever sent, so a loss is a packet never delivered, and duplication and reordering are deliveries at any
time. Fields that only observe (`History`, `sent`, `notices`, `made`, `events`, `pushed`, `played`, `trimmed`) hold what
the theorems speak about and decide nothing.

Some laws turned out to hold only under a condition. Each condition is proved exact for all inputs, and what breaks the
law is shown:

- The vector kernels equal the scalar sums exactly when no aligned pair of the eight-lane part has all four factors at
  -32768 (`EchoKernels.KernelIsExactIff`, `LoudestFrameGoesNegative`).
- However `recv` cuts a stream into packets of 1 to 2047 bytes, the client's lines are the same exactly when nothing but
  NUL follows a NUL (`Framing.ClientIgnoresFragmentationIff`).
- A peer's pictures are never mixed exactly when every splice of its frames, chunk by chunk among frames with the same
  header, is itself a frame it sent (`ScreenRuns.NeverMixedIff`). Frames that differ in number, chunk count or size meet
  that (`NeverMixed`); they need not differ (`LastChunkMayDiffer`), but two frames with one header can break it
  (`SameHeadersAreMixed`).
- A file packet is taken for STUN exactly when four of its header bytes spell the magic cookie
  (`FilePackets.LooksLikeStunIff`); no packet of a sender within the size limit does, a forged index can
  (`ForgedIndexLooksLikeStun`).
- A removed connection is found again exactly when it registers once more after the removal
  (`SignallingRuns.RemovedIsUnreachable`), which commands still in its buffer can do (`RemovedRegistersAgain`).
- A file reported as sent is stored whole exactly when the completing close lost no byte of it
  (`FileSafety.SentMeansStored`); the program does not check that close (P2PChat.cpp:1431, `FileReceiver.LostByteIsAcknowledged`).
- The STUN scans want bytes behind the datagram exactly when it ends too early behind whole attributes without a usable
  address (`Stun.OverrunIff`), which can happen under a truthful header length (`AttributeBehindTheEnd`).

`dafny verify dfyconfig.toml` checks the whole project.

## Model

| member | source | states |
|---|---|---|
| Bytes.NetworkOrder64 | P2PChat.cpp:58-68 | The two halves are swapped and byte-swapped, so memory holds the big-endian 64-bit value, and NetworkToHost64 undoes HostToNetwork64 for every value |
| FilePackets.DecodeBody | P2PChat.cpp:1239-1300 | Parsing undoes building for every packet that fits its header fields; the only packets dropped are metadata that break the receiver's limits |
| FilePackets.DecodeFits | P2PChat.cpp:1284-1293 | Whatever arrives, a packet that is not dropped fits the header fields and obeys the limits |
| FilePackets.LooksLikeStunIff | IceAgent.cpp:592-593 | A packet is taken for STUN exactly when it is metadata or data of at least 20 bytes, its transfer id ends in 0x2112 and its chunk count or index begins with 0xA442 |
| FilePackets.FilePacketIsNotStun | IceAgent.cpp:592-649 | No file packet a sender within the size limit can build meets that condition, whatever its transfer id and payload, so the receiving agent takes it for a file packet |
| FilePackets.ForgedIndexLooksLikeStun | IceAgent.cpp:592-593 | An input: the data packet with transfer id 0x2112 and chunk index 0xA4420000 is taken for STUN, although its fields fit |
| FilePackets.IncomingFileKeyInjective | P2PChat.cpp:641-643 | Different peers or transfer ids never share a key, even when the peer id contains `#` |
| FilePackets.FileAckKeyInjective | P2PChat.cpp:645-648 | Different transfers or chunk indices never share an acknowledgement key |
| FilePackets.ChunksRebuildFile | P2PChat.cpp:1167-1197 | Chunk after chunk the sender's pieces make up the file, and the announced count covers all of it, one chunk even for an empty file |
| FileReceiver.HandlePacketKeepsTables | P2PChat.cpp:1276-1460 | After any metadata or data packet a key is in at most one table, and every running transfer has written exactly min(total size, 1024 times its chunk count so far) |
| FileReceiver.AcceptKeepsTables | P2PChat.cpp:1055-1080 | Accepting a prompt keeps the same invariant |
| FileReceiver.DeclineKeepsTables | P2PChat.cpp:1082-1101 | Declining a prompt keeps the same invariant |
| FileReceiver.CleanupKeepsTables | P2PChat.cpp:806-867 | The expiry sweep keeps the same invariant |
| FileReceiver.HandlePacketKeepsQueue | P2PChat.cpp:1325-1346 | The prompt queue stays free of duplicates, oldest first, and mirrors the pending table; this needs the sweep that runs before |
| FileReceiver.PopIsOldestStillPending | P2PChat.cpp:1039-1049 | A popped prompt is still pending, is the oldest such one, and no other pending one is lost; nothing comes out exactly when no queued prompt is pending |
| FileReceiver.OtherDataOnlyRefreshes | P2PChat.cpp:1368-1404 | A data packet that is not exactly the awaited chunk changes nothing but a refresh time, and acknowledges only what was accepted before |
| FileReceiver.LastChunkCompletes | P2PChat.cpp:1427-1458 | The chunk that fills the announced count completes the transfer exactly when 1024 times the count covers the announced size; what is stored is the content less what the close lost |
| FileReceiver.LostByteIsAcknowledged | P2PChat.cpp:1427-1453 | An input: a close that loses the only byte of a file is acknowledged and finalized all the same |
| FileReceiver.ShortCountNeverCompletes | P2PChat.cpp:1427-1428 | A transfer whose count does not cover its size never completes, whatever is delivered |
| FileMemory.RefusalIsRemembered | P2PChat.cpp:1082-1101 | Over every sequence of events: after the user refused a pending request, and while no sweep comes more than 45 seconds after its last packet, every metadata or data packet of it is answered with a rejection, and it is not pending, prompted, entered or stored anew |
| FileMemory.SilenceEndsRefusal | P2PChat.cpp:860-866 | After more than 45 seconds of silence its metadata is a new request |
| FileMemory.RequestWaits | P2PChat.cpp:1325-1346 | A pending request lasts while its metadata comes within 60 seconds, unanswered, and stays queued until a poll hands it out |
| FileMemory.TakenRequestBegins | P2PChat.cpp:1055-1080 | A pending request the user takes begins as announced, empty, and is acknowledged; if the file cannot be opened it waits on |
| FileMemory.TransferIsKept | P2PChat.cpp:812-825 | A running transfer whose packets come within 20 seconds is not lost while the disk works: it runs until it is complete |
| FileMemory.DiskErrorEndsTransfer | P2PChat.cpp:1414-1443 | A chunk the disk refuses, or a file that cannot be renamed, ends the transfer unanswered, with nothing stored |
| FileMemory.FinishedIsRemembered | P2PChat.cpp:827-834 | A finished transfer is remembered for 30 seconds after its completion, whether or not its packets come again |
| FileMemory.DoneAnswers | P2PChat.cpp:1309-1313 | Meanwhile its metadata and every chunk in range are acknowledged again, and nothing changes |
| FileMemory.PollForgets | P2PChat.cpp:806-867 | The four periods are 20, 30, 60 and 45 seconds: a sweep forgets exactly what is older and keeps the rest as it is |
| FileMemory.StopForgets | P2PChat.cpp:869-885 | After a stop every transfer is forgotten, stored files stay, and any metadata is a new request |
| FileEndpoint.EraseExpired | P2PChat.cpp:812-845 | The erase-while-iterating loop leaves exactly the entries within their lifetime |
| FileEndpoint.RemoveStale | P2PChat.cpp:846-857 | The queue keeps exactly the prompts still pending, in order |
| FileEndpoint.FileTransfers.CleanupFileTransfersLocked | P2PChat.cpp:806-867 | The sweep in place is the specified sweep |
| FileEndpoint.FileTransfers.BeginIncomingFileTransferLocked | P2PChat.cpp:768-804 | A transfer is entered only if its stream opens, empty and waiting for chunk 0 |
| FileEndpoint.FileTransfers.HandleMetaLocked | P2PChat.cpp:1301-1354 | The metadata branch, table by table, and its answer |
| FileEndpoint.FileTransfers.HandleDataLocked | P2PChat.cpp:1368-1459 | The data branch with its failures of write and rename and a close that loses bytes unnoticed, and its answer |
| FileEndpoint.FileTransfers.HandleIncomingFilePacket | P2PChat.cpp:1239-1275 | Acknowledgements and rejections only feed the waiting sets; everything else is handled after a sweep |
| FileEndpoint.FileTransfers.PopPendingFilePrompt | P2PChat.cpp:1039-1049 | Sweep, then the front of the queue |
| FileEndpoint.FileTransfers.AcceptPendingFilePrompt | P2PChat.cpp:1055-1080 | Only a pending prompt whose stream opens becomes an incoming transfer and is acknowledged |
| FileEndpoint.FileTransfers.DeclinePendingFilePrompt | P2PChat.cpp:1082-1101 | Only a pending prompt is moved to the rejected table and answered |
| FileEndpoint.FileTransfers.WaitForFileAck | P2PChat.cpp:1011-1037 | Stop beats rejection, rejection beats acknowledgement, and each outcome consumes exactly its own entries |
| FileEndpoint.FileTransfers.CleanupFileTransfersOnStop | P2PChat.cpp:869-885 | Everything but the finished files is forgotten |
| FileSender.SendPacketWithAck | P2PChat.cpp:1103-1123 | The retry loop ends within its attempts with the outcome the step machine reaches |
| FileSender.SendChunk | P2PChat.cpp:1188-1222 | One chunk is read and sent with at most ten attempts |
| FileSender.SendChunks | P2PChat.cpp:1187-1236 | Chunks go out in order; success is reported only after the last one was acknowledged while running |
| FileSender.SendFileWorker | P2PChat.cpp:1125-1237 | Too large a file is never announced; otherwise the worker ends as the step machine does, within 40 + 10 * chunks attempts |
| FileSender.WorkerAlwaysStops | P2PChat.cpp:1103-1236 | Whatever network, disk, peer and user do, the worker finishes and hands the socket at most 40 + 10 * chunks packets |
| FileSender.ResultHasCause | P2PChat.cpp:1103-1236 | In every script a worker that is not stopped gives an item up only after 40 attempts for the metadata or 10 for a chunk, reports a refusal only if one came in, and success only after an attempt for every packet |
| FileSafety.StepKeepsInv | P2PChat.cpp:1011-1460 | Every step of any client, worker, user or packet keeps the invariant of the whole system |
| FileSafety.ReachableInv | P2PChat.cpp:1011-1460 | The invariant holds after any run of any number of clients under loss, duplication and reordering |
| FileSafety.WrittenIsPrefix | P2PChat.cpp:1405-1425 | In every run the bytes written for a transfer are the prefix of that sender's own file, and every finalized file is some sender's file less exactly what its close lost |
| FileSafety.SentMeansStored | P2PChat.cpp:1223-1236 | In every run a send reported successful has its file finalized at the receiver, whole exactly if the completing close lost no byte (or the file is empty) |
| FileSafety.AcksAreSound | P2PChat.cpp:996-1037 | An acknowledgement on the wire or taken in stands for a chunk accepted or a transfer begun; metadata and data acknowledgements never coincide |
| FileSafety.Lockstep | P2PChat.cpp:1187-1222 | While the sender is on chunk k the receiver waits for chunk k or k + 1 or has completed, unless it lost the transfer |
| FileSafety.ApprovalBeforeBytes | P2PChat.cpp:1325-1354 | In every run a key is in at most one table, and with approval required nothing is held or stored under a key that no successful acceptance has named |
| FileSafety.EntersOnlyByAccept | P2PChat.cpp:1055-1080 | With approval required a transfer enters the table of running ones only in the step in which the user accepts it while it is pending, each time it enters |
| FileDelivery.GettingThroughAdvances | P2PChat.cpp:1103-1123 | One attempt whose packet is delivered and welcome and whose answer comes back moves the sender on, whatever else happens meanwhile |
| FileDelivery.FairTransferSucceeds | P2PChat.cpp:1175-1236 | If every packet has one attempt that gets through and the transfer is neither rejected, evicted nor stopped, the sender reports success and the receiver has stored the file, whole if no close lost bytes |
| FileDelivery.QuietRoundGetsThrough | P2PChat.cpp:1103-1123 | Those conditions can be met from every state with attempts left and a receiver that welcomes the transfer |
| FileOutcomes.WaitEnds | P2PChat.cpp:1011-1037 | In every reachable state the end of a wait is decided by the stop, the rejection and the acknowledgement, in that order, and takes away exactly its own entries |
| FileOutcomes.RejectionEndsSend | P2PChat.cpp:1176-1184 | In every run a rejection delivered to a running client whose worker waits ends that send as declined at the worker's next step, whatever happens in between and whether or not an acknowledgement is there too |
| FileOutcomes.RefusalIsSent | P2PChat.cpp:1082-1101 | In every run the user's refusal of a pending request puts that rejection on the wire |
| FileOutcomes.RunIsEvents | P2PChat.cpp:1011-1460 | The receiver of every client after any run of the network is what some sequence of those events makes of it |
| IcePairs.RankedByPlace | IceAgent.cpp:34-86 | The 64-bit priority puts pairs in exactly this order: hosts on one subnet, two reflexive candidates, hosts with private addresses, other hosts, a host and a reflexive candidate, hosts with a link-local one; within a class one subnet first, then a local host |
| IcePairs.PairKeyInjective | IceAgent.cpp:443-447 | For addresses without a colon the pair key names both addresses and both ports |
| IcePairs.PairUpAdds | IceAgent.cpp:238-283 | The nested loops add exactly the missing combinations behind the pairs that are there |
| IcePairs.StableSortSorts | IceAgent.cpp:268-273 | Sorting permutes the pairs into descending priority |
| IcePairs.SameKeysSamePriorities | IceAgent.cpp:460-463 | Two sorted lists over the same keys list the same priorities in the same order |
| IceAgent.Agent.SendBindingRequest | IceAgent.cpp:481-537 | The old pending entry goes, a fresh transaction id is filed under the pair only if the send succeeds |
| IceAgent.Agent.StartNextBatch | IceAgent.cpp:311-349 | The batch loop starts waiting and failed pairs in order up to the limit and reports exhaustion as specified |
| IceAgent.Agent.CheckPairTimeouts | IceAgent.cpp:539-583 | The sweep retries or fails each timed-out pair and then starts up to two more |
| IceAgent.Agent.Process | IceAgent.cpp:835-845 | Nothing happens before the start or after success |
| IceAgent.Agent.PairRowFrom | IceAgent.cpp:247-262 | The inner loop with its set of seen keys adds exactly the missing combinations of one local candidate |
| IceAgent.Agent.PairUpFrom | IceAgent.cpp:246-263 | The outer loop does so for every local candidate |
| IceAgent.Agent.AddNewPairsIncremental | IceAgent.cpp:238-283 | New pairs are sorted in, and the batch position goes back to the start, only if any were added |
| IceAgent.Agent.AddLocalCandidate | IceAgent.cpp:170-207 | A known address is ignored; a new one is paired at once while checks run |
| IceAgent.Agent.AddRemoteCandidate | IceAgent.cpp:209-236 | The same for remote candidates |
| IceAgent.Agent.FormPairs | IceAgent.cpp:436-467 | Pairs are formed from scratch and sorted |
| IceAgent.Agent.StartConnectivityChecks | IceAgent.cpp:285-309 | Without candidates on both sides nothing starts; otherwise pairs are formed and four checks begin |
| IceAgent.Agent.HandleStunResponse | IceAgent.cpp:664-754 | A response consumes its pending entry and selects its pair only if it carries an address and nothing was selected yet |
| IceAgent.Agent.SetPairSucceeded | IceAgent.cpp:785-799 | An outside success selects only if nothing was selected yet |
| IceAgent.Agent.Cancel | IceAgent.cpp:801-833 | Everything is forgotten |
| IceRuns.ReachableInv | IceAgent.cpp:170-845 | Every sequence of public calls, with any answers of the socket and any sort, keeps the invariant |
| IceRuns.StateBetweenCalls | IceAgent.cpp:539-583 | Between calls success leaves nothing in progress or pending, without success nothing has succeeded, and retry counts stay within the limit |
| IceRuns.ExhaustionMeansNoneWaiting | IceAgent.cpp:340-347 | Checks never stall while a pair waits, and exhaustion is reported only when none does |
| IceRuns.RequestBudget | IceAgent.cpp:311-349 | From a start until a candidate is added, at most (1 + retries) requests per pair are sent |
| IceRuns.ResponseSelectsRequestedPair | IceAgent.cpp:684-748 | Response-driven success selects the socket and remote of a formed pair to which exactly that request was sent |
| IceRuns.UnmatchedResponseSelectsNothing | IceAgent.cpp:699-703 | A response no live pair asked for changes no pair and selects nothing |
| IceRuns.SelectionStays | IceAgent.cpp:731-748 | A selection stays, and no second callback fires, until restart or cancel |
| IceRuns.ConnectedAtMostOnce | IceAgent.cpp:731-748 | Since the last start the success callback fired at most once |
| IceRuns.OnePairPerCombination | IceAgent.cpp:436-467 | While checks run there is exactly one pair per combination of candidates, with its socket and rank, sorted by priority |
| IceRuns.IncrementalMatchesScratch | IceAgent.cpp:238-283 | Adding candidates one at a time reaches the keys and priorities that forming from scratch would |
| IceRuns.AddingKeepsPairs | IceAgent.cpp:238-283 | Pairs already there are kept with their state |
| IceProgress.LostRequestIsRepeated | IceAgent.cpp:539-583 | In every run a tick leaves a pair with time as it is, sends a request unanswered for over two seconds again under a new pending transaction id up to three times, and gives a pair up only then; without one given up it changes nothing else |
| IceProgress.TickSweepsThenRefills | IceAgent.cpp:546-582 | A tick does that to every pair, and then sends up to two more requests exactly if it gave one up |
| IceProgress.NextBatchTurns | IceAgent.cpp:311-349 | A batch takes waiting and failed pairs in order until its number of requests is sent or the list ends, starts failed ones over, leaves all others alone, and reports exhaustion exactly when it sent nothing and reached the end |
| IceProgress.StartFillsBatch | IceAgent.cpp:285-309 | Checks start with the four best pairs that can be sent to, or with every pair tried |
| IceProgress.LateCandidateIsTried | IceAgent.cpp:170-236 | A candidate with a new address joins its list, its pairs wait beside the others and up to two are tried from the best on; one with a known address changes nothing |
| IceProgress.AnswerSelects | IceAgent.cpp:664-799 | In every run an answer with an address to the request a pair waits for selects and reports that pair's path; without one it only ends the request; an outside success selects unreported |
| IceProgress.CancelledIsQuiet | IceAgent.cpp:801-833 | After a cancel nothing is sent, selected or reported until a start |
| Stun.Xor32Twice | STUN.hpp:169-171 | Masking an address twice with the cookie gives it back |
| Stun.ScanFindsFirst | STUN.hpp:149-202 | On attributes that tile the message the scan finds exactly the first usable one and never leaves the datagram |
| Stun.OverrunIff | STUN.hpp:147-203 | A scan reads behind the datagram exactly when, behind whole attributes without a usable address, fewer bytes are left than the next read needs |
| Stun.AttributeBehindTheEnd | STUN.hpp:151-160 | An input: both scans read behind a datagram whose header length is right, because its attribute claims eight bytes that are not there |
| Stun.ParseIsFirstAddress | STUN.hpp:136-203 | A well-formed answer yields what its first usable attribute says, and only under the expected transaction id |
| Stun.AddressRecovered | STUN.hpp:149-203 | The encoded address is recovered past any well-formed padded attributes the parser does not use (section 15.2 of RFC 5389) |
| Stun.RequestAnswered | IceAgent.cpp:756-783 | A request is classified as STUN, answered under its own transaction id, and both parsers read the asker's address from the answer |
| Stun.MaskedAddressDecides | IceAgent.cpp:711-729 | The agent's scan accepts a well-formed answer exactly when it carries a masked IPv4 address |
| Stun.BuildBindingRequest | STUN.hpp:123-133 | The buffer holds the 20-byte request of section 6 of RFC 5389 |
| Stun.SendStunResponse | IceAgent.cpp:756-783 | The buffer, filled piece by piece in network order, is the well-formed answer with one XOR-MAPPED-ADDRESS |
| Stun.ParseBindingResponse | STUN.hpp:136-203 | The pointer loop computes the specified scan and stores port and address in network order |
| Stun.FindsMaskedAddress | IceAgent.cpp:705-729 | The agent's loop computes the scan for masked addresses |
| Playback.Engine.CleanupIdleSources | AudioEngine.hpp:916-924 | Exactly the empty sources not heard for three seconds go |
| Playback.Engine.PlayFrameFromSource | AudioEngine.hpp:489-534 | A frame is padded and queued behind a trimmed queue |
| Playback.Engine.MaxBuffered | AudioEngine.hpp:926-932 | The result is the length of the longest queue, and decides whether playback may start |
| Playback.Engine.AcquireFreeOutputBuffer | AudioEngine.hpp:953-961 | The lowest free buffer is taken, if there is one |
| Playback.Engine.MixNextFrame | AudioEngine.hpp:855-906 | In whatever order the table is walked, every source gives its oldest frame, and contributors are counted exactly |
| Playback.Engine.PlaybackTurn | AudioEngine.hpp:777-853 | One turn of the worker: prime, mix, count underruns, conceal, fall silent or go back to buffering |
| Playback.Engine.Submit | AudioEngine.hpp:1741-1760 | A refused buffer is free again, an accepted one belongs to the device |
| Playback.Engine.Release | AudioEngine.hpp:1762-1768 | A done event frees its buffer |
| PlaybackRuns.QueuesAreSuffixes | AudioEngine.hpp:489-534 | In every run a queue holds at most 18 frames and is the end of what was pushed; pushed = played + dropped + buffered, and frames are played once, in order |
| PlaybackRuns.TrimmedOnlyWhenFull | AudioEngine.hpp:507-515 | Frames are dropped only by a push to a full queue, twelve at a time, never the newest six |
| PlaybackRuns.BuffersConserved | AudioEngine.hpp:777-853 | In every run each of the twelve buffers is free, in the worker's hand or with the device, and in one place only |
| PlaybackRuns.NeverRewrittenBeforeDone | AudioEngine.hpp:1741-1768 | Between two writes of a buffer lies its done event |
| PlaybackRuns.ShortDryRuns | AudioEngine.hpp:822-850 | At most eleven frames in a row are made without a source frame, at most two of them concealment |
| PlaybackRuns.TurnTakesOldest | AudioEngine.hpp:855-893 | In every run a turn that takes a buffer takes the oldest frame of each source that has one; the source goes only if that was its last and it is idle, and nothing is taken from the others |
| PlaybackRuns.FirstTurnMixes | AudioEngine.hpp:784-813 | The first turn after buffering makes a mixed frame, every source with a frame gives its oldest, and some source keeps at least five |
| PlaybackTurns.PacketIsQueued | AudioEngine.hpp:489-534 | The first 960 bytes of a packet's whole samples, filled up with silence, become the newest frame of its source; its earlier frames, other sources and everything else stay, but for empty sources unheard for three seconds |
| PlaybackTurns.TurnMakes | AudioEngine.hpp:777-853 | In every run a turn acts exactly when a buffer is free and playback runs or a source has six frames; then it mixes if any source has a frame, else goes back to buffering at the twelfth dry frame, else repeats at most twice and then falls silent |
| PlaybackTurns.SubmittedIsWritten | AudioEngine.hpp:1741-1760 | In every run a submitted buffer goes to the device, or is free again if refused |
| PlaybackTurns.DoneIsFree | AudioEngine.hpp:1762-1768 | In every run the device's done event frees its buffer and no other |
| EchoKernels.MaddWrapsOnce | AudioEngine.hpp:1012-1013 | The 32-bit multiply-add wraps only when all four factors are -32768 |
| EchoKernels.SignExtends | AudioEngine.hpp:1014-1016 | Interleaving a lane with its sign word widens it to 64 bits |
| EchoKernels.ComputeDotProduct | AudioEngine.hpp:998-1031 | For every length the kernel is the dot product less 2^32 per aligned all-lowest pair of its eight-lane part; no other intermediate overflows |
| EchoKernels.ComputeFrameEnergy | AudioEngine.hpp:963-997 | The same for the energy |
| EchoKernels.ComputeDotProductScalar | AudioEngine.hpp:1024-1030 | The build without vector instructions gives the sum itself |
| EchoKernels.KernelIsExactIff | AudioEngine.hpp:998-1031 | The two builds agree exactly when no aligned pair of the eight-lane part is all-lowest |
| EchoKernels.LoudestFrameGoesNegative | AudioEngine.hpp:963-997 | Eight samples at -32768 make the vector build's energy negative |
| BestMatch.WinnersAreTopThree | AudioEngine.hpp:1296-1340 | The scan keeps the best qualifying references, best first, earlier ones winning ties, every other one behind all three |
| BestMatch.CountTopThree | AudioEngine.hpp:1296-1340 | It keeps three, or all of them if there are fewer |
| BestMatch.TopThreeIsUnique | AudioEngine.hpp:1296-1340 | Only one list satisfies that description |
| BestMatch.FindBestMatches | AudioEngine.hpp:1296-1340 | The in-place insertion leaves exactly those references as a valid prefix of the slots |
| BestMatch.BestMatchesAre | AudioEngine.hpp:1296-1340 | The slots hold the figures of references with energy 8000000 or more and correlation at least 0.72 of the threshold, by falling score; any other such reference finds all three taken by scores as high |
| BestMatch.Place | AudioEngine.hpp:1326-1338 | One reference goes to the first empty or worse slot and moves the later ones back |
| ScreenFrames.SendScreenFrame | P2PChat.cpp:1512-1560 | A picture of 1 to 512 chunks goes out as its chunks in order, anything else not at all |
| ScreenFrames.ScreenPacketIsNotStun | IceAgent.cpp:592-649 | No screen packet is taken for STUN |
| ScreenFrames.ScreenReceiver.EraseExpired | P2PChat.cpp:1589-1595 | Exactly the assemblies silent for over five seconds go |
| ScreenFrames.ScreenReceiver.HandleIncomingScreenChunk | P2PChat.cpp:1562-1627 | One chunk updates its peer's assembly, replaces it on any header change, and completes it when all chunks are there |
| ScreenRuns.ReadChunkBody | P2PChat.cpp:1539-1549 | Reading undoes building for every chunk a sender can send |
| ScreenRuns.NeverMixedIff | P2PChat.cpp:1597-1624 | Whatever order, loss, repetition, and whatever others send: all pictures shown for a peer are ones it sent in every run, exactly when every chunk-by-chunk splice of its frames under one header is a frame it sent |
| ScreenRuns.NeverMixed | P2PChat.cpp:1597-1624 | So frames told apart by their headers are never mixed |
| ScreenRuns.SameHeadersAreMixed | P2PChat.cpp:1535-1545 | An input: two frames with equal number and size are joined into a picture nobody sent |
| ScreenRuns.LastChunkMayDiffer | P2PChat.cpp:1535-1545 | An input the other way: two frames with one header that differ in their last chunk only are never mixed |
| ScreenRuns.AllChunksShowFrame | P2PChat.cpp:1597-1627 | All chunks of a frame in any order with repeats, no other frame of that peer between them and no expiry, show the frame |
| ScreenRuns.SilenceStartsOver | P2PChat.cpp:1589-1612 | After more than five seconds without a chunk of the peer collecting starts over, and other peers keep exactly what is younger |
| Framing.LineReader.NextLine | SignallingServer.hpp:189-193 | find, substr and erase take off exactly the first complete line |
| Framing.LineReader.ReceiveAtServer | SignallingServer.hpp:180-204 | One packet yields the commands of the lines it completes and leaves the rest buffered |
| Framing.LineReader.ReceiveAtClient | SignallingClient.hpp:132-151 | The same at the client, which appends each packet as a C string |
| Framing.LinesLoseNothing | SignallingServer.hpp:189-193 | Lines and rest together give the stream back |
| Framing.ServerIgnoresFragmentation | SignallingServer.hpp:189-203 | However TCP cuts the stream, the server sees the same commands |
| Framing.ClientIgnoresFragmentationIff | SignallingClient.hpp:130-151 | All cuttings of a stream into packets of 1 to 2047 bytes leave the client with the same lines and buffer exactly if only NUL follows a NUL |
| Framing.ClientReadsWhole | SignallingClient.hpp:132-151 | A stream without NUL is cut into exactly its lines |
| CandidateText.ReadBackIff | P2PChat.cpp:1934-1973 | A candidate is read back as written exactly when its addresses have 1 to 63 characters, no colon, no NUL and no leading white space |
| CandidateText.ParsedIsReadable | P2PChat.cpp:1934-1973 | Whatever the text, only such addresses and 16-bit ports are ever read |
| CandidateText.ColonsAreLost | P2PChat.cpp:1938-1945 | An IPv6 address does not survive |
| SignallingServer.Server.Accept | SignallingServer.hpp:158-166 | A new connection starts unregistered |
| SignallingServer.Server.RegisterAs | SignallingServer.hpp:216-235 | An id is refused only if another connection holds it; otherwise the old id is given up and the new one taken |
| SignallingServer.Server.RemoveClient | SignallingServer.hpp:375-404 | The id is given up if it is still this connection's, and the connection leaves the list |
| SignallingServer.Server.FindClientById | SignallingServer.hpp:340-348 | The lookup finds the connection mapped under the id |
| SignallingServer.Server.ListUsers | SignallingServer.hpp:295-318 | The list holds exactly the ids that lead to other connections |
| SignallingServer.Server.ProcessLine | SignallingServer.hpp:209-337 | Every command changes the registry and answers as specified |
| SignallingRuns.ReachableInv | SignallingServer.hpp:209-250 | Every interleaving of arrivals, commands and removals keeps the registry's invariant |
| SignallingRuns.TableAgreesWithRecords | SignallingServer.hpp:216-235 | At every moment an entry points to a connection registered under that id, and a registered connection is found under its own id and no other |
| SignallingRuns.MappedIff | SignallingServer.hpp:216-235 | In every run an id leads to a connection exactly when that connection had a REGISTER for the id accepted and was neither removed nor registered anew since |
| SignallingRuns.RemovedIsUnreachable | SignallingServer.hpp:375-404 | After a removal and whatever follows, the connection is not in the list, and an id leads to it exactly when a later REGISTER of its own for that id was accepted and nothing has ended it since |
| SignallingRuns.RemovedRegistersAgain | SignallingServer.hpp:189-203 | An input: a buffered REGISTER, handled after another thread removed the connection (355-358), maps the removed connection |
| SignallingRuns.RegistrationTravels | SignallingServer.hpp:209-250 | The client asks for an id exactly when the server could take it; wherever the request stands in its stream and however TCP cuts that, the connection is then found under that id only, and an id someone else holds is not taken over |
| SignallingRuns.CandidateTravels | SignallingServer.hpp:257-272 | A candidate, anywhere in the sender's stream, however TCP cuts it, goes to the connection registered under the target id only, under the sender's id; anywhere in that connection's stream it is read back with the same type, addresses and ports |
| SignallingRuns.ChatTravels | SignallingServer.hpp:320-335 | A relayed chat line travels likewise with its text unchanged |
| SignallingRuns.SignalTravels | SignallingServer.hpp:274-293 | An offer, answer or refusal travels likewise, and the client reports its kind and sender |
| SignallingAnswers.OnlyRegisteredAreHeard | SignallingServer.hpp:252-335 | In every run and for every command, a line for another connection goes to one found under an id and names as its sender the id of the sender's last accepted REGISTER |
| SignallingAnswers.UnregisteredIsRefused | SignallingServer.hpp:252-255 | In every run a connection without an accepted REGISTER gets one error line for any other command, nobody else anything, and the registry stays |
| SignallingAnswers.RecordIff | SignallingServer.hpp:216-235 | A connection counts as registered under an id exactly when that was its last accepted REGISTER |
| SignallingAnswers.ListNamesTheOthers | SignallingServer.hpp:295-318 | In every run the list names exactly the ids other connections have registered and are still found under |
| SignallingAnswers.LineForNobodyIsDropped | SignallingServer.hpp:257-335 | A line for an id nobody is found under is dropped without an answer |
| SignallingAnswers.MalformedIsRefused | SignallingServer.hpp:257-262 | A candidate or chat command without its two parts is refused to the sender alone |
| SignallingAnswers.UnknownIsRefused | SignallingServer.hpp:337 | So is any command the server does not know |
| SignallingAnswers.InvalidIdIsRefused | SignallingServer.hpp:209-214 | So is an id that is empty or holds a space |
| SignallingAnswers.ListedIff | SignallingServer.hpp:375-404 | In every run a connection is listed from its arrival until it first leaves |

## Left out

Assumptions the file-transfer theorems need, built into `FileNetwork`:

- Transfer ids are not used again towards a receiver that still remembers them. The counter starts at 1 for each client object (P2PChat.cpp:235), so a restarted client can break this.
- Live transfers do not share a temporary path; each has its own stream. `MakeUniquePath` ignores `.part` files (P2PChat.cpp:788-790), so two live transfers of one name from one peer would collide.
- The approval flag stays as it was set at the start. Stopping a client is one step.
- Bytes lost by a completing close are a suffix of the content; a write, rename or opening that fails is reported as such.
- A file does not change while it is sent, and its name is at most 65535 bytes long.
- A file name is kept as it came; `SanitizeFileName` (P2PChat.cpp:1298) is not modelled.
- The sender's file is looked up and opened before the modelled part of `SendFileWorker`; without an open path nothing is sent.

What the model abstracts or does not have:

- IceAgent.Agent.StartNextBatch: public calls of the agent are atomic; the code lets go of its lock around each send (IceAgent.cpp:328-330, 566-568).
- IceAgent.Agent.HandleStunResponse: a pending entry whose pair is gone counts as no match, which is what IceAgent.cpp:699 checks; lines 689-691 read the pair before that check. Nothing is claimed about pairs in progress after a failure callback.
- IceAgent.Agent.SendBindingRequest: transaction ids are fresh numbers where the program draws random ones (IceAgent.cpp:469-479).
- IceAgent.Agent.FormPairs: `std::sort` is any permutation into descending priority, so equal ranks may come in any order.
- IceRuns.OnePairPerCombination: addresses hold no colon; `CandidateText.ParsedIsReadable` shows that no address read from the network does.
- IceAgent: receiving sockets, overlapped buffers, activity timeouts and pings.
- Datagrams: the filter on the sender's address (IceAgent.cpp:596-623) and the XOR of text payloads.
- Stun.ParseBindingResponse: a read behind the end of the datagram is an outcome of its own, not a value read there; `Stun.OverrunIff` says when it comes, and well-formed messages never reach it. Exclusive or on words is written on their bytes.
- Playback.Engine.MixNextFrame: which frames are mixed and how many contribute, not the samples, the limiter or the concealment fade.
- Playback.Engine.PlayFrameFromSource: the output device is open; the frame that first opens it, and stopping in the middle of a turn, are not steps of their own.
- Playback.Engine.PlaybackTurn: the wait for the condition variable is its condition; the device sends a done event only for buffers it has.
- EchoKernels: samples of 16 bits, lengths below 2^31 as in the code; pointers are arrays.
- BestMatch.FindBestMatches: correlation and score are given as real numbers; how they are computed in floating point, and values that are no numbers, are not modelled.
- ScreenFrames: capture, JPEG coding, target selection and the decoded preview; the byte counter that only reserves memory.
- CandidateText.TryParseCandidateMessage: `%d` on numbers beyond 32 bits follows the mathematical value.
- SignallingServer.Server.ListUsers: the ids as a set; the order and the text of the list follow the hash table and are left out.
- SignallingServer.Server.ProcessLine: a failed send appears as a removal at any later point.
- SignallingServer: sockets, threads, listening and stopping. Commands and removals of a connection are atomic steps in any order, also a command after a removal.
- RNNoise, gain control, gate, echo subtraction and limiter: tuning in floating point.
- CandidateGatherer.hpp, ScreenShareEngine.hpp, P2PChatOpenGL.cpp, presets, setters, logging, command dispatch and the text of the online-user list: system calls, user interface or wiring.

The program's README.md speaks of 44.1 kHz audio; AudioEngine.hpp:53 uses 48 kHz. The model depends on neither.
