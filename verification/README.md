# Verified model of the MLT transport and its parameter-server runtime

The repository is a parameter server (ps-lite) with a loss-tolerant transport, MLT, and a
tracker that arranges workers in a tree and a ring. MLT sends a message as UDP packets, lets
some of them get lost, and repairs the rest over a reliable TCP channel until the receiver has
as many bytes as its loss bound asks for. This project models the parts of it where state is
shared between threads or machines and proves what they keep over every run.

Where the program updates objects in place (block managers, received messages, the two
channels, the queue, the resender, the barrier counter, the request tracker, the endpoints) the
model is a class or a method with loops, proved against a specification function. Where threads
or machines interleave, those specification functions are the steps of a state machine, and the
main theorems are about all of its runs.

## How the files fit together

- `Blocks`, `TreeBlockMgr`, `Bits`, `BitmapBlockMgr`, `BlockMgrAgreement`: a table of sequence
  numbers, its maximal free runs, the two managers that compute them, and the two driven
  through the same history.
- `Packetizer`, `LtMessage`, `ReceivePath`: cutting a message into packets, copying them back,
  and what the receiving thread does to a payload before it is copied.
- `Wire`, `PriorityChannel`, `ReceivingChannel`, `RetransmitService`: the two channels, and the
  cursor that serves one retransmit request.
- `Flow`, `FlowSafety`, `Transport`: one flow as a state machine with its invariant, and a whole
  connection with any number of flows, which projects onto each of them.
- `TransportBytes`: what a completion reports, over the runs of a connection.
- `RetransmitRun`: retransmit requests in the runs of a connection, from the receiver's table to
  the wire.
- `FlowProgress`, `TransportProgress`: a flow, and a whole connection, can always still complete.
- `FlowStall`, `FlowOutcome`: exactly which byte bounds would let a flow stall, and which let it
  complete.
- `RdEndpoint`: framing on the TCP channel. `SpscQueue`: the lock-free ring between threads.
- `TrackerTopology`, `TrackerHandshake`: the ring through the tree, and who dials whom.
- `Barrier`, `Resender`, `Customer`, `KvApp`, `KvPull`: barrier safety, the duplicate filter,
  callbacks before waits, slicing by key range and pulling back. `Common` holds what several of
  them share.

## Main results

1. Every run of a connection, with UDP packets lost, repeated and reordered at will: no CHECK of
   the two channels fails, every unfinished flow has exactly one party that owes the next move,
   each side completes once and nothing of the flow is left, exactly one StopRequest is sent, and
   the completion reports the payload of the different packets that arrived while the receive was
   posted, each counted once (`Transport.NoCheckFails`, `Transport.SingleBaton`,
   `Transport.CompletesOnce`, `Transport.OneStopRequest`,
   `TransportBytes.CompletionReportsBytesHeard`).
2. From every world of every run, some continuation of the whole connection completes every flow
   posted on both sides, although small ids always go first
   (`TransportProgress.EveryRunCanComplete`). This needs `0 < bound <= size`, and exactly that:
   any other bound can stall (`FlowStall.StallsIffBadBound`).
3. In every run, whatever else the connection does meanwhile, a retransmit request is answered
   with exactly the packets missing from the receiver's table when the request was made, then
   FlowFinish (`RetransmitRun.RequestServed`).
4. The tree manager and the bitmap manager, driven through any history, serialize the same
   maximal free runs, except that the bitmap's own check fails exactly when some Resize came
   while the last slot was taken (`BlockMgrAgreement.SerializeBoth`).
5. What a receive ends up with depends only on which packets arrived
   (`Messages.OrderIndependent`). As far as copying goes, all bytes counted means the whole
   message copied (`Messages.CompleteReceipt`); but the receiving thread overwrites the front of
   every payload first, so what the user gets is the message only under the condition in
   `ReceivePath.FullCountHoldsMessageIff`.
6. The ring is a first-in first-out queue under every interleaving of its loads and stores, Push
   stores every value it is given, and TryPush stores or refuses after one look
   (`Spsc.FirstInFirstOut`, `Spsc.PushAlwaysStores`, `Spsc.TryPushStoresOrRefuses`,
   `Spsc.TryPushTestsOnce`).
7. TCP framing hands up a prefix of the queued messages for every pattern of partial sends and
   receives, and fails exactly at a read that ends inside a length (`Framing.DeliversInOrder`).
8. The tracker's ring visits each node once and shares tree edges, and for any order in which
   slaves come every edge of the heap and of the closed ring, and no other, is dialled by exactly
   one side (`TrackerTopology.GetLinkMap`, `TrackerHandshake.StartSlaves`).
9. Barrier safety with overlapping groups, and nobody waits for a barrier that is over
   (`Barrier.BarrierSafety`, `Barrier.NoOneLeftBehind`); at-most-once delivery through the
   resender, and messages kept until acknowledged (`Resender.PassedAtMostOnce`,
   `Resender.BufferedUntilAcked`); callbacks before waits (`Customer.CallbackBeforeWait`).
10. Slicing sends every key to the server that owns it with the values it had
    (`KvApp.SliceKeepsValues`), and a pull returns what the servers hold whatever order they
    answer in, or notices that a reply is missing (`KvPull.PullReturnsStore`,
    `KvPull.LostReplyIsNoticed`).

## Where the code does not keep a promise

The model follows the code, gives an input that shows the failure, and proves when it holds.

- `HandleReceive` stores the payload's address into `grad_ptr`, which lies over the first eight
  payload bytes, and copies afterwards: every received chunk begins with that address instead of
  the sender's data. A complete receive holds the message exactly when every chunk of the message
  begins with those very bytes. `ReceivePath.ChunkHolds`, `ReceivePath.FullCountHoldsMessageIff`,
  `ReceivePath.OneByteIsOverwritten`.
- `BitmapBlockMgr::Resize` tests the last bit of the new size, so it never counts the segment
  that a resize after a taken last slot opens; `SerializeToBuffer` then fails its own check.
  `BlockMgrAgreement.SerializeBoth`, `BlockMgrAgreement.GrowAfterTakeLosesSegment`.
- The byte bound is rounded up to a multiple of four. A bound above the message size is never
  reached, and then neither side ever completes; a bound of zero can complete but can also stall.
  `FlowStall.StallsIffBadBound`, `FlowOutcome.NeverCompletes`,
  `FlowOutcome.CompletesIffBoundReachable`, `FlowStall.BoundIsSafeIff`,
  `FlowStall.FiveBytesStall`.
- Packet headers hold a 16-bit length and a 32-bit offset. `Packets.TilesIffFieldsFit`,
  `Packets.JumboSegmentDoesNotTile`.
- The resender's key casts node ids to eight bits and shifts a signed 32-bit timestamp, so ids 256
  apart share keys, and late timestamps overwrite all ids. Messages still pass up at most once, but
  two messages with one key that meet at a node can lose one of them. `Resender.KeysEqualIff`,
  `Resender.FarWorkersCollide`, `Resender.LateKeysCollide`, `Resender.ClearedOnlyWhenRecorded`,
  `Resender.ClashLoses`, `Resender.FarWorkersLose`.
- The slicer drops values past the sum of `lens`. `KvApp.SlicesJoinBack`,
  `KvApp.SpareValueIsDropped`. It would drop keys below the first range too, but the server ranges
  start at 0: `KvApp.KeysKeptIff`, `KvApp.ServerRangesContiguous`.
- An empty framed message is never handed up: it reads as a shutdown if more bytes wait behind it
  and is silently dropped if none do. No sender in the repository queues an empty body, since
  every signal has a type field. `Framing.EmptyBodyIsLost`.
- `__builtin_ctzl(0)` is undefined; the model takes 64, what the x86 `tzcnt` instruction gives.
  `GetMaxSeqNum` of an empty message wraps to the largest `uint32_t`; flows are over non-empty
  messages. `Packets.EmptyMessageWraps`.

## Model

| member | source | states |
|---|---|---|
| Blocks.RunsDetermined | src/mlt/block_mgr.h:8-56 | the maximal free runs of a table are unique, so any two correct managers agree |
| Blocks.RunsGrow | src/mlt/block_mgr.h:8-56 | one more free slot lengthens the last run or opens a new one |
| Blocks.RunsOf | src/mlt/block_mgr.h:8-56 | every table has its maximal free runs: ordered, separated, covering exactly the free slots |
| TreeBlocks.OnlyCandidate | src/mlt/tree_block_mgr.h:38-46 | a number is free exactly when the one block before its upper bound contains it |
| TreeBlocks.CutKeepsOrder | src/mlt/tree_block_mgr.h:48-72 | removing one number from a block keeps the tree ordered and separated and frees or takes nothing else |
| TreeBlocks.CutSlots | src/mlt/tree_block_mgr.h:48-72 | cutting marks exactly one slot and raises the taken count by one |
| TreeBlocks.TakeFromBlock | src/mlt/tree_block_mgr.h:48-72 | the erase, shrink and emplace branches of Take all amount to cutting one number out |
| TreeBlocks.ExtendSlots | src/mlt/tree_block_mgr.h:21-36 | extending keeps old slots, adds free ones, and joins them to a last free run |
| TreeBlocks.ExtendTree | src/mlt/tree_block_mgr.h:21-36 | the branches of Resize amount to Extend |
| TreeBlocks.TreeBlockMgr.constructor | src/mlt/tree_block_mgr.h:13-20 | all slots free |
| TreeBlocks.TreeBlockMgr.Resize | src/mlt/tree_block_mgr.h:21-36 | the slot table grows by free slots, the invariant and the used count are kept |
| TreeBlocks.TreeBlockMgr.Check | src/mlt/tree_block_mgr.h:38-46 | answers whether the slot is taken; past the end counts as taken |
| TreeBlocks.TreeBlockMgr.Take | src/mlt/tree_block_mgr.h:48-72 | exactly one slot changes and the used count goes up by one |
| TreeBlocks.TreeBlockMgr.FreeLength | src/mlt/tree_block_mgr.h:74-76 | the number of free slots of the table |
| TreeBlocks.TreeBlockMgr.SerializeToBuffer | src/mlt/tree_block_mgr.h:78-90 | fails exactly when the buffer is too small, else writes the maximal free runs |
| BitmapBlocks.RunCountIs | src/mlt/bitmap_block_mgr.h:66-103 | counting run starts gives the number of maximal free runs |
| BitmapBlocks.RunsOfStep | src/mlt/bitmap_block_mgr.h:66-103 | reading one slot more adds a run exactly when one starts there |
| BitmapBlocks.RunCountTake | src/mlt/bitmap_block_mgr.h:85-95 | taking a slot changes the number of runs by one, less one for each taken or missing neighbour |
| BitmapBlocks.RunCountGrow | src/mlt/bitmap_block_mgr.h:73-78 | growing opens a run exactly when the table was empty or its last slot taken |
| BitmapBlocks.NextStretch | src/mlt/bitmap_block_mgr.h:105-135 | the shift, or, not and count-trailing-zeros steps isolate the next taken stretch of a word |
| BitmapBlocks.FindStretch | src/mlt/bitmap_block_mgr.h:105-135 | one round of the scan finds the next taken stretch, and the runs written so far stay maximal |
| BitmapBlocks.ScanWord | src/mlt/bitmap_block_mgr.h:105-135 | scanning a word writes the maximal runs that end in it and stops early only when they cannot fit |
| BitmapBlocks.ScanAll | src/mlt/bitmap_block_mgr.h:105-135 | the scan over all words writes exactly the maximal free runs, or fails exactly when they do not fit |
| BitmapBlocks.SegmentsKeepDeficit | src/mlt/bitmap_block_mgr.h:85-95 | the segment counter, in uint32_t arithmetic, stays the same distance from the number of runs over a Take |
| BitmapBlocks.ResizeAddsDeficit | src/mlt/bitmap_block_mgr.h:73-78 | Resize leaves the counter one lower when the last slot was taken |
| BitmapBlocks.TakeKeepsGood | src/mlt/bitmap_block_mgr.h:85-95 | Take sets one bit and keeps the invariant |
| BitmapBlocks.ResizeKeepsGood | src/mlt/bitmap_block_mgr.h:73-78 | Resize adds free slots, keeps the invariant, and its test of the last bit never succeeds |
| BitmapBlocks.Mark | src/mlt/bitmap_block_mgr.h:85-95 | the words and the counter after a Take: one bit set, the counter stepped by its neighbours, the invariant kept |
| BitmapBlocks.Enlarge | src/mlt/bitmap_block_mgr.h:73-78 | the words and the counter after a Resize: free slots added, the counter unchanged, the deficit raised when the last slot was taken |
| BitmapBlocks.BitmapBlockMgr.constructor | src/mlt/bitmap_block_mgr.h:66-72 | all slots free, no deficit |
| BitmapBlocks.BitmapBlockMgr.Resize | src/mlt/bitmap_block_mgr.h:73-78 | the table grows, segments stays, the deficit grows by one exactly when the last slot was taken |
| BitmapBlocks.BitmapBlockMgr.Check | src/mlt/bitmap_block_mgr.h:80-83 | answers whether the slot is taken |
| BitmapBlocks.BitmapBlockMgr.Take | src/mlt/bitmap_block_mgr.h:85-95 | the slot is taken; taking it twice changes nothing |
| BitmapBlocks.BitmapBlockMgr.FreeLength | src/mlt/bitmap_block_mgr.h:97-99 | the number of free slots of the table |
| BitmapBlocks.BitmapBlockMgr.SerializeToBuffer | src/mlt/bitmap_block_mgr.h:101-135 | passes its checks exactly when the deficit is zero and the runs fit, and then writes the maximal free runs |
| BlockMgrAgreement.ApplyBoth | src/mlt/bitmap_block_mgr.h:73-95 | one Take or Resize moves both managers to the same table |
| BlockMgrAgreement.DriveBoth | src/mlt/block_mgr.h:8-56 | any history of Takes and Resizes leaves both managers with the same table |
| BlockMgrAgreement.OutputBoth | src/mlt/tree_block_mgr.h:82-90 | two managers with the same table serialize the same runs when the bitmap's check passes |
| BlockMgrAgreement.SerializeBoth | src/mlt/bitmap_block_mgr.h:105-135 | after any history the tree serializes the maximal runs; the bitmap does exactly when no Resize found the last slot taken, and then writes the same |
| BlockMgrAgreement.GrowAfterTakeLosesSegment | src/mlt/bitmap_block_mgr.h:73-78 | the smallest history that fails the bitmap's check |
| Packets.NumPacketsBounds | src/mlt/packetizer.cc:8-11 | the packet count is the least that covers the message |
| Packets.ChunkIsUnsignedMin | src/mlt/packetizer.cc:73-93 | the length of a packet is the smaller of the segment and the 64-bit unsigned difference of size and bytes sent |
| Packets.EmptyMessageWraps | src/mlt/packetizer.cc:8-11 | an empty message announces the largest uint32_t as its last number |
| Packets.LargestPacket | src/mlt/packetizer.cc:73-93 | segments of 65515 bytes fit the 16-bit length field, those of 65516 do not |
| Packets.PartitionOne | src/mlt/packetizer.cc:73-93 | the packet cut at the running byte count, and the advanced count |
| Packets.PartitionOneBySeq | src/mlt/packetizer.cc:95-114 | the packet cut for a sequence number |
| Packets.NextPacket | src/mlt/packetizer.cc:73-114 | the k-th packet of the first pass is the one a retransmission of number k would cut |
| Packets.FirstPass | src/mlt/packetizer.cc:34-63 | the first pass yields exactly the packets retransmission would cut, in order, as many as GetMaxSeqNum announces |
| Packets.OnlyLastIsLast | src/mlt/packetizer.cc:73-93 | only the last packet is marked last |
| Packets.MaxSeqFits | src/mlt/packetizer.cc:8-11 | GetMaxSeqNum is the last sequence number for every message up to 4 GiB |
| Packets.TilesIffFieldsFit | src/mlt/packetizer.cc:34-114 | the header offsets and lengths tile the message exactly when the last offset fits 32 bits and the longest packet 16 |
| Packets.ExactFields | src/mlt/packetizer.cc:95-114 | when they fit, offset and length of packet k are the true ones |
| Packets.JumboSegmentDoesNotTile | src/mlt/packetizer.cc:73-93 | with a segment of 70000 bytes the headers of a 70000 byte message do not tile it |
| Messages.CopyInto | src/mlt/ltmessage.h:62-80 | copies into the buffer and touches nothing else |
| Messages.Claim | src/mlt/ltmessage.h:66-70 | grows the table if needed and takes the number unless it was taken; the largest number wraps and is refused |
| Messages.LtMessageExt.constructor | src/mlt/ltmessage.h:49-60 | nothing received |
| Messages.LtMessageExt.CopyGradients | src/mlt/ltmessage.h:62-80 | a packet seen before changes nothing; a new one is marked, counted and copied, or fails a check, and exactly which |
| Messages.LtMessageExt.FinishReceiving | src/mlt/ltmessage.h:82-82 | done exactly when the bound is reached |
| Messages.LtMessageExt.MissingBlocks | src/mlt/receiving_channel.cc:231-256 | the serialized request is the maximal runs of what is missing up to the last number |
| Messages.BytesTakenBound | src/mlt/ltmessage.h:62-80 | marked packets never account for more than the message, and for all of it only when all are marked |
| Messages.AllBytesIffAllPackets | src/mlt/ltmessage.h:62-82 | the byte count reaches the size exactly when every packet was received |
| Messages.ReceiveKeepsAccounts | src/mlt/ltmessage.h:62-80 | every packet keeps the byte count equal to the marked chunks and each byte right or untouched |
| Messages.ReceiveAllAccounts | src/mlt/ltmessage.h:62-80 | the same over any sequence of packets, and the table marks exactly those received |
| Messages.OrderIndependent | src/mlt/ltmessage.h:62-80 | order and duplicates do not matter: the same set of packets leaves the same buffer, table and count |
| Messages.CompleteReceipt | src/mlt/ltmessage.h:62-82 | given the payloads that CopyGradients is handed, a full byte count means the buffer holds what they make up |
| ReceivePath.StampPayload | src/mlt/receiving_channel.cc:63-65 | the address replaces the first eight payload bytes in place and leaves the header and the rest |
| ReceivePath.HandleReceive | src/mlt/receiving_channel.cc:63-132 | a datagram for a posted receive: the record changes as Accept says, the buffer takes the stamped payload once, and the packet that reaches the bound stops the flow |
| ReceivePath.StampedIsReceived | src/mlt/receiving_channel.cc:63-132 | over any packets, stamping on arrival is receiving the message with the address over the front of every chunk |
| ReceivePath.ChunkHolds | src/mlt/receiving_channel.cc:63-132 | each chunk that arrived holds the address and then the message, each that did not what was there before |
| ReceivePath.FullCountHoldsMessageIff | src/mlt/receiving_channel.cc:63-132 | with all bytes counted the buffer holds the message exactly when every chunk of it begins with the address |
| ReceivePath.OneByteIsOverwritten | src/mlt/receiving_channel.cc:63-65 | a one-byte message received whole leaves a byte of the address |
| Sender.PriorityChannel.constructor | src/mlt/priority_channel.cc:26-58 | everything empty |
| Sender.AllRequestsPopped | src/mlt/priority_channel.cc:59-68 | draining the queue fails exactly when an id is being sent already or queued twice, and else starts each request at its first byte and changes no other |
| Sender.ResendFailsIff | src/mlt/priority_channel.cc:137-175 | a resend fails exactly when the smallest pending id is not held or its cursor lies outside its blocks |
| Sender.NoticesFailIff | src/mlt/priority_channel.cc:211-255 | handling the notices fails exactly when one of them is a retransmit request without blocks |
| Sender.PriorityChannel.PollSendRequests | src/mlt/priority_channel.cc:59-68 | every queued request becomes a message on its first pass, or a CHECK fails on a duplicate |
| Sender.PriorityChannel.RoutePacket | src/mlt/packetizer.cc:13-32 | the packet goes out, followed by FlowFinish when told so |
| Sender.PriorityChannel.PollSendingMessages | src/mlt/priority_channel.cc:89-135 | one packet of the first message; after its last byte the message waits for retransmit requests |
| Sender.PriorityChannel.PollRetransmitRequest | src/mlt/priority_channel.cc:137-209 | one packet of the first pending request, the cursor moves on, and the CHECKs that can fail |
| Sender.PriorityChannel.Stop | src/mlt/priority_channel.cc:258-303 | the flow leaves whichever map holds it, is confirmed and completed |
| Sender.PriorityChannel.PollNotification | src/mlt/priority_channel.cc:211-255 | all notices handled in order, or the CHECK that fails |
| Receiver.AcceptIsReceive | src/mlt/receiving_channel.cc:63-132 | the channel's record of a message keeps the same table and count as the message itself |
| Receiver.BoundIsRounded | src/mlt/receiving_channel.cc:175-176 | the bound is a multiple of four, less than one byte short of the share of the message that must not be lost and less than four over it |
| Receiver.AllPostsPopped | src/mlt/receiving_channel.cc:151-179 | draining the queue fails exactly when an id is posted already or twice, and else adds an empty record for each post and changes no other |
| Receiver.PacketFailsIff | src/mlt/ltmessage.h:62-80 | a packet fails the size check exactly when it is new and reaches past the end of the message |
| Receiver.StopIffReached | src/mlt/receiving_channel.cc:112-132 | StopRequest is sent exactly by a new packet with payload that brings the count of a receive not yet stopped to its bound |
| Receiver.SignalsFailIff | src/mlt/rd_endpoint.cc:180-191 | a signal fails exactly if it is a FlowFinish whose last number is not known, a notice exactly if it confirms the stop of a receive that is not posted |
| Receiver.ReceivingChannel.constructor | src/mlt/receiving_channel.cc:7-20 | everything empty |
| Receiver.ReceivingChannel.Enqueue | src/mlt/receiving_channel.cc:21-25 | refines the step by which a user posts a receive, with the rounded bound |
| Receiver.ReceivingChannel.PollReceiveRequest | src/mlt/receiving_channel.cc:151-179 | every queued receive is posted, or a CHECK fails on a duplicate |
| Receiver.ReceivingChannel.OnPacket | src/mlt/receiving_channel.cc:91-131 | a packet is counted once in its record; the one that reaches the bound sends StopRequest |
| Receiver.ReceivingChannel.FinishFlow | src/mlt/receiving_channel.cc:203-271 | a FlowFinish asks for the whole message, for what is missing, or for nothing |
| Receiver.ReceivingChannel.PollNotification | src/mlt/receiving_channel.cc:181-201 | all notices handled in order, or the CHECK that fails; a confirmed stop reports the bytes counted, which over whole runs are those of TransportBytes.CompletionReportsBytesHeard |
| Receiver.ReceivingChannel.HandleReceivedData | src/mlt/rd_endpoint.cc:152-259 | each of the three signals from the sender goes to the right queue, and FlowFinish must find its last number |
| RetransmitService.RunsListMissing | src/mlt/receiving_channel.cc:231-256 | the blocks of a request list exactly the missing numbers |
| RetransmitService.MissingIncreasing | src/mlt/receiving_channel.cc:231-256 | in increasing order |
| RetransmitService.ServeFromCursor | src/mlt/priority_channel.cc:137-209 | the cursor visits the rest of its block and then the later blocks |
| RetransmitService.ServesWhatIsMissing | src/mlt/priority_channel.cc:137-209 | a fresh request visits each missing number once, in order |
| RetransmitService.FinishOnlyAtEnd | src/mlt/priority_channel.cc:160-200 | FlowFinish goes with the last packet and no other |
| RetransmitService.ToServeStep | src/mlt/priority_channel.cc:137-209 | what a cursor has to send is the packet under it and what the next cursor has |
| RetransmitRun.RequestOrigin | src/mlt/receiving_channel.cc:203-271 | in every run each request under way or being served was made by an earlier FinishFlow of its flow, from the free runs of the table the receiver had then |
| RetransmitRun.PendingStep | src/mlt/priority_channel.cc:137-209 | every move keeps the packets sent plus those left to send for a request; it ends with its last packet and FlowFinish, or with a stop |
| RetransmitRun.ServedSoFar | src/mlt/priority_channel.cc:70-76 | over any stretch of a run in which a request is pending, with other flows sending in between, sent plus left is what was left at the start |
| RetransmitRun.NoFinishMeanwhile | src/mlt/priority_channel.cc:137-209 | while a request is pending no FlowFinish of its flow is under way |
| RetransmitRun.ServedToEnd | src/mlt/priority_channel.cc:137-209 | when the request is gone all of it was sent with FlowFinish behind, unless a stop cut it short |
| RetransmitRun.RequestServed | src/mlt/priority_channel.cc:137-255 | in every run what is sent between taking up a request and its end is exactly the packets missing from the receiver's table when it was made, once each, in order |
| FlowSafety.UnfinishedMissesSome | src/mlt/receiving_channel.cc:203-271 | below its bound a receive always misses a packet, so a retransmit request is never empty |
| FlowSafety.AcceptKeepsReceipt | src/mlt/receiving_channel.cc:63-132 | a packet of the flow fails no CHECK and keeps the receive's accounts |
| FlowSafety.LastIsMax | src/mlt/packetizer.cc:8-11 | the announced last number is the last packet |
| FlowSafety.SendOneKeeps | src/mlt/priority_channel.cc:89-135 | a first-pass packet keeps the flow invariant |
| FlowSafety.ResendOneKeeps | src/mlt/priority_channel.cc:137-209 | a retransmitted packet keeps it |
| FlowSafety.SenderNoticeKeeps | src/mlt/priority_channel.cc:211-303 | a retransmit request or a stop keeps it |
| FlowSafety.ArriveKeeps | src/mlt/rd_endpoint.cc:152-259 | a signal arriving at the receiver keeps it and fails no CHECK |
| FlowSafety.DeliverKeeps | src/mlt/receiving_channel.cc:63-132 | a packet arriving, late or repeated, keeps it |
| FlowSafety.FinishNoticeKeeps | src/mlt/receiving_channel.cc:203-271 | a FlowFinish handled keeps it, in all three branches |
| FlowSafety.ConfirmNoticeKeeps | src/mlt/receiving_channel.cc:273-289 | a confirmed stop finds its receive and keeps it |
| FlowSafety.StepKeeps | src/mlt/priority_channel.cc:89-303 | every step of a flow keeps the invariant and fails no CHECK |
| Transport.HoldersAreBatons | src/mlt/priority_channel.cc:89-255 | the parties that owe a flow's next move, counted over a whole connection, are those of the flow's own machine |
| Transport.MoveProjects | src/mlt/priority_channel.cc:26-303 | every move of a connection is a step of the flow it names and leaves all others alone |
| Transport.MoveFine | src/mlt/receiving_channel.cc:30-289 | every move keeps every flow's invariant |
| Transport.EveryRunFine | src/mlt/receiving_channel.cc:30-289 | so does every run |
| Transport.SingleBaton | src/mlt/priority_channel.cc:89-255 | in every run exactly one of queued request, first pass, FlowFinish in transit, retransmit request in transit and pending request holds for a posted flow until its stop is sent, and at most one ever |
| Transport.NoCheckFails | src/mlt/priority_channel.cc:153-175 | in every run no CHECK of either channel fails; a pending request names a held message with its cursor in a block |
| Transport.CompletesOnce | src/mlt/receiving_channel.cc:273-289 | in every run a flow completes at most once on each side, the receiver with at least its bound and at most the size, and then no record, request, signal, notice or announced number of it is left on either side |
| Transport.StepStops | src/mlt/receiving_channel.cc:113-131 | the step that sends a StopRequest is the one that stops the receive |
| Transport.OneStopRequest | src/mlt/receiving_channel.cc:113-131 | in every run a receiver has sent one StopRequest for a flow if it has stopped, and none before |
| TransportBytes.StepTallies | src/mlt/receiving_channel.cc:63-132 | every step of a flow keeps the count of a receive, and the count its completion reports, equal to the payload of the different sequence numbers heard |
| TransportBytes.RunTallies | src/mlt/receiving_channel.cc:63-132 | so does every run of a connection, the numbers heard being read off the moves that delivered them |
| TransportBytes.CompletionReportsBytesHeard | src/mlt/receiving_channel.cc:273-289 | in every run a posted receive has counted, and its completion reports, the summed payload of the different packets delivered to it, each once however often it came |
| FlowProgress.HelpfulStep | src/mlt/priority_channel.cc:89-255 | in every state of an unfinished posted flow some enabled step brings it closer to completion |
| FlowProgress.CanComplete | src/mlt/receiving_channel.cc:203-289 | from every such state some continuation completes both sides |
| FlowProgress.CompletesFromIdle | src/mlt/priority_channel.cc:26-303 | a message posted on both sides has a run from the idle state that completes both |
| TransportProgress.ClearQueue | src/mlt/priority_channel.cc:211-255 | whatever is ahead of a flow in a queue can be taken off without the flow noticing |
| TransportProgress.ClearSending | src/mlt/priority_channel.cc:89-135 | so can first passes with smaller ids |
| TransportProgress.ClearPending | src/mlt/priority_channel.cc:137-209 | so can retransmit requests with smaller ids |
| TransportProgress.ReadyFor | src/mlt/priority_channel.cc:26-303 | whatever step a flow could take alone, the connection can get to it |
| TransportProgress.Replay | src/mlt/priority_channel.cc:26-303 | any history of the flow alone can be played in the connection |
| TransportProgress.EveryRunCanComplete | src/mlt/priority_channel.cc:70-76 | from every world of every run some continuation completes every flow posted on both sides |
| FlowStall.StallsIffBadBound | src/mlt/receiving_channel.cc:203-271 | a flow can get into a state with no party left to move, unfinished, exactly when its bound is zero or past the size |
| FlowStall.BoundIsSafeIff | src/mlt/receiving_channel.cc:151-179 | the rounded bound is safe exactly when the wanted bytes are positive and at most the size rounded down to four |
| FlowStall.FiveBytesStall | src/mlt/receiving_channel.cc:151-179 | five bytes without loss are bounded at eight and can stall |
| FlowOutcome.StepEndless | src/mlt/receiving_channel.cc:63-289 | with a bound above the size every step leaves the flow without a stop, a confirmation or a completion anywhere |
| FlowOutcome.NeverCompletes | src/mlt/receiving_channel.cc:63-289 | with a bound above the size no run ever completes either side |
| FlowOutcome.ZeroBoundCompletes | src/mlt/receiving_channel.cc:113-131 | with a bound of zero the first packet stops the flow and a run completes |
| FlowOutcome.CompletesIffBoundReachable | src/mlt/receiving_channel.cc:151-179 | a flow has a completing run exactly when its bound is at most the size |
| Framing.LengthRoundTrip | src/mlt/rd_endpoint.h:44-48 | the four length bytes give back the length |
| Framing.LowByteFirst | src/mlt/rd_endpoint.h:44-48 | the lowest byte of the length goes first, as on the little-endian machines the program runs on |
| Framing.RdEndpoint.constructor | src/mlt/rd_endpoint.cc:12-28 | both queues empty |
| Framing.RdEndpoint.Enqueue | src/mlt/rd_endpoint.h:44-48 | the pending bytes grow by the framed message |
| Framing.RdEndpoint.OnSendReady | src/mlt/rd_endpoint.cc:58-87 | the socket takes exactly the front of the pending bytes that it has room for |
| Framing.RdEndpoint.OnRecvReady | src/mlt/rd_endpoint.cc:89-150 | the arrived bytes complete at most one message, are held, or fail, as OnRecv says |
| Framing.LengthFirst | src/mlt/rd_endpoint.cc:89-123 | four bytes at the front of the stream are the length of the next message |
| Framing.BodyFirst | src/mlt/rd_endpoint.cc:123-150 | a body of that length is the next message |
| Framing.RecvKeeps | src/mlt/rd_endpoint.cc:89-150 | a receive keeps delivered messages a prefix and held plus travelling plus pending bytes the rest |
| Framing.StepKeeps | src/mlt/rd_endpoint.cc:58-150 | so does every step of either end |
| Framing.SplitFails | src/mlt/rd_endpoint.cc:105-121 | a read that ends inside a length fails the CHECK and hands up nothing |
| Framing.FailsIffSplit | src/mlt/rd_endpoint.cc:89-150 | a step fails exactly if it is such a read, and otherwise keeps the invariant |
| Framing.DeliversInOrder | src/mlt/rd_endpoint.cc:58-150 | in every run the messages handed up are a prefix of those queued and at most one is held in part; the connection fails exactly at a read that ends inside a length, and until then all are handed up exactly when no byte is left |
| Framing.EmptyBodyIsLost | src/mlt/rd_endpoint.cc:89-150 | a length of zero disconnects exactly when bytes wait behind it, and is otherwise kept and then thrown away |
| Spsc.LowbitOfPow2 | src/mlt/spsc_queue.h:66-70 | a number is its own lowest bit exactly when it is a power of two |
| Spsc.RoundUpPower2 | src/mlt/spsc_queue.h:66-70 | the least power of two not below the count |
| Spsc.MinusOfCounts | src/mlt/spsc_queue.h:26-63 | the wrapped difference of the counters is the true fill |
| Spsc.SlotsDiffer | src/mlt/spsc_queue.h:26-63 | items less than a capacity apart use different slots |
| Spsc.WriteKeeps | src/mlt/spsc_queue.h:47-56 | a write never lands on an item not yet read, even with a stale head |
| Spsc.ReadKeeps | src/mlt/spsc_queue.h:58-63 | a read finds the oldest item, even with a stale tail |
| Spsc.EveryInterleaving | src/mlt/spsc_queue.h:26-63 | every interleaving of loads and stores of one producer and one consumer keeps the invariant |
| Spsc.FirstInFirstOut | src/mlt/spsc_queue.h:26-63 | what was popped followed by what waits is what was pushed, and no more than the capacity waits |
| Spsc.FailuresAreReal | src/mlt/spsc_queue.h:47-63 | the indices compare as full exactly when the ring was full at the head the producer loaded, and as empty exactly when it was empty at the tail the consumer loaded |
| Spsc.PushAlwaysStores | src/mlt/spsc_queue.h:26-40 | in every run the values handed to Push are stored in order, all but that of a call still under way: a Push never gives up |
| Spsc.OnlyTryPushGivesUp | src/mlt/spsc_queue.h:26-56 | a call that ends without storing is a TryPush, and the ring was full at the head it loaded |
| Spsc.TryPushStoresOrRefuses | src/mlt/spsc_queue.h:47-56 | in every run each value handed to TryPush is stored, refused, or still under way, and only one of these |
| Spsc.TryPushTestsOnce | src/mlt/spsc_queue.h:47-56 | in every run each TryPush compares the indices once, so it never waits |
| Spsc.PushedIsStored | src/mlt/spsc_queue.h:26-56 | in every run what the ring has taken in is what the two kinds of calls stored |
| Spsc.SpscQueue.constructor | src/mlt/spsc_queue.h:15-24 | empty, with the rounded capacity |
| Spsc.SpscQueue.TryPush | src/mlt/spsc_queue.h:47-56 | appends unless full |
| Spsc.SpscQueue.TryPop | src/mlt/spsc_queue.h:58-63 | takes the first unless empty |
| TrackerTopology.ChildIff | tracker/tracker.py:156-165 | the children of a rank are the ranks whose parent it is |
| TrackerTopology.NeighborsSymmetric | tracker/tracker.py:156-165 | the tree is undirected |
| TrackerTopology.TreeIsHeap | tracker/tracker.py:156-173 | the neighbours of rank r are 2r+1, 2r+2 and the rank it is such a child of, without repetition, and the parent map agrees |
| TrackerTopology.DepthIsLogarithm | tracker/tracker.py:156-173 | a rank lies as deep as the binary logarithm of its number plus one |
| TrackerTopology.RingCoversSubtree | tracker/tracker.py:175-192 | the ring of a subtree visits each of its ranks once and no other |
| TrackerTopology.RingSharesTreeEdges | tracker/tracker.py:175-192 | every inner rank is next to its first child on the ring |
| TrackerTopology.GetTree | tracker/tracker.py:167-173 | the maps hold every rank's neighbours and parent |
| TrackerTopology.GetRing | tracker/tracker.py:194-207 | previous and next along the ring for every rank |
| TrackerTopology.NumberAlongRing | tracker/tracker.py:209-219 | the new number of a rank is its position on the ring |
| TrackerTopology.RanksAreRenumbering | tracker/tracker.py:209-219 | that numbering is a bijection that keeps rank 0 |
| TrackerTopology.CarryRing | tracker/tracker.py:221-234 | after renumbering the ring runs 0, 1, 2 and back to 0 |
| TrackerTopology.CarryTree | tracker/tracker.py:221-234 | after renumbering the tree is the same tree |
| TrackerTopology.CarriedIsSame | tracker/tracker.py:221-234 | the carried maps link and parent exactly the new numbers of heap neighbours and heap parents |
| TrackerTopology.GetLinkMap | tracker/tracker.py:209-234 | for every number of slaves and every order of children: the new numbers are a bijection, the ring joins i with i-1 and i+1 modulo n, and the tree is the heap under that bijection |
| TrackerTopology.FirstChildIsNextRank | tracker/tracker.py:175-234 | after renumbering an inner rank and its first child have adjacent numbers |
| TrackerTopology.RingClosesOverTreeEdge | tracker/tracker.py:175-207 | the ring closes from a child of the root |
| TrackerHandshake.LinkMapIsSymmetric | tracker/tracker.py:70-94 | the links handed out, tree and ring together, are symmetric and never to oneself; which they are is LinksAreTreeAndRing |
| TrackerHandshake.LinksAreTreeAndRing | tracker/tracker.py:70-94 | two ranks are linked exactly if they differ and are heap neighbours or follow each other round the ring |
| TrackerHandshake.Serve | tracker/tracker.py:114-123 | everybody dialled waits for one connection less and is dropped after the last |
| TrackerHandshake.Tracker.constructor | tracker/tracker.py:241-250 | nobody is waiting |
| TrackerHandshake.Tracker.AssignRank | tracker/tracker.py:70-125 | dial orders, decremented counters and the rank's own counter |
| TrackerHandshake.ToldAreEarlier | tracker/tracker.py:95-112 | a slave is told to dial exactly its already assigned neighbours |
| TrackerHandshake.AssignKeeps | tracker/tracker.py:70-125 | a waiting counter is always the number of the slave's links still to come |
| TrackerHandshake.AllLinksOrderedOnce | tracker/tracker.py:280-302 | when all ranks are assigned, in any order, nobody waits and every link was ordered from exactly one side, the later one |
| TrackerHandshake.LinkOrderedOnce | tracker/tracker.py:280-302 | of any two ranks one dials the other once if they are linked, and neither dials otherwise |
| TrackerHandshake.RingIsDialled | tracker/tracker.py:280-302 | the ring is closed: each rank and the next, and the last and 0, are joined by one dial |
| TrackerHandshake.TreeIsDialled | tracker/tracker.py:280-302 | each rank and its heap parent are joined by one dial |
| TrackerHandshake.LayOut | tracker/tracker.py:209-234 | the links of the renumbered tree and ring are symmetric, and join exactly heap neighbours and ring neighbours |
| TrackerHandshake.AssignAll | tracker/tracker.py:280-302 | handing out the ranks one by one, in any order, ends with nobody waiting and every link ordered once |
| TrackerHandshake.StartSlaves | tracker/tracker.py:241-305 | for every number of slaves and every order they come in: nobody is left waiting, links join exactly heap and ring neighbours, and each edge of the heap and of the closed ring is dialled once |
| Barrier.Scheduler.constructor | src/van.cc:235-263 | no counters yet |
| Barrier.OneReplyEach | src/van.cc:250-257 | each member of the group that shares no other's address gets one reply, and nobody else gets any |
| Barrier.Scheduler.OnRequest | src/van.cc:235-263 | counts the group's request; the one that fills it resets the counter and sends the replies of OneReplyEach, and any other sends none |
| Barrier.FullMeansAll | src/van.cc:243-246 | a full counter means every member is waiting on this very group |
| Barrier.StepKeeps | src/postoffice.cc:151-202 | every step of nodes and scheduler keeps the invariant |
| Barrier.BarrierSafety | src/postoffice.cc:151-175 | in every run no node has left more barriers on a group than every member has entered |
| Barrier.NoOneLeftBehind | src/postoffice.cc:151-175 | in every run, while all members of a group wait on it undone, one of them has a request or a reply on its way |
| Barrier.NoStrayReply | src/postoffice.cc:190-202 | a reply in flight is the only one for its node, and the node waits for it |
| Resender.KeysEqualIff | src/resender.h:95-105 | two messages have one key exactly when timestamp and direction agree and, for timestamps below 2^30, the ids agree after their casts |
| Resender.FieldsReadBack | src/resender.h:95-105 | below timestamp 2^30 application, sender, receiver, timestamp and direction can be read back from their places in the key |
| Resender.LateKeysCollide | src/resender.h:95-105 | two senders with one key at timestamp 2^30 |
| Resender.FarWorkersCollide | src/resender.h:95-105 | workers 0 and 128 with one key at timestamp 1 |
| Resender.Filter.constructor | src/resender.h:20-25 | nothing buffered, nothing recorded |
| Resender.Filter.AddOutgoing | src/resender.h:36-48 | refines the buffering step of the system: a message waits under its key unless one does already, an ack never does |
| Resender.Filter.AddIncoming | src/resender.h:54-83 | refines the receiving steps: TERMINATE passes, an ack clears, a message is recorded, acknowledged always and dropped exactly when its key was recorded |
| Resender.GetDataKeeps | src/resender.h:65-82 | an arrival keeps recorded keys those of passed messages, and acks about recorded keys |
| Resender.StepKeeps | src/resender.h:36-131 | every step, with loss, repetition and reordering, keeps the invariant, whatever keys collide |
| Resender.PassedAtMostOnce | src/resender.h:54-83 | in every run each message passes up at most once, and only if it was sent, whatever keys collide |
| Resender.TerminateEndsNode | src/resender.h:54-58 | TERMINATE passes whatever the filter holds, ends its node, and changes no filter |
| Resender.BufferHolds | src/resender.h:36-48 | a sent message waits under its key unless another does |
| Resender.BufferedUntilAcked | src/resender.h:36-64 | a waiting message survives every step but an ack with its key, resends included |
| Resender.ResendDelivers | src/resender.h:54-131 | from every reachable state a waiting message can be resent, received and acknowledged: its key is recorded and it waits no longer, even if it had arrived before |
| Resender.ResendOutlivesAck | src/resender.h:36-131 | an ack that overtakes a resend does not end it: the message is buffered again and waits for another ack |
| Resender.ClearedOnlyWhenRecorded | src/resender.h:58-72 | while no two sent messages clash, an ack removes a send entry only after the receiver recorded that message |
| Resender.ClashLoses | src/resender.h:54-83 | any two messages that clash have a run that clears one of them unrecorded and unpassed |
| Resender.FarWorkersLose | src/resender.h:54-105 | such a run for workers 0 and 128 |
| Resender.EarlySmallIdsNeverClash | src/resender.h:95-105 | ids that survive their casts and timestamps below 2^30 that are not reused never clash |
| Customer.Worker.constructor | src/customer.cc:18-22 | no requests |
| Customer.Worker.NewRequest | src/customer.cc:32-37 | refines the first step of a request: the next timestamp, one response expected from each server, the callback registered |
| Customer.Worker.RunCallbackOf | include/ps/kv_app.h:690-704 | the callback runs if it is registered and is gone afterwards, so it runs once |
| Customer.Worker.Skip | include/ps/kv_app.h:609-623 | refines the skipping step: servers without a slice are counted at once, and the callback runs when that is all of them |
| Customer.Worker.ProcessAnswer | include/ps/kv_app.h:658-689 | refines the handling step: the answer is stored and the callback runs when all but one are counted |
| Customer.Worker.CountAnswer | src/customer.cc:64-69 | refines the counting step that follows it |
| Customer.LastOneRuns | include/ps/kv_app.h:685-688 | the callback's test succeeds exactly for the last contacted server |
| Customer.StepKeeps | src/customer.cc:32-71 | every step keeps the invariant of every request |
| Customer.CallbackBeforeWait | include/ps/kv_app.h:608-704 | in every run the count never exceeds the servers, the callback runs at most once, and when Wait can return it has run with every contacted server's reply stored, also when no server was contacted at all |
| Customer.CallbackSeesAll | include/ps/kv_app.h:658-689 | the callback that runs in Process finds all replies |
| KvApp.ServerRangesContiguous | src/postoffice.cc:177-188 | the ranges start at 0, meet, and end at kMaxKey / n * n |
| KvApp.ServersShareAlike | src/postoffice.cc:180-184 | every server owns kMaxKey / n keys, and fewer than n keys at the top are owned by none |
| KvApp.Positions | include/ps/kv_app.h:558-574 | the cut points are the numbers of keys below each boundary; ranges that do not meet are refused |
| KvApp.SliceOne | include/ps/kv_app.h:587-605 | one slice's keys, lens and values, or the failed segment check |
| KvApp.SliceRound | include/ps/kv_app.h:586-605 | one round fails only if the request cannot be sliced, and otherwise hands out the next slice |
| KvApp.SliceAll | include/ps/kv_app.h:585-606 | the loop fails exactly when the values are too few, else gives every server its slice |
| KvApp.DefaultSlicer | include/ps/kv_app.h:551-606 | succeeds exactly when ranges meet, the last range reaches past the last key and values match, in the sense of SliceableIff; then gives every server its slice, in the sense of SliceKeepsValues |
| KvApp.LastKeyDecides | include/ps/kv_app.h:575-575 | the position check passes exactly when the last key is below the last range's end |
| KvApp.SliceHoldsRange | include/ps/kv_app.h:551-606 | a server is sent exactly the keys of its range, and nothing when it has none |
| KvApp.SliceableIff | include/ps/kv_app.h:575-586 | over ranges that start at 0, a request passes the checks exactly when it is empty, or the last key is owned and the values divide evenly among the keys or cover the lens |
| KvApp.SliceKeepsValues | include/ps/kv_app.h:585-606 | each key of a slice has there exactly the values, and the length, that the same key has in the request |
| KvApp.PlainPushIsSent | include/ps/kv_app.h:575-606 | two keys with one value each and no lens reach a single server unchanged |
| KvApp.KeysKeptIff | include/ps/kv_app.h:558-575 | all keys reach a server exactly when the first is not below the first range |
| KvApp.SlicesJoinBack | include/ps/kv_app.h:585-606 | the slices joined are the request exactly when lens account for all values |
| KvApp.SpareValueIsDropped | include/ps/kv_app.h:597-601 | one key with two values and a lens of one: the second value reaches no server |
| KvPull.CheckReplies | include/ps/kv_app.h:716-725 | the checks on the replies, an empty one among them, and the two totals |
| KvPull.FindRangeCounts | include/ps/sarray.h:281-286 | the range search counts the requested keys between a reply's first and last, but none if the last is the largest key, whose successor wraps to 0 |
| KvPull.ChecksMean | include/ps/kv_app.h:716-748 | the checks pass exactly when each reply has as many keys as were requested in its span, and lens if wanted, all keys are answered, and given buffers have the right size |
| KvPull.SortByFirstKey | include/ps/kv_app.h:728-731 | an ordered permutation of the replies |
| KvPull.CopyOut | include/ps/kv_app.h:750-757 | values and lens one reply after another |
| KvPull.FinishPull | include/ps/kv_app.h:711-760 | succeeds exactly when the checks pass, and leaves an ordered arrangement of the replies |
| KvPull.AnswersFit | include/ps/sarray.h:281-286 | a server's reply passes the range check, and its last key plus one does not wrap |
| KvPull.SortedOnce | include/ps/kv_app.h:728-731 | replies with different first keys can be sorted one way only |
| KvPull.PullSliceableIff | src/postoffice.cc:177-188 | a pull is sliced exactly when the servers own all its keys |
| KvPull.PullReturnsStore | include/ps/kv_app.h:706-769 | whatever order replies arrive in, with or without lens, the pull leaves exactly the stored values, and lengths if wanted, in request order; its checks pass exactly when given buffers have the right size |
| KvPull.LostReplyIsNoticed | include/ps/kv_app.h:716-727 | if any of the servers' replies is missing the checks fail |

## Left out

- Sockets, epoll, threads, ZeroMQ, RDMA and `src/mlt_van.h`: foreign calls or unfinished code. UDP is a bag that may lose, repeat and reorder; TCP is a byte stream.
- Several connections at once, adding and removing them: one connection with any number of flows is modelled, so comm ids do not appear.
- Rate control, meters, priorities and type-of-service: a send step may simply not be taken; which packet gets which priority changes no property here.
- RateAdjustment and UserData signals, and the receive backlog: they touch no flow state.
- Weak memory: the ring's loads and stores are sequentially consistent steps.
- Posting a send pushes its two queue entries in one step of the model.
- BitmapBlocks.BitmapBlockMgr.constructor: sizes within 64 of 2^32 are excluded, because the scan's uint32_t loop counter wraps there and the loop does not end.
- BitmapBlocks.BitmapBlockMgr.Resize: the same sizes are excluded for the same reason.
- Messages.LtMessageExt.CopyGradients: packets shorter than the header are excluded; no sender makes them, and the program would copy some four billion bytes.
- ReceivePath.HandleReceive: the receive buffer is at least as long as the header and an address, as every MTU in use makes it.
- Receiver.ReceivingChannel.OnPacket: keeps the records of a connection by value and without their buffers; the bytes are in ReceivePath.HandleReceive, which changes its record in the same way.
- Receiver.ReceivingChannel.HandleReceivedData: the two signals from the receiver only go to the sender's notice queue, which is the connection's DispatchUp move.
- TransportProgress.EveryRunCanComplete: says that completion stays reachable by some order of the threads' polls; that the order the loops are written in reaches it is not stated.
- FlowProgress.CanComplete: is about one flow alone; TransportProgress.EveryRunCanComplete is about all of them together.
- FlowStall.BoundIsSafeIff: the byte bound multiplies doubles in the program; the model takes the product as exact.
- Framing.DeliversInOrder: a peer that shuts down is not modelled.
- TrackerHandshake.Tracker.AssignRank: slaves that report links they already have, recover, or retry a dial are not modelled; every ordered dial succeeds.
- Resender.PassedAtMostOnce: timeouts and the retry limit are not modelled; a message may be resent at any time and for ever.
- Barrier.BarrierSafety: one customer per node, every node with an address of its own, no node leaves its group, no message is lost.
- Customer.CallbackBeforeWait: one response from every contacted server, on one customer thread; the callback's own clearing of the stored answers is not modelled.
- KvPull.PullReturnsStore: the zero-copy pull (is_worker_zpull_) copies nothing and is not modelled.
- Van's PackMeta and UnpackMeta, heartbeats, node management, KVServer, SimpleApp: layout work or easy members.
