# Verified models of the Studio bridge's kernels

A Dafny project beside the Studio MCP server and its plugin. It models the parts that carry state, protocols or
formats, in the form the source gives them, and proves what they are for. `dafny verify dfyconfig.toml` checks it all.

Where the source updates objects in place, a class or an array method does so here, and each method is proved equal to
a function on the state before it; the functions are then the subject of the lemmas. Events that the source gets from
timers, promises, sockets, file systems or Studio are parameters.

| files | subject |
|---|---|
| InstallLock | the plugin-install lock: mkdir, owner file, token-named claim, recheck, rename; any number of processes, exits between any two calls, process numbers reused |
| Broker, BrokerInvariant, BrokerSteps, BrokerRuns, BrokerPruning, BrokerLaws, BrokerEnds, BridgeService, OrderedMaps | the request broker: pending requests, operation records, retained results, cancellations, byte accounting |
| Topology, TopologyRuns, TopologyLaws, PeerRegistry | Peers, roles and Multiplayer Groups |
| StudioSockets, SocketLog, SocketTransport, DeliveryStamps | the WebSocket transport over the broker: ownership, replacement, pumping, closing, and the connection stamps of operations |
| EventRuns | the three classes above, driven by the events of any run |
| Huffman, JpegTables, JpegEntropy, JpegHeader, JpegEncoder, JpegSampling | the JPEG encoder from the choice of samples and from quantised blocks to the whole file, against a decoder written from ITU-T T.81 (sections B.2, C.2, F.1.2 and F.2.2) |
| Lz4, SkillModel | the LZ4 block decompressor against the meaning of a block, and the chunked file around it |
| PngFilters, PngImages, PngCodec, PngPixels, PngFormat | PNG reading and writing and the lazy uniformity test, against sections 6.2-6.6 of RFC 2083 |
| Viewport | the marker search in a window capture |
| StdioTransport | the bounded line framer |
| CaptureTransfer | the two-slot chunked capture transfer and its receiver |
| Quoting | Windows argument quoting, twice, against the parser |
| ExitConfirmation | confirmed process exit from observations, twice |
| PathAmbiguity, InstanceSearch, EditDistance | fast forms against simple ones |

## Findings

- Role uniqueness is not kept by every registration. `RegisterKeepsRoles` gives the exact condition, and
  `StrayingRegistration` a run of two registrations that breaks it: the group check looks at Peers of other Instances
  and the scope check at Peers already in the group, so a sibling that is moved along is seen by neither.
- The two implementations of exit confirmation differ when no misses and no grace are required: the registry asks for a
  new observation, the in-memory version does not (`VersionsDisagree`). They agree for every other setting.
- A lock directory without a readable owner file, or with a claim whose maker exited, is never recovered, and every other
  lock that its owner has left can be (`RecoverableExactlyWhen`). The source intends this and tells the user to remove
  such a directory by hand.
- The final flush of the JPEG encoder runs also when no bit is pending (its test is always true) and then writes a
  whole byte of ones, stuffed. It is padding, and decoding is not affected.
- The frame header keeps the low 16 bits of the sides, and neither `rgbaToJpeg` nor `encode` refuses larger ones: such an
  image reads back with other sides (`WideIsCut`).
- The 3% tolerance of the viewport's aspect absorbs rounding to whole pixels from 66 pixels a side on, and not at 65
  (`DrawnViewportIsFound`, `SmallViewportMayFail`).
- The choice between Zstandard and LZ4 by four leading bytes is safe: those bytes never start a valid LZ4 block
  (`MagicIsNoBlock`).

## Model

| member | source | states |
|---|---|---|
| InstallLock.LockIsSafe | packages/core/src/install-plugin-helpers.ts:338-453 | in every run of any number of installers, exits between any two steps included, at most one live caller is between its mkdir and its release, and no step of another process renames, removes or re-signs the directory of a live creator |
| InstallLock.StepKeepsInv | packages/core/src/install-plugin-helpers.ts:401-453 | every single file-system step, process exit and reuse of a process number keeps the invariant: one generation has one creator, and a claim that counts has one live holder whose owner has exited |
| InstallLock.StepRespectsOwner | packages/core/src/install-plugin-helpers.ts:348-380 | no single step takes a lock directory from its live creator |
| InstallLock.ProbeIsSound | packages/core/src/install-plugin-helpers.ts:320-336 | when the signal-0 probe calls an owner exited, the call that wrote that owner belongs to a process that has exited, however process numbers are reused |
| InstallLock.DroppedClaimIsUnheld | packages/core/src/install-plugin-helpers.ts:381-391 | the clean-up that removes a claim never removes the one another recovery relies on |
| InstallLock.SoloRecoverySucceeds | packages/core/src/install-plugin-helpers.ts:338-425 | a recovery that runs alone takes the lock over from an exited owner with a published file and no claim on its token, and ends holding a new generation signed by itself |
| InstallLock.OrphanIsPermanent | packages/core/src/install-plugin-helpers.ts:348-361 | a lock left without readable owner metadata, or whose recovery was interrupted after its claim, stays in place in every further run |
| InstallLock.RecoverableExactlyWhen | packages/core/src/install-plugin-helpers.ts:338-453 | a lock whose creator has exited or finished can be taken over in some continuation by a live installer if and only if its owner file was published and no claim is on it or the claim's maker still lives |
| InstallLock.OrphanIsReachable | packages/core/src/install-plugin-helpers.ts:413-432 | the other case comes about in four steps: an installer exits between its mkdir and its owner file |
| InstallLock.SoloRelease | packages/core/src/install-plugin-helpers.ts:441-453 | releasing frees the lock: from any state that can come about, the live holder running alone gets through its owner check and removes its directory, whatever claims lie in it, and nothing else has changed |
| InstallLock.SoloRemoval | packages/core/src/install-plugin-helpers.ts:434-445 | the recursive removal takes away the owner file, every claim and then the directory |
| InstallLock.SoloCleanup | packages/core/src/install-plugin-helpers.ts:427-439 | so does the clean-up after an owner file that could not be opened or written |
| InstallLock.HandOver | packages/core/src/install-plugin-helpers.ts:401-453 | once the holder has released, a waiting installer signs a directory of its own |
| InstallLock.RemovalTakesOwn | packages/core/src/install-plugin-helpers.ts:434-445 | a removal that finishes took the directory its own attempt had made, once it was empty |
| InstallLock.GuardsHold | packages/core/src/install-plugin-helpers.ts:427-446 | even where something else has meddled with the directory: a release removes only what carries its own signature, an owner file is made only where there is none, and only the directory it was made in is signed |
| InstallLock.GoneStaysGone | packages/core/src/install-plugin-helpers.ts:413-424 | a directory that has left the lock path never comes back in any run |
| InstallLock.CallsGoForward | packages/core/src/install-plugin-helpers.ts:338-453 | every call brings its attempt to a later place or removes an entry; an attempt tries again only after it took an old directory away, and makes one only where there is none |
| InstallLock.CallsMayFail | packages/core/src/install-plugin-helpers.ts:348-391 | every call may fail without effect, and then leaves a claim to give back, a directory to remove, or nothing to do |
| InstallLock.RefusedChangesNothing | packages/core/src/install-plugin-helpers.ts:320-361 | with an owner that cannot be read, still runs, or has been claimed, an installer by itself leaves the lock as it is, claims nothing and does not try again, on every path |
| Huffman.ComputeHuffmanTbl | packages/core/src/jpeg-encoder.ts:124-137 | the two nested counters build exactly the canonical code table: codes in order of length and value, given to the symbols in order |
| Huffman.CodesAreOrdered | packages/core/src/jpeg-encoder.ts:124-137 | each canonical code, cut or filled to any common length, comes strictly after the ones before it |
| Huffman.CanonicalIsPrefixFree | packages/core/src/jpeg-encoder.ts:124-137 | the table is prefix-free whenever the counts meet Kraft's inequality |
| Huffman.SymbolDecodes | packages/core/src/jpeg-encoder.ts:349-355 | reading a prefix-free code from the front of any bits gives its symbol and leaves the rest |
| JpegTables.LumaUsable | packages/core/src/jpeg-encoder.ts:139-144 | the luminance tables are prefix-free and have a code for every symbol a baseline block can need |
| JpegTables.ChromaUsable | packages/core/src/jpeg-encoder.ts:139-144 | the same of the chrominance tables |
| JpegTables.ZigzagIsPermutation | packages/core/src/jpeg-encoder.ts:13-17 | the zigzag list and its inverse undo each other on all 64 positions |
| JpegTables.ZigzagLaw | packages/core/src/jpeg-encoder.ts:13-17 | the list runs along the diagonals of the block from corner to corner, up on the even ones and down on the odd ones |
| JpegEncoding.InitCategoryNumber | packages/core/src/jpeg-encoder.ts:146-161 | after the loops every value from -32767 to 32767 has its bit length as category and, as its bits, itself or its one's complement |
| JpegEntropy.ExtendUndoesMagnitude | packages/core/src/jpeg-encoder.ts:146-161 | EXTEND (figure F.12 of ITU-T T.81) of the magnitude bits of any integer gives that integer |
| JpegEntropy.AcDecodes | packages/core/src/jpeg-encoder.ts:356-380 | run-length decoding from the start of a pending run of zeros gives the run and every later coefficient, for any number of ZRL symbols and with or without an end of block |
| JpegEntropy.BlockDecodes | packages/core/src/jpeg-encoder.ts:330-382 | decoding the bits of any block within the baseline range gives the block, whatever follows |
| JpegEntropy.ScanDecodes | packages/core/src/jpeg-encoder.ts:473-502 | decoding a whole scan, with the three DC predictors carried along, gives exactly its blocks |
| JpegEncoding.JpegEncoder.WriteBits | packages/core/src/jpeg-encoder.ts:184-204 | the bits written so far grow by the code, most significant bit first; output bytes, the byte in progress and its position always stand for exactly those bits, with every 0xFF stuffed |
| JpegEncoding.JpegEncoder.ProcessDU | packages/core/src/jpeg-encoder.ts:330-382 | one unit appends exactly the bits of its zigzag-ordered block and returns its DC value as the next predictor |
| JpegEncoding.JpegEncoder.WriteScan | packages/core/src/jpeg-encoder.ts:473-508 | all units followed by one-bits up to a whole byte |
| JpegEncoding.JpegEncoder.Flush | packages/core/src/jpeg-encoder.ts:504-508 | fills the last byte with ones; when no bit is pending it writes a whole byte of ones |
| JpegEncoding.JpegEncoder.Encode | packages/core/src/jpeg-encoder.ts:384-512 | the output is the header, a marker-free stretch and the end marker; a decoder that reads size, quantisation tables and Huffman tables out of the header gets exactly the quantised blocks back, for any sides of up to 16 bits and, by size, for no others |
| JpegEncoding.JpegEncoder.WriteHeader | packages/core/src/jpeg-encoder.ts:389-456 | the byte and word writes and their loops give the six segments |
| JpegEncoding.WideIsCut | packages/core/src/jpeg-encoder.ts:417-418 | a side of more than 16 bits never reads back |
| JpegHeader.HeaderReads | packages/core/src/jpeg-encoder.ts:389-456 | the segments read back as the low 16 bits of the sides, the quantisation tables, the selectors of three components and the Huffman tables in use |
| JpegHeader.SpecReads | packages/core/src/jpeg-encoder.ts:429-443 | a table specification reads back as the table computeHuffmanTbl builds from the same counts and symbols |
| JpegHeader.CodesCounted | packages/core/src/jpeg-encoder.ts:124-137 | a table has as many codes as its counts say, so the symbols are read to their last |
| JpegEncoding.UnstuffUndoesStuff | packages/core/src/jpeg-encoder.ts:184-204 | dropping the zero after each 0xFF gives back the bytes, whatever follows |
| JpegEncoding.StuffedIsMarkerFree | packages/core/src/jpeg-encoder.ts:184-204 | in stuffed data each 0xFF is followed by zero |
| JpegEncoding.StreamDecodes | packages/core/src/jpeg-encoder.ts:473-509 | any byte sequence whose bits are a padded scan, stuffed and put between header and end marker, reads back to the blocks |
| JpegSampling.SampleOffset | packages/core/src/jpeg-encoder.ts:475-482 | the clamped index is that of the pixel at the nearest row and column inside the image, and inside the buffer |
| JpegSampling.LoadBlock | packages/core/src/jpeg-encoder.ts:475-486 | all 64 samples of a block are those clamped pixels |
| JpegSampling.Corners | packages/core/src/jpeg-encoder.ts:473-474 | the loop visits every multiple-of-8 corner inside the image, and no other, once, row by row: as many as a decoder expects from the size |
| JpegSampling.TakenOnce | packages/core/src/jpeg-encoder.ts:473-482 | every pixel is taken by exactly one block at exactly one position, clamped repeats aside |
| Lz4.DecompressLz4Block | packages/core/src/studio-skills.ts:119-176 | the loop over one buffer gives, on every input, what the recursive reading of the block gives, errors included, and reads no output byte before it is written |
| Lz4.ReadExtendedLength | packages/core/src/studio-skills.ts:124-136 | a length and the offset after it, or failure when its bytes run out |
| Lz4.BlockDecodes | packages/core/src/studio-skills.ts:119-176 | decoding the encoding of any valid block, long lengths and overlapping matches included, gives its expansion |
| Lz4.AcceptedIsBlock | packages/core/src/studio-skills.ts:119-176 | an accepted input is the encoding of a valid block, and the output its expansion |
| Lz4.AcceptsExactlyBlocks | packages/core/src/studio-skills.ts:119-176 | accepted inputs are exactly the encodings of valid blocks of the promised length |
| Lz4.ResultLength | packages/core/src/studio-skills.ts:170-175 | success means exactly the promised number of bytes |
| Lz4.MatchIsPeriodic | packages/core/src/studio-skills.ts:164-167 | a match of any length repeats the last offset bytes |
| SkillModel.ByteReader.ReadBytes | packages/core/src/studio-skills.ts:67-98 | all of the bytes asked for, or none and the reader stays where it was |
| SkillModel.ByteReader.Skip | packages/core/src/studio-skills.ts:67-73 | steps over the bytes, or fails and stays |
| SkillModel.ByteReader.ReadUint32 | packages/core/src/studio-skills.ts:87-92 | the next four bytes, least significant first |
| SkillModel.DecompressChunk | packages/core/src/studio-skills.ts:178-189 | Zstandard behind its magic, LZ4 otherwise, each of exactly the promised length |
| SkillModel.ReadChunk | packages/core/src/studio-skills.ts:191-208 | one chunk taken off the reader, or the error of the chunk at the front |
| SkillModel.ReadModel | packages/core/src/studio-skills.ts:247-268 | the header check and the chunk loop up to the end mark |
| SkillModel.ReadsExactlyModels | packages/core/src/studio-skills.ts:247-300 | accepted are exactly a 32-byte header with the 14 bytes of the signature, well packed chunks, an end mark and whatever follows, and the chunks packed are the chunks read |
| SkillModel.HeaderRefused | packages/core/src/studio-skills.ts:248-250 | refused for its header exactly when shorter than 32 bytes or starting otherwise |
| SkillModel.CutFileIsRefused | packages/core/src/studio-skills.ts:248-300 | a file cut anywhere before the end of its end mark is refused |
| SkillModel.EndIsMissed | packages/core/src/studio-skills.ts:191-194 | well packed chunks without an end mark are refused for that, or for a truncated chunk header |
| SkillModel.MagicIsNoBlock | packages/core/src/studio-skills.ts:179-188 | no input starting with the Zstandard magic is an LZ4 block, so the test never sends a valid LZ4 chunk astray |
| SkillModel.ModelReads | packages/core/src/studio-skills.ts:191-208 | any list of chunks, each stored, LZ4- or Zstandard-packed by any compressor, reads back as the same chunks, whatever follows the end mark |
| SkillModel.AcceptedIsPrinted | packages/core/src/studio-skills.ts:191-208 | what is accepted is such a list of well packed chunks, its end mark and a rest |
| SkillModel.CutIsRefused | packages/core/src/studio-skills.ts:191-208 | a file cut anywhere before its end is refused, never read as a shorter one |
| BrokerRuns.DeliveredAtMostOnce | packages/core/src/bridge-service.ts:1403-1466 | over every timed run of admissions, retries, claims, disconnects and released claims, no record is handed to a transport twice |
| BrokerRuns.RedeliveryNeedsReadmission | packages/core/src/bridge-service.ts:1290-1337 | an identity is handed out again only after its record was pruned and it was admitted anew in between |
| BrokerRuns.SettledAtMostOnce | packages/core/src/bridge-service.ts:1529-1586 | no record is accepted as settled twice |
| BrokerRuns.EndedQueuedIsNeverExecuted | packages/core/src/bridge-service.ts:1362-1390 | a record whose waiter ended while queued says not executed, is never handed to a transport later and never settled by one |
| BrokerRuns.RecordsOnlyAdvance | packages/core/src/bridge-service.ts:1477-1493 | between any two moments a record's stage never moves back, its transport never changes, and settled is for good |
| BrokerRuns.RunStaysWithinBounds | packages/core/src/bridge-service.ts:1298-1332 | after every run: at most 1024 requests of 64 MiB, 32768 records, 4096 cancellations, 1024 results of 64 MiB and 4 outstanding requests a transport; a request is pending exactly while its record says so; kept results are those the records store; idle records are in the order of their last change |
| BrokerRuns.RunKeepsInv | packages/core/src/bridge-service.ts:1259-1720 | the whole invariant holds after every run |
| BrokerSteps.StepKeepsInv | packages/core/src/bridge-service.ts:1259-1720 | every event keeps the invariant, and every record after it is new or a later version of one before |
| BrokerPruning.PruneIsFilter | packages/core/src/bridge-service.ts:1657-1690 | the pruning that stops at the first fresh record leaves no stale idle record and drops no pending one; a fresh one goes only to make room, oldest first |
| BrokerPruning.TrimDropsOldest | packages/core/src/bridge-service.ts:1666-1678 | making room drops idle records from the oldest on, and only down to the limit |
| BrokerPruning.DropResultsTakesFewest | packages/core/src/bridge-service.ts:1679-1689 | the fewest results that make the rest fit are dropped, oldest first |
| BrokerPruning.ClaimTakesEarliest | packages/core/src/bridge-service.ts:1403-1440 | a claim takes the earliest-admitted request the transport may have, and nothing exactly when there is none or four are outstanding |
| BrokerLaws.PruneTakesExpired | packages/core/src/bridge-service.ts:1657-1690 | between operations a prune forgets exactly the idle records unchanged for 300 000 ms |
| BrokerLaws.AdmissionLaw | packages/core/src/bridge-service.ts:1290-1338 | collision, join, retained, too large, no capacity or admitted, told from what is still known of the identity and the room there is; an admission adds one queued record and request and drops a record only at the limit of 32768 |
| BrokerLaws.AnswerLaw | packages/core/src/bridge-service.ts:1529-1586 | an accepted answer is on record at once: success exactly without an error, an error-shaped body or a reported or inferred failure; the execution by the cases of the input; the stage; the result whenever it is at most 67 108 864 bytes, as only older ones make room; no other record or request changes |
| BrokerLaws.TransportAnswerLaw | packages/core/src/bridge-service.ts:1495-1517 | the same of a transport's answer, which counts only from the transport that was given the request while it and the target are connected through it; an error it explains is not local |
| BrokerLaws.ProgressLaw | packages/core/src/bridge-service.ts:1477-1493 | a report of progress moves the record on exactly when its sender may speak and it is news |
| BrokerEnds.EndLaw | packages/core/src/bridge-service.ts:1362-1390 | the end of a wait: not executed exactly if the request was queued or reported so, else unknown; the transport that has it is told to cancel it unless the connection went; nothing else changes |
| BrokerEnds.CancelAsks | packages/core/src/bridge-service.ts:588-600 | the new cancellation is kept unclaimed, those older than 60 000 ms go, and beyond 4096 the oldest |
| BrokerEnds.SweepLaw | packages/core/src/bridge-service.ts:1704-1712 | exactly the overdue waits end as timed out, and their records stay on file |
| BrokerEnds.UnregisterLaw | packages/core/src/bridge-service.ts:866-870 | exactly the waits on the Peer's requests end as disconnected, and nobody is asked to cancel |
| BrokerEnds.RegisterLaw | packages/core/src/bridge-service.ts:716-724 | a Peer stays with the transport it registered with first |
| BrokerEnds.ClearLaw | packages/core/src/bridge-service.ts:1714-1720 | every wait ends as disconnected and no cancellation is left |
| BrokerEnds.ClaimLaw | packages/core/src/bridge-service.ts:1423-1431 | a claim marks the chosen request and its record and nothing else |
| BrokerEnds.OutstandingCounts | packages/core/src/bridge-service.ts:1407-1411 | what a transport has outstanding is the number of requests marked with it |
| BrokerEnds.CancellationClaimLaw | packages/core/src/bridge-service.ts:1442-1455 | the first free cancellation of the transport that is still asked for is taken, and only that |
| BrokerEnds.ReleaseLaw | packages/core/src/bridge-service.ts:1457-1466 | a lost socket gives back its cancellations and nobody else's; requests it claimed stay claimed |
| Bridge.BridgeService.AdmitRequest | packages/core/src/bridge-service.ts:1290-1337 | retry, collision, size and capacity cases, or a new request and record; invariant and byte counters exact |
| Bridge.BridgeService.PruneOperations | packages/core/src/bridge-service.ts:1657-1690 | the three in-place loops with their early exits equal the filter, the trimming and the dropping whose meaning the lemmas above state; the byte counter stays the exact sum |
| Bridge.BridgeService.ForgetExpired | packages/core/src/bridge-service.ts:1658-1665 | the loop with its early exit removes exactly the idle records past retention |
| Bridge.BridgeService.TrimRecords | packages/core/src/bridge-service.ts:1666-1678 | the nested loops remove the oldest idle records until the count fits |
| Bridge.BridgeService.DropOldResults | packages/core/src/bridge-service.ts:1679-1689 | the loop drops retained results, oldest first, and corrects the byte counter |
| Bridge.BridgeService.CountOutstanding | packages/core/src/bridge-service.ts:1407-1410 | counts the requests delivered to the transport and still pending |
| Bridge.BridgeService.FindOldest | packages/core/src/bridge-service.ts:1413-1419 | the running minimum over the pending requests |
| Bridge.BridgeService.ClaimNextRequestForTransport | packages/core/src/bridge-service.ts:1403-1440 | the chosen request and its record are marked with owner, transport, stage and time; nothing else changes |
| Bridge.BridgeService.RemovePendingRequest | packages/core/src/bridge-service.ts:1392-1401 | removes a pending request with its bytes, once |
| Bridge.BridgeService.EndRequestWaiter | packages/core/src/bridge-service.ts:1362-1390 | the request leaves, its record is retired with its outcome, and a delivered one gets a cancellation unless disconnected |
| Bridge.BridgeService.NotifyRequestCancelled | packages/core/src/bridge-service.ts:588-601 | a tombstone for a delivered request that has none, with pruning before and after |
| Bridge.BridgeService.PrunePendingCancellations | packages/core/src/bridge-service.ts:1692-1702 | expired tombstones and those over the limit go, oldest first |
| Bridge.BridgeService.OwnedOperation | packages/core/src/bridge-service.ts:1468-1475 | true only for the transport the record was dispatched to, while both Peers are registered |
| Bridge.BridgeService.ObserveTransportProgress | packages/core/src/bridge-service.ts:1477-1493 | the guards and the record's move to the end of the order |
| Bridge.BridgeService.SettleTransportResponse | packages/core/src/bridge-service.ts:1495-1517 | only the owning transport settles; an error with an explicit outcome is no local send failure |
| Bridge.BridgeService.RecordResponse | packages/core/src/bridge-service.ts:1529-1586 | unknown, already settled, or accepted with outcome, stage and retained result |
| Bridge.BridgeService.CleanupOldRequests | packages/core/src/bridge-service.ts:1704-1712 | every overdue waiter ends as timed out, then pruning |
| Bridge.BridgeService.ClearAllPendingRequests | packages/core/src/bridge-service.ts:1714-1719 | every waiter ends as disconnected and no tombstone is left |
| Bridge.BridgeService.UnregisterPeer | packages/core/src/bridge-service.ts:866-871 | the waiters on the Peer's requests end as disconnected |
| Bridge.BridgeService.ClaimNextCancellationForTransport | packages/core/src/bridge-service.ts:1442-1455 | the first unclaimed tombstone of the transport |
| Bridge.BridgeService.ReleaseDeliveryClaims | packages/core/src/bridge-service.ts:1457-1466 | claims on tombstones return; claimed requests stay claimed |
| EventRuns.RunBroker | packages/core/src/bridge-service.ts:1259-1720 | the class, driven by any timed events, ends in the state of their run, of which the results over runs speak |
| TopologyRuns.RunIsConsistent | packages/core/src/bridge-service.ts:603-901 | after every run of registrations, group changes and departures a Peer carries a group id exactly when that group lists its Instance, no Instance is in two groups, no group is empty or repeats a member, and a controller is a member |
| TopologyRuns.RegistrationNeverThrows | packages/core/src/bridge-service.ts:732-819 | the attach at the end of a successful registration finds no conflict |
| TopologyRuns.RegisterKeepsRoles | packages/core/src/bridge-service.ts:716-830 | an accepted registration leaves roles unique in every scope if and only if it does not ask for a group its Instance is not in while another Peer of the Instance has the role it would get |
| TopologyRuns.StrayingRegistration | packages/core/src/bridge-service.ts:747-819 | the failing case exists: a second Peer of an Instance asking for a group moves its sibling of the same role along, and the group has two |
| TopologyRuns.RunKeepsRolesUnique | packages/core/src/bridge-service.ts:603-901 | roles stay unique over every run without such a registration |
| TopologyRuns.ClientGetsFreeOrdinal | packages/core/src/bridge-service.ts:752-766 | a new client gets the least ordinal free in its scope; a returning one keeps its own if free |
| TopologyRuns.ClientNeverDuplicate | packages/core/src/bridge-service.ts:732-797 | a client is refused as a duplicate only over the other Peers of its Instance |
| TopologyRuns.CreateGroupKeeps | packages/core/src/bridge-service.ts:646-670 | creating a group throws exactly on a role conflict and otherwise stays consistent |
| TopologyRuns.RemoveGroupKeeps | packages/core/src/bridge-service.ts:679-693 | removing a group stays consistent |
| TopologyRuns.UnregisterKeeps | packages/core/src/bridge-service.ts:836-881 | unregistering takes exactly the Peer and, if it is its own transport, the Peers that depend on it |
| TopologyRuns.UnregisterInstanceKeeps | packages/core/src/bridge-service.ts:883-901 | unregistering an Instance stays consistent, and roles stay unique |
| TopologyRuns.UnregisterInstanceTakes | packages/core/src/bridge-service.ts:883-901 | exactly the Peers of the Instance and those that depend on them for transport leave, and of the groups its runtime Peers were in only those with a runtime Peer left stay |
| TopologyLaws.RegistrationLaw | packages/core/src/bridge-service.ts:716-830 | every registration: identity mismatch; the first Peer of another Instance in the group with one of the Instance's roles; the first Peer whose name it would take or that has its name; the first holder of the role in the scope; or the role given, the Instance's Peers moved to the group, and nothing else changed |
| TopologyLaws.OrdinalLaw | packages/core/src/bridge-service.ts:467-472 | exactly the roles client- followed by digits have an ordinal, the number of the digits; with server they are the runtime roles |
| TopologyLaws.CreateLaw | packages/core/src/bridge-service.ts:666-670 | refused exactly over a Peer of another Instance with a role of the controller's Peers; otherwise the controller is in this group alone with its Peers and controls it, and a group it controlled has no controller |
| TopologyLaws.RemoveLaw | packages/core/src/bridge-service.ts:679-693 | refused exactly while a runtime Peer is in the group; otherwise the group goes and its Peers are in none |
| TopologyLaws.UnregisterLaw | packages/core/src/bridge-service.ts:832-881 | Instances that lost their last Peer leave their groups and nobody else does; a group keeps its controller as long as it is a member |
| TopologyLaws.UnregisterInstanceLaw | packages/core/src/bridge-service.ts:883-901 | the Instance leaves with those that depend on it; of the groups its runtime Peers were in exactly those without another go, with the mark of their Peers |
| Registry.PeerRegistry.RegisterPeer | packages/core/src/bridge-service.ts:716-830 | mismatch, duplicate and alias refusals in order, or the new Peer and its group; the registry stays consistent |
| Registry.PeerRegistry.AssignRole | packages/core/src/bridge-service.ts:750-766 | the role of the specification, ordinals read from the role names of the scope |
| Registry.PeerRegistry.FirstUnused | packages/core/src/bridge-service.ts:762-763 | the least positive number not in use |
| Registry.PeerRegistry.ConnectedInstanceIdCollision | packages/core/src/bridge-service.ts:699-714 | the first Peer whose grouped runtime name clashes, in either direction |
| Registry.PeerRegistry.GroupAttachmentConflict | packages/core/src/bridge-service.ts:631-643 | the first Peer of another Instance in the group with a role of this Instance |
| Registry.PeerRegistry.DetachInstanceFromOtherGroups | packages/core/src/bridge-service.ts:623-630 | the Instance leaves all but one group, with its control, and emptied groups go |
| Registry.PeerRegistry.AttachInstanceToGroup | packages/core/src/bridge-service.ts:646-664 | refused with nothing changed on a conflict; otherwise detached elsewhere, listed once, and its Peers carry the group |
| Registry.PeerRegistry.CreateMultiplayerGroup | packages/core/src/bridge-service.ts:666-670 | attaches the controller and marks it |
| Registry.PeerRegistry.RemoveMultiplayerGroup | packages/core/src/bridge-service.ts:679-693 | refused while a runtime Peer is in the group; otherwise the group goes and its Peers carry none |
| Registry.PeerRegistry.UnregisterPeer | packages/core/src/bridge-service.ts:832-881 | the Peer, its dependents in order, and Instances left without a Peer go |
| Registry.PeerRegistry.UnregisterInstanceId | packages/core/src/bridge-service.ts:883-901 | all Peers of the Instance, and the runtime groups left without a runtime Peer |
| EventRuns.RunRegistry | packages/core/src/bridge-service.ts:666-901 | the class, driven by any events, ends in the state of their run |
| StudioSockets.QueueAndSocketAgree | packages/core/src/studio-transport.ts:163-471 | after every run of openings, replacements, responses, send callbacks, heartbeats, closes and shutdown: a transport's delivery owners are exactly its current socket, at most one frame a socket is in flight, and there are at most 64 sockets, 64 closing ones and 128 acknowledgements a socket |
| StudioSockets.ReplaceKeeps | packages/core/src/studio-transport.ts:201-206 | replacing a socket never marks the transport as lost, and the new socket is the one owner |
| StudioSockets.OpenMarks | packages/core/src/studio-transport.ts:167-231 | opening marks its own transport lost only if the new socket closes at once |
| StudioSockets.CloseKeeps | packages/core/src/studio-transport.ts:436-463 | closing a current socket takes it and its ownership and marks its transport lost once; closing any other changes nothing |
| StudioSockets.PumpKeeps | packages/core/src/studio-transport.ts:341-386 | pumping keeps the invariant whatever the queue offers and whatever becomes of each frame |
| StudioSockets.ShutdownClosesAll | packages/core/src/studio-transport.ts:253-258 | after shutdown no socket and no owner is left |
| SocketLog.ResponsesAreAcknowledged | packages/core/src/studio-transport.ts:315-352 | after every run: a response recorded on a connection still open waits to be acknowledged there or was acknowledged since; acknowledgements answer recorded responses in the order of recording, each one of its own; nothing else is acknowledged |
| SocketLog.ResponseLaw | packages/core/src/studio-transport.ts:315-339 | a response is recorded unless that fails or 128 others wait for acknowledgement; then the connection closes |
| SocketLog.HighestRankFirst | packages/core/src/studio-transport.ts:345-381 | acknowledgement, changed status, cancellation, request, heartbeat: the first there is goes on the wire |
| SocketLog.QuietMeansEmpty | packages/core/src/studio-transport.ts:345-381 | a pump that leaves the connection open and free has nothing left to send, unless all its turns were requests that could not be framed |
| SocketLog.EventLaw | packages/core/src/studio-transport.ts:148-262 | an available request or a changed status pumps the transport's connection, a heartbeat in time makes status and heartbeat due, and the other events close it |
| SocketLog.DoneLaw | packages/core/src/studio-transport.ts:426-432 | the callback of a frame frees the connection for the next one, or closes it |
| SocketLog.OpenLaw | packages/core/src/studio-transport.ts:163-210 | refused exactly after shutdown, for a socket not ready, or for a new transport beside 64 others; otherwise the new connection has the transport and the old one is closed |
| SocketLog.ClosingLaw | packages/core/src/studio-transport.ts:447-462 | a closed socket waits among at most 64 for its peer; one more lets the oldest go |
| SocketTransport.WebSocketStudioTransport.Open | packages/core/src/studio-transport.ts:167-231 | refused, or the new owner activated before the replaced socket is closed, then pumped |
| SocketTransport.WebSocketStudioTransport.PumpConnection | packages/core/src/studio-transport.ts:341-386 | acknowledgements, changed status, cancellations, requests, heartbeat, in this order, one frame in flight |
| SocketTransport.WebSocketStudioTransport.SendFrame | packages/core/src/studio-transport.ts:388-434 | as specified: in flight, settled or closed |
| SocketTransport.WebSocketStudioTransport.SendDone | packages/core/src/studio-transport.ts:427-433 | as specified; a stale callback changes nothing |
| SocketTransport.WebSocketStudioTransport.CloseSocket | packages/core/src/studio-transport.ts:436-463 | as specified, once |
| SocketTransport.WebSocketStudioTransport.Acknowledge | packages/core/src/studio-transport.ts:316-338 | as specified, then pumped |
| SocketTransport.WebSocketStudioTransport.Heartbeat | packages/core/src/studio-transport.ts:212-227 | as specified, then pumped |
| SocketTransport.WebSocketStudioTransport.RefreshStatus | packages/core/src/studio-transport.ts:233-246 | as specified: the status is due, then pumped |
| SocketTransport.WebSocketStudioTransport.SocketClosed | packages/core/src/studio-transport.ts:188-191 | as specified: closed, then out of the closing set |
| SocketTransport.WebSocketStudioTransport.Close | packages/core/src/studio-transport.ts:253-258 | every current socket closes and no more open |
| EventRuns.RunSockets | packages/core/src/studio-transport.ts:144-470 | the class, driven by any events, ends in the state of their run |
| DeliveryStamps.LostExactlyWhileUndelivered | packages/core/src/bridge-service.ts:550-576 | after every run a dispatched, unsettled operation counts as connection lost exactly while no socket delivers for its transport |
| DeliveryStamps.RecordLaw | packages/core/src/bridge-service.ts:1423-1431 | a record is new without a transport, gets one while that has an owner, is settled for good, and goes |
| DeliveryStamps.StampLaw | packages/core/src/bridge-service.ts:550-577 | a new owner stamps the time of restoring on what counted as lost, the going of the last owner the time of loss on every open operation of the transport, and nothing else |
| DeliveryStamps.ReplacementStampsNothing | packages/core/src/bridge-service.ts:550-576 | activating a successor before dropping the previous socket leaves every stamp as it was |
| DeliveryStamps.OwnersAgree | packages/core/src/bridge-service.ts:550-576 | the transport model has the same owners after each call, and marks a transport lost exactly when this stamps its operations as lost |
| DeliveryStamps.ClaimsHaveAnOwner | packages/core/src/studio-transport.ts:341-386 | after any run a socket that may be pumped is the one owner of its transport, so requests are dispatched only to a transport with an owner |
| DeliveryStamps.ReplacedSocketStampsNothing | packages/core/src/studio-transport.ts:201-206 | after any run of sockets, opening one in the place of another leaves every stamp as it was |
| DeliveryStamps.DeliveryOwners.SetDeliveryActive | packages/core/src/bridge-service.ts:550-576 | the owner joins or leaves, and the loop stamps exactly the unsettled operations of the transport, lost when its last owner left and restored when one came |
| Stdio.Run | packages/core/src/stdio-transport.ts:75-195 | for every list of data, end, drain and send events from a new transport: what was reported is the beginning of the reports of the delivered bytes, all of them with the cut-off tail once the end was handled, and of all complete lines whenever nothing is put off |
| Stdio.ChunkingDoesNotMatter | packages/core/src/stdio-transport.ts:75-195 | so two transports given the same bytes in any chunks, with any interleaving of blocked output and drain, have reported the same, at the end of the input and whenever nothing is put off |
| Stdio.ReportsArePrefix | packages/core/src/stdio-transport.ts:75-195 | at any moment, also after the output closed it, what was reported is the beginning of that |
| Stdio.JoinUndoesSplit | packages/core/src/stdio-transport.ts:75-106 | the split loses, repeats and moves no byte |
| Stdio.SplitUndoesJoin | packages/core/src/stdio-transport.ts:75-106 | it is the only cut into lines without LF |
| Stdio.SplitExtends | packages/core/src/stdio-transport.ts:82-103 | bytes without LF only lengthen the line at hand |
| Stdio.BoundedStdioTransport.OnData | packages/core/src/stdio-transport.ts:75-106 | in place over one growing buffer: what is reported is always the report of what was consumed, and what is not consumed is put off as a chunk |
| Stdio.BoundedStdioTransport.Append | packages/core/src/stdio-transport.ts:84-102 | the line at hand grows by the bytes, kept while within the limit and only counted beyond it |
| Stdio.BoundedStdioTransport.FinishLine | packages/core/src/stdio-transport.ts:108-153 | the line is reported and the next one starts empty |
| Stdio.BoundedStdioTransport.OnEnd | packages/core/src/stdio-transport.ts:155-171 | every byte received has been consumed, an unfinished line is one refusal, and the transport closes; put off while a chunk waits |
| Stdio.BoundedStdioTransport.OnDrain | packages/core/src/stdio-transport.ts:186-195 | the chunk put off is consumed and then a waiting end, with nothing left over; with output open again everything received has been consumed |
| Stdio.BoundedStdioTransport.WriteMessage | packages/core/src/stdio-transport.ts:201-245 | closes the transport exactly when queued and new bytes exceed the output limit; a full output holds up the input |
| PngCodec.WriteThenDecode | packages/core/src/png-encoder.ts:28-54 | what rgbaToPng writes, decodeScreenshotPngToRgba turns back into the size and the first width*height*4 bytes when sides, pixels and file are within its limits, and refuses when they are not, for all pixels, with inflate undoing deflate |
| PngCodec.ScreenshotRoundTrip | packages/core/src/image-decode.ts:391-394 | decoding the written container within the limits gives the picture |
| PngCodec.OutsideIsRefused | packages/core/src/image-decode.ts:90-106 | a written container beyond the limits is refused |
| PngCodec.IsUniformPng | packages/core/src/image-decode.ts:342-362 | fails on the same data with the same error as the full decoder, and otherwise says what isUniformFrame says of the decoded picture, for all colour types and filters |
| PngCodec.DecodeScreenshotPngToRgba | packages/core/src/image-decode.ts:391-394 | container, filters and conversion, in place, as specified |
| PngCodec.InflatePngData | packages/core/src/image-decode.ts:214-338 | every refusal of the container in the order of the source, or header, scanlines and valid filter bytes |
| PngCodec.ScanChunks | packages/core/src/image-decode.ts:221-298 | the loop over chunks is the recursive reading of them |
| PngCodec.CheckFilters | packages/core/src/image-decode.ts:330-336 | true exactly when every row's filter byte is at most 4 |
| PngCodec.InflatedSound | packages/core/src/image-decode.ts:90-127 | an accepted file and its picture are within the limits, with a known colour type and exactly height rows of width*bpp+1 bytes |
| PngFormat.DecodesExactlyPngs | packages/core/src/image-decode.ts:214-340 | decoded are exactly the PNG files within the limits: signature, one header, at least one data chunk, any others, an empty end chunk, at most 65536 chunks, anything behind; the joined data inflate to the rows; and every pixel of the picture shows what the file says of its place |
| PngFormat.HeaderLaw | packages/core/src/image-decode.ts:31-136 | accepted headers are exactly those of 8-bit samples of the four colour types, not interlaced, with sides from 1 to 16384 and no more pixels than the limit |
| PngFormat.HeaderRefusals | packages/core/src/image-decode.ts:273-284 | a header that is refused is refused for the first of method, bit depth, interlacing, colour type, sides and pixels that does not fit |
| PngFormat.EndIsMissed | packages/core/src/image-decode.ts:233-301 | chunks without an end chunk are refused for that, or for a chunk that has begun |
| PngFormat.FilterLaw | packages/core/src/image-decode.ts:326-340 | exactly the data whose rows each start with a filter from 0 to 4 pass the check |
| PngPixels.EveryPixelShown | packages/core/src/image-decode.ts:160-187 | pixel x of row y is at 4(y width + x): its three colours, grey in all three, its alpha, or 255 where the colour type has none |
| PngPixels.EveryByteRestored | packages/core/src/image-decode.ts:138-158 | each restored byte is its filtered byte plus nothing, the byte before, the byte above, the floor of their mean or the Paeth neighbour, modulo 256, with zeros off the edges |
| PngCodec.ParsedHeaderSound | packages/core/src/image-decode.ts:261-284 | any header accepted in any list of chunks has positive sides and pixels within the limits, a known colour type and the scanline length of its size |
| PngCodec.RgbaToPng | packages/core/src/png-encoder.ts:28-54 | the refusals exactly, that of a side or length beyond 32 bits included, or signature, header, data and end chunks around the deflated rows |
| PngCodec.FilterRows | packages/core/src/png-encoder.ts:32-37 | each row behind a zero filter byte |
| PngCodec.ContainerParses | packages/core/src/png-encoder.ts:39-53 | the written container is read back as one header and one data chunk |
| PngCodec.FilteredDecodes | packages/core/src/png-encoder.ts:32-37 | decoding rows without a filter gives the pixels back |
| PngCodec.ReadWritten | packages/core/src/png-encoder.ts:18-26 | a 32-bit length survives writing and reading |
| PngFilters.UnfilterUndoesFilter | packages/core/src/image-decode.ts:138-158 | reconstruction undoes each of the five filters of sections 6.2-6.6 of RFC 2083, for every prior row and pixel size |
| PngFilters.FilterUndoesUnfilter | packages/core/src/image-decode.ts:138-158 | and filtering undoes reconstruction, so nothing is lost |
| PngFilters.RowsUndoStream | packages/core/src/image-decode.ts:160-187 | every picture comes back from its filtered stream, whatever filter each row chose |
| PngFilters.PaethPredictor | packages/core/src/image-decode.ts:21-29 | one of the three neighbours, none of them nearer to the estimate, ties in the source's order |
| PngFilters.UnfilterPngRow | packages/core/src/image-decode.ts:138-158 | in place the row becomes its reconstruction from the reconstructed row before it; no other byte changes |
| PngImages.ConvertScanlinesToRgba | packages/core/src/image-decode.ts:160-187 | row by row in place, the pixels of the reconstructed image |
| PngImages.IsUniformFrame | packages/core/src/host-capture.ts:92-103 | true exactly when there are pixels, the buffer holds them, and all have the first one's colour |
| PngImages.IsUniformRaw | packages/core/src/image-decode.ts:342-362 | row by row with early exit the same answer as on the whole decoded picture |
| Viewport.FindViewportRect | packages/core/src/host-capture.ts:112-163 | no markers exactly when no pixel is one; otherwise the least rectangle around all of them, refused unless its inset corners are markers and its sides fit the reported aspect |
| Viewport.ScanMarkers | packages/core/src/host-capture.ts:118-131 | the running minima and maxima are the bounds of the markers |
| Viewport.MarkerLaw | packages/core/src/host-capture.ts:105-107 | the pixel in column x of row y is a marker exactly when it is there, with red and blue of at least 200 and green of at most 60 |
| Viewport.AspectLaw | packages/core/src/host-capture.ts:153-155 | the scales agree exactly when, over one denominator, they differ by at most 3 in 100 of the larger |
| Viewport.DrawnViewportIsFound | packages/core/src/host-capture.ts:112-163 | the corner squares of a viewport of at least 66 pixels a side, shown at any scale with its sides rounded by up to a pixel, lead back to exactly that viewport |
| Viewport.SmallViewportMayFail | packages/core/src/host-capture.ts:112-163 | with 65 pixels a side there is a capture, its sides rounded by one pixel, that the search refuses |
| Viewport.DrawnAnswer | packages/core/src/host-capture.ts:112-163 | drawn markers give their viewport or, exactly when its sides miss the aspect, that refusal |
| Viewport.ExactViewportIsFound | packages/core/src/host-capture.ts:153-161 | at an exact scale any size is found |
| Quoting.CommandLineRoundTrip | packages/core/src/studio-instance-manager.ts:457-510 | every list of arguments, quoted, joined by blanks and parsed by the CommandLineToArgvW rules, is the same list, in both readings of doubled quotes and for any test of blanks that covers space and tab |
| Quoting.QuotedParses | packages/core/src/studio-instance-manager.ts:457-475 | one quoted argument before a blank or the end parses to itself |
| Quoting.QuoteWindowsCommandLineArg | packages/core/src/studio-instance-manager.ts:457-475 | the backslash-counting loop gives the recursive quoting |
| Quoting.WorkerQuote | scripts/studio-worker-job.cs:285-293 | the worker's loop gives the same |
| Quoting.WorkerCommandLine | scripts/studio-worker-job.cs:294-297 | the worker's line is the join of the quoted executable and arguments |
| ExitConfirmation.ClosedExactlyWhenConfirmed | packages/core/src/studio-instance-manager.ts:2774-2826 | an observation closes an open record if and only if it is accepted and says not running, and either the identity differs or the unbroken streak of misses has at least k and spans at least the grace period |
| ExitConfirmation.StreakTimes | packages/core/src/studio-instance-manager.ts:2804-2808 | the misses that count have strictly increasing times |
| ExitConfirmation.OlderEvidenceChangesNothing | packages/core/src/studio-instance-manager.ts:2778-2782 | older evidence and a closed record change nothing, in both versions |
| ExitConfirmation.VersionsAgreeExactlyWhen | packages/core/src/managed-instance-registry.ts:504-556 | the in-memory and the registry version agree on every trace if and only if a miss is required or the grace is positive |
| ExitConfirmation.VersionsDisagree | packages/core/src/managed-instance-registry.ts:529-541 | with neither required, a repeated observation closes the record in memory and not in the registry |
| ExitConfirmation.ManagedRecord.ApplyProcessObservation | packages/core/src/studio-instance-manager.ts:2774-2826 | the field updates are the specified step |
| ExitConfirmation.ManagedRecord.SweepObservation | packages/core/src/managed-instance-registry.ts:504-556 | so are those of the registry's sweep |
| PathAmbiguity.AmbiguousExactlyWhenUnresolved | studio-plugin/src/modules/PathAmbiguity.ts:23-101 | for every attached node of a sound tree whose root services are what service lookup returns: marked ambiguous if and only if resolving its name path reports an ambiguity or finds another instance |
| PathAmbiguity.DescendMisses | studio-plugin/src/modules/PathAmbiguity.ts:36-43 | one more segment misses the node exactly when its parent was missed or it shares its name with a sibling |
| PathAmbiguity.SegmentLaw | studio-plugin/src/modules/PathAmbiguity.ts:67-77 | below the root a segment is ambiguous exactly when two children of the parent bear its name |
| PathAmbiguity.AmbiguityChecker.Check | studio-plugin/src/modules/PathAmbiguity.ts:79-100 | whatever was asked before, the cached answer is the uncached one |
| PathAmbiguity.AmbiguityChecker.SegmentIsAmbiguous | studio-plugin/src/modules/PathAmbiguity.ts:67-77 | the verdict on one segment, from cached name counts |
| PathAmbiguity.ResolvePath | studio-plugin/src/modules/PathAmbiguity.ts:23-46 | the instance found and the first ambiguous segment |
| PathAmbiguity.FindNamedChild | studio-plugin/src/modules/PathAmbiguity.ts:8-18 | the first child of the name and how many there are |
| CaptureTransfer.Transfers.Read | studio-plugin/src/modules/CaptureTransfer.ts:148-171 | the next chunk exactly, logged to what was sent, or the transfer is discarded; the last chunk frees the slot; what was sent is always the data's prefix of length offset |
| CaptureTransfer.Transfers.Reserve | studio-plugin/src/modules/CaptureTransfer.ts:84-101 | refusals in order, or one of two slots is taken before the capture yields |
| CaptureTransfer.Transfers.Complete | studio-plugin/src/modules/CaptureTransfer.ts:110-141 | data is stored exactly when the slot is still this transfer's, in time, and the capture is valid; otherwise only this transfer is discarded |
| CaptureTransfer.Transfers.Expire | studio-plugin/src/modules/CaptureTransfer.ts:103-109 | the delayed task discards only a transfer whose own time has come |
| CaptureTransfer.Transfers.Prune | studio-plugin/src/modules/CaptureTransfer.ts:67-72 | exactly the transfers still in time remain |
| CaptureTransfer.Transfers.Release | studio-plugin/src/modules/CaptureTransfer.ts:74-79 | a well-formed identity is freed, known or not |
| CaptureTransfer.Transfers.HeldWithinBounds | studio-plugin/src/modules/CaptureTransfer.ts:92-98 | never more than two captures or 128 MiB are held |
| CaptureTransfer.SoundRead | studio-plugin/src/modules/CaptureTransfer.ts:165-169 | the chunk appended to what was sent is the longer prefix, and the slots stay sound |
| CaptureTransfer.SendableLaw | studio-plugin/src/modules/CaptureTransfer.ts:110-141 | a capture may be sent exactly with sides from 1 to 65536 and 4 to 67 108 864 characters in whole groups of base64, for raw pixels exactly those that four bytes a pixel take |
| CaptureTransfer.ReceiveChunks | studio-plugin/src/modules/CaptureTransfer.ts:194-207 | with any operations on other transfers, and any expiry, before each read: the chunks put together are the data and the slot is free; it succeeds if nothing comes upon the end of the transfer's time |
| CaptureTransfer.Receive | studio-plugin/src/modules/CaptureTransfer.ts:173-221 | with any such operations before begin, during the capture and before each read: what is received is what was captured, the slot is free in every case, and it is received whenever begin finds a slot, the capture is valid and time remains |
| CaptureTransfer.RunStep | studio-plugin/src/modules/CaptureTransfer.ts:84-171 | an operation on another transfer leaves this one as it was, or gone when its own time had come |
| EditDistance.EditDistance | packages/core/src/roblox-docs.ts:89-105 | the one-row program returns the length of a shortest sequence of single-character insertions, deletions and substitutions from left to right |
| EditDistance.NoFewerEdits | packages/core/src/roblox-docs.ts:89-105 | no sequence of edits is shorter |
| EditDistance.DistanceIsReached | packages/core/src/roblox-docs.ts:89-105 | some sequence is as short |
| EditDistance.Symmetric | packages/core/src/roblox-docs.ts:89-105 | both directions have the same distance |
| EditDistance.Triangle | packages/core/src/roblox-docs.ts:89-105 | the triangle inequality |
| InstanceSearch.Search | studio-plugin/src/modules/InstanceSearch.ts:101-123 | the results are the first maxResults matches of the recursive preorder, and truncated is set exactly when there is another |
| InstanceSearch.PushedWait | studio-plugin/src/modules/InstanceSearch.ts:121-122 | children pushed last to first are visited first to last, before what was waiting |

## Left out

- InstallLock: whatever the installer does while it holds the lock; errors of the file system other than those the source tells apart are one failing step; writing the owner file is two steps, so a partial file can be seen.
- Huffman, JpegEntropy, JpegEncoding: the colour conversion, the discrete cosine transform and quantisation; rounding in floating point is not modelled. Encoding starts from quantised integer blocks within the baseline range (AC at most 1023 in size, DC differences at most 2047), and the quantisation tables, computed from the quality, are parameters of the encoder.
- JpegEncoding.JpegEncoder.Encode: has the baseline range as a precondition; values beyond it have no category code in the tables.
- SkillModel: the meaning of INST and PROP chunks, the front matter and the list of skills; strings are bytes. Zstandard is a parameter.
- Broker, Bridge: message texts, promises, lifecycle waiters and status waiting; the times of lost and restored connections, which are in DeliveryStamps; validation of identities, signals aborted before admission and serialisation failures, which are refused before the state is touched. A result is represented by its serialised size. The clock is read once an event and never goes back; some methods of the source read it twice.
- Bridge.BridgeService.UnregisterPeer: the requests of one Peer; the Peers that go with it are in Registry.PeerRegistry.UnregisterPeer.
- Topology, Registry: attributes of a Peer that decide nothing (place, plugin version, activity times), stale-Peer clean-up and the routing of targets. Group ids are non-empty, as the HTTP endpoint demands, and ordinals are exact integers, without the rounding of very long digit strings.
- StudioSockets, SocketTransport: connections are values named by their generation; parsing of incoming frames, which only chooses the event; the flags that keep pumping from being entered twice, as events here run one after another; what the queue offers at each turn is a parameter; lost connections are marks in order, whose stamps are in DeliveryStamps.
- Stdio.BoundedStdioTransport: JSON parsing and the messages themselves; a line within the limit is reported as its bytes. Promises of senders and stream errors other than backpressure are not modelled.
- DeliveryStamps: a transport that is unregistered has its owner set deleted; its sockets are closed before that, so nothing is left to delete and the deletion is not modelled.
- PngCodec: inflate and deflate are parameters, of which only the inverse law is used, in the round trip alone; so is the checksum, which the reader of the source does not check. The nearest-neighbour resizing and the Base64 and file entry points of asset uploads are left out.
- Viewport: cropping and bilinear resampling. The aspect test is over real numbers, not rounded ones, and the reported viewport has positive sides, as its callers check.
- Quoting: the program name at the start of a command line has its own parsing rules, and is not parsed here. The test for blanks is a parameter that covers space, tab and what else it likes.
- ExitConfirmation: how a process is observed, persistence, and what marking an exit does besides closing the record; the registry's own directory lock.
- PathAmbiguity: the tree does not change while a checker is in use, as one checker serves one request.
- CaptureTransfer.Receive: no other request names its identity, which is a fresh GUID. An answer lost on the way between receiver and sender ends the reception, and is not modelled.
- EditDistance: strings are sequences of UTF-16 units as in the source; the catalogue search that uses the distance is left out.
- InstanceSearch: validation of the request and the text comparison; which instance matches is a parameter.
- HTTP routing, proxying, Open Cloud clients, tool schemas, process launch, window capture and the rest of the plugin.
