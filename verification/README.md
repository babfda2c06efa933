# Formal model of the LanChat daemon

LanChat is a peer-to-peer chat daemon for a local network. This project models its six stateful parts and
proves what they promise, for every input and every run:

- **Group rooms** (`RoomModel`, `RoomNode`, `RoomReplication`, `RoomSystem`, `RoomAdmission`, `RoomGate`,
  `RoomRoster`, `RoomTraffic`, `RoomInbox`): an owner holds the room, members keep last-known copies, and snapshots
  travel over links that lose, repeat and reorder. The network is every node running the same handlers over the set
  of all packets ever sent. The last three modules say exactly what every step does: who may do what, what leaves and
  to whom, and what is shown, held back and remembered.
- **Attachments** (`Base64`, `DownloadModel`, `Downloads`, `DownloadBudget`, `DownloadCommitment`, `DownloadDisk`,
  `DownloadTransfer`, `DownloadStory`, `Sums`): reassembly under per-file, per-peer, aggregate and free-space limits, and the
  sender's loop.
- **Friend handshake** (`SignatureBlob`, `PacketGuard`, `Friends`, `FriendConsent`, `FriendRecords`,
  `FriendHandshake`): signed datagrams, the memory of consumed nonces, consent, the ledger that repairs a damaged
  friends list, and two daemons that request each other.
- **Connections** (`ConnectionModel`, `Connections`, `ConnectionSlot`, `Keeper`, `Outbox`, `History`, `Delivery`,
  `Bytes`, `InboundReader`, `InboundStream`, `InboundClose`, `HeldRequests`): the one socket per peer, the queue that
  waits for it, the receiver's dedupe, inbound framing and proof of identity, and held friend requests.
- **HTTP reader and throttle** (`RequestReader`, `Throttle`).
- **Bracket checker** (`BracketChecker`, `BracketPieces`).

Code that changes state is a class or a method with loops (`RoomDaemon`, `DownloadTable`, `Guard`, `FriendBook`,
`Connection`, `HistoryLog`, `Reader`, `PendingRequests`, `Bucket`, `CheckFile`), and each method is proved to end
in exactly the state a specification function gives. The theorems are about runs of those functions.

How the outside world appears: every handler is atomic; the clock, free disk space, whether a file opens, a save
succeeds or a socket takes a write, certificates and signatures, JSON parsing and the network's splitting of a
stream are parameters or arbitrary inputs of a step. A packet reads the clock once. A fingerprint is a string
where it names a peer and a number where two are compared; its fixed-length digits order the same way.

## What the proofs found

- A room text that arrives inside a friend request is gated by the roster when it arrives, held, and shown when
  the request is accepted, without looking at the roster again (`RoomGate.HeldTextOutlivesTheRoster`), although
  the repository's README.md:398-407 promises that a removed member cannot put text in a room. This is the only way
  (`RoomGate.DroppedPeersAreSilentUnlessHeld`).
- The aggregate budget binds declared sizes, not bytes: attachments.py:69-71 promises more than
  attachments.py:514-541 keeps (`DownloadBudget.UnannouncedBytesEscapeTheBudget`).
  `DownloadCommitment.CommittedFitsIffNeverOverdrawn` says exactly when it is kept. A declared size can also fall
  below what was written; `DownloadBudget.NoneOverrunIffNoneTooLate` says exactly when, and
  `DownloadBudget.LateTotalOverruns` gives a run.
- A flush that fails keeps only the failing message, so every message behind it is lost, although the comment at
  server.py:1755 says the rest is kept (`Outbox.SubmittedIsWrittenThenHeld` gives the exact condition,
  `Outbox.FailedFlushLosesTheTail` a run).
- Duplicate detection does not survive a restart, although history.py:179-180 describes it as a look into the
  history (`History.RestartForgetsMids`).
- A packet can be honoured twice. While the clock does not go back this happens inside its window exactly if the daemon
  restarted at a moment when nothing had been saved since the first time (`PacketGuard.HonouredAgainIffForgotten`).
  While the daemon runs on it happens exactly if some packet was checked by a clock past the first one's expiry, which
  takes a clock that goes back afterwards (`PacketGuard.HonouredAgainIffPurged`). Over all runs
  `PacketGuard.HonouredAgainIffNotInMemory` gives the condition.
- `readline` at the end of the stream returns leftover bytes without consuming them (`RequestReader.LeftoverComesBack`);
  `RequestReader.AnswersAreThePrefix` says exactly which sequences of calls read them twice.

## Model

| member | source | states |
|---|---|---|
| RoomNode.RoomDaemon.Write | server.py:1759-1780 | an envelope leaves only over a socket that takes a write now, never to oneself; nothing else changes |
| RoomNode.RoomDaemon.Bump | rooms.py:203-212 | a changed record is stored where it was found, under the next sequence number |
| RoomNode.RoomDaemon.SendRoomState | rooms.py:240-263 | a snapshot without the invitation ledger goes to every member but the owner whose socket takes a write |
| RoomNode.RoomDaemon.CreateRoom | rooms.py:275-285 | a new room at sequence number 1 with its creator as only member and an empty ledger |
| RoomNode.RoomDaemon.OwnerInvite | rooms.py:292-314 | a one-shot ticket is recorded only when the invitation was handed to a live socket; otherwise nothing changes |
| RoomNode.RoomDaemon.OwnerAdmit | rooms.py:317-335 | a peer already on the roster changes nothing, a new one enters without the invite right under the next sequence number; either way every member gets the snapshot |
| RoomNode.RoomDaemon.OwnerRemove | rooms.py:338-359 | the peer leaves roster and ledger together, is told, and the rest get the new snapshot; never the owner |
| RoomNode.RoomDaemon.OwnerSetCanInvite | rooms.py:362-375 | only the flag of a listed member changes, under the next sequence number |
| RoomNode.RoomDaemon.OwnerToggleColors | rooms.py:417-428 | only the colour switch changes, under the next sequence number |
| RoomNode.RoomDaemon.ApplyMemberColor | rooms.py:403-414 | one member's colour changes in whichever copy we hold, and the change is broadcast |
| RoomNode.RoomDaemon.MemberSetColor | rooms.py:378-400 | the owner applies its colour, a member asks the owner; invalid colours change nothing |
| RoomNode.RoomDaemon.MemberLeave | rooms.py:431-490 | an owner disbands the room and tells the rest; a member tells its owner and drops its copy, keeps everything if the owner is unreachable, and only drops its copy if the owner is not trusted |
| RoomNode.RoomDaemon.ForgetRoom | rooms.py:493-523 | only a cached copy of a room we neither own nor belong to goes, and nothing is sent |
| RoomNode.RoomDaemon.FanOutRoomFile | rooms.py:776-786 | a room file goes to every other member of the owner's record, the original poster included, and is shown locally |
| RoomNode.RoomDaemon.PostRoomFile | rooms.py:751-773 | an owner fans out directly; a member sends to the recorded owner and shows its own copy only if that left |
| RoomNode.RoomDaemon.SendRoomText | rooms.py:875-898 | a text that is not blank goes to every other member of the record and into our own thread |
| RoomNode.RoomDaemon.PushMissingRoomStates | rooms.py:220-237 | a re-sync request goes to the recorded owner of every cached room |
| RoomNode.RoomDaemon.HandleRoomJoin | rooms.py:645-685 | a join of a trusted peer uses up its ticket on every path; only a member is re-synced and only a holder of a ticket enters |
| RoomNode.RoomDaemon.HandleRoomAdd | rooms.py:686-703 | a member's add is honoured only with the invite right, by the owner, for a trusted peer |
| RoomNode.RoomDaemon.HandleRoomColorSet | rooms.py:704-717 | a colour change is applied only by the owner, for a listed member, with a valid colour |
| RoomNode.RoomDaemon.HandleRoomFile | rooms.py:806-850 | an owner fans a listed member's file out; a member shows a file only of a listed author, relayed only by the recorded owner |
| RoomNode.RoomDaemon.HandleRoomFileMsg | rooms.py:806-850 | the member's gate alone, which a room file in an envelope of its own meets: writer and author listed now, and one person unless the owner relays |
| RoomNode.RoomDaemon.HandleRoomText | server.py:2394-2512 | a room text, unless blank without a file, is shown only if its sender is on our record now, or is held back when it comes inside a friend request |
| RoomNode.RoomDaemon.HandleRoomMsg | rooms.py:541-743 | dispatch: an envelope acts only as the peer its connection proved, except an owner's relayed file |
| RoomNode.RoomDaemon.AcceptFriend | server.py:3207-3224 | accepting a peer shows exactly its held messages, in order, and keeps everybody else's held |
| RoomNode.RoomDaemon.AddPeer | server.py:2853-2878 | an owner invites, a member with the right asks the owner, anybody else does nothing |
| RoomNode.RoomDaemon.HandleCommand | server.py:2805-2935 | every room command leaves the daemon in the state of the model |
| RoomReplication.CommitKeeps | rooms.py:203-212 | a committed change appends exactly one state to the room's history, one sequence number up |
| RoomReplication.CommandKeeps | rooms.py:275-523 | every command keeps owned rooms, their histories and all packets ever sent consistent, and histories only grow |
| RoomReplication.ArrivalKeeps | rooms.py:541-743 | so does every envelope that can arrive |
| RoomSystem.CacheChange | rooms.py:561-603 | a cached record changes only by an accepted snapshot of its recorded owner or by a first invitation |
| RoomSystem.CacheLifetimeStep | rooms.py:561-603 | within one cache lifetime the sequence number never goes down; a removed entry comes back only as the stub of a new invitation, never by a late snapshot |
| RoomSystem.StepKeepsInvariant | rooms.py:541-743 | every handler of any node keeps the invariant of the whole network |
| RoomSystem.RunKeepsInvariant | rooms.py:541-743 | the invariant holds at every moment of every run |
| RoomSystem.HistoryIsReal | rooms.py:203-208 | the logged history of a room consists of states the owner really was in |
| RoomSystem.CacheIsAPastOwnerState | rooms.py:561-588 | under any loss, repetition and reordering, every record that is not an invitation stub equals the owner's room, without its ledger, at some earlier or current moment |
| RoomSystem.SequenceNumbersIdentifyStates | rooms.py:203-204 | an owner's sequence number never goes down, and two states with the same number are identical on the wire |
| RoomSystem.CurrentSnapshotConverges | rooms.py:561-588 | the arrival of the current snapshot at a node with a record makes the record equal to the owner's room |
| RoomSystem.EqualUntilTheNextChange | rooms.py:561-588 | once the current snapshot has arrived, the member's record equals the owner's room at every later moment until the owner's next change, whatever late or repeated envelopes come |
| RoomSystem.EveryChangeIsBroadcast | rooms.py:240-263 | every wire change of an owned room leaves, in the same step, to each reachable member |
| RoomAdmission.TicketMeansInvited | rooms.py:292-314 | a ticket in the ledger means an invitation since the last removal or join of that peer |
| RoomAdmission.EveryEntryHadItsOwnInvitation | rooms.py:645-700 | in every run of a node, whatever envelopes its authenticated peers make up or replay, each entry into a roster is preceded by a delivered invitation with no removal and no other join of the peer in between |
| RoomAdmission.RosterIsEntriesMinusRemovals | rooms.py:317-359 | in every such run a roster is exactly the owner and the peers that entered and were not removed since |
| RoomRoster.StepNews | rooms.py:645-703 | over every step: somebody is invited exactly by our own command or at the request of a member with the invite right for a trusted peer, admitted exactly if trusted and listed or holding a ticket, removed exactly by us or by leaving |
| RoomRoster.EntersIffInvited | rooms.py:645-685 | in every run a joining peer enters exactly if it is trusted, not on the roster, and an invitation of it is neither used up nor withdrawn |
| RoomRoster.RoomStep | rooms.py:362-428 | every step moves an owned room only as it may: the invite right and the colour switch by the owner, a colour by the member itself, and a newcomer starts without the right |
| RoomRoster.RoomsComeAndGo | rooms.py:275-490 | an owned room is there exactly if it was made now, or was there and we do not leave it now |
| RoomRoster.RightIsTheLastGrant | rooms.py:362-375 | in every run a member may invite exactly if it is the owner, or the owner gave it the right since it entered and has not taken it away |
| RoomRoster.ColorsAreWellFormed | rooms.py:378-400 | in every run each colour on an owned roster is the theme or a hexadecimal colour, with a token of at most 32 characters |
| RoomTraffic.StepSends | rooms.py:220-263 | every step hands out exactly what it should and to exactly whom: texts and files, invitations and notices, requests to the owner, and snapshots of the room as it is after the step |
| RoomTraffic.EveryStepSendsRightly | rooms.py:541-743 | so at every step of every run of the network |
| RoomInbox.StepBoxes | server.py:2394-2512 | every step shows and holds back exactly what it should: no message that passes the gate is dropped, none that does not is shown |
| RoomInbox.AcceptShowsWhatWasHeld | server.py:3207-3224 | in every run accepting a friend shows exactly what was held back of it since our last answer, in order |
| RoomInbox.StepCopies | rooms.py:561-603 | over every step our copy of a room is the snapshot or stub that arrived, gone, or as it was, each exactly when it should be |
| RoomInbox.EveryStepMovesCopiesRightly | rooms.py:541-743 | so at every step of every run of the network |
| RoomInbox.OrphansStay | rooms.py:431-523 | a copy that names us owner is not forgotten, and leaving it, or one that lists nobody else, only takes us off it |
| RoomGate.ShownStep | server.py:2437-2455 | whatever a node newly shows is its own, gated by its record of the room at that moment, or was held and is revealed by its accept |
| RoomGate.StaysOffTheRoster | rooms.py:561-588 | a peer dropped by an applied snapshot stays off the record until a later snapshot lists it |
| RoomGate.DroppedPeersAreSilentUnlessHeld | server.py:2437-2455 | after a snapshot drops a peer, nothing by it is newly shown in the room until it is listed again, except exactly when its earlier text was held in a friend request and we accept it now |
| RoomGate.HeldTextOutlivesTheRoster | server.py:2465-2512 | the exception happens: a concrete run in which a dropped peer's held room text is revealed |
| Base64.RoundTrip | attachments.py:539-545 | decoding what the sender encoded gives the bytes back, with the decoder's leniency modelled |
| Base64.WhatDecodes | attachments.py:539-545 | which text decodes: whole groups of four, or two or three of a group and a padding of the right length, after which anything may follow; a padding elsewhere is skipped |
| Base64.WhatCounts | attachments.py:539-545 | every ASCII character outside the alphabet is as if it were not there, and one outside ASCII spoils the text |
| Downloads.DownloadTable.ReservedBytes | attachments.py:310-318 | the loop computes the sum of declared totals, or bytes written where no total is known |
| Downloads.DownloadTable.PurgeStaleTransfers | attachments.py:380-388 | exactly the transfers idle for longer than the time to live go, with their partial files |
| Downloads.DownloadTable.PeerCount | attachments.py:389-390 | the loop counts exactly the transfers of one peer |
| Downloads.DownloadTable.CheckCapacity | attachments.py:336-356 | file cap, aggregate budget and free space decide, in this order, with an unknown size charged its worst case |
| Downloads.DownloadTable.DlBegin | attachments.py:359-488 | begin: purge, per-peer and global counts, open, capacity; an entry exists afterwards exactly if all passed |
| Downloads.DownloadTable.DlChunk | attachments.py:491-572 | a chunk is refused, aborts the transfer, or appends its decoded bytes, for each branch of the code in its order |
| Downloads.DownloadTable.AbortTransfer | attachments.py:575-587 | entry and partial file go together |
| Downloads.DownloadTable.SetExpectedDigest | attachments.py:612-623 | a digest from the end frame only fills an empty one |
| Downloads.DownloadTable.DlFinish | attachments.py:626-664 | saved, mismatch, aborted or incomplete, decided in the code's order; the entry always goes |
| Downloads.DownloadTable.ApplyConfigLimits | attachments.py:251-307 | absent, mistyped or too small values keep the current limit, too large ones are clamped, and the file cap never passes the budget |
| Downloads.ServeAttachment | attachments.py:707-750 | the sender loop emits exactly the frames of the file, or the prefix the socket took |
| Downloads.FramesAre | attachments.py:707-750 | the frames of a file are its chunks of 128 kilobytes, numbered from zero and announcing its size, and in the end its digest |
| DownloadBudget.StepKeepsBudget | attachments.py:310-356 | every operation keeps the counts, the caps and the sum of declared totals within the budget while limits are not lowered |
| DownloadBudget.DeclaredTotalsFitTheBudget | attachments.py:310-356 | so they hold at every moment of every such run |
| DownloadBudget.CapsSurviveAnyLimits | attachments.py:359-488 | written and declared size never pass the cap a transfer was admitted under, even when the ceiling is lowered later |
| DownloadBudget.BytesInProgressFitTheBudget | attachments.py:491-572 | if every chunk announces a size, written never passes declared, and the bytes in progress fit the budget |
| DownloadBudget.OverrunOnlyByLateTotal | attachments.py:514-545 | after a chunk its transfer is gone or has written no more than declared, unless and only unless the chunk declared late: a first total below what was written, admitted by cap, budget and free space, with undecodable data |
| DownloadBudget.StepOverruns | attachments.py:514-545 | the same over every operation and for all transfers at once |
| DownloadBudget.NoneOverrunIffNoneTooLate | attachments.py:514-545 | over every run, whatever the limits do, no transfer has written more than it declared if and only if no such chunk came before |
| DownloadCommitment.StepCommits | attachments.py:69-71 | committed space stays within the budget over an operation if and only if it is not an accepted chunk of unannounced size bigger than the room left |
| DownloadCommitment.CommittedFitsIffNeverOverdrawn | attachments.py:310-356 | over a run with limits fixed or raised, committed space fits at every moment if and only if no such chunk came before |
| DownloadBudget.UnannouncedBytesEscapeTheBudget | attachments.py:514-541 | without announced sizes the budget does not hold: a run of three interleaved transfers under a clock that advances, in chunks of the sender's size that fit a frame, over a disk that fills as they write, goes past it |
| DownloadBudget.LateTotalOverruns | attachments.py:535-545 | the overrun happens: a run of a begin, an accepted chunk and an undecodable chunk that declares one byte |
| DownloadDisk.BeginReadsTheDisk | attachments.py:444-480 | a transfer begins only over a disk read to be above the keep-free floor |
| DownloadDisk.FloorStep | attachments.py:552-570 | every operation keeps the free space above the floor less what was written since the last reading, at most one interval a transfer |
| DownloadDisk.FreeSpaceStaysNearTheFloor | attachments.py:552-570 | once a transfer has begun, in any interleaving, free space never falls below the floor less eight check intervals |
| DownloadTransfer.PartialFileIsWhatWasAccepted | attachments.py:491-572 | the partial file is the concatenation of the chunks accepted since begin |
| DownloadTransfer.WholeFileArrives | attachments.py:722-745 | the frames of a file handed over in order, among any other transfers, leave exactly the file in the partial file |
| DownloadTransfer.StreamedFileIsSaved | attachments.py:707-750 | a stable file streamed by the sender loop ends saved with exactly its bytes |
| DownloadStory.EntryIsItsStory | attachments.py:491-623 | at every moment of every run the entry of a transfer is what its run says: the first digest and the first size announced, the bytes accepted, the last time it was active, the cap of its begin |
| DownloadStory.EveryEnd | attachments.py:626-664 | only its own peer ends a transfer; it is saved exactly if that peer says so, every byte of the size first announced is there, the bytes have the digest first announced and the rename works; each other report exactly in its own case |
| DownloadStory.SavedMeansComplete | attachments.py:612-664 | saved implies the target is the accepted bytes, of the size and the digest announced with the message, whatever the end frames say; a transfer of known size that lost bytes is never saved |
| DownloadStory.LeavesExactlyWhen | attachments.py:380-572 | over every run a transfer leaves the table exactly when its peer ends it, when it was idle for ten minutes and another begins, or when a chunk of its peer dooms it |
| DownloadStory.WrittenExactlyWhen | attachments.py:491-572 | exactly the other chunks of its own peer whose data decodes are written |
| DownloadStory.BeginsExactlyWhen | attachments.py:336-488 | a transfer begins exactly if peer and table have a slot, the file opens, and every size it may turn out to have fits cap, budget and disk |
| DownloadStory.BeginAnswers | attachments.py:380-488 | every refused begin answers the reason that applies and leaves the other transfers and, but for its own partial file, all files alone |
| DownloadStory.ChunkAnswers | attachments.py:514-572 | every chunk answers with what is written now and the size that counts |
| DownloadStory.SettingsAreFollowed | attachments.py:251-307 | each limit follows its own setting between 64 MB and 1 TB, a file is never allowed more than all together, and a peer gets one to eight slots |
| DownloadStory.LimitsStayInRange | attachments.py:251-307 | in every run all limits stay in their ranges, whatever the settings |
| SignatureBlob.BlobIsReadBack | server.py:1162-1171 | a parser recovers kind, sender, recipient, nonce, iat and exp from the length-prefixed text |
| SignatureBlob.BlobInjective | server.py:1162-1171 | two operations with the same text are the same |
| SignatureBlob.SeenKeyInjective | server.py:1174-1177 | two pairs of sender and nonce with the same key are the same |
| PacketGuard.Guard.SeenLoad | server.py:1180-1192 | the saved map replaces the one in memory if it can be read |
| PacketGuard.Guard.PruneSeen | server.py:1220-1222 | the loop removes exactly the entries whose expiry and slack are past |
| PacketGuard.Guard.SeenCheck | server.py:1206-1228 | first use of a (sender, nonce) wins and is saved; any later use fails and changes nothing but the pruning |
| PacketGuard.Guard.VerifyPacket | server.py:1273-1319 | a packet is honoured exactly if it passes identity, recipient, window, nonce, signature and first use |
| PacketGuard.HonouredExactly | server.py:1273-1319 | for every packet of every run, in fields and numbers, exactly when it is honoured |
| PacketGuard.HonouredInItsWindow | server.py:1298-1312 | a packet as its sender makes it is honoured exactly from 30 seconds before to 150 after it was made, if its nonce is not remembered |
| PacketGuard.FirstUseIsHonoured | server.py:1206-1228 | the first packet of a sender and nonce is honoured in that window, whatever else came, however disk and process behaved |
| PacketGuard.AcceptableFor210Seconds | server.py:1298-1312 | two moments at which a packet is acceptable are at most 210 seconds apart |
| PacketGuard.HeldUntilExpiry | server.py:1206-1228 | what an honoured packet leaves in memory is there until its signed expiry is past, over restarts |
| PacketGuard.NonceHonouredOncePerWindow | server.py:1206-1228 | of two honoured packets with the same sender and nonce the first had expired before the second came |
| PacketGuard.GenuineWasIssued | server.py:1284-1319 | with unforgeable signatures, what passes the checks was issued by that sender for this daemon with the same type and window |
| PacketGuard.OperationHonouredAtMostOnce | server.py:1273-1319 | over any run with restarts, a clock that does not go back and saves that succeed, each issued operation is honoured at most once |
| PacketGuard.NothingOlderThan210Seconds | server.py:1213-1222 | after any packet that reaches the nonce check, every entry was made by a packet honoured at most 210 seconds ago |
| PacketGuard.HonouredAgainIffPurged | server.py:1213-1228 | whatever the clock does while the process runs on, a nonce used alone is honoured again if and only if a packet got to the nonce check by a clock past the first packet's expiry |
| PacketGuard.FailedSaveReopensTheWindow | server.py:1195-1203 | the restart case happens: a failed save and a restart, and every packet still acceptable is honoured twice |
| PacketGuard.HonouredAgainIffForgotten | server.py:1180-1228 | a nonce used alone is honoured again inside its signed window if and only if the process restarted when nothing had been saved since |
| PacketGuard.HonouredAgainIffNotInMemory | server.py:1180-1228 | over every run with any clock, failed saves and restarts, a nonce nobody else uses is honoured again if and only if its copy in memory is gone or its expiry is past, where a purge removes that copy, a save makes the disk agree with it and a restart makes it agree with the disk |
| PacketGuard.ClockGoingBackReopensTheWindow | server.py:1206-1228 | the clock case happens: another packet purges the nonce, the clock goes back, and the first is honoured again |
| Friends.FriendBook.Befriend | server.py:942-961 | the first record of the id is overwritten, else one is appended; a confirmed one is mirrored in the ledger |
| Friends.FriendBook.Drop | server.py:964-980 | all records, the ledger entry and the outstanding request of a peer go; true exactly if there was a record |
| Friends.FriendBook.DropIfUnconfirmed | server.py:997-1008 | only a peer whose first record is unconfirmed goes |
| Friends.FriendBook.Sync | server.py:875-888 | only the first nameless record of the id takes the name |
| Friends.FriendBook.Reconcile | server.py:599-616 | the list is kept and exactly the missing ledger ids are added as confirmed friends, each once |
| Friends.FriendBook.Handle | server.py:2717-2750 | every friend command and every verified friend message leaves the book in the state of the model |
| Friends.FriendBook.Confirm | server.py:1363-1376 | the peer is confirmed and its request no longer outstanding |
| FriendConsent.ApplySets | server.py:2264-2306 | for every operation, exactly who is confirmed and what is outstanding afterwards, peer by peer |
| FriendConsent.RestartRestoresTheConfirmed | server.py:599-616 | however many records the configuration lost, a restart brings back exactly the confirmed peers, the empty id aside |
| FriendConsent.LedgerMirrorsTheConfirmed | server.py:942-980 | at every moment the ledger holds exactly the confirmed ids, and no id is recorded twice |
| FriendConsent.WantedMeansOutstanding | server.py:2717-2750 | a peer is wanted exactly while a request of ours to it is neither answered, declined, withdrawn nor lost with the process |
| FriendConsent.MessagesConfirmOnlyTheRequested | server.py:1398-1433 | a message confirms only its sender, only while our request is outstanding, and uses it up |
| FriendConsent.ConfirmedMeansConsent | server.py:2476-2489 | a confirmed peer was requested, accepted or added by the user after the last parting from it |
| FriendRecords.RecordStep | server.py:875-1008 | over every operation a record is on the list exactly if it was written now, with the operation's address and name, or was there, perhaps nameless, and is neither rewritten nor parted from; a stranger that asks over TCP gets a waiting record |
| FriendRecords.LedgerStep | server.py:942-980 | the ledger keeps the name a peer was last confirmed under until we part from it |
| FriendRecords.ListedMeansIntroduced | server.py:942-1008 | in every run a peer is on the list exactly if an operation put it there and nothing has taken it off since |
| FriendHandshake.DeliveryArrives | server.py:1338-1382 | a delivered request or accept settles the receiver's request and is answered only if there was one |
| FriendHandshake.HandshakeConverges | server.py:1338-1433 | two daemons that each issue one request: at most six moves, and at quiescence both are confirmed with nothing outstanding |
| Connections.Connection.SendAll | server.py:1750-1756 | a live socket takes the line or dies; a dead one takes nothing |
| Connections.Connection.FlushLocked | server.py:1739-1756 | the queue is written in order skipping mids already written; on an error only the failing message is kept |
| Connections.Connection.WriteLine | server.py:1759-1780 | written now, or the socket is closed and a holdable line queued |
| Connections.Connection.DropConn | server.py:1783-1790 | the slot is cleared and its socket closed |
| Connections.Connection.MaybeSetActive | server.py:1800-1828 | an occupied slot is taken over only by a socket the lower id dialled; adoption flushes |
| Connections.Connection.EndReader | server.py:1881-1886 | a reader clears the slot only if it still holds its own socket |
| Keeper.MoveSteady | server.py:1800-1828 | no move closes the lower id's socket or takes a slot from it, and an offer of it is adopted |
| Keeper.LowerSocketWins | server.py:1800-1828 | with any redials of the higher side and any order of offers, closes and exits, each end offered the lower id's socket holds it from then on |
| Outbox.FlushKeepsOne | server.py:1739-1756 | exactly what a flush with an error at any place writes, keeps and loses |
| Outbox.BoxRun | server.py:1739-1790 | invariant over every run, and nothing submitted is missing exactly if no flush failed before its last message |
| Outbox.SubmittedIsWrittenThenHeld | server.py:1739-1790 | submitted = written followed by held, over any run, if and only if no flush failed before the last message of its queue |
| Outbox.FailedFlushLosesTheTail | server.py:1753-1756 | the loss happens: two held messages and a flush whose first send fails |
| Outbox.FlushWritesEachMidOnce | server.py:1739-1757 | any flush writes the messages whose mids were not written before, each mid once, in order up to the first error, and keeps the one that failed |
| Outbox.WriteAnswers | server.py:1759-1790 | a line is written now exactly if the answer says so, and otherwise held if it may be |
| Outbox.SentMidsAreWritten | server.py:1739-1757 | over any run the mids taken for written are those of the messages that sockets took |
| ConnectionSlot.SlotHoldsExactly | server.py:1800-1890 | over every run the slot holds a socket exactly if it took it and since then its reader has not ended, nothing was dropped, no write on it failed, and the lower id's socket has not taken its place |
| ConnectionSlot.SlotRemembersItsDialler | server.py:1800-1845 | the slot remembers who dialled the socket it holds, and a socket that left the slot is closed |
| ConnectionSlot.FreeSlotTakesTheNext | server.py:1882-1885 | after the reader of the active socket ends, the slot is empty and takes the next socket, whoever dialled it |
| History.HistoryLog.AppendHistory | history.py:150-158 | the message is appended, its mid remembered, the list cut to the last 500 |
| History.HistoryLog.HandleIncoming | server.py:2394-2399 | a message whose mid was seen changes nothing |
| History.HistoryLog.DropWhere | history.py:252-258 | the loop keeps exactly the other messages, in order, and counts the removed |
| History.HistoryLog.DeleteMessage | history.py:270-277 | the mid stays remembered |
| History.HistoryLog.ClearForPeer | history.py:252-258 | the mids stay remembered |
| History.HistoryLog.ClearEverything | history.py:261-267 | all entries go and are counted, the mids stay remembered |
| History.RecordedIffFirst | history.py:178-182 | a plain message is recorded exactly if nothing was appended under its mid since the process started, whatever was deleted or cleared |
| History.RestartForgetsMids | history.py:123-147 | a message that is in the saved history is recorded again after a restart |
| History.RecordedIsFirstUses | history.py:150-182 | of any group of mids nothing else is appended under, a process records the first of each in order of arrival, whatever else arrives |
| History.DropsExactly | history.py:252-278 | deleting or clearing takes away exactly the entries of the mid, or from or to the peer, and leaves all others as often as before |
| History.KeepOfBoth | history.py:252-278 | what is kept stays in order |
| Delivery.EchoRun | server.py:1739-1790 | what arrived is, repetitions aside, what was written and at most the first message held |
| Delivery.PeerRecordsEachOnce | server.py:2394-2399 | end to end over failing sockets, among the messages of anybody else: of this sender the peer records each written message once, in order, and at most one more |
| InboundReader.Reader.TakeLine | server.py:1932-1988 | one line in each state of the proof: skipped, fatal, identity, proof, deferred within bounds, or handed on |
| InboundReader.Reader.Feed | server.py:1921-1991 | one chunk: overflow ends the reader, else exactly the complete lines are taken and the rest stays buffered |
| Bytes.LinesOfBoth | server.py:1931-1933 | cutting a stream into lines can be done piece by piece |
| InboundStream.ChunkingDoesNotMatter | server.py:1921-1933 | with bounded lines the reader never overflows and its state depends on the byte stream alone |
| InboundStream.EveryOutcome | server.py:1932-1988 | every stream of lines leaves the session sorted: all messages kept or handed on but identity and proof |
| InboundStream.HandsOnTheOthers | server.py:1898-2000 | for any chunking: nothing is handed on before the proof verifies, then exactly the other JSON objects in order; the deferred queue stays in bounds or the connection ends |
| InboundClose.OpenExactlyWhile | server.py:1921-1988 | for any chunks the connection stays open exactly while none floods the buffer, every JSON value is an object, the first identity and the first proof are good, and at most 64 messages and 256 KB wait |
| HeldRequests.PendingRequests.CountMessages | server.py:2201-2206 | the loop sums the lengths of all queues |
| HeldRequests.PendingRequests.CountBytes | server.py:2203-2208 | the loop sums all byte accounts |
| HeldRequests.PendingRequests.HoldRequest | server.py:2178-2217 | a message is queued exactly if neither the peer's nor the daemon's bounds refuse it, and otherwise nothing changes |
| HeldRequests.PendingRequests.ReleaseFirst | server.py:2220-2231 | queue and byte account go together and the queue is returned |
| HeldRequests.BoundsHold | server.py:2178-2217 | over any run accounts and queues have the same keys, accounts are the sums of sizes, and all bounds hold, a lone first message aside |
| HeldRequests.ReleaseReturnsWhatWasHeld | server.py:2220-2231 | nothing is evicted or reordered: a release returns what was held since the last |
| HeldRequests.FirstMessageNeedsOnlyGlobalRoom | server.py:2185-2190 | a peer with nothing held gets its first message in exactly if the daemon has room; earlier ones leave nothing behind |
| HeldRequests.AdmittedExactly | server.py:2178-2217 | a message is admitted exactly if it is its peer's first or makes at most 32 and 128 KB with those held since the last release, and the daemon has room |
| RequestReader.Reader.ReadLine | http_api.py:196-228 | the line an unbuffered reader would return from the same stream; the buffer never grows past its old size or the bound |
| RequestReader.Reader.Read | http_api.py:230-250 | the bytes an unbuffered reader would return |
| RequestReader.Reader.Serve | http_api.py:196-250 | any sequence of calls up to the deadline answers as the ideal stream, however receive splits it |
| RequestReader.AnsweredIsConsumed | http_api.py:196-250 | a call takes from the stream exactly what it answers, if and only if it is not a readline of a non-empty unfinished end |
| RequestReader.AnswersAreThePrefix | http_api.py:196-250 | over any calls the answers put together are a prefix of the stream, nothing skipped or repeated, if and only if no call asks again after one that left an unfinished end |
| RequestReader.LeftoverComesBack | http_api.py:228 | at the end an unfinished line is returned without being consumed, again and again |
| RequestReader.HowMuchIsAnswered | http_api.py:196-250 | a read gives what it asks for or all there is; a line ends with its first newline, at its bound or with the stream |
| Throttle.Bucket.Allow | http_api.py:295-302 | allowed exactly if fewer than the limit remain in the window; only allowed calls are stamped |
| Throttle.BucketIsRecentLog | http_api.py:295-302 | the pruned bucket is what a record that forgets nothing shows inside the window |
| Throttle.AllowedIffRoomInWindow | http_api.py:295-302 | a call is allowed exactly if fewer than the limit of allowed calls lie in the window before it |
| Throttle.RecentIsTheWindow | http_api.py:295-302 | what the pruned record holds are the stamps less than a window old, counted one by one |
| Throttle.NeverMoreThanLimit | http_api.py:295-302 | an allowed call comes at least a window after the one `limit` places before it |
| BracketChecker.SkipLineComment | scripts/check_qml.py:38-41 | the loop ends where a character-by-character reader is back in code |
| BracketChecker.SkipBlockComment | scripts/check_qml.py:43-50 | the same for a block comment, with its newlines counted |
| BracketChecker.SkipString | scripts/check_qml.py:52-75 | the same for a string with escapes, of either quote |
| BracketChecker.TakeBracket | scripts/check_qml.py:77-86 | push, or pop and compare, or report an unexpected closer |
| BracketChecker.CheckFile | scripts/check_qml.py:18-87 | terminates on every text with exactly the problems of the brackets a character-by-character reader finds outside comments and strings |
| BracketChecker.NoProblemsIffBalanced | scripts/check_qml.py:18-87 | no problem exactly if those brackets spell a word of the grammar of balanced words |
| BracketPieces.ReadsTheCode | scripts/check_qml.py:18-87 | of a file put together from any code, comments and strings the check sees exactly the brackets of the code, each with its line number |
| BracketPieces.ChecksTheCode | scripts/check_qml.py:18-87 | so such a file has no problem exactly if the brackets of its code spell a balanced word |

## Left out

- TLS, X.509, RSA and AES-GCM: a signature predicate, a fingerprint function and, where it matters, the assumption that signatures are unforgeable stand for them.
- Sockets, threads, UDP broadcast, subnet scanning, the control socket, systemd, firewall scripts, the bridge process and all interface files.
- Interleavings inside a handler: the locks are taken to make each handler atomic. A snapshot is serialised outside the room lock in rooms.py:240-254, so the claims about sequence numbers are for atomic handlers.
- Crashes between two file writes of one command, and unreadable files other than the nonce map: each command's persistence is one step. Room records and ledgers are taken to be saved.
- Room names, display names, timestamps in rooms, and the sanitising of names and file names: they carry no decision of the protocol.
- The order in which reconcile adds ledger ids back: the model allows any.
- Bytes a read had already taken when the deadline passes: the connection is closed then.
- What the receiver's other gates (trust, empty text, rosters) drop in the end-to-end theorem: `Delivery` speaks of messages that pass them.
- PacketGuard.OperationHonouredAtMostOnce: needs a clock that does not go back and, over a restart, saves that succeed; both conditions are shown to be needed.
- Keeper.LowerSocketWins: one socket of the lower side, which the network does not break; what happens when it breaks is an ordinary new connection.
- Messages edited or marked after they were recorded, paging of the history, and the random mids given to messages without one beyond their being arbitrary.
- DownloadTransfer.StreamedFileIsSaved: takes the transfers' target paths to be distinct, although server.py:3050 and attachments.py:408-412 let two share one; the model appends to a shared partial file by content where the code writes at file offsets.
- DownloadTransfer.SavedMeansComplete: takes the target paths to be distinct for the same reason.
- Exactly-once display of room files: the owner's fan-out also reaches the original poster.
- An exception raised inside a dispatched message: a handler is taken to finish.
- Settings commands, friendly names, registration lifetimes and refusal texts: they would only add easy members.
