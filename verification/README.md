# Verified model of aioslsk

A Dafny model of the parts of aioslsk, an asynchronous Soulseek client library, in which the hard
promises lie, with proofs of those promises. `dafny verify dfyconfig.toml` checks all of it.

- **Wire format.** `Obfuscation`, `Primitives`, `RoundTrips`, `CodecLoops`, `FastCodecs`, `Messages`,
  `Octets` and `Framing`: the XOR cipher whose encoder and decoder derive the key stream differently, the
  table-driven serializer with optional and conditional fields, its hand-written fast versions, message
  dispatch, and the length-prefixed stream. `WireFormat` says which bytes these are.
- **Distributed search tree.** `Distributed` has every handler as a function on the state of one client,
  `DistributedNode` the objects that are updated in place and refine these functions, `DistributedClient`
  what each handler keeps, `DistributedSystem` any number of clients with one ordered channel for each
  direction of a connection, `DistributedTree` the theorems on whole runs and quiescent states, and
  `DistributedExample` a run that meets their hypotheses.
- **Transfers.** `TransferState` has the state machine and the `Transfer` object, `TransferLifecycle` what
  holds of a transfer over all runs, `TransferScheduler`, `TransferSlots`, `TransferManager` and
  `TransferRuns` the upload scheduler, the reconciliation with shares and blocked users, and runs of a whole
  manager. `FileCopy` has the copy loops and one attempt at a download or an upload, `FileCopyRuns` any number
  of attempts as tasks that go on whatever becomes of the state, `FileCopyOverlap` two attempts at once. `Naming`
  chooses the file name.
- **Rate limiting.** `RateLimiter`: the token bucket, over real numbers.
- **State kept in step.** `UserTracking`, `RoomList`, and `SharesText` with `SharesQuery` for the term index.

Where the source works step by step on objects, so does the model: such methods are proved against a
function, and the promises are lemmas on that function. `Wrappers` holds the option type; `None` also stands
for a raised exception.

## Where the code falls short of its documentation

The model follows the code. For each of these there is a proof that it happens, and of when it does not.

- Children hear of a new branch only while a session is held. `DistributedClient.InSyncExactly` says which
  events leave them with old values: without a session, those on which there is something to tell
  (`MustTell`). `LostParentIsNotAnnounced` shows that they keep the old values when the next session begins.
- An optional field that is absent in front of one that is present shifts the latter
  (`Messages.AbsentOptionalShiftsTheNext`); `RoundTrips.ObjectRoundTripExactly` says which objects come back.
- The hand-written writers spell a missing string as the text None, or raise for a missing number, where the
  generic one leaves the field out. `FastCodecs.DemandedExactly`: they agree exactly when nothing is None.
- `INCOMPLETE` is documented for downloads only; `TransferLifecycle.UploadIncompleteExactly` says when an upload
  gets there.
- A download whose offset cannot be sent is documented to become `INCOMPLETE` but stays `INITIALIZING`
  (`FileCopyRuns.OffsetNotSentStays`).
- A download that fails from outside goes on copying, and a request may start a second attempt beside it, so that
  the local file is no prefix of the remote one (`FileCopyOverlap.FailThenRequestCorrupts`). It is safe to start an
  attempt exactly when none is under way or no byte is missing (`FileCopyOverlap.StartIsSafeExactly`).
- A pass over changed shares cannot abort a `VIRGIN` upload (`TransferManager.ReconciledExactly`).
- A wildcard search asks for all index terms with the given ending instead of one of them
  (`SharesQuery.WildcardMissesItems`). For one wildcard term of letters and digits, `SharesQuery.CompleteExactly`:
  everything is found exactly when any two index terms with that ending index the same items, of those that the
  rest of the query lets through; for a query without a rest, exactly when they index the same items
  (`SharesQuery.PlainWildcardExactly`). For other wildcard terms this condition, on the first piece of each, is
  enough (`SharesQuery.CompleteWhenEndingsAgree`).
- A full token bucket does not move its clock, which gives one extra chunk. `RateLimiter.WithinLimitExactly`: a
  bucket keeps every window after it within the limit exactly when it is not full.
- A `RemoveUser` message that cannot be sent leaves the server tracking a user nobody wants tracked
  (`UserTracking.NoGhostExactly`).

## Model

| member | source | states |
|---|---|---|
| Obfuscation.RotateKeyIsOriginal | src/aioslsk/protocol/obfuscation.py:14-39 | the rewritten key rotation equals the original one for all 32 shifts and every key |
| Obfuscation.WordIsDirect | src/aioslsk/protocol/obfuscation.py:57-63 | rotating n + 1 times by 31, as the encoder does, is one direct rotation by the n-th of 31, 30, ..., 0, as the decoder does |
| Obfuscation.WordPeriod | src/aioslsk/protocol/obfuscation.py:53-63 | the encoder's key repeats after 32 rotations |
| Obfuscation.KeyTableLookup | src/aioslsk/protocol/obfuscation.py:49-65 | the decoder's table of min(ceil(n / 4), 32) keys, read cyclically, gives the encoder's key stream at every position |
| Obfuscation.Encode | src/aioslsk/protocol/obfuscation.py:68-85 | the loop that rotates the key every four bytes produces key and data XORed with the key stream |
| Obfuscation.Decode | src/aioslsk/protocol/obfuscation.py:42-65 | the loop over the precomputed table removes the same key stream; data shorter than a key decodes to nothing |
| Obfuscation.DecodeEncode | src/aioslsk/protocol/obfuscation.py:42-85 | decoding an encoding gives back every byte string, for every key |
| Obfuscation.DecodePrefix | src/aioslsk/protocol/obfuscation.py:42-65 | decoding the start of a message gives the start of the decoded message |
| WireFormat.KnownMessage | tests/unit/protocol/test_obfuscation.py:25-36 | hello under the key 99 AB CD EF is encoded as the unit test of the library expects |
| Primitives.LittleEndianRoundTrip | src/aioslsk/protocol/primitives.py:85-138 | unsigned integers of every width come back from their little-endian bytes |
| WireFormat.LittleEndianAt | src/aioslsk/protocol/primitives.py:85-138 | the byte at position i of a number is its part of weight 256 to the power of i |
| WireFormat.AddressOnWire | src/aioslsk/protocol/primitives.py:199-214 | the address a.b.c.d is written as the bytes d, c, b, a and read from them at any position |
| WireFormat.BooleanOnWire | src/aioslsk/protocol/primitives.py:217-228 | a boolean is written as 1 or 0, and every byte but 0 is read as true |
| WireFormat.ScalarsOnWire | src/aioslsk/protocol/primitives.py:85-196 | numbers are written little-endian, negative ones in two's complement, and strings and byte arrays behind their length |
| WireFormat.NotOnWire | src/aioslsk/protocol/primitives.py:85-246 | what does not fit is not written: negative and too large numbers, lengths of 4 GiB and more, addresses without four bytes |
| WireFormat.ArrayOnWire | src/aioslsk/protocol/primitives.py:231-246 | an array is written as the number of its items and the items in order |
| RoundTrips.ObjectReadBack | src/aioslsk/protocol/primitives.py:283-373 | a canonical object is read back unchanged, consuming exactly its bytes, for every well-formed field table |
| RoundTrips.Image | src/aioslsk/protocol/primitives.py:85-255 | whatever bytes are read at any offset, the value that comes out is canonical |
| RoundTrips.ObjectImage | src/aioslsk/protocol/primitives.py:310-354 | an object that was read from any bytes is canonical for its table |
| RoundTrips.ObjectRoundTripExactly | src/aioslsk/protocol/primitives.py:283-373 | an object with optional and conditional fields comes back if and only if it is canonical: disabled fields hold their default and nothing is written behind an absent optional one |
| RoundTrips.RoundTripExactly | src/aioslsk/protocol/primitives.py:85-255 | a value of any type, nested arrays included, comes back from any offset and with anything behind it if and only if it is canonical |
| CodecLoops.SerializeInto | src/aioslsk/protocol/primitives.py:238-246 | writing into one buffer appends the bytes of the recursive definition the round trips are proved of, and fails exactly when it does |
| CodecLoops.SerializeFieldsInto | src/aioslsk/protocol/primitives.py:283-307 | the loop over the fields appends the bytes of exactly the enabled and present fields, in table order |
| CodecLoops.Read | src/aioslsk/protocol/primitives.py:85-255 | reading at a position gives the same value and next position as the recursive definition the round trips are proved of |
| CodecLoops.ReadItems | src/aioslsk/protocol/primitives.py:247-255 | the loop over the items of an array reads them one behind the other, and fails when one fails |
| CodecLoops.ReadObject | src/aioslsk/protocol/primitives.py:310-338 | the loop that fills the field map and the constructor call give the object the round trips are proved of, or fail together with it |
| FastCodecs.ReadAttributeIsGeneric | src/aioslsk/protocol/primitives.py:447-461 | the fast reader of an attribute agrees with the generic one on all bytes and offsets |
| FastCodecs.ReadFileDataIsGeneric | src/aioslsk/protocol/primitives.py:503-526 | the fast reader of file data agrees with the generic one on all bytes and offsets |
| FastCodecs.ReadDirectoryDataIsGeneric | src/aioslsk/protocol/primitives.py:558-567 | the fast reader of directory data agrees with the generic one on all bytes and offsets |
| FastCodecs.WriteAttributeIsGeneric | src/aioslsk/protocol/primitives.py:463-467 | the fast writer of an attribute raises for a missing number, and writes what the generic one writes if and only if nothing is missing |
| FastCodecs.WriteFileDataIsGeneric | src/aioslsk/protocol/primitives.py:528-542 | the fast writer of file data spells a missing string and raises for anything else missing, and writes what the generic one writes if and only if nothing is missing, attributes included |
| FastCodecs.WriteDirectoryDataIsGeneric | src/aioslsk/protocol/primitives.py:569-570 | so does the fast writer of directory data, files and their attributes included |
| FastCodecs.DemandedExactly | src/aioslsk/protocol/primitives.py:283-307 | for every table without optional and conditional fields, leaving nothing out and leaving out what is None give the same bytes if and only if nothing is None |
| Messages.LoginResponseWellFormed | src/aioslsk/protocol/messages.py:149-157 | the round trip theorem applies to the login response |
| WireFormat.LoginAcceptedOnWire | src/aioslsk/protocol/messages.py:149-157 | an accepted login is a one, greeting, address, hash and privileges, whatever the reason is |
| WireFormat.LoginRefusedOnWire | src/aioslsk/protocol/messages.py:149-157 | a refused one is a zero and the reason, whatever the other attributes are |
| WireFormat.LoginComesBack | src/aioslsk/protocol/messages.py:149-157 | a login response comes back if and only if what does not belong to its case is None |
| Messages.AddUserWellFormed | src/aioslsk/protocol/messages.py:224-236 | the round trip theorem applies to the response to adding a user |
| Messages.JoinRoomResponseWellFormed | src/aioslsk/protocol/messages.py:342-358 | the round trip theorem applies to the response to joining a room |
| Messages.PeerUserInfoReplyWellFormed | src/aioslsk/protocol/messages.py:1990-1998 | the round trip theorem applies to the user info reply with its conditional picture |
| Messages.PeerTransferWellFormed | src/aioslsk/protocol/messages.py:2052-2080 | the round trip theorem applies to transfer requests and replies |
| Messages.ConnectToPeerWellFormed | src/aioslsk/protocol/messages.py:432-442 | the round trip theorem applies to the response that asks to connect to a peer |
| Messages.PeerSearchReplyWellFormed | src/aioslsk/protocol/messages.py:1945-1961 | the round trip theorem applies to search replies with their locked results |
| Messages.AbsentOptionalShiftsTheNext | src/aioslsk/protocol/messages.py:160-174 | with the amount absent in front of it, every obfuscated port is read as the amount, and as absent itself |
| Messages.MessageRoundTripExactly | src/aioslsk/protocol/primitives.py:385-444 | a message with its length and ID comes back if and only if its attributes are canonical |
| WireFormat.MessageOnWire | src/aioslsk/protocol/primitives.py:385-444 | a message is the length of what follows, its ID and its fields, and is not written when it is too long |
| Messages.DispatchRoundTripExactly | src/aioslsk/protocol/messages.py:48-116 | dispatching a written message by its ID finds its class and its attributes if and only if they are canonical |
| Messages.DistributedMessagesWellFormed | src/aioslsk/protocol/messages.py:104-116 | the distributed messages can be told apart by their IDs and have well-formed tables |
| Messages.PeerMessagesWellFormed | src/aioslsk/protocol/messages.py:1855-2155 | so can the messages between peers, all fifteen with their tables |
| Framing.HeaderIsPrefix | src/aioslsk/network/connection.py:367-381 | the decoded header of a message is the start of the decoded message, obfuscated or not |
| Framing.FirstMessageFound | src/aioslsk/network/connection.py:367-381 | the header read from a stream announces exactly the first message on it |
| Framing.SplitSent | src/aioslsk/network/connection.py:367-381 | any list of framed messages, each with its own key, is split back into the same list |
| Framing.EndToEnd | src/aioslsk/network/connection.py:504-537 | any list of messages serialized, framed, obfuscated with any keys and concatenated is read and dispatched to the same messages in order |
| Framing.DataConnection.ReadMessage | src/aioslsk/network/connection.py:367-381 | reading header and body takes exactly the first message off the stream, and nothing when it is not complete |
| Framing.DataConnection.ReceiveAll | src/aioslsk/network/connection.py:367-381 | repeated reading gives all messages on the stream |
| Distributed.LevelZeroIsOwnRoot | src/aioslsk/distributed.py:119-144 | advertising level 0 and advertising oneself as the root are the same |
| Distributed.ApplyAppend | src/aioslsk/distributed.py:428-473 | the effect of messages on a record is that of the first ones followed by that of the rest |
| DistributedClient.ApplyBoth | src/aioslsk/distributed.py:276-280 | level and root together overwrite whatever the receiver knew |
| DistributedClient.AddChildMsgs | src/aioslsk/distributed.py:303-313 | a level 0 without a root tells a new child as much as level and root do |
| DistributedClient.AnnounceFollows | src/aioslsk/distributed.py:271-280 | the messages to all children account for what each child is thereby told |
| DistributedClient.OnClosedFollows | src/aioslsk/distributed.py:596-622 | closing a connection keeps the client invariant and the agreement of messages and told values, also when it was the parent's |
| DistributedClient.SetParentFollows | src/aioslsk/distributed.py:174-203 | taking a parent keeps them too, and with a session leaves the children in sync |
| DistributedClient.OnInitializedFollows | src/aioslsk/distributed.py:574-582 | so does a new connection, whether rejected, ignored or added as a child |
| DistributedClient.OnMessageFollows | src/aioslsk/distributed.py:428-473 | so does a branch message, from the parent, a candidate or a surplus connection |
| DistributedClient.AdoptionExactly | src/aioslsk/distributed.py:174-215 | without a parent, a message makes its sender the parent if and only if it brings news and level and root are then known; exactly the connections of the parent and of the children then stay open, and so for the registered peers, and otherwise all do |
| DistributedClient.SurplusIsClosed | src/aioslsk/distributed.py:205-215 | with another parent, such a message has its sender disconnected and unregistered, sends nothing and affects no one else |
| DistributedClient.ToldBy | src/aioslsk/distributed.py:428-473 | a message overwrites the level or the root of its sender, and a level 0 the root with the name of the sender |
| DistributedClient.InitializedExactly | src/aioslsk/distributed.py:282-313 | an accepted connection becomes the last child if and only if its user is no potential parent, children are accepted and there is room; it is closed if only room or acceptance is missing, and all others stay |
| DistributedClient.ClosedIsForgotten | src/aioslsk/distributed.py:596-622 | a closed connection is no longer the parent's, a child's or a peer's, and all others stay |
| DistributedClient.PotentialParentsKept | src/aioslsk/distributed.py:378-386 | the last twenty names are kept as potential parents, in order |
| DistributedClient.InSyncExactly | src/aioslsk/distributed.py:233-280 | an event leaves all children in sync if and only if a session is held or the event neither adds a child nor, with children there, loses the parent above level 0, adopts a parent with another root or changes the branch |
| DistributedClient.LostParentIsNotAnnounced | src/aioslsk/distributed.py:233-237 | losing the parent without a session leaves every child with the old values, also once a session is held again |
| DistributedClient.StaleChild | src/aioslsk/distributed.py:230-247 | a client to which this happens exists |
| DistributedNode.Lookup | src/aioslsk/distributed.py:146-160 | the peer found for a connection is a registered one with that connection, and none is found exactly when none is registered |
| DistributedNode.DistributedNetwork.constructor | src/aioslsk/distributed.py:75-105 | a new network object has no parent, no children, no peers and accepts five children |
| DistributedNode.DistributedNetwork.GetAdvertisedBranchValues | src/aioslsk/distributed.py:119-144 | level 0 and the own name without a parent or when the parent names this client as root, else the parent's root and one level more |
| DistributedNode.DistributedNetwork.NotifyChildrenOfBranchValues | src/aioslsk/distributed.py:271-280 | the loop over the children sends level and root to each, in order, if a session is held |
| DistributedNode.DistributedNetwork.UnsetParent | src/aioslsk/distributed.py:230-247 | the parent is gone and, with a session, level 0 and the own name go to every child |
| DistributedNode.DistributedNetwork.OnClosed | src/aioslsk/distributed.py:596-622 | the objects stay in step with the value-level handler: the peer leaves both lists, and a lost parent is announced to the children before |
| DistributedNode.DistributedNetwork.DisconnectOthers | src/aioslsk/distributed.py:188-200 | the loop closes exactly the connections that are neither the parent's nor a child's, and sends nothing |
| DistributedNode.DroppedLeaves | src/aioslsk/distributed.py:188-200 | this leaves open and registered exactly the given connection and those of the children |
| DistributedNode.DistributedNetwork.SetParent | src/aioslsk/distributed.py:174-203 | the objects stay in step with the value-level handler: other connections are closed and unregistered, children stay, and they are told the new branch |
| DistributedNode.DistributedNetwork.CheckIfNewParent | src/aioslsk/distributed.py:205-215 | a peer with both values becomes the parent when there is none and is disconnected otherwise; one without them is left alone |
| DistributedNode.DistributedNetwork.AddChild | src/aioslsk/distributed.py:303-313 | a child is appended and told level and root, the root only behind a level that is not 0; without a session it is appended and the call raises |
| DistributedNode.DistributedNetwork.CheckIfNewChild | src/aioslsk/distributed.py:282-301 | a potential parent is ignored, a peer is disconnected when no children are accepted or the maximum is reached, and added otherwise, which raises without a session |
| DistributedNode.DistributedNetwork.OnBranchLevel | src/aioslsk/distributed.py:428-449 | updating the one peer object shared by the lists and the parent field has the effect of the value-level handler, messages to the children included |
| DistributedNode.DistributedNetwork.OnBranchRoot | src/aioslsk/distributed.py:451-473 | a branch root does so, and nothing happens when it is the known one |
| DistributedNode.DistributedNetwork.OnPeerConnectionInitialized | src/aioslsk/distributed.py:574-582 | a connection is registered and, unless requested by this client, considered for a child |
| DistributedSystem.StepInv | src/aioslsk/distributed.py:428-622 | every step of every client keeps the invariant: parents are registered with both values, children are registered, and wire and records agree |
| DistributedSystem.Arrival | src/aioslsk/distributed.py:428-473 | a message on the wire is worth as much as the same message in the record, and only requesters receive branch messages |
| DistributedTree.NoStepGetsStuck | src/aioslsk/distributed.py:137-142 | in every reachable state the values of a set parent are present, so advertising never fails for want of them |
| DistributedTree.ChannelsMatch | src/aioslsk/distributed.py:119-144 | in every run from the start, for every open connection to a child of a client that gained its session before its children and kept it, the messages on the wire turn the record of the child into what that client advertises now |
| DistributedTree.DrainedRunIsQuiescent | src/aioslsk/distributed.py:271-313 | a run from the start in which every client with children gained its session before them and kept it is quiescent as soon as its channels are empty and no connection is half closed |
| DistributedExample.LoginThenChild | src/aioslsk/distributed.py:574-594 | such a run exists: a client logs in, another connects to it, and its first message to the new child is on the wire |
| DistributedTree.ParentRecord | src/aioslsk/distributed.py:428-473 | in a quiescent state a client knows exactly what its parent advertises |
| DistributedTree.LevelCountsSteps | src/aioslsk/distributed.py:119-144 | in a quiescent state the advertised level is the number of parent steps up to the first client at level 0, which has the advertised root as its name |
| DistributedTree.CycleIsCutOnce | src/aioslsk/distributed.py:137-144 | in a quiescent state a parent cycle has exactly one member at level 0, and the others count the steps to it |
| TransferState.Transfer.CallQueue | src/aioslsk/transfer/state.py:157-397 | queueing resets times, reasons and, for a finished or aborted download, progress and path, each in the states that do so; where undefined it changes nothing and returns False |
| TransferState.Transfer.CallPause | src/aioslsk/transfer/state.py:166-347 | pausing, likewise |
| TransferState.Transfer.CallInitialize | src/aioslsk/transfer/state.py:174-334 | initializing, likewise |
| TransferState.Transfer.CallStartTransferring | src/aioslsk/transfer/state.py:228-235 | starting to transfer sets the start time, clears the queue variables and follows the direction |
| TransferState.Transfer.CallFail | src/aioslsk/transfer/state.py:178-380 | failing records the reason, and the end time when transferring |
| TransferState.Transfer.CallAbort | src/aioslsk/transfer/state.py:183-375 | aborting records the reason, the end time when transferring, and forgets the local path of a download |
| TransferState.Transfer.CallComplete | src/aioslsk/transfer/state.py:247-282 | completing is possible while transferring only |
| TransferState.Transfer.CallIncomplete | src/aioslsk/transfer/state.py:264-267 | interrupting is possible while downloading only |
| TransferState.Transfer.Correct | src/aioslsk/transfer/manager.py:150-164 | a transfer loaded while initializing is queued, one loaded while transferring is complete or incomplete without times |
| TransferLifecycle.StepFollowsRelation | src/aioslsk/transfer/state.py:157-397 | a call leads to a declared successor of the state or changes no field at all |
| TransferLifecycle.RelationIsReached | src/aioslsk/transfer/state.py:157-397 | every declared transition is taken by some call |
| TransferLifecycle.NewTransferRuns | src/aioslsk/transfer/state.py:157-397 | over every run a fail or abort reason implies its state, the end time is set if and only if the transfer has started and is not transferring, and directions match |
| TransferLifecycle.ExplainedExactly | src/aioslsk/transfer/state.py:183-188 | a step leaves a transfer ABORTED without a reason if and only if it is an abort call without one that takes effect |
| TransferLifecycle.AbortReasonExactly | src/aioslsk/transfer/model.py:137-142 | with a reason at every abort, ABORTED and having an abort reason are the same over every run, old caches included |
| TransferLifecycle.RestoreSaveExactly | src/aioslsk/transfer/model.py:129-165 | saving and restoring gives the same transfer if and only if it was not aborted without a reason, which becomes Requested, also for an aborted transfer of a cache without reasons |
| TransferLifecycle.LoadedIsIdle | src/aioslsk/transfer/manager.py:150-166 | after loading nothing is being processed, only state, times and the remote flag can differ, INITIALIZING is QUEUED and a transfer in progress COMPLETE or INCOMPLETE by its bytes; a second load changes nothing |
| TransferLifecycle.UploadIncompleteExactly | src/aioslsk/transfer/manager.py:158-163 | an upload becomes INCOMPLETE if and only if it is reloaded while uploading with bytes still to go |
| TransferLifecycle.AbortThenQueueRestarts | src/aioslsk/transfer/state.py:386-397 | a download that is aborted and queued again starts from nothing |
| TransferLifecycle.PauseThenQueueContinues | src/aioslsk/transfer/state.py:361-368 | one that is paused and queued again keeps its file and progress |
| TransferLifecycle.FailThenQueueRetries | src/aioslsk/transfer/state.py:349-358 | one that failed and is queued again keeps them too and forgets the reason |
| TransferLifecycle.CompleteThenQueueRestarts | src/aioslsk/transfer/state.py:300-310 | a complete download that is queued again starts from nothing, and an upload keeps its file |
| TransferLifecycle.StartRecords | src/aioslsk/transfer/state.py:228-235 | starting leaves every queue and sets the start time, and changes nothing else but the state |
| TransferLifecycle.FailRecords | src/aioslsk/transfer/state.py:178-380 | in every state that can fail, exactly the reason, the state and the end of a transfer in progress are recorded |
| TransferLifecycle.AbortRecords | src/aioslsk/transfer/state.py:183-375 | in every state that can be aborted, so they are, and a download forgets its path |
| TransferLifecycle.EndRecords | src/aioslsk/transfer/state.py:238-294 | completing, interrupting and pausing a transfer in progress record its end, and an upload cannot be interrupted |
| TransferScheduler.GetQueuedTransfers | src/aioslsk/transfer/manager.py:595-642 | exactly the eligible downloads, and for each user the first queued upload if the user is not offline and has none in progress |
| TransferScheduler.RankIsLexicographic | src/aioslsk/transfer/manager.py:656-671 | the sum of ranks orders users by privileged, then friend, then online or away |
| TransferScheduler.PrioritizeUploads | src/aioslsk/transfer/manager.py:648-674 | the same uploads by descending rank, later ones first among equals |
| TransferSlots.EligibleByUser | src/aioslsk/transfer/manager.py:601-630 | there is exactly one eligible upload for every eligible user |
| TransferSlots.OnlyInitializeStarts | src/aioslsk/transfer/model.py:303-311 | whatever happens to a transfer, an upload comes to be processed by being initialized only |
| TransferManager.CycleStarts | src/aioslsk/transfer/manager.py:541-566 | a cycle starts exactly as many uploads as the smaller of free slots and eligible users |
| TransferManager.CycleFillsSlots | src/aioslsk/transfer/manager.py:541-566 | a cycle only turns the first queued upload of users who are not offline and have none in progress into an INITIALIZING one; afterwards no slot is free beside such a waiting upload, and no more slots are taken than there are, or than before |
| TransferManager.ChosenAreHighest | src/aioslsk/transfer/manager.py:648-674 | no eligible upload left waiting ranks above a started one: its user is not privileged, a friend or around in preference to the started one's; among equals the later was taken |
| TransferManager.CycleInv | src/aioslsk/transfer/manager.py:541-566 | a cycle keeps the slots, one upload for each user and no duplicates |
| TransferManager.ReconciledExactly | src/aioslsk/transfer/manager.py:1541-1578 | after a pass an upload is ABORTED if and only if its abort was requested, its user is blocked or its file is not shared with that user, with the first of these as the reason, and an aborted one to which none applies is QUEUED; VIRGIN, COMPLETE and FAILED uploads and downloads are left alone |
| TransferManager.ReconciledIsFixpoint | src/aioslsk/transfer/manager.py:568-593 | a second pass changes nothing |
| TransferManager.AddedIs | src/aioslsk/transfer/manager.py:318-343 | a transfer is appended if and only if none has its path, user and direction, and changes nothing otherwise |
| TransferManager.RetriedExactly | src/aioslsk/transfer/manager.py:595-642 | a started download that is interrupted, or fails without a reason, is requested again unless its user is offline, and one that fails with a reason is not |
| TransferManager.LoadedList | src/aioslsk/transfer/manager.py:146-166 | after loading every saved transfer is listed once and nothing is being processed |
| TransferManager.TransferManager.Add | src/aioslsk/transfer/manager.py:318-343 | a transfer for the same file, user and direction is returned instead of being added |
| TransferManager.TransferManager.Remove | src/aioslsk/transfer/manager.py:345-368 | exactly the given transfer leaves the list |
| TransferManager.TransferManager.ReadCache | src/aioslsk/transfer/manager.py:146-166 | the loop restores, corrects and adds the saved transfers in order |
| TransferManager.TransferManager.ManageTransfers | src/aioslsk/transfer/manager.py:541-566 | the transfers initialized are the ones chosen by rank and free slots, and no other changes |
| TransferManager.TransferManager.ManageSharesChanged | src/aioslsk/transfer/manager.py:568-593 | evaluating all uploads first and calling afterwards gives every transfer its reconciled value |
| TransferRuns.RunInv | src/aioslsk/transfer/manager.py:331-674 | at every moment of every run uploads in progress never exceed the slots, no user has two and no transfer is listed twice |
| FileCopy.Download.ReceiveFile | src/aioslsk/network/connection.py:703-732 | the loop ends, appends a prefix of what arrives to the file and counts it, whatever the chunks |
| FileCopy.Download.InitializeDownload | src/aioslsk/transfer/manager.py:764-850 | each way an attempt can end determines the state, the announced size, the count and the file it leaves, whatever the state it began in |
| FileCopy.Download.OnTransferRequest | src/aioslsk/transfer/manager.py:1399-1435 | a request is refused with the reason of the state, ignored while the transfer is processed, and starts an attempt otherwise, also for a new transfer and, once queued again, for a failed one |
| FileCopy.Download.DownloadFile | src/aioslsk/transfer/manager.py:1069-1143 | so does each way the part behind the file connection can end; the local path is set before the directory is made |
| FileCopy.Upload.SendFile | src/aioslsk/network/connection.py:737-754 | the loop ends and sends the file from the offset on, all of it unless writing fails |
| FileCopy.Upload.UploadFile | src/aioslsk/transfer/manager.py:1006-1067 | each way an upload can end determines the transfer it leaves, whatever its state, and what was sent is the file from the offset on |
| FileCopy.UploadCompletesExactly | src/aioslsk/transfer/manager.py:1062-1067 | an upload ends COMPLETE if and only if the whole file from the offset on was sent, and FAILED otherwise |
| FileCopy.UploadEndsAs | src/aioslsk/transfer/manager.py:1006-1067 | each way an upload can end leaves its own state, reason and count |
| FileCopyRuns.AttemptIsRun | src/aioslsk/transfer/manager.py:764-850 | everything a request can lead to is the outcome of a run in which one attempt starts alone and writes chunk by chunk |
| FileCopyRuns.AttemptInv | src/aioslsk/transfer/manager.py:764-848 | so an attempt alone keeps the local file a prefix of the remote one, counted exactly, and complete means equal |
| FileCopyRuns.AttemptEndsExactly | src/aioslsk/transfer/manager.py:764-1143 | each way an attempt can go leaves its own state, reason, path and bytes |
| FileCopyRuns.CallsStop | src/aioslsk/transfer/state.py:157-397 | of the calls from outside, exactly a pause or an abort that takes effect stops the attempt under way |
| FileCopyRuns.CopyingEndsAs | src/aioslsk/transfer/manager.py:1113-1143 | copying that ends is COMPLETE if and only if all bytes are there, FAILED as Cancelled when they are not or with a read error when the file cannot be written, and INCOMPLETE when the connection breaks |
| FileCopyRuns.UndisturbedAttemptCompletes | src/aioslsk/transfer/manager.py:1113-1143 | an attempt in which the rest of the file arrives gets all of it and completes the download, unless that was never queued |
| FileCopyRuns.OffsetNotSentStays | src/aioslsk/transfer/manager.py:833-839 | a download whose offset cannot be sent stays INITIALIZING and no request starts another attempt |
| FileCopyRuns.RunInv | src/aioslsk/transfer/manager.py:684-697 | over any number of attempts cut short anywhere, with queueing, pauses, aborts, failures and restarts in the middle of them, the local file is a prefix of the remote one and COMPLETE means equal, as long as no attempt starts while one is under way |
| FileCopyOverlap.StartIsSafeExactly | src/aioslsk/transfer/manager.py:1406-1426 | a request that starts an attempt keeps the local file a prefix of the remote one, whatever arrives and follows, if and only if no attempt is under way or the local file has all bytes |
| FileCopyOverlap.FailThenRequestCorrupts | src/aioslsk/transfer/manager.py:1506-1519 | for every file of two bytes or more there is a run in which a failure from outside leaves the first attempt copying beside a second one and the local file is no prefix of it |
| FileCopyRuns.SentIsTruthful | src/aioslsk/transfer/manager.py:1014-1019 | what an uploader sends from the offset of the downloader, cut off anywhere, continues the local file |
| Naming.ParsePrint | src/aioslsk/naming.py:76-86 | a printed number is read back |
| Naming.IndexOfMatch | src/aioslsk/naming.py:72-76 | the number taken from a name is the one the pattern can match, since the digits end at a parenthesis |
| Naming.NumberedExactly | src/aioslsk/naming.py:66-76 | a listed name counts as numbered, with this number, if and only if it begins with the base name, the digits of the number in parentheses and the extension |
| Naming.NextIndex | src/aioslsk/naming.py:78-84 | the next index is free, and there is none free between the smallest used one and it |
| Naming.NumberDuplicate | src/aioslsk/naming.py:69-87 | the numbered name is not listed in its directory |
| Naming.FirstDuplicate | src/aioslsk/naming.py:69-87 | without numbered siblings the number one goes between the base name, up to the last dot, and the extension |
| Naming.FileNameIs | src/aioslsk/utils.py:29-31 | the file name of a remote path is what stands behind its last slash or backslash |
| Naming.ExtensionIs | src/aioslsk/naming.py:69-71 | the extension begins at the last dot, and a name with only dots in front of it has none |
| Naming.DirectoryIsKept | src/aioslsk/naming.py:38-57 | the containing directory is appended to the local one, unless it begins with @@ or is a drive |
| Naming.ChainStrategies | src/aioslsk/naming.py:90-105 | the loop applies every strategy that is due, each to the result of the one before |
| Naming.ChainAvoidsListedNames | src/aioslsk/naming.py:90-105 | a chain that ends by numbering duplicates never yields a name its directory lists |
| Naming.DefaultChainKeepsFreeName | src/aioslsk/naming.py:25-31 | the default chain keeps the last part of the remote path when it is free |
| Naming.DefaultChainNumbers | src/aioslsk/naming.py:25-105 | and puts a one behind its base name when it is taken and no sibling is numbered |
| RateLimiter.NewTokensAtMost | src/aioslsk/network/rate_limiter.py:120-123 | no more tokens accumulate than the limit allows in the time passed |
| RateLimiter.NewTokensAtLeast | src/aioslsk/network/rate_limiter.py:103-123 | an interval brings a bucket below the smallest chunk at least a sixteenth of that chunk, despite truncation |
| RateLimiter.ChunkSizes | src/aioslsk/network/rate_limiter.py:103-110 | chunks are a hundredth to a tenth of the limit, between 128 bytes and 64 KiB |
| RateLimiter.RefillExactly | src/aioslsk/network/rate_limiter.py:115-127 | a refill gains the truncated share of the free room that the time passed is of a second, and fills the bucket if and only if that is a second or more; a full bucket keeps its time |
| RateLimiter.RunConserves | src/aioslsk/network/rate_limiter.py:115-163 | over every run of passes, added and copied tokens, what is handed out and left is what was there and, of all that accumulated or was given, as much as there was room for; the bucket stays within 0 and the limit |
| RateLimiter.WindowBound | src/aioslsk/network/rate_limiter.py:115-154 | from any state, the passes of a window hand out at most limit + max_chunk + limit * length tokens |
| RateLimiter.AnyWindowBound | src/aioslsk/network/rate_limiter.py:115-163 | so do the passes of a window after any run, with tokens added and copied in it |
| RateLimiter.WindowBoundIsTight | src/aioslsk/network/rate_limiter.py:116-117 | the bound is reached |
| RateLimiter.WindowWithinLimit | src/aioslsk/network/rate_limiter.py:115-154 | a window that begins with a bucket that is not full, or was refilled at that very time, hands out at most limit + limit * length tokens |
| RateLimiter.FullBucketGivesMore | src/aioslsk/network/rate_limiter.py:116-117 | for every limit, a full bucket that was idle for a second can hand out at one time more than limit + max_chunk - min_chunk tokens |
| RateLimiter.WithinLimitExactly | src/aioslsk/network/rate_limiter.py:116-125 | every window after a bucket stays within limit + limit * length if and only if the bucket is not full |
| RateLimiter.LimitedRateLimiter.Refill | src/aioslsk/network/rate_limiter.py:115-127 | a refill adds the truncated share of the free room, capped at the limit, and leaves a full bucket and its time alone |
| RateLimiter.LimitedRateLimiter.TakeTokens | src/aioslsk/network/rate_limiter.py:146-154 | taking tokens ends within 17 passes an interval apart, with an amount between the smallest and the largest chunk |
| RateLimiter.LimitedRateLimiter.CopyTokens | src/aioslsk/network/rate_limiter.py:156-163 | copied tokens are capped at the new limit, and the time is taken over |
| UserTracking.PassInv | src/aioslsk/user/manager.py:555-608 | handling a request keeps the invariant and the flags that the queue amounts to |
| UserTracking.FoldIsLast | src/aioslsk/user/manager.py:91-96 | folding any requests leaves exactly the flags whose last request adds them |
| UserTracking.PassAsks | src/aioslsk/user/manager.py:555-608 | handling a request asks the server to track the user exactly if flags appear where there were none or a retry finds some, and to forget the user exactly if the last flags go; state, retry and server follow the answer |
| UserTracking.NoGhostExactly | src/aioslsk/user/manager.py:563-583 | handling a request leaves the server tracking an unwanted user if and only if it takes the last flags, and the RemoveUser that is then due could not be sent |
| UserTracking.RunInv | src/aioslsk/user/manager.py:536-710 | in every run the flags in force once the queue is handled are exactly those whose last request since the connection was last lost adds them |
| UserTracking.DrainedFollowsRequests | src/aioslsk/user/manager.py:536-710 | when all requests are handled the flags are exactly those whose last request adds them, UNTRACKED means that there are none, TRACKED that the server tracks and RETRY_PENDING that a retry is waiting |
| UserTracking.RunNoGhost | src/aioslsk/user/manager.py:570-583 | as long as messages can be sent the server never tracks a user nobody wants tracked |
| UserTracking.DrainSynchronizes | src/aioslsk/user/manager.py:555-608 | handling the queue with a server that answers brings server and wishes together, unless a retry is still to come |
| UserTracking.UserTrackingManager.TrackUser | src/aioslsk/user/manager.py:536-542 | a request is queued for the user, with a new entry if there is none, and no other user is affected |
| UserTracking.UserTrackingManager.UntrackUser | src/aioslsk/user/manager.py:544-553 | a request is queued if the user has an entry |
| UserTracking.UserTrackingManager.TrackingPass | src/aioslsk/user/manager.py:555-608 | one pass updates flags, state, retry and server of one user in step with the value-level handler, removes the entry when nothing is left, and touches no other user |
| RoomList.RoomsFollowLists | src/aioslsk/room/manager.py:471-510 | after a room list exactly the listed rooms are stored; private, owner, membership and operator follow the lists, a new room has nobody else, and what concerns others is untouched |
| RoomList.CountFollowsLists | src/aioslsk/room/manager.py:471-510 | the user count is that of the last mention in the private rooms, else in the owned ones, else in the public ones |
| RoomList.SynchronizingTwice | src/aioslsk/room/manager.py:471-510 | the same room list again changes nothing |
| RoomList.LoopsSynchronize | src/aioslsk/room/manager.py:474-510 | the four marking loops and the last loop together give a room the state the lists describe, whatever lists mention it |
| RoomList.RoomManager.GetOrCreateRoom | src/aioslsk/room/manager.py:114-120 | the stored room, or a new one that is stored |
| RoomList.RoomManager.OnRoomList | src/aioslsk/room/manager.py:471-510 | the successive loops arrive at exactly the listed rooms, each in the state the lists describe |
| SharesText.WordsAreRuns | src/aioslsk/shares/manager.py:883-888 | splitting at every character that is no letter or digit finds exactly the maximal runs |
| SharesText.FoundHasWords | src/aioslsk/shares/utils.py:25-36 | a path in which a term is found has all words of the term |
| SharesText.FoundWildHasFirst | src/aioslsk/shares/utils.py:27-31 | a path in which a wildcard term is found has a word that ends with its first piece |
| SharesText.AlnumIs | src/aioslsk/shares/utils.py:25-36 | letters and digits are those of the alphabet in either case and the ten digits |
| SharesText.FoundExactly | src/aioslsk/shares/utils.py:32-36 | a term is found if and only if it stands somewhere in the path with no letter or digit directly in front of it or behind it |
| SharesText.FoundWildExactly | src/aioslsk/shares/utils.py:27-31 | a wildcard term is found if and only if it stands so with any number of letters and digits in front |
| SharesText.WordIsFound | src/aioslsk/shares/utils.py:32-36 | for a term of letters and digits, being found and being one of the words of the path are the same |
| SharesText.NormalizedPath | src/aioslsk/shares/utils.py:17-22 | a directory and a name with any slashes between and behind become directory, backslash and name |
| SharesText.NormalizeWords | src/aioslsk/shares/utils.py:17-22 | normalizing a path does not change its words |
| SharesQuery.SameWords | src/aioslsk/shares/manager.py:883-892 | the index and the patterns see the same words of an item |
| SharesQuery.QueryPathIs | src/aioslsk/shares/model.py:119-125 | the path that is searched is directory, backslash and file name, and the name alone in the shared directory itself |
| SharesQuery.Parse | src/aioslsk/search/model.py:42-62 | the loop sorts the terms into those to include, exclude and match with a wildcard |
| SharesQuery.ParsedApart | src/aioslsk/search/model.py:42-62 | a query split at a space is that of its two parts together |
| SharesQuery.ParsedWord | src/aioslsk/search/model.py:49-62 | a word is to be found in lower case, behind a minus not to be found, and behind a star to end a word |
| SharesQuery.ParsedIsLower | src/aioslsk/search/model.py:49-62 | every term of a parsed query is in lower case, as the index is |
| SharesQuery.ParsedCanBeLookedUp | src/aioslsk/shares/manager.py:679-717 | for a parsed query with inclusion terms the list of index terms is never empty where it is indexed |
| SharesQuery.MatchHasWords | src/aioslsk/shares/manager.py:682-715 | an item that matches a query in lower case has every index term asked for, but for those of the first pieces of wildcards |
| SharesQuery.PlainMatchExactly | src/aioslsk/shares/manager.py:718-745 | a query of words without wildcards matches an item if and only if all words asked for are among those of its path, none of the excluded ones is, and no excluded phrase stands in the path |
| SharesQuery.PlainQueryFinds | src/aioslsk/shares/manager.py:673-745 | below the maximum the result for such a query is exactly the items for which this holds |
| SharesQuery.CompleteWhenEndingsAgree | src/aioslsk/shares/manager.py:673-745 | nothing wrong is found, and everything a full scan with patterns and excluded phrases finds when, for each wildcard term, the index terms ending with its first piece index the same items; so always without wildcards |
| SharesQuery.CompleteExactly | src/aioslsk/shares/manager.py:695-710 | with one wildcard term of letters and digits everything is found if and only if any two index terms that end with it index the same items, of those let through by the other terms and phrases |
| SharesQuery.PlainWildcardExactly | src/aioslsk/shares/manager.py:695-710 | with that term alone, if and only if they index the same items |
| SharesQuery.WildcardMissesItems | src/aioslsk/shares/manager.py:701-710 | the query parsed from *ab finds neither xab nor yab although both match |
| SharesQuery.SharesManager.AddItemToTermMap | src/aioslsk/shares/manager.py:883-892 | the index of the items becomes the index of the items and the new one |
| SharesQuery.SharesManager.RebuildTermMap | src/aioslsk/shares/manager.py:293-303 | the rebuilt index is that of the items |
| SharesQuery.SharesManager.CleanupTermMap | src/aioslsk/shares/manager.py:894-898 | the index stays one of the same items and keeps no empty term |
| SharesQuery.SharesManager.Search | src/aioslsk/shares/manager.py:682-745 | index first and patterns afterwards give as many items as asked for of those that match and have the index terms, and of all those a full scan finds when the terms are in lower case and the wildcard endings, if any, agree; the index error occurs exactly when no term has a word |
| SharesQuery.SharesManager.Query | src/aioslsk/shares/manager.py:653-758 | these results are divided without overlap or loss into locked and visible ones by the mode of their directory, the friends and the user; for a query of words without wildcards they are exactly the items with all words asked for, none excluded and no excluded phrase, as long as they are fewer than the maximum |

## Left out

- Distributed: each handler is one step; the source suspends in `_set_parent` and `_unset_parent` between the change of the parent and the notification of the children, and in `_add_child` between level and root.
- Distributed: messages to the server, search requests, child depth, connecting to potential parents and the speed computation behind the maximum of children, which is a parameter; usernames of peers are taken as truthful.
- TransferState: the lock is taken as uncontended; a waiting call may in the source run the method of a state object that is no longer current. Timestamps of attempts, the speed log and progress snapshots are not modelled.
- TransferManager.TransferManager.ManageTransfers: a cycle and the first step of each upload started are one step; the list holds transfers as values, so that two holders of one object are not modelled.
- TransferManager: the queue position and queue size queries, which compare and count differently from their documentation.
- FileCopy.Download.ReceiveFile: writing a chunk to the local file happens as a whole or not at all, also when the writing fails or is cancelled, and the size of an existing local file can always be determined.
- FileCopyRuns.RunInv: a request and the first step of its attempt are one step; a task finds the offset, makes the path and opens the file in one step; the cache that a restart reads holds the transfer as it was last; the announced size is that of the remote file.
- FileCopy: an upload reported COMPLETE says that everything was handed to the connection, not that it arrived.
- Naming: digits are the ASCII ones, names are compared exactly, and two downloads that choose the same free name before either opens its file are not modelled.
- RateLimiter: floating-point rounding, and the first-come order of waiting transfers, which is that of the lock.
- UserTracking.UserTrackingManager.TrackingPass: the end of the loop and the callback that removes the entry are one step, as are sending a request and its answer.
- RoomList.RoomManager.OnRoomList: a message with fewer counts than names makes the source raise in the middle of a loop; rooms are values, so that earlier holders of a room object do not see the update.
- SharesQuery.SharesManager.Query: results are sets, as their order in the source is that of iterating over a set; the alphabet is ASCII; items that are garbage collected while referenced weakly by the index are not modelled.
- Codec: the encoding of strings as UTF-8 or Windows-1252 and compression with zlib; strings are their bytes and payloads uncompressed.
- Sockets, timeouts, cancellation, the file system and randomness are parameters or steps that may happen at any time.
- The remaining room, interest, search and user handlers, settings, UPnP, the event bus and the client facade would add easy members only.
