# LuminalVGD: a verified model

LuminalVGD is a Windows virtual-display driver that keeps its decisions below the OS shell, in portable
code made of protocols. This project models those protocols in Dafny 4.11 and proves what they promise.
`dafny verify dfyconfig.toml` checks all of it.

| files | what they model |
|---|---|
| CommittedPaths, ..Proofs, ..Theorems, ..Writes, ..Witness | the lock-free record of committed display modes: per-slot sequence locks, a writer token nobody waits for, a contention flag; every atomic access is one step |
| Modes, ModePush | mode validation, target selection, and the gate in front of a push |
| Identity, ConnectorHistory, Session, SessionProofs, SettleOrder | connector reservations and the monitor table; what each operation keeps; settles in any order |
| Persist, Permanent, Dispatch, DispatchProofs, ReplyProofs, PoolProofs, RestartProofs | the persisted blob, the permanent pool, device start, and the dispatcher with its effects and replies |
| UpdateProtocol, ..Proofs, ..Theorems, ..Witness, PoolTheorems, RefusalProofs, RefusalTheorems | the whole path of UPDATE_MODES: requests, the effects worker, the OS, recovery and device start; refusals against the record of committed modes |
| Ring, RingProtocol, ..Proofs, ..Theorems, ..Witness, RingClaimProofs | the frame ring: the writer's policy, the reader's claim, and both interleaved |
| Cursor, CursorProtocol | the cursor's sequence lock with row compaction |
| Tdr | the one-duck latch and the recovery poller's good exit |
| Edid, EdidProofs | the EDID printer and a decoder that inverts it |
| Prelude, Ordered, Counting | shared vocabulary; walking a sorted map; counting steps of a run |

Objects whose methods update their fields are classes (SessionTable, ConnectorTable, DeviceState,
RingPolicy, RingView, CursorSection, the blob reader), array code works in place (the EDID, the ring and
cursor slots), and each such method is proved against a function on values; the lemmas are about those
functions. Where threads interleave, the code is a machine of atomic steps on values: one load, store or
compare-exchange a step, in any order the threads choose, memory sequentially consistent, versions,
generations, sequences and ids unbounded. Fields marked as history are read by no step.

What the model assumes of its surroundings: the effects worker is serial and gets effects in the order
their requests ran; replies fit their buffers in the update protocol (DispatchProofs and PoolProofs
say what happens when they do not); the host holds one ring frame at a time and releases each claim once, as every
client in the repository does; the rings of one recovery are the sessions its poller covers, and a
queued recovery task is accepted by its channel.

Where the code and its comments disagree the model follows the code:

- `begin_write` is said never to leave a stale record behind. After its attempts run out it can raise
  the contention bit with nobody holding the token; StaleRecordIsReachable shows a run, and
  UnheldRecordMissesExactlyTheFlagged says when the record is stale and by what.
- A refused list is said never to be the list in force. RefusedListCanBeInForce is a run in which it is;
  RefusedListIsInForceExactly says when, from what the OS held at the gate, and RefusalAgainstHistory
  from the settles before it.
- A rejected request is said to leave the session exactly as it was; it drops a refusal exactly when
  the refusal's token has moved (UnqueuedRequestChangesNothing, RejectedRequestDropsARefusal).
- CREATE, DESTROY and SET_PERMANENT_POOL with a short output buffer change the table and drop the
  effects, snapshot included (CreateNeedsRoom, DestroyNeedsRoom, SetPoolNeedsRoom and their IsRecorded
  partners say exactly when that does no harm).
- A pool that fails to grow at its first new member records count 0 while the old members live
  (PoolCountIsExactUnlessGrowthFails, PoolCanForgetItsMembers).
- A device start emits no snapshot. Making the device leaves the registry current exactly when the blob's
  ids rise, its connectors are distinct and below the cap, and its pool, if any, has members
  (BlobIsTakenWhole, BlobCanBeTakenInPart); bringing the pool up keeps it current exactly when there is
  no valid pool, or an adapter is there and every member has its reservation (StartupSavesExactly,
  StartCanGoUnrecorded). NewestBlobIsCurrent puts both together over whole runs.
- A take lost to the reader counts twice in frames_dropped although its frame was delivered, and a
  frame lost on an error exit is in neither counter (FrameAccounting, LostTakeCountsTwice,
  ErrorExitIsNotCounted).
- A rebuild can mix two frames in a claim, but not in one whose generation the client had seen before
  the claim (ClaimIsOnePublish, RebuildCanMixFrames, RebuildCanSpareTheClaim).
- A validated mode whose resolution fits a descriptor and whose pixel rate is below 5 kHz prints a
  preferred descriptor with a zero clock, which reads as a display descriptor (PreferredTimingReadsBack,
  SlowModeLosesItsTiming).

## Model

| member | source | states |
|---|---|---|
| CommittedPathsTheorems.OneWriter | crates/luminal-vgd-driver/src/modepush.rs:529-561 | at most one thread is between taking and returning the writer token, the WRITING bit is up exactly while one is, and the slots change only in its hands, in every interleaving |
| CommittedPathsTheorems.FreeRecordIsAccountedFor | crates/luminal-vgd-driver/src/modepush.rs:529-677 | whenever the token word is FREE the record is the outcome of the whole history of applies, forgets and turned-away updates: none is left unaccounted for, and no slot is mid-write |
| CommittedPathsTheorems.UnheldRecordMissesExactlyTheFlagged | crates/luminal-vgd-driver/src/modepush.rs:539-561 | with nobody holding the token the record can be stale exactly when the contention bit is up, and then by exactly the updates turned away since the last release |
| CommittedPathsWitness.StaleRecordIsReachable | crates/luminal-vgd-driver/src/modepush.rs:558-561 | a run in which an exhausted writer raises the bit after the holder left, so the record is stale with the token free (the comment above begin_write rules this out) |
| CommittedPathsTheorems.OutcomeMeaning | crates/luminal-vgd-driver/src/modepush.rs:592-677 | the outcome of a history is nothing if no commit took the token or somebody was turned away since the last one, else slot for slot the last commit without the monitors forgotten since |
| CommittedPathsTheorems.NoPhantom | crates/luminal-vgd-driver/src/modepush.rs:423-477 | any mode get returns for a monitor was paired with it by one single apply, whatever writers and readers interleave, same-handle rewrites and clears included |
| CommittedPathsTheorems.SameGenerationSameSlots | crates/luminal-vgd-driver/src/modepush.rs:592-616 | between two moments with no holder and the same generation no slot changed, nor was anything published in between |
| CommittedPathsTheorems.TokenKeepsAnswerExact | crates/luminal-vgd-driver/src/modepush.rs:695-709 | at any later step at which nobody holds the token and the generation still equals the one get_with_token read, its answer is exactly what the record then says |
| CommittedPathsTheorems.CallsAreWaitFree | crates/luminal-vgd-driver/src/modepush.rs:529-700 | every call ends within a constant number of its own steps, whatever the other threads do |
| CommittedPathsWrites.WriteMovesTheGeneration | crates/luminal-vgd-driver/src/modepush.rs:529-677 | however a write call ends, taken or turned away, by the time it returns the generation has moved and the update is on record |
| CommittedPathsWrites.EarlierTokenNeverReturns | crates/luminal-vgd-driver/src/modepush.rs:583-616 | a token read before a write call began is below every generation after it returned |
| CommittedPathsWrites.UnheldCountGoesWithTheRecord | crates/luminal-vgd-driver/src/modepush.rs:592-677 | with nobody holding the token the active count is that of the last commit that took it, or 0 when the record was cleared |
| CommittedPathsWrites.ForcedOnlyAfterFourAttempts | crates/luminal-vgd-driver/src/modepush.rs:539-561 | the contention flag is forced up only by a call that found the token taken at four of its steps |
| CommittedPathsWrites.PassedOverOnlyAfterFourLooks | crates/luminal-vgd-driver/src/modepush.rs:423-466 | a read passes over a slot it could not make out only when four of its looks at it came apart |
| CommittedPathsTheorems.UnpackPacked | crates/luminal-vgd-driver/src/modepush.rs:433-466 | packing a mode into the slot words and reading it back gives the mode |
| ModePush.GateMeaning | crates/luminal-vgd-driver/src/modepush.rs:783-808 | a list goes out exactly when it stays in the create-time list and does not leave out a committed mode that list describes; a refusal names that mode, which the request left out |
| ModePush.SupersetIndexOf | crates/luminal-vgd-driver/src/modepush.rs:818-820 | the first create-time mode that is the committed one, None exactly when there is none |
| ModePush.FromSignalIgnoresReduction | crates/luminal-vgd-driver/src/modepush.rs:268-277 | whatever fraction of the reported rate the OS hands back, the same millihertz mode is recovered |
| ModePush.PushOutcome.SettleResult | crates/luminal-vgd-driver/src/modepush.rs:156-185 | an outcome settles as applied exactly when it changed a published list, and as blocked exactly when a retry is pointless |
| ModePush.ParkedPush | crates/luminal-vgd-driver/src/modepush.rs:215-238 | a push at a parked monitor commits exactly for a non-empty list within the parked create-time list, and is never permanent |
| ModePush.PreferredMonitorModeIdx | crates/luminal-vgd-driver/src/modepush.rs:838-847 | the first filled-in monitor mode that is being offered, 0 if none is |
| Modes.Validate | crates/luminal-vgd-core/src/modes.rs:37-86 | a mode is accepted exactly for a spec in the envelope with a depth and range the driver supports |
| Modes.ValidateList | crates/luminal-vgd-core/src/modes.rs:100-130 | the loop computes the validated list or the error of the first bad or repeated entry |
| Modes.ValidListExactly | crates/luminal-vgd-core/src/modes.rs:100-130 | a list is accepted exactly when it has 1 to 4 entries, each valid, none twice; the result is those modes in order |
| Modes.SelectTargets | crates/luminal-vgd-core/src/modes.rs:167-193 | the loop computes the selection |
| Modes.SelectionMeaning | crates/luminal-vgd-core/src/modes.rs:167-193 | the selection is exactly the requested modes of the create-time list, each once and in the order asked for; accepted and rejected count the entries in that list and those not in it, and the first rejected one is named |
| Identity.ConnectorTable.Restore | crates/luminal-vgd-core/src/identity.rs:106-117 | persisted entries are taken front to back, dropping connectors out of range or already claimed |
| Identity.ConnectorTable.Acquire | crates/luminal-vgd-core/src/identity.rs:123-153 | the identity keeps its connector, else gets the lowest free one, else that of the least recently used identity that is not live |
| Identity.ConnectorTable.Release | crates/luminal-vgd-core/src/identity.rs:156-159 | the reservation and its age are gone, nothing else |
| Identity.AcquireSucceedsBelowTheCap | crates/luminal-vgd-core/src/identity.rs:123-153 | with fewer live identities than connectors acquire never fails (pigeonhole) |
| Identity.AcquireMeaning | crates/luminal-vgd-core/src/identity.rs:123-153 | acquiring keeps reservations injective and in range, takes nothing from a live identity, and evicts only when every connector is taken |
| Identity.ReleaseMeaning | crates/luminal-vgd-core/src/identity.rs:156-159 | releasing costs nobody else a reservation and frees the connector |
| ConnectorHistory.EvictedWasUsedLongestAgo | crates/luminal-vgd-core/src/identity.rs:106-159 | over any history of restores, acquires and releases: an evicted identity is not live, and every other reserved identity that is not live was restored or acquired after the last time it was |
| Identity.RestoreIsInjective | crates/luminal-vgd-core/src/identity.rs:106-117 | whatever was persisted, restored reservations are injective and in range |
| Identity.EphemeralDisplayId | crates/luminal-vgd-core/src/identity.rs:39-41 | an ephemeral identity lies above every host identity and is not permanent |
| Identity.SerialMixesTheHalves | crates/luminal-vgd-core/src/identity.rs:51-55 | the serial treats both halves of the id alike, and equal halves cancel |
| Identity.ProductCodesTellApart | crates/luminal-vgd-core/src/identity.rs:43-49 | product codes of pool members and of connectors are distinct and in ranges of their own |
| Session.SessionTable.CreateTrusted | crates/luminal-vgd-core/src/session.rs:459-554 | the method takes the table to the specified next table and result, connector table included |
| Session.SessionTable.UpdateModes | crates/luminal-vgd-core/src/session.rs:621-729 | the method takes the table to the specified next table and answer |
| Session.SessionTable.SettleModes | crates/luminal-vgd-core/src/session.rs:790-854 | the method takes the table to the specified next table and outcome |
| Session.SessionTable.Destroy | crates/luminal-vgd-core/src/session.rs:865-871 | the session is gone; an ephemeral identity gives its connector back, a retained one keeps it |
| Session.SessionTable.Tick | crates/luminal-vgd-core/src/session.rs:910-929 | exactly the expired sessions are reaped, lowest id first |
| Session.SessionTable.QueryLease | crates/luminal-vgd-core/src/session.rs:893-906 | identity, connector and remaining time of the session |
| Session.EffectiveLeaseTimeout | crates/luminal-vgd-core/src/session.rs:355-370 | a lease is disabled exactly when asked for or by a zero watchdog default, else within 3 s to 300 s; a value in range is kept |
| SessionProofs.LeaseGranted | crates/luminal-vgd-core/src/session.rs:355-370 | a lease of 3 s to 300 s is kept, others are cut to the nearer bound, and the default is the watchdog seconds raised to 10 s and cut at 300 s |
| SessionProofs.CreatedLivesItsLease | crates/luminal-vgd-core/src/session.rs:459-554 | a session created now survives a later sweep exactly while its lease, counted from its creation, has not run out |
| SessionProofs.PingedLivesItsLease | crates/luminal-vgd-core/src/session.rs:886-929 | and so it does counted from a ping, which changes nothing else |
| SessionProofs.CreateFailsCleanly | crates/luminal-vgd-core/src/session.rs:459-554 | a create goes through exactly when its checks pass; a failed one leaves the whole table, reservation ages included, as it was |
| SessionProofs.CreateIsToldWhy | crates/luminal-vgd-core/src/session.rs:459-554 | a refused create is told the first check it fails |
| SessionProofs.CreatedOnAdapter | crates/luminal-vgd-core/src/session.rs:459-554 | a monitor lands on the adapter asked for, else on the preferred one while it exists, else on the default |
| ReplyProofs.CreatedModesAreOfOneKind | crates/luminal-vgd-core/src/session.rs:459-554 | its modes are the ones asked for, in order, all of the depth and range asked for |
| SessionProofs.CreateKeepsInv | crates/luminal-vgd-core/src/session.rs:459-554 | live connectors stay distinct and equal to their reservations; the new monitor offers its whole list, has nothing outstanding and listens to no update issued so far; a known identity gets its connector back |
| SessionProofs.LiveConnectorsAreDistinct | crates/luminal-vgd-core/src/session.rs:459-554 | two live monitors never share a connector, and each is below the cap |
| SessionProofs.DestroyKeepsInv | crates/luminal-vgd-core/src/session.rs:865-871 | the table invariant survives a destroy, which removes that session only |
| SessionProofs.TickKeepsInv | crates/luminal-vgd-core/src/session.rs:910-929 | the table invariant survives a sweep, which removes exactly the expired sessions |
| SessionProofs.LeaseQueryPredictsReap | crates/luminal-vgd-core/src/session.rs:893-929 | the remaining time QUERY_LEASE reports is exactly how long sweeps keep sparing the session |
| SessionProofs.ReconnectKeepsIdentity | crates/luminal-vgd-core/src/session.rs:459-554 | after a destroy, a client with the same retained identity finds the same connector |
| SessionProofs.SameIdentitySameEdid | crates/luminal-vgd-core/src/session.rs:459-554 | two creates of one identity on one connector show the same serial and product code; a serial asked for is kept |
| SessionProofs.AskOutcome | crates/luminal-vgd-core/src/session.rs:621-729 | the four answers to a request (error, refused, answered from a refusal, already asked for, queued), each exactly when it is given, and what each leaves of the monitor |
| ReplyProofs.OwnModesAreUnderstood | crates/luminal-vgd-core/src/session.rs:621-660 | asking for any list of the monitor's own modes, none twice, is understood as exactly that list and taken whole |
| SessionProofs.UpdateKeepsInv | crates/luminal-vgd-core/src/session.rs:621-729 | the table invariant survives any request: lists stay non-empty parts of the create-time list, ids stay ordered, pending and refused exclude each other |
| SessionProofs.UnqueuedRequestChangesNothing | crates/luminal-vgd-core/src/session.rs:621-729 | a request that queues nothing, rejected ones included, changes the table exactly when a remembered refusal's token has moved, and then only drops it |
| UpdateProtocolWitness.RejectedRequestDropsARefusal | crates/luminal-vgd-core/src/session.rs:621-660 | a run in which a request rejected as a bad mode drops a refusal (the comment there says a rejected request leaves the session as it was) |
| SessionProofs.SettleOutcomeMeaning | crates/luminal-vgd-core/src/session.rs:790-854 | a settle is honoured exactly above the high-water mark and at most at the last issued id; it makes its list durable exactly when the push committed, and touches no other session |
| SessionProofs.SettleKeepsInv | crates/luminal-vgd-core/src/session.rs:790-854 | an honest settle keeps the table invariant |
| SessionProofs.FailedPushIsRetried | crates/luminal-vgd-core/src/session.rs:826-852 | after a push that did not apply the same request queues again under a larger id, exactly unless it asks for the list in force |
| SessionProofs.RefusedPushIsAnswered | crates/luminal-vgd-core/src/session.rs:628-729 | after a committed-mode refusal the same request is answered with the mode in the way, pushes nothing and changes nothing while the token stands; when it moved, it pushes again |
| UpdateProtocolTheorems.RefusedListIsInForceExactly | crates/luminal-vgd-core/src/session.rs:790-854 | when a refusal is settled in any run: the refused list is remembered exactly of the outstanding push, and is the list in force exactly when the OS already held it when the gate turned it away; the mode it names is left out by that list and was committed when an earlier step of the run turned this very push away under this token |
| SettleOrder.RefusalAgainstHistory | crates/luminal-vgd-core/src/session.rs:790-854 | whatever the order of the settles, a remembered refusal is about the list in force exactly when the highest applied settle carried that list, or none applied and it is the create-time list |
| UpdateProtocolWitness.RefusedListCanBeInForce | crates/luminal-vgd-core/src/session.rs:670-687 | a run of the whole protocol after which it is: the older push settles as not applied, then the younger one as blocked (the comment there says it cannot be) |
| SettleOrder.DurableIsTheHighestApplied | crates/luminal-vgd-core/src/session.rs:790-854 | for settles in any order, repeated or late, built from issued updates: honoured ids strictly increase and the durable list is that of the highest honoured applied one, or the create-time list; never empty, always within the create-time list |
| SettleOrder.DeadSettleIsInert | crates/luminal-vgd-core/src/session.rs:527-535 | an update issued before a session was created never touches it, whatever its settle reports |
| Permanent.ReconcileReaches | crates/luminal-vgd-core/src/permanent.rs:86-110 | carrying out the plan turns members 0 to current into members 0 to desired, keeping a member exactly when no setting changed |
| Persist.Serialize | crates/luminal-vgd-core/src/persist.rs:63-91 | the loops print the specified blob |
| Persist.Parse | crates/luminal-vgd-core/src/persist.rs:93-137 | the cursor reads exactly what the specified parse reads, and fails exactly when it does |
| Persist.RoundTrip | crates/luminal-vgd-core/src/persist.rs:63-137 | a blob of up to 1024 reservations parses back to its state, whatever follows it |
| Persist.TooManyReservationsAreRefused | crates/luminal-vgd-core/src/persist.rs:103-106 | one reservation more and nothing parses |
| Persist.StrictPrefixIsRefused | crates/luminal-vgd-core/src/persist.rs:93-137 | every strict prefix of a blob parses to nothing |
| Persist.TailIsIgnored | crates/luminal-vgd-core/src/persist.rs:93-137 | any bytes that parse keep parsing to the same state whatever is appended |
| Persist.RestartRebuildsReservations | crates/luminal-vgd-core/src/identity.rs:106-117 | the parsed reservations restored into a fresh table with the same cap give the same map |
| Dispatch.DeviceState.constructor | crates/luminal-vgd-driver/src/dispatch.rs:294-305 | a device starts from whatever a stored blob parses to, else empty |
| Dispatch.DeviceState.CreateMonitor | crates/luminal-vgd-driver/src/dispatch.rs:454-493 | table, reply and effects as specified; effects only if the reply fits |
| ReplyProofs.CreateReplyMeaning | crates/luminal-vgd-driver/src/dispatch.rs:454-493 | a create is answered 0 exactly when it goes through; reply, plug and table then agree on identity, connector, adapter and ring slots, and a refusal carries nothing |
| ReplyProofs.RefusedCreateCode | crates/luminal-vgd-driver/src/dispatch.rs:454-493 | the wire code of a refused create |
| Dispatch.DeviceState.DestroyMonitor | crates/luminal-vgd-driver/src/dispatch.rs:497-519 | table, reply and effects as specified; effects only if the reply fits |
| ReplyProofs.DestroyReplyMeaning | crates/luminal-vgd-driver/src/dispatch.rs:497-519 | 0, no such session, or not handshaken, and what each leaves |
| Dispatch.DeviceState.UpdateModes | crates/luminal-vgd-driver/src/dispatch.rs:521-669 | nothing happens if the reply does not fit; else table, reply flags and the one push as specified |
| ReplyProofs.RefusedUpdateReply | crates/luminal-vgd-driver/src/dispatch.rs:521-669 | a request that never gets to a selection counts nothing, queues nothing, is told how many modes are offered now, and why |
| ReplyProofs.AnsweredUpdateCounts | crates/luminal-vgd-driver/src/dispatch.rs:584-606 | accepted and rejected are the numbers of requested entries the monitor was and was not created with; the first of the latter is named; requested is the count |
| ReplyProofs.AnsweredUpdateReply | crates/luminal-vgd-driver/src/dispatch.rs:584-669 | when a push is queued and of what, pending, the mode in the way, the result code, and the mode count: of the selection when queued or on its way, else of the list in force |
| Dispatch.DeviceState.ApplyPool | crates/luminal-vgd-driver/src/dispatch.rs:375-408 | members destroyed and created lowest first until one fails, with the count the code records |
| Dispatch.DeviceState.SetPermanentPool | crates/luminal-vgd-driver/src/dispatch.rs:740-763 | validation, pool change and snapshot as specified |
| ReplyProofs.PoolReplyMeaning | crates/luminal-vgd-driver/src/dispatch.rs:375-408 | a pool request is answered 0 exactly when the pool recorded is the one asked for, else with the code of the first member that could not be created |
| Dispatch.DeviceState.WatchdogTick | crates/luminal-vgd-driver/src/dispatch.rs:798-808 | an unplug per reaped session in order, and a snapshot if any |
| Dispatch.DeviceState.Startup | crates/luminal-vgd-driver/src/dispatch.rs:344-354 | persisted members are created again |
| DispatchProofs.CreateMirrors | crates/luminal-vgd-driver/src/dispatch.rs:454-493 | the effects take the shown monitors from before to after the request, the stored state follows, and the table invariant holds |
| DispatchProofs.DestroyMirrors | crates/luminal-vgd-driver/src/dispatch.rs:497-519 | likewise for DESTROY_MONITOR |
| DispatchProofs.SetPoolMirrors | crates/luminal-vgd-driver/src/dispatch.rs:375-408 | likewise for SET_PERMANENT_POOL, over any number of members and partial failure |
| DispatchProofs.TickMirrors | crates/luminal-vgd-driver/src/dispatch.rs:798-808 | likewise for a watchdog sweep |
| DispatchProofs.UpdateMirrors | crates/luminal-vgd-driver/src/dispatch.rs:570-669 | UPDATE_MODES changes nothing shown and nothing stored |
| DispatchProofs.RestartKeepsSaved | crates/luminal-vgd-driver/src/dispatch.rs:294-305 | a device started from the blob of another with the same cap records the same reservations and pool |
| DispatchProofs.NewDeviceInv | crates/luminal-vgd-driver/src/dispatch.rs:294-305 | whatever bytes the registry held, the device starts sound |
| RestartProofs.BlobIsTakenWhole | crates/luminal-vgd-driver/src/dispatch.rs:294-305 | a device made from a blob would record just what the blob says exactly when its ids rise strictly, its connectors are distinct and below this device's cap, and its pool, if any, has members |
| UpdateProtocolWitness.BlobCanBeTakenInPart | crates/luminal-vgd-driver/src/dispatch.rs:294-305 | a blob that reserves a connector the device does not have: the reservation is not taken over, and the registry is behind with no pool to bring up |
| DispatchProofs.CreateNeedsRoom | crates/luminal-vgd-driver/src/dispatch.rs:454-493 | a create keeps the shell in step exactly when its reply fits or it would be refused |
| DispatchProofs.CreateIsRecordedWithRoom | crates/luminal-vgd-driver/src/dispatch.rs:454-493 | and the registry exactly then or when the identity has its reservation already |
| DispatchProofs.DestroyNeedsRoom | crates/luminal-vgd-driver/src/dispatch.rs:497-519 | a destroy keeps the shell in step exactly when its reply fits or it would be refused |
| DispatchProofs.DestroyIsRecordedWithRoom | crates/luminal-vgd-driver/src/dispatch.rs:497-519 | and the registry exactly then or when the identity is a retained one |
| PoolProofs.SetPoolNeedsRoom | crates/luminal-vgd-driver/src/dispatch.rs:740-763 | a SET_PERMANENT_POOL keeps the shell in step exactly when its reply fits, it is refused, or it unplugs no live member and its first create is not admitted; the registry exactly when the reply fits, it is refused, it asks for the pool there is, or none is recorded and none will be |
| PoolTheorems.MembersMatchThePool | crates/luminal-vgd-driver/src/dispatch.rs:375-408 | in every reachable state the live members below the recorded count carry the recorded settings, whatever grows, shrinks and failures came before |
| PoolTheorems.MembersOutliveEverySweep | crates/luminal-vgd-core/src/permanent.rs:48-80 | in every reachable state no sweep, however late, takes a live pool member |
| DispatchProofs.PoolCountIsExactUnlessGrowthFails | crates/luminal-vgd-driver/src/dispatch.rs:389-406 | the recorded count is the number of live members, exactly unless an unchanged non-empty pool is to grow and the table does not admit its next member |
| UpdateProtocolWitness.PoolCanForgetItsMembers | crates/luminal-vgd-driver/src/dispatch.rs:389-406 | a run of two pool requests that ends with count 0 and a live member |
| PoolProofs.StartupSavesExactly | crates/luminal-vgd-driver/src/dispatch.rs:344-354 | what is to be recorded survives a start, which records nothing, exactly when there is no valid pool, or an adapter is there and every member has its reservation |
| UpdateProtocolWitness.StartCanGoUnrecorded | crates/luminal-vgd-driver/src/dispatch.rs:344-354 | a run in which a start finds no adapter, so the device forgets the pool the registry still holds |
| UpdateProtocolProofs.StepKeepsInv | crates/luminal-vgd-driver/src/shell/monitors.rs:658-848 | every request, worker step, OS answer, park and replug keeps the protocol invariant |
| UpdateProtocolTheorems.DurableListIsTheOsList | crates/luminal-vgd-driver/src/shell/monitors.rs:852-1055 | in every reachable state, outside the gap between a push and its settle, the durable list of a plugged monitor is the list the OS holds, even when requests supersede pushes in mid-call |
| UpdateProtocolTheorems.SettleClosesTheGap | crates/luminal-vgd-core/src/session.rs:790-854 | inside the gap the OS already holds what the settle is about to record |
| UpdateProtocolTheorems.FullyInForceIsInForce | crates/luminal-driver-proto/src/lib.rs:810-812 | a reply for which fully_in_force holds means the OS holds exactly the requested list, entry by entry, or the monitor is still to be plugged with exactly it |
| UpdateProtocolTheorems.BlockedReplyNamesTheMode | crates/luminal-driver-proto/src/lib.rs:802-804 | a reply not worth retrying queues nothing, changes nothing, and names a create-time mode the request leaves out, which the OS had committed when an earlier step of the run turned this list away from this incarnation under the request's token |
| RefusalTheorems.BlockedModeIsStillCommitted | crates/luminal-vgd-driver/src/modepush.rs:679-709 | such a reply is true now: if the gates decided on reads of the record and the request's token is the generation of a record nobody is writing, the mode it names is the one the record says is committed on that monitor |
| RefusalTheorems.RefusalExpiresWithAWrite | crates/luminal-vgd-core/src/session.rs:628-729 | once any commit or forget begun after the gate's read has returned, taken or turned away, no request is answered from that refusal any more, and asking again queues a push |
| UpdateProtocolTheorems.PendingIsOnItsWay | crates/luminal-vgd-driver/src/shell/monitors.rs:658-848 | a list is pending only while the push that carries it is queued or under way; with nothing queued nothing is pending |
| UpdateProtocolTheorems.WorkerGetsDone | crates/luminal-vgd-driver/src/shell/control.rs:1449-1500 | while there is work the worker can go on, and each of its steps leaves less |
| UpdateProtocolTheorems.EffectsMirrorTheTable | crates/luminal-vgd-driver/src/dispatch.rs:344-519 | over any run, the start that brings the persisted pool up included, folding the queued effects over what the shell shows gives exactly the table's sessions and lists |
| UpdateProtocolTheorems.NewestBlobIsCurrent | crates/luminal-vgd-driver/src/dispatch.rs:294-370 | over any run from any stored blob, the newest blob parses to the current reservations and pool, exactly unless the device was made from a blob it could not take whole, or some start found no adapter or a member without a reservation, and no snapshot was queued since |
| UpdateProtocolTheorems.QuietShellMirrorsTheTable | crates/luminal-vgd-driver/src/dispatch.rs:294-808 | with nothing queued the shell has exactly the table's sessions, and the registry the current state exactly unless it was left behind |
| UpdateProtocolTheorems.PublishedListsStayPublishable | crates/luminal-vgd-core/src/modes.rs:167-193 | every published list is a non-empty part of the create-time list |
| Ring.SlotCount | crates/luminal-vgd-core/src/ring.rs:44-46 | the slot count is clamped to 2..8 |
| Ring.RingPolicy.WriterAcquire | crates/luminal-vgd-core/src/ring.rs:73-99 | a free slot first, else the oldest published one, else the frame is dropped |
| Ring.RingPolicy.WriterAbort | crates/luminal-vgd-core/src/ring.rs:105-109 | the slot is free and the frame counted |
| Ring.RingPolicy.Publish | crates/luminal-vgd-core/src/ring.rs:113-120 | the slot carries the next sequence |
| Ring.RingPolicy.ReconcileShared | crates/luminal-vgd-core/src/ring.rs:153-168 | the policy absorbs the shared state it has seen |
| Ring.RingPolicy.Rebuild | crates/luminal-vgd-core/src/ring.rs:173-179 | all slots free, the generation bumped, sequences and counters kept |
| Ring.AcquireMeaning | crates/luminal-vgd-core/src/ring.rs:73-99 | no slot the reader holds is ever picked; a frame is overwritten only when no slot is free, and then the oldest |
| Ring.RingView.ClaimLatest | crates/luminal-vgd-host/src/device.rs:324-371 | with the writer idle the newest published frame is claimed, and None means nothing is published |
| Ring.RingView.Release | crates/luminal-vgd-host/src/device.rs:375-384 | a held slot becomes free, any other stays |
| RingProtocolTheorems.PolicySimulatesSharedSlots | crates/luminal-vgd-driver/src/shell/swapchain.rs:1144-1185 | the private policy and the shared states agree slot by slot in every reachable state |
| RingProtocolProofs.AbsorbedTells | crates/luminal-vgd-core/src/ring.rs:153-168 | after reconciling a slot it agrees with, the policy says Free, Reading or Published(sequence) exactly as the shared state is FREE, READING or PUBLISHED |
| RingProtocolTheorems.RefusedOnlyWhenHeld | crates/luminal-vgd-core/src/ring.rs:73-168 | a frame is refused only when each slot was READING at the moment the writer looked at it for this frame |
| RingProtocolTheorems.FreeTakeNeverFails | crates/luminal-vgd-driver/src/shell/ring.rs:217-230 | the take of a slot chosen as free always succeeds; a take is lost only on an overwrite, to a claim |
| RingProtocolTheorems.ClaimIsOnePublish | crates/luminal-vgd-host/src/device.rs:324-371 | a claim whose last-read generation is one the client saw in the header at or before the compare-exchange has sequence, timestamp and fence of one publish, no older than the one scanned, whatever rebuilds run |
| RingProtocolTheorems.ClaimHoldsItsSlot | crates/luminal-vgd-host/src/device.rs:324-384 | with no rebuild under way at the compare-exchange or begun since, the claim still holds its slot, which shows exactly what it read under the current generation |
| RingProtocolTheorems.ClaimedSlotIsLeftAlone | crates/luminal-vgd-driver/src/shell/swapchain.rs:1144-1283 | while the slot is READING no step but its release and a rebuild's reset touches it |
| RingProtocolWitness.RebuildCanMixFrames | crates/luminal-vgd-driver/src/shell/swapchain.rs:155-168 | a run in which a rebuild between claim and read gives the reader one frame's sequence and another's timestamp, the generation having moved |
| RingProtocolWitness.RebuildCanSpareTheClaim | crates/luminal-vgd-driver/src/shell/swapchain.rs:155-168 | a run with the same generations in which the claim comes out whole, so a moved generation settles nothing |
| RingProtocolTheorems.FrameAccounting | crates/luminal-vgd-core/src/ring.rs:73-120 | offered = published + refused + aborted + lost takes + error exits; published = claimed + overwritten + cleared + still published; dropped = refused + aborted + overwritten + twice the lost takes |
| RingProtocolWitness.LostTakeCountsTwice | crates/luminal-vgd-core/src/ring.rs:73-109 | a run with one lost take: one frame lost, frames_dropped 2 |
| RingProtocolWitness.ErrorExitIsNotCounted | crates/luminal-vgd-driver/src/shell/swapchain.rs:1240-1244 | a run in which a frame given up on an error exit is in neither counter |
| RingProtocolTheorems.SequencesAreConsecutive | crates/luminal-vgd-core/src/ring.rs:113-120 | whenever a shared slot turns PUBLISHED its sequence is the number of times any slot has, across drops, aborts and rebuilds, and its fence is 0 or that number |
| RingProtocolTheorems.NewestFrameIsNotLost | crates/luminal-vgd-core/src/ring.rs:73-120 | if every successful take since the last rebuild ended in a publish, outside a write the newest frame has been claimed or is the newest slot published |
| RingProtocolTheorems.QuietClaimTakesTheNewest | crates/luminal-vgd-host/src/device.rs:324-371 | a claim nobody disturbs is over within 2n + 6 of its own steps on n slots, with nothing exactly when no slot is PUBLISHED, else with the newest published frame whole |
| RingProtocolTheorems.QuietClaimTakesTheNewestFrame | crates/luminal-vgd-host/src/device.rs:324-371 | on a clean ring outside a write that is the newest frame of all, unless it was claimed before |
| RingProtocolTheorems.ClaimGivesUpOnlyBeaten | crates/luminal-vgd-host/src/device.rs:324-371 | a claim comes back with nothing only when its last scan found every slot without a published frame, or after one lost race more than there are slots |
| Cursor.CursorSection.WriteShape | crates/luminal-vgd-driver/src/shell/cursor.rs:120-150 | every row lands at its width * 4 pitch, the metadata is the source's, the generation is the next even one, whatever it was |
| Cursor.CursorSection.ReadShape | crates/luminal-vgd-host/src/device.rs:499-536 | undisturbed, exactly the published shape if it fits the buffer |
| CursorProtocol.AcceptedCopyIsOneShape | crates/luminal-vgd-host/src/device.rs:499-536 | an accepted copy is one published shape: header of a single write, every row the source row, no older than the newest complete when the call began; for every interleaving |
| CursorProtocol.QuietReadSucceeds | crates/luminal-vgd-host/src/device.rs:499-536 | a call during which the writer takes no step ends within a fixed number of its own steps, with the newest shape exactly when one is published, none is being written and it fits the buffer |
| CursorProtocol.CallGivesUpOnlyDisturbed | crates/luminal-vgd-host/src/device.rs:499-536 | a read comes back with nothing only when nothing was published, the header read does not fit, or it was disturbed eight times |
| Tdr.NoLostRecovery | crates/luminal-vgd-driver/src/shell/control.rs:1191-1237 | a ring left REBUILDING by a worker that finished its failure path has a duck in flight, or a poller on its way out that has yet to re-read it |
| Tdr.AfterTheGoodExit | crates/luminal-vgd-driver/src/shell/control.rs:1219-1237 | once every poller on its way out has returned, such a ring has a duck in flight |
| Tdr.OneDuckPerIncident | crates/luminal-vgd-driver/src/shell/control.rs:659-688 | at most one duck is in flight, and the latch is up exactly then |
| Tdr.LocksNeverDecide | crates/luminal-vgd-driver/src/tdr.rs:147-193 | whoever holds the ring mutexes while the pollers look, the very same run of states unfolds |
| Tdr.QuietPollerLetsGo | crates/luminal-vgd-driver/src/shell/control.rs:1191-1237 | an undisturbed poller whose rings are settled lets the latch go and is gone within 2n + 3 steps; while one is pending it keeps watching |
| Edid.ClockError | crates/luminal-vgd-core/src/edid.rs:143-147 | the printed clock is within 5 kHz of the pixel rate |
| Edid.ClockDoesNotOverflow | crates/luminal-vgd-core/src/edid.rs:143-147 | no validated mode overflows the 64-bit product |
| Edid.ChooseDtd | crates/luminal-vgd-core/src/edid.rs:155-168 | the loop finds the first halved rate that fits |
| Edid.ChosenFits | crates/luminal-vgd-core/src/edid.rs:155-168 | whatever the mode, the chosen timing fits the descriptor |
| Edid.StandInIsTheNearest | crates/luminal-vgd-core/src/edid.rs:155-168 | what stands in for a mode that does not fit: the same resolution at refresh / 2^k for the least k of 1 or more that is still 23 Hz and fits, if the resolution fits and there is one; else 4K at 60 Hz |
| Edid.WriteDtd | crates/luminal-vgd-core/src/edid.rs:170-191 | the descriptor is printed in place and nothing else changes |
| Edid.DtdDecodes | crates/luminal-vgd-core/src/edid.rs:170-191 | decoding by section 3.10.2 of VESA E-EDID Release A Rev 2 returns the timing, exactly unless the pixel rate is below 5 kHz |
| Edid.WriteTextDescriptor | crates/luminal-vgd-core/src/edid.rs:194-213 | the descriptor is printed in place and nothing else changes |
| Edid.TextReadsBack | crates/luminal-vgd-core/src/edid.rs:194-213 | a text field reads back as the text, unprintables replaced, cut at 13 |
| Edid.Checksum | crates/luminal-vgd-core/src/edid.rs:215-218 | the last byte of a block is its check byte |
| Edid.Generate | crates/luminal-vgd-core/src/edid.rs:221-318 | the in-place writer produces the specified 256 bytes |
| EdidProofs.BothBlocksSumToZero | crates/luminal-vgd-core/src/edid.rs:215-218 | both blocks sum to 0 modulo 256 (section 3.11 of VESA E-EDID Release A Rev 2) |
| EdidProofs.PreferredTimingReadsBack | crates/luminal-vgd-core/src/edid.rs:221-282 | the preferred descriptor decodes to the mode, or to the stand-in when the mode does not fit, clock within 5 kHz; it is no timing exactly when the mode's resolution fits and its own pixel rate is below 5 kHz |
| EdidProofs.OneHertzIsEnough | crates/luminal-vgd-core/src/edid.rs:143-168 | every validated mode of 1 Hz and more gets a real timing |
| EdidProofs.SlowModeLosesItsTiming | crates/luminal-vgd-core/src/edid.rs:143-168 | a validated mode of 1 mHz whose descriptor reads as a display descriptor |
| EdidProofs.IdentityReadsBack | crates/luminal-vgd-core/src/edid.rs:234-239 | product code and serial read back from the header |
| EdidProofs.HeaderReadsBack | crates/luminal-vgd-core/src/edid.rs:230-260 | pattern, maker, year, structure, colour depth, size in centimetres, gamma and the unused timings read back from the header |
| EdidProofs.PhysicalSize | crates/luminal-vgd-core/src/edid.rs:223-226 | the size asked for, 600 by 340 mm when none is, 2550 mm at most |
| EdidProofs.SerialStringMatchesSerial | crates/luminal-vgd-core/src/edid.rs:278-279 | the serial string spells the binary serial in hex |
| EdidProofs.NameReadsBack | crates/luminal-vgd-core/src/edid.rs:271-276 | the name descriptor reads back as the name |
| EdidProofs.CtaWalkEndsAtTheOffset | crates/luminal-vgd-core/src/edid.rs:289-315 | walking the CTA-861 section 7.5 data blocks ends exactly at the declared offset, with the two HDR blocks exactly for an HDR monitor |

## Left out

- Direct3D, DXGI, IddCx, WDF and Win32: each call is an outcome the environment chooses; pixels are opaque.
- Weak memory ordering and counter wrap-around: sequential consistency and unbounded counters throughout.
- CommittedPaths is modelled on values, not as a class: its steps interleave. The counts apply and end_write report for the trace are not modelled.
- RingLive and the ring and cursor protocols are modelled on values for the same reason; RingPolicy, RingView and CursorSection are classes for their undisturbed behaviour.
- UpdateProtocolTheorems.DurableListIsTheOsList: a final device exit, which clears the adapter under everything, is not a step of the protocol; nor is destroy_all. A device start is.
- Dispatch.DeviceState.CreateMonitor: the EDID bytes, transport flags and section names that travel with a plug are left out of the effect.
- Dispatch: HANDSHAKE (a parameter here), PING, QUERY_LEASE and status replies, wire layouts, buffer sizes (a reply fits or not) and legacy request sizes.
- Session.SessionTable.CreateTrusted: adapter selection is an opaque partial function; ring telemetry mirrored for GET_STATUS is left out.
- RingProtocolTheorems.ClaimIsOnePublish: one claim held at a time; the fence value is one word; the slot's HDR block and dirty bounds are left out.
- Tdr.NoLostRecovery: sessions created after a recovery started are not covered by its poller; the poller's other exits, the GPU probe and the legacy display duck are left out.
- Edid.Generate: UTF-16 decoding of the name and the default name, and the luminance codes (floating logarithm and root), are inputs.
- Identity: container GUIDs; authorization, registry access, ETW tracing, the FFI header, probes and the stress harness.
- CaptureController, ring_watch and notice: mostly single-branch facts.
