# Verified model of the iroh-willow sync engine

This project models, in Dafny, how iroh-willow keeps and reconciles Willow entries, and proves what the
sync engine is for: two peers that reconcile their shared areas always finish, and end with the same
undominated entries.

The parts, from the bottom up:

- **Entries and stores** (`Entries`, `MemoryStore`, `EntryStores`, `StoreLogs`, `Replicas`, `Events`). Dominance is a
  strict partial order; ingestion joins an entry into a store; the event log replays to the store's
  contents and reports every arrival that was news, with its origin; subscribers see every matching event once.
- **Range-based reconciliation** (`Fingerprints`, `Splitting`, `Wire`, `Queues`, `Reconciler`, `Answers`,
  `AnswerContents`, `Rejections`). XOR fingerprints, range splitting, what a peer answers to each message, read
  off the messages themselves, and exactly which messages it rejects. `Targets` and `Peers` hold
  the same reconciler as classes whose methods change their fields; each method is proved equal to the
  function the session is built from.
- **Sessions** (`Session`, `Protocol`, `Knowledge`, `Learning`, `Runs`, `Convergence`, `Termination`,
  `Hashing`, `EmptyAreas`). Two reconcilers and two FIFO queues, any number of targets, any interleaving. One invariant says
  that both sides number ranges alike and that no message can fail; a second that nothing held at the start is
  lost; a third that whatever a peer does not know yet is announced by something on its way. From them
  follow: no deadlock, termination with a linear number of range messages, silence of dropped targets, and
  convergence.
- **Transport** (`Framing`, `Channels`, `Links`, `LinkStates`). Length-prefixed messages through a bounded
  channel with guarantees, a byte stream cut into arbitrary chunks, and a bounded channel on the other side.
- **Setup and tracking** (`Resources`, `Intersections`, `PaiFinders`, `Presentations`, `SubspaceRequests`, `LateRequests`,
  `PaiStates`, `Areas`, `AoiFinders`, `Intents`, `Dispatching`, `IntentStates`, `Dialing`, `DialStates`,
  `EndToEnd`). Private area intersection, areas of interest, intents, simultaneous dialing.
  `AoiFinders.SetupAgrees` delivers the agreement on areas that the session theorems start from, and
  `EndToEnd.PeersSynchronise` puts setup and reconciliation together.
- **The persistent store** (`TokenTables`, `TokenCaps`, `TokenCounts`, `StoredContents`). What it holds after any
  ingestions, when that is what the memory store would hold, and the capabilities and counts kept for its tokens.

A session is described from one peer's side as a view; flipping the view shows it from the other side, so
every half of an invariant is stated and proved once.

What is taken as given, and where:

- Signatures, tokens and payload contents carry no meaning here; an entry is its namespace, subspace, path,
  timestamp, payload digest and payload length. "Newer" is lexicographic on timestamp, digest and length, as
  in the Willow Data Model specification.
- The hash behind a fingerprint is a parameter; the algebra uses real XOR. The protocol invariant, silence of
  dropped targets, the bounds and that every schedule finishes hold whatever the hash does. Convergence assumes
  of each run only that no comparison made in it is fooled (`Runs.Unfooled`): when a received fingerprint equals
  the receiver's own, no store the sender has had with that fingerprint holds other entries of the range. For
  that it is enough that the hash has no collisions on the entries in which the peers differ at the start,
  however many they share (`Hashing.DifferencesDecide`); and without it a session can finish with different
  stores (`Hashing.FooledOpening`).
- No local writes happen during a session. The steps taken while answering one message happen together;
  payload chunk counts are arbitrary.
- The group behind private area intersection is an injective hash with an injective, commuting scalar
  action (`Intersections.SchemeOk`). Message encoding is an encoder with an inverse (`Framing.Faithful`).
- `greater_but_not_prefixed` is a parameter that does what its name says (`Areas.SkipsPrefixed`;
  `Areas.SkipsPrefixedWitness` shows one that does when path lengths are unlimited).

Where the code departs from what it is meant to do:

- src/store/memory.rs:188-189 removes by indices collected before any removal, from the front. Everything
  above the store uses removal from the back. `MemoryStore.AscendingRemovalExact` proves that the loop as
  written is right if and only if at most one entry is to be pruned, and
  `MemoryStore.AscendingRemovalCounterexample` gives an input on which it keeps a pruned entry and loses an
  unrelated one.
- src/store/memory.rs:187-199 logs the entries it prunes front to back; the model, which removes from the back,
  logs several of them in the opposite order.
- src/store/persistent.rs:396-484 never refuses an entry and prunes only strictly older timestamps, so it is
  not the join the memory store is. `StoredContents.IngestIsJoinExactly` says when it is one, in terms of what
  is stored before; `StoredContents.StaleAccepted` and `StoredContents.LowerDigestSurvives` are inputs on which
  it is not, and `StoredContents.StalePruned` shows that what is stored depends on the order of arrival.
- src/store/persistent.rs:697-711 does not write a decremented count back, and src/store/persistent.rs:472 drops
  a replaced entry without releasing its token: `TokenCounts.CountsExactOverRun` says exactly when counts are
  exact after a whole run.
- src/session/intents.rs:559-566 does not compare interests added later with areas reconciled before
  (`Dispatching.LateInterestRemains`); and an interest without any time in it can be included in a reconciled
  area and remain (`Intents.EmptyInterestRemains`, exact condition in `Intents.CompleteAreaExact`). The latter
  rests on how the data-model library, which is not part of this model, treats empty ranges: it is taken to
  include them in any area around them and to intersect them with none.
- src/session/pai_finder.rs:301 names in its request for a subspace capability the handle just checked, which
  is the other side's when the other's bind completed the pair. `SubspaceRequests.RequestsOverRun` says exactly
  when the handle is the requested fragment's, `SubspaceRequests.RequestOutcome` what the other side answers
  otherwise, and `LateRequests.AnsweredForNothing` and `LateRequests.AnsweredByFailure` are runs in which the
  request is answered for no fragment at all, or fails as an unknown handle.
- src/util/channel.rs:94-98 lets the budget wrap around when guarantees are added; `Links.BudgetExact` says
  exactly when the budget is the true difference, and `Links.BudgetWraps` is a case in which it is not.
- src/proto/wgps/messages.rs:149 truncates the length to 32 bits; `Framing.FrameRoundTrip` is an if and only if,
  and `Framing.LongMessageCut` says what a longer message is read as.

## Model

| member | source | states |
|---|---|---|
| `Entries.DominatesTransitive` | src/store/memory.rs:174-186 | pruning is transitive: what prunes a pruning entry prunes its victims |
| `Entries.SameKeyComparable` | src/store/memory.rs:174-186 | of two different entries at one namespace, subspace and path, one prunes the other |
| `Entries.KnowsAllIsMaximal` | src/store/memory.rs:159-206 | an undominated subset that accounts for every entry of a set is exactly the set's undominated part |
| `Entries.JoinOfMaximal` | src/store/memory.rs:159-206 | joining an entry into the undominated part of a set gives the undominated part of the larger set |
| `MemoryStore.IngestIsJoin` | src/store/memory.rs:159-206 | vector ingestion is the set-level join, refuses exactly what the store already knows, and never repeats an entry |
| `MemoryStore.IngestAllIsMaximal` | src/store/memory.rs:159-206 | any sequence of arrivals leaves exactly those no other arrival prunes, each once |
| `MemoryStore.IngestOrderIrrelevant` | src/store/memory.rs:159-206 | neither order nor repetition of the arrivals changes the stored set |
| `MemoryStore.OneEntryPerKey` | src/store/memory.rs:159-206 | at most one stored entry per namespace, subspace and path |
| `MemoryStore.AscendingRemovalExact` | src/store/memory.rs:187-199 | the removal loop as written prunes what it should if and only if at most one entry is doomed |
| `MemoryStore.AscendingRemovalCounterexample` | src/store/memory.rs:187-199 | an input on which the loop as written keeps a pruned entry and loses an unrelated one |
| `EntryStores.NamespaceStore.Scan` | src/store/memory.rs:165-186 | the scan refuses exactly known entries and otherwise collects exactly the doomed positions |
| `EntryStores.NamespaceStore.Prune` | src/store/memory.rs:188-199 | removal from the back leaves exactly the survivors and logs each pruned entry with its cause |
| `EntryStores.NamespaceStore.IngestEntry` | src/store/memory.rs:159-206 | result, new entries and appended events of one ingestion |
| `EntryStores.EntryStore.IngestEntry` | src/store/memory.rs:159-206 | one ingestion changes one namespace's entries and log and leaves every other namespace alone |
| `EntryStores.EntryStore.GetEntries` | src/store/memory.rs:119-135 | the loop returns exactly the namespace's entries in the range, in stored order |
| `Splitting.SelectConcat` | src/store/memory.rs:119-135 | querying two stretches of a store after another gives what querying both gives: queries keep the stored order |
| `EntryStores.EntryStore.SplitRange` | src/store/traits.rs:131-200 | the imperative split yields exactly the parts that the partition theorem is about |
| `EntryStores.EntryStore.Fingerprint` | src/store/traits.rs:122-129 | the accumulated fingerprint is the fingerprint of the entries in the range |
| `EntryStores.IngestKeepsReplay` | src/store/memory.rs:187-206 | one ingestion keeps the log an exact account of the stored entries, with consecutive progress ids |
| `EntryStores.LogReplaysStore` | src/store/memory.rs:187-206 | replaying a namespace's whole log rebuilds exactly its stored entries |
| `EntryStores.AreaMirror` | src/store/traits.rs:318-341 | replaying what a subscriber to an area has received rebuilds exactly the stored entries of the area |
| `StoreLogs.LogReportsNews` | src/store/memory.rs:159-206 | the log reports as ingested exactly the arrivals that no earlier arrival accounts for, each once, with its own origin, in order |
| `StoreLogs.PrunesOnce` | src/store/memory.rs:187-199 | every pruned entry is logged as pruned once |
| `StoreLogs.SubscriberMirror` | src/store/traits.rs:320-420 | whatever a subscriber asks not to hear of, what it receives rebuilds exactly the entries of the area ingested in a way it wants to hear of, without those pruned since if it hears of prunings |
| `StoreLogs.SessionIgnored` | src/store/traits.rs:405-413 | a subscriber that ignores a session hears of exactly the ingestions from elsewhere, in order |
| `Replicas.IngestAtIsJoin` | src/store/memory.rs:159-206 | ingesting into one namespace is joining into the contents of the whole store |
| `Replicas.QueryExact` | src/store/memory.rs:119-135 | a query returns exactly the stored entries of the namespace in the range, each once |
| `Events.EventQueue.Insert` | src/store/memory.rs:355-362 | an event is appended under the next progress id |
| `Events.EventQueue.PollNext` | src/store/memory.rs:373-395 | the loop finds what the recursive specification finds: the first match from the progress id on, or pending, or out of range |
| `Events.PollSkipsOnlyMisses` | src/store/memory.rs:373-395 | polling skips only events that do not match, and waits only when none is left |
| `Events.EventStream.PollNext` | src/store/memory.rs:295-318 | the stream returns the next matching event and moves its position just behind it |
| `Events.SubscriberReceivesAll` | src/store/memory.rs:295-395 | under every interleaving of inserts and polls a subscriber has received exactly the matching events from its start to its position, in order, without gaps |
| `Fingerprints.CombineUnitAndInverse` | src/proto/wgps/fingerprint.rs:59-73 | the empty fingerprint is neutral and every fingerprint cancels itself |
| `Fingerprints.FingerprintConcat` | src/proto/wgps/fingerprint.rs:59-102 | the fingerprint of two batches together is the combination of their fingerprints |
| `Fingerprints.FingerprintOrderIrrelevant` | src/proto/wgps/fingerprint.rs:85-102 | a fingerprint depends only on which entries were added |
| `Fingerprints.BitXorAssign` | src/proto/wgps/fingerprint.rs:109-115 | the in-place loop is the combination of both operands |
| `Fingerprints.FromEntries` | src/proto/wgps/fingerprint.rs:85-102 | accumulating in place gives the fingerprint of the sequence |
| `Splitting.SortByKeySorts` | src/store/traits.rs:148-148 | sorting by namespace, subspace and path orders the entries and keeps each as often as it was |
| `Splitting.HalvesPartition` | src/store/traits.rs:153-193 | every point of the range lies in exactly one half, and no other point in either |
| `Splitting.SplitPartitions` | src/store/traits.rs:131-200 | the parts partition the range, counts add up and fingerprints combine to the fingerprint of the whole |
| `Splitting.SplitProgress` | src/store/traits.rs:131-200 | a split lowers both peers' joint entries per part, or leaves an empty lower part and anchors the upper one; the split by time is never reached |
| `Splitting.MedianHalves` | src/store/traits.rs:143-151 | exactly half of the stored entries of the range, rounded down, sort below the entry at which it is split |
| `Wire.BlockStream` | src/session/reconciler.rs:291-366 | every block of entries is accepted message by message by the entry state, carries exactly its entries and leaves the state empty |
| `Answers.FingerprintAnswerShape` | src/session/reconciler.rs:435-488 | whatever the branch, an answer covers the received range exactly once, with its last range message, under the number both sides give it |
| `Answers.AnnounceAnswerShape` | src/session/reconciler.rs:490-506 | an announcement is answered, and covered, exactly if it asks for a response |
| `Answers.FingerprintAnswerWithin` | src/session/reconciler.rs:435-488 | every range in an answer lies inside the range it answers |
| `AnswerContents.FingerprintAnswerContents` | src/session/reconciler.rs:435-488 | all messages of the answer: a bare announcement if equal; for an empty fingerprint, or at most one own entry, one announcement of the whole range with all own entries and a response asked for; else two fingerprints of ranges that cut the range in two, and no entry |
| `AnswerContents.AnnounceAnswerContents` | src/session/reconciler.rs:490-506 | an announcement is answered with everything stored in its range, or with nothing if no response is asked for |
| `AnswerContents.AnnouncedExactly` | src/session/reconciler.rs:529-612 | the entries announced are exactly those stored in the range, each sent once, without any fingerprint |
| `AnswerContents.BlockUnpacks` | src/session/reconciler.rs:529-612 | a block unpacks to its entries in order, each with its payload in as many pieces as it was cut |
| `Rejections.RejectsExactly` | src/session/reconciler.rs:117-201 | exactly those messages fail that do not fit the entry transfer, cover a range not waited for, or end the block of a missing target; each with its own error |
| `Rejections.AcceptsExactly` | src/session/reconciler.rs:275-358 | apart from fingerprints, exactly the sequences of announcements each followed by what it announces are accepted |
| `Session.FlipInv` | src/session/reconciler.rs:117-224 | the protocol invariant reads the same from both peers |
| `Protocol.CoveredIsOldest` | src/session/reconciler.rs:619-627 | the number an arriving message covers is one its receiver waits for: the oldest |
| `Protocol.RangeStepPair` | src/session/reconciler.rs:435-640 | answering a range message keeps both peers' counters and uncovered ranges in step |
| `Protocol.StepKeepsProtocol` | src/session/reconciler.rs:117-224 | no enabled step of an honest session fails, target lookup after the final terminate included, and every step keeps the invariant |
| `Knowledge.MatchConveys` | src/session/reconciler.rs:452-456 | when both hold the same entries of a range, both already know everything of each other there, so a bare announcement suffices |
| `Knowledge.FingerprintAnswerConveys` | src/session/reconciler.rs:435-488 | unless the comparison is fooled, whatever a fingerprint is answered with leaves nothing in the range unsaid or unasked |
| `Knowledge.FingerprintAnswerHonest` | src/session/reconciler.rs:435-488 | however the comparison went, every entry in the answer is stored in the range and every fingerprint in it is of the store |
| `Learning.StepLearns` | src/session/reconciler.rs:117-224 | every step keeps that nothing held at the start is lost, and unless its comparison is fooled, that whatever a peer does not know yet is announced by something on its way |
| `Runs.InitialKnow` | src/session/reconciler.rs:97-115 | two fresh peers that agree on the shared areas satisfy all invariants |
| `Runs.SessionsStart` | src/session/reconciler.rs:67-95 | any two sound stores and any agreed areas start a session |
| `Runs.RunInvariant` | src/session/reconciler.rs:97-224 | whatever the hash, in every state of every interleaving the protocol invariant holds, nothing held at the start is lost, and no enabled move fails |
| `Runs.RunLearns` | src/session/reconciler.rs:97-224 | in every run without a fooled comparison, whatever a peer does not know yet is announced by something on its way |
| `Convergence.DroppedIsUntouched` | src/session/reconciler.rs:203-224 | nothing on its way to a peer concerns a target it has completed, neither range messages nor entries |
| `Convergence.DroppedForGood` | src/session/reconciler.rs:117-224 | in every later state of the run a completed target stays dropped, reported once, and silent |
| `Convergence.NotReadyIsWaiting` | src/session/reconciler.rs:244-272 | a range message without a target is always waiting for one still in the inbox |
| `Convergence.StuckIsFinished` | src/session/reconciler.rs:97-224 | a session never deadlocks: when no peer can move, both have reported every shared area |
| `Convergence.ReportedAreaIsKnown` | src/session/reconciler.rs:203-224 | a peer that reports an area reconciled knows everything the other held there at the start |
| `Convergence.RunConverges` | src/session/reconciler.rs:435-612 | in every run without a fooled comparison, a peer that has reported all areas holds exactly the undominated part of its own entries and the other's entries in the areas |
| `Convergence.FullAreaEqual` | src/session/reconciler.rs:435-612 | when the areas cover everything, both peers end with the same entries |
| `Termination.SplitWork` | src/session/reconciler.rs:463-485 | each split leaves less work in its parts, although peers alternate and split by their own entries |
| `Termination.AnswerWork` | src/session/reconciler.rs:435-612 | whatever the hash, every answer weighs strictly less than the message it answers |
| `Termination.AnsweredBounded` | src/session/reconciler.rs:435-612 | whatever the hash, the range messages answered in a run never exceed the work it started with |
| `Termination.RangeMessagesLinear` | src/session/reconciler.rs:463-485 | whatever the hash, a session answers at most two range messages per area and ten per entry either peer held in it |
| `Termination.EveryScheduleFinishes` | src/session/reconciler.rs:97-224 | whatever the hash, under every schedule that moves whenever it can, both peers have reported every shared area after finitely many moves |
| `Termination.EverySessionConverges` | src/session/reconciler.rs:97-224 | if no comparison is fooled, both stores have then converged |
| `EndToEnd.PeersSynchronise` | src/session/reconciler.rs:97-224 | from exchanged areas of interest on, under every schedule without a fooled comparison, each peer ends with the undominated part of its own entries and the other's entries both are interested in |
| `Hashing.DifferencesDecide` | src/proto/wgps/fingerprint.rs:59-102 | no comparison of any run is fooled if the hash has no collisions on the entries only one peer holds at the start |
| `Hashing.OneEntryCollisionFree` | src/proto/wgps/fingerprint.rs:59-102 | for peers that differ in one entry, that means its hash is not the empty fingerprint |
| `Hashing.FooledOpening` | src/session/reconciler.rs:452-456 | equal fingerprints over the one shared area finish the session at once with both stores as they were, whatever they differ in |
| `EmptyAreas.NeverSplit` | src/session/reconciler.rs:435-488 | if one peer holds nothing of an area that has no entry in common with another, then in every state of every run the only fingerprint on its way for it is the opening one |
| `Targets.LiveTarget.AnnounceAndSendEntries` | src/session/reconciler.rs:529-612 | the sending loop sends the announcement and exactly the block of entries the specification says |
| `Targets.LiveTarget.AnswerWithParts` | src/session/reconciler.rs:463-485 | the loop over the parts sends them in order, covering with the last one only |
| `Targets.LiveTarget.ReceivedSendFingerprint` | src/session/reconciler.rs:435-488 | same failure, counters and messages as the session's step |
| `Targets.LiveTarget.ReceivedAnnounceEntries` | src/session/reconciler.rs:490-506 | same failure, counters and messages as the session's step |
| `Targets.LiveTarget.MarkOurRangeCovered` | src/session/reconciler.rs:619-627 | fails exactly for a range number not waited for |
| `Peers.EntryState.ReceivedTerminatePayload` | src/session/reconciler.rs:345-358 | accepted only while a payload is current; names the completed target exactly when final |
| `Peers.ReconcilerState.WaitForTarget` | src/session/reconciler.rs:255-272 | takes up intersections in order until the target exists |
| `Peers.ReconcilerState.CompleteTarget` | src/session/reconciler.rs:203-224 | drops the target and reports its area |
| `Peers.ReconcilerState.ReceivedMessage` | src/session/reconciler.rs:117-201 | the imperative reconciler fails, changes and sends exactly as the session's step |
| `Peers.ReceivingIsSteps` | src/session/reconciler.rs:117-272 | receiving with target lookup is some start steps and one delivery of the session |
| `Framing.FrameRoundTrip` | src/proto/wgps/messages.rs:141-179 | a frame decodes to its message and length, whatever follows, if and only if the length fits in 32 bits |
| `Framing.HeaderOrder` | src/proto/wgps/messages.rs:148-155 | length headers are ordered as the lengths are, byte for byte from the front |
| `Framing.LongMessageCut` | src/proto/wgps/messages.rs:141-179 | a message of 2^32 bytes or more is read as its first bytes, and the rest as the next frame |
| `Framing.FramePrefixWaits` | src/proto/wgps/messages.rs:156-168 | an incomplete frame decodes to nothing yet |
| `Framing.StreamFront` | src/proto/wgps/messages.rs:156-179 | the front of a message stream decodes to its first message when complete, and never to an error |
| `Channels.PushStaysBounded` | src/util/channel.rs:93-114 | using a guarantee that is available never wraps, and the buffer never overflows |
| `Channels.Inner.PollWrite` | src/util/channel.rs:223-242 | takes exactly what there is room and budget for |
| `Channels.Inner.PollReadBytes` | src/util/channel.rs:244-253 | hands over the whole buffer, or the end of a closed channel |
| `Channels.Inner.PollSendMessage` | src/util/channel.rs:255-274 | a message is written whole or not at all |
| `Channels.Inner.PollReceiveMessage` | src/util/channel.rs:276-299 | takes exactly one complete message off the front |
| `Links.WriteTakesAll` | src/util/channel.rs:223-242 | a write takes all of the data, or as much as leaves no room or no budget |
| `Links.WriteRefused` | src/util/channel.rs:223-242 | a write fails exactly on a closed channel and waits exactly without room or budget |
| `Links.SendsExactly` | src/util/channel.rs:255-274 | a message is taken exactly if the channel is open and its bytes exceed neither capacity nor guarantees; otherwise the sender waits, or is refused on a closed channel |
| `Links.CutShort` | src/util/channel.rs:276-299 | a reader of an incomplete message waits while the channel is open and fails once it is closed |
| `Links.EveryLinkStepKeeps` | src/util/channel.rs:159-319 | no step fails, and what was sent is always what was delivered plus what is on its way, byte for byte |
| `Links.LinkRunOk` | src/util/channel.rs:223-299 | in every run messages arrive unchanged, in order, none lost or repeated; buffers and guarantees are respected |
| `Links.BudgetExact` | src/util/channel.rs:93-114 | accepted bytes never exceed issued guarantees; the budget is their difference if and only if that fits in 64 bits |
| `Links.BudgetWraps` | src/util/channel.rs:93-114 | guarantees one beyond 64 bits leave a budget of nothing, and the sender waits |
| `Links.FullBufferDecodes` | src/util/channel.rs:204-319 | an inbound buffer without room always has a complete message at its front |
| `Links.EverythingArrives` | src/util/channel.rs:223-299 | from every state finitely many network and receiver steps deliver everything sent |
| `Links.SendsAfterCarry` | src/util/channel.rs:204-274 | a message that fits the channel and the guarantees left is taken after one network step at the latest |
| `Links.SentArrives` | src/util/channel.rs:223-299 | and is delivered, after all that was sent before, within finitely many further steps |
| `Links.EndMeansDelivered` | src/net.rs:267-312 | after an orderly close the receiver reads the end exactly when everything has been delivered |
| `LinkStates.LinkState.Send` | src/util/channel.rs:255-274 | a message is on its way exactly if the channel is open and it fits capacity and guarantees, and the link invariant is kept |
| `LinkStates.LinkState.Carry` | src/net.rs:297-315 | one turn of the send loop moves all buffered bytes to the stream, and ends exactly on a closed, drained channel |
| `LinkStates.LinkState.Arrive` | src/net.rs:267-294 | a chunk goes to the inbound channel as far as there is room, in order, and never finds it closed |
| `LinkStates.LinkState.Take` | src/util/channel.rs:276-299 | the receiver gets the next message sent, waits, or learns that all has been delivered; never an error |
| `Resources.ResourceMap.Bind` | src/session/resource.rs:45-58 | handles are consecutive, so both peers number a direction's resources alike |
| `Resources.ResourceMap.BindIfNew` | src/session/resource.rs:96-108 | a resource already bound keeps a handle under which it is found |
| `Intersections.SharedEqual` | src/proto/pai.rs:46-69 | the doubly multiplied fragments agree exactly when the fragments do |
| `Intersections.BindsReadCapExactly` | src/session/pai_finder.rs:482-499 | the most specific primary fragment meets one of the other's exactly when its capability covers the other's; over all subspaces, exactly when its path is a prefix in the same namespace |
| `Intersections.RequestsSubspaceCapExactly` | src/session/pai_finder.rs:482-499 | when the other's subspace capability is asked for |
| `Intersections.BothPresented` | src/session/pai_finder.rs:482-499 | of two capabilities one of which extends the other's path, both get presented, each by exactly one rule |
| `PaiFinders.PaiStepKeeps` | src/session/pai_finder.rs:166-309 | no step fails, and every step keeps handles, pending and complete states of both peers in step |
| `PaiFinders.FoundOnlyMeeting` | src/session/pai_finder.rs:261-309 | at any time a pair has been found at most once and only if its fragments meet |
| `PaiFinders.FoundExactly` | src/session/pai_finder.rs:261-309 | once all messages are delivered, a pair has been found exactly once if its fragments meet and never otherwise |
| `PaiFinders.ReadCapReportedExactly` | src/session/pai_finder.rs:261-309 | each capability's intersection with one of the other's is found through the read-cap rule exactly once if it covers it, never otherwise |
| `Presentations.PresentedOverRun` | src/session/pai_finder.rs:261-309 | in every run a capability is presented only at the handle of its most specific primary fragment, once for each pair found there |
| `Presentations.PresentedExactly` | src/session/pai_finder.rs:261-309 | once all is delivered, a capability has been presented once for each of the other's it covers, at that handle, and never otherwise |
| `Presentations.PresentedIffCovers` | src/session/pai_finder.rs:261-309 | a capability is presented at all if and only if it was submitted and covers one of the other's |
| `PaiFinders.ReadCapAnsweredExactly` | src/session/pai_finder.rs:311-327 | a presented capability is answered with the own one exactly when it has the properly shorter path for the same subspaces |
| `SubspaceRequests.RequestsOverRun` | src/session/pai_finder.rs:261-309 | in every run there is one request for each pair found that calls for one, and it names the requested fragment's handle if and only if our reply completed the pair or both handles have the same number |
| `SubspaceRequests.OwnHandleAnswered` | src/session/pai_finder.rs:347-366 | at any time a request under the fragment's own handle is known to the other side, and answered for its fragment once that is complete there |
| `SubspaceRequests.RequestOutcome` | src/session/pai_finder.rs:347-366 | a request fails exactly for a handle that is none of the sender's, and is answered for the fragment it is meant for if and only if the fragment it names is equal |
| `SubspaceRequests.CapReplyExactly` | src/session/pai_finder.rs:329-345 | an answer is accepted exactly for a requested handle in its namespace, and presents that handle's capability |
| `LateRequests.LateCapability` | src/session/pai_finder.rs:230-309 | all requests made for a capability the other submits later name the other's handle |
| `LateRequests.EarlyCapability` | src/session/pai_finder.rs:248-309 | all requests made for a capability submitted after the other's name the own handle |
| `LateRequests.LateRequest` | src/session/pai_finder.rs:230-309 | such a request is made whenever the later capability is for all subspaces and at or below the own path |
| `LateRequests.AnsweredForNothing` | src/session/pai_finder.rs:261-309 | a run in which the request names another fragment and is answered for none |
| `LateRequests.AnsweredByFailure` | src/session/pai_finder.rs:261-309 | a run in which the request names an unknown handle and fails |
| `PaiStates.PaiFinder.SubmitAuthorisation` | src/session/pai_finder.rs:166-228 | all fragments of a new authorisation are bound and announced in order; a repeated one is ignored |
| `PaiStates.PaiFinder.CheckForIntersection` | src/session/pai_finder.rs:261-309 | the loop logs exactly the completing pairs, presents and requests as each pair's rule says, and requests under the handle checked |
| `PaiStates.PaiFinder.ReceiveBindFragment` | src/session/pai_finder.rs:230-246 | binds the other's fragment as complete, replies under its handle and checks it |
| `PaiStates.PaiFinder.ReceiveReplyFragment` | src/session/pai_finder.rs:248-259 | completes the named handle, failing exactly for unknown ones |
| `PaiStates.PaiFinder.ReceivedReadCapForIntersection` | src/session/pai_finder.rs:311-327 | the loop over the own handles yields exactly the answering capabilities |
| `PaiStates.PaiFinder.ReceivedSubspaceCapRequest` | src/session/pai_finder.rs:347-366 | fails exactly for an unknown handle; otherwise the loop yields the complete own fragments of the same group whose authorisation holds a subspace capability |
| `PaiStates.PaiFinder.ReceivedVerifiedSubspaceCapReply` | src/session/pai_finder.rs:329-345 | closes the request and presents the handle's capability, or fails as specified |
| `Areas.IncrementedIsNext` | src/util.rs:15-26 | the increment is the next byte string of its length, and missing exactly when all bytes are 255 |
| `Areas.IncrementByOne` | src/util.rs:15-26 | the backwards in-place loop computes that increment |
| `Areas.ToRangeExact` | src/proto/grouping.rs:78-92 | the range of an area covers exactly the area's entries |
| `Areas.AreaIntersectionExact` | src/session/aoi_finder.rs:218-226 | the intersection of two areas holds exactly their common entries, in either order |
| `Areas.AreaIncludesAreaSound` | src/session/intents.rs:605-624 | an included area has no entry outside the including one |
| `Areas.AreaIncludesAreaExact` | src/session/intents.rs:605-624 | an area includes another with a time in it exactly if it includes all its entries |
| `AoiFinders.AoiRunInvariant` | src/session/aoi_finder.rs:179-238 | over any interleaving of binds every overlapping pair is emitted exactly once by each peer |
| `AoiFinders.MirrorImages` | src/session/aoi_finder.rs:179-238 | after all binds are delivered both peers hold mirror-image target ids with equal areas |
| `AoiFinders.ScopeIsOverlap` | src/session/aoi_finder.rs:195-238 | a target reconciles exactly the entries in both peers' areas of interest |
| `AoiFinders.SetupAgrees` | src/session/aoi_finder.rs:179-238 | the emitted targets satisfy what the reconciliation session assumes of its setup |
| `AoiFinders.AoiResources.BindValidated` | src/session/aoi_finder.rs:195-238 | the imperative bind emits exactly the specified intersections |
| `Intents.CompleteAreaExact` | src/session/intents.rs:605-624 | an area drops exactly the interests it includes if and only if it meets one or includes none |
| `Intents.ReconciledAllExact` | src/session/intents.rs:626-651 | ReconciledAll is sent exactly once each time the interests become empty |
| `Intents.RemainingExact` | src/session/intents.rs:559-651 | whatever the order of areas and updates, what remains is exactly what no area reconciled since its addition includes |
| `Intents.HandleTellsNews` | src/session/intents.rs:626-651 | an event adds exactly its news to what an intent is sent: reconciled areas and interest intersections that meet a remaining interest, capability intersections of a namespace with one, every abort |
| `Dispatching.DispatcherExact` | src/session/intents.rs:438-549 | every intent, updated or not, remains interested in exactly what no area reconciled since it was added includes; it is dropped exactly when closed, or nothing remains and it is not live; and its handle has been sent exactly the news of its history, in order, ReconciledAll included |
| `Dispatching.WithoutUpdates` | src/session/intents.rs:438-506 | of an intent never updated, exactly what no reconciled area includes remains |
| `Dispatching.LateInterestRemains` | src/session/intents.rs:559-566 | an interest added later is not compared with areas reconciled before |
| `IntentStates.IntentState.HandleEvent` | src/session/intents.rs:626-651 | the imperative handler changes interests and sends events as specified |
| `IntentStates.IntentDispatcher.SubmitIntent` | src/session/intents.rs:438-478 | the loops replay every reconciled area once, in some order, before the intent is registered |
| `IntentStates.IntentDispatcher.EmitEvent` | src/session/intents.rs:480-506 | every intent handles the event and exactly the completed ones are cancelled |
| `IntentStates.IntentDispatcher.UpdateIntent` | src/session/intents.rs:515-536 | merges interests into the named intent and leaves every other intent alone |
| `TokenTables.IngestKeepsTokens` | src/store/persistent.rs:408-481 | an ingestion never misses a token, prunes exactly the candidates and keeps every count high enough |
| `TokenTables.TokensNeverLost` | src/store/persistent.rs:408-481 | in every run each stored entry's token is in the table and counted at least as often as it is used |
| `TokenCaps.CapIsLast` | src/store/persistent.rs:655-717 | after any ingestions the capability kept under a token is the one it last came with |
| `TokenCaps.CapsAreTheirOwn` | src/store/persistent.rs:655-686 | if a token always comes with the same capability, every stored entry's token yields the capability that came with that entry |
| `TokenTables.RemovalExactness` | src/store/persistent.rs:689-717 | an exact count stays exact after a removal if and only if it was one |
| `TokenCounts.IngestExactness` | src/store/persistent.rs:408-481 | an ingestion leaves all counts exact if and only if they were, nothing is replaced at the entry's own point, and every pruned entry's token was counted once |
| `TokenCounts.CountsExactOverRun` | src/store/persistent.rs:408-481 | after a whole run all counts are exact if and only if every ingestion was of that kind |
| `StoredContents.IngestIsJoinExactly` | src/store/persistent.rs:408-481 | an ingestion is the set-level join if and only if: a stored entry has no candidates, or a new one is dominated by nothing stored and dominates nothing of its own timestamp at a longer path |
| `StoredContents.StoredExactly` | src/store/persistent.rs:408-481 | after a whole run an entry is stored if and only if it arrived and nothing later displaced it |
| `StoredContents.JoiningRunIsMaximal` | src/store/persistent.rs:408-481 | as long as every ingestion is a join, the store holds the undominated part of all arrivals |
| `StoredContents.StaleAccepted` | src/store/persistent.rs:408-481 | a stale entry is stored beside the newer one under its key |
| `StoredContents.StalePruned` | src/store/persistent.rs:408-481 | in the other order of arrival the same stale entry is gone |
| `StoredContents.LowerDigestSurvives` | src/store/persistent.rs:427-430 | an entry of the same timestamp and a lower digest survives below the path of the one that dominates it |
| `TokenTables.WillowStore.IngestEntry` | src/store/persistent.rs:396-484 | the imperative ingestion succeeds, keeps the token invariant, files the entry and its capability, and changes no other token's capability |
| `Dialing.PeerInfo.OnConnection` | src/engine/peer_manager.rs:203-258 | accepting, refusing and cancelling by connection state and node order |
| `Dialing.PeerInfo.OnOutcome` | src/engine/peer_manager.rs:369-404 | what the end of a dial does to the connection state |
| `Dialing.PeerInfo.ConnectIfInactive` | src/engine/peer_manager.rs:290-332 | dials exactly when no connection exists or is being made |
| `Dialing.DialStepKeeps` | src/engine/peer_manager.rs:203-332 | every step of two dialing nodes keeps their states in step |
| `Dialing.LargerDialWins` | src/engine/peer_manager.rs:203-276 | in every arrival order the larger node's dial is never refused, the other is refused meanwhile, and never are both kept |
| `Dialing.EstablishedOnce` | src/engine/peer_manager.rs:423-429 | a node hears of an established connection only while it is establishing one |
| `Dialing.BothOrNeither` | src/engine/peer_manager.rs:369-500 | once nothing is pending both nodes are active on one connection or both are free |
| `DialStates.TwoNodes.Arrive` | src/engine/peer_manager.rs:203-276 | two nodes' records driven by an arriving dial change as in the two-node system and keep its invariant |
| `DialStates.TwoNodes.DialerHears` | src/engine/peer_manager.rs:369-404 | likewise when a dialing node hears how its dial ended |

## Left out

- QUIC, tasks, timeouts, wakers, RPC and the engine's actor: delivery is a step of the model.
- Signatures, hashing, ristretto arithmetic, Meadowcap internals and postcard bytes: parameters with the laws stated above.
- Payload transfer and the blob store: only whether a payload is current, and how many chunks it is cut into.
- Static and dynamic tokens in reconciliation messages: binding a token and sending the entry are one step.
- Live data mode, session cancellation and shutdown.
- The ReconciledAll output of the reconciler: it only says that the target map has become empty, which the reports show.
- Areas' count and size limits: an area of interest is its area.
- The persistent store's own events, and the outputs that only start or stop other parts (interests to submit, all intents dropped).
- Connection reconnects, termination and shutdown in the peer manager: dialing is followed until a connection is torn down.
- The persistent store's own split and fingerprint over its tree: foreign code.
- The pending set of the intersection finder before the session is established: submissions arrive in any order anyway.
- Capability tie-breaking by delegation count: inclusion already decides for equal areas.
- Subspace capabilities themselves: whether an authorisation holds one is a parameter, and requests and their answers travel outside the queues of the finders.
- `EntryStores.NamespaceStore.Prune`: several pruned entries are logged back to front, while the source logs them front to back.
- `Runs.RunInvariant`: says nothing about entries written locally during a session, which the model excludes.
- `Termination.RangeMessagesLinear`: counts range messages; the entries and payload pieces of a block are not bounded, since an entry may be sent more than once.
- `TokenTables.TokensNeverLost`: gives a lower bound only, since the code does not write decremented counts back.
- `Dialing.LargerDialWins`: covers one connection's lifetime, without the terminating state, and a network that loses nothing.
- `Peers.ReconcilerState.ReceivedMessage`: a missing target is reported as a failure where the code panics or waits for ever.
