/** One peer's reconciler: how it answers each message. */
module Reconciler {
  import opened Orders
  import opened Entries
  import opened Ranges
  import opened Fingerprints
  import opened Splitting
  import opened Replicas
  import opened Wire

  datatype Role = Alfie | Betty

  /** An area of interest shared with the other peer, as a range of one namespace. */
  datatype Scope = Scope(namespace: NamespaceId, range: Range3d)

  datatype Intersection = Intersection(id: TargetId, scope: Scope)

  datatype Target = Target(
    scope: Scope,
    started: bool,
    uncovered: set<nat>,
    ourCounter: nat,
    theirCounter: nat)

  function NewTarget(scope: Scope): Target { Target(scope, false, {}, 0, 0) }

  predicate IsComplete(t: Target) { t.started && t.uncovered == {} }

  /** The reconciler of one peer. `reconciled` is the log of areas reported as reconciled,
      with the state their target had when it was dropped. */
  datatype Peer = Peer(
    role: Role,
    store: Replica,
    inbox: seq<Intersection>,
    targets: map<TargetId, Target>,
    transfer: Transfer,
    reconciled: map<TargetId, Target>)

  /** A target and the messages sent while working on it. */
  datatype Sent = Sent(target: Target, messages: seq<Message>)

  // ---------- a target's counters ----------

  function MarkNextRangePending(t: Target): Target {
    t.(uncovered := t.uncovered + {t.ourCounter}, ourCounter := t.ourCounter + 1)
  }

  function MarkRangeCovered(t: Target, covers: Option<nat>): Result<Target> {
    if covers.None? then Ok(t)
    else if covers.value !in t.uncovered then Err(InvalidState)
    else Ok(t.(uncovered := t.uncovered - {covers.value}))
  }

  // ---------- sending ----------

  function SendFingerprintFor(id: TargetId, t: Target, r: Range3d, f: Fingerprint, covers: Option<nat>): Sent {
    Sent(MarkNextRangePending(t), [MsgFingerprint(r, f, id.ours, id.theirs, covers)])
  }

  /** Announce a range, and send its entries unless it is known to be empty. */
  function AnnounceAndSend(id: TargetId, t: Target, store: Replica, chunks: Entry -> nat,
                           r: Range3d, wantResponse: bool, covers: Option<nat>, knownEmpty: bool): Sent
  {
    var entries := if knownEmpty then [] else Query(store, t.scope.namespace, r);
    Sent(if wantResponse then MarkNextRangePending(t) else t,
         [MsgAnnounce(r, entries == [], wantResponse, id.ours, id.theirs, covers)] + Block(entries, chunks))
  }

  function SendPart(id: TargetId, t: Target, store: Replica, chunks: Entry -> nat,
                    part: RangeSplit, covers: Option<nat>): Sent
  {
    match part.action
    case SendEntries(count) => AnnounceAndSend(id, t, store, chunks, part.range, true, covers, count == 0)
    case SendFingerprint(f) => SendFingerprintFor(id, t, part.range, f, covers)
  }

  /** Answer with the parts in order; only the last one covers the range being answered. */
  function SendParts(id: TargetId, t: Target, store: Replica, chunks: Entry -> nat,
                     parts: seq<RangeSplit>, rangeCount: nat): Sent
    decreases |parts|
  {
    if parts == [] then Sent(t, [])
    else
      var first := SendPart(id, t, store, chunks, parts[0], if |parts| == 1 then Some(rangeCount) else None);
      var rest := SendParts(id, first.target, store, chunks, parts[1..], rangeCount);
      Sent(rest.target, first.messages + rest.messages)
  }

  // ---------- receiving ----------

  /** The answer to a fingerprint, once its `covers` has been processed. */
  function AnswerFingerprint(lift: Lift, id: TargetId, t: Target, store: Replica, chunks: Entry -> nat,
                             r: Range3d, theirs: Fingerprint): Sent
  {
    var rangeCount := t.theirCounter;
    var t1 := t.(theirCounter := rangeCount + 1);
    var ns := t.scope.namespace;
    var ours := FingerprintOf(lift, Query(store, ns, r));
    if ours == theirs then
      AnnounceAndSend(id, t1, store, chunks, r, false, Some(rangeCount), true)
    else if IsEmpty(theirs) then
      AnnounceAndSend(id, t1, store, chunks, r, true, Some(rangeCount), false)
    else
      SendParts(id, t1, store, chunks, SplitRange(lift, EntriesOf(store, ns), r, DEFAULT_MAX_SET_SIZE), rangeCount)
  }

  function ReceivedFingerprint(lift: Lift, id: TargetId, t: Target, store: Replica, chunks: Entry -> nat,
                               m: Message): Result<Sent>
    requires m.MsgFingerprint?
  {
    var covered := MarkRangeCovered(t.(started := true), m.covers);
    if covered.Err? then Err(covered.error)
    else Ok(AnswerFingerprint(lift, id, covered.value, store, chunks, m.range, m.fingerprint))
  }

  /** The answer to an announcement: our entries of the range, if they were asked for. */
  function AnswerAnnounce(id: TargetId, t: Target, store: Replica, chunks: Entry -> nat, m: Message): Sent
    requires m.MsgAnnounce?
  {
    if m.wantResponse then
      AnnounceAndSend(id, t.(theirCounter := t.theirCounter + 1), store, chunks, m.range, false,
                      Some(t.theirCounter), false)
    else Sent(t, [])
  }

  function ReceivedAnnounce(id: TargetId, t: Target, store: Replica, chunks: Entry -> nat, m: Message): Result<Sent>
    requires m.MsgAnnounce?
  {
    var covered := MarkRangeCovered(t.(started := true), m.covers);
    if covered.Err? then Err(covered.error)
    else Ok(AnswerAnnounce(id, covered.value, store, chunks, m))
  }

  // ---------- the whole reconciler ----------

  datatype Reply = Reply(peer: Peer, messages: seq<Message>)

  /** Drop a finished target and report its area. */
  function CompleteTarget(p: Peer, id: TargetId): Peer
    requires id in p.targets
  {
    p.(targets := p.targets - {id}, reconciled := p.reconciled[id := p.targets[id]])
  }

  function CompleteIfDone(p: Peer, id: TargetId): Peer
    requires id in p.targets
  {
    if IsComplete(p.targets[id]) && p.transfer.Idle? then CompleteTarget(p, id) else p
  }

  /** A range message waits until its target exists. */
  predicate Ready(p: Peer, m: Message) {
    IsRange(m) ==> Handles(m) in p.targets
  }

  function ReceiveRange(lift: Lift, p: Peer, chunks: Entry -> nat, m: Message, transfer: Transfer): Result<Reply>
    requires IsRange(m) && Handles(m) in p.targets
  {
    var id := Handles(m);
    var answered :=
      if m.MsgFingerprint? then ReceivedFingerprint(lift, id, p.targets[id], p.store, chunks, m)
      else ReceivedAnnounce(id, p.targets[id], p.store, chunks, m);
    if answered.Err? then Err(answered.error)
    else
      var p1 := p.(transfer := transfer, targets := p.targets[id := answered.value.target]);
      Ok(Reply(CompleteIfDone(p1, id), answered.value.messages))
  }

  /** One received message. The target lookup after a final terminate fails the session
      when the target is gone. */
  function Receive(lift: Lift, p: Peer, chunks: Entry -> nat, m: Message): Result<Reply>
    requires Ready(p, m)
  {
    var stepped := TransferStep(p.transfer, m);
    if stepped.Err? then Err(stepped.error)
    else if IsRange(m) then ReceiveRange(lift, p, chunks, m, stepped.value)
    else
      var p1 := p.(transfer := stepped.value);
      if m.MsgEntry? then Ok(Reply(p1.(store := IngestAt(p.store, m.entry)), []))
      else if m.MsgTerminate? && m.isFinal then
        if p.transfer.target !in p.targets then Err(TargetMissing)
        else Ok(Reply(CompleteIfDone(p1, p.transfer.target), []))
      else Ok(Reply(p1, []))
  }

  /** Take up the next intersection; Alfie opens the exchange with a fingerprint of the area. */
  function Start(lift: Lift, p: Peer): Reply
    requires p.inbox != []
  {
    var id, scope := p.inbox[0].id, p.inbox[0].scope;
    var t := NewTarget(scope);
    var opening :=
      if p.role.Alfie? then
        SendFingerprintFor(id, t, scope.range, FingerprintOf(lift, Query(p.store, scope.namespace, scope.range)), None)
      else Sent(t, []);
    Reply(p.(inbox := p.inbox[1..], targets := p.targets[id := opening.target]), opening.messages)
  }
}
