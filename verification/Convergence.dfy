/** What completed targets guarantee, when a session stands still, and what the stores hold then. */
module Convergence {
  import opened Orders
  import opened Entries
  import opened Ranges
  import opened MemoryStore
  import opened Fingerprints
  import opened Splitting
  import opened Replicas
  import opened Wire
  import opened Queues
  import opened Reconciler
  import opened Answers
  import opened Session
  import opened Protocol
  import opened Knowledge
  import opened Learning
  import opened Runs

  // ---------- the invariant's parts ----------

  lemma {:induction false} PeerParts(c: Setup, v: View)
    requires ProtocolInv(c, v)
    ensures ScopesOk(c) && v.me.role != v.you.role
    ensures InboxOk(v.me, c.mine) && TargetsOk(v.me, c.mine) && DoneIsDropped(v.me)
    ensures Streams(v.me.transfer, v.inn) && RangesOk(c.mine, v.inn)
  {}

  lemma {:induction false} InvAt(c: Setup, v: View, id: TargetId)
    requires ProtocolInv(c, v) && id in c.mine
    ensures Mirror(id) in c.yours && TargetInv(c, v, id)
  {
    hide PeerOk, Streams, RangesOk;
  }

  // ---------- dropped targets stay silent ----------

  /** Read from state `s`, nothing in the queue is for the target: no range message, and no
      message of a block announced for it. */
  ghost predicate Untouched(s: Transfer, q: seq<Message>, id: TargetId)
    requires Streams(s, q)
    decreases |q|
  {
    && !(s.Receiving? && s.target == id)
    && (q != [] ==> !IsFor(q[0], id) && Untouched(TransferStep(s, q[0]).value, q[1..], id))
  }

  lemma {:induction false} SilentIsUntouched(s: Transfer, q: seq<Message>, id: TargetId)
    requires Streams(s, q) && CountFor(q, id) == 0
    requires !(s.Receiving? && s.target == id)
    ensures Untouched(s, q, id) && Owned(s, q, id) == {}
    decreases |q|
  {
    if q != [] { SilentIsUntouched(TransferStep(s, q[0]).value, q[1..], id); }
  }

  /** A peer that waits for nothing has nothing on its way: neither answers to it, nor
      unanswered ranges of its own. */
  lemma {:induction false} CompleteIsQuiet(me: Target, you: Target, out: seq<Message>, inn: seq<Message>, id: TargetId)
    requires PairOk(me, you, out, inn, id)
    requires IsComplete(me)
    ensures CountFor(inn, id) == 0 && NumberedFor(out, Mirror(id)) == 0
    ensures me.ourCounter == you.theirCounter
  {
    var lo := you.theirCounter - CoverCount(inn, id);
    assert lo in me.uncovered <==> lo < me.ourCounter;
    CoveredAndSilent(inn, id);
  }

  lemma {:induction false} DroppedPair(c: Setup, v: View, id: TargetId)
    requires ProtocolInv(c, v) && id in v.me.reconciled
    ensures id in c.mine && Mirror(id) in c.yours
    ensures id !in v.me.targets && IsComplete(v.me.reconciled[id])
    ensures TargetInv(c, v, id)
    ensures !(v.me.transfer.Receiving? && v.me.transfer.target == id) && !Waiting(v.me, id)
  {
    hide ProtocolInv, TargetInv, Streams, RangesOk, CountersOk, IsComplete;
    PeerParts(c, v);
    InvAt(c, v, id);
  }

  lemma {:induction false} DroppedIsUntouched(c: Setup, v: View, id: TargetId)
    requires ProtocolInv(c, v) && id in v.me.reconciled
    ensures id !in v.me.targets && Untouched(v.me.transfer, v.inn, id)
    ensures id in c.mine && CountFor(v.inn, id) == 0 && NumberedFor(v.inn, id) == 0 && NumberedFor(v.out, Mirror(id)) == 0
    ensures Owned(v.me.transfer, v.inn, id) == {}
  {
    DroppedPair(c, v, id);
    assert Streams(v.me.transfer, v.inn);
    hide PairOk, Streams, PeerOk, RangesOk, Untouched, Owned, CountFor, IsComplete;
    CompleteIsQuiet(v.me.reconciled[id], StateOf(v.you, c.yours, Mirror(id)), v.out, v.inn, id);
    SilentIsUntouched(v.me.transfer, v.inn, id);
    NoneForEndsCovered(v.inn, id);
  }

  /** Areas already reported stay reported, unchanged; a step reports only live targets. */
  ghost predicate ReportsGrow(p: Peer, q: Peer) {
    && (forall id :: id in p.reconciled ==> id in q.reconciled && q.reconciled[id] == p.reconciled[id])
    && (forall id :: id in q.reconciled && id !in p.reconciled ==> id in p.targets && id !in q.targets)
  }

  lemma {:induction false} ReplacesGrows(p: Peer, q: Peer, id: TargetId, after: Target)
    requires Replaces(p, q, id, after) && p.targets.Keys !! p.reconciled.Keys && id in p.targets
    ensures ReportsGrow(p, q)
  {}

  lemma {:induction false} TablesDisjoint(c: Setup, v: View)
    requires ProtocolInv(c, v)
    ensures v.me.targets.Keys !! v.me.reconciled.Keys
  {}

  lemma {:induction false} AfterEntryGrows(p: Peer, m: Message, transfer: Transfer)
    requires p.targets.Keys !! p.reconciled.Keys
    requires p.transfer.Receiving? && p.transfer.target in p.targets
    ensures ReportsGrow(p, AfterEntry(p, m, transfer))
  {}

  lemma {:induction false} StepGrows(c: Setup, v: View, s: Step)
    requires ProtocolInv(c, v) && Enabled(v, s)
    requires Apply(c.lift, v, s).Some?
    ensures ReportsGrow(v.me, Apply(c.lift, v, s).value.me) && Apply(c.lift, v, s).value.you == v.you
  {
    hide ProtocolInv, ReportsGrow, Start, Receive;
    match s {
      case StartNext => StartGrows(c, v);
      case Deliver(chunks) =>
        var m := v.inn[0];
        if IsRange(m) { RangeGrows(c, v, chunks); } else { EntryGrows(c, v, chunks); }
    }
  }

  lemma {:induction false} StartGrows(c: Setup, v: View)
    requires ProtocolInv(c, v) && v.me.inbox != []
    ensures ReportsGrow(v.me, Start(c.lift, v.me).peer)
  {}

  lemma {:induction false} RangeGrows(c: Setup, v: View, chunks: Entry -> nat)
    requires ProtocolInv(c, v) && v.inn != [] && IsRange(v.inn[0]) && Ready(v.me, v.inn[0])
    requires Receive(c.lift, v.me, chunks, v.inn[0]).Ok?
    ensures ReportsGrow(v.me, Receive(c.lift, v.me, chunks, v.inn[0]).value.peer)
  {
    var m := v.inn[0];
    TablesDisjoint(c, v);
    var after, r := ReceiveRangeSucceeds(c, v, chunks);
    hide ProtocolInv, RangeStep, Receive, ReportsGrow, Replaces, AfterRange, TransferAfter;
    AfterRangeReplaces(v.me, Handles(m), after, TransferAfter(m));
    ReplacesGrows(v.me, AfterRange(v.me, Handles(m), after, TransferAfter(m)), Handles(m), after);
  }

  lemma {:induction false} EntryGrows(c: Setup, v: View, chunks: Entry -> nat)
    requires ProtocolInv(c, v) && v.inn != [] && !IsRange(v.inn[0])
    requires Receive(c.lift, v.me, chunks, v.inn[0]).Ok?
    ensures ReportsGrow(v.me, Receive(c.lift, v.me, chunks, v.inn[0]).value.peer)
  {
    TablesDisjoint(c, v);
    assert PeerOk(v.me, c.mine);
    hide ProtocolInv, ReportsGrow, AfterEntry, Receive, TransferStep;
    var transfer := EntryTransfer(c, v);
    AfterEntryKeeps(v.me, c.mine, v.inn[0], transfer);
    ReceiveEntryIs(c.lift, v.me, chunks, v.inn[0], transfer);
    AfterEntryGrows(v.me, v.inn[0], transfer);
  }

  lemma {:induction false} EntryTransfer(c: Setup, v: View) returns (transfer: Transfer)
    requires ProtocolInv(c, v) && v.inn != []
    ensures TransferStep(v.me.transfer, v.inn[0]) == Ok(transfer)
  {
    StreamsTail(v.me.transfer, v.inn);
    transfer := TransferStep(v.me.transfer, v.inn[0]).value;
  }

  lemma {:induction false} MoveGrows(c: Setup, v: View, move: Move)
    requires ProtocolInv(c, v) && CanMove(v, move)
    requires MoveBy(c.lift, v, move).Some?
    ensures ReportsGrow(v.me, MoveBy(c.lift, v, move).value.me)
    ensures ReportsGrow(v.you, MoveBy(c.lift, v, move).value.you)
  {
    hide ProtocolInv, Apply, Enabled;
    match move {
      case Mine(s) => StepGrows(c, v, s);
      case Yours(s) => FlipInv(c, v); StepGrows(FlipSetup(c), Flip(v), s);
    }
  }

  lemma {:induction false} FollowsGrows(c: Setup, v: View, move: Move, w: View)
    requires ProtocolInv(c, v) && Follows(c, v, move, w)
    ensures ReportsGrow(v.me, w.me) && ReportsGrow(v.you, w.you)
  {
    hide ProtocolInv, CanMove, MoveBy, ReportsGrow;
    MoveGrows(c, v, move);
  }

  lemma {:induction false} ReportedForGood(c: Setup, states: seq<View>, moves: seq<Move>, i: nat, j: nat, id: TargetId)
    requires Run(c, states, moves) && i <= j < |states|
    requires id in states[i].me.reconciled
    ensures id in states[j].me.reconciled && states[j].me.reconciled[id] == states[i].me.reconciled[id]
    decreases j
  {
    assert |states| == |moves| + 1;
    hide Run;
    if i < j {
      ReportedForGood(c, states, moves, i, j - 1, id);
      RunGrows(c, states, moves, j - 1);
    }
  }

  /** Once a peer has dropped a target, in every later state of the run the target stays
      dropped, its report stays as it was, and no message for it is on its way. */
  lemma {:induction false} DroppedForGood(c: Setup, states: seq<View>, moves: seq<Move>, i: nat, j: nat, id: TargetId)
    requires Run(c, states, moves) && i <= j < |states|
    requires id in states[i].me.reconciled
    ensures id in states[j].me.reconciled && states[j].me.reconciled[id] == states[i].me.reconciled[id]
    ensures id !in states[j].me.targets
    ensures Streams(states[j].me.transfer, states[j].inn)
    ensures Untouched(states[j].me.transfer, states[j].inn, id)
  {
    hide *;
    ReportedForGood(c, states, moves, i, j, id);
    RunProtocol(c, states, moves, j);
    PeerParts(c, states[j]);
    DroppedIsUntouched(c, states[j], id);
  }

  lemma {:induction false} RunProtocol(c: Setup, states: seq<View>, moves: seq<Move>, i: nat)
    requires Run(c, states, moves) && i < |states|
    ensures ProtocolInv(c, states[i])
  {
    RunInvariant(c, states, moves, i);
    hide *;
  }

  lemma {:induction false} RunGrows(c: Setup, states: seq<View>, moves: seq<Move>, i: nat)
    requires Run(c, states, moves) && i < |moves|
    ensures |states| == |moves| + 1 && ReportsGrow(states[i].me, states[i + 1].me)
  {
    assert Follows(c, states[i], moves[i], states[i + 1]);
    RunProtocol(c, states, moves, i);
    hide ProtocolInv, Follows, ReportsGrow, Initial;
    FollowsGrows(c, states[i], moves[i], states[i + 1]);
  }

  // ---------- standing still ----------

  /** A range message that has to wait is waiting for an intersection still in the inbox. */
  lemma {:induction false} NotReadyIsWaiting(c: Setup, v: View)
    requires ProtocolInv(c, v)
    requires v.inn != [] && !Ready(v.me, v.inn[0])
    ensures Waiting(v.me, Handles(v.inn[0])) && v.me.inbox != []
  {
    var m := v.inn[0];
    var id := Handles(m);
    assert m in v.inn && id in c.mine;
    assert InboxOk(v.me, c.mine);
    if id in v.me.reconciled {
      hide ProtocolInv;
      DroppedIsUntouched(c, v, id);
    }
  }

  ghost predicate Stuck(v: View) { forall move :: !CanMove(v, move) }

  /** Everything done: all shared areas reported by both peers and nothing left in between. */
  ghost predicate Finished(c: Setup, v: View) {
    && v.out == [] && v.inn == []
    && v.me.targets == map[] && v.you.targets == map[]
    && v.me.transfer == Idle && v.you.transfer == Idle
    && v.me.reconciled.Keys == c.mine.Keys && v.you.reconciled.Keys == c.yours.Keys
  }

  lemma {:induction false} StuckQueues(c: Setup, v: View)
    requires ProtocolInv(c, v) && Stuck(v)
    ensures v.me.inbox == [] && v.inn == [] && v.me.transfer == Idle
  {
    assert !CanMove(v, Mine(StartNext));
    assert !CanMove(v, Mine(Deliver(e => 0)));
    assert Streams(v.me.transfer, v.inn);
    if v.inn != [] {
      hide ProtocolInv, Ready;
      NotReadyIsWaiting(c, v);
    }
  }

  lemma {:induction false} FlipStuck(v: View)
    requires Stuck(v)
    ensures Stuck(Flip(v))
  {
    forall move ensures !CanMove(Flip(v), move) {
      match move {
        case Mine(s) => assert !CanMove(v, Yours(s));
        case Yours(s) => assert !CanMove(v, Mine(s)); assert Flip(Flip(v)) == v;
      }
    }
  }

  /** With empty queues, counters agree and nothing is waited for. */
  lemma {:induction false} EmptyPair(me: Target, you: Target, id: TargetId)
    requires PairOk(me, you, [], [], id)
    ensures me.uncovered == {} && me.ourCounter == you.theirCounter
  {}

  lemma {:induction false} LiveTarget(c: Setup, v: View, id: TargetId)
    requires ProtocolInv(c, v) && id in v.me.targets
    requires v.me.inbox == [] && v.you.inbox == []
    ensures id in c.mine && Mirror(id) in c.yours && TargetInv(c, v, id)
    ensures var t, u := v.me.targets[id], StateOf(v.you, c.yours, Mirror(id));
            && CountersOk(t) && (v.me.role.Alfie? ==> t.ourCounter > 0) && (v.you.role.Alfie? ==> u.ourCounter > 0)
            && (IsComplete(t) ==> v.me.transfer.Receiving?)
            && v.me.role != v.you.role
  {
    hide ProtocolInv, TargetInv, Streams, RangesOk, CountersOk, IsComplete, PairOk, ScopesOk;
    PeerParts(c, v);
    FlipInv(c, v);
    OtherIsOpened(c, v, id);
    InvAt(c, v, id);
  }

  lemma {:induction false} TargetOpened(p: Peer, scopes: map<TargetId, Scope>, id: TargetId)
    requires InboxOk(p, scopes) && TargetsOk(p, scopes) && p.inbox == [] && id in scopes && p.role.Alfie?
    ensures StateOf(p, scopes, id).ourCounter > 0
  {}

  lemma {:induction false} OtherIsOpened(c: Setup, v: View, id: TargetId)
    requires ProtocolInv(c, v) && ProtocolInv(FlipSetup(c), Flip(v)) && id in c.mine && v.you.inbox == []
    ensures Mirror(id) in c.yours
    ensures v.you.role.Alfie? ==> StateOf(v.you, c.yours, Mirror(id)).ourCounter > 0
  {
    hide ProtocolInv, TargetInv, Streams, RangesOk, TargetsOk, InboxOk, ScopesOk, DoneIsDropped;
    InvAt(c, v, id);
    PeerParts(FlipSetup(c), Flip(v));
    if v.you.role.Alfie? { TargetOpened(v.you, c.yours, Mirror(id)); }
  }

  lemma {:induction false} NothingLive(c: Setup, v: View)
    requires ProtocolInv(c, v)
    requires v.me.inbox == [] && v.you.inbox == [] && v.inn == [] && v.out == [] && v.me.transfer == Idle
    ensures v.me.targets == map[]
  {
    hide ProtocolInv, PairOk;
    if v.me.targets != map[] {
      var id :| id in v.me.targets;
      LiveTarget(c, v, id);
      var t, u := v.me.targets[id], StateOf(v.you, c.yours, Mirror(id));
      EmptyPair(t, u, id);
      FlipPair(t, u, [], [], id);
      EmptyPair(u, t, Mirror(id));
    }
  }

  lemma {:induction false} AllReported(c: Setup, v: View)
    requires ProtocolInv(c, v)
    requires v.me.inbox == [] && v.me.targets == map[]
    ensures v.me.reconciled.Keys == c.mine.Keys
  {
    hide ProtocolInv, Streams, RangesOk, DoneIsDropped, ScopesOk;
    PeerParts(c, v);
    ReportedKeys(v.me, c.mine);
  }

  lemma {:induction false} ReportedKeys(p: Peer, scopes: map<TargetId, Scope>)
    requires InboxOk(p, scopes) && TargetsOk(p, scopes) && p.inbox == [] && p.targets == map[]
    ensures p.reconciled.Keys == scopes.Keys
  {}

  /** A session never deadlocks: if no peer can move, both have reported every shared area. */
  lemma {:induction false} StuckIsFinished(c: Setup, v: View)
    requires ProtocolInv(c, v) && Stuck(v)
    ensures Finished(c, v)
  {
    hide ProtocolInv, Stuck;
    FlipInv(c, v);
    FlipStuck(v);
    StuckQueues(c, v);
    StuckQueues(FlipSetup(c), Flip(v));
    NothingLive(c, v);
    NothingLive(FlipSetup(c), Flip(v));
    AllReported(c, v);
    AllReported(FlipSetup(c), Flip(v));
  }

  // ---------- what a completed target has learned ----------

  lemma {:induction false} NothingPending(c: Setup, v: View, id: TargetId, e: Entry)
    requires ProtocolInv(c, v) && id in v.me.reconciled
    ensures !Pending(v, id, e)
  {
    hide ProtocolInv, FingerprintPending, RequestPending, Streams, Owned, Untouched;
    DroppedIsUntouched(c, v, id);
    NothingOpening(c, v, id);
    SilentQueue(v.inn, id, e);
    SilentQueue(v.out, Mirror(id), e);
  }

  lemma {:induction false} NothingOpening(c: Setup, v: View, id: TargetId)
    requires ProtocolInv(c, v) && id in v.me.reconciled
    ensures !OpeningPending(v, id)
  {
    DroppedPair(c, v, id);
    hide ProtocolInv, PairOk, Waiting, Quiet;
  }

  lemma {:induction false} SilentQueue(q: seq<Message>, id: TargetId, e: Entry)
    requires NumberedFor(q, id) == 0
    ensures !FingerprintPending(q, id, e) && !RequestPending(q, id, e)
  {
    hide IncludesEntry, NumberedFor;
    if FingerprintPending(q, id, e) {
      var m :| m in q && m.MsgFingerprint? && IsFor(m, id) && IncludesEntry(m.range, e);
      NumberedMember(q, id, m);
    }
    if RequestPending(q, id, e) {
      var m :| m in q && m.MsgAnnounce? && m.wantResponse && IsFor(m, id) && IncludesEntry(m.range, e);
      NumberedMember(q, id, m);
    }
  }

  /** A peer that has reported an area knows everything the other peer held there at the start. */
  lemma {:induction false} ReportedAreaIsKnown(c: Setup, v: View, id: TargetId, e: Entry)
    requires KnowInv(c, v) && id in v.me.reconciled
    requires id in c.mine && e in c.yours0 && InScope(c.mine[id], e)
    ensures Knows(All(v.me.store), e)
  {
    PeerParts(c, v);
    NothingPending(c, v, id, e);
    hide ProtocolInv, Pending, Knows, InScope, SetupOk, StoreOk, CargoOk, FingerprintsOk, Streams;
    assert DeliveryOk(c, v);
  }

  lemma {:induction false} ScopeOf(scopes: map<TargetId, Scope>, e: Entry) returns (id: TargetId)
    requires InScopes(scopes, e)
    ensures id in scopes && InScope(scopes[id], e)
  {
    hide InScope;
    id :| id in scopes && InScope(scopes[id], e);
  }

  /** The undominated part of own entries and the other's entries in the shared areas. */
  ghost function Converged(c: Setup): set<Entry> {
    Maximal(c.mine0 + set e | e in c.yours0 && InScopes(c.mine, e))
  }

  /** A peer that has reported all shared areas holds exactly the undominated part of its own
      initial entries and the other's initial entries in those areas. */
  lemma {:induction false} ReportedAllConverges(c: Setup, v: View)
    requires KnowInv(c, v)
    requires forall id :: id in c.mine ==> id in v.me.reconciled
    ensures All(v.me.store) == Converged(c)
  {
    var u := c.mine0 + set e | e in c.yours0 && InScopes(c.mine, e);
    PeerParts(c, v);
    assert StoreOk(c, v.me.store);
    AllUndominated(v.me.store);
    hide ProtocolInv, InScopes, SetupOk, CargoOk, FingerprintsOk, DeliveryOk, KnowInv, All, Sound, InScope, Knows, Undominated;
    forall e | e in u ensures Knows(All(v.me.store), e) {
      if e !in c.mine0 {
        var id := ScopeOf(c.mine, e);
        ReportedAreaIsKnown(c, v, id, e);
      }
    }
    KnowsAllIsMaximal(All(v.me.store), u);
  }

  lemma {:induction false} SeenConverged(c: Setup, states: seq<View>)
    ensures Converged(SeenBy(c, states)) == Converged(c)
    ensures Converged(FlipSetup(SeenBy(c, states))) == Converged(FlipSetup(c))
  {}

  /** In every run in which no comparison is fooled: a peer that has reported every shared area
      has converged, whatever the other peer still has to do. */
  lemma {:induction false} RunConverges(c: Setup, states: seq<View>, moves: seq<Move>, i: nat)
    requires Run(c, states, moves) && Unfooled(c, states) && i < |states|
    requires forall id :: id in c.mine ==> id in states[i].me.reconciled
    ensures All(states[i].me.store) == Converged(c)
  {
    hide Run, KnowInv, Converged, CanMove, SeenBy, Unfooled;
    RunLearns(c, states, moves, i);
    SeenSame(c, states[..i + 1]);
    SeenConverged(c, states[..i + 1]);
    ReportedAllConverges(SeenBy(c, states[..i + 1]), states[i]);
  }

  /** When the shared areas cover everything either peer holds, both end with equal stores. */
  lemma {:induction false} FullAreaEqual(c: Setup)
    requires ScopesOk(c)
    requires forall e :: e in c.mine0 + c.yours0 ==> InScopes(c.mine, e)
    ensures Converged(c) == Converged(FlipSetup(c)) == Maximal(c.mine0 + c.yours0)
  {
    hide InScope;
    forall e | e in c.mine0 ensures InScopes(c.yours, e) {
      assert e in c.mine0 + c.yours0;
      var id := ScopeOf(c.mine, e);
      assert Mirror(id) in c.yours;
    }
    assert c.mine0 + (set e | e in c.yours0 && InScopes(c.mine, e)) == c.mine0 + c.yours0;
    assert c.yours0 + (set e | e in c.mine0 && InScopes(c.yours, e)) == c.mine0 + c.yours0;
  }
}
