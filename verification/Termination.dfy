/** Every run ends: each message answered leaves less work than it carried, and the work of a
    session is linear in the entries of its areas. */
module Termination {
  import opened Orders
  import opened Entries
  import opened Ranges
  import opened MemoryStore
  import opened Fingerprints
  import opened Splitting
  import opened Replicas
  import opened Wire
  import opened Queues
  import opened Reconciler
  import opened Answers
  import opened Session
  import opened Protocol
  import opened Knowledge
  import opened Learning
  import opened Runs
  import opened Convergence

  // ---------- work carried by messages ----------

  /** Work of a fingerprint: how many range messages it may still lead to, itself included.
      `u` are both peers' entries. */
  ghost function RangeWork(u: set<Entry>, ns: NamespaceId, r: Range3d): nat {
    var n := |Within(u, ns, r)|;
    if n == 0 then 2 else 10 * n + (if Anchored(u, ns, r) then 0 else 3) - 7
  }

  ghost function MessageWork(u: set<Entry>, scopes: map<TargetId, Scope>, m: Message): nat {
    if !IsRange(m) || Handles(m) !in scopes then 0
    else if m.MsgFingerprint? then RangeWork(u, scopes[Handles(m)].namespace, m.range)
    else if m.wantResponse then 2
    else 1
  }

  ghost function QueueWork(u: set<Entry>, scopes: map<TargetId, Scope>, q: seq<Message>): nat {
    if q == [] then 0 else MessageWork(u, scopes, q[0]) + QueueWork(u, scopes, q[1..])
  }

  ghost function ScopeWork(u: set<Entry>, s: Scope): nat { RangeWork(u, s.namespace, s.range) }

  /** Areas Alfie has yet to open. */
  ghost function InboxWork(u: set<Entry>, inbox: seq<Intersection>): nat {
    if inbox == [] then 0 else ScopeWork(u, inbox[0].scope) + InboxWork(u, inbox[1..])
  }

  ghost function UnopenedWork(u: set<Entry>, p: Peer): nat {
    if p.role.Alfie? then InboxWork(u, p.inbox) else 0
  }

  ghost function Work(c: Setup, v: View): nat {
    var u := c.mine0 + c.yours0;
    UnopenedWork(u, v.me) + UnopenedWork(u, v.you) + QueueWork(u, c.yours, v.out) + QueueWork(u, c.mine, v.inn)
  }

  lemma {:induction false} QueueWorkConcat(u: set<Entry>, scopes: map<TargetId, Scope>, a: seq<Message>, b: seq<Message>)
    ensures QueueWork(u, scopes, a + b) == QueueWork(u, scopes, a) + QueueWork(u, scopes, b)
    decreases |a|
  {
    hide MessageWork;
    if a == [] {
      assert a + b == b;
    } else {
      assert (a + b)[0] == a[0] && (a + b)[1..] == a[1..] + b;
      QueueWorkConcat(u, scopes, a[1..], b);
    }
  }

  lemma {:induction false} NoRangeNoWork(u: set<Entry>, scopes: map<TargetId, Scope>, q: seq<Message>)
    requires forall m :: m in q ==> !IsRange(m)
    ensures QueueWork(u, scopes, q) == 0
    decreases |q|
  {
    if q != [] {
      assert q[0] in q;
      forall m | m in q[1..] ensures !IsRange(m) { assert m in q; }
      NoRangeNoWork(u, scopes, q[1..]);
    }
  }

  // ---------- every answer weighs less than what it answers ----------

  lemma {:induction false} AnnounceWork(u: set<Entry>, scopes: map<TargetId, Scope>, id: TargetId, t: Target, store: Replica,
                                        chunks: Entry -> nat, r: Range3d, want: bool, covers: Option<nat>, knownEmpty: bool)
    ensures QueueWork(u, scopes, AnnounceAndSend(id, t, store, chunks, r, want, covers, knownEmpty).messages)
            <= if want then 2 else 1
  {
    var entries := if knownEmpty then [] else Query(store, t.scope.namespace, r);
    var q := AnnounceAndSend(id, t, store, chunks, r, want, covers, knownEmpty).messages;
    BlockMembers(entries, chunks);
    assert q[1..] == Block(entries, chunks);
    NoRangeNoWork(u, scopes, q[1..]);
    hide Block, Query;
  }

  lemma {:induction false} WithinSum(u: set<Entry>, ns: NamespaceId, r: Range3d, lo: Range3d, hi: Range3d)
    requires Within(u, ns, r) == Within(u, ns, lo) + Within(u, ns, hi)
    requires Within(u, ns, lo) !! Within(u, ns, hi)
    ensures |Within(u, ns, r)| == |Within(u, ns, lo)| + |Within(u, ns, hi)|
  {}

  /** Splitting a range with two or more own entries leaves less work in the halves. */
  lemma {:induction false} SplitWork(u: set<Entry>, ns: NamespaceId, entries: seq<Entry>, r: Range3d)
    requires Distinct(entries) && Undominated(ToSet(entries)) && ToSet(entries) <= u
    requires forall e :: e in entries ==> e.namespace == ns
    requires |Select(entries, r)| >= 2
    ensures var mid := Median(Select(entries, r));
            RangeWork(u, ns, LowerHalf(r, mid)) + RangeWork(u, ns, UpperHalf(r, mid)) < RangeWork(u, ns, r)
  {
    SplitProgress(u, ns, entries, r);
    var mid := Median(Select(entries, r));
    var lo, hi := LowerHalf(r, mid), UpperHalf(r, mid);
    hide Within, Anchored, Select, LowerHalf, UpperHalf, SplitsByTime, Undominated, Distinct, ToSet, Median;
    WithinSum(u, ns, r, lo, hi);
    HalvesWeighLess(u, ns, r, lo, hi);
  }

  lemma {:induction false} HalvesWeighLess(u: set<Entry>, ns: NamespaceId, r: Range3d, lo: Range3d, hi: Range3d)
    requires |Within(u, ns, r)| == |Within(u, ns, lo)| + |Within(u, ns, hi)|
    requires Within(u, ns, hi) != {}
    requires Within(u, ns, lo) != {} || (!Anchored(u, ns, r) && Anchored(u, ns, hi))
    ensures RangeWork(u, ns, lo) + RangeWork(u, ns, hi) < RangeWork(u, ns, r)
  {}

  /** My store within the session's entries, filed under their namespaces. */
  lemma {:induction false} StoreWithin(c: Setup, store: Replica, ns: NamespaceId)
    requires StoreOk(c, store)
    ensures var entries := EntriesOf(store, ns);
            && Distinct(entries) && Undominated(ToSet(entries)) && ToSet(entries) <= c.mine0 + c.yours0
            && forall e :: e in entries ==> e.namespace == ns
  {
    forall e | e in EntriesOf(store, ns) ensures e in c.mine0 + c.yours0 {
      assert e in All(store);
      assert Admissible(c, e);
    }
  }

  /** A range in which neither peer holds anything: its fingerprint is answered as a match. */
  lemma {:induction false} EmptyRangeMatches(c: Setup, mine: Replica, ns: NamespaceId, r: Range3d, f: Fingerprint,
                                             yours: set<Entry>)
    requires StoreOk(c, mine) && SnapshotOk(c, ns, r, f, All(mine), yours)
    requires Within(c.mine0 + c.yours0, ns, r) == {}
    ensures FingerprintOf(c.lift, Query(mine, ns, r)) == f
  {
    var u := c.mine0 + c.yours0;
    StoreWithin(c, mine, ns);
    SelectMembers(EntriesOf(mine, ns), r);
    NoneInside(Query(mine, ns, r), Within(u, ns, r));
    hide StoreOk, FingerprintOf, Knows, Query, EntriesOf;
    var store :| store in c.yoursSeen && Snapshot(c, ns, r, f, Query(store, ns, r), All(mine), yours);
    var s := Query(store, ns, r);
    assert forall x :: x in s ==> x in ToSet(s);
    NoneInside(s, Within(u, ns, r));
  }

  lemma {:induction false} NoneInside(s: seq<Entry>, t: set<Entry>)
    requires forall x :: x in s ==> x in t
    ensures t == {} ==> s == []
  {
    if s != [] { assert s[0] in t; }
  }

  lemma {:induction false} FingerprintsWork(u: set<Entry>, scopes: map<TargetId, Scope>, m1: Message, m2: Message)
    requires m1.MsgFingerprint? && m2.MsgFingerprint? && Handles(m1) in scopes && Handles(m2) in scopes
    ensures QueueWork(u, scopes, [m1, m2])
            == RangeWork(u, scopes[Handles(m1)].namespace, m1.range) + RangeWork(u, scopes[Handles(m2)].namespace, m2.range)
  {
    hide RangeWork;
    assert [m1, m2][1..] == [m2] && [m2][1..] == [];
    assert QueueWork(u, scopes, [m2]) == MessageWork(u, scopes, m2);
  }

  lemma {:induction false} SplitAnswerWork(c: Setup, mine: Replica, id: TargetId, t: Target, chunks: Entry -> nat,
                                           range: Range3d, rangeCount: nat)
    requires StoreOk(c, mine) && Mirror(id) in c.yours && c.yours[Mirror(id)] == t.scope
    requires Within(c.mine0 + c.yours0, t.scope.namespace, range) != {}
    ensures var ns := t.scope.namespace;
            var u := c.mine0 + c.yours0;
            var parts := SplitRange(c.lift, EntriesOf(mine, ns), range, DEFAULT_MAX_SET_SIZE);
            QueueWork(u, c.yours, SendParts(id, t, mine, chunks, parts, rangeCount).messages) < RangeWork(u, ns, range)
  {
    var ns := t.scope.namespace;
    var u := c.mine0 + c.yours0;
    var entries := EntriesOf(mine, ns);
    var inside := Select(entries, range);
    var parts := SplitRange(c.lift, entries, range, DEFAULT_MAX_SET_SIZE);
    StoreWithin(c, mine, ns);
    if |inside| <= DEFAULT_MAX_SET_SIZE {
      OnePart(id, t, mine, chunks, parts[0], rangeCount);
      assert parts == [parts[0]];
      hide SendParts, AnnounceAndSend, SplitRange, Within, StoreOk, Anchored;
      AnnounceWork(u, c.yours, id, t, mine, chunks, range, true, Some(rangeCount), |inside| == 0);
    } else {
      var mid := Median(inside);
      var lo, hi := LowerHalf(range, mid), UpperHalf(range, mid);
      TwoParts(id, t, mine, chunks, Part(c.lift, entries, lo), Part(c.lift, entries, hi), rangeCount);
      hide SendParts, AnnounceAndSend, Within, StoreOk, LowerHalf, UpperHalf, RangeWork, FingerprintOf, Select, QueueWork, MessageWork;
      var m1 := MsgFingerprint(lo, Part(c.lift, entries, lo).action.fingerprint, id.ours, id.theirs, None);
      var m2 := MsgFingerprint(hi, Part(c.lift, entries, hi).action.fingerprint, id.ours, id.theirs, Some(rangeCount));
      assert SendParts(id, t, mine, chunks, parts, rangeCount).messages == [m1, m2];
      FingerprintsWork(u, c.yours, m1, m2);
      SplitWork(u, ns, entries, range);
    }
  }

  lemma {:induction false} FingerprintAnswerWork(c: Setup, mine: Replica, yours: set<Entry>, id: TargetId, t: Target,
                                                 chunks: Entry -> nat, range: Range3d, theirs: Fingerprint)
    requires StoreOk(c, mine) && Mirror(id) in c.yours && c.yours[Mirror(id)] == t.scope
    requires SnapshotOk(c, t.scope.namespace, range, theirs, All(mine), yours)
    ensures var u := c.mine0 + c.yours0;
            QueueWork(u, c.yours, AnswerFingerprint(c.lift, id, t, mine, chunks, range, theirs).messages)
            < RangeWork(u, t.scope.namespace, range)
  {
    var ns := t.scope.namespace;
    var u := c.mine0 + c.yours0;
    hide AnnounceAndSend, SendParts, SplitRange, Within, StoreOk, SnapshotOk, Query, FingerprintOf, QueueWork, Anchored;
    var c0 := t.theirCounter;
    var t1 := t.(theirCounter := c0 + 1);
    AnnounceWork(u, c.yours, id, t1, mine, chunks, range, false, Some(c0), true);
    if FingerprintOf(c.lift, Query(mine, ns, range)) == theirs {
    } else {
      if Within(u, ns, range) == {} { EmptyRangeMatches(c, mine, ns, range, theirs, yours); assert false; }
      assert RangeWork(u, ns, range) >= 3;
      if IsEmpty(theirs) {
        AnnounceWork(u, c.yours, id, t1, mine, chunks, range, true, Some(c0), false);
      } else {
        SplitAnswerWork(c, mine, id, t1, chunks, range, c0);
      }
    }
  }

  // ---------- steps ----------

  lemma {:induction false} HeadWork(u: set<Entry>, scopes: map<TargetId, Scope>, q: seq<Message>)
    requires q != []
    ensures QueueWork(u, scopes, q) == MessageWork(u, scopes, q[0]) + QueueWork(u, scopes, q[1..])
    ensures !IsRange(q[0]) ==> MessageWork(u, scopes, q[0]) == 0
  {}

  lemma {:induction false} AnnounceAnswerWork(u: set<Entry>, scopes: map<TargetId, Scope>, yours: map<TargetId, Scope>,
                                              id: TargetId, t: Target, store: Replica, chunks: Entry -> nat, m: Message)
    requires m.MsgAnnounce? && Handles(m) in scopes
    ensures QueueWork(u, yours, AnswerAnnounce(id, t, store, chunks, m).messages) < MessageWork(u, scopes, m)
  {
    hide AnnounceAndSend, RangeWork;
    if m.wantResponse {
      AnnounceWork(u, yours, id, t.(theirCounter := t.theirCounter + 1), store, chunks, m.range, false, Some(t.theirCounter), false);
    }
  }

  lemma {:induction false} ReceivedFingerprintWork(c: Setup, mine: Replica, yours: set<Entry>, id: TargetId, t: Target,
                                                   chunks: Entry -> nat, m: Message)
    requires m.MsgFingerprint? && CoverSet(m.covers) <= t.uncovered && Handles(m) == id && id in c.mine
    requires StoreOk(c, mine) && Mirror(id) in c.yours && c.yours[Mirror(id)] == t.scope == c.mine[id]
    requires SnapshotOk(c, t.scope.namespace, m.range, m.fingerprint, All(mine), yours)
    requires ReceivedFingerprint(c.lift, id, t, mine, chunks, m).Ok?
    ensures var u := c.mine0 + c.yours0;
            QueueWork(u, c.yours, ReceivedFingerprint(c.lift, id, t, mine, chunks, m).value.messages) < MessageWork(u, c.mine, m)
  {
    hide AnswerFingerprint, RangeWork, QueueWork, SnapshotOk, StoreOk;
    var covered := MarkRangeCovered(t.(started := true), m.covers).value;
    FingerprintAnswerWork(c, mine, yours, id, covered, chunks, m.range, m.fingerprint);
  }

  lemma {:induction false} ReceivedAnnounceWork(c: Setup, mine: Replica, id: TargetId, t: Target, chunks: Entry -> nat, m: Message)
    requires m.MsgAnnounce? && CoverSet(m.covers) <= t.uncovered && Handles(m) == id && id in c.mine
    requires ReceivedAnnounce(id, t, mine, chunks, m).Ok?
    ensures var u := c.mine0 + c.yours0;
            QueueWork(u, c.yours, ReceivedAnnounce(id, t, mine, chunks, m).value.messages) < MessageWork(u, c.mine, m)
  {
    hide AnswerAnnounce, RangeWork, QueueWork;
    var covered := MarkRangeCovered(t.(started := true), m.covers).value;
    AnnounceAnswerWork(c.mine0 + c.yours0, c.mine, c.yours, id, covered, mine, chunks, m);
  }

  lemma {:induction false} HeadTarget(c: Setup, v: View)
    requires CarryInv(c, v)
    requires v.inn != [] && IsRange(v.inn[0]) && Ready(v.me, v.inn[0])
    ensures var m := v.inn[0];
            var id := Handles(m);
            && v.me.transfer.Idle? && id in c.mine && Mirror(id) in c.yours
            && CoverSet(m.covers) <= v.me.targets[id].uncovered
            && c.yours[Mirror(id)] == v.me.targets[id].scope == c.mine[id]
            && StoreOk(c, v.me.store)
            && (m.MsgFingerprint? ==> SnapshotOk(c, c.mine[id].namespace, m.range, m.fingerprint, All(v.me.store), All(v.you.store)))
  {
    HeadIsExpected(c, v);
    PeerParts(c, v);
    assert v.inn[0] in v.inn;
    hide ProtocolInv, StoreOk, SnapshotOk, CargoOk, SetupOk, InboxOk, DoneIsDropped, Streams, RangesOk, CountersOk, IsComplete;
  }

  lemma {:induction false} ReceiveIsAnswer(lift: Lift, p: Peer, chunks: Entry -> nat, m: Message, s: Sent)
    requires IsRange(m) && Ready(p, m) && p.transfer.Idle?
    requires (if m.MsgFingerprint? then ReceivedFingerprint(lift, Handles(m), p.targets[Handles(m)], p.store, chunks, m)
              else ReceivedAnnounce(Handles(m), p.targets[Handles(m)], p.store, chunks, m)) == Ok(s)
    ensures var r := Receive(lift, p, chunks, m);
            r.Ok? && r.value.messages == s.messages && r.value.peer.inbox == p.inbox && r.value.peer.role == p.role
  {}

  /** Answering a range message leaves strictly less range work in the queues. */
  lemma {:induction false} AnswerWork(c: Setup, v: View, chunks: Entry -> nat)
    requires CarryInv(c, v)
    requires v.inn != [] && IsRange(v.inn[0]) && Ready(v.me, v.inn[0])
    ensures var r := Receive(c.lift, v.me, chunks, v.inn[0]);
            && r.Ok? && r.value.peer.inbox == v.me.inbox && r.value.peer.role == v.me.role
            && var u := c.mine0 + c.yours0;
               QueueWork(u, c.yours, r.value.messages) < MessageWork(u, c.mine, v.inn[0])
  {
    HeadTarget(c, v);
    hide CarryInv, ReceivedFingerprint, ReceivedAnnounce, QueueWork, MessageWork, SnapshotOk, StoreOk, Receive, RangeStep;
    var m := v.inn[0];
    var id := Handles(m);
    var t := v.me.targets[id];
    if m.MsgFingerprint? {
      FingerprintStep(c.lift, id, t, v.me.store, chunks, m);
      ReceivedFingerprintWork(c, v.me.store, All(v.you.store), id, t, chunks, m);
      ReceiveIsAnswer(c.lift, v.me, chunks, m, ReceivedFingerprint(c.lift, id, t, v.me.store, chunks, m).value);
    } else {
      AnnounceStep(id, t, v.me.store, chunks, m);
      ReceivedAnnounceWork(c, v.me.store, id, t, chunks, m);
      ReceiveIsAnswer(c.lift, v.me, chunks, m, ReceivedAnnounce(id, t, v.me.store, chunks, m).value);
    }
  }

  predicate DeliversRange(v: View, s: Step) { s.Deliver? && v.inn != [] && IsRange(v.inn[0]) }

  /** How a step moves the work, the inboxes and the queues. */
  ghost predicate StepShrinks(c: Setup, v: View, w: View, ranged: bool) {
    && Work(c, w) + (if ranged then 1 else 0) <= Work(c, v)
    && |w.me.inbox| + |w.you.inbox| <= |v.me.inbox| + |v.you.inbox|
    && (ranged
        || |w.me.inbox| + |w.you.inbox| < |v.me.inbox| + |v.you.inbox|
        || |w.out| + |w.inn| < |v.out| + |v.inn|)
  }

  lemma {:induction false} RangeShrinks(c: Setup, v: View, chunks: Entry -> nat)
    requires CarryInv(c, v)
    requires v.inn != [] && IsRange(v.inn[0]) && Ready(v.me, v.inn[0])
    requires Apply(c.lift, v, Deliver(chunks)).Some?
    ensures StepShrinks(c, v, Apply(c.lift, v, Deliver(chunks)).value, true)
  {
    hide CarryInv, QueueWork, MessageWork, Receive, InboxWork;
    var u := c.mine0 + c.yours0;
    AnswerWork(c, v, chunks);
    HeadWork(u, c.mine, v.inn);
    var r := Receive(c.lift, v.me, chunks, v.inn[0]).value.messages;
    QueueWorkConcat(u, c.yours, v.out, r);
  }

  lemma {:induction false} EntryShrinks(c: Setup, v: View, chunks: Entry -> nat)
    requires ProtocolInv(c, v)
    requires v.inn != [] && !IsRange(v.inn[0])
    requires Apply(c.lift, v, Deliver(chunks)).Some?
    ensures StepShrinks(c, v, Apply(c.lift, v, Deliver(chunks)).value, false)
  {
    hide ProtocolInv, QueueWork, MessageWork, Receive, InboxWork, PeerOk, StateOf, TransferStep, IngestAt;
    var u := c.mine0 + c.yours0;
    var me := ReceiveEntrySucceeds(c, v, chunks);
    HeadWork(u, c.mine, v.inn);
    assert v.out + [] == v.out;
  }

  lemma {:induction false} OpeningWork(u: set<Entry>, scopes: map<TargetId, Scope>, m: Message)
    requires m.MsgFingerprint? && Handles(m) in scopes
    ensures QueueWork(u, scopes, [m]) == RangeWork(u, scopes[Handles(m)].namespace, m.range)
  {}

  lemma {:induction false} StartShrinks(c: Setup, v: View)
    requires ProtocolInv(c, v) && v.me.inbox != []
    ensures StepShrinks(c, v, Apply(c.lift, v, StartNext).value, false)
  {
    var u := c.mine0 + c.yours0;
    PeerParts(c, v);
    hide ProtocolInv, RangeWork, MessageWork, TargetsOk, DoneIsDropped, Streams, RangesOk, QueueWork, Query, FingerprintOf;
    var s := Start(c.lift, v.me);
    StartMessages(c.lift, v.me);
    OpeningIsBare(c.lift, v.me);
    QueueWorkConcat(u, c.yours, v.out, s.messages);
    hide OpeningMessage;
    if v.me.role.Alfie? {
      var id := v.me.inbox[0].id;
      assert Mirror(Mirror(id)) == id;
      OpeningWork(u, c.yours, OpeningMessage(c.lift, v.me));
    } else {
      assert v.out + [] == v.out;
    }
  }

  lemma {:induction false} EveryStepShrinks(c: Setup, v: View, s: Step)
    requires CarryInv(c, v) && Enabled(v, s)
    requires Apply(c.lift, v, s).Some?
    ensures StepShrinks(c, v, Apply(c.lift, v, s).value, DeliversRange(v, s))
  {
    assert ProtocolInv(c, v);
    hide CarryInv, ProtocolInv, Apply, StepShrinks;
    match s {
      case StartNext => StartShrinks(c, v);
      case Deliver(chunks) => if IsRange(v.inn[0]) { RangeShrinks(c, v, chunks); } else { EntryShrinks(c, v, chunks); }
    }
  }

  lemma {:induction false} FlipWork(c: Setup, v: View)
    ensures Work(FlipSetup(c), Flip(v)) == Work(c, v)
  {
    assert c.mine0 + c.yours0 == c.yours0 + c.mine0;
    hide QueueWork, InboxWork;
  }

  predicate AnswersRange(v: View, move: Move) {
    match move
    case Mine(s) => DeliversRange(v, s)
    case Yours(s) => DeliversRange(Flip(v), s)
  }

  lemma {:induction false} MoveShrinks(c: Setup, v: View, move: Move, w: View)
    requires CarryInv(c, v) && Follows(c, v, move, w)
    ensures StepShrinks(c, v, w, AnswersRange(v, move))
  {
    hide CarryInv, Work, Apply, Enabled, DeliversRange;
    match move {
      case Mine(s) => EveryStepShrinks(c, v, s);
      case Yours(s) =>
        FlipCarry(c, v);
        EveryStepShrinks(FlipSetup(c), Flip(v), s);
        FlipWork(c, v);
        FlipWork(c, w);
        assert Flip(w) == Apply(c.lift, Flip(v), s).value;
    }
  }

  // ---------- runs ----------

  /** Range messages answered during a run. */
  ghost function Answered(states: seq<View>, moves: seq<Move>): nat
    requires |states| == |moves| + 1
  {
    if moves == [] then 0
    else
      var n := |moves| - 1;
      Answered(states[..n + 1], moves[..n]) + if AnswersRange(states[n], moves[n]) then 1 else 0
  }

  lemma {:induction false} RunPrefix(c: Setup, states: seq<View>, moves: seq<Move>)
    requires Run(c, states, moves) && moves != []
    ensures var n := |moves| - 1;
            && Run(c, states[..n + 1], moves[..n])
            && Follows(c, states[n], moves[n], states[n + 1])
            && states[..n + 1][n] == states[n]
  {}

  lemma {:induction false} SeenWork(c: Setup, states: seq<View>, v: View)
    ensures Work(SeenBy(c, states), v) == Work(c, v)
  {
    hide QueueWork, InboxWork;
  }

  /** A move in a run shrinks the work. */
  lemma {:induction false} RunShrinks(c: Setup, states: seq<View>, moves: seq<Move>, i: nat)
    requires Run(c, states, moves) && i < |moves|
    ensures StepShrinks(c, states[i], states[i + 1], AnswersRange(states[i], moves[i]))
  {
    RunInvariant(c, states, moves, i);
    assert Follows(c, states[i], moves[i], states[i + 1]);
    hide Run, CarryInv, Work, AnswersRange, CanMove, MoveBy, SeenBy;
    SeenSame(c, states[..i + 1]);
    MoveShrinks(SeenBy(c, states[..i + 1]), states[i], moves[i], states[i + 1]);
    SeenWork(c, states[..i + 1], states[i]);
    SeenWork(c, states[..i + 1], states[i + 1]);
  }

  /** The range messages answered in a run never exceed the work it started with. */
  lemma {:induction false} AnsweredBounded(c: Setup, states: seq<View>, moves: seq<Move>)
    requires Run(c, states, moves)
    ensures Answered(states, moves) + Work(c, states[|moves|]) <= Work(c, states[0])
    decreases |moves|
  {
    if moves != [] {
      var n := |moves| - 1;
      RunPrefix(c, states, moves);
      AnsweredBounded(c, states[..n + 1], moves[..n]);
      RunShrinks(c, states, moves, n);
      hide Run, Work, AnswersRange;
    }
  }

  lemma {:induction false} ScopeWorkLinear(u: set<Entry>, s: Scope)
    ensures ScopeWork(u, s) <= 2 + 10 * |Within(u, s.namespace, s.range)|
  {}

  /** Entries of `u` in the areas of the inbox, counted once per area. */
  ghost function AreaEntries(u: set<Entry>, inbox: seq<Intersection>): nat {
    if inbox == [] then 0
    else |Within(u, inbox[0].scope.namespace, inbox[0].scope.range)| + AreaEntries(u, inbox[1..])
  }

  lemma {:induction false} InboxWorkLinear(u: set<Entry>, inbox: seq<Intersection>)
    ensures InboxWork(u, inbox) <= 2 * |inbox| + 10 * AreaEntries(u, inbox)
    decreases |inbox|
  {
    hide Within, ScopeWork;
    if inbox != [] {
      ScopeWorkLinear(u, inbox[0].scope);
      InboxWorkLinear(u, inbox[1..]);
    }
  }

  function OpenerInbox(v: View): seq<Intersection> { if v.me.role.Alfie? then v.me.inbox else v.you.inbox }

  /** The number of range messages of a whole session is linear: two per area and ten per
      entry that either peer held in it at the start. */
  lemma {:induction false} RangeMessagesLinear(c: Setup, states: seq<View>, moves: seq<Move>)
    requires Run(c, states, moves)
    ensures var inbox := OpenerInbox(states[0]);
            Answered(states, moves) <= 2 * |inbox| + 10 * AreaEntries(c.mine0 + c.yours0, inbox)
  {
    var v := states[0];
    var u := c.mine0 + c.yours0;
    AnsweredBounded(c, states, moves);
    assert v.me.role != v.you.role && v.out == [] && v.inn == [];
    assert QueueWork(u, c.yours, []) == 0 && QueueWork(u, c.mine, []) == 0;
    hide Run, InboxWork, AreaEntries, Answered;
    InboxWorkLinear(u, OpenerInbox(v));
  }

  // ---------- every schedule ends ----------

  ghost predicate Schedule(c: Setup, states: nat -> View, moves: nat -> Move) {
    && Initial(c, states(0))
    && forall i: nat :: CanMove(states(i), moves(i)) ==> MoveBy(c.lift, states(i), moves(i)) == Some(states(i + 1))
  }

  /** The first `n` elements of an infinite sequence. */
  ghost function First<T>(f: nat -> T, n: nat): (s: seq<T>)
    ensures |s| == n && forall k :: 0 <= k < n ==> s[k] == f(k)
  {
    seq(n, k requires 0 <= k < n => f(k))
  }

  ghost predicate MovesUntil(states: nat -> View, moves: nat -> Move, n: nat) {
    forall k: nat :: k < n ==> CanMove(states(k), moves(k))
  }

  /** As long as a schedule moves it is a run. */
  lemma {:induction false} ScheduleIsRun(c: Setup, states: nat -> View, moves: nat -> Move, n: nat)
    requires Schedule(c, states, moves) && MovesUntil(states, moves, n)
    ensures Run(c, First(states, n + 1), First(moves, n))
  {
    hide CanMove, MoveBy, Initial;
  }

  /** From any state on, a schedule reaches a move that is not enabled. */
  lemma {:induction false} ScheduleStops(c: Setup, states: nat -> View, moves: nat -> Move, i: nat) returns (j: nat)
    requires Schedule(c, states, moves) && MovesUntil(states, moves, i)
    ensures j >= i && MovesUntil(states, moves, j) && !CanMove(states(j), moves(j))
    decreases Work(c, states(i)), |states(i).me.inbox| + |states(i).you.inbox|, |states(i).out| + |states(i).inn|
  {
    hide Schedule, Work, AnswersRange, CanMove, Run;
    if CanMove(states(i), moves(i)) {
      ScheduleIsRun(c, states, moves, i + 1);
      RunShrinks(c, First(states, i + 2), First(moves, i + 1), i);
      j := ScheduleStops(c, states, moves, i + 1);
    } else {
      j := i;
    }
  }

  /** Whatever the interleaving and whatever the hash, if a move is made whenever one can be made,
      then after finitely many moves both peers have reported every shared area. */
  lemma {:induction false} EveryScheduleFinishes(c: Setup, states: nat -> View, moves: nat -> Move) returns (j: nat)
    requires Schedule(c, states, moves)
    requires forall i: nat :: Stuck(states(i)) || CanMove(states(i), moves(i))
    ensures Run(c, First(states, j + 1), First(moves, j))
    ensures Finished(c, states(j))
  {
    j := ScheduleStops(c, states, moves, 0);
    hide ProtocolInv, CarryInv, Schedule, CanMove, Stuck, Finished, MoveBy;
    ScheduleIsRun(c, states, moves, j);
    hide Run;
    RunInvariant(c, First(states, j + 1), First(moves, j), j);
    StuckIsFinished(c, states(j));
  }

  /** No run the schedule makes has a comparison that is fooled. */
  ghost predicate NeverFooled(c: Setup, states: nat -> View, moves: nat -> Move) {
    forall n: nat :: Run(c, First(states, n + 1), First(moves, n)) ==> Unfooled(c, First(states, n + 1))
  }

  /** If moreover no comparison is fooled, both stores have then converged. */
  lemma {:induction false} EverySessionConverges(c: Setup, states: nat -> View, moves: nat -> Move) returns (j: nat)
    requires Schedule(c, states, moves) && NeverFooled(c, states, moves)
    requires forall i: nat :: Stuck(states(i)) || CanMove(states(i), moves(i))
    ensures Finished(c, states(j))
    ensures All(states(j).me.store) == Converged(c)
    ensures All(states(j).you.store) == Converged(FlipSetup(c))
  {
    j := EveryScheduleFinishes(c, states, moves);
    hide Run, Unfooled, Schedule, CanMove, Stuck;
    BothConverge(c, First(states, j + 1), First(moves, j));
  }

  /** A run that has finished, with no comparison fooled, ends in converged stores. */
  lemma {:induction false} BothConverge(c: Setup, states: seq<View>, moves: seq<Move>)
    requires Run(c, states, moves) && Unfooled(c, states) && Finished(c, states[|moves|])
    ensures All(states[|moves|].me.store) == Converged(c)
    ensures All(states[|moves|].you.store) == Converged(FlipSetup(c))
  {
    var n := |moves|;
    var d := SeenBy(c, states[..n + 1]);
    hide Unfooled, KnowInv, Converged, SeenBy, Follows, Initial;
    RunLearns(c, states, moves, n);
    SeenSame(c, states[..n + 1]);
    SeenConverged(c, states[..n + 1]);
    FlipKnow(d, states[n]);
    ReportedAllConverges(d, states[n]);
    ReportedAllConverges(FlipSetup(d), Flip(states[n]));
  }
}
