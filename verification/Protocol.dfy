/** No step of an honest run fails, and every step keeps the protocol invariant. */
module Protocol {
  import opened Orders
  import opened Entries
  import opened Ranges
  import opened Fingerprints
  import opened Splitting
  import opened Replicas
  import opened Wire
  import opened Queues
  import opened Reconciler
  import opened Answers
  import opened Session

  function CoverSet(covers: Option<nat>): set<nat> { if covers.Some? then {covers.value} else {} }

  /** What answering the range message `m` does to its target `t`. */
  ghost predicate RangeStep(m: Message, id: TargetId, t: Target, after: Target, r: seq<Message>)
    requires IsRange(m)
  {
    && after.scope == t.scope
    && after.started
    && CoverSet(m.covers) <= t.uncovered
    && after.ourCounter == t.ourCounter + NumberedFor(r, Mirror(id))
    && after.uncovered == (t.uncovered - CoverSet(m.covers)) + Interval(t.ourCounter, after.ourCounter)
    && after.theirCounter == t.theirCounter + (if Numbered(m) then 1 else 0)
    && (if Numbered(m) then Piece(Mirror(id), r, Some(t.theirCounter)) else r == [])
    && RangesWithin(r, m.range)
  }

  // ---------- counters ----------

  /** The number an answer covers is one the target still waits for: the oldest. */
  lemma {:induction false} CoveredIsOldest(t: Target, u: Target, out: seq<Message>, inn: seq<Message>, id: TargetId)
    requires CountsOk(t, u, out, inn, id)
    requires inn != [] && CoversFor(inn[0], id)
    ensures inn[0].covers.value == u.theirCounter - CoverCount(inn, id)
    ensures inn[0].covers.value in t.uncovered
    ensures forall n :: n in t.uncovered ==> inn[0].covers.value <= n
  {}

  lemma {:induction false} RangeStepMine(t: Target, u: Target, out: seq<Message>, inn: seq<Message>, id: TargetId,
                                         after: Target, r: seq<Message>)
    requires inn != [] && IsFor(inn[0], id)
    requires CountsOk(t, u, out, inn, id) && TailOk(t, inn, id)
    requires RangeStep(inn[0], id, t, after, r)
    ensures CountsOk(after, u, out + r, inn[1..], id) && TailOk(after, inn[1..], id)
  {
    QueueConcat(out, r, Mirror(id), 0);
    var lo := u.theirCounter - CoverCount(inn, id);
    if inn[0].covers.Some? {
      CoveredIsOldest(t, u, out, inn, id);
      assert after.uncovered == Interval(lo + 1, after.ourCounter);
    } else {
      assert after.uncovered == Interval(lo, after.ourCounter);
    }
    if !EndsCovered(inn, id) { NoneForEndsCovered(inn[1..], id); }
  }

  lemma {:induction false} RangeStepYours(t: Target, u: Target, out: seq<Message>, inn: seq<Message>, id: TargetId,
                                          after: Target, r: seq<Message>)
    requires inn != [] && IsFor(inn[0], id)
    requires CountsOk(u, t, inn, out, Mirror(id)) && TailOk(u, out, Mirror(id))
    requires RangeStep(inn[0], id, t, after, r)
    ensures CountsOk(u, after, inn[1..], out + r, Mirror(id)) && TailOk(u, out + r, Mirror(id))
  {
    var lo := t.theirCounter - CoverCount(out, Mirror(id));
    QueueConcat(out, r, Mirror(id), lo);
    assert Mirror(Mirror(id)) == id;
    if r == [] { assert out + r == out; }
  }

  lemma {:induction false} RangeStepPair(t: Target, u: Target, out: seq<Message>, inn: seq<Message>, id: TargetId,
                                         after: Target, r: seq<Message>)
    requires inn != [] && IsFor(inn[0], id)
    requires PairOk(t, u, out, inn, id)
    requires RangeStep(inn[0], id, t, after, r)
    ensures PairOk(after, u, out + r, inn[1..], id)
  {
    hide CountsOk, TailOk, RangeStep;
    RangeStepMine(t, u, out, inn, id, after, r);
    RangeStepYours(t, u, out, inn, id, after, r);
  }

  /** Messages about other targets leave a target's counts alone. */
  lemma {:induction false} OtherMessages(t: Target, u: Target, out: seq<Message>, inn: seq<Message>, id: TargetId, r: seq<Message>)
    requires inn != [] && !IsFor(inn[0], id)
    requires forall m :: m in r ==> !IsFor(m, Mirror(id))
    requires PairOk(t, u, out, inn, id)
    ensures PairOk(t, u, out + r, inn[1..], id)
    ensures Quiet(out, inn, id) ==> Quiet(out + r, inn[1..], id)
  {
    NoneForCount(r, Mirror(id));
    NoneForEndsCovered(r, Mirror(id));
    QueueConcat(out, r, Mirror(id), t.theirCounter - CoverCount(out, Mirror(id)));
    assert Mirror(Mirror(id)) == id;
  }

  // ---------- answering a range message ----------

  lemma {:induction false} BumpedStep(m: Message, id: TargetId, t: Target, r: seq<Message>, after: Target)
    requires IsRange(m) && Numbered(m) && CoverSet(m.covers) <= t.uncovered
    requires Piece(Mirror(id), r, Some(t.theirCounter)) && RangesWithin(r, m.range)
    requires var t1 := t.(started := true, uncovered := t.uncovered - CoverSet(m.covers));
             after == Bumped(t1.(theirCounter := t1.theirCounter + 1), NumberedFor(r, Mirror(id)))
    ensures RangeStep(m, id, t, after, r)
  {}

  lemma {:induction false} FingerprintStep(lift: Lift, id: TargetId, t: Target, store: Replica, chunks: Entry -> nat, m: Message)
    requires m.MsgFingerprint? && CoverSet(m.covers) <= t.uncovered
    ensures var r := ReceivedFingerprint(lift, id, t, store, chunks, m);
            r.Ok? && RangeStep(m, id, t, r.value.target, r.value.messages)
  {
    var t1 := t.(started := true, uncovered := t.uncovered - CoverSet(m.covers));
    assert t.uncovered - {} == t.uncovered;
    assert MarkRangeCovered(t.(started := true), m.covers) == Ok(t1);
    FingerprintAnswerShape(lift, id, t1, store, chunks, m.range, m.fingerprint);
    var s := AnswerFingerprint(lift, id, t1, store, chunks, m.range, m.fingerprint);
    FingerprintAnswerWithin(lift, id, t1, store, chunks, m.range, m.fingerprint);
    hide AnswerFingerprint, Piece, Bumped, RangeStep;
    BumpedStep(m, id, t, s.messages, s.target);
  }

  lemma {:induction false} AnnounceStep(id: TargetId, t: Target, store: Replica, chunks: Entry -> nat, m: Message)
    requires m.MsgAnnounce? && CoverSet(m.covers) <= t.uncovered
    ensures var r := ReceivedAnnounce(id, t, store, chunks, m);
            r.Ok? && RangeStep(m, id, t, r.value.target, r.value.messages)
  {
    var t1 := t.(started := true, uncovered := t.uncovered - CoverSet(m.covers));
    assert t.uncovered - {} == t.uncovered;
    assert MarkRangeCovered(t.(started := true), m.covers) == Ok(t1);
    AnnounceAnswerShape(id, t1, store, chunks, m);
    var s := AnswerAnnounce(id, t1, store, chunks, m);
    if m.wantResponse {
      AnnounceWithin(id, t1.(theirCounter := t1.theirCounter + 1), store, chunks, m.range, false,
                     Some(t1.theirCounter), false, m.range);
      hide AnswerAnnounce, Piece, Bumped, RangeStep;
      BumpedStep(m, id, t, s.messages, s.target);
    } else {
      assert NumberedFor([], Mirror(id)) == 0 && Interval(t.ourCounter, t.ourCounter) == {};
    }
  }

  /** The head of the queue belongs to a shared target and answers a range it waits for. */
  lemma {:induction false} HeadIsExpected(c: Setup, v: View)
    requires ProtocolInv(c, v)
    requires v.inn != [] && IsRange(v.inn[0]) && Ready(v.me, v.inn[0])
    ensures v.me.transfer.Idle?
    ensures Handles(v.inn[0]) in c.mine
    ensures CoverSet(v.inn[0].covers) <= v.me.targets[Handles(v.inn[0])].uncovered
  {
    var m := v.inn[0];
    var id := Handles(m);
    assert m in v.inn;
    assert TargetInv(c, v, id);
    if m.covers.Some? { CoveredIsOldest(v.me.targets[id], StateOf(v.you, c.yours, Mirror(id)), v.out, v.inn, id); }
  }

  function AfterRange(p: Peer, id: TargetId, after: Target, transfer: Transfer): Peer
    requires id in p.targets
  {
    CompleteIfDone(p.(transfer := transfer, targets := p.targets[id := after]), id)
  }

  /** The transfer state after a range message received between blocks. */
  function TransferAfter(m: Message): Transfer
    requires IsRange(m)
  {
    if m.MsgAnnounce? && !m.isEmpty then Receiving(Handles(m), NoPayload) else Idle
  }

  lemma {:induction false} ReceiveRangeAnswer(lift: Lift, p: Peer, chunks: Entry -> nat, m: Message) returns (after: Target, r: seq<Message>)
    requires IsRange(m) && Ready(p, m) && p.transfer.Idle?
    requires CoverSet(m.covers) <= p.targets[Handles(m)].uncovered
    ensures RangeStep(m, Handles(m), p.targets[Handles(m)], after, r)
    ensures ReceiveRange(lift, p, chunks, m, TransferAfter(m)) == Ok(Reply(AfterRange(p, Handles(m), after, TransferAfter(m)), r))
  {
    hide RangeStep, ReceivedFingerprint, ReceivedAnnounce, CompleteIfDone, TransferAfter;
    var id := Handles(m);
    var t := p.targets[id];
    if m.MsgFingerprint? {
      FingerprintStep(lift, id, t, p.store, chunks, m);
      var s := ReceivedFingerprint(lift, id, t, p.store, chunks, m);
      after, r := s.value.target, s.value.messages;
    } else {
      AnnounceStep(id, t, p.store, chunks, m);
      var s := ReceivedAnnounce(id, t, p.store, chunks, m);
      after, r := s.value.target, s.value.messages;
    }
  }

  /** A range message at the head of the queue never fails, and changes only its target and
      the transfer state. */
  lemma {:induction false} ReceiveRangeSucceeds(c: Setup, v: View, chunks: Entry -> nat) returns (after: Target, r: seq<Message>)
    requires ProtocolInv(c, v)
    requires v.inn != [] && IsRange(v.inn[0]) && Ready(v.me, v.inn[0])
    ensures v.me.transfer.Idle? && Handles(v.inn[0]) in c.mine
    ensures RangeStep(v.inn[0], Handles(v.inn[0]), v.me.targets[Handles(v.inn[0])], after, r)
    ensures TransferStep(v.me.transfer, v.inn[0]) == Ok(TransferAfter(v.inn[0]))
    ensures Receive(c.lift, v.me, chunks, v.inn[0])
            == Ok(Reply(AfterRange(v.me, Handles(v.inn[0]), after, TransferAfter(v.inn[0])), r))
  {
    hide ProtocolInv, RangeStep, ReceiveRange, AfterRange;
    HeadIsExpected(c, v);
    after, r := ReceiveRangeAnswer(c.lift, v.me, chunks, v.inn[0]);
  }

  // ---------- bookkeeping of the receiving peer ----------

  /** `q` is `p` with target `id` in state `after`, dropped if it is finished and nothing of
      it is still arriving. */
  ghost predicate Replaces(p: Peer, q: Peer, id: TargetId, after: Target) {
    && q.role == p.role && q.inbox == p.inbox
    && q.targets.Keys !! q.reconciled.Keys
    && (forall o :: o != id ==> (o in q.targets <==> o in p.targets) && (o in q.reconciled <==> o in p.reconciled))
    && (forall o :: o != id && o in p.targets ==> q.targets[o] == p.targets[o])
    && (forall o :: o != id && o in p.reconciled ==> q.reconciled[o] == p.reconciled[o])
    && (if IsComplete(after) && q.transfer.Idle? then id in q.reconciled && q.reconciled[id] == after
        else id in q.targets && q.targets[id] == after)
  }

  lemma {:induction false} AfterRangeReplaces(p: Peer, id: TargetId, after: Target, transfer: Transfer)
    requires id in p.targets && p.targets.Keys !! p.reconciled.Keys
    ensures var q := AfterRange(p, id, after, transfer);
            Replaces(p, q, id, after) && q.transfer == transfer && q.store == p.store
  {}

  lemma {:induction false} ReplacesInbox(p: Peer, q: Peer, scopes: map<TargetId, Scope>, id: TargetId, after: Target)
    requires InboxOk(p, scopes) && id in p.targets && Replaces(p, q, id, after)
    ensures InboxOk(q, scopes)
  {}

  lemma {:induction false} ReplacesTargets(p: Peer, q: Peer, scopes: map<TargetId, Scope>, id: TargetId, after: Target)
    requires TargetsOk(p, scopes) && id in p.targets && Replaces(p, q, id, after)
    requires after.scope == p.targets[id].scope && CountersOk(after)
    requires after.ourCounter >= p.targets[id].ourCounter
    ensures TargetsOk(q, scopes)
  {
    hide CountersOk, IsComplete;
  }

  lemma {:induction false} PeerAfterRange(p: Peer, scopes: map<TargetId, Scope>, id: TargetId, after: Target, transfer: Transfer)
    requires PeerOk(p, scopes) && id in p.targets
    requires p.transfer.Idle? || p.transfer.target == id
    requires after.scope == p.targets[id].scope && CountersOk(after)
    requires after.ourCounter >= p.targets[id].ourCounter
    requires transfer.Receiving? ==> transfer.target == id
    ensures var q := AfterRange(p, id, after, transfer);
            && PeerOk(q, scopes) && Replaces(p, q, id, after)
            && q.transfer == transfer && q.store == p.store
  {
    var q := AfterRange(p, id, after, transfer);
    AfterRangeReplaces(p, id, after, transfer);
    hide AfterRange;
    ReplacesInbox(p, q, scopes, id, after);
    ReplacesTargets(p, q, scopes, id, after);
    hide InboxOk, TargetsOk, CountersOk;
    assert DoneIsDropped(q);
  }

  lemma {:induction false} StreamsTail(s: Transfer, q: seq<Message>)
    requires Streams(s, q) && q != []
    ensures TransferStep(s, q[0]).Ok? && Streams(TransferStep(s, q[0]).value, q[1..])
  {}

  // ---------- steps that leave most of the session alone ----------

  lemma {:induction false} StepIsForTarget(m: Message, id: TargetId, t: Target, after: Target, r: seq<Message>, o: TargetId)
    requires IsRange(m) && RangeStep(m, id, t, after, r) && o != id
    ensures forall x :: x in r ==> !IsFor(x, Mirror(o))
  {}

  /** The peer `me` after the range message at the head of its queue. */
  ghost predicate AnsweredBy(c: Setup, v: View, after: Target, r: seq<Message>, me: Peer)
    requires v.inn != [] && IsRange(v.inn[0]) && Ready(v.me, v.inn[0])
  {
    var id := Handles(v.inn[0]);
    && id in c.mine && RangeStep(v.inn[0], id, v.me.targets[id], after, r)
    && PeerOk(me, c.mine) && Replaces(v.me, me, id, after)
    && TransferStep(v.me.transfer, v.inn[0]) == Ok(me.transfer)
  }

  lemma {:induction false} TargetAfterRange(c: Setup, v: View, after: Target, r: seq<Message>, me: Peer, o: TargetId)
    requires o in c.mine && Mirror(o) in c.yours && TargetInv(c, v, o)
    requires v.inn != [] && IsRange(v.inn[0]) && Ready(v.me, v.inn[0])
    requires AnsweredBy(c, v, after, r, me)
    requires InboxOk(v.me, c.mine)
    ensures TargetInv(c, View(me, v.you, v.out + r, v.inn[1..]), o)
  {
    var id := Handles(v.inn[0]);
    var t, u := StateOf(v.me, c.mine, o), StateOf(v.you, c.yours, Mirror(o));
    assert Waiting(me, o) <==> Waiting(v.me, o);
    if o == id {
      QuietHead(v.out, v.inn, o);
      hide PairOk, RangeStep;
      RangeStepPair(t, u, v.out, v.inn, id, after, r);
    } else {
      StepIsForTarget(v.inn[0], id, v.me.targets[id], after, r, o);
      hide PairOk, RangeStep;
      OtherMessages(t, u, v.out, v.inn, o, r);
    }
  }

  lemma {:induction false} QuietHead(out: seq<Message>, inn: seq<Message>, id: TargetId)
    requires inn != [] && IsFor(inn[0], id)
    ensures !Quiet(out, inn, id)
  {}

  lemma {:induction false} AnswerStreams(c: Setup, v: View, after: Target, r: seq<Message>)
    requires ScopesOk(c) && RangesOk(c.mine, v.inn) && RangesOk(c.yours, v.out) && Streams(v.you.transfer, v.out)
    requires v.inn != [] && IsRange(v.inn[0]) && Ready(v.me, v.inn[0])
    requires var id := Handles(v.inn[0]); id in c.mine && RangeStep(v.inn[0], id, v.me.targets[id], after, r)
    ensures Streams(v.you.transfer, v.out + r)
    ensures RangesOk(c.yours, v.out + r)
  {
    var m := v.inn[0];
    var id := Handles(m);
    assert m in v.inn;
    assert Streams(Idle, r);
    StreamsConcat(v.you.transfer, v.out, r);
    hide Streams, CountsOk;
    forall x | x in v.out + r && IsRange(x)
      ensures Handles(x) in c.yours && Inside(x.range, c.yours[Handles(x)].range)
    {
      if x in r { assert Handles(x) == Mirror(id); }
    }
  }

  lemma {:induction false} TargetsAfterRange(c: Setup, v: View, after: Target, r: seq<Message>, me: Peer)
    requires ScopesOk(c) && InboxOk(v.me, c.mine)
    requires forall o :: o in c.mine ==> TargetInv(c, v, o)
    requires v.inn != [] && IsRange(v.inn[0]) && Ready(v.me, v.inn[0])
    requires AnsweredBy(c, v, after, r, me)
    ensures forall o :: o in c.mine ==> TargetInv(c, View(me, v.you, v.out + r, v.inn[1..]), o)
  {
    hide AnsweredBy, TargetInv, InboxOk, Ready;
    forall o | o in c.mine ensures TargetInv(c, View(me, v.you, v.out + r, v.inn[1..]), o) {
      TargetAfterRange(c, v, after, r, me, o);
    }
  }

  lemma {:induction false} DeliverRangeKeeps(c: Setup, v: View, after: Target, r: seq<Message>, me: Peer)
    requires ProtocolInv(c, v)
    requires v.inn != [] && IsRange(v.inn[0]) && Ready(v.me, v.inn[0])
    requires AnsweredBy(c, v, after, r, me)
    ensures ProtocolInv(c, View(me, v.you, v.out + r, v.inn[1..]))
  {
    hide RangeStep, PeerOk, Streams, RangesOk, TargetInv, TransferStep, Replaces, StateOf, ScopesOk;
    PeerInbox(v.me, c.mine);
    StreamsTail(v.me.transfer, v.inn);
    AnswerStreams(c, v, after, r);
    RangesTail(c.mine, v.inn);
    TargetsAfterRange(c, v, after, r, me);
    ReplacesRole(v.me, me, Handles(v.inn[0]), after);
  }

  lemma {:induction false} ReplacesRole(p: Peer, q: Peer, id: TargetId, after: Target)
    requires Replaces(p, q, id, after)
    ensures p.role == q.role
  {}

  lemma {:induction false} RangesTail(scopes: map<TargetId, Scope>, q: seq<Message>)
    requires RangesOk(scopes, q) && q != []
    ensures RangesOk(scopes, q[1..])
  {}

  lemma {:induction false} PeerInbox(p: Peer, scopes: map<TargetId, Scope>)
    requires PeerOk(p, scopes)
    ensures InboxOk(p, scopes)
  {}

  /** Delivering an entry, a payload piece or the end of a payload. */
  lemma {:induction false} DeliverEntryKeeps(c: Setup, v: View, me: Peer)
    requires ProtocolInv(c, v)
    requires v.inn != [] && !IsRange(v.inn[0])
    requires PeerOk(me, c.mine) && me.role == v.me.role && me.inbox == v.me.inbox
    requires forall o :: o in c.mine ==> StateOf(me, c.mine, o) == StateOf(v.me, c.mine, o)
    requires TransferStep(v.me.transfer, v.inn[0]) == Ok(me.transfer)
    ensures ProtocolInv(c, View(me, v.you, v.out, v.inn[1..]))
  {
    hide PairOk, PeerOk, Streams, RangesOk, TransferStep, StateOf, Quiet;
    var w := View(me, v.you, v.out, v.inn[1..]);
    StreamsTail(v.me.transfer, v.inn);
    RangesTail(c.mine, v.inn);
    assert v.out + [] == v.out;
    forall o | o in c.mine ensures TargetInv(c, w, o) {
      assert TargetInv(c, v, o);
      assert Waiting(me, o) <==> Waiting(v.me, o);
      OtherMessages(StateOf(v.me, c.mine, o), StateOf(v.you, c.yours, Mirror(o)), v.out, v.inn, o, []);
    }
  }

  // ---------- opening a target ----------

  lemma {:induction false} StartTables(lift: Lift, p: Peer, scopes: map<TargetId, Scope>)
    requires PeerOk(p, scopes) && p.inbox != []
    ensures var q := Start(lift, p).peer;
            var id := p.inbox[0].id;
            && id in scopes && p.inbox[0].scope == scopes[id]
            && StateOf(p, scopes, id) == NewTarget(scopes[id])
            && StateOf(q, scopes, id) == Bumped(NewTarget(scopes[id]), if p.role.Alfie? then 1 else 0)
            && (forall o :: o in scopes && o != id ==> StateOf(q, scopes, o) == StateOf(p, scopes, o))
            && (forall o :: o != id ==> (Waiting(q, o) <==> Waiting(p, o)))
            && !Waiting(q, id) && Waiting(p, id)
            && q.transfer == p.transfer && q.role == p.role && q.store == p.store
  {
    var q := Start(lift, p).peer;
    var id := p.inbox[0].id;
    BumpedOnce(NewTarget(scopes[id]));
    BumpedZero(NewTarget(scopes[id]));
    hide Bumped, IsComplete, CountersOk;
    forall o | o != id && Waiting(p, o) ensures Waiting(q, o) {
      var i :| 0 <= i < |p.inbox| && p.inbox[i].id == o;
      assert q.inbox[i - 1] == p.inbox[i];
    }
  }

  function Opened(p: Peer, t: Target): Peer
    requires p.inbox != []
  {
    p.(inbox := p.inbox[1..], targets := p.targets[p.inbox[0].id := t])
  }

  lemma {:induction false} OpenedInbox(p: Peer, scopes: map<TargetId, Scope>, t: Target)
    requires InboxOk(p, scopes) && p.inbox != []
    ensures InboxOk(Opened(p, t), scopes)
  {
    var q := Opened(p, t);
    assert forall i :: 0 <= i < |q.inbox| ==> q.inbox[i] == p.inbox[i + 1];
    forall o | o in scopes ensures Waiting(q, o) || o in q.targets || o in q.reconciled {
      if o != p.inbox[0].id && Waiting(p, o) {
        var i :| 0 <= i < |p.inbox| && p.inbox[i].id == o;
        assert q.inbox[i - 1] == p.inbox[i];
      }
    }
  }

  lemma {:induction false} OpenedTargets(p: Peer, scopes: map<TargetId, Scope>, t: Target)
    requires PeerOk(p, scopes) && p.inbox != []
    requires t.scope == p.inbox[0].scope && CountersOk(t) && (p.role.Alfie? ==> t.ourCounter > 0) && !t.started
    ensures TargetsOk(Opened(p, t), scopes) && DoneIsDropped(Opened(p, t))
  {}

  lemma {:induction false} StartPeerOk(lift: Lift, p: Peer, scopes: map<TargetId, Scope>)
    requires PeerOk(p, scopes) && p.inbox != []
    ensures PeerOk(Start(lift, p).peer, scopes)
  {
    var t := NewTarget(p.inbox[0].scope);
    var t1 := if p.role.Alfie? then MarkNextRangePending(t) else t;
    assert Start(lift, p).peer == Opened(p, t1);
    assert CountersOk(t1);
    hide Start, Opened, CountersOk, InboxOk, TargetsOk, DoneIsDropped;
    PeerInbox(p, scopes);
    OpenedInbox(p, scopes, t1);
    OpenedTargets(p, scopes, t1);
  }

  lemma {:induction false} OpenPair(u: Target, out: seq<Message>, inn: seq<Message>, id: TargetId, scope: Scope, m: Message)
    requires PairOk(NewTarget(scope), u, out, inn, id)
    requires u == NewTarget(u.scope) && Quiet(out, inn, id)
    requires m.MsgFingerprint? && m.covers.None? && IsFor(m, Mirror(id))
    ensures PairOk(Bumped(NewTarget(scope), 1), u, out + [m], inn, id)
  {
    QueueConcat(out, [m], Mirror(id), 0);
    NoneForEndsCovered(out, Mirror(id));
    NoneForEndsCovered(inn, id);
    assert [m][0] == m && [m][1..] == [];
    assert CountFor([m], Mirror(id)) == 1;
    assert NumberedFor([m], Mirror(id)) == 1 && CoverCount([m], Mirror(id)) == 0;
    assert CoversInOrder([m], Mirror(id), 0);
    assert Interval(0, 0) == {};
    assert Mirror(Mirror(id)) == id;
  }

  lemma {:induction false} AppendOther(t: Target, u: Target, out: seq<Message>, inn: seq<Message>, id: TargetId, r: seq<Message>)
    requires forall m :: m in r ==> !IsFor(m, Mirror(id))
    requires PairOk(t, u, out, inn, id)
    ensures PairOk(t, u, out + r, inn, id)
    ensures Quiet(out, inn, id) ==> Quiet(out + r, inn, id)
  {
    NoneForCount(r, Mirror(id));
    NoneForEndsCovered(r, Mirror(id));
    QueueConcat(out, r, Mirror(id), t.theirCounter - CoverCount(out, Mirror(id)));
    assert Mirror(Mirror(id)) == id;
  }

  function OpeningMessage(lift: Lift, p: Peer): Message
    requires p.inbox != []
  {
    var id, scope := p.inbox[0].id, p.inbox[0].scope;
    MsgFingerprint(scope.range, FingerprintOf(lift, Query(p.store, scope.namespace, scope.range)), id.ours, id.theirs, None)
  }

  lemma {:induction false} StartMessages(lift: Lift, p: Peer)
    requires p.inbox != []
    ensures Start(lift, p).messages == if p.role.Alfie? then [OpeningMessage(lift, p)] else []
    ensures IsFor(OpeningMessage(lift, p), Mirror(p.inbox[0].id))
  {}

  lemma {:induction false} StartTarget(c: Setup, v: View, o: TargetId)
    requires PeerOk(v.me, c.mine) && v.me.inbox != [] && v.me.role != v.you.role
    requires o in c.mine && Mirror(o) in c.yours && TargetInv(c, v, o)
    ensures var s := Start(c.lift, v.me);
            TargetInv(c, View(s.peer, v.you, v.out + s.messages, v.inn), o)
  {
    StartTables(c.lift, v.me, c.mine);
    StartMessages(c.lift, v.me);
    var s := Start(c.lift, v.me);
    var id := v.me.inbox[0].id;
    var me, you := StateOf(v.me, c.mine, o), StateOf(v.you, c.yours, Mirror(o));
    hide PairOk, Start, StateOf, Bumped, PeerOk, OpeningMessage, Waiting;
    BumpedZero(NewTarget(c.mine[id]));
    assert v.out + [] == v.out;
    if v.me.role.Alfie? {
      var m := OpeningMessage(c.lift, v.me);
      OpeningIsBare(c.lift, v.me);
      if o == id {
        OpenPair(you, v.out, v.inn, id, c.mine[id], m);
      } else {
        assert Mirror(Mirror(o)) == o && Mirror(Mirror(id)) == id;
        AppendOther(me, you, v.out, v.inn, o, [m]);
      }
    }
  }

  lemma {:induction false} OpeningIsBare(lift: Lift, p: Peer)
    requires p.inbox != []
    ensures OpeningMessage(lift, p).MsgFingerprint? && OpeningMessage(lift, p).covers.None?
    ensures OpeningMessage(lift, p).range == p.inbox[0].scope.range
  {}

  lemma {:induction false} AppendFingerprint(s: Transfer, q: seq<Message>, m: Message)
    requires Streams(s, q) && m.MsgFingerprint?
    ensures Streams(s, q + [m])
  {
    assert [m][0] == m && [m][1..] == [];
    assert Streams(Idle, []) && Streams(Idle, [m]);
    StreamsConcat(s, q, [m]);
  }

  lemma {:induction false} AppendRange(scopes: map<TargetId, Scope>, q: seq<Message>, m: Message)
    requires RangesOk(scopes, q)
    requires IsRange(m) && Handles(m) in scopes && m.range == scopes[Handles(m)].range
    ensures RangesOk(scopes, q + [m])
  {}

  lemma {:induction false} FirstInScope(p: Peer, scopes: map<TargetId, Scope>)
    requires PeerOk(p, scopes) && p.inbox != []
    ensures p.inbox[0].id in scopes && p.inbox[0].scope == scopes[p.inbox[0].id]
  {}

  lemma {:induction false} StartQueues(c: Setup, v: View)
    requires ScopesOk(c) && PeerOk(v.me, c.mine) && v.me.inbox != []
    requires Streams(v.you.transfer, v.out) && RangesOk(c.yours, v.out)
    ensures var r := Start(c.lift, v.me).messages;
            Streams(v.you.transfer, v.out + r) && RangesOk(c.yours, v.out + r)
  {
    hide Start, PeerOk, Streams, RangesOk, OpeningMessage;
    StartMessages(c.lift, v.me);
    FirstInScope(v.me, c.mine);
    assert v.out + [] == v.out;
    if v.me.role.Alfie? {
      var m := OpeningMessage(c.lift, v.me);
      OpeningIsBare(c.lift, v.me);
      AppendFingerprint(v.you.transfer, v.out, m);
      AppendRange(c.yours, v.out, m);
    }
  }

  // ---------- every step ----------

  lemma {:induction false} DeliverKeeps(c: Setup, v: View, chunks: Entry -> nat)
    requires ProtocolInv(c, v)
    requires Enabled(v, Deliver(chunks))
    ensures Apply(c.lift, v, Deliver(chunks)).Some?
    ensures ProtocolInv(c, Apply(c.lift, v, Deliver(chunks)).value)
  {
    hide ProtocolInv, RangeStep, TransferStep, AnsweredBy, AfterRange, Receive, PeerOk, StateOf, IngestAt, TransferAfter;
    var m := v.inn[0];
    if IsRange(m) {
      var after, r := ReceiveRangeSucceeds(c, v, chunks);
      RangeStepPeer(c, v, after, r);
      DeliverRangeKeeps(c, v, after, r, AfterRange(v.me, Handles(m), after, TransferAfter(m)));
    } else {
      var me := ReceiveEntrySucceeds(c, v, chunks);
      assert v.out + [] == v.out;
      DeliverEntryKeeps(c, v, me);
    }
  }

  lemma {:induction false} RangeStepPeer(c: Setup, v: View, after: Target, r: seq<Message>)
    requires ProtocolInv(c, v)
    requires v.inn != [] && IsRange(v.inn[0]) && Ready(v.me, v.inn[0])
    requires v.me.transfer.Idle? && Handles(v.inn[0]) in c.mine
    requires RangeStep(v.inn[0], Handles(v.inn[0]), v.me.targets[Handles(v.inn[0])], after, r)
    requires TransferStep(v.me.transfer, v.inn[0]) == Ok(TransferAfter(v.inn[0]))
    ensures AnsweredBy(c, v, after, r, AfterRange(v.me, Handles(v.inn[0]), after, TransferAfter(v.inn[0])))
  {
    PeerAfterRange(v.me, c.mine, Handles(v.inn[0]), after, TransferAfter(v.inn[0]));
  }

  /** The peer after an entry, a payload piece or the end of a payload. */
  function AfterEntry(p: Peer, m: Message, transfer: Transfer): Peer
    requires m.MsgTerminate? && m.isFinal ==> p.transfer.Receiving? && p.transfer.target in p.targets
  {
    if m.MsgEntry? then p.(transfer := transfer, store := IngestAt(p.store, m.entry))
    else if m.MsgTerminate? && m.isFinal then AfterRange(p, p.transfer.target, p.targets[p.transfer.target], transfer)
    else p.(transfer := transfer)
  }

  lemma {:induction false} AfterEntryKeeps(p: Peer, scopes: map<TargetId, Scope>, m: Message, transfer: Transfer)
    requires PeerOk(p, scopes) && !IsRange(m) && TransferStep(p.transfer, m) == Ok(transfer)
    ensures p.transfer.Receiving? && p.transfer.target in p.targets
    ensures var me := AfterEntry(p, m, transfer);
            && PeerOk(me, scopes) && me.role == p.role && me.inbox == p.inbox && me.transfer == transfer
            && (forall o :: o in scopes ==> StateOf(me, scopes, o) == StateOf(p, scopes, o))
            && me.store == if m.MsgEntry? then IngestAt(p.store, m.entry) else p.store
  {
    hide IngestAt;
    assert p.transfer.Receiving?;
    var id := p.transfer.target;
    assert id in p.targets;
    if m.MsgTerminate? && m.isFinal {
      PeerAfterRange(p, scopes, id, p.targets[id], transfer);
      hide PeerOk, AfterRange;
    } else {
      SameTables(p, AfterEntry(p, m, transfer), scopes);
    }
  }

  lemma {:induction false} SameTables(p: Peer, q: Peer, scopes: map<TargetId, Scope>)
    requires PeerOk(p, scopes)
    requires q.role == p.role && q.inbox == p.inbox && q.targets == p.targets && q.reconciled == p.reconciled
    requires q.transfer.Receiving? && p.transfer.Receiving? && q.transfer.target == p.transfer.target
    ensures PeerOk(q, scopes)
  {}

  lemma {:induction false} ReceiveEntryIs(lift: Lift, p: Peer, chunks: Entry -> nat, m: Message, transfer: Transfer)
    requires !IsRange(m) && TransferStep(p.transfer, m) == Ok(transfer)
    requires p.transfer.Receiving? && p.transfer.target in p.targets
    ensures Receive(lift, p, chunks, m) == Ok(Reply(AfterEntry(p, m, transfer), []))
  {
    hide CompleteIfDone, IngestAt;
    var id := p.transfer.target;
    assert p.targets == p.targets[id := p.targets[id]];
  }

  /** A message of a block at the head of the queue never fails. */
  lemma {:induction false} ReceiveEntrySucceeds(c: Setup, v: View, chunks: Entry -> nat) returns (me: Peer)
    requires ProtocolInv(c, v)
    requires v.inn != [] && !IsRange(v.inn[0])
    ensures Receive(c.lift, v.me, chunks, v.inn[0]) == Ok(Reply(me, []))
    ensures PeerOk(me, c.mine) && me.role == v.me.role && me.inbox == v.me.inbox
    ensures forall o :: o in c.mine ==> StateOf(me, c.mine, o) == StateOf(v.me, c.mine, o)
    ensures TransferStep(v.me.transfer, v.inn[0]) == Ok(me.transfer)
    ensures me.store == if v.inn[0].MsgEntry? then IngestAt(v.me.store, v.inn[0].entry) else v.me.store
  {
    hide Streams, TargetInv, TransferStep, PeerOk, StateOf, AfterEntry, Receive, IngestAt;
    StreamsTail(v.me.transfer, v.inn);
    var m := v.inn[0];
    var transfer := TransferStep(v.me.transfer, m).value;
    AfterEntryKeeps(v.me, c.mine, m, transfer);
    ReceiveEntryIs(c.lift, v.me, chunks, m, transfer);
    me := AfterEntry(v.me, m, transfer);
  }

  /** No enabled step of an honest run fails, and every step keeps the invariant. */
  lemma {:induction false} StepKeepsProtocol(c: Setup, v: View, s: Step)
    requires ProtocolInv(c, v)
    requires Enabled(v, s)
    ensures Apply(c.lift, v, s).Some?
    ensures ProtocolInv(c, Apply(c.lift, v, s).value)
  {
    match s {
      case Deliver(chunks) => DeliverKeeps(c, v, chunks);
      case StartNext => StartKeeps(c, v);
    }
  }

  lemma {:induction false} StartKeeps(c: Setup, v: View)
    requires ProtocolInv(c, v)
    requires v.me.inbox != []
    ensures ProtocolInv(c, Apply(c.lift, v, StartNext).value)
  {
    hide Start, StateOf, TargetInv, PeerOk, Streams, RangesOk, Waiting;
    var s := Start(c.lift, v.me);
    StartTables(c.lift, v.me, c.mine);
    StartPeerOk(c.lift, v.me, c.mine);
    StartQueues(c, v);
    forall o | o in c.mine ensures TargetInv(c, View(s.peer, v.you, v.out + s.messages, v.inn), o) {
      StartTarget(c, v, o);
    }
  }
}
