/** An area in which one peer holds nothing is never split: the only fingerprint that ever travels for
    it is the opening one, and its answer moves the entries. */
module EmptyAreas {
  import opened Orders
  import opened Entries
  import opened Ranges
  import opened MemoryStore
  import opened Fingerprints
  import opened Splitting
  import opened Replicas
  import opened Wire
  import opened Queues
  import opened Reconciler
  import opened Answers
  import opened AnswerContents
  import opened Session
  import opened Protocol
  import opened Knowledge
  import opened Learning
  import opened Runs
  import opened Convergence

  /** No entry of the area lies in another shared area as well. */
  ghost predicate Alone(c: Setup, id: TargetId)
    requires id in c.mine
  {
    forall o, e :: o in c.mine && o != id && e in c.mine0 + c.yours0 && InScope(c.mine[id], e) ==> !InScope(c.mine[o], e)
  }

  /** The peer that holds nothing has yet to deal with the area: it, or the other, has yet to open it,
      or the opening is on its way. */
  ghost predicate Untaken(empty: Peer, other: Peer, toEmpty: seq<Message>, id: TargetId) {
    || (other.role.Alfie? && Waiting(other, Mirror(id)))
    || (empty.role.Alfie? && Waiting(empty, id))
    || (exists m :: m in toEmpty && m.MsgFingerprint? && IsFor(m, id))
  }

  predicate Opens(m: Message, scope: Scope)
    requires m.MsgFingerprint?
  {
    m.covers.None? && m.range == scope.range
  }

  ghost predicate OnlyOpenings(q: seq<Message>, id: TargetId, scope: Scope) {
    forall m :: m in q && m.MsgFingerprint? && IsFor(m, id) ==> Opens(m, scope)
  }

  ghost predicate OnlyEmptyOnes(q: seq<Message>, id: TargetId) {
    forall m :: m in q && m.MsgFingerprint? && IsFor(m, id) ==> m.fingerprint == Neutral()
  }

  /** Nothing of the area is held, on its way, or asked for. */
  ghost predicate StillEmpty(empty: Peer, toEmpty: seq<Message>, fromEmpty: seq<Message>, id: TargetId, scope: Scope)
    requires Streams(empty.transfer, toEmpty)
  {
    && Query(empty.store, scope.namespace, scope.range) == []
    && Owned(empty.transfer, toEmpty, id) == {}
    && CountFor(fromEmpty, Mirror(id)) == 0 && CountFor(toEmpty, id) <= 1
  }

  /** Entries on their way belong to the areas they are announced for. */
  ghost predicate OwnedOk(scopes: map<TargetId, Scope>, s: Transfer, q: seq<Message>)
    requires Streams(s, q)
  {
    forall o, e :: o in scopes && e in Owned(s, q, o) ==> InScope(scopes[o], e)
  }

  /** From the side of the peer that holds nothing. */
  ghost predicate Unsplit(c: Setup, v: View, id: TargetId) {
    && id in c.mine && Streams(v.me.transfer, v.inn)
    && OwnedOk(c.mine, v.me.transfer, v.inn)
    && OnlyOpenings(v.inn, id, c.mine[id])
    && OnlyOpenings(v.out, Mirror(id), c.mine[id]) && OnlyEmptyOnes(v.out, Mirror(id))
    && (Untaken(v.me, v.you, v.inn, id) ==> StillEmpty(v.me, v.inn, v.out, id, c.mine[id]))
  }

  // ---------- answers without fingerprints ----------

  ghost predicate NoFingerprint(q: seq<Message>) { forall m :: m in q ==> !m.MsgFingerprint? }

  lemma {:induction false} AnnouncesNoFingerprint(q: seq<Message>, id: TargetId, r: Range3d, want: bool, covers: Option<nat>, s: seq<Entry>)
    requires Announces(q, id, r, want, covers, s)
    ensures NoFingerprint(q)
  {
    hide RangeMessages, EntriesIn, Streams, Owned;
    forall m | m in q ensures !m.MsgFingerprint? {
      if IsRange(m) { RangeMember(q, m); }
    }
  }

  /** An empty fingerprint, and one over a range in which nothing is held, is answered without another. */
  lemma {:induction false} NoFurtherFingerprint(lift: Lift, id: TargetId, t: Target, store: Replica, chunks: Entry -> nat, m: Message)
    requires IsRange(m) && CoverSet(m.covers) <= t.uncovered
    requires m.MsgFingerprint? ==> m.fingerprint == Neutral() || Query(store, t.scope.namespace, m.range) == []
    ensures m.MsgFingerprint? ==> ReceivedFingerprint(lift, id, t, store, chunks, m).Ok?
                                  && NoFingerprint(ReceivedFingerprint(lift, id, t, store, chunks, m).value.messages)
    ensures m.MsgAnnounce? ==> ReceivedAnnounce(id, t, store, chunks, m).Ok?
                               && NoFingerprint(ReceivedAnnounce(id, t, store, chunks, m).value.messages)
  {
    hide AnswerFingerprint, AnswerAnnounce, NoFingerprint, Announces, Query, FingerprintOf, Neutral;
    var t1 := MarkRangeCovered(t.(started := true), m.covers).value;
    if m.MsgFingerprint? {
      var q := AnswerFingerprint(lift, id, t1, store, chunks, m.range, m.fingerprint).messages;
      FingerprintAnswerContents(lift, id, t1, store, chunks, m.range, m.fingerprint);
      var held := Query(store, t.scope.namespace, m.range);
      var c := Some(t1.theirCounter);
      if FingerprintOf(lift, held) == m.fingerprint {
        AnnouncesNoFingerprint(q, id, m.range, false, c, []);
      } else {
        AnnouncesNoFingerprint(q, id, m.range, true, c, held);
      }
    } else {
      var q := AnswerAnnounce(id, t1, store, chunks, m).messages;
      AnnounceAnswerContents(id, t1, store, chunks, m);
      if m.wantResponse {
        AnnouncesNoFingerprint(q, id, m.range, false, Some(t1.theirCounter), Query(store, t.scope.namespace, m.range));
      } else {
        assert NoFingerprint([]) by { NothingSent(); }
      }
    }
  }

  lemma {:induction false} NothingSent()
    ensures NoFingerprint([])
  {}

  /** The range message at the head of my queue, and what I answer. */
  lemma {:induction false} HeadAnswer(c: Setup, v: View, chunks: Entry -> nat) returns (me: Peer, r: seq<Message>)
    requires ProtocolInv(c, v) && v.inn != [] && IsRange(v.inn[0]) && Ready(v.me, v.inn[0])
    ensures Handles(v.inn[0]) in c.mine && Handles(v.inn[0]) in v.me.targets
    ensures Receive(c.lift, v.me, chunks, v.inn[0]) == Ok(Reply(me, r))
    ensures me.store == v.me.store && me.inbox == v.me.inbox && me.role == v.me.role
    ensures TransferStep(v.me.transfer, v.inn[0]) == Ok(me.transfer)
    ensures Streams(Idle, r) && forall m :: m in r && IsRange(m) ==> Handles(m) == Mirror(Handles(v.inn[0]))
    ensures v.me.transfer.Idle?
  {
    hide ProtocolInv, Receive, RangeStep, AfterRange, TransferAfter, TransferStep, Replaces, PeerOk;
    var after;
    after, r := ReceiveRangeSucceeds(c, v, chunks);
    me := AfterRange(v.me, Handles(v.inn[0]), after, TransferAfter(v.inn[0]));
    StepStreams(v.inn[0], Handles(v.inn[0]), v.me.targets[Handles(v.inn[0])], after, r);
    AfterRangeKept(v.me, Handles(v.inn[0]), after, TransferAfter(v.inn[0]));
  }

  lemma {:induction false} StepStreams(m: Message, id: TargetId, t: Target, after: Target, r: seq<Message>)
    requires IsRange(m) && RangeStep(m, id, t, after, r)
    ensures Streams(Idle, r) && forall x :: x in r && IsRange(x) ==> Handles(x) == Mirror(id)
  {
    hide CountFor, CoverCount, CoversInOrder, EndsCovered, NumberedFor, RangesWithin, Interval;
  }

  lemma {:induction false} HeadNoFingerprint(c: Setup, v: View, chunks: Entry -> nat, r: seq<Message>)
    requires ProtocolInv(c, v) && v.inn != [] && IsRange(v.inn[0]) && Ready(v.me, v.inn[0])
    requires Receive(c.lift, v.me, chunks, v.inn[0]).Ok? && Receive(c.lift, v.me, chunks, v.inn[0]).value.messages == r
    requires Handles(v.inn[0]) in c.mine
    requires v.inn[0].MsgFingerprint? ==>
               v.inn[0].fingerprint == Neutral() || Query(v.me.store, c.mine[Handles(v.inn[0])].namespace, v.inn[0].range) == []
    ensures NoFingerprint(r)
  {
    HeadIsExpected(c, v);
    TargetScope(c, v, Handles(v.inn[0]));
    hide ProtocolInv, NoFingerprint, ReceivedFingerprint, ReceivedAnnounce, Query, Neutral;
    var id := Handles(v.inn[0]);
    NoFurtherFingerprint(c.lift, id, v.me.targets[id], v.me.store, chunks, v.inn[0]);
  }

  // ---------- queues ----------

  lemma {:induction false} OwnedTail(s: Transfer, q: seq<Message>, id: TargetId)
    requires Streams(s, q) && q != []
    ensures TransferStep(s, q[0]).Ok? && Streams(TransferStep(s, q[0]).value, q[1..])
    ensures Owned(TransferStep(s, q[0]).value, q[1..], id) <= Owned(s, q, id)
    ensures q[0].MsgEntry? && s.Receiving? && s.target == id ==> q[0].entry in Owned(s, q, id)
  {}

  lemma {:induction false} OwnedMember(s: Transfer, q: seq<Message>, id: TargetId, e: Entry)
    requires Streams(s, q) && e in Owned(s, q, id)
    ensures exists m :: m in q && m.MsgEntry? && m.entry == e
    decreases |q|
  {
    if !(q[0].MsgEntry? && q[0].entry == e) {
      OwnedMember(TransferStep(s, q[0]).value, q[1..], id, e);
      var m :| m in q[1..] && m.MsgEntry? && m.entry == e;
      assert m in q;
    }
  }

  lemma {:induction false} NotForOthers(r: seq<Message>, id: TargetId, o: TargetId)
    requires Streams(Idle, r) && o != id && forall m :: m in r && IsRange(m) ==> Handles(m) == id
    ensures CountFor(r, o) == 0 && Owned(Idle, r, o) == {}
  {
    hide Streams, Owned, CountFor;
    NoneForCount(r, o);
    SilentIsUntouched(Idle, r, o);
  }

  lemma {:induction false} CountConcat(a: seq<Message>, b: seq<Message>, id: TargetId)
    ensures CountFor(a + b, id) == CountFor(a, id) + CountFor(b, id)
  {
    hide CountFor, NumberedFor, CoverCount, CoversInOrder, EndsCovered;
    QueueConcat(a, b, id, 0);
  }

  /** Appending an answer for another target. */
  lemma {:induction false} AppendAnswer(s: Transfer, q: seq<Message>, r: seq<Message>, id: TargetId, o: TargetId)
    requires Streams(s, q) && Streams(Idle, r) && o != id && forall m :: m in r && IsRange(m) ==> Handles(m) == id
    ensures Streams(s, q + r) && Owned(s, q + r, o) == Owned(s, q, o) && CountFor(q + r, o) == CountFor(q, o)
  {
    hide Streams, Owned, CountFor;
    NotForOthers(r, id, o);
    OwnedConcat(s, q, r, o);
    CountConcat(q, r, o);
  }

  lemma {:induction false} WaitingIsQuiet(c: Setup, v: View, id: TargetId)
    requires ProtocolInv(c, v) && id in c.mine && OpeningPending(v, id)
    ensures CountFor(v.inn, id) == 0 && CountFor(v.out, Mirror(id)) == 0
  {
    hide PairOk, Streams, RangesOk, PeerOk, CountFor, Waiting;
    assert TargetInv(c, v, id);
  }

  lemma {:induction false} HeadCounts(q: seq<Message>, id: TargetId)
    requires q != []
    ensures CountFor(q, id) == (if IsFor(q[0], id) then 1 else 0) + CountFor(q[1..], id)
  {}

  lemma {:induction false} WaitingNotTarget(c: Setup, v: View, id: TargetId)
    requires ProtocolInv(c, v) && Waiting(v.me, id)
    ensures id !in v.me.targets
  {
    assert InboxOk(v.me, c.mine);
    hide ProtocolInv;
  }

  // ---------- the peer that holds nothing acts ----------

  /** While the area is untaken, a range message for it at the head of the queue is its opening, and
      with it the area is taken. */
  lemma {:induction false} Taken(c: Setup, v: View, id: TargetId, me: Peer)
    requires ProtocolInv(c, v) && Unsplit(c, v, id)
    requires v.inn != [] && IsFor(v.inn[0], id) && Ready(v.me, v.inn[0])
    requires me.inbox == v.me.inbox && me.role == v.me.role
    ensures !Untaken(me, v.you, v.inn[1..], id)
  {
    hide ProtocolInv, Streams, Owned, OnlyOpenings, OnlyEmptyOnes, OwnedOk, Query, CountFor;
    HeadCounts(v.inn, id);
    if OpeningPending(v, id) { WaitingIsQuiet(c, v, id); }
    if exists m :: m in v.inn[1..] && m.MsgFingerprint? && IsFor(m, id) {
      var m :| m in v.inn[1..] && m.MsgFingerprint? && IsFor(m, id);
      assert m in v.inn;
      CountMember(v.inn[1..], id, m);
    }
    assert Waiting(me, id) <==> Waiting(v.me, id);
  }

  lemma {:induction false} TailOwnedOk(scopes: map<TargetId, Scope>, s: Transfer, q: seq<Message>)
    requires Streams(s, q) && q != [] && OwnedOk(scopes, s, q)
    ensures TransferStep(s, q[0]).Ok? && Streams(TransferStep(s, q[0]).value, q[1..])
    ensures OwnedOk(scopes, TransferStep(s, q[0]).value, q[1..])
  {
    StreamsTail(s, q);
    hide Streams, Owned, TransferStep, InScope;
    forall o, e | o in scopes && e in Owned(TransferStep(s, q[0]).value, q[1..], o) ensures InScope(scopes[o], e) {
      OwnedTail(s, q, o);
    }
  }

  lemma {:induction false} EmptyRangeStep(c: Setup, v: View, id: TargetId, chunks: Entry -> nat)
    requires ProtocolInv(c, v) && Unsplit(c, v, id)
    requires v.inn != [] && IsRange(v.inn[0]) && Ready(v.me, v.inn[0])
    requires Apply(c.lift, v, Deliver(chunks)).Some?
    ensures Unsplit(c, Apply(c.lift, v, Deliver(chunks)).value, id)
  {
    hide ProtocolInv, Receive, Streams, Owned, OwnedOk, TransferStep, Query, CountFor, NoFingerprint, Neutral, OnlyOpenings, OnlyEmptyOnes,
         StillEmpty, Untaken;
    var me, r := HeadAnswer(c, v, chunks);
    var o := Handles(v.inn[0]);
    TailOwnedOk(c.mine, v.me.transfer, v.inn);
    OpeningsTail(v.inn, id, c.mine[id]);
    if o == id {
      Taken(c, v, id, me);
      EmptyHead(c, v, id);
      HeadNoFingerprint(c, v, chunks, r);
      AppendNone(v.out, r, Mirror(id), c.mine[id]);
    } else {
      assert Mirror(o) != Mirror(id);
      AppendOthers(v.out, r, Mirror(o), Mirror(id), c.mine[id]);
      EmptyElsewhere(v.me, me, v.you, v.out, r, v.inn, id, c.mine[id]);
    }
  }

  lemma {:induction false} OpeningsTail(q: seq<Message>, id: TargetId, scope: Scope)
    requires OnlyOpenings(q, id, scope) && q != []
    ensures OnlyOpenings(q[1..], id, scope)
  {}

  lemma {:induction false} AppendNone(q: seq<Message>, r: seq<Message>, id: TargetId, scope: Scope)
    requires NoFingerprint(r)
    ensures OnlyOpenings(q, id, scope) ==> OnlyOpenings(q + r, id, scope)
    ensures OnlyEmptyOnes(q, id) ==> OnlyEmptyOnes(q + r, id)
  {}

  lemma {:induction false} AppendOthers(q: seq<Message>, r: seq<Message>, o: TargetId, id: TargetId, scope: Scope)
    requires o != id && forall m :: m in r && IsRange(m) ==> Handles(m) == o
    ensures OnlyOpenings(q, id, scope) ==> OnlyOpenings(q + r, id, scope)
    ensures OnlyEmptyOnes(q, id) ==> OnlyEmptyOnes(q + r, id)
  {}

  /** The opening, if it is that, is over the whole area, of which nothing is held. */
  lemma {:induction false} EmptyHead(c: Setup, v: View, id: TargetId)
    requires Unsplit(c, v, id) && v.inn != [] && IsFor(v.inn[0], id)
    ensures v.inn[0].MsgFingerprint? ==> Query(v.me.store, c.mine[id].namespace, v.inn[0].range) == []
  {
    hide Streams, Owned, OwnedOk, Query, CountFor, OnlyEmptyOnes;
    assert v.inn[0] in v.inn;
  }

  /** A range message of another target leaves the area as it is. */
  lemma {:induction false} EmptyElsewhere(p: Peer, me: Peer, you: Peer, out: seq<Message>, r: seq<Message>, inn: seq<Message>,
                                          id: TargetId, scope: Scope)
    requires Streams(p.transfer, inn) && inn != [] && TransferStep(p.transfer, inn[0]) == Ok(me.transfer)
    requires Streams(me.transfer, inn[1..]) && Streams(Idle, r)
    requires me.store == p.store && me.inbox == p.inbox && me.role == p.role
    requires IsRange(inn[0]) && Handles(inn[0]) != id
    requires forall m :: m in r && IsRange(m) ==> Handles(m) == Mirror(Handles(inn[0]))
    requires Untaken(p, you, inn, id) ==> StillEmpty(p, inn, out, id, scope)
    ensures Untaken(me, you, inn[1..], id) ==> StillEmpty(me, inn[1..], out + r, id, scope)
  {
    hide Streams, Owned, TransferStep, Query, CountFor;
    HeadCounts(inn, id);
    OwnedTail(p.transfer, inn, id);
    assert Mirror(Handles(inn[0])) != Mirror(id);
    assert Waiting(me, id) <==> Waiting(p, id);
    NotForOthers(r, Mirror(Handles(inn[0])), Mirror(id));
    CountConcat(out, r, Mirror(id));
  }

  lemma {:induction false} IngestElsewhere(store: Replica, e: Entry, scope: Scope)
    requires Sound(store) && !InScope(scope, e)
    requires Query(store, scope.namespace, scope.range) == []
    ensures Query(IngestAt(store, e), scope.namespace, scope.range) == []
  {
    var after := IngestAt(store, e);
    IngestAtIsJoin(store, e);
    IngestAtSound(store, e);
    QueryExact(store, scope.namespace, scope.range);
    QueryExact(after, scope.namespace, scope.range);
    hide Sound, Query, IngestAt, All, Dominates, Knows;
    var q := Query(after, scope.namespace, scope.range);
    if q != [] { SomeEntry(q); }
  }

  lemma {:induction false} SomeEntry(q: seq<Entry>)
    requires q != []
    ensures exists x :: x in q
  {
    assert q[0] in q;
  }

  /** An entry arriving while nothing of the area is held belongs to another area. */
  lemma {:induction false} ArrivesElsewhere(c: Setup, v: View, id: TargetId)
    requires CarryInv(c, v) && Unsplit(c, v, id) && Alone(c, id)
    requires v.inn != [] && v.inn[0].MsgEntry? && Untaken(v.me, v.you, v.inn, id)
    ensures !InScope(c.mine[id], v.inn[0].entry) && Sound(v.me.store)
  {
    var e := v.inn[0].entry;
    assert v.inn[0] in v.inn;
    assert Admissible(c, e) && Sound(v.me.store);
    EntryTarget(c, v);
    hide CarryInv, Streams, Owned, Query, CountFor, OnlyOpenings, OnlyEmptyOnes, Untaken, InScope;
    OwnedTail(v.me.transfer, v.inn, v.me.transfer.target);
    assert e in Owned(v.me.transfer, v.inn, v.me.transfer.target);
  }

  lemma {:induction false} EntryTarget(c: Setup, v: View)
    requires ProtocolInv(c, v) && v.inn != [] && v.inn[0].MsgEntry?
    ensures v.me.transfer.Receiving? && v.me.transfer.target in c.mine
  {
    PeerParts(c, v);
    StreamsTail(v.me.transfer, v.inn);
    hide ProtocolInv, Streams;
  }

  lemma {:induction false} EntryApplied(c: Setup, v: View, chunks: Entry -> nat) returns (me: Peer)
    requires ProtocolInv(c, v) && v.inn != [] && !IsRange(v.inn[0])
    ensures Enabled(v, Deliver(chunks)) && Apply(c.lift, v, Deliver(chunks)) == Some(View(me, v.you, v.out, v.inn[1..]))
    ensures me.inbox == v.me.inbox && me.role == v.me.role && TransferStep(v.me.transfer, v.inn[0]) == Ok(me.transfer)
    ensures me.store == if v.inn[0].MsgEntry? then IngestAt(v.me.store, v.inn[0].entry) else v.me.store
  {
    hide ProtocolInv, Receive, TransferStep, IngestAt, StateOf, PeerOk;
    me := ReceiveEntrySucceeds(c, v, chunks);
    assert v.out + [] == v.out;
  }

  lemma {:induction false} EntryKeepsEmpty(c: Setup, v: View, id: TargetId, me: Peer)
    requires CarryInv(c, v) && Unsplit(c, v, id) && Alone(c, id)
    requires v.inn != [] && me.inbox == v.me.inbox && me.role == v.me.role
    requires TransferStep(v.me.transfer, v.inn[0]) == Ok(me.transfer) && Streams(me.transfer, v.inn[1..])
    requires me.store == if v.inn[0].MsgEntry? then IngestAt(v.me.store, v.inn[0].entry) else v.me.store
    ensures Untaken(me, v.you, v.inn[1..], id) ==> StillEmpty(me, v.inn[1..], v.out, id, c.mine[id])
  {
    hide CarryInv, Streams, Owned, OwnedOk, TransferStep, Query, CountFor, OnlyOpenings, OnlyEmptyOnes, StillEmpty, Untaken, IngestAt, Alone,
         Sound, InScope;
    if Untaken(me, v.you, v.inn[1..], id) {
      UntakenBefore(v.me, me, v.you, v.inn, id);
      EmptyNow(v, c.mine[id], id);
      if v.inn[0].MsgEntry? {
        ArrivesElsewhere(c, v, id);
        StoreStays(v.me.store, v.inn[0].entry, c.mine[id]);
      }
      TailStillEmpty(v.me, me, v.inn, v.out, id, c.mine[id]);
    }
  }

  lemma {:induction false} EmptyNow(v: View, scope: Scope, id: TargetId)
    requires Streams(v.me.transfer, v.inn) && StillEmpty(v.me, v.inn, v.out, id, scope)
    ensures Query(v.me.store, scope.namespace, scope.range) == []
  {
    hide Query, Owned, Streams;
  }

  lemma {:induction false} EmptyEntryStep(c: Setup, v: View, id: TargetId, chunks: Entry -> nat)
    requires CarryInv(c, v) && Unsplit(c, v, id) && Alone(c, id)
    requires v.inn != [] && !IsRange(v.inn[0])
    requires Apply(c.lift, v, Deliver(chunks)).Some?
    ensures Unsplit(c, Apply(c.lift, v, Deliver(chunks)).value, id)
  {
    assert ProtocolInv(c, v);
    var me := EntryApplied(c, v, chunks);
    hide CarryInv, ProtocolInv, Apply, Streams, Owned, OwnedOk, TransferStep, CountFor, OnlyOpenings, OnlyEmptyOnes, StillEmpty,
         Untaken, IngestAt, Alone;
    TailOwnedOk(c.mine, v.me.transfer, v.inn);
    OpeningsTail(v.inn, id, c.mine[id]);
    EntryKeepsEmpty(c, v, id, me);
  }

  lemma {:induction false} StoreStays(store: Replica, e: Entry, scope: Scope)
    requires Sound(store) && !InScope(scope, e)
    ensures Query(store, scope.namespace, scope.range) == [] ==> Query(IngestAt(store, e), scope.namespace, scope.range) == []
  {
    if Query(store, scope.namespace, scope.range) == [] { IngestElsewhere(store, e, scope); }
  }

  lemma {:induction false} UntakenBefore(p: Peer, me: Peer, you: Peer, inn: seq<Message>, id: TargetId)
    requires inn != [] && me.inbox == p.inbox && me.role == p.role && Untaken(me, you, inn[1..], id)
    ensures Untaken(p, you, inn, id)
  {
    assert Waiting(me, id) <==> Waiting(p, id);
  }

  lemma {:induction false} TailStillEmpty(p: Peer, me: Peer, inn: seq<Message>, out: seq<Message>, id: TargetId, scope: Scope)
    requires Streams(p.transfer, inn) && inn != [] && TransferStep(p.transfer, inn[0]) == Ok(me.transfer)
    requires Streams(me.transfer, inn[1..])
    requires StillEmpty(p, inn, out, id, scope) && Query(me.store, scope.namespace, scope.range) == []
    ensures StillEmpty(me, inn[1..], out, id, scope)
  {
    hide Streams, Owned, TransferStep, Query, CountFor;
    HeadCounts(inn, id);
    OwnedTail(p.transfer, inn, id);
  }

  lemma {:induction false} StartStep(c: Setup, v: View)
    requires ProtocolInv(c, v) && v.me.inbox != []
    ensures var s := Start(c.lift, v.me);
            var o := v.me.inbox[0].id;
            && o in c.mine && v.me.inbox[0].scope == c.mine[o]
            && s.messages == (if v.me.role.Alfie? then [OpeningMessage(c.lift, v.me)] else [])
            && s.peer.store == v.me.store && s.peer.role == v.me.role && s.peer.transfer == v.me.transfer
            && Waiting(v.me, o) && !Waiting(s.peer, o) && (forall x :: x != o ==> (Waiting(s.peer, x) <==> Waiting(v.me, x)))
  {
    assert PeerOk(v.me, c.mine);
    hide ProtocolInv, PeerOk, Start, StateOf, Bumped, Waiting;
    StartTables(c.lift, v.me, c.mine);
    StartMessages(c.lift, v.me);
  }

  lemma {:induction false} OpeningOf(lift: Lift, p: Peer, scope: Scope)
    requires p.inbox != [] && p.inbox[0].scope == scope
    ensures var m := OpeningMessage(lift, p);
            && m.MsgFingerprint? && Handles(m) == Mirror(p.inbox[0].id) && Opens(m, scope)
            && (Query(p.store, scope.namespace, scope.range) == [] ==> m.fingerprint == Neutral())
  {
    hide Query, Neutral;
  }

  lemma {:induction false} AppendOpening(q: seq<Message>, m: Message, id: TargetId, scope: Scope)
    requires m.MsgFingerprint? && (Handles(m) == id ==> Opens(m, scope))
    ensures OnlyOpenings(q, id, scope) ==> OnlyOpenings(q + [m], id, scope)
    ensures OnlyEmptyOnes(q, id) && (Handles(m) == id ==> m.fingerprint == Neutral()) ==> OnlyEmptyOnes(q + [m], id)
  {
    hide Neutral;
  }

  lemma {:induction false} EmptyStartStep(c: Setup, v: View, id: TargetId)
    requires ProtocolInv(c, v) && Unsplit(c, v, id) && v.me.inbox != []
    ensures Unsplit(c, Apply(c.lift, v, StartNext).value, id)
  {
    hide ProtocolInv, Start, Streams, Owned, OwnedOk, Query, CountFor, Neutral, OnlyOpenings, OnlyEmptyOnes, OpeningMessage, Waiting, Opens;
    StartStep(c, v);
    RolesDiffer(c, v);
    var s := Start(c.lift, v.me);
    var o := v.me.inbox[0].id;
    if v.me.role.Betty? {
      assert v.out + [] == v.out;
    } else {
      var m := OpeningMessage(c.lift, v.me);
      OpeningOf(c.lift, v.me, c.mine[o]);
      assert Mirror(Mirror(o)) == o && (Mirror(o) == Mirror(id) ==> o == id);
      AppendOpening(v.out, m, Mirror(id), c.mine[id]);
      CountConcat(v.out, [m], Mirror(id));
      CountOne(m, Mirror(id));
      if o == id {
        assert OpeningPending(v, id);
        WaitingIsQuiet(c, v, id);
        NoneInQuiet(v.inn, id);
      }
    }
  }

  lemma {:induction false} RolesDiffer(c: Setup, v: View)
    requires ProtocolInv(c, v)
    ensures v.me.role != v.you.role
  {}

  lemma {:induction false} CountOne(m: Message, id: TargetId)
    ensures CountFor([m], id) == if IsFor(m, id) then 1 else 0
  {
    assert [m][1..] == [];
  }

  lemma {:induction false} NoneInQuiet(q: seq<Message>, id: TargetId)
    requires CountFor(q, id) == 0
    ensures forall m :: m in q ==> !IsFor(m, id)
  {
    hide EndsCovered, CoversInOrder, NumberedFor, CoverCount;
    NoneForEndsCovered(q, id);
  }

  // ---------- the other peer acts ----------

  /** Entries in an answer come from the area they are announced for. */
  lemma {:induction false} AnswerOwned(c: Setup, v: View, r: seq<Message>, o: TargetId)
    requires ProtocolInv(c, v) && v.inn != [] && IsRange(v.inn[0]) && Handles(v.inn[0]) in c.mine
    requires AnswerHonest(c, v, r) && forall m :: m in r && IsRange(m) ==> Handles(m) == Mirror(Handles(v.inn[0]))
    requires o in c.yours
    ensures forall e :: e in Owned(Idle, r, o) ==> InScope(c.yours[o], e)
  {
    var m := v.inn[0];
    assert m in v.inn && Inside(m.range, c.mine[Handles(m)].range);
    assert c.yours[Mirror(Handles(m))] == c.mine[Handles(m)];
    hide ProtocolInv, Streams, Owned, SnapshotOk, IncludesEntry;
    forall e | e in Owned(Idle, r, o) ensures InScope(c.yours[o], e) {
      if o == Mirror(Handles(m)) { OwnedMember(Idle, r, o, e); } else { NotForOthers(r, Mirror(Handles(m)), o); }
    }
  }

  lemma {:induction false} AppendOwnedOk(c: Setup, v: View, r: seq<Message>)
    requires ProtocolInv(c, v) && v.inn != [] && IsRange(v.inn[0]) && Handles(v.inn[0]) in c.mine
    requires AnswerHonest(c, v, r) && forall m :: m in r && IsRange(m) ==> Handles(m) == Mirror(Handles(v.inn[0]))
    requires Streams(v.you.transfer, v.out) && OwnedOk(c.yours, v.you.transfer, v.out)
    ensures Streams(v.you.transfer, v.out + r) && OwnedOk(c.yours, v.you.transfer, v.out + r)
  {
    assert Streams(Idle, r);
    StreamsConcat(v.you.transfer, v.out, r);
    hide ProtocolInv, Streams, Owned, AnswerHonest, InScope;
    forall o, e | o in c.yours && e in Owned(v.you.transfer, v.out + r, o) ensures InScope(c.yours[o], e) {
      OwnedConcat(v.you.transfer, v.out, r, o);
      AnswerOwned(c, v, r, o);
    }
  }

  /** A range message of the area at the head of my queue: you have taken the area. */
  lemma {:induction false} TakenByYou(c: Setup, v: View, id: TargetId, me: Peer, r: seq<Message>)
    requires Unsplit(FlipSetup(c), Flip(v), id) && NoFingerprint(r)
    requires v.inn != [] && IsFor(v.inn[0], Mirror(id)) && me.inbox == v.me.inbox && me.role == v.me.role
    ensures !Untaken(v.you, me, v.out + r, id)
  {
    hide Streams, Owned, OwnedOk, OnlyOpenings, OnlyEmptyOnes, Query, CountFor;
    HeadCounts(v.inn, Mirror(id));
    assert Waiting(me, Mirror(id)) <==> Waiting(v.me, Mirror(id));
  }

  lemma {:induction false} OtherElsewhere(v: View, me: Peer, r: seq<Message>, id: TargetId, scope: Scope)
    requires Streams(v.you.transfer, v.out) && Streams(Idle, r) && Streams(v.you.transfer, v.out + r)
    requires v.inn != [] && IsRange(v.inn[0]) && Handles(v.inn[0]) != Mirror(id) && me.inbox == v.me.inbox && me.role == v.me.role
    requires forall m :: m in r && IsRange(m) ==> Handles(m) == Mirror(Handles(v.inn[0]))
    requires Untaken(v.you, v.me, v.out, id) ==> StillEmpty(v.you, v.out, v.inn, id, scope)
    ensures Untaken(v.you, me, v.out + r, id) ==> StillEmpty(v.you, v.out + r, v.inn[1..], id, scope)
  {
    hide Streams, Owned, Query, CountFor;
    HeadCounts(v.inn, Mirror(id));
    assert Mirror(Mirror(id)) == id && Mirror(Handles(v.inn[0])) != id;
    AppendAnswer(v.you.transfer, v.out, r, Mirror(Handles(v.inn[0])), id);
    assert Waiting(me, Mirror(id)) <==> Waiting(v.me, Mirror(id));
  }

  lemma {:induction false} RangeApplied(c: Setup, v: View, chunks: Entry -> nat) returns (me: Peer, r: seq<Message>)
    requires ProtocolInv(c, v) && v.inn != [] && IsRange(v.inn[0]) && Ready(v.me, v.inn[0])
    ensures Handles(v.inn[0]) in c.mine && Receive(c.lift, v.me, chunks, v.inn[0]) == Ok(Reply(me, r))
    ensures Enabled(v, Deliver(chunks)) && Apply(c.lift, v, Deliver(chunks)) == Some(View(me, v.you, v.out + r, v.inn[1..]))
    ensures me.store == v.me.store && me.inbox == v.me.inbox && me.role == v.me.role
    ensures Streams(Idle, r) && forall m :: m in r && IsRange(m) ==> Handles(m) == Mirror(Handles(v.inn[0]))
  {
    hide ProtocolInv, Receive, Streams, TransferStep;
    me, r := HeadAnswer(c, v, chunks);
  }

  lemma {:induction false} OtherRangeStep(c: Setup, v: View, id: TargetId, chunks: Entry -> nat)
    requires CarryInv(c, v) && Unsplit(FlipSetup(c), Flip(v), id)
    requires v.inn != [] && IsRange(v.inn[0]) && Ready(v.me, v.inn[0])
    requires Apply(c.lift, v, Deliver(chunks)).Some?
    ensures Unsplit(FlipSetup(c), Flip(Apply(c.lift, v, Deliver(chunks)).value), id)
  {
    assert ProtocolInv(c, v);
    var me, r := RangeApplied(c, v, chunks);
    RangeAnswerGood(c, v, chunks);
    hide CarryInv, ProtocolInv, Apply, Receive, Streams, Owned, OwnedOk, AnswerHonest, Query, CountFor, NoFingerprint, Neutral,
         OnlyOpenings, OnlyEmptyOnes, StillEmpty, Untaken, NotFooled, AnswerGood;
    var o := Handles(v.inn[0]);
    AppendOwnedOk(c, v, r);
    OpeningsTail(v.inn, Mirror(id), c.yours[id]);
    EmptyOnesTail(v.inn, Mirror(id));
    assert Mirror(Mirror(id)) == id && Mirror(Mirror(o)) == o;
    if o == Mirror(id) {
      EmptyOneHead(v.inn, Mirror(id));
      HeadNoFingerprint(c, v, chunks, r);
      AppendNone(v.out, r, id, c.yours[id]);
      TakenByYou(c, v, id, me, r);
    } else {
      AppendOthers(v.out, r, Mirror(o), id, c.yours[id]);
      OtherElsewhere(v, me, r, id, c.yours[id]);
    }
  }

  lemma {:induction false} EmptyOnesTail(q: seq<Message>, id: TargetId)
    requires OnlyEmptyOnes(q, id) && q != []
    ensures OnlyEmptyOnes(q[1..], id)
  {}

  lemma {:induction false} EmptyOneHead(q: seq<Message>, id: TargetId)
    requires OnlyEmptyOnes(q, id) && q != [] && IsFor(q[0], id)
    ensures q[0].MsgFingerprint? ==> q[0].fingerprint == Neutral()
  {
    assert q[0] in q;
    hide Neutral;
  }

  lemma {:induction false} OtherEntryStep(c: Setup, v: View, id: TargetId, chunks: Entry -> nat)
    requires ProtocolInv(c, v) && Unsplit(FlipSetup(c), Flip(v), id)
    requires v.inn != [] && !IsRange(v.inn[0])
    requires Apply(c.lift, v, Deliver(chunks)).Some?
    ensures Unsplit(FlipSetup(c), Flip(Apply(c.lift, v, Deliver(chunks)).value), id)
  {
    var me := EntryApplied(c, v, chunks);
    hide ProtocolInv, Apply, TransferStep, IngestAt, Streams, Owned, OwnedOk, Query, CountFor, OnlyOpenings, OnlyEmptyOnes;
    OpeningsTail(v.inn, Mirror(id), c.yours[id]);
    EmptyOnesTail(v.inn, Mirror(id));
    HeadCounts(v.inn, Mirror(id));
    assert Waiting(me, Mirror(id)) <==> Waiting(v.me, Mirror(id));
  }

  lemma {:induction false} AppendOpeningOwned(scopes: map<TargetId, Scope>, s: Transfer, q: seq<Message>, m: Message)
    requires Streams(s, q) && OwnedOk(scopes, s, q) && m.MsgFingerprint?
    ensures Streams(s, q + [m]) && OwnedOk(scopes, s, q + [m])
    ensures forall o :: Owned(s, q + [m], o) == Owned(s, q, o)
  {
    AppendFingerprint(s, q, m);
    assert [m][1..] == [] && Streams(Idle, []) && Streams(Idle, [m]);
    forall o ensures Owned(s, q + [m], o) == Owned(s, q, o) {
      OwnedConcat(s, q, [m], o);
      assert Owned(Idle, [m], o) == {} + Owned(Idle, [], o);
    }
  }

  lemma {:induction false} OtherStartStep(c: Setup, v: View, id: TargetId)
    requires ProtocolInv(c, v) && Unsplit(FlipSetup(c), Flip(v), id) && v.me.inbox != []
    ensures Unsplit(FlipSetup(c), Flip(Apply(c.lift, v, StartNext).value), id)
  {
    hide ProtocolInv, Start, Streams, Owned, OwnedOk, Query, CountFor, Neutral, OnlyOpenings, OnlyEmptyOnes, OpeningMessage, Waiting, Opens;
    StartStep(c, v);
    RolesDiffer(c, v);
    ScopesAgree(c, v, id);
    var o := v.me.inbox[0].id;
    assert Mirror(Mirror(id)) == id && Mirror(Mirror(o)) == o;
    if v.me.role.Betty? {
      assert v.out + [] == v.out;
    } else {
      var m := OpeningMessage(c.lift, v.me);
      OpeningOf(c.lift, v.me, c.mine[o]);
      AppendOpening(v.out, m, id, c.yours[id]);
      AppendOpeningOwned(c.yours, v.you.transfer, v.out, m);
      CountConcat(v.out, [m], id);
      CountOne(m, id);
      if o == Mirror(id) {
        assert OpeningPending(v, o);
        WaitingIsQuiet(c, v, o);
      } else {
        NotThis(v.out, m, id);
      }
    }
  }

  lemma {:induction false} ScopesAgree(c: Setup, v: View, id: TargetId)
    requires ProtocolInv(c, v) && id in c.yours
    ensures Mirror(id) in c.mine && c.mine[Mirror(id)] == c.yours[id]
  {}

  lemma {:induction false} NotThis(q: seq<Message>, m: Message, id: TargetId)
    requires !IsFor(m, id)
    ensures (exists x :: x in q + [m] && x.MsgFingerprint? && IsFor(x, id)) <==> exists x :: x in q && x.MsgFingerprint? && IsFor(x, id)
  {
    if x :| x in q && x.MsgFingerprint? && IsFor(x, id) { assert x in q + [m]; }
  }

  // ---------- whole runs ----------

  lemma {:induction false} EmptyActs(c: Setup, v: View, s: Step, id: TargetId)
    requires CarryInv(c, v) && Unsplit(c, v, id) && Alone(c, id)
    requires Enabled(v, s) && Apply(c.lift, v, s).Some?
    ensures Unsplit(c, Apply(c.lift, v, s).value, id)
  {
    assert ProtocolInv(c, v);
    hide CarryInv, ProtocolInv, Unsplit, Apply, Alone;
    match s {
      case StartNext => EmptyStartStep(c, v, id);
      case Deliver(chunks) =>
        if IsRange(v.inn[0]) { EmptyRangeStep(c, v, id, chunks); } else { EmptyEntryStep(c, v, id, chunks); }
    }
  }

  lemma {:induction false} OtherActs(c: Setup, v: View, s: Step, id: TargetId)
    requires CarryInv(c, v) && Unsplit(FlipSetup(c), Flip(v), id)
    requires Enabled(v, s) && Apply(c.lift, v, s).Some?
    ensures Unsplit(FlipSetup(c), Flip(Apply(c.lift, v, s).value), id)
  {
    assert ProtocolInv(c, v);
    hide CarryInv, ProtocolInv, Unsplit, Apply;
    match s {
      case StartNext => OtherStartStep(c, v, id);
      case Deliver(chunks) =>
        if IsRange(v.inn[0]) { OtherRangeStep(c, v, id, chunks); } else { OtherEntryStep(c, v, id, chunks); }
    }
  }

  lemma {:induction false} MoveKeepsUnsplit(c: Setup, v: View, move: Move, w: View, id: TargetId)
    requires CarryInv(c, v) && Unsplit(c, v, id) && Alone(c, id) && Follows(c, v, move, w)
    ensures Unsplit(c, w, id)
  {
    hide CarryInv, Unsplit, Apply, Enabled, Alone;
    match move {
      case Mine(s) => EmptyActs(c, v, s, id);
      case Yours(s) =>
        FlipCarry(c, v);
        assert FlipSetup(FlipSetup(c)) == c && Flip(Flip(v)) == v && Flip(Flip(w)) == w;
        OtherActs(FlipSetup(c), Flip(v), s, id);
    }
  }

  lemma {:induction false} SameAreas(c: Setup, d: Setup, v: View, id: TargetId)
    requires d.mine == c.mine && Unsplit(c, v, id)
    ensures Unsplit(d, v, id)
  {
    hide OwnedOk, OnlyOpenings, OnlyEmptyOnes, Untaken, StillEmpty, Streams;
  }

  lemma {:induction false} StillAlone(c: Setup, d: Setup, id: TargetId)
    requires id in c.mine && Alone(c, id) && d.mine == c.mine && d.mine0 == c.mine0 && d.yours0 == c.yours0
    ensures Alone(d, id)
  {
    hide InScope;
  }

  lemma {:induction false} NothingHeld(store: Replica, scope: Scope)
    requires Sound(store) && forall e :: e in All(store) ==> !InScope(scope, e)
    ensures Query(store, scope.namespace, scope.range) == []
  {
    QueryExact(store, scope.namespace, scope.range);
    hide Sound, Query, All;
    var q := Query(store, scope.namespace, scope.range);
    if q != [] { SomeEntry(q); }
  }

  lemma {:induction false} InitialUnsplit(c: Setup, v: View, id: TargetId)
    requires Initial(c, v) && id in c.mine && forall e :: e in c.mine0 ==> !InScope(c.mine[id], e)
    ensures Unsplit(c, v, id)
  {
    hide Sound, Query, All, InScope, InboxOk, ScopesOk;
    NothingHeld(v.me.store, c.mine[id]);
    assert Streams(Idle, []) && forall o :: Owned(Idle, [], o) == {};
  }

  /** Between two peers, of which I hold nothing of an area at the start, no other shared area having
      any entry in common with it: in every state of every run, the only fingerprint on its way for the
      area in either direction is the opening one, over the whole area. */
  lemma {:induction false} NeverSplit(c: Setup, states: seq<View>, moves: seq<Move>, i: nat, id: TargetId)
    requires Run(c, states, moves) && i < |states|
    requires id in c.mine && Alone(c, id) && forall e :: e in c.mine0 ==> !InScope(c.mine[id], e)
    ensures Unsplit(c, states[i], id)
    ensures forall m :: m in states[i].inn && m.MsgFingerprint? && IsFor(m, id) ==> m.covers.None? && m.range == c.mine[id].range
    ensures forall m :: m in states[i].out && m.MsgFingerprint? && IsFor(m, Mirror(id)) ==>
              m.covers.None? && m.range == c.mine[id].range && m.fingerprint == Neutral()
  {
    RunUnsplit(c, states, moves, i, id);
    hide Run, Streams, OwnedOk, Untaken, StillEmpty, Neutral, Alone;
  }

  lemma {:induction false} RunUnsplit(c: Setup, states: seq<View>, moves: seq<Move>, i: nat, id: TargetId)
    requires Run(c, states, moves) && i < |states|
    requires id in c.mine && Alone(c, id) && forall e :: e in c.mine0 ==> !InScope(c.mine[id], e)
    ensures Unsplit(c, states[i], id)
  {
    hide Alone, Unsplit, InScope, CarryInv, Initial, SeenBy, ProtocolInv, CanMove, MoveBy;
    if i == 0 {
      InitialUnsplit(c, states[0], id);
    } else {
      RunUnsplit(c, states, moves, i - 1, id);
      RunInvariant(c, states, moves, i - 1);
      assert Follows(c, states[i - 1], moves[i - 1], states[i]);
      var d := SeenBy(c, states[..i]);
      SeenSame(c, states[..i]);
      SameAreas(c, d, states[i - 1], id);
      StillAlone(c, d, id);
      MoveKeepsUnsplit(d, states[i - 1], moves[i - 1], states[i], id);
      SameAreas(d, c, states[i], id);
    }
  }
}
