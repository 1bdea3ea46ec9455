/** Every step keeps the knowledge invariant. */
module Learning {
  import opened Orders
  import opened Entries
  import opened Ranges
  import opened MemoryStore
  import opened Fingerprints
  import opened Splitting
  import opened Replicas
  import opened Wire
  import opened Queues
  import opened Reconciler
  import opened Answers
  import opened Session
  import opened Protocol
  import opened Knowledge

  // ---------- pending messages under queue changes ----------

  lemma {:induction false} PendingConcat(q: seq<Message>, r: seq<Message>, id: TargetId, e: Entry)
    ensures FingerprintPending(q, id, e) || FingerprintPending(r, id, e) ==> FingerprintPending(q + r, id, e)
    ensures RequestPending(q, id, e) || RequestPending(r, id, e) ==> RequestPending(q + r, id, e)
  {}

  /** Taking the head of the queue loses only what the head itself announced. */
  lemma {:induction false} PendingTail(q: seq<Message>, id: TargetId, e: Entry)
    requires q != []
    ensures FingerprintPending(q, id, e) ==>
              || FingerprintPending(q[1..], id, e)
              || (q[0].MsgFingerprint? && IsFor(q[0], id) && IncludesEntry(q[0].range, e))
    ensures RequestPending(q, id, e) ==>
              || RequestPending(q[1..], id, e)
              || (q[0].MsgAnnounce? && q[0].wantResponse && IsFor(q[0], id) && IncludesEntry(q[0].range, e))
  {}

  lemma {:induction false} ArrivingConcat(s: Transfer, q: seq<Message>, r: seq<Message>, id: TargetId, e: Entry)
    requires Streams(s, q) && Streams(Idle, r)
    ensures Streams(s, q + r)
    ensures Arriving(s, q, id, e) || Arriving(Idle, r, id, e) ==> Arriving(s, q + r, id, e)
  {
    OwnedConcat(s, q, r, id);
  }

  // ---------- a range message ----------

  /** The answer `r` to the head of my queue streams, and its entries and fingerprints are real. */
  ghost predicate AnswerHonest(c: Setup, v: View, r: seq<Message>)
    requires v.inn != [] && IsRange(v.inn[0]) && Handles(v.inn[0]) in c.mine
  {
    var m := v.inn[0];
    Streams(Idle, r) && Honest(c, v.me.store, v.you.store, r, c.mine[Handles(m)].namespace, m.range)
  }

  /** What the answer achieves unless a comparison is fooled. */
  ghost predicate AnswerGood(c: Setup, v: View, r: seq<Message>)
    requires v.inn != [] && IsRange(v.inn[0]) && Handles(v.inn[0]) in c.mine
  {
    var m := v.inn[0];
    var id := Handles(m);
    var ns := c.mine[id].namespace;
    && AnswerHonest(c, v, r)
    && (Numbered(m) ==> Conveys(c, All(v.you.store), r, Mirror(id), ns, m.range))
    && (m.MsgFingerprint? ==> Requests(c, All(v.me.store), r, Mirror(id), ns, m.range))
  }

  lemma {:induction false} DeliveryMine(c: Setup, v: View, me: Peer, r: seq<Message>, id: TargetId, e: Entry)
    requires v.inn != [] && IsRange(v.inn[0]) && Handles(v.inn[0]) in c.mine && AnswerGood(c, v, r)
    requires Streams(v.me.transfer, v.inn) && TransferStep(v.me.transfer, v.inn[0]) == Ok(me.transfer)
    requires me.role == v.me.role && me.inbox == v.me.inbox
    requires id in c.mine && e in c.yours0 && InScope(c.mine[id], e)
    requires Pending(v, id, e)
    ensures Streams(me.transfer, v.inn[1..])
    ensures Knows(All(v.me.store), e) || Pending(View(me, v.you, v.out + r, v.inn[1..]), id, e)
  {}

  lemma {:induction false} DeliveryYours(c: Setup, v: View, me: Peer, r: seq<Message>, id: TargetId, e: Entry)
    requires v.inn != [] && IsRange(v.inn[0]) && Handles(v.inn[0]) in c.mine && AnswerGood(c, v, r)
    requires Streams(v.you.transfer, v.out)
    requires me.role == v.me.role && me.inbox == v.me.inbox
    requires id in c.mine && e in c.mine0 && InScope(c.mine[id], e)
    requires Pending(Flip(v), Mirror(id), e)
    ensures Streams(v.you.transfer, v.out + r)
    ensures Knows(All(v.you.store), e) || Pending(Flip(View(me, v.you, v.out + r, v.inn[1..])), Mirror(id), e)
  {
    hide IncludesEntry, All, Owned, Knows, Streams, Requests, Honest, TransferStep, FingerprintPending, RequestPending, Arriving;
    assert Mirror(Mirror(id)) == id;
    PendingTail(v.inn, id, e);
    PendingConcat(v.out, r, Mirror(id), e);
    ArrivingConcat(v.you.transfer, v.out, r, Mirror(id), e);
    assert Waiting(me, id) <==> Waiting(v.me, id);
  }

  lemma {:induction false} CargoAnswer(c: Setup, v: View, r: seq<Message>)
    requires ScopesOk(c) && RangesOk(c.mine, v.inn)
    requires v.inn != [] && IsRange(v.inn[0]) && Handles(v.inn[0]) in c.mine && AnswerHonest(c, v, r)
    requires StoreOk(c, v.me.store) && CargoOk(FlipSetup(c), v.out)
    ensures CargoOk(FlipSetup(c), v.out + r)
  {
    var m := v.inn[0];
    var id := Handles(m);
    assert m in v.inn && Inside(m.range, c.mine[id].range);
    hide IncludesEntry, Conveys, Requests, Streams, Sound;
    forall x | x in v.out + r && x.MsgEntry? ensures Admissible(FlipSetup(c), x.entry) {
      if x in r {
        assert Admissible(c, x.entry);
        if x.entry in c.mine0 {
          assert InScope(c.yours[Mirror(id)], x.entry);
        }
      }
    }
  }

  lemma {:induction false} FingerprintsAnswer(c: Setup, v: View, r: seq<Message>)
    requires ScopesOk(c)
    requires v.inn != [] && IsRange(v.inn[0]) && Handles(v.inn[0]) in c.mine && AnswerHonest(c, v, r)
    requires forall m :: m in r && IsRange(m) ==> Handles(m) == Mirror(Handles(v.inn[0]))
    requires FingerprintsOk(FlipSetup(c), v.out, All(v.you.store), All(v.me.store))
    ensures FingerprintsOk(FlipSetup(c), v.out + r, All(v.you.store), All(v.me.store))
  {
    hide IncludesEntry, Conveys, Requests, Streams, SnapshotOk;
    forall m | m in v.out + r && m.MsgFingerprint?
      ensures Handles(m) in c.yours && SnapshotOk(FlipSetup(c), c.yours[Handles(m)].namespace, m.range, m.fingerprint, All(v.you.store), All(v.me.store))
    {
      if m !in v.out { assert m in r; }
    }
  }

  lemma {:induction false} FingerprintsTail(c: Setup, q: seq<Message>, mine: set<Entry>, yours: set<Entry>)
    requires q != [] && FingerprintsOk(c, q, mine, yours) && CargoOk(c, q)
    ensures FingerprintsOk(c, q[1..], mine, yours) && CargoOk(c, q[1..])
  {}

  lemma {:induction false} RangeCarries(c: Setup, v: View, me: Peer, r: seq<Message>)
    requires CarryInv(c, v)
    requires v.inn != [] && IsRange(v.inn[0]) && Handles(v.inn[0]) in c.mine && AnswerHonest(c, v, r)
    requires forall m :: m in r && IsRange(m) ==> Handles(m) == Mirror(Handles(v.inn[0]))
    requires me.store == v.me.store
    ensures CarryHalf(c, View(me, v.you, v.out + r, v.inn[1..]))
    ensures CarryHalf(FlipSetup(c), Flip(View(me, v.you, v.out + r, v.inn[1..])))
  {
    hide ProtocolInv, AnswerHonest, StoreOk, CargoOk, FingerprintsOk, SetupOk, Streams, All, RangesOk;
    ProtocolStreams(c, v);
    FingerprintsTail(c, v.inn, All(v.me.store), All(v.you.store));
    CargoAnswer(c, v, r);
    FingerprintsAnswer(c, v, r);
  }

  lemma {:induction false} RangeKeepsMine(c: Setup, v: View, me: Peer, r: seq<Message>)
    requires KnowInv(c, v)
    requires v.inn != [] && IsRange(v.inn[0]) && Handles(v.inn[0]) in c.mine && AnswerGood(c, v, r)
    requires TransferStep(v.me.transfer, v.inn[0]) == Ok(me.transfer)
    requires me.role == v.me.role && me.inbox == v.me.inbox && me.store == v.me.store
    ensures KnowHalf(c, View(me, v.you, v.out + r, v.inn[1..]))
  {
    hide CarryInv, AnswerGood, Pending, TransferStep, Streams, InScope, Knows, All;
    var w := View(me, v.you, v.out + r, v.inn[1..]);
    StreamsTail(v.me.transfer, v.inn);
    forall id, e | id in c.mine && e in c.yours0 && InScope(c.mine[id], e)
      ensures Knows(All(w.me.store), e) || Pending(w, id, e)
    {
      if !Knows(All(v.me.store), e) { DeliveryMine(c, v, me, r, id, e); }
    }
  }

  lemma {:induction false} ProtocolStreams(c: Setup, v: View)
    requires ProtocolInv(c, v)
    ensures Streams(v.me.transfer, v.inn) && Streams(v.you.transfer, v.out)
    ensures RangesOk(c.mine, v.inn) && ScopesOk(c)
  {}

  lemma {:induction false} RangeKeepsYours(c: Setup, v: View, me: Peer, r: seq<Message>)
    requires KnowInv(c, v)
    requires v.inn != [] && IsRange(v.inn[0]) && Handles(v.inn[0]) in c.mine && AnswerGood(c, v, r)
    requires me.role == v.me.role && me.inbox == v.me.inbox && me.store == v.me.store
    ensures KnowHalf(FlipSetup(c), Flip(View(me, v.you, v.out + r, v.inn[1..])))
  {
    assert ScopesOk(c) by { ProtocolStreams(c, v); }
    hide CarryInv, Pending, TransferStep, Streams, InScope, Knows, All, Conveys, Requests, Honest;
    StreamsConcat(v.you.transfer, v.out, r);
    var w := View(me, v.you, v.out + r, v.inn[1..]);
    forall id, e | id in c.yours && e in c.mine0 && InScope(c.yours[id], e)
      ensures Knows(All(w.you.store), e) || Pending(Flip(w), id, e)
    {
      assert Mirror(Mirror(id)) == id;
      if !Knows(All(v.you.store), e) { DeliveryYours(c, v, me, r, Mirror(id), e); }
    }
  }

  lemma {:induction false} HeadSnapshot(c: Setup, v: View)
    requires FingerprintsOk(c, v.inn, All(v.me.store), All(v.you.store))
    requires v.inn != [] && v.inn[0].MsgFingerprint?
    ensures Handles(v.inn[0]) in c.mine
    ensures SnapshotOk(c, c.mine[Handles(v.inn[0])].namespace, v.inn[0].range, v.inn[0].fingerprint, All(v.me.store), All(v.you.store))
  {}

  lemma {:induction false} TargetScope(c: Setup, v: View, id: TargetId)
    requires ProtocolInv(c, v) && id in v.me.targets
    ensures id in c.mine && v.me.targets[id].scope == c.mine[id]
  {}

  lemma {:induction false} FingerprintAnswerGood(c: Setup, v: View, chunks: Entry -> nat)
    requires CarryInv(c, v)
    requires v.inn != [] && v.inn[0].MsgFingerprint? && Ready(v.me, v.inn[0])
    ensures Handles(v.inn[0]) in c.mine
    ensures var id := Handles(v.inn[0]);
            var s := ReceivedFingerprint(c.lift, id, v.me.targets[id], v.me.store, chunks, v.inn[0]);
            s.Ok? ==> AnswerHonest(c, v, s.value.messages) && (NotFooled(c, v) ==> AnswerGood(c, v, s.value.messages))
  {
    hide ProtocolInv, SetupOk, StoreOk, CargoOk, FingerprintsOk, SnapshotOk, AnswerFingerprint, All,
         Conveys, Requests, Honest, Streams, TellsApart;
    var m := v.inn[0];
    var id := Handles(m);
    TargetScope(c, v, id);
    HeadSnapshot(c, v);
    var covered := MarkRangeCovered(v.me.targets[id].(started := true), m.covers);
    if covered.Ok? {
      FingerprintAnswerHonest(c, v.me.store, v.you.store, id, covered.value, chunks, m.range, m.fingerprint);
      if NotFooled(c, v) {
        FingerprintAnswerConveys(c, v.me.store, v.you.store, id, covered.value, chunks, m.range, m.fingerprint);
      }
    }
  }

  lemma {:induction false} AnnounceAnswerGood(c: Setup, v: View, chunks: Entry -> nat)
    requires CarryInv(c, v)
    requires v.inn != [] && v.inn[0].MsgAnnounce? && Ready(v.me, v.inn[0])
    ensures Handles(v.inn[0]) in c.mine
    ensures var id := Handles(v.inn[0]);
            var s := ReceivedAnnounce(id, v.me.targets[id], v.me.store, chunks, v.inn[0]);
            s.Ok? ==> AnswerGood(c, v, s.value.messages)
  {
    hide ProtocolInv, SetupOk, StoreOk, CargoOk, FingerprintsOk, AnnounceAndSend, All, Conveys, Requests, SnapshotOk, Query;
    var m := v.inn[0];
    var id := Handles(m);
    TargetScope(c, v, id);
    var covered := MarkRangeCovered(v.me.targets[id].(started := true), m.covers);
    if covered.Ok? && m.wantResponse {
      var t := covered.value;
      hide Honest;
      FullAnnounceConveys(c, v.me.store, v.you.store, id, t.(theirCounter := t.theirCounter + 1), chunks, m.range, false,
                          Some(t.theirCounter), false);
    }
  }

  lemma {:induction false} RangeAnswerGood(c: Setup, v: View, chunks: Entry -> nat)
    requires CarryInv(c, v)
    requires v.inn != [] && IsRange(v.inn[0]) && Ready(v.me, v.inn[0])
    ensures Handles(v.inn[0]) in c.mine
    ensures var r := Receive(c.lift, v.me, chunks, v.inn[0]);
            r.Ok? ==> AnswerHonest(c, v, r.value.messages) && (NotFooled(c, v) ==> AnswerGood(c, v, r.value.messages))
  {
    hide CarryInv, ReceivedFingerprint, ReceivedAnnounce, AnswerHonest, CompleteIfDone, TransferStep, NotFooled;
    if v.inn[0].MsgFingerprint? {
      FingerprintAnswerGood(c, v, chunks);
    } else {
      AnnounceAnswerGood(c, v, chunks);
    }
  }

  lemma {:induction false} DeliverRange(c: Setup, v: View, chunks: Entry -> nat)
    requires CarryInv(c, v)
    requires Enabled(v, Deliver(chunks)) && IsRange(v.inn[0])
    ensures Apply(c.lift, v, Deliver(chunks)).Some?
    ensures var w := Apply(c.lift, v, Deliver(chunks)).value;
            CarryInv(c, w) && (KnowInv(c, v) && NotFooled(c, v) ==> KnowInv(c, w))
  {
    hide ProtocolInv, CarryHalf, KnowHalf, SetupOk, RangeStep, AfterRange, AnswerGood, AnswerHonest, Receive, TransferStep, TransferAfter,
         NotFooled;
    var m := v.inn[0];
    var id := Handles(m);
    StepKeepsProtocol(c, v, Deliver(chunks));
    var after, r := ReceiveRangeSucceeds(c, v, chunks);
    var me := AfterRange(v.me, id, after, TransferAfter(m));
    RangeAnswerGood(c, v, chunks);
    AfterRangeKept(v.me, id, after, TransferAfter(m));
    StepMirrors(m, id, v.me.targets[id], after, r);
    RangeCarries(c, v, me, r);
    if KnowInv(c, v) && NotFooled(c, v) {
      RangeKeepsMine(c, v, me, r);
      RangeKeepsYours(c, v, me, r);
    }
  }

  lemma {:induction false} AfterRangeKept(p: Peer, id: TargetId, after: Target, transfer: Transfer)
    requires id in p.targets
    ensures var q := AfterRange(p, id, after, transfer);
            q.role == p.role && q.inbox == p.inbox && q.store == p.store && q.transfer == transfer
  {}

  lemma {:induction false} StepMirrors(m: Message, id: TargetId, t: Target, after: Target, r: seq<Message>)
    requires IsRange(m) && RangeStep(m, id, t, after, r)
    ensures forall x :: x in r && IsRange(x) ==> Handles(x) == Mirror(id)
  {}

  // ---------- an entry, a payload piece, the end of a payload ----------

  ghost predicate KnowsMore(before: set<Entry>, after: set<Entry>) {
    forall e :: Knows(before, e) ==> Knows(after, e)
  }

  lemma {:induction false} FingerprintsMonotone(c: Setup, q: seq<Message>, mine: set<Entry>, yours: set<Entry>, mine2: set<Entry>, yours2: set<Entry>)
    requires FingerprintsOk(c, q, mine, yours) && KnowsMore(mine, mine2) && KnowsMore(yours, yours2)
    ensures FingerprintsOk(c, q, mine2, yours2)
  {
    hide Knows, IncludesEntry, FingerprintOf, Distinct, Query;
    forall m | m in q && m.MsgFingerprint?
      ensures SnapshotOk(c, c.mine[Handles(m)].namespace, m.range, m.fingerprint, mine2, yours2)
    {
      var ns := c.mine[Handles(m)].namespace;
      var store :| store in c.yoursSeen && Snapshot(c, ns, m.range, m.fingerprint, Query(store, ns, m.range), mine, yours);
      assert Snapshot(c, ns, m.range, m.fingerprint, Query(store, ns, m.range), mine2, yours2);
    }
  }

  lemma {:induction false} IngestLearns(c: Setup, store: Replica, d: Entry)
    requires StoreOk(c, store) && Admissible(c, d) && IngestAt(store, d) in c.mineSeen
    ensures StoreOk(c, IngestAt(store, d))
    ensures KnowsMore(All(store), All(IngestAt(store, d)))
    ensures forall e :: Accounts(d, e) ==> Knows(All(IngestAt(store, d)), e)
  {
    IngestAtSound(store, d);
    IngestAtIsJoin(store, d);
    hide Sound, IngestAt, All;
    forall e | Knows(All(store), e) || Accounts(d, e) ensures Knows(All(IngestAt(store, d)), e) {
      JoinKnows(All(store), d, e);
    }
    hide Knows, Admissible;
    assert forall e :: e in All(IngestAt(store, d)) ==> e in All(store) || e == d;
  }

  lemma {:induction false} KnowsMoreReflexive(s: set<Entry>)
    ensures KnowsMore(s, s)
  {}

  lemma {:induction false} EntryDelivery(c: Setup, v: View, me: Peer, id: TargetId, e: Entry)
    requires v.inn != [] && !IsRange(v.inn[0]) && id in c.mine && Streams(v.me.transfer, v.inn)
    requires TransferStep(v.me.transfer, v.inn[0]) == Ok(me.transfer)
    requires me.role == v.me.role && me.inbox == v.me.inbox
    requires KnowsMore(All(v.me.store), All(me.store))
    requires v.inn[0].MsgEntry? ==> forall x :: Accounts(v.inn[0].entry, x) ==> Knows(All(me.store), x)
    requires Knows(All(v.me.store), e) || Pending(v, id, e)
    ensures Streams(me.transfer, v.inn[1..])
    ensures Knows(All(me.store), e) || Pending(View(me, v.you, v.out, v.inn[1..]), id, e)
  {}

  lemma {:induction false} EntryDeliveryYours(c: Setup, v: View, me: Peer, id: TargetId, e: Entry)
    requires v.inn != [] && !IsRange(v.inn[0]) && Streams(v.you.transfer, v.out)
    requires me.role == v.me.role && me.inbox == v.me.inbox
    requires Pending(Flip(v), id, e)
    ensures Pending(Flip(View(me, v.you, v.out, v.inn[1..])), id, e)
  {}

  lemma {:induction false} EntryCarries(c: Setup, v: View, me: Peer)
    requires CarryInv(c, v)
    requires v.inn != [] && !IsRange(v.inn[0])
    requires StoreOk(c, me.store) && KnowsMore(All(v.me.store), All(me.store))
    ensures CarryHalf(c, View(me, v.you, v.out, v.inn[1..]))
    ensures CarryHalf(FlipSetup(c), Flip(View(me, v.you, v.out, v.inn[1..])))
  {
    hide ProtocolInv, StoreOk, CargoOk, FingerprintsOk, SetupOk, All, KnowsMore;
    FingerprintsTail(c, v.inn, All(v.me.store), All(v.you.store));
    KnowsMoreReflexive(All(v.you.store));
    FingerprintsMonotone(c, v.inn[1..], All(v.me.store), All(v.you.store), All(me.store), All(v.you.store));
    FingerprintsMonotone(FlipSetup(c), v.out, All(v.you.store), All(v.me.store), All(v.you.store), All(me.store));
  }

  lemma {:induction false} EntryKeepsMine(c: Setup, v: View, me: Peer)
    requires KnowInv(c, v)
    requires v.inn != [] && !IsRange(v.inn[0])
    requires TransferStep(v.me.transfer, v.inn[0]) == Ok(me.transfer)
    requires me.role == v.me.role && me.inbox == v.me.inbox
    requires KnowsMore(All(v.me.store), All(me.store))
    requires v.inn[0].MsgEntry? ==> forall x :: Accounts(v.inn[0].entry, x) ==> Knows(All(me.store), x)
    ensures KnowHalf(c, View(me, v.you, v.out, v.inn[1..]))
  {
    hide CarryInv, Pending, TransferStep, Streams, InScope, Knows, All, KnowsMore, Accounts;
    StreamsTail(v.me.transfer, v.inn);
    forall id, e | id in c.mine && e in c.yours0 && InScope(c.mine[id], e)
      ensures Knows(All(me.store), e) || Pending(View(me, v.you, v.out, v.inn[1..]), id, e)
    {
      EntryDelivery(c, v, me, id, e);
    }
  }

  lemma {:induction false} EntryKeepsYours(c: Setup, v: View, me: Peer)
    requires KnowInv(c, v)
    requires v.inn != [] && !IsRange(v.inn[0])
    requires me.role == v.me.role && me.inbox == v.me.inbox
    ensures KnowHalf(FlipSetup(c), Flip(View(me, v.you, v.out, v.inn[1..])))
  {
    hide CarryInv, Pending, TransferStep, Streams, InScope, Knows, All;
    forall id, e | id in c.yours && e in c.mine0 && InScope(c.yours[id], e)
      ensures Knows(All(v.you.store), e) || Pending(Flip(View(me, v.you, v.out, v.inn[1..])), id, e)
    {
      if !Knows(All(v.you.store), e) { EntryDeliveryYours(c, v, me, id, e); }
    }
  }

  lemma {:induction false} DeliverEntry(c: Setup, v: View, chunks: Entry -> nat)
    requires CarryInv(c, v)
    requires Enabled(v, Deliver(chunks)) && !IsRange(v.inn[0])
    requires forall w :: Apply(c.lift, v, Deliver(chunks)) == Some(w) ==> w.me.store in c.mineSeen
    ensures Apply(c.lift, v, Deliver(chunks)).Some?
    ensures var w := Apply(c.lift, v, Deliver(chunks)).value;
            CarryInv(c, w) && (KnowInv(c, v) ==> KnowInv(c, w))
  {
    hide ProtocolInv, SetupOk, StoreOk, FingerprintsOk, KnowHalf, Receive, TransferStep, Streams, IngestAt, All, KnowsMore, Knows, Accounts,
         PeerOk, StateOf;
    StepKeepsProtocol(c, v, Deliver(chunks));
    var me := ReceiveEntrySucceeds(c, v, chunks);
    assert v.out + [] == v.out;
    assert Apply(c.lift, v, Deliver(chunks)) == Some(View(me, v.you, v.out, v.inn[1..]));
    if v.inn[0].MsgEntry? {
      assert v.inn[0] in v.inn;
      IngestLearns(c, v.me.store, v.inn[0].entry);
    } else {
      KnowsMoreReflexive(All(v.me.store));
    }
    hide CarryHalf, CargoOk;
    EntryCarries(c, v, me);
    if KnowInv(c, v) {
      EntryKeepsMine(c, v, me);
      EntryKeepsYours(c, v, me);
    }
  }

  // ---------- opening a target ----------

  /** The opening fingerprint covers the whole area. */
  lemma {:induction false} OpeningCovers(lift: Lift, p: Peer, e: Entry)
    requires p.inbox != [] && InScope(p.inbox[0].scope, e)
    ensures FingerprintPending([OpeningMessage(lift, p)], Mirror(p.inbox[0].id), e)
  {}

  lemma {:induction false} StartDeliveryMine(c: Setup, v: View, id: TargetId, e: Entry)
    requires PeerOk(v.me, c.mine) && v.me.inbox != [] && v.me.role != v.you.role
    requires id in c.mine && InScope(c.mine[id], e) && Streams(v.me.transfer, v.inn)
    requires Pending(v, id, e)
    ensures var s := Start(c.lift, v.me);
            s.peer.transfer == v.me.transfer && Pending(View(s.peer, v.you, v.out + s.messages, v.inn), id, e)
  {
    var s := Start(c.lift, v.me);
    StartTables(c.lift, v.me, c.mine);
    StartMessages(c.lift, v.me);
    FirstInScope(v.me, c.mine);
    hide PeerOk, Start, StateOf, Owned, Streams, FingerprintPending, RequestPending, Arriving, IncludesEntry, OpeningMessage, Waiting, InScope, IsFor;
    PendingConcat(v.out, s.messages, Mirror(id), e);
    if v.me.inbox[0].id == id { OpeningCovers(c.lift, v.me, e); }
  }

  lemma {:induction false} StartDeliveryYours(c: Setup, v: View, id: TargetId, e: Entry)
    requires PeerOk(v.me, c.mine) && v.me.inbox != [] && v.me.role != v.you.role
    requires id in c.mine && InScope(c.mine[id], e) && Streams(v.you.transfer, v.out)
    requires Pending(Flip(v), Mirror(id), e)
    requires Streams(v.you.transfer, v.out + Start(c.lift, v.me).messages)
    ensures var s := Start(c.lift, v.me);
            Pending(Flip(View(s.peer, v.you, v.out + s.messages, v.inn)), Mirror(id), e)
  {
    var s := Start(c.lift, v.me);
    assert Mirror(Mirror(id)) == id;
    StartTables(c.lift, v.me, c.mine);
    StartMessages(c.lift, v.me);
    FirstInScope(v.me, c.mine);
    OpeningStreams(c.lift, v.me);
    hide PeerOk, Start, StateOf, Owned, Streams, FingerprintPending, RequestPending, Arriving, IncludesEntry, OpeningMessage, Waiting, InScope, IsFor;
    PendingConcat(v.out, s.messages, Mirror(id), e);
    ArrivingConcat(v.you.transfer, v.out, s.messages, Mirror(id), e);
    if v.me.inbox[0].id == id { OpeningCovers(c.lift, v.me, e); }
  }

  lemma {:induction false} OpeningStreams(lift: Lift, p: Peer)
    requires p.inbox != []
    ensures Streams(Idle, Start(lift, p).messages)
  {}

  lemma {:induction false} StartKeepsMine(c: Setup, v: View)
    requires KnowInv(c, v) && v.me.inbox != []
    ensures var s := Start(c.lift, v.me);
            KnowHalf(c, View(s.peer, v.you, v.out + s.messages, v.inn))
  {
    SessionParts(c, v);
    hide CarryInv, Pending, Streams, InScope, Knows, All, PeerOk, Start, StateOf, Waiting;
    StartTables(c.lift, v.me, c.mine);
    var s := Start(c.lift, v.me);
    forall id, e | id in c.mine && e in c.yours0 && InScope(c.mine[id], e)
      ensures Knows(All(v.me.store), e) || Pending(View(s.peer, v.you, v.out + s.messages, v.inn), id, e)
    {
      if !Knows(All(v.me.store), e) { StartDeliveryMine(c, v, id, e); }
    }
  }

  lemma {:induction false} AppendSnapshot(c: Setup, q: seq<Message>, m: Message, mine: set<Entry>, yours: set<Entry>)
    requires CargoOk(c, q) && FingerprintsOk(c, q, mine, yours)
    requires m.MsgFingerprint? && Handles(m) in c.mine
    requires SnapshotOk(c, c.mine[Handles(m)].namespace, m.range, m.fingerprint, mine, yours)
    ensures CargoOk(c, q + [m]) && FingerprintsOk(c, q + [m], mine, yours)
  {}

  lemma {:induction false} OpeningSnapshot(c: Setup, v: View)
    requires SetupOk(c) && PeerOk(v.me, c.mine) && v.me.inbox != []
    requires StoreOk(c, v.me.store) && StoreOk(FlipSetup(c), v.you.store)
    ensures var m := OpeningMessage(c.lift, v.me);
            && Handles(m) in c.yours
            && SnapshotOk(FlipSetup(c), c.yours[Handles(m)].namespace, m.range, m.fingerprint, All(v.you.store), All(v.me.store))
  {
    var scope := v.me.inbox[0].scope;
    assert ScopesOk(c);
    hide PeerOk, SetupOk, StoreOk, SnapshotOk, Query, FingerprintOf, All;
    FirstInScope(v.me, c.mine);
    OwnSnapshot(c, v.me.store, v.you.store, scope.namespace, scope.range);
  }

  lemma {:induction false} StartCargo(c: Setup, v: View)
    requires SetupOk(c) && PeerOk(v.me, c.mine) && v.me.inbox != []
    requires StoreOk(c, v.me.store) && StoreOk(FlipSetup(c), v.you.store)
    requires CargoOk(FlipSetup(c), v.out) && FingerprintsOk(FlipSetup(c), v.out, All(v.you.store), All(v.me.store))
    ensures var r := Start(c.lift, v.me).messages;
            && CargoOk(FlipSetup(c), v.out + r)
            && FingerprintsOk(FlipSetup(c), v.out + r, All(v.you.store), All(v.me.store))
  {
    hide PeerOk, Start, SetupOk, StoreOk, OpeningMessage, SnapshotOk, All, CargoOk, FingerprintsOk;
    StartMessages(c.lift, v.me);
    OpeningIsBare(c.lift, v.me);
    OpeningSnapshot(c, v);
    assert v.out + [] == v.out;
    AppendSnapshot(FlipSetup(c), v.out, OpeningMessage(c.lift, v.me), All(v.you.store), All(v.me.store));
  }

  lemma {:induction false} StartCarries(c: Setup, v: View)
    requires CarryInv(c, v) && v.me.inbox != []
    ensures var s := Start(c.lift, v.me);
            && CarryHalf(c, View(s.peer, v.you, v.out + s.messages, v.inn))
            && CarryHalf(FlipSetup(c), Flip(View(s.peer, v.you, v.out + s.messages, v.inn)))
  {
    SessionParts(c, v);
    hide ProtocolInv, StoreOk, CargoOk, FingerprintsOk, SetupOk, All, PeerOk, Start, StateOf, Waiting;
    StartTables(c.lift, v.me, c.mine);
    StartCargo(c, v);
  }

  lemma {:induction false} StartKeepsYours(c: Setup, v: View)
    requires KnowInv(c, v) && v.me.inbox != []
    ensures var s := Start(c.lift, v.me);
            KnowHalf(FlipSetup(c), Flip(View(s.peer, v.you, v.out + s.messages, v.inn)))
  {
    SessionParts(c, v);
    hide CarryInv, Pending, Streams, InScope, Knows, All, PeerOk, Start, StateOf, Waiting, RangesOk;
    StartTables(c.lift, v.me, c.mine);
    StartQueues(c, v);
    var s := Start(c.lift, v.me);
    forall id, e | id in c.yours && e in c.mine0 && InScope(c.yours[id], e)
      ensures Knows(All(v.you.store), e) || Pending(Flip(View(s.peer, v.you, v.out + s.messages, v.inn)), id, e)
    {
      assert Mirror(Mirror(id)) == id;
      if !Knows(All(v.you.store), e) { StartDeliveryYours(c, v, Mirror(id), e); }
    }
  }

  lemma {:induction false} SessionParts(c: Setup, v: View)
    requires CarryInv(c, v)
    ensures PeerOk(v.me, c.mine) && v.me.role != v.you.role && ScopesOk(c)
    ensures Streams(v.me.transfer, v.inn) && Streams(v.you.transfer, v.out) && RangesOk(c.yours, v.out)
  {
    hide PeerOk, Streams, RangesOk, TargetInv, ScopesOk;
  }

  lemma {:induction false} StartStep(c: Setup, v: View)
    requires CarryInv(c, v) && v.me.inbox != []
    ensures Apply(c.lift, v, StartNext).Some?
    ensures var w := Apply(c.lift, v, StartNext).value;
            CarryInv(c, w) && (KnowInv(c, v) ==> KnowInv(c, w))
  {
    hide ProtocolInv, CarryHalf, KnowHalf, SetupOk, Start;
    StepKeepsProtocol(c, v, StartNext);
    StartCarries(c, v);
    if KnowInv(c, v) {
      StartKeepsMine(c, v);
      StartKeepsYours(c, v);
    }
  }

  /** No enabled step fails, and every step keeps what holds whatever the hash does; and as long
      as the step's comparison is not fooled, it keeps what both peers have still to learn. */
  lemma {:induction false} StepLearns(c: Setup, v: View, s: Step)
    requires CarryInv(c, v) && Enabled(v, s)
    requires forall w :: Apply(c.lift, v, s) == Some(w) ==> w.me.store in c.mineSeen
    ensures Apply(c.lift, v, s).Some?
    ensures var w := Apply(c.lift, v, s).value;
            CarryInv(c, w) && (KnowInv(c, v) && NotFooled(c, v) ==> KnowInv(c, w))
  {
    hide CarryInv, KnowInv, NotFooled, Apply;
    match s {
      case Deliver(chunks) =>
        if IsRange(v.inn[0]) { DeliverRange(c, v, chunks); } else { DeliverEntry(c, v, chunks); }
      case StartNext => StartStep(c, v);
    }
  }
}
