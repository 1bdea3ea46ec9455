/** What each peer knows of the other's entries during a run: nothing a peer held at the start
    is ever lost, and whatever it still has to learn is announced by something on its way. */
module Knowledge {
  import opened Orders
  import opened Entries
  import opened Ranges
  import opened MemoryStore
  import opened Fingerprints
  import opened Splitting
  import opened Replicas
  import opened Wire
  import opened Queues
  import opened Reconciler
  import opened Answers
  import opened Session

  predicate InScope(s: Scope, e: Entry) {
    e.namespace == s.namespace && IncludesEntry(s.range, e)
  }

  ghost predicate InScopes(scopes: map<TargetId, Scope>, e: Entry) {
    exists id :: id in scopes && InScope(scopes[id], e)
  }

  ghost predicate SetupOk(c: Setup) {
    && ScopesOk(c)
    && Undominated(c.mine0)
    && Undominated(c.yours0)
  }

  /** Entries I may hold or be sent: mine from the start, or yours from a shared area. */
  ghost predicate Admissible(c: Setup, e: Entry) {
    e in c.mine0 || (e in c.yours0 && InScopes(c.mine, e))
  }

  ghost predicate StoreOk(c: Setup, store: Replica) {
    && store in c.mineSeen
    && Sound(store)
    && (forall e :: e in c.mine0 ==> Knows(All(store), e))
    && (forall e :: e in All(store) ==> Admissible(c, e))
  }

  ghost predicate CargoOk(c: Setup, q: seq<Message>) {
    forall m :: m in q && m.MsgEntry? ==> Admissible(c, m.entry)
  }

  /** `s` lists what you held in the range when you took the fingerprint `f`. */
  ghost predicate Snapshot(c: Setup, ns: NamespaceId, r: Range3d, f: Fingerprint, s: seq<Entry>,
                           mine: set<Entry>, yours: set<Entry>)
  {
    && Distinct(s) && ToSet(s) <= c.mine0 + c.yours0
    && FingerprintOf(c.lift, s) == f
    && (forall x :: x in s ==> x.namespace == ns && IncludesEntry(r, x) && Knows(yours, x))
    && (forall e :: e in c.yours0 && e.namespace == ns && IncludesEntry(r, e) ==> e in s || Knows(mine, e))
  }

  /** The fingerprint is one you took over a store you have had. */
  ghost predicate SnapshotOk(c: Setup, ns: NamespaceId, r: Range3d, f: Fingerprint, mine: set<Entry>, yours: set<Entry>) {
    exists store :: store in c.yoursSeen && Snapshot(c, ns, r, f, Query(store, ns, r), mine, yours)
  }

  // ---------- comparisons ----------

  /** Comparing the fingerprint `f` with my own of the range is not fooled by your store: if both
      stores have that fingerprint there, they hold the same entries there. */
  ghost predicate TellsApart(lift: Lift, ns: NamespaceId, r: Range3d, f: Fingerprint, mine: Replica, yours: Replica) {
    FingerprintOf(lift, Query(mine, ns, r)) == f == FingerprintOf(lift, Query(yours, ns, r)) ==>
      ToSet(Query(mine, ns, r)) == ToSet(Query(yours, ns, r))
  }

  /** If a fingerprint is about to be compared, no store you have had fools the comparison. */
  ghost predicate NotFooled(c: Setup, v: View) {
    v.inn != [] && v.inn[0].MsgFingerprint? && Handles(v.inn[0]) in c.mine ==>
      forall store :: store in c.yoursSeen ==>
        TellsApart(c.lift, c.mine[Handles(v.inn[0])].namespace, v.inn[0].range, v.inn[0].fingerprint, v.me.store, store)
  }

  ghost predicate FingerprintsOk(c: Setup, q: seq<Message>, mine: set<Entry>, yours: set<Entry>) {
    forall m :: m in q && m.MsgFingerprint? ==>
      Handles(m) in c.mine && SnapshotOk(c, c.mine[Handles(m)].namespace, m.range, m.fingerprint, mine, yours)
  }

  // ---------- what is still to come ----------

  ghost predicate FingerprintPending(q: seq<Message>, id: TargetId, e: Entry) {
    exists m :: m in q && m.MsgFingerprint? && IsFor(m, id) && IncludesEntry(m.range, e)
  }

  ghost predicate RequestPending(q: seq<Message>, id: TargetId, e: Entry) {
    exists m :: m in q && m.MsgAnnounce? && m.wantResponse && IsFor(m, id) && IncludesEntry(m.range, e)
  }

  ghost predicate Arriving(s: Transfer, q: seq<Message>, id: TargetId, e: Entry)
    requires Streams(s, q)
  {
    exists d :: d in Owned(s, q, id) && Accounts(d, e)
  }

  predicate OpeningPending(v: View, id: TargetId) {
    (v.me.role.Alfie? && Waiting(v.me, id)) || (v.you.role.Alfie? && Waiting(v.you, Mirror(id)))
  }

  /** Something on its way will make me know your entry `e` of target `id`. */
  ghost predicate Pending(v: View, id: TargetId, e: Entry)
    requires Streams(v.me.transfer, v.inn)
  {
    || OpeningPending(v, id)
    || FingerprintPending(v.inn, id, e)
    || FingerprintPending(v.out, Mirror(id), e)
    || RequestPending(v.out, Mirror(id), e)
    || Arriving(v.me.transfer, v.inn, id, e)
  }

  ghost predicate DeliveryOk(c: Setup, v: View)
    requires Streams(v.me.transfer, v.inn)
  {
    forall id, e :: id in c.mine && e in c.yours0 && InScope(c.mine[id], e) ==>
      Knows(All(v.me.store), e) || Pending(v, id, e)
  }

  ghost predicate CarryHalf(c: Setup, v: View) {
    && StoreOk(c, v.me.store)
    && CargoOk(c, v.inn)
    && FingerprintsOk(c, v.inn, All(v.me.store), All(v.you.store))
  }

  /** What holds whatever the hash does: nothing held at the start is lost, entries on their way
      belong where they go, and fingerprints on their way were taken over real stores. */
  ghost predicate CarryInv(c: Setup, v: View) {
    && ProtocolInv(c, v)
    && SetupOk(c)
    && CarryHalf(c, v)
    && CarryHalf(FlipSetup(c), Flip(v))
  }

  ghost predicate KnowHalf(c: Setup, v: View) {
    Streams(v.me.transfer, v.inn) && DeliveryOk(c, v)
  }

  /** What holds as long as no comparison is fooled: what a peer does not know yet is on its way. */
  ghost predicate KnowInv(c: Setup, v: View) {
    && CarryInv(c, v)
    && KnowHalf(c, v)
    && KnowHalf(FlipSetup(c), Flip(v))
  }

  lemma {:induction false} FlipSetupOk(c: Setup)
    requires SetupOk(c)
    ensures SetupOk(FlipSetup(c))
  {}

  lemma {:induction false} FlipCarry(c: Setup, v: View)
    requires CarryInv(c, v)
    ensures CarryInv(FlipSetup(c), Flip(v))
  {
    hide ProtocolInv, CarryHalf, SetupOk;
    FlipInv(c, v);
    FlipSetupOk(c);
  }

  lemma {:induction false} FlipKnow(c: Setup, v: View)
    requires KnowInv(c, v)
    ensures KnowInv(FlipSetup(c), Flip(v))
  {
    hide CarryInv, KnowHalf;
    FlipCarry(c, v);
  }

  // ---------- what a peer can vouch for ----------

  /** An entry of mine from the start is still mine, or you know it already. */
  lemma {:induction false} MineOrKnown(c: Setup, mine: Replica, yours: Replica, e: Entry)
    requires SetupOk(c) && StoreOk(c, mine) && StoreOk(FlipSetup(c), yours)
    requires e in c.mine0
    ensures e in All(mine) || Knows(All(yours), e)
  {
    var d :| d in All(mine) && Accounts(d, e);
    if d != e {
      assert Admissible(c, d);
      assert d in c.yours0;
      var k :| k in All(yours) && Accounts(k, d);
      AccountsTransitive(k, d, e);
    }
  }

  lemma {:induction false} HeldIsKnown(c: Setup, mine: Replica, x: Entry)
    requires StoreOk(c, mine) && x in All(mine)
    ensures Knows(All(mine), x) && x in c.mine0 + c.yours0
  {}

  lemma {:induction false} SeenStore(c: Setup, mine: Replica)
    requires StoreOk(c, mine)
    ensures mine in c.mineSeen
  {}

  lemma {:induction false} OwnEntriesKnown(c: Setup, mine: Replica, ns: NamespaceId, r: Range3d)
    requires StoreOk(c, mine)
    ensures Distinct(Query(mine, ns, r))
    ensures forall x :: x in Query(mine, ns, r) ==>
              x.namespace == ns && IncludesEntry(r, x) && Knows(All(mine), x) && x in c.mine0 + c.yours0
  {
    assert Sound(mine);
    hide IncludesEntry, Query, StoreOk, Knows, Sound;
    QueryExact(mine, ns, r);
    forall x | x in Query(mine, ns, r) ensures Knows(All(mine), x) && x in c.mine0 + c.yours0 {
      HeldIsKnown(c, mine, x);
    }
  }

  lemma {:induction false} OwnStartKnown(c: Setup, mine: Replica, yours: Replica, ns: NamespaceId, r: Range3d)
    requires SetupOk(c) && StoreOk(c, mine) && StoreOk(FlipSetup(c), yours)
    ensures forall e :: e in c.mine0 && e.namespace == ns && IncludesEntry(r, e) ==>
              e in Query(mine, ns, r) || Knows(All(yours), e)
  {
    assert Sound(mine);
    hide IncludesEntry, Query, SetupOk, StoreOk, Knows, Sound;
    QueryExact(mine, ns, r);
    forall e | e in c.mine0 && e.namespace == ns && IncludesEntry(r, e)
      ensures e in Query(mine, ns, r) || Knows(All(yours), e)
    {
      MineOrKnown(c, mine, yours, e);
    }
  }

  /** My fingerprint of a range is a snapshot of what I hold there. */
  lemma {:induction false} OwnSnapshot(c: Setup, mine: Replica, yours: Replica, ns: NamespaceId, r: Range3d)
    requires SetupOk(c) && StoreOk(c, mine) && StoreOk(FlipSetup(c), yours)
    ensures SnapshotOk(FlipSetup(c), ns, r, FingerprintOf(c.lift, Query(mine, ns, r)), All(yours), All(mine))
  {
    hide IncludesEntry, Query, SetupOk, StoreOk, Knows, FingerprintOf, All, Distinct;
    var s := Query(mine, ns, r);
    OwnEntriesKnown(c, mine, ns, r);
    OwnStartKnown(c, mine, yours, ns, r);
    assert mine in c.mineSeen by { SeenStore(c, mine); }
    assert Snapshot(FlipSetup(c), ns, r, FingerprintOf(c.lift, s), s, All(yours), All(mine));
  }

  // ---------- what an answer conveys ----------

  /** The answer `r` leaves nothing of mine in the range unsaid. */
  ghost predicate Conveys(c: Setup, yours: set<Entry>, r: seq<Message>, id: TargetId, ns: NamespaceId, range: Range3d)
    requires Streams(Idle, r)
  {
    forall e :: e in c.mine0 && e.namespace == ns && IncludesEntry(range, e) ==>
      Knows(yours, e) || FingerprintPending(r, id, e) || Arriving(Idle, r, id, e)
  }

  /** The answer `r` leaves nothing of yours in the range unasked. */
  ghost predicate Requests(c: Setup, mine: set<Entry>, r: seq<Message>, id: TargetId, ns: NamespaceId, range: Range3d) {
    forall e :: e in c.yours0 && e.namespace == ns && IncludesEntry(range, e) ==>
      Knows(mine, e) || FingerprintPending(r, id, e) || RequestPending(r, id, e)
  }

  /** Fingerprints in the answer are snapshots, and its entries come from my store in the range. */
  ghost predicate Honest(c: Setup, mine: Replica, yours: Replica, r: seq<Message>, ns: NamespaceId, range: Range3d) {
    && (forall m :: m in r && m.MsgFingerprint? ==>
          SnapshotOk(FlipSetup(c), ns, m.range, m.fingerprint, All(yours), All(mine)))
    && (forall m :: m in r && m.MsgEntry? ==>
          m.entry in All(mine) && m.entry.namespace == ns && IncludesEntry(range, m.entry))
  }

  lemma {:induction false} AnnounceShape(id: TargetId, t: Target, store: Replica, chunks: Entry -> nat,
                                         r: Range3d, want: bool, covers: Option<nat>, knownEmpty: bool)
    ensures var q := AnnounceAndSend(id, t, store, chunks, r, want, covers, knownEmpty).messages;
            && (exists m :: m in q && m.MsgAnnounce? && m.wantResponse == want && m.range == r && IsFor(m, Mirror(id)))
            && (forall m :: m in q ==> !m.MsgFingerprint?)
  {
    var s := if knownEmpty then [] else Query(store, t.scope.namespace, r);
    var q := AnnounceAndSend(id, t, store, chunks, r, want, covers, knownEmpty).messages;
    BlockMembers(s, chunks);
    assert q[0].MsgAnnounce? && q[0] in q;
  }

  lemma {:induction false} AnnounceHonest(c: Setup, mine: Replica, yours: Replica, id: TargetId, t: Target,
                                          chunks: Entry -> nat, range: Range3d, want: bool,
                                          covers: Option<nat>, knownEmpty: bool)
    requires Sound(mine)
    ensures Honest(c, mine, yours, AnnounceAndSend(id, t, mine, chunks, range, want, covers, knownEmpty).messages,
                   t.scope.namespace, range)
  {
    hide SnapshotOk, IncludesEntry, AnnounceAndSend, Query, Piece, Owned, Streams;
    AnnounceShape(id, t, mine, chunks, range, want, covers, knownEmpty);
    AnnouncePiece(id, t, mine, chunks, range, want, covers, knownEmpty);
    QueryExact(mine, t.scope.namespace, range);
  }

  /** Announcing a range with all its entries conveys everything; asking for a response
      requests everything. */
  lemma {:induction false} FullAnnounceConveys(c: Setup, mine: Replica, yours: Replica, id: TargetId, t: Target,
                                               chunks: Entry -> nat, range: Range3d, want: bool,
                                               covers: Option<nat>, knownEmpty: bool)
    requires SetupOk(c) && StoreOk(c, mine) && StoreOk(FlipSetup(c), yours)
    requires knownEmpty ==> Query(mine, t.scope.namespace, range) == []
    ensures var ns := t.scope.namespace;
            var r := AnnounceAndSend(id, t, mine, chunks, range, want, covers, knownEmpty).messages;
            && Streams(Idle, r)
            && Conveys(c, All(yours), r, Mirror(id), ns, range)
            && (want ==> Requests(c, All(mine), r, Mirror(id), ns, range))
            && Honest(c, mine, yours, r, ns, range)
  {
    var ns := t.scope.namespace;
    hide IncludesEntry, Query, Owned, Streams, AnnounceAndSend, SetupOk, Honest, Snapshot;
    assert Sound(mine);
    hide StoreOk;
    AnnounceHonest(c, mine, yours, id, t, chunks, range, want, covers, knownEmpty);
    AnnounceShape(id, t, mine, chunks, range, want, covers, knownEmpty);
    AnnouncePiece(id, t, mine, chunks, range, want, covers, knownEmpty);
    QueryExact(mine, ns, range);
    var r := AnnounceAndSend(id, t, mine, chunks, range, want, covers, knownEmpty).messages;
    forall e | e in c.mine0 && e.namespace == ns && IncludesEntry(range, e)
      ensures Knows(All(yours), e) || Arriving(Idle, r, Mirror(id), e)
    {
      MineOrKnown(c, mine, yours, e);
      if e in All(mine) { assert e in Owned(Idle, r, Mirror(id)) && Accounts(e, e); }
    }
  }

  /** Equal entries: both sides already know everything of each other in the range. */
  lemma {:induction false} MatchConveys(c: Setup, mine: Replica, yours: Replica, ns: NamespaceId, range: Range3d, s: seq<Entry>, e: Entry)
    requires SetupOk(c) && StoreOk(c, mine) && StoreOk(FlipSetup(c), yours)
    requires Snapshot(c, ns, range, FingerprintOf(c.lift, Query(mine, ns, range)), s, All(mine), All(yours))
    requires ToSet(s) == ToSet(Query(mine, ns, range))
    requires e.namespace == ns && IncludesEntry(range, e)
    ensures e in c.mine0 ==> Knows(All(yours), e)
    ensures e in c.yours0 ==> Knows(All(mine), e)
  {
    var q := Query(mine, ns, range);
    QueryExact(mine, ns, range);
    hide IncludesEntry, Query;
    if e in c.mine0 { MineOrKnown(c, mine, yours, e); }
    if e in All(mine) {
      assert e in q && e in ToSet(q) && Accounts(e, e);
    }
    if e in s { assert e in ToSet(s); }
  }

  lemma {:induction false} HalvesCover(range: Range3d, mid: Entry, m1: Message, m2: Message, id: TargetId, e: Entry)
    requires IncludesEntry(range, mid) && IncludesEntry(range, e)
    requires m1.MsgFingerprint? && IsFor(m1, id) && m1.range == LowerHalf(range, mid)
    requires m2.MsgFingerprint? && IsFor(m2, id) && m2.range == UpperHalf(range, mid)
    ensures FingerprintPending([m1, m2], id, e)
  {}

  lemma {:induction false} TwoFingerprintsStream(m1: Message, m2: Message)
    requires m1.MsgFingerprint? && m2.MsgFingerprint?
    ensures Streams(Idle, [m1, m2])
  {}

  /** The two halves of a split together convey and request the whole range. */
  lemma {:induction false} HalvesConvey(c: Setup, mine: Replica, yours: Replica, id: TargetId, ns: NamespaceId,
                                        range: Range3d, mid: Entry, m1: Message, m2: Message)
    requires SetupOk(c) && StoreOk(c, mine) && StoreOk(FlipSetup(c), yours)
    requires IncludesEntry(range, mid)
    requires m1.MsgFingerprint? && IsFor(m1, id) && m1.range == LowerHalf(range, mid)
    requires m2.MsgFingerprint? && IsFor(m2, id) && m2.range == UpperHalf(range, mid)
    requires m1.fingerprint == FingerprintOf(c.lift, Query(mine, ns, m1.range))
    requires m2.fingerprint == FingerprintOf(c.lift, Query(mine, ns, m2.range))
    ensures FullAnswer(c, mine, yours, [m1, m2], id, ns, range)
  {
    hide IncludesEntry, LowerHalf, UpperHalf, SetupOk, StoreOk, SnapshotOk, Streams, FingerprintPending, Query, FingerprintOf, IsFor;
    TwoFingerprintsStream(m1, m2);
    OwnSnapshot(c, mine, yours, ns, m1.range);
    OwnSnapshot(c, mine, yours, ns, m2.range);
    forall e | IncludesEntry(range, e) ensures FingerprintPending([m1, m2], id, e) {
      HalvesCover(range, mid, m1, m2, id, e);
    }
    assert Conveys(c, All(yours), [m1, m2], id, ns, range);
    assert Requests(c, All(mine), [m1, m2], id, ns, range);
    hide Conveys, Requests;
  }

  /** What answering a fingerprint must achieve. */
  ghost predicate FullAnswer(c: Setup, mine: Replica, yours: Replica, r: seq<Message>, id: TargetId, ns: NamespaceId, range: Range3d) {
    && Streams(Idle, r)
    && Conveys(c, All(yours), r, id, ns, range)
    && Requests(c, All(mine), r, id, ns, range)
    && Honest(c, mine, yours, r, ns, range)
  }

  lemma {:induction false} BareAnnounce(id: TargetId, t: Target, store: Replica, chunks: Entry -> nat, r: Range3d, covers: Option<nat>)
    ensures var q := AnnounceAndSend(id, t, store, chunks, r, false, covers, true).messages;
            Streams(Idle, q) && |q| == 1 && q[0].MsgAnnounce?
  {}

  lemma {:induction false} SnapshotFingerprint(c: Setup, ns: NamespaceId, r: Range3d, f: Fingerprint, s: seq<Entry>,
                                               mine: set<Entry>, yours: set<Entry>)
    requires Snapshot(c, ns, r, f, s, mine, yours)
    ensures FingerprintOf(c.lift, s) == f
  {}

  lemma {:induction false} MatchAnswers(c: Setup, mine: Replica, yours: Replica, id: TargetId, t: Target, chunks: Entry -> nat,
                                        range: Range3d, covers: Option<nat>)
    requires SetupOk(c) && StoreOk(c, mine) && StoreOk(FlipSetup(c), yours)
    requires var ns := t.scope.namespace;
             && SnapshotOk(c, ns, range, FingerprintOf(c.lift, Query(mine, ns, range)), All(mine), All(yours))
             && forall store :: store in c.yoursSeen ==>
                  TellsApart(c.lift, ns, range, FingerprintOf(c.lift, Query(mine, ns, range)), mine, store)
    ensures FullAnswer(c, mine, yours, AnnounceAndSend(id, t, mine, chunks, range, false, covers, true).messages,
                       Mirror(id), t.scope.namespace, range)
  {
    hide IncludesEntry, Snapshot, SetupOk, StoreOk, AnnounceAndSend, Streams, Query, FingerprintOf, Knows, FingerprintPending,
         RequestPending, Arriving;
    var ns := t.scope.namespace;
    BareAnnounce(id, t, mine, chunks, range, covers);
    var f := FingerprintOf(c.lift, Query(mine, ns, range));
    var store :| store in c.yoursSeen && Snapshot(c, ns, range, f, Query(store, ns, range), All(mine), All(yours));
    var s := Query(store, ns, range);
    SnapshotFingerprint(c, ns, range, f, s, All(mine), All(yours));
    assert TellsApart(c.lift, ns, range, f, mine, store);
    forall e: Entry | e.namespace == ns && IncludesEntry(range, e)
      ensures e in c.mine0 ==> Knows(All(yours), e)
      ensures e in c.yours0 ==> Knows(All(mine), e)
    {
      MatchConveys(c, mine, yours, ns, range, s, e);
    }
  }

  lemma {:induction false} SplitAnswers(c: Setup, mine: Replica, yours: Replica, id: TargetId, t: Target, chunks: Entry -> nat,
                                        range: Range3d, rangeCount: nat)
    requires SetupOk(c) && StoreOk(c, mine) && StoreOk(FlipSetup(c), yours)
    ensures var ns := t.scope.namespace;
            var parts := SplitRange(c.lift, EntriesOf(mine, ns), range, DEFAULT_MAX_SET_SIZE);
            FullAnswer(c, mine, yours, SendParts(id, t, mine, chunks, parts, rangeCount).messages, Mirror(id), ns, range)
  {
    var ns := t.scope.namespace;
    var entries := EntriesOf(mine, ns);
    var inside := Select(entries, range);
    var parts := SplitRange(c.lift, entries, range, DEFAULT_MAX_SET_SIZE);
    var s := SendParts(id, t, mine, chunks, parts, rangeCount);
    if |inside| <= DEFAULT_MAX_SET_SIZE {
      var first := AnnounceAndSend(id, t, mine, chunks, range, true, Some(rangeCount), |inside| == 0);
      OnePart(id, t, mine, chunks, parts[0], rangeCount);
      assert parts == [parts[0]];
      hide SendParts, AnnounceAndSend, SplitRange, IncludesEntry, Conveys, Requests, Honest;
      FullAnnounceConveys(c, mine, yours, id, t, chunks, range, true, Some(rangeCount), |inside| == 0);
    } else {
      var mid := Median(inside);
      assert IncludesEntry(range, mid) by { SelectMembers(entries, range); }
      var lo, hi := LowerHalf(range, mid), UpperHalf(range, mid);
      var m1 := MsgFingerprint(lo, FingerprintOf(c.lift, Query(mine, ns, lo)), id.ours, id.theirs, None);
      var m2 := MsgFingerprint(hi, FingerprintOf(c.lift, Query(mine, ns, hi)), id.ours, id.theirs, Some(rangeCount));
      TwoParts(id, t, mine, chunks, Part(c.lift, entries, lo), Part(c.lift, entries, hi), rangeCount);
      hide SendParts, AnnounceAndSend, IncludesEntry, Conveys, Requests, Honest, LowerHalf, UpperHalf;
      assert s.messages == [m1, m2];
      HalvesConvey(c, mine, yours, Mirror(id), ns, range, mid, m1, m2);
    }
  }

  lemma {:induction false} OnePart(id: TargetId, t: Target, store: Replica, chunks: Entry -> nat, p: RangeSplit, rangeCount: nat)
    ensures SendParts(id, t, store, chunks, [p], rangeCount).messages == SendPart(id, t, store, chunks, p, Some(rangeCount)).messages
  {}

  lemma {:induction false} TwoParts(id: TargetId, t: Target, store: Replica, chunks: Entry -> nat,
                                    p1: RangeSplit, p2: RangeSplit, rangeCount: nat)
    requires p1.action.SendFingerprint? && p2.action.SendFingerprint?
    ensures SendParts(id, t, store, chunks, [p1, p2], rangeCount).messages
            == [MsgFingerprint(p1.range, p1.action.fingerprint, id.ours, id.theirs, None),
                MsgFingerprint(p2.range, p2.action.fingerprint, id.ours, id.theirs, Some(rangeCount))]
  {
    assert [p1, p2][1..] == [p2] && [p2][1..] == [];
    var first := SendPart(id, t, store, chunks, p1, None);
    var second := SendParts(id, first.target, store, chunks, [p2], rangeCount);
    assert SendParts(id, SendPart(id, first.target, store, chunks, p2, Some(rangeCount)).target, store, chunks, [], rangeCount).messages == [];
    assert second.messages == [MsgFingerprint(p2.range, p2.action.fingerprint, id.ours, id.theirs, Some(rangeCount))] + [];
  }

  /** Whatever a fingerprint is answered with, it conveys and requests the whole range. */
  lemma {:induction false} FingerprintAnswerConveys(c: Setup, mine: Replica, yours: Replica, id: TargetId, t: Target,
                                                    chunks: Entry -> nat, range: Range3d, theirs: Fingerprint)
    requires SetupOk(c) && StoreOk(c, mine) && StoreOk(FlipSetup(c), yours)
    requires SnapshotOk(c, t.scope.namespace, range, theirs, All(mine), All(yours))
    requires forall store :: store in c.yoursSeen ==> TellsApart(c.lift, t.scope.namespace, range, theirs, mine, store)
    ensures FullAnswer(c, mine, yours, AnswerFingerprint(c.lift, id, t, mine, chunks, range, theirs).messages,
                    Mirror(id), t.scope.namespace, range)
  {
    hide AnnounceAndSend, SendParts, SplitRange, IncludesEntry, Conveys, Requests, Honest, SetupOk, StoreOk, SnapshotOk, Query,
         FingerprintOf, Streams, TellsApart;
    var ns := t.scope.namespace;
    var c0 := t.theirCounter;
    var t1 := t.(theirCounter := c0 + 1);
    if FingerprintOf(c.lift, Query(mine, ns, range)) == theirs {
      MatchAnswers(c, mine, yours, id, t1, chunks, range, Some(c0));
    } else if IsEmpty(theirs) {
      FullAnnounceConveys(c, mine, yours, id, t1, chunks, range, true, Some(c0), false);
    } else {
      SplitAnswers(c, mine, yours, id, t1, chunks, range, c0);
    }
  }

  /** Whatever a fingerprint is answered with, and however the comparison went, the answer's
      entries and fingerprints are real. */
  lemma {:induction false} FingerprintAnswerHonest(c: Setup, mine: Replica, yours: Replica, id: TargetId, t: Target,
                                                   chunks: Entry -> nat, range: Range3d, theirs: Fingerprint)
    requires SetupOk(c) && StoreOk(c, mine) && StoreOk(FlipSetup(c), yours)
    ensures var r := AnswerFingerprint(c.lift, id, t, mine, chunks, range, theirs).messages;
            Streams(Idle, r) && Honest(c, mine, yours, r, t.scope.namespace, range)
  {
    assert Sound(mine);
    hide AnnounceAndSend, SendParts, SplitRange, IncludesEntry, Conveys, Requests, Honest, SetupOk, StoreOk, SnapshotOk, Query,
         FingerprintOf, Streams, Sound;
    var ns := t.scope.namespace;
    var c0 := t.theirCounter;
    var t1 := t.(theirCounter := c0 + 1);
    if FingerprintOf(c.lift, Query(mine, ns, range)) == theirs {
      BareAnnounce(id, t1, mine, chunks, range, Some(c0));
      AnnounceHonest(c, mine, yours, id, t1, chunks, range, false, Some(c0), true);
    } else if IsEmpty(theirs) {
      FullAnnounceConveys(c, mine, yours, id, t1, chunks, range, true, Some(c0), false);
    } else {
      SplitAnswers(c, mine, yours, id, t1, chunks, range, c0);
    }
  }

  // ---------- a growing record of stores ----------

  /** The same setup with more stores seen. */
  ghost predicate SeesMore(c: Setup, d: Setup) {
    d == c.(mineSeen := d.mineSeen, yoursSeen := d.yoursSeen) && c.mineSeen <= d.mineSeen && c.yoursSeen <= d.yoursSeen
  }

  lemma {:induction false} SameProtocol(c: Setup, d: Setup, v: View)
    requires d.mine == c.mine && d.yours == c.yours && ProtocolInv(c, v)
    ensures ProtocolInv(d, v)
  {
    hide PeerOk, Streams, RangesOk, PairOk, OpeningOk, StateOf, Quiet;
    forall id | id in d.mine ensures TargetInv(d, v, id) { assert TargetInv(c, v, id); }
  }

  lemma {:induction false} SeeMoreSnapshot(c: Setup, d: Setup, ns: NamespaceId, r: Range3d, f: Fingerprint, mine: set<Entry>, yours: set<Entry>)
    requires SeesMore(c, d) && SnapshotOk(c, ns, r, f, mine, yours)
    ensures SnapshotOk(d, ns, r, f, mine, yours)
  {
    hide Knows, IncludesEntry, FingerprintOf, Distinct, Query;
    var store :| store in c.yoursSeen && Snapshot(c, ns, r, f, Query(store, ns, r), mine, yours);
    assert Snapshot(d, ns, r, f, Query(store, ns, r), mine, yours);
  }

  lemma {:induction false} SeeMoreHalf(c: Setup, d: Setup, v: View)
    requires SeesMore(c, d) && CarryHalf(c, v)
    ensures CarryHalf(d, v)
  {
    hide SnapshotOk, Knows, Sound, InScope, All;
    forall e ensures Admissible(d, e) <==> Admissible(c, e) {}
    forall m | m in v.inn && m.MsgFingerprint?
      ensures SnapshotOk(d, d.mine[Handles(m)].namespace, m.range, m.fingerprint, All(v.me.store), All(v.you.store))
    {
      SeeMoreSnapshot(c, d, c.mine[Handles(m)].namespace, m.range, m.fingerprint, All(v.me.store), All(v.you.store));
    }
  }

  lemma {:induction false} SeeMore(c: Setup, d: Setup, v: View)
    requires SeesMore(c, d) && CarryInv(c, v)
    ensures CarryInv(d, v)
    ensures KnowInv(c, v) ==> KnowInv(d, v)
  {
    SameProtocol(c, d, v);
    SeeMoreHalf(c, d, v);
    SeeMoreHalf(FlipSetup(c), FlipSetup(d), Flip(v));
    hide ProtocolInv, CarryHalf, Knows, InScope, Pending, Undominated, Streams;
  }
}
