/** Synchronisation intents: which interests remain, and when an intent is told it is done. */
module Intents {
  import opened Orders
  import opened Entries
  import opened Ranges
  import opened Areas

  type Interests = map<NamespaceId, set<Area>>

  datatype EventKind =
    | CapabilityIntersection(namespace: NamespaceId, area: Area)
    | InterestIntersection(namespace: NamespaceId, area: Area)
    | Reconciled(namespace: NamespaceId, area: Area)
    | ReconciledAll
    | Abort

  /** `sent` are the events the intent's handle has been sent. */
  datatype IntentInfo = IntentInfo(interests: Interests, live: bool, sent: seq<EventKind>)

  predicate IsComplete(i: IntentInfo) { i.interests == map[] && !i.live }

  function InterestsIn(s: Interests, ns: NamespaceId): set<Area> { if ns in s then s[ns] else {} }

  predicate MatchesArea(s: Interests, ns: NamespaceId, area: Area) {
    exists x :: x in InterestsIn(s, ns) && AreaIntersection(x, area).Some?
  }

  /** The interests after an area has been reconciled: if it meets any of them, the ones it
      includes are dropped, and the namespace with its last interest. */
  function CompleteArea(s: Interests, ns: NamespaceId, area: Area): Interests {
    if !MatchesArea(s, ns, area) then s
    else
      var kept := set x | x in InterestsIn(s, ns) && !AreaIncludesArea(area, x);
      if kept == {} then s - {ns} else s[ns := kept]
  }

  predicate Concerns(i: IntentInfo, e: EventKind) {
    match e
    case CapabilityIntersection(ns, _) => ns in i.interests
    case InterestIntersection(ns, area) => MatchesArea(i.interests, ns, area)
    case Reconciled(ns, area) => MatchesArea(i.interests, ns, area)
    case Abort => true
    case ReconciledAll => false
  }

  function HandleEvent(i: IntentInfo, e: EventKind): IntentInfo {
    if !Concerns(i, e) then i
    else
      var after := if e.Reconciled? then i.(interests := CompleteArea(i.interests, e.namespace, e.area)) else i;
      after.(sent := i.sent + [e] + if e.Reconciled? && after.interests == map[] then [ReconciledAll] else [])
  }

  /** New interests are added to the remaining ones. */
  function MergeInterests(s: Interests, more: Interests): Interests {
    map ns | ns in s.Keys + more.Keys :: InterestsIn(s, ns) + InterestsIn(more, ns)
  }

  // ---------- one step ----------

  ghost predicate NoEmptySet(s: Interests) { forall ns :: ns in s ==> s[ns] != {} }

  ghost predicate AllInhabited(s: Interests) { forall ns, x :: ns in s && x in s[ns] ==> Inhabited(x) }

  lemma {:induction false} IncludedIntersects(area: Area, x: Area)
    requires AreaIncludesArea(area, x) && Inhabited(x)
    ensures AreaIntersection(x, area).Some?
  {}

  /** Reconciling an area drops exactly the interests it includes if and only if it meets an
      interest or includes none; interests with a time in them always qualify. */
  lemma {:induction false} CompleteAreaExact(s: Interests, ns: NamespaceId, area: Area)
    ensures (forall x :: x in InterestsIn(CompleteArea(s, ns, area), ns) <==> x in InterestsIn(s, ns) && !AreaIncludesArea(area, x))
            <==> MatchesArea(s, ns, area) || forall x :: x in InterestsIn(s, ns) ==> !AreaIncludesArea(area, x)
    ensures forall o :: o != ns ==> InterestsIn(CompleteArea(s, ns, area), o) == InterestsIn(s, o)
    ensures AllInhabited(s) ==> MatchesArea(s, ns, area) || forall x :: x in InterestsIn(s, ns) ==> !AreaIncludesArea(area, x)
    ensures NoEmptySet(s) ==> NoEmptySet(CompleteArea(s, ns, area))
    ensures AllInhabited(s) ==> AllInhabited(CompleteArea(s, ns, area))
  {
    hide AreaIncludesArea, AreaIntersection, Inhabited;
    if AllInhabited(s) {
      forall x | x in InterestsIn(s, ns) && AreaIncludesArea(area, x) ensures MatchesArea(s, ns, area) {
        IncludedIntersects(area, x);
      }
    }
  }

  /** An interest without a time in it can be included and still remain. */
  lemma {:induction false} EmptyInterestRemains() returns (s: Interests, ns: NamespaceId, area: Area, x: Area)
    ensures x in InterestsIn(s, ns) && AreaIncludesArea(area, x) && CompleteArea(s, ns, area) == s
  {
    ns := [];
    x := Area(AnySubspace, [], Range(5, Closed(5)));
    area := Area(AnySubspace, [], Range(0, Open));
    s := map[ns := {x}];
    assert AreaIntersection(x, area).None?;
  }

  function CountAll(sent: seq<EventKind>): nat {
    if sent == [] then 0 else CountAll(sent[..|sent| - 1]) + if sent[|sent| - 1].ReconciledAll? then 1 else 0
  }

  lemma {:induction false} CountAllConcat(a: seq<EventKind>, b: seq<EventKind>)
    ensures CountAll(a + b) == CountAll(a) + CountAll(b)
  {
    if b == [] {
      assert a + b == a;
    } else {
      assert (a + b)[..|a + b| - 1] == a + b[..|b| - 1];
      CountAllConcat(a, b[..|b| - 1]);
    }
  }

  /** ReconciledAll is sent exactly once each time the interests become empty, and at no other time. */
  lemma {:induction false} ReconciledAllExact(i: IntentInfo, e: EventKind)
    requires NoEmptySet(i.interests) && !e.ReconciledAll?
    ensures var after := HandleEvent(i, e);
            CountAll(after.sent) == CountAll(i.sent)
              + if i.interests != map[] && after.interests == map[] then 1 else 0
  {
    var after := HandleEvent(i, e);
    if Concerns(i, e) {
      var more := [e] + if e.Reconciled? && after.interests == map[] then [ReconciledAll] else [];
      assert i.sent + [e] + (if e.Reconciled? && after.interests == map[] then [ReconciledAll] else []) == i.sent + more;
      CountAllConcat(i.sent, more);
      OneOrTwo(e);
    }
  }

  lemma {:induction false} OneOrTwo(e: EventKind)
    requires !e.ReconciledAll?
    ensures CountAll([e] + []) == 0 && CountAll([e] + [ReconciledAll]) == 1
  {}

  // ---------- one intent's history ----------

  /** What happens to an intent: an area is reconciled, interests are added, another event is emitted,
      or it is closed. */
  datatype IntentOp =
    | Reconcile(namespace: NamespaceId, area: Area)
    | Merge(more: Interests)
    | Hear(event: EventKind)
    | Close

  function IntentStep(s: Interests, op: IntentOp): Interests {
    match op
    case Reconcile(ns, area) => CompleteArea(s, ns, area)
    case Merge(more) => MergeInterests(s, more)
    case Hear(_) => s
    case Close => s
  }

  function IntentRun(s: Interests, ops: seq<IntentOp>): Interests {
    if ops == [] then s else IntentStep(IntentRun(s, ops[..|ops| - 1]), ops[|ops| - 1])
  }

  predicate Drops(op: IntentOp, ns: NamespaceId, x: Area) {
    op.Reconcile? && op.namespace == ns && AreaIncludesArea(op.area, x)
  }

  ghost predicate KeptBy(ops: seq<IntentOp>, ns: NamespaceId, x: Area) {
    forall i :: 0 <= i < |ops| ==> !Drops(ops[i], ns, x)
  }

  predicate Adds(op: IntentOp, ns: NamespaceId, x: Area) { op.Merge? && x in InterestsIn(op.more, ns) }

  /** `x` was there at the start or added later, and no area reconciled since then includes it. */
  ghost predicate Remains(s: Interests, ops: seq<IntentOp>, ns: NamespaceId, x: Area) {
    || (x in InterestsIn(s, ns) && KeptBy(ops, ns, x))
    || exists k :: AddedAt(ops, k, ns, x)
  }

  ghost predicate AddedAt(ops: seq<IntentOp>, k: int, ns: NamespaceId, x: Area) {
    0 <= k < |ops| && Adds(ops[k], ns, x) && KeptBy(ops[k + 1..], ns, x)
  }

  ghost predicate GoodOps(ops: seq<IntentOp>) {
    forall i :: 0 <= i < |ops| && ops[i].Merge? ==> NoEmptySet(ops[i].more) && AllInhabited(ops[i].more)
  }

  lemma {:induction false} RemainsSnoc(s: Interests, ops: seq<IntentOp>, op: IntentOp, ns: NamespaceId, x: Area)
    ensures Remains(s, ops + [op], ns, x) <==> Adds(op, ns, x) || (Remains(s, ops, ns, x) && !Drops(op, ns, x))
  {
    var all := ops + [op];
    KeptSnoc(ops, op, ns, x);
    hide Drops, Adds, KeptBy, AddedAt;
    forall k ensures AddedAt(all, k, ns, x) <==> (AddedAt(ops, k, ns, x) && !Drops(op, ns, x)) || (k == |ops| && Adds(op, ns, x)) {
      AddedSnoc(ops, op, k, ns, x);
    }
    if Adds(op, ns, x) { assert AddedAt(all, |ops|, ns, x) && !Drops(op, ns, x) by { AddsKeeps(op, ns, x); } }
  }

  lemma {:induction false} AddsKeeps(op: IntentOp, ns: NamespaceId, x: Area)
    requires Adds(op, ns, x)
    ensures !Drops(op, ns, x)
  {}

  lemma {:induction false} AddedSnoc(ops: seq<IntentOp>, op: IntentOp, k: int, ns: NamespaceId, x: Area)
    ensures AddedAt(ops + [op], k, ns, x)
            <==> (AddedAt(ops, k, ns, x) && !Drops(op, ns, x)) || (k == |ops| && Adds(op, ns, x))
  {
    var all := ops + [op];
    hide Drops, Adds, KeptBy;
    if 0 <= k < |ops| {
      assert all[k] == ops[k] && all[k + 1..] == ops[k + 1..] + [op];
      KeptSnoc(ops[k + 1..], op, ns, x);
    } else if k == |ops| {
      assert all[k] == op && all[k + 1..] == [];
      assert KeptBy([], ns, x) by { KeptByNone(ns, x); }
    }
  }

  lemma {:induction false} KeptByNone(ns: NamespaceId, x: Area)
    ensures KeptBy([], ns, x)
  {}

  lemma {:induction false} KeptSnoc(ops: seq<IntentOp>, op: IntentOp, ns: NamespaceId, x: Area)
    ensures KeptBy(ops + [op], ns, x) <==> KeptBy(ops, ns, x) && !Drops(op, ns, x)
  {
    hide Drops;
    var all := ops + [op];
    assert all[|ops|] == op;
    assert forall i :: 0 <= i < |ops| ==> all[i] == ops[i];
  }

  /** Whatever the order of reconciled areas and added interests, the remaining interests are
      exactly those that no single area reconciled since they were added includes. */
  lemma {:induction false} RemainingExact(s: Interests, ops: seq<IntentOp>, ns: NamespaceId, x: Area)
    requires NoEmptySet(s) && AllInhabited(s) && GoodOps(ops)
    ensures x in InterestsIn(IntentRun(s, ops), ns) <==> Remains(s, ops, ns, x)
    ensures NoEmptySet(IntentRun(s, ops)) && AllInhabited(IntentRun(s, ops))
  {
    if ops != [] {
      var n := |ops| - 1;
      assert GoodOps(ops[..n]);
      RemainingExact(s, ops[..n], ns, x);
      var before := IntentRun(s, ops[..n]);
      assert ops == ops[..n] + [ops[n]];
      RemainsSnoc(s, ops[..n], ops[n], ns, x);
      hide Remains, AreaIncludesArea, Inhabited;
      match ops[n] {
        case Reconcile(o, area) => CompleteAreaExact(before, o, area);
        case Merge(more) => assert ops[n].Merge?;
        case Hear(_) =>
        case Close =>
      }
    }
  }

  // ---------- what the intent is told ----------

  ghost predicate Interested(s: Interests, ops: seq<IntentOp>, ns: NamespaceId) {
    exists x :: Remains(s, ops, ns, x)
  }

  ghost predicate Meets(s: Interests, ops: seq<IntentOp>, ns: NamespaceId, area: Area) {
    exists x :: Remains(s, ops, ns, x) && AreaIntersection(x, area).Some?
  }

  ghost predicate NothingLeft(s: Interests, ops: seq<IntentOp>) {
    forall ns, x :: !Remains(s, ops, ns, x)
  }

  /** What is to be told of one more thing happening after `ops`, unless the intent was closed: reconciled
      areas and interest intersections that meet a remaining interest, capability intersections of a
      namespace with remaining interests, and every abort while the intent is live or has interests left;
      and that all is reconciled, when the area was the last thing waited for. */
  ghost function News(s: Interests, live: bool, ops: seq<IntentOp>, op: IntentOp): seq<EventKind> {
    if Close in ops then []
    else
      match op
      case Reconcile(ns, area) =>
        if !Meets(s, ops, ns, area) then []
        else [Reconciled(ns, area)] + if NothingLeft(s, ops + [op]) then [ReconciledAll] else []
      case Hear(CapabilityIntersection(ns, area)) => if Interested(s, ops, ns) then [CapabilityIntersection(ns, area)] else []
      case Hear(InterestIntersection(ns, area)) => if Meets(s, ops, ns, area) then [InterestIntersection(ns, area)] else []
      case Hear(Abort) => if live || !NothingLeft(s, ops) then [Abort] else []
      case _ => []
  }

  ghost function AllNews(s: Interests, live: bool, ops: seq<IntentOp>): seq<EventKind> {
    if ops == [] then []
    else
      var n := |ops| - 1;
      AllNews(s, live, ops[..n]) + News(s, live, ops[..n], ops[n])
  }

  lemma {:induction false} AllNewsSnoc(s: Interests, live: bool, ops: seq<IntentOp>, op: IntentOp)
    ensures AllNews(s, live, ops + [op]) == AllNews(s, live, ops) + News(s, live, ops, op)
  {
    assert (ops + [op])[..|ops|] == ops;
  }

  ghost predicate GoodStart(s: Interests, ops: seq<IntentOp>) {
    NoEmptySet(s) && AllInhabited(s) && GoodOps(ops)
  }

  /** The remaining interests, read off the history. */
  lemma {:induction false} RemainingRead(s: Interests, ops: seq<IntentOp>)
    requires GoodStart(s, ops)
    ensures forall ns, x :: x in InterestsIn(IntentRun(s, ops), ns) <==> Remains(s, ops, ns, x)
    ensures NoEmptySet(IntentRun(s, ops))
    ensures forall ns :: ns in IntentRun(s, ops) <==> Interested(s, ops, ns)
    ensures forall ns, area :: MatchesArea(IntentRun(s, ops), ns, area) <==> Meets(s, ops, ns, area)
    ensures IntentRun(s, ops) == map[] <==> NothingLeft(s, ops)
  {
    hide IntentRun, Remains, AllInhabited, GoodOps, AreaIntersection;
    forall ns, x ensures x in InterestsIn(IntentRun(s, ops), ns) <==> Remains(s, ops, ns, x) { RemainingExact(s, ops, ns, x); }
    RemainingExact(s, ops, [], Area(AnySubspace, [], Range(0, Open)));
    var left := IntentRun(s, ops);
    forall ns ensures ns in left <==> Interested(s, ops, ns) {
      if ns in left {
        var x :| x in left[ns];
        assert x in InterestsIn(left, ns);
      }
    }
    if left != map[] {
      var ns :| ns in left;
      assert Interested(s, ops, ns);
    }
  }

  function OpOf(e: EventKind): IntentOp { if e.Reconciled? then Reconcile(e.namespace, e.area) else Hear(e) }

  lemma {:induction false} ReconciledTells(i: IntentInfo, s: Interests, live: bool, ops: seq<IntentOp>, ns: NamespaceId, area: Area)
    requires Close !in ops
    requires MatchesArea(i.interests, ns, area) <==> Meets(s, ops, ns, area)
    requires CompleteArea(i.interests, ns, area) == map[] <==> NothingLeft(s, ops + [Reconcile(ns, area)])
    ensures HandleEvent(i, Reconciled(ns, area)).sent == i.sent + News(s, live, ops, Reconcile(ns, area))
  {
    hide Meets, NothingLeft, MatchesArea, CompleteArea;
    var rest := if CompleteArea(i.interests, ns, area) == map[] then [ReconciledAll] else [];
    assert i.sent + [Reconciled(ns, area)] + rest == i.sent + ([Reconciled(ns, area)] + rest);
    assert i.sent + [] == i.sent;
  }

  lemma {:induction false} OtherTells(i: IntentInfo, s: Interests, live: bool, ops: seq<IntentOp>, e: EventKind)
    requires Close !in ops && !e.Reconciled?
    requires e.CapabilityIntersection? ==> (e.namespace in i.interests <==> Interested(s, ops, e.namespace))
    requires e.InterestIntersection? ==> (MatchesArea(i.interests, e.namespace, e.area) <==> Meets(s, ops, e.namespace, e.area))
    requires e.Abort? ==> live || !NothingLeft(s, ops)
    ensures HandleEvent(i, e).sent == i.sent + News(s, live, ops, Hear(e))
  {
    hide Meets, NothingLeft, MatchesArea, Interested;
    assert i.sent + [] == i.sent;
    assert i.sent + [e] + [] == i.sent + [e];
  }

  lemma {:induction false} RunLater(s: Interests, ops: seq<IntentOp>, op: IntentOp)
    ensures IntentRun(s, ops + [op]) == IntentStep(IntentRun(s, ops), op)
  {
    assert (ops + [op])[..|ops|] == ops;
  }

  lemma {:induction false} GoodLater(s: Interests, ops: seq<IntentOp>, op: IntentOp)
    requires GoodStart(s, ops) && !op.Merge?
    ensures GoodStart(s, ops + [op])
  {
    hide NoEmptySet, AllInhabited;
  }

  /** Handling one event tells the intent exactly its news. */
  lemma {:induction false} HandleTellsNews(i: IntentInfo, s: Interests, live: bool, ops: seq<IntentOp>, e: EventKind)
    requires GoodStart(s, ops) && i.interests == IntentRun(s, ops) && Close !in ops
    requires live || i.interests != map[] || e.Reconciled?
    ensures HandleEvent(i, e).sent == i.sent + News(s, live, ops, OpOf(e))
  {
    hide IntentRun, Interested, Meets, NothingLeft, MatchesArea, CompleteArea, GoodStart, News, HandleEvent, InterestsIn, Remains, NoEmptySet;
    RemainingRead(s, ops);
    if e.Reconciled? {
      GoodLater(s, ops, OpOf(e));
      RemainingRead(s, ops + [OpOf(e)]);
      RunLater(s, ops, OpOf(e));
      ReconciledTells(i, s, live, ops, e.namespace, e.area);
      assert e == Reconciled(e.namespace, e.area);
    } else {
      OtherTells(i, s, live, ops, e);
    }
  }
}
