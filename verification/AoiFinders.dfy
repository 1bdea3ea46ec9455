/** Areas of interest bound by both peers: every overlapping pair is emitted exactly once, and
    the two peers end with the same targets, each under its own handles. */
module AoiFinders {
  import opened Orders
  import opened Entries
  import opened Ranges
  import opened Areas
  import opened Fingerprints
  import opened Wire
  import opened Reconciler
  import opened Session
  import opened Knowledge
  import opened Resources

  datatype AoiInfo = AoiInfo(area: Area, namespace: NamespaceId)

  datatype AoiIntersection = AoiIntersection(id: TargetId, area: Area, namespace: NamespaceId)

  /** The area two bound interests share, if any. */
  function Overlap(a: AoiInfo, b: AoiInfo): Option<Area> {
    if a.namespace != b.namespace then None else AreaIntersection(a.area, b.area)
  }

  /** One peer's bound areas of interest, its own and the other's, and what it has emitted. */
  datatype AoiPeer = AoiPeer(ours: seq<AoiInfo>, theirs: seq<AoiInfo>, emitted: seq<AoiIntersection>)

  function EmittedByOurs(i: nat, info: AoiInfo, theirs: seq<AoiInfo>): seq<AoiIntersection> {
    if theirs == [] then []
    else
      var n := |theirs| - 1;
      var shared := Overlap(theirs[n], info);
      EmittedByOurs(i, info, theirs[..n])
      + if shared.Some? then [AoiIntersection(TargetId(i, n), shared.value, info.namespace)] else []
  }

  function EmittedByTheirs(j: nat, info: AoiInfo, ours: seq<AoiInfo>): seq<AoiIntersection> {
    if ours == [] then []
    else
      var n := |ours| - 1;
      var shared := Overlap(ours[n], info);
      EmittedByTheirs(j, info, ours[..n])
      + if shared.Some? then [AoiIntersection(TargetId(n, j), shared.value, info.namespace)] else []
  }

  function BindOurs(p: AoiPeer, info: AoiInfo): AoiPeer {
    p.(ours := p.ours + [info], emitted := p.emitted + EmittedByOurs(|p.ours|, info, p.theirs))
  }

  function BindTheirs(p: AoiPeer, info: AoiInfo): AoiPeer {
    p.(theirs := p.theirs + [info], emitted := p.emitted + EmittedByTheirs(|p.theirs|, info, p.ours))
  }

  // ---------- exactly once ----------

  function Times(emitted: seq<AoiIntersection>, id: TargetId): nat {
    if emitted == [] then 0
    else Times(emitted[..|emitted| - 1], id) + if emitted[|emitted| - 1].id == id then 1 else 0
  }

  lemma {:induction false} TimesConcat(a: seq<AoiIntersection>, b: seq<AoiIntersection>, id: TargetId)
    ensures Times(a + b, id) == Times(a, id) + Times(b, id)
  {
    if b == [] {
      assert a + b == a;
    } else {
      assert (a + b)[..|a + b| - 1] == a + b[..|b| - 1];
      TimesConcat(a, b[..|b| - 1], id);
    }
  }

  lemma {:induction false} TimesSnoc(a: seq<AoiIntersection>, x: AoiIntersection, id: TargetId)
    ensures Times(a + [x], id) == Times(a, id) + if x.id == id then 1 else 0
  {}

  predicate IsPair(p: AoiPeer, id: TargetId) {
    id.ours < |p.ours| && id.theirs < |p.theirs| && Overlap(p.ours[id.ours], p.theirs[id.theirs]).Some?
  }

  /** Every overlapping pair has been emitted exactly once, and nothing else; each with the
      shared area. */
  ghost predicate EmittedOk(p: AoiPeer) {
    && (forall id :: Times(p.emitted, id) == if IsPair(p, id) then 1 else 0)
    && (forall x :: x in p.emitted ==> IsPair(p, x.id) && x == EmittedFor(p, x.id))
  }

  function EmittedFor(p: AoiPeer, id: TargetId): AoiIntersection
    requires IsPair(p, id)
  {
    AoiIntersection(id, Overlap(p.ours[id.ours], p.theirs[id.theirs]).value, p.ours[id.ours].namespace)
  }

  lemma {:induction false} OverlapSymmetric(a: AoiInfo, b: AoiInfo)
    ensures Overlap(a, b) == Overlap(b, a)
  {
    if a.namespace == b.namespace {
      var e := Entry([], [], [], 0, [], 0);
      AreaIntersectionExact(a.area, b.area, e);
    }
  }

  lemma {:induction false} ByOursMembers(i: nat, info: AoiInfo, theirs: seq<AoiInfo>)
    ensures forall x :: x in EmittedByOurs(i, info, theirs) ==>
              && x.id.ours == i && x.id.theirs < |theirs|
              && Overlap(info, theirs[x.id.theirs]) == Some(x.area) && x.namespace == info.namespace
  {
    if theirs != [] {
      var n := |theirs| - 1;
      ByOursMembers(i, info, theirs[..n]);
      OverlapSymmetric(theirs[n], info);
      hide Overlap;
    }
  }

  lemma {:induction false} ByOursTimes(i: nat, info: AoiInfo, theirs: seq<AoiInfo>, id: TargetId)
    ensures Times(EmittedByOurs(i, info, theirs), id)
            == if id.ours == i && id.theirs < |theirs| && Overlap(info, theirs[id.theirs]).Some? then 1 else 0
  {
    if theirs != [] {
      var n := |theirs| - 1;
      ByOursTimes(i, info, theirs[..n], id);
      OverlapSymmetric(theirs[n], info);
      hide Overlap, Times;
      var before := EmittedByOurs(i, info, theirs[..n]);
      if Overlap(theirs[n], info).Some? {
        TimesSnoc(before, AoiIntersection(TargetId(i, n), Overlap(theirs[n], info).value, info.namespace), id);
      } else {
        assert before + [] == before;
      }
    }
  }

  lemma {:induction false} ByTheirsMembers(j: nat, info: AoiInfo, ours: seq<AoiInfo>)
    ensures forall x :: x in EmittedByTheirs(j, info, ours) ==>
              && x.id.theirs == j && x.id.ours < |ours|
              && Overlap(ours[x.id.ours], info) == Some(x.area) && x.namespace == info.namespace
  {
    if ours != [] {
      var n := |ours| - 1;
      ByTheirsMembers(j, info, ours[..n]);
      OverlapSymmetric(ours[n], info);
      hide Overlap;
    }
  }

  lemma {:induction false} ByTheirsTimes(j: nat, info: AoiInfo, ours: seq<AoiInfo>, id: TargetId)
    ensures Times(EmittedByTheirs(j, info, ours), id)
            == if id.theirs == j && id.ours < |ours| && Overlap(ours[id.ours], info).Some? then 1 else 0
  {
    if ours != [] {
      var n := |ours| - 1;
      ByTheirsTimes(j, info, ours[..n], id);
      OverlapSymmetric(ours[n], info);
      hide Overlap, Times;
      var before := EmittedByTheirs(j, info, ours[..n]);
      if Overlap(ours[n], info).Some? {
        TimesSnoc(before, AoiIntersection(TargetId(n, j), Overlap(ours[n], info).value, info.namespace), id);
      } else {
        assert before + [] == before;
      }
    }
  }

  lemma {:induction false} BindOursKeeps(p: AoiPeer, info: AoiInfo)
    requires EmittedOk(p)
    ensures EmittedOk(BindOurs(p, info))
  {
    var q := BindOurs(p, info);
    var more := EmittedByOurs(|p.ours|, info, p.theirs);
    hide Overlap, Times, EmittedByOurs;
    forall id ensures Times(q.emitted, id) == if IsPair(q, id) then 1 else 0 {
      ByOursTimes(|p.ours|, info, p.theirs, id);
      TimesConcat(p.emitted, more, id);
    }
    forall x | x in q.emitted ensures IsPair(q, x.id) && x == EmittedFor(q, x.id) {
      ByOursMembers(|p.ours|, info, p.theirs);
    }
  }

  lemma {:induction false} BindTheirsKeeps(p: AoiPeer, info: AoiInfo)
    requires EmittedOk(p)
    ensures EmittedOk(BindTheirs(p, info))
  {
    var q := BindTheirs(p, info);
    var more := EmittedByTheirs(|p.theirs|, info, p.ours);
    assert forall i :: 0 <= i < |p.ours| ==> Overlap(p.ours[i], info).Some? ==> p.ours[i].namespace == info.namespace;
    hide Overlap, Times, EmittedByTheirs;
    forall id ensures Times(q.emitted, id) == if IsPair(q, id) then 1 else 0 {
      ByTheirsTimes(|p.theirs|, info, p.ours, id);
      TimesConcat(p.emitted, more, id);
    }
    forall x | x in q.emitted ensures IsPair(q, x.id) && x == EmittedFor(q, x.id) {
      ByTheirsMembers(|p.theirs|, info, p.ours);
    }
  }

  // ---------- two peers ----------

  /** The areas each peer has bound and sent travel in order. */
  datatype AoiView = AoiView(me: AoiPeer, you: AoiPeer, out: seq<AoiInfo>, inn: seq<AoiInfo>)

  function FlipAoi(v: AoiView): AoiView { AoiView(v.you, v.me, v.inn, v.out) }

  datatype AoiStep = AddInterest(info: AoiInfo) | DeliverInterest

  predicate AoiEnabled(v: AoiView, s: AoiStep) { s.DeliverInterest? ==> v.inn != [] }

  function AoiApply(v: AoiView, s: AoiStep): AoiView
    requires AoiEnabled(v, s)
  {
    match s
    case AddInterest(info) => v.(me := BindOurs(v.me, info), out := v.out + [info])
    case DeliverInterest => v.(me := BindTheirs(v.me, v.inn[0]), inn := v.inn[1..])
  }

  ghost predicate AoiInv(v: AoiView) {
    && EmittedOk(v.me) && EmittedOk(v.you)
    && v.you.theirs + v.out == v.me.ours
    && v.me.theirs + v.inn == v.you.ours
  }

  lemma {:induction false} AoiStepKeeps(v: AoiView, s: AoiStep)
    requires AoiInv(v) && AoiEnabled(v, s)
    ensures AoiInv(AoiApply(v, s))
  {
    hide EmittedOk;
    match s {
      case AddInterest(info) =>
        BindOursKeeps(v.me, info);
        assert v.you.theirs + (v.out + [info]) == (v.you.theirs + v.out) + [info];
      case DeliverInterest =>
        BindTheirsKeeps(v.me, v.inn[0]);
        assert (v.me.theirs + [v.inn[0]]) + v.inn[1..] == v.me.theirs + v.inn;
    }
  }

  datatype AoiMove = MineAoi(step: AoiStep) | YoursAoi(step: AoiStep)

  predicate CanMoveAoi(v: AoiView, m: AoiMove) {
    match m
    case MineAoi(s) => AoiEnabled(v, s)
    case YoursAoi(s) => AoiEnabled(FlipAoi(v), s)
  }

  function MoveAoi(v: AoiView, m: AoiMove): AoiView
    requires CanMoveAoi(v, m)
  {
    match m
    case MineAoi(s) => AoiApply(v, s)
    case YoursAoi(s) => FlipAoi(AoiApply(FlipAoi(v), s))
  }

  const NoAois: AoiPeer := AoiPeer([], [], [])

  ghost predicate AoiRun(states: seq<AoiView>, moves: seq<AoiMove>) {
    && |states| == |moves| + 1
    && states[0] == AoiView(NoAois, NoAois, [], [])
    && forall i :: 0 <= i < |moves| ==> CanMoveAoi(states[i], moves[i]) && MoveAoi(states[i], moves[i]) == states[i + 1]
  }

  /** Over any interleaving of binds and deliveries, each overlapping pair both peers have bound
      has been emitted exactly once by each. */
  lemma {:induction false} AoiRunInvariant(states: seq<AoiView>, moves: seq<AoiMove>, i: nat)
    requires AoiRun(states, moves) && i < |states|
    ensures AoiInv(states[i])
  {
    if i > 0 {
      AoiRunInvariant(states, moves, i - 1);
      var v, m := states[i - 1], moves[i - 1];
      hide EmittedOk, AoiApply;
      match m {
        case MineAoi(s) => AoiStepKeeps(v, s);
        case YoursAoi(s) => AoiStepKeeps(FlipAoi(v), s);
      }
    }
  }

  /** After all binds are delivered, the two peers have emitted mirror images of each other. */
  lemma {:induction false} MirrorImages(v: AoiView, id: TargetId)
    requires AoiInv(v) && v.out == [] && v.inn == []
    ensures Times(v.me.emitted, id) == Times(v.you.emitted, Mirror(id)) <= 1
    ensures IsPair(v.me, id) <==> IsPair(v.you, Mirror(id))
    ensures IsPair(v.me, id) ==>
              && EmittedFor(v.you, Mirror(id)).area == EmittedFor(v.me, id).area
              && EmittedFor(v.you, Mirror(id)).namespace == EmittedFor(v.me, id).namespace
  {
    assert v.you.theirs == v.me.ours && v.me.theirs == v.you.ours;
    assert Times(v.me.emitted, id) == if IsPair(v.me, id) then 1 else 0;
    assert Times(v.you.emitted, Mirror(id)) == if IsPair(v.you, Mirror(id)) then 1 else 0;
    if id.ours < |v.me.ours| && id.theirs < |v.me.theirs| {
      OverlapSymmetric(v.me.ours[id.ours], v.me.theirs[id.theirs]);
    }
  }

  // ---------- what the reconciler starts from ----------

  /** The scopes of a peer's targets: the emitted areas as ranges of their namespace. */
  function ScopesOf(next: Path -> Option<Path>, p: AoiPeer): map<TargetId, Scope> {
    map i: nat, j: nat | i < |p.ours| && j < |p.theirs| && IsPair(p, TargetId(i, j)) ::
      TargetId(i, j) := Scope(EmittedFor(p, TargetId(i, j)).namespace, ToRange(next, EmittedFor(p, TargetId(i, j)).area))
  }

  lemma {:induction false} ScopesOfExact(next: Path -> Option<Path>, p: AoiPeer, id: TargetId)
    ensures id in ScopesOf(next, p) <==> IsPair(p, id)
    ensures IsPair(p, id) ==>
              ScopesOf(next, p)[id] == Scope(EmittedFor(p, id).namespace, ToRange(next, EmittedFor(p, id).area))
  {}

  /** Two peers whose binds have all been delivered agree on the shared areas: exactly what the
      reconciliation session assumes of its setup. */
  lemma {:induction false} SetupAgrees(next: Path -> Option<Path>, v: AoiView, lift: Lift, mine0: set<Entry>, yours0: set<Entry>)
    requires AoiInv(v) && v.out == [] && v.inn == []
    ensures ScopesOk(Setup(lift, mine0, yours0, ScopesOf(next, v.me), ScopesOf(next, v.you), {}, {}))
  {
    hide AoiInv, Overlap, ScopesOf, EmittedFor, IsPair, ToRange, Times;
    forall id
      ensures id in ScopesOf(next, v.me) ==> Mirror(id) in ScopesOf(next, v.you)
      ensures id in ScopesOf(next, v.me) ==> ScopesOf(next, v.you)[Mirror(id)] == ScopesOf(next, v.me)[id]
    {
      MirrorImages(v, id);
      ScopesOfExact(next, v.me, id);
      ScopesOfExact(next, v.you, Mirror(id));
    }
    forall id
      ensures id in ScopesOf(next, v.you) ==> Mirror(id) in ScopesOf(next, v.me)
      ensures id in ScopesOf(next, v.you) ==> ScopesOf(next, v.me)[Mirror(id)] == ScopesOf(next, v.you)[id]
    {
      assert Mirror(Mirror(id)) == id;
      MirrorImages(v, Mirror(id));
      ScopesOfExact(next, v.you, id);
      ScopesOfExact(next, v.me, Mirror(id));
    }
  }

  /** What a target reconciles: exactly the entries of its namespace in both peers' areas of interest. */
  lemma {:induction false} ScopeIsOverlap(next: Path -> Option<Path>, p: AoiPeer, id: TargetId, e: Entry)
    requires SkipsPrefixed(next) && IsPair(p, id)
    requires |e.subspace| == SUBSPACE_LENGTH
    requires p.ours[id.ours].area.subspace.Id? ==> |p.ours[id.ours].area.subspace.id| == SUBSPACE_LENGTH
    requires p.theirs[id.theirs].area.subspace.Id? ==> |p.theirs[id.theirs].area.subspace.id| == SUBSPACE_LENGTH
    ensures id in ScopesOf(next, p)
    ensures InScope(ScopesOf(next, p)[id], e) <==>
              && e.namespace == p.ours[id.ours].namespace == p.theirs[id.theirs].namespace
              && AreaIncludesEntry(p.ours[id.ours].area, e) && AreaIncludesEntry(p.theirs[id.theirs].area, e)
  {
    ScopesOfExact(next, p, id);
    AreaIntersectionExact(p.ours[id.ours].area, p.theirs[id.theirs].area, e);
    var area := EmittedFor(p, id).area;
    assert area.subspace.Id? ==> |area.subspace.id| == SUBSPACE_LENGTH;
    ToRangeExact(next, area, e);
    hide ScopesOf, ToRange, AreaIncludesEntry, IncludesEntry, SkipsPrefixed;
  }

  // ---------- the imperative form ----------

  class AoiResources {
    const ourHandles: ResourceMap<AoiInfo>
    const theirHandles: ResourceMap<AoiInfo>
    var emitted: seq<AoiIntersection>

    constructor ()
      ensures Valid() && Value() == NoAois && fresh(ourHandles) && fresh(theirHandles)
    {
      ourHandles := new ResourceMap();
      theirHandles := new ResourceMap();
      emitted := [];
    }

    ghost predicate Valid()
      reads this, ourHandles, theirHandles
    {
      ourHandles != theirHandles && ourHandles.Valid() && theirHandles.Valid()
    }

    ghost function Value(): AoiPeer
      requires Valid()
      reads this, ourHandles, theirHandles
    {
      AoiPeer(ourHandles.Bound(), theirHandles.Bound(), emitted)
    }

    method BindValidated(scopeOurs: bool, info: AoiInfo)
      requires Valid()
      modifies this, if scopeOurs then ourHandles else theirHandles
      ensures Valid()
      ensures Value() == if scopeOurs then BindOurs(old(Value()), info) else BindTheirs(old(Value()), info)
    {
      hide Overlap;
      var handle;
      var other := theirHandles;
      if scopeOurs {
        handle := ourHandles.Bind(info);
      } else {
        handle := theirHandles.Bind(info);
        other := ourHandles;
      }
      var k := 0;
      while k < other.nextHandle
        invariant 0 <= k <= other.nextHandle && Valid()
        invariant emitted == old(emitted) + if scopeOurs then EmittedByOurs(handle, info, other.Bound()[..k])
                                            else EmittedByTheirs(handle, info, other.Bound()[..k])
        modifies this
      {
        var candidate := other.resources[k];
        assert candidate == other.Bound()[k];
        assert other.Bound()[..k + 1][..k] == other.Bound()[..k];
        var shared := Overlap(candidate, info);
        if shared.Some? {
          var id := if scopeOurs then TargetId(handle, k) else TargetId(k, handle);
          emitted := emitted + [AoiIntersection(id, shared.value, info.namespace)];
        }
        k := k + 1;
      }
      assert other.Bound()[..k] == other.Bound();
    }
  }
}
