/** When the hash tells two peers apart: it is enough that it does so on the entries in which
    their stores differ at the start, however many they share. */
module Hashing {
  import opened Orders
  import opened Entries
  import opened Ranges
  import opened MemoryStore
  import opened Fingerprints
  import opened Replicas
  import opened Wire
  import opened Reconciler
  import opened Session
  import opened Knowledge
  import opened Runs
  import opened Convergence
  import opened Splitting

  function InNamespace(u: set<Entry>, ns: NamespaceId): set<Entry> {
    set e | e in u && e.namespace == ns
  }

  /** No two different subsets of `u` within one namespace share a fingerprint. The hash leaves
      the namespace out, so nothing is assumed across namespaces. */
  ghost predicate CollisionFree(lift: Lift, u: set<Entry>) {
    forall ns, s, t | Distinct(s) && Distinct(t) && ToSet(s) <= InNamespace(u, ns) && ToSet(t) <= InNamespace(u, ns) ::
      FingerprintOf(lift, s) == FingerprintOf(lift, t) ==> ToSet(s) == ToSet(t)
  }

  /** The entries only one of the peers holds at the start. */
  ghost function Difference(c: Setup): set<Entry> { (c.mine0 - c.yours0) + (c.yours0 - c.mine0) }

  // ---------- fingerprints of parts ----------

  function Keep(s: seq<Entry>, u: set<Entry>): seq<Entry> {
    if s == [] then []
    else Keep(s[..|s| - 1], u) + if s[|s| - 1] in u then [s[|s| - 1]] else []
  }

  function Omit(s: seq<Entry>, u: set<Entry>): seq<Entry> {
    if s == [] then []
    else Omit(s[..|s| - 1], u) + if s[|s| - 1] in u then [] else [s[|s| - 1]]
  }

  lemma {:induction false} PartMembers(s: seq<Entry>, u: set<Entry>)
    requires Distinct(s)
    ensures Distinct(Keep(s, u)) && Distinct(Omit(s, u))
    ensures forall x :: x in Keep(s, u) <==> x in s && x in u
    ensures forall x :: x in Omit(s, u) <==> x in s && x !in u
  {
    if s != [] {
      var n := |s| - 1;
      PartMembers(s[..n], u);
      assert s == s[..n] + [s[n]];
    }
  }

  lemma {:induction false} PartsOf(s: seq<Entry>, u: set<Entry>)
    requires Distinct(s)
    ensures Distinct(Keep(s, u)) && Distinct(Omit(s, u))
    ensures ToSet(Keep(s, u)) == ToSet(s) * u
    ensures ToSet(Omit(s, u)) == ToSet(s) - u
  {
    PartMembers(s, u);
    hide Keep, Omit;
  }

  lemma {:induction false} PartsMultiset(s: seq<Entry>, u: set<Entry>)
    ensures multiset(Keep(s, u) + Omit(s, u)) == multiset(s)
  {
    if s != [] {
      var n := |s| - 1;
      PartsMultiset(s[..n], u);
      assert s == s[..n] + [s[n]];
    }
  }

  lemma {:induction false} FingerprintParts(lift: Lift, s: seq<Entry>, u: set<Entry>)
    ensures FingerprintOf(lift, s) == Combine(FingerprintOf(lift, Keep(s, u)), FingerprintOf(lift, Omit(s, u)))
  {
    PartsMultiset(s, u);
    FingerprintOrderIrrelevant(lift, Keep(s, u) + Omit(s, u), s);
    FingerprintConcat(lift, Keep(s, u), Omit(s, u));
  }

  lemma {:induction false} CancelCommon(a: Fingerprint, x: Fingerprint, y: Fingerprint)
    requires Combine(a, x) == Combine(a, y)
    ensures x == y
  {
    hide Combine;
    CombineUnitAndInverse(a);
    CombineAssociates(a, a, x);
    CombineAssociates(a, a, y);
    CombineCommutes(Neutral(), x);
    CombineCommutes(Neutral(), y);
    CombineUnitAndInverse(x);
    CombineUnitAndInverse(y);
  }

  lemma {:induction false} SameMultiset(s: seq<Entry>, t: seq<Entry>)
    requires Distinct(s) && Distinct(t) && ToSet(s) == ToSet(t)
    ensures multiset(s) == multiset(t)
  {
    forall x ensures multiset(s)[x] == multiset(t)[x] {
      CountOnce(s, x);
      CountOnce(t, x);
      assert x in s <==> x in ToSet(s);
      assert x in t <==> x in ToSet(t);
    }
  }

  lemma {:induction false} CountOnce(s: seq<Entry>, x: Entry)
    requires Distinct(s)
    ensures multiset(s)[x] == if x in s then 1 else 0
  {
    if s != [] {
      var n := |s| - 1;
      assert s == s[..n] + [s[n]];
      CountOnce(s[..n], x);
    }
  }

  /** Sequences that agree on `u` and differ only in collision-free entries are told apart. */
  lemma {:induction false} ToldApart(lift: Lift, d: set<Entry>, u: set<Entry>, s: seq<Entry>, t: seq<Entry>, ns: NamespaceId)
    requires CollisionFree(lift, d)
    requires Distinct(s) && Distinct(t) && ToSet(s) * u == ToSet(t) * u
    requires ToSet(s) - u <= InNamespace(d, ns) && ToSet(t) - u <= InNamespace(d, ns)
    requires FingerprintOf(lift, s) == FingerprintOf(lift, t)
    ensures ToSet(s) == ToSet(t)
  {
    hide Keep, Omit, FingerprintOf, Combine, Distinct, InNamespace;
    PartsOf(s, u);
    PartsOf(t, u);
    FingerprintParts(lift, s, u);
    FingerprintParts(lift, t, u);
    SameMultiset(Keep(s, u), Keep(t, u));
    FingerprintOrderIrrelevant(lift, Keep(s, u), Keep(t, u));
    CancelCommon(FingerprintOf(lift, Keep(s, u)), FingerprintOf(lift, Omit(s, u)), FingerprintOf(lift, Omit(t, u)));
    assert ToSet(Omit(s, u)) == ToSet(Omit(t, u));
    hide ToSet, CollisionFree;
    var a, b := ToSet(s), ToSet(t);
    assert a == a * u + (a - u) && b == b * u + (b - u);
  }

  // ---------- common entries stay ----------

  /** What both peers held at the start neither ever loses. */
  lemma {:induction false} CommonStays(c: Setup, store: Replica, e: Entry)
    requires SetupOk(c) && StoreOk(c, store)
    requires e in c.mine0 && e in c.yours0
    ensures e in All(store)
  {
    hide InScopes, Sound, All;
    var d :| d in All(store) && Accounts(d, e);
    assert Admissible(c, d);
  }

  lemma {:induction false} CommonParts(c: Setup, mine: Replica, yours: Replica, ns: NamespaceId, r: Range3d)
    requires SetupOk(c) && StoreOk(c, mine) && StoreOk(FlipSetup(c), yours)
    ensures var u := c.mine0 * c.yours0;
            var s, t := Query(mine, ns, r), Query(yours, ns, r);
            && Distinct(s) && Distinct(t) && ToSet(s) * u == ToSet(t) * u
            && ToSet(s) - u <= InNamespace(Difference(c), ns) && ToSet(t) - u <= InNamespace(Difference(c), ns)
  {
    QueryExact(mine, ns, r);
    QueryExact(yours, ns, r);
    var u := c.mine0 * c.yours0;
    forall e | e in u ensures e in All(mine) && e in All(yours) {
      CommonStays(c, mine, e);
      CommonStays(FlipSetup(c), yours, e);
    }
    OwnEntriesKnown(c, mine, ns, r);
    OwnEntriesKnown(FlipSetup(c), yours, ns, r);
    hide StoreOk, SetupOk, Query, All, IncludesEntry, Distinct;
    var s, t := Query(mine, ns, r), Query(yours, ns, r);
    forall e | e in u ensures e in s <==> e in t {}
    forall e | e in ToSet(s) - u ensures e in InNamespace(Difference(c), ns) { assert e in s; }
    forall e | e in ToSet(t) - u ensures e in InNamespace(Difference(c), ns) { assert e in t; }
  }

  lemma {:induction false} ComparisonNotFooled(c: Setup, mine: Replica, yours: Replica, ns: NamespaceId, r: Range3d, f: Fingerprint)
    requires SetupOk(c) && StoreOk(c, mine) && StoreOk(FlipSetup(c), yours)
    requires CollisionFree(c.lift, Difference(c))
    ensures TellsApart(c.lift, ns, r, f, mine, yours)
  {
    hide StoreOk, SetupOk, Query, CollisionFree, FingerprintOf, Distinct, Difference;
    CommonParts(c, mine, yours, ns, r);
    if FingerprintOf(c.lift, Query(mine, ns, r)) == f == FingerprintOf(c.lift, Query(yours, ns, r)) {
      ToldApart(c.lift, Difference(c), c.mine0 * c.yours0, Query(mine, ns, r), Query(yours, ns, r), ns);
    }
  }

  // ---------- whole runs ----------

  lemma {:induction false} SeenEarlier(c: Setup, states: seq<View>, i: nat, k: nat)
    requires k <= i < |states|
    ensures var b, d := SeenBy(c, states[..k + 1]), SeenBy(c, states[..i + 1]);
            SeesMore(b, d) && SeesMore(FlipSetup(b), FlipSetup(d))
  {
    var early, late := states[..k + 1], states[..i + 1];
    forall l | 0 <= l < |early| ensures early[l] == late[l] {}
    assert SeenBy(c, early).mineSeen <= SeenBy(c, late).mineSeen;
    assert SeenBy(c, early).yoursSeen <= SeenBy(c, late).yoursSeen;
  }

  lemma {:induction false} StoreOkLater(b: Setup, d: Setup, store: Replica)
    requires SeesMore(b, d) && StoreOk(b, store)
    ensures StoreOk(d, store)
  {
    hide Sound, All, InScopes, Knows;
  }

  lemma {:induction false} SetupOkLater(b: Setup, d: Setup)
    requires SeesMore(b, d) && SetupOk(b)
    ensures SetupOk(d)
  {
    hide Undominated;
  }

  lemma {:induction false} CarriedStores(c: Setup, v: View)
    requires CarryInv(c, v)
    ensures SetupOk(c) && StoreOk(c, v.me.store) && StoreOk(FlipSetup(c), v.you.store)
  {
    hide ProtocolInv, SetupOk, StoreOk, CargoOk, FingerprintsOk;
  }

  lemma {:induction false} SeenStoreOk(c: Setup, states: seq<View>, moves: seq<Move>, i: nat, k: nat)
    requires Run(c, states, moves) && k <= i < |states|
    ensures var d := SeenBy(c, states[..i + 1]);
            SetupOk(d) && StoreOk(d, states[k].me.store) && StoreOk(FlipSetup(d), states[k].you.store)
  {
    var b, d := SeenBy(c, states[..k + 1]), SeenBy(c, states[..i + 1]);
    RunInvariant(c, states, moves, k);
    hide *;
    CarriedStores(b, states[k]);
    SeenEarlier(c, states, i, k);
    SetupOkLater(b, d);
    StoreOkLater(b, d, states[k].me.store);
    StoreOkLater(FlipSetup(b), FlipSetup(d), states[k].you.store);
  }

  lemma {:induction false} SeenDifference(c: Setup, states: seq<View>)
    ensures var d := SeenBy(c, states);
            d.lift == c.lift && Difference(d) == Difference(c) && Difference(FlipSetup(d)) == Difference(c)
            && FlipSetup(d).lift == c.lift && FlipSetup(FlipSetup(d)) == d
  {}

  /** My store in one state of a run is told apart from yours in an earlier one, and conversely. */
  lemma {:induction false} StatesToldApart(c: Setup, states: seq<View>, moves: seq<Move>, i: nat, k: nat, ns: NamespaceId, r: Range3d,
                                           f: Fingerprint)
    requires Run(c, states, moves) && k <= i < |states|
    requires CollisionFree(c.lift, Difference(c))
    ensures TellsApart(c.lift, ns, r, f, states[i].me.store, states[k].you.store)
    ensures TellsApart(c.lift, ns, r, f, states[i].you.store, states[k].me.store)
  {
    var d := SeenBy(c, states[..i + 1]);
    SeenStoreOk(c, states, moves, i, i);
    SeenStoreOk(c, states, moves, i, k);
    SeenDifference(c, states[..i + 1]);
    hide *;
    FlipSetupOk(d);
    ComparisonNotFooled(d, states[i].me.store, states[k].you.store, ns, r, f);
    ComparisonNotFooled(FlipSetup(d), states[i].you.store, states[k].me.store, ns, r, f);
  }

  lemma {:induction false} SeenBefore(c: Setup, states: seq<View>, i: nat)
    requires i < |states|
    ensures var d := SeenBy(c, states[..i + 1]);
            && (forall store :: store in d.mineSeen ==> exists k :: 0 <= k <= i && states[k].me.store == store)
            && (forall store :: store in d.yoursSeen ==> exists k :: 0 <= k <= i && states[k].you.store == store)
  {
    var s := states[..i + 1];
    forall k | 0 <= k <= i ensures s[k] == states[k] {}
  }

  ghost predicate AllToldApart(lift: Lift, mine: Replica, seen: set<Replica>) {
    forall store, ns, r, f :: store in seen ==> TellsApart(lift, ns, r, f, mine, store)
  }

  lemma {:induction false} ToldApartNotFooled(c: Setup, v: View)
    requires AllToldApart(c.lift, v.me.store, c.yoursSeen)
    ensures NotFooled(c, v)
  {
    hide TellsApart;
  }

  lemma {:induction false} StateToldApart(c: Setup, states: seq<View>, moves: seq<Move>, i: nat)
    requires Run(c, states, moves) && i < |states|
    requires CollisionFree(c.lift, Difference(c))
    ensures AllToldApart(c.lift, states[i].me.store, SeenBy(c, states[..i + 1]).yoursSeen)
    ensures AllToldApart(c.lift, states[i].you.store, SeenBy(c, states[..i + 1]).mineSeen)
  {
    var d := SeenBy(c, states[..i + 1]);
    SeenBefore(c, states, i);
    hide Run, TellsApart, SeenBy, CollisionFree, Difference;
    forall store, ns, r, f | store in d.yoursSeen ensures TellsApart(c.lift, ns, r, f, states[i].me.store, store) {
      var k :| 0 <= k <= i && states[k].you.store == store;
      StatesToldApart(c, states, moves, i, k, ns, r, f);
    }
    forall store, ns, r, f | store in d.mineSeen ensures TellsApart(c.lift, ns, r, f, states[i].you.store, store) {
      var k :| 0 <= k <= i && states[k].me.store == store;
      StatesToldApart(c, states, moves, i, k, ns, r, f);
    }
  }

  /** If the hash is free of collisions on the entries in which the peers differ at the start, then
      no comparison of any run is fooled, however many entries they have in common. */
  lemma {:induction false} DifferencesDecide(c: Setup, states: seq<View>, moves: seq<Move>)
    requires Run(c, states, moves)
    requires CollisionFree(c.lift, Difference(c))
    ensures Unfooled(c, states)
  {
    hide Run, NotFooled, CollisionFree, SeenBy, Difference, AllToldApart;
    forall i | 0 <= i < |states|
      ensures NotFooled(SeenBy(c, states[..i + 1]), states[i]) && NotFooled(FlipSetup(SeenBy(c, states[..i + 1])), Flip(states[i]))
    {
      StateToldApart(c, states, moves, i);
      SeenDifference(c, states[..i + 1]);
      ToldApartNotFooled(SeenBy(c, states[..i + 1]), states[i]);
      ToldApartNotFooled(FlipSetup(SeenBy(c, states[..i + 1])), Flip(states[i]));
    }
  }

  lemma {:induction false} TwoDiffer(s: seq<Entry>)
    requires Distinct(s)
    ensures |s| < 2 || exists a, b :: a in s && b in s && a != b
  {
    if |s| >= 2 { assert s[0] in s && s[1] in s && s[0] != s[1]; }
  }

  lemma {:induction false} DistinctOfOne(s: seq<Entry>, x: Entry)
    requires Distinct(s) && ToSet(s) <= {x}
    ensures s == [] || s == [x]
  {
    forall y | y in s ensures y == x { assert y in ToSet(s); }
    TwoDiffer(s);
    assert |s| < 2;
    assert s != [] ==> s[0] in s && s == [s[0]];
  }

  /** A single entry is told apart from nothing exactly if its hash is not the neutral one. */
  lemma {:induction false} OneEntryCollisionFree(lift: Lift, x: Entry)
    ensures CollisionFree(lift, {x}) <==> lift(x) != Neutral()
  {
    var one := [x];
    assert one[..0] == [];
    CombineUnitAndInverse(lift(x));
    CombineCommutes(lift(x), Neutral());
    assert FingerprintOf(lift, []) == Neutral() && FingerprintOf(lift, one) == lift(x);
    hide FingerprintOf, Combine;
    if lift(x) != Neutral() {
      forall ns, s, t | Distinct(s) && Distinct(t) && ToSet(s) <= InNamespace({x}, ns) && ToSet(t) <= InNamespace({x}, ns)
        ensures FingerprintOf(lift, s) == FingerprintOf(lift, t) ==> ToSet(s) == ToSet(t)
      {
        DistinctOfOne(s, x);
        DistinctOfOne(t, x);
      }
    } else {
      assert x in ToSet(one) && x !in ToSet([]);
      assert Distinct(one) && ToSet(one) <= InNamespace({x}, x.namespace) && Distinct([]) && ToSet([]) <= InNamespace({x}, x.namespace);
    }
  }

  // ---------- a fooled comparison ----------

  /** One shared area, over which both stores have the same fingerprint. */
  ghost predicate OpensEqual(c: Setup, id: TargetId, scope: Scope, mine: Replica, yours: Replica) {
    && c.mine == map[id := scope] && c.yours == map[Mirror(id) := scope]
    && Sound(mine) && All(mine) == c.mine0 && Sound(yours) && All(yours) == c.yours0
    && FingerprintOf(c.lift, Query(mine, scope.namespace, scope.range))
       == FingerprintOf(c.lift, Query(yours, scope.namespace, scope.range))
  }

  function Before(role: Role, store: Replica, id: TargetId, scope: Scope): Peer {
    Peer(role, store, [Intersection(id, scope)], map[], Idle, map[])
  }

  function During(role: Role, store: Replica, id: TargetId, t: Target): Peer {
    Peer(role, store, [], map[id := t], Idle, map[])
  }

  function After(role: Role, store: Replica, id: TargetId, scope: Scope, ours: nat, theirs: nat): Peer {
    Peer(role, store, [], map[], Idle, map[id := Target(scope, true, {}, ours, theirs)])
  }

  function Opening(c: Setup, id: TargetId, scope: Scope, mine: Replica): Message {
    MsgFingerprint(scope.range, FingerprintOf(c.lift, Query(mine, scope.namespace, scope.range)), id.ours, id.theirs, None)
  }

  function Agreement(id: TargetId, scope: Scope): Message {
    MsgAnnounce(scope.range, true, false, id.theirs, id.ours, Some(0))
  }

  function Opened(scope: Scope): Target { Target(scope, false, {0}, 1, 0) }

  /** I open the area, you take it up and find the fingerprints equal, and both are done. */
  function ShortRun(c: Setup, id: TargetId, scope: Scope, mine: Replica, yours: Replica): seq<View> {
    var live := During(Alfie, mine, id, Opened(scope));
    var yoursDone := After(Betty, yours, Mirror(id), scope, 0, 1);
    [View(Before(Alfie, mine, id, scope), Before(Betty, yours, Mirror(id), scope), [], []),
     View(live, Before(Betty, yours, Mirror(id), scope), [Opening(c, id, scope, mine)], []),
     View(live, During(Betty, yours, Mirror(id), NewTarget(scope)), [Opening(c, id, scope, mine)], []),
     View(live, yoursDone, [], [Agreement(id, scope)]),
     View(After(Alfie, mine, id, scope, 1, 0), yoursDone, [], [])]
  }

  function ShortMoves(): seq<Move> {
    [Mine(StartNext), Yours(StartNext), Yours(Deliver(NoPieces)), Mine(Deliver(NoPieces))]
  }

  function NoPieces(e: Entry): nat { 0 }

  lemma {:induction false} BeforeIsFresh(role: Role, store: Replica, id: TargetId, scope: Scope, own: set<Entry>)
    requires Sound(store) && All(store) == own
    ensures Fresh(Before(role, store, id, scope), own, map[id := scope])
  {
    var p := Before(role, store, id, scope);
    assert p.inbox[0].id == id;
    hide Sound, All;
    assert Waiting(p, id);
  }

  lemma {:induction false} ShortInitial(c: Setup, id: TargetId, scope: Scope, mine: Replica, yours: Replica)
    requires OpensEqual(c, id, scope, mine, yours)
    ensures Initial(c, ShortRun(c, id, scope, mine, yours)[0])
  {
    hide Sound, All, Query, FingerprintOf, Fresh;
    BeforeIsFresh(Alfie, mine, id, scope, c.mine0);
    BeforeIsFresh(Betty, yours, Mirror(id), scope, c.yours0);
    OneScope(c, id, scope);
    hide ScopesOk, Mirror;
  }

  lemma {:induction false} OneScope(c: Setup, id: TargetId, scope: Scope)
    requires c.mine == map[id := scope] && c.yours == map[Mirror(id) := scope]
    ensures ScopesOk(c)
  {
    assert Mirror(Mirror(id)) == id;
  }

  lemma {:induction false} ShortStarts(c: Setup, id: TargetId, scope: Scope, mine: Replica, yours: Replica)
    ensures var s := ShortRun(c, id, scope, mine, yours);
            Follows(c, s[0], ShortMoves()[0], s[1]) && Follows(c, s[1], ShortMoves()[1], s[2])
  {
    hide Query, FingerprintOf, Receive;
    var f := Opening(c, id, scope, mine);
    var p, q := Before(Alfie, mine, id, scope), Before(Betty, yours, Mirror(id), scope);
    assert p.inbox[1..] == [] && q.inbox[1..] == [];
    assert {} + {0} == {0};
    assert Start(c.lift, p) == Reply(During(Alfie, mine, id, Opened(scope)), [f]);
    assert Start(c.lift, q) == Reply(During(Betty, yours, Mirror(id), NewTarget(scope)), []);
    hide Start;
    var s, m := ShortRun(c, id, scope, mine, yours), ShortMoves();
    assert m[0] == Mine(StartNext) && m[1] == Yours(StartNext);
    assert [] + [f] == [f] && s[1].inn + [] == s[1].inn;
    assert MoveBy(c.lift, s[0], Mine(StartNext)) == Some(s[1]);
    assert Apply(c.lift, Flip(s[1]), StartNext) == Some(Flip(s[2]));
  }

  /** Equal fingerprints are answered with a bare announcement. */
  lemma {:induction false} EqualAnswer(lift: Lift, id: TargetId, t: Target, store: Replica, chunks: Entry -> nat, r: Range3d)
    ensures AnswerFingerprint(lift, id, t, store, chunks, r, FingerprintOf(lift, Query(store, t.scope.namespace, r)))
            == Sent(t.(theirCounter := t.theirCounter + 1),
                    [MsgAnnounce(r, true, false, id.ours, id.theirs, Some(t.theirCounter))])
  {
    hide Query, FingerprintOf, SplitRange;
  }

  lemma {:induction false} BettyReceives(c: Setup, id: TargetId, scope: Scope, f: Message, yours: Replica, chunks: Entry -> nat)
    requires f.MsgFingerprint? && Handles(f) == Mirror(id) && f.covers.None?
    requires f.fingerprint == FingerprintOf(c.lift, Query(yours, scope.namespace, scope.range)) && f.range == scope.range
    ensures Receive(c.lift, During(Betty, yours, Mirror(id), NewTarget(scope)), chunks, f)
            == Ok(Reply(After(Betty, yours, Mirror(id), scope, 0, 1), [Agreement(id, scope)]))
  {
    EqualAnswer(c.lift, Mirror(id), NewTarget(scope).(started := true), yours, chunks, scope.range);
    hide Query, FingerprintOf, AnswerFingerprint;
    var p := During(Betty, yours, Mirror(id), NewTarget(scope));
    var t := NewTarget(scope).(started := true, theirCounter := 1);
    assert ReceivedFingerprint(c.lift, Mirror(id), NewTarget(scope), yours, chunks, f) == Ok(Sent(t, [Agreement(id, scope)]));
    hide ReceivedFingerprint;
    assert map[Mirror(id) := t] - {Mirror(id)} == map[];
    assert p.targets[Mirror(id) := t] == map[Mirror(id) := t];
  }

  lemma {:induction false} ShortAnswer(c: Setup, id: TargetId, scope: Scope, mine: Replica, yours: Replica)
    requires OpensEqual(c, id, scope, mine, yours)
    ensures var s := ShortRun(c, id, scope, mine, yours);
            Follows(c, s[2], ShortMoves()[2], s[3])
  {
    var f := Opening(c, id, scope, mine);
    hide Query, FingerprintOf, Sound, All, Receive;
    BettyReceives(c, id, scope, f, yours, NoPieces);
    var s := ShortRun(c, id, scope, mine, yours);
    assert [f][1..] == [] && s[2].inn + [Agreement(id, scope)] == s[3].inn;
    assert Apply(c.lift, Flip(s[2]), Deliver(NoPieces)) == Some(Flip(s[3]));
  }

  lemma {:induction false} ShortEnd(c: Setup, id: TargetId, scope: Scope, mine: Replica, yours: Replica)
    ensures var s := ShortRun(c, id, scope, mine, yours);
            Follows(c, s[3], ShortMoves()[3], s[4])
  {
    hide Query, FingerprintOf, SplitRange;
    var t := Target(scope, true, {}, 1, 0);
    var p, m := During(Alfie, mine, id, Opened(scope)), Agreement(id, scope);
    assert {0} - {0} == {};
    assert ReceivedAnnounce(id, Opened(scope), mine, NoPieces, m) == Ok(Sent(t, []));
    hide ReceivedAnnounce;
    assert map[id := t] - {id} == map[];
    assert p.targets[id := t] == map[id := t];
    assert Receive(c.lift, p, NoPieces, m) == Ok(Reply(After(Alfie, mine, id, scope, 1, 0), []));
    hide Receive;
    assert [m][1..] == [];
    var s := ShortRun(c, id, scope, mine, yours);
    assert s[3].out + [] == s[3].out;
    assert MoveBy(c.lift, s[3], Mine(Deliver(NoPieces))) == Some(s[4]);
  }

  lemma {:induction false} ShortResult(c: Setup, id: TargetId, scope: Scope, mine: Replica, yours: Replica)
    requires OpensEqual(c, id, scope, mine, yours)
    ensures var s := ShortRun(c, id, scope, mine, yours);
            Finished(c, s[4]) && s[4].me.store == mine && s[4].you.store == yours
  {
    hide Sound, All, Query, FingerprintOf;
  }

  lemma {:induction false} FourMoves(c: Setup, s: seq<View>, m: seq<Move>)
    requires |s| == 5 && |m| == 4 && Initial(c, s[0])
    requires Follows(c, s[0], m[0], s[1]) && Follows(c, s[1], m[1], s[2])
    requires Follows(c, s[2], m[2], s[3]) && Follows(c, s[3], m[3], s[4])
    ensures Run(c, s, m)
  {
    hide Follows, Initial;
  }

  lemma {:induction false} ShortLength(c: Setup, id: TargetId, scope: Scope, mine: Replica, yours: Replica)
    ensures |ShortRun(c, id, scope, mine, yours)| == 5 && |ShortMoves()| == 4
  {}

  /** Equal fingerprints over the one shared area end the session at once, with both stores as they
      were: whatever the peers then differ in, they keep differing in, and the area counts as
      reconciled. */
  lemma {:induction false} FooledOpening(c: Setup, id: TargetId, scope: Scope, mine: Replica, yours: Replica)
    requires OpensEqual(c, id, scope, mine, yours)
    ensures var s := ShortRun(c, id, scope, mine, yours);
            Run(c, s, ShortMoves()) && Finished(c, s[4]) && s[4].me.store == mine && s[4].you.store == yours
  {
    hide *;
    ShortLength(c, id, scope, mine, yours);
    ShortResult(c, id, scope, mine, yours);
    ShortInitial(c, id, scope, mine, yours);
    ShortStarts(c, id, scope, mine, yours);
    ShortAnswer(c, id, scope, mine, yours);
    ShortEnd(c, id, scope, mine, yours);
    FourMoves(c, ShortRun(c, id, scope, mine, yours), ShortMoves());
  }
}
