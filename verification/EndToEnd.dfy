/** From bound areas of interest to equal stores: setup and reconciliation put together. */
module EndToEnd {
  import opened Orders
  import opened Entries
  import opened Ranges
  import opened Areas
  import opened Fingerprints
  import opened Replicas
  import opened Wire
  import opened Reconciler
  import opened Session
  import opened Knowledge
  import opened Runs
  import opened Convergence
  import opened Termination
  import opened AoiFinders

  /** Both peers are interested in the entry: some area of each, in its namespace, includes it. */
  ghost predicate Shared(p: AoiPeer, e: Entry) {
    exists i, j :: 0 <= i < |p.ours| && 0 <= j < |p.theirs| && BothInclude(p.ours[i], p.theirs[j], e)
  }

  predicate BothInclude(a: AoiInfo, b: AoiInfo, e: Entry) {
    e.namespace == a.namespace == b.namespace && AreaIncludesEntry(a.area, e) && AreaIncludesEntry(b.area, e)
  }

  predicate FixedLength(i: AoiInfo) { i.area.subspace.Id? ==> |i.area.subspace.id| == SUBSPACE_LENGTH }

  ghost predicate WellFormed(p: AoiPeer, u: set<Entry>) {
    && (forall i :: 0 <= i < |p.ours| ==> FixedLength(p.ours[i]))
    && (forall j :: 0 <= j < |p.theirs| ==> FixedLength(p.theirs[j]))
    && forall e :: e in u ==> |e.subspace| == SUBSPACE_LENGTH
  }

  lemma {:induction false} IncludedIsPair(p: AoiPeer, i: nat, j: nat, e: Entry)
    requires i < |p.ours| && j < |p.theirs| && BothInclude(p.ours[i], p.theirs[j], e)
    ensures IsPair(p, TargetId(i, j))
  {
    AreaIntersectionExact(p.ours[i].area, p.theirs[j].area, e);
  }

  /** The targets' scopes together hold exactly the entries both peers are interested in. */
  lemma {:induction false} ScopesAreShared(next: Path -> Option<Path>, p: AoiPeer, u: set<Entry>, e: Entry)
    requires SkipsPrefixed(next) && WellFormed(p, u) && e in u
    ensures InScopes(ScopesOf(next, p), e) <==> Shared(p, e)
  {
    hide SkipsPrefixed, ScopesOf, InScope, AreaIncludesEntry, IsPair;
    if InScopes(ScopesOf(next, p), e) {
      var id :| id in ScopesOf(next, p) && InScope(ScopesOf(next, p)[id], e);
      ScopesOfExact(next, p, id);
      PairBounds(p, id);
      ScopeIsOverlap(next, p, id, e);
      assert BothInclude(p.ours[id.ours], p.theirs[id.theirs], e);
    }
    if Shared(p, e) {
      var i: nat, j: nat :| i < |p.ours| && j < |p.theirs| && BothInclude(p.ours[i], p.theirs[j], e);
      IncludedIsPair(p, i, j, e);
      ScopeIsOverlap(next, p, TargetId(i, j), e);
    }
  }

  lemma {:induction false} PairBounds(p: AoiPeer, id: TargetId)
    requires IsPair(p, id)
    ensures id.ours < |p.ours| && id.theirs < |p.theirs|
  {}

  function SetupOf(next: Path -> Option<Path>, v: AoiView, lift: Lift, mine: set<Entry>, yours: set<Entry>): Setup {
    Setup(lift, mine, yours, ScopesOf(next, v.me), ScopesOf(next, v.you), {}, {})
  }

  /** Two peers whose areas of interest have been exchanged, with any stores, under any schedule
      that moves whenever it can and in which no comparison is fooled: after finitely many moves my store holds exactly the undominated
      part of what it held and of what yours held in an area both are interested in; and yours
      likewise. */
  lemma {:induction false} PeersSynchronise(next: Path -> Option<Path>, v: AoiView, lift: Lift, mine: set<Entry>, yours: set<Entry>,
                                            states: nat -> View, moves: nat -> Move) returns (n: nat)
    requires SkipsPrefixed(next) && AoiInv(v) && v.out == [] && v.inn == []
    requires WellFormed(v.me, mine + yours) && WellFormed(v.you, mine + yours)
    requires Schedule(SetupOf(next, v, lift, mine, yours), states, moves)
    requires NeverFooled(SetupOf(next, v, lift, mine, yours), states, moves)
    requires forall i: nat :: Stuck(states(i)) || CanMove(states(i), moves(i))
    ensures All(states(n).me.store) == Maximal(mine + set e | e in yours && Shared(v.me, e))
    ensures All(states(n).you.store) == Maximal(yours + set e | e in mine && Shared(v.you, e))
  {
    hide SkipsPrefixed, AoiInv, Schedule, NeverFooled, Stuck, CanMove, WellFormed, ScopesOf, Finished, Maximal, Converged;
    var c := SetupOf(next, v, lift, mine, yours);
    n := EverySessionConverges(c, states, moves);
    ConvergedIsShared(next, c, v.me);
    ConvergedIsShared(next, FlipSetup(c), v.you);
  }

  lemma {:induction false} ConvergedIsShared(next: Path -> Option<Path>, c: Setup, p: AoiPeer)
    requires SkipsPrefixed(next) && c.mine == ScopesOf(next, p)
    requires WellFormed(p, c.mine0 + c.yours0) || WellFormed(p, c.yours0 + c.mine0)
    ensures Converged(c) == Maximal(c.mine0 + set e | e in c.yours0 && Shared(p, e))
  {
    assert c.mine0 + c.yours0 == c.yours0 + c.mine0;
    hide SkipsPrefixed, WellFormed, ScopesOf, InScopes, Shared, Maximal;
    forall e | e in c.yours0 ensures InScopes(c.mine, e) <==> Shared(p, e) {
      ScopesAreShared(next, p, c.mine0 + c.yours0, e);
    }
    assert (set e | e in c.yours0 && InScopes(c.mine, e)) == set e | e in c.yours0 && Shared(p, e);
  }
}
