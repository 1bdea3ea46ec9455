/** Private area intersection: fragments of read capabilities, and the group arithmetic that
    lets two peers compare them without showing them. */
module Intersections {
  import opened Orders
  import opened Entries
  import opened Ranges

  // ---------- the scheme ----------

  type Group(==, !new)

  type Scalar(!new)

  datatype Fragment = Pair(namespace: NamespaceId, path: Path) | Triple(namespace: NamespaceId, subspace: SubspaceId, path: Path)

  datatype Scheme = Scheme(hash: Fragment -> Group, mult: (Group, Scalar) -> Group)

  /** Hashing and multiplication are injective, and scalars act in any order. */
  ghost predicate SchemeOk(s: Scheme) {
    && (forall f, g :: s.hash(f) == s.hash(g) ==> f == g)
    && (forall g, h, a :: s.mult(g, a) == s.mult(h, a) ==> g == h)
    && (forall g, a, b :: s.mult(s.mult(g, a), b) == s.mult(s.mult(g, b), a))
  }

  /** A fragment as both peers see it once each has multiplied it. */
  function Shared(s: Scheme, f: Fragment, a: Scalar, b: Scalar): Group { s.mult(s.mult(s.hash(f), a), b) }

  /** The two peers' views of two fragments agree exactly when the fragments are equal. */
  lemma {:induction false} SharedEqual(s: Scheme, f: Fragment, g: Fragment, a: Scalar, b: Scalar)
    requires SchemeOk(s)
    ensures Shared(s, f, a, b) == Shared(s, g, b, a) <==> f == g
  {}

  // ---------- fragments of a capability ----------

  /** What distinguishes authorisations for the same area: their delegations and signatures. */
  type AuthorisationId(==, !new)

  datatype Capability = Capability(authorisation: AuthorisationId, namespace: NamespaceId, subspace: AreaSubspace, path: Path)

  datatype OnIntersection = DoNothing | BindReadCap | RequestSubspaceCap | ReplyReadCap

  function ActionOf(secondary: bool, mostSpecific: bool): OnIntersection {
    match (secondary, mostSpecific)
    case (false, true) => BindReadCap
    case (false, false) => ReplyReadCap
    case (true, true) => RequestSubspaceCap
    case (true, false) => DoNothing
  }

  datatype LocalFragment = LocalFragment(cap: Capability, fragment: Fragment, secondary: bool, action: OnIntersection)

  /** All prefixes of the path, shortest first; the last one is the path itself. */
  function PairsOf(c: Capability, secondary: bool): seq<LocalFragment> {
    seq(|c.path| + 1, i requires 0 <= i <= |c.path| =>
      LocalFragment(c, Pair(c.namespace, c.path[..i]), secondary, ActionOf(secondary, i == |c.path|)))
  }

  function TriplesOf(c: Capability): seq<LocalFragment>
    requires c.subspace.Id?
  {
    seq(|c.path| + 1, i requires 0 <= i <= |c.path| =>
      LocalFragment(c, Triple(c.namespace, c.subspace.id, c.path[..i]), false, ActionOf(false, i == |c.path|)))
  }

  /** A capability for all subspaces has pairs only; one for a single subspace has triples, and
      secondary pairs. */
  function FragmentsOf(c: Capability): seq<LocalFragment> {
    if c.subspace.AnySubspace? then PairsOf(c, false) else TriplesOf(c) + PairsOf(c, true)
  }

  /** Two fragments make peers intersect: equal, and not both secondary. */
  predicate Meet(f: LocalFragment, g: LocalFragment) {
    f.fragment == g.fragment && !(f.secondary && g.secondary)
  }

  /** `c` grants access to all of what `d` grants access to, times apart. */
  predicate Covers(c: Capability, d: Capability) {
    c.namespace == d.namespace && c.path <= d.path && (c.subspace.AnySubspace? || c.subspace == d.subspace)
  }

  ghost predicate MeetsThrough(c: Capability, d: Capability, action: OnIntersection) {
    exists f, g :: f in FragmentsOf(c) && g in FragmentsOf(d) && f.action == action && Meet(f, g)
  }

  lemma {:induction false} PairMember(c: Capability, secondary: bool, n: nat)
    requires n <= |c.path|
    ensures LocalFragment(c, Pair(c.namespace, c.path[..n]), secondary, ActionOf(secondary, n == |c.path|)) in PairsOf(c, secondary)
  {
    assert PairsOf(c, secondary)[n] in PairsOf(c, secondary);
  }

  lemma {:induction false} TripleMember(c: Capability, n: nat)
    requires c.subspace.Id? && n <= |c.path|
    ensures LocalFragment(c, Triple(c.namespace, c.subspace.id, c.path[..n]), false, ActionOf(false, n == |c.path|)) in TriplesOf(c)
  {
    assert TriplesOf(c)[n] in TriplesOf(c);
  }

  /** Every fragment of a capability names a prefix of its path. */
  lemma {:induction false} FragmentShape(c: Capability, f: LocalFragment)
    requires f in FragmentsOf(c)
    ensures f.cap == c && f.fragment.namespace == c.namespace && f.fragment.path <= c.path
    ensures f.action == ActionOf(f.secondary, f.fragment.path == c.path)
    ensures f.secondary <==> c.subspace.Id? && f.fragment.Pair?
    ensures f.fragment.Triple? ==> c.subspace == Id(f.fragment.subspace)
  {}

  /** A peer's most specific primary fragment meets one of the other's fragments exactly when
      its capability covers the other's; for two capabilities over all subspaces, exactly when
      its path is a prefix of the other's in the same namespace. */
  lemma {:induction false} BindsReadCapExactly(c: Capability, d: Capability)
    ensures MeetsThrough(c, d, BindReadCap) <==> Covers(c, d)
    ensures c.subspace.AnySubspace? && d.subspace.AnySubspace? ==>
              (MeetsThrough(c, d, BindReadCap) <==> c.namespace == d.namespace && c.path <= d.path)
  {
    if MeetsThrough(c, d, BindReadCap) {
      var f, g :| f in FragmentsOf(c) && g in FragmentsOf(d) && f.action == BindReadCap && Meet(f, g);
      FragmentShape(c, f);
      FragmentShape(d, g);
    }
    if Covers(c, d) {
      var n := |c.path|;
      assert c.path[..n] == c.path == d.path[..n];
      if c.subspace.AnySubspace? {
        PairMember(c, false, n);
        PairMember(d, d.subspace.Id?, n);
        var f := LocalFragment(c, Pair(c.namespace, c.path[..n]), false, BindReadCap);
        var g := LocalFragment(d, Pair(d.namespace, d.path[..n]), d.subspace.Id?, ActionOf(d.subspace.Id?, n == |d.path|));
        assert f in FragmentsOf(c) && g in FragmentsOf(d) && Meet(f, g);
      } else {
        TripleMember(c, n);
        TripleMember(d, n);
        var f := LocalFragment(c, Triple(c.namespace, c.subspace.id, c.path[..n]), false, BindReadCap);
        var g := LocalFragment(d, Triple(d.namespace, d.subspace.id, d.path[..n]), false, ActionOf(false, n == |d.path|));
        assert f in FragmentsOf(c) && g in FragmentsOf(d) && Meet(f, g);
      }
    }
  }

  /** A subspace capability is asked for exactly when the other's capability is for all
      subspaces and would cover ours but for the shorter path being ours. */
  lemma {:induction false} RequestsSubspaceCapExactly(c: Capability, d: Capability)
    ensures MeetsThrough(c, d, RequestSubspaceCap) <==>
              c.subspace.Id? && d.subspace.AnySubspace? && c.namespace == d.namespace && c.path <= d.path
  {
    if MeetsThrough(c, d, RequestSubspaceCap) {
      var f, g :| f in FragmentsOf(c) && g in FragmentsOf(d) && f.action == RequestSubspaceCap && Meet(f, g);
      FragmentShape(c, f);
      FragmentShape(d, g);
    }
    if c.subspace.Id? && d.subspace.AnySubspace? && c.namespace == d.namespace && c.path <= d.path {
      var n := |c.path|;
      assert c.path[..n] == c.path == d.path[..n];
      PairMember(c, true, n);
      PairMember(d, false, n);
      var f := LocalFragment(c, Pair(c.namespace, c.path[..n]), true, RequestSubspaceCap);
      var g := LocalFragment(d, Pair(d.namespace, d.path[..n]), false, ActionOf(false, n == |d.path|));
      assert f in FragmentsOf(c) && g in FragmentsOf(d) && Meet(f, g);
    }
  }

  /** My fragments that answer your most specific one by presenting my capability. */
  ghost predicate AnswersReadCap(c: Capability, d: Capability) {
    exists f, g :: f in FragmentsOf(c) && g in FragmentsOf(d) && f.action == ReplyReadCap && g.action == BindReadCap && Meet(f, g)
  }

  /** Presented with the other's read capability, a peer answers with its own exactly when the
      other's path is a proper prefix of its own, for the same subspaces of the same namespace. */
  lemma {:induction false} AnswersReadCapExactly(c: Capability, d: Capability)
    ensures AnswersReadCap(c, d) <==> d.namespace == c.namespace && d.subspace == c.subspace && d.path < c.path
  {
    if AnswersReadCap(c, d) {
      var f, g :| f in FragmentsOf(c) && g in FragmentsOf(d) && f.action == ReplyReadCap && g.action == BindReadCap && Meet(f, g);
      FragmentShape(c, f);
      FragmentShape(d, g);
    }
    if d.namespace == c.namespace && d.subspace == c.subspace && d.path < c.path {
      var n := |d.path|;
      assert d.path[..n] == d.path == c.path[..n];
      if c.subspace.AnySubspace? {
        PairMember(c, false, n);
        PairMember(d, false, n);
        var f := LocalFragment(c, Pair(c.namespace, c.path[..n]), false, ReplyReadCap);
        var g := LocalFragment(d, Pair(d.namespace, d.path[..n]), false, BindReadCap);
        assert f in FragmentsOf(c) && g in FragmentsOf(d) && Meet(f, g);
      } else {
        TripleMember(c, n);
        TripleMember(d, n);
        var f := LocalFragment(c, Triple(c.namespace, c.subspace.id, c.path[..n]), false, ReplyReadCap);
        var g := LocalFragment(d, Triple(d.namespace, d.subspace.id, d.path[..n]), false, BindReadCap);
        assert f in FragmentsOf(c) && g in FragmentsOf(d) && Meet(f, g);
      }
    }
  }

  /** Of two capabilities for the same subspaces of a namespace, one path a prefix of the other,
      both are presented: the shorter at once, the longer in answer; if equal, both at once. */
  lemma {:induction false} BothPresented(c: Capability, d: Capability)
    requires c.namespace == d.namespace && c.subspace == d.subspace && c.path <= d.path
    ensures MeetsThrough(c, d, BindReadCap)
    ensures MeetsThrough(d, c, BindReadCap) || AnswersReadCap(d, c)
    ensures !(MeetsThrough(d, c, BindReadCap) && AnswersReadCap(d, c))
  {
    hide MeetsThrough, AnswersReadCap;
    BindsReadCapExactly(c, d);
    BindsReadCapExactly(d, c);
    AnswersReadCapExactly(d, c);
  }

  /** A capability's fragments are pairwise different, so no pair is met twice. */
  lemma {:induction false} FragmentsDistinct(c: Capability, i: nat, j: nat)
    requires i < j < |FragmentsOf(c)|
    ensures FragmentsOf(c)[i].fragment != FragmentsOf(c)[j].fragment
  {
    var n := |c.path| + 1;
    var all := FragmentsOf(c);
    if j < n || n <= i {
      var a, b := if i < n then i else i - n, if j < n then j else j - n;
      assert |c.path[..a]| == a && |c.path[..b]| == b;
    }
  }
}
