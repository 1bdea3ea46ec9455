/** Entries of the Willow data model, and the dominance order behind prefix pruning. */
module Entries {
  import opened Orders

  type NamespaceId = Bytes

  type SubspaceId = Bytes

  datatype Entry = Entry(
    namespace: NamespaceId,
    subspace: SubspaceId,
    path: Path,
    timestamp: u64,
    digest: Bytes,
    length: u64)

  /** Newer: larger timestamp, then larger digest, then larger payload. */
  predicate NewerThan(a: Entry, b: Entry) {
    || a.timestamp > b.timestamp
    || (a.timestamp == b.timestamp && BytesLess(b.digest, a.digest))
    || (a.timestamp == b.timestamp && a.digest == b.digest && a.length > b.length)
  }

  /** `d` prunes `e`: a newer entry of the same subspace at a prefix of its path. */
  predicate Dominates(d: Entry, e: Entry) {
    && d.namespace == e.namespace
    && d.subspace == e.subspace
    && d.path <= e.path
    && NewerThan(d, e)
  }

  lemma {:induction false} DominatesIrreflexive(e: Entry)
    ensures !Dominates(e, e)
  {
    BytesLessIrreflexive(e.digest);
  }

  lemma {:induction false} DominatesTransitive(a: Entry, b: Entry, c: Entry)
    requires Dominates(a, b) && Dominates(b, c)
    ensures Dominates(a, c)
  {
    if a.timestamp == b.timestamp == c.timestamp {
      if BytesLess(b.digest, a.digest) && BytesLess(c.digest, b.digest) {
        BytesLessTransitive(c.digest, b.digest, a.digest);
      }
    }
  }

  /** Two distinct entries at one (namespace, subspace, path): one of them prunes the other. */
  lemma {:induction false} SameKeyComparable(a: Entry, b: Entry)
    requires a.namespace == b.namespace && a.subspace == b.subspace && a.path == b.path
    ensures a == b || Dominates(a, b) || Dominates(b, a)
  {
    BytesLessTotal(a.digest, b.digest);
  }

  /** `d` accounts for `e`: it is `e`, or it prunes `e`. */
  predicate Accounts(d: Entry, e: Entry) {
    d == e || Dominates(d, e)
  }

  lemma {:induction false} AccountsTransitive(a: Entry, b: Entry, c: Entry)
    requires Accounts(a, b) && Accounts(b, c)
    ensures Accounts(a, c)
  {
    if a != b && b != c { DominatesTransitive(a, b, c); }
  }

  /** A set of entries knows `e` when it holds `e` or an entry that prunes it. */
  ghost predicate Knows(s: set<Entry>, e: Entry) {
    exists d :: d in s && Accounts(d, e)
  }

  ghost predicate Undominated(s: set<Entry>) {
    forall d, e :: d in s && e in s ==> !Dominates(d, e)
  }

  /** The undominated part of a set: what a store that has seen exactly `s` must hold. */
  ghost function Maximal(s: set<Entry>): (r: set<Entry>)
    ensures r <= s
    ensures Undominated(r)
  {
    set e | e in s && forall d :: d in s ==> !Dominates(d, e)
  }

  /** Set-level ingestion. */
  ghost function Join(s: set<Entry>, e: Entry): set<Entry> {
    if Knows(s, e) then s else (set x | x in s && !Dominates(e, x)) + {e}
  }

  lemma {:induction false} JoinKnows(s: set<Entry>, e: Entry, z: Entry)
    requires Knows(s, z) || Accounts(e, z)
    ensures Knows(Join(s, e), z)
  {
    var j := Join(s, e);
    if !Knows(s, e) {
      assert e in j;
      if Knows(s, z) {
        var d :| d in s && Accounts(d, z);
        if Dominates(e, d) {
          AccountsTransitive(e, d, z);
        } else {
          assert d in j;
        }
      }
    } else if Accounts(e, z) {
      var d :| d in s && Accounts(d, e);
      AccountsTransitive(d, e, z);
    }
  }

  lemma {:induction false} JoinUndominated(s: set<Entry>, e: Entry)
    requires Undominated(s)
    ensures Undominated(Join(s, e))
  {
    DominatesIrreflexive(e);
  }

  /** A set that is undominated, lies within `u` and knows all of `u` is the maximal part of `u`. */
  lemma {:induction false} KnowsAllIsMaximal(s: set<Entry>, u: set<Entry>)
    requires s <= u
    requires Undominated(s)
    requires forall e :: e in u ==> Knows(s, e)
    ensures s == Maximal(u)
  {
    forall e | e in Maximal(u) ensures e in s {
      var d :| d in s && Accounts(d, e);
    }
    forall e | e in s ensures e in Maximal(u) {
      forall d | d in u ensures !Dominates(d, e) {
        var k :| k in s && Accounts(k, d);
        if Dominates(d, e) {
          if k != d { DominatesTransitive(k, d, e); }
        }
      }
    }
  }

  /** Every entry of a finite set is known to the set's maximal part. */
  lemma {:induction false} MaximalKnowsAll(s: set<Entry>, e: Entry)
    requires e in s
    ensures Knows(Maximal(s), e)
  {
    if e !in Maximal(s) {
      var d :| d in s && Dominates(d, e);
      MaximalKnowsAbove(s, e, d, {e});
    } else {
      assert Accounts(e, e);
    }
  }

  /** Climbing dominance from `e` through `d` without meeting `seen` again ends in a maximal entry. */
  lemma {:induction false} MaximalKnowsAbove(s: set<Entry>, e: Entry, d: Entry, seen: set<Entry>)
    requires e in s && d in s && Dominates(d, e)
    requires seen <= s
    requires forall x :: x in seen ==> Dominates(d, x)
    ensures Knows(Maximal(s), e)
    decreases |s - seen|
  {
    if d in Maximal(s) {
      assert Accounts(d, e);
    } else {
      var c :| c in s && Dominates(c, d);
      DominatesTransitive(c, d, e);
      DominatesIrreflexive(d);
      forall x | x in seen + {d} ensures Dominates(c, x) {
        if x in seen { DominatesTransitive(c, d, x); }
      }
      assert d in s - seen && s - (seen + {d}) < s - seen;
      SmallerSet(s - (seen + {d}), s - seen);
      MaximalKnowsAbove(s, e, c, seen + {d});
    }
  }

  lemma {:induction false} SmallerSet<T>(a: set<T>, b: set<T>)
    requires a < b
    ensures |a| < |b|
  {
    assert b == a + (b - a);
    var x :| x in b && x !in a;
    assert x in b - a;
    assert |b - a| > 0;
  }

  /** Joining an entry into the maximal part of a set gives the maximal part of the larger set. */
  lemma {:induction false} JoinOfMaximal(s: set<Entry>, e: Entry)
    ensures Join(Maximal(s), e) == Maximal(s + {e})
  {
    var u := s + {e};
    forall x | x in u ensures Knows(Join(Maximal(s), e), x) {
      if x in s { MaximalKnowsAll(s, x); } else { assert Accounts(e, x); }
      JoinKnows(Maximal(s), e, x);
    }
    JoinUndominated(Maximal(s), e);
    KnowsAllIsMaximal(Join(Maximal(s), e), u);
  }
}
