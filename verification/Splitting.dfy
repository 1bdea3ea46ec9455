/** Range queries and the splitting of a range into parts (the default `split_range`). */
module Splitting {
  import opened Orders
  import opened Entries
  import opened Ranges
  import opened MemoryStore
  import opened Fingerprints

  // ---------- range queries on one namespace's entries ----------

  function Select(entries: seq<Entry>, r: Range3d): seq<Entry> {
    if entries == [] then []
    else
      var last := entries[|entries| - 1];
      Select(entries[..|entries| - 1], r) + if IncludesEntry(r, last) then [last] else []
  }

  lemma {:induction false} SelectMembers(entries: seq<Entry>, r: Range3d)
    ensures forall x :: x in Select(entries, r) <==> x in entries && IncludesEntry(r, x)
  {
    if entries != [] {
      var n := |entries| - 1;
      SelectMembers(entries[..n], r);
      assert entries == entries[..n] + [entries[n]];
    }
  }

  /** Queries keep the stored order. */
  lemma {:induction false} SelectConcat(a: seq<Entry>, b: seq<Entry>, r: Range3d)
    ensures Select(a + b, r) == Select(a, r) + Select(b, r)
  {
    hide IncludesEntry;
    if b == [] {
      assert a + b == a;
    } else {
      assert (a + b)[..|a + b| - 1] == a + b[..|b| - 1];
      SelectConcat(a, b[..|b| - 1], r);
    }
  }

  lemma {:induction false} SelectDistinct(entries: seq<Entry>, r: Range3d)
    requires Distinct(entries)
    ensures Distinct(Select(entries, r))
  {
    if entries != [] {
      var n := |entries| - 1;
      SelectDistinct(entries[..n], r);
      SelectMembers(entries[..n], r);
      var s := Select(entries[..n], r);
      forall i | 0 <= i < |s| ensures s[i] != entries[n] { assert s[i] in s; }
    }
  }

  // ---------- sorting by (namespace, subspace, path) ----------

  predicate KeyLess(a: Entry, b: Entry) {
    || BytesLess(a.namespace, b.namespace)
    || (a.namespace == b.namespace && BytesLess(a.subspace, b.subspace))
    || (a.namespace == b.namespace && a.subspace == b.subspace && PathLess(a.path, b.path))
  }

  lemma {:induction false} KeyLessTransitive(a: Entry, b: Entry, c: Entry)
    requires KeyLess(a, b) && KeyLess(b, c)
    ensures KeyLess(a, c)
  {
    if BytesLess(a.namespace, b.namespace) && BytesLess(b.namespace, c.namespace) {
      BytesLessTransitive(a.namespace, b.namespace, c.namespace);
    }
    if BytesLess(a.subspace, b.subspace) && BytesLess(b.subspace, c.subspace) {
      BytesLessTransitive(a.subspace, b.subspace, c.subspace);
    }
    if PathLess(a.path, b.path) && PathLess(b.path, c.path) {
      PathLessTransitive(a.path, b.path, c.path);
    }
  }

  lemma {:induction false} KeyLessAsymmetric(a: Entry, b: Entry)
    requires KeyLess(a, b)
    ensures !KeyLess(b, a)
  {
    if KeyLess(b, a) {
      KeyLessTransitive(a, b, a);
      BytesLessIrreflexive(a.namespace);
      BytesLessIrreflexive(a.subspace);
      PathLessIrreflexive(a.path);
    }
  }

  lemma {:induction false} KeyNotLessTransitive(a: Entry, b: Entry, c: Entry)
    requires !KeyLess(b, a) && !KeyLess(c, b)
    ensures !KeyLess(c, a)
  {
    if KeyLess(c, a) {
      BytesLessTotal(a.namespace, b.namespace);
      BytesLessTotal(a.subspace, b.subspace);
      PathLessTotal(a.path, b.path);
      if KeyLess(a, b) { KeyLessTransitive(c, a, b); }
    }
  }

  function InsertByKey(s: seq<Entry>, e: Entry): seq<Entry> {
    if s == [] then [e]
    else
      var n := |s| - 1;
      if KeyLess(e, s[n]) then InsertByKey(s[..n], e) + [s[n]] else s + [e]
  }

  /** Stable sort by key. */
  function SortByKey(s: seq<Entry>): seq<Entry> {
    if s == [] then [] else InsertByKey(SortByKey(s[..|s| - 1]), s[|s| - 1])
  }

  ghost predicate Sorted(s: seq<Entry>) {
    forall i, j :: 0 <= i < j < |s| ==> !KeyLess(s[j], s[i])
  }

  lemma {:induction false} InsertByKeyMembers(s: seq<Entry>, e: Entry)
    ensures multiset(InsertByKey(s, e)) == multiset(s) + multiset{e}
  {
    if s != [] {
      var n := |s| - 1;
      assert s == s[..n] + [s[n]];
      if KeyLess(e, s[n]) { InsertByKeyMembers(s[..n], e); }
    }
  }

  lemma {:induction false} InsertByKeySorts(s: seq<Entry>, e: Entry)
    requires Sorted(s)
    ensures Sorted(InsertByKey(s, e))
  {
    if s != [] {
      var n := |s| - 1;
      if KeyLess(e, s[n]) {
        InsertByKeySorts(s[..n], e);
        InsertByKeyMembers(s[..n], e);
        KeyLessAsymmetric(e, s[n]);
        var r := InsertByKey(s[..n], e);
        hide KeyLess;
        forall i | 0 <= i < |r| ensures !KeyLess(s[n], r[i]) {
          assert r[i] in multiset(r);
        }
      } else {
        forall i | 0 <= i < n ensures !KeyLess(e, s[i]) { KeyNotLessTransitive(s[i], s[n], e); }
      }
    }
  }

  lemma {:induction false} SortByKeySorts(s: seq<Entry>)
    ensures Sorted(SortByKey(s))
    ensures multiset(SortByKey(s)) == multiset(s)
  {
    if s != [] {
      var n := |s| - 1;
      SortByKeySorts(s[..n]);
      InsertByKeySorts(SortByKey(s[..n]), s[n]);
      InsertByKeyMembers(SortByKey(s[..n]), s[n]);
      assert s == s[..n] + [s[n]];
    }
  }

  // ---------- splitting ----------

  datatype SplitAction = SendFingerprint(fingerprint: Fingerprint) | SendEntries(count: nat)

  datatype RangeSplit = RangeSplit(range: Range3d, action: SplitAction)

  const DEFAULT_MAX_SET_SIZE: nat := 1

  predicate SplitsByTime(r: Range3d, mid: Entry) {
    mid.subspace == r.subspaces.start && mid.path == r.paths.start
  }

  function LowerHalf(r: Range3d, mid: Entry): Range3d {
    if mid.subspace != r.subspaces.start then
      r.(subspaces := Range(r.subspaces.start, Closed(mid.subspace)))
    else if mid.path != r.paths.start then
      r.(paths := Range(r.paths.start, Closed(mid.path)))
    else
      r.(times := Range(r.times.start, Closed(mid.timestamp)))
  }

  function UpperHalf(r: Range3d, mid: Entry): Range3d {
    if mid.subspace != r.subspaces.start then
      r.(subspaces := Range(mid.subspace, r.subspaces.end))
    else if mid.path != r.paths.start then
      r.(paths := Range(mid.path, r.paths.end))
    else
      r.(times := Range(mid.timestamp, r.times.end))
  }

  function Median(inside: seq<Entry>): (mid: Entry)
    requires |inside| > 0
    ensures mid in inside
  {
    SortByKeySorts(inside);
    var sorted := SortByKey(inside);
    assert |sorted| == |multiset(sorted)| == |multiset(inside)|;
    assert sorted[|inside| / 2] in multiset(sorted);
    sorted[|inside| / 2]
  }

  function Part(lift: Lift, entries: seq<Entry>, r: Range3d): RangeSplit {
    RangeSplit(r, SendFingerprint(FingerprintOf(lift, Select(entries, r))))
  }

  function SplitRange(lift: Lift, entries: seq<Entry>, r: Range3d, maxSetSize: nat): seq<RangeSplit> {
    var inside := Select(entries, r);
    if |inside| <= maxSetSize then [RangeSplit(r, SendEntries(|inside|))]
    else
      var mid := Median(inside);
      [Part(lift, entries, LowerHalf(r, mid)), Part(lift, entries, UpperHalf(r, mid))]
  }

  // ---------- the parts partition the range ----------

  lemma {:induction false} CutSubspaces(r: Range<SubspaceId>, m: SubspaceId, s: SubspaceId)
    requires IncludesSubspace(r, m)
    ensures var lo, hi := Range(r.start, Closed(m)), Range(m, r.end);
            && (IncludesSubspace(r, s) <==> IncludesSubspace(lo, s) || IncludesSubspace(hi, s))
            && !(IncludesSubspace(lo, s) && IncludesSubspace(hi, s))
  {
    BytesLessTotal(s, m);
    BytesLessTotal(r.start, m);
    BytesLessTotal(s, r.start);
    if BytesLess(s, m) && r.end.Closed? { BytesLessTransitive(s, m, r.end.value); }
    if BytesLess(s, r.start) && BytesLess(r.start, m) { BytesLessTransitive(s, r.start, m); }
  }

  lemma {:induction false} CutPaths(r: Range<Path>, m: Path, p: Path)
    requires IncludesPath(r, m)
    ensures var lo, hi := Range(r.start, Closed(m)), Range(m, r.end);
            && (IncludesPath(r, p) <==> IncludesPath(lo, p) || IncludesPath(hi, p))
            && !(IncludesPath(lo, p) && IncludesPath(hi, p))
  {
    PathLessTotal(p, m);
    PathLessTotal(r.start, m);
    PathLessTotal(p, r.start);
    if PathLess(p, m) && r.end.Closed? { PathLessTransitive(p, m, r.end.value); }
    if PathLess(p, r.start) && PathLess(r.start, m) { PathLessTransitive(p, r.start, m); }
  }

  /** Every point of the range lies in exactly one half, and no point outside it in either. */
  lemma {:induction false} HalvesPartition(r: Range3d, mid: Entry, e: Entry)
    requires IncludesEntry(r, mid)
    ensures IncludesEntry(r, e) <==> IncludesEntry(LowerHalf(r, mid), e) || IncludesEntry(UpperHalf(r, mid), e)
    ensures !(IncludesEntry(LowerHalf(r, mid), e) && IncludesEntry(UpperHalf(r, mid), e))
  {
    hide IncludesSubspace, IncludesPath;
    if mid.subspace != r.subspaces.start {
      CutSubspaces(r.subspaces, mid.subspace, e.subspace);
    } else if mid.path != r.paths.start {
      CutPaths(r.paths, mid.path, e.path);
    }
  }

  /** Splitting a query result along two halves loses and repeats nothing: lengths add up and
      fingerprints combine. */
  lemma {:induction false} SelectHalves(lift: Lift, entries: seq<Entry>, r: Range3d, lo: Range3d, hi: Range3d)
    requires forall e ::
               && (IncludesEntry(r, e) <==> IncludesEntry(lo, e) || IncludesEntry(hi, e))
               && !(IncludesEntry(lo, e) && IncludesEntry(hi, e))
    ensures |Select(entries, r)| == |Select(entries, lo)| + |Select(entries, hi)|
    ensures FingerprintOf(lift, Select(entries, r))
            == Combine(FingerprintOf(lift, Select(entries, lo)), FingerprintOf(lift, Select(entries, hi)))
  {
    hide IncludesEntry, Combine;
    if entries == [] {
      CombineUnitAndInverse(Neutral());
    } else {
      var n := |entries| - 1;
      var x := entries[n];
      var init := entries[..n];
      SelectHalves(lift, init, r, lo, hi);
      var fl, fh, fx := FingerprintOf(lift, Select(init, lo)), FingerprintOf(lift, Select(init, hi)), lift(x);
      FingerprintSnoc(lift, Select(init, r), x);
      FingerprintSnoc(lift, Select(init, lo), x);
      FingerprintSnoc(lift, Select(init, hi), x);
      CombineAssociates(fl, fh, fx);
      CombineAssociates(fl, fx, fh);
      CombineCommutes(fh, fx);
    }
  }

  lemma {:induction false} FingerprintSnoc(lift: Lift, s: seq<Entry>, x: Entry)
    ensures FingerprintOf(lift, s + [x]) == Combine(FingerprintOf(lift, s), lift(x))
    ensures FingerprintOf(lift, s + []) == FingerprintOf(lift, s)
  {
    assert (s + [x])[..|s|] == s && s + [] == s;
  }

  /** Over every stored set and configuration: the parts cover the range exactly once, their
      counts add up to the count of the range, and their fingerprints combine to its fingerprint. */
  lemma {:induction false} SplitPartitions(lift: Lift, entries: seq<Entry>, r: Range3d, maxSetSize: nat)
    requires |Select(entries, r)| > maxSetSize
    ensures var parts := SplitRange(lift, entries, r, maxSetSize);
            && |parts| == 2
            && (forall e :: IncludesEntry(r, e) <==> IncludesEntry(parts[0].range, e) || IncludesEntry(parts[1].range, e))
            && (forall e :: !(IncludesEntry(parts[0].range, e) && IncludesEntry(parts[1].range, e)))
            && |Select(entries, r)| == |Select(entries, parts[0].range)| + |Select(entries, parts[1].range)|
            && parts[0].action.SendFingerprint? && parts[1].action.SendFingerprint?
            && FingerprintOf(lift, Select(entries, r))
               == Combine(parts[0].action.fingerprint, parts[1].action.fingerprint)
  {
    var mid := Median(Select(entries, r));
    SelectMembers(entries, r);
    var lo, hi := LowerHalf(r, mid), UpperHalf(r, mid);
    hide IncludesEntry, LowerHalf, UpperHalf, Combine, Select;
    forall e
      ensures IncludesEntry(r, e) <==> IncludesEntry(lo, e) || IncludesEntry(hi, e)
      ensures !(IncludesEntry(lo, e) && IncludesEntry(hi, e))
    {
      HalvesPartition(r, mid, e);
    }
    SelectHalves(lift, entries, r, lo, hi);
  }

  // ---------- progress of splitting ----------

  /** Entries of `u` in the range, whichever peer holds them. */
  ghost function Within(u: set<Entry>, ns: NamespaceId, r: Range3d): set<Entry> {
    set e | e in u && e.namespace == ns && IncludesEntry(r, e)
  }

  /** Some entry of `u` sits at the range's first subspace. */
  ghost predicate Anchored(u: set<Entry>, ns: NamespaceId, r: Range3d) {
    exists e :: e in Within(u, ns, r) && e.subspace == r.subspaces.start
  }

  lemma {:induction false} MedianNotFirst(inside: seq<Entry>) returns (first: Entry)
    requires |inside| >= 2 && Distinct(inside)
    ensures first in inside && first != Median(inside) && !KeyLess(Median(inside), first)
  {
    SortByKeySorts(inside);
    var sorted := SortByKey(inside);
    assert |sorted| == |multiset(sorted)| == |multiset(inside)| == |inside|;
    first := sorted[0];
    var k := |inside| / 2;
    assert first in multiset(sorted);
    if sorted[0] == sorted[k] {
      TwiceInMultiset(sorted, 0, k);
      OnceInMultiset(inside, first);
    }
  }

  lemma {:induction false} TwiceInMultiset(s: seq<Entry>, i: nat, j: nat)
    requires i < j < |s| && s[i] == s[j]
    ensures multiset(s)[s[i]] >= 2
  {
    var a, b := s[..j], s[j..];
    assert s == a + b;
    assert a[i] in multiset(a) && b[0] in multiset(b);
  }

  lemma {:induction false} OnceInMultiset(s: seq<Entry>, x: Entry)
    requires Distinct(s)
    ensures multiset(s)[x] <= 1
  {
    if s != [] {
      var n := |s| - 1;
      OnceInMultiset(s[..n], x);
      assert s == s[..n] + [s[n]];
      if s[n] == x { assert x !in s[..n]; }
    }
  }

  /** In a store built by ingestion, two entries below the median never share its key. */
  lemma {:induction false} SmallerAtStart(r: Range3d, first: Entry, mid: Entry)
    requires IncludesEntry(r, first) && first.namespace == mid.namespace
    requires !KeyLess(mid, first) && mid.subspace == r.subspaces.start
    requires first.path != mid.path || first.subspace != mid.subspace
    ensures first.subspace == mid.subspace && PathLess(first.path, mid.path) && mid.path != r.paths.start
  {
    BytesLessTotal(first.subspace, mid.subspace);
    PathLessTotal(first.path, mid.path);
  }

  /** Each split of a range with two or more stored entries makes progress for both peers'
      entries `u` together: either both halves hold some of them, or the lower half holds none
      and the upper half now starts at an occupied subspace. Splitting by time never happens. */
  lemma {:induction false} SplitProgress(u: set<Entry>, ns: NamespaceId, entries: seq<Entry>, r: Range3d)
    requires Distinct(entries) && Undominated(ToSet(entries)) && ToSet(entries) <= u
    requires forall e :: e in entries ==> e.namespace == ns
    requires |Select(entries, r)| >= 2
    ensures var mid := Median(Select(entries, r));
            var lo, hi := LowerHalf(r, mid), UpperHalf(r, mid);
            && !SplitsByTime(r, mid)
            && Within(u, ns, r) == Within(u, ns, lo) + Within(u, ns, hi)
            && Within(u, ns, lo) !! Within(u, ns, hi)
            && Within(u, ns, hi) != {}
            && (Within(u, ns, lo) != {} || (!Anchored(u, ns, r) && Anchored(u, ns, hi)))
  {
    var inside := Select(entries, r);
    SelectMembers(entries, r);
    SelectDistinct(entries, r);
    var mid := Median(inside);
    var first := MedianNotFirst(inside);
    assert mid in ToSet(entries) && first in ToSet(entries);
    var lo, hi := LowerHalf(r, mid), UpperHalf(r, mid);
    forall e
      ensures IncludesEntry(r, e) <==> IncludesEntry(lo, e) || IncludesEntry(hi, e)
      ensures !(IncludesEntry(lo, e) && IncludesEntry(hi, e))
    {
      HalvesPartition(r, mid, e);
    }
    if mid.subspace == r.subspaces.start {
      if first.subspace == mid.subspace && first.path == mid.path { SameKeyComparable(first, mid); }
      SmallerAtStart(r, first, mid);
    }
    MedianAbove(r, mid);
    SplitProgressSets(u, ns, r, mid, first);
  }

  lemma {:induction false} MedianAbove(r: Range3d, mid: Entry)
    requires IncludesEntry(r, mid)
    requires !SplitsByTime(r, mid)
    ensures !IncludesEntry(LowerHalf(r, mid), mid)
  {
    BytesLessIrreflexive(mid.subspace);
    PathLessIrreflexive(mid.path);
  }

  lemma {:induction false} SplitProgressSets(u: set<Entry>, ns: NamespaceId, r: Range3d, mid: Entry, first: Entry)
    requires mid in Within(u, ns, r) && first in Within(u, ns, r)
    requires forall e ::
               && (IncludesEntry(r, e) <==> IncludesEntry(LowerHalf(r, mid), e) || IncludesEntry(UpperHalf(r, mid), e))
               && !(IncludesEntry(LowerHalf(r, mid), e) && IncludesEntry(UpperHalf(r, mid), e))
    requires !SplitsByTime(r, mid)
    requires !IncludesEntry(LowerHalf(r, mid), mid)
    requires mid.subspace == r.subspaces.start ==> first.subspace == mid.subspace && PathLess(first.path, mid.path)
    ensures var lo, hi := LowerHalf(r, mid), UpperHalf(r, mid);
            && Within(u, ns, r) == Within(u, ns, lo) + Within(u, ns, hi)
            && Within(u, ns, lo) !! Within(u, ns, hi)
            && Within(u, ns, hi) != {}
            && (Within(u, ns, lo) != {} || (!Anchored(u, ns, r) && Anchored(u, ns, hi)))
  {
    var lo, hi := LowerHalf(r, mid), UpperHalf(r, mid);
    assert mid in Within(u, ns, hi);
    if mid.subspace == r.subspaces.start {
      assert first in Within(u, ns, lo);
    } else {
      assert Anchored(u, ns, hi);
      if Anchored(u, ns, r) {
        var e :| e in Within(u, ns, r) && e.subspace == r.subspaces.start;
        BytesLessTotal(e.subspace, mid.subspace);
        assert e in Within(u, ns, lo);
      }
    }
  }

  // ---------- the split point ----------

  lemma {:induction false} KeyTotal(a: Entry, b: Entry)
    ensures KeyLess(a, b) || KeyLess(b, a) || (a.namespace == b.namespace && a.subspace == b.subspace && a.path == b.path)
  {
    BytesLessTotal(a.namespace, b.namespace);
    BytesLessTotal(a.subspace, b.subspace);
    PathLessTotal(a.path, b.path);
  }

  lemma {:induction false} KeysDiffer(a: Entry, b: Entry)
    requires a != b && !Dominates(a, b) && !Dominates(b, a)
    ensures KeyLess(a, b) || KeyLess(b, a)
  {
    KeyTotal(a, b);
    if a.namespace == b.namespace && a.subspace == b.subspace && a.path == b.path { SameKeyComparable(a, b); }
  }

  lemma {:induction false} SortedDistinct(s: seq<Entry>)
    requires Distinct(s)
    ensures var sorted := SortByKey(s);
            |sorted| == |s| && ToSet(sorted) == ToSet(s) && Distinct(sorted) && Sorted(sorted)
  {
    SortByKeySorts(s);
    var sorted := SortByKey(s);
    hide SortByKey, Sorted;
    assert |sorted| == |multiset(sorted)| == |multiset(s)|;
    forall x ensures x in sorted <==> x in s {
      assert x in sorted <==> x in multiset(sorted);
      assert x in s <==> x in multiset(s);
    }
    forall i, j | 0 <= i < j < |sorted| ensures sorted[i] != sorted[j] {
      if sorted[i] == sorted[j] {
        TwiceInMultiset(sorted, i, j);
        OnceInMultiset(s, sorted[i]);
      }
    }
  }

  lemma {:induction false} CountDistinct(s: seq<Entry>)
    requires Distinct(s)
    ensures |ToSet(s)| == |s|
  {
    if s != [] {
      var n := |s| - 1;
      CountDistinct(s[..n]);
      assert ToSet(s) == ToSet(s[..n]) + {s[n]};
      assert s[n] !in ToSet(s[..n]);
    }
  }

  /** In a strictly sorted sequence exactly the first `k` elements sort below the one at `k`. */
  lemma {:induction false} BelowExactly(s: seq<Entry>, k: nat)
    requires k < |s| && Distinct(s) && Sorted(s) && Undominated(ToSet(s))
    ensures (set e | e in ToSet(s) && KeyLess(e, s[k])) == ToSet(s[..k])
  {
    hide KeyLess;
    forall i | 0 <= i < |s| ensures KeyLess(s[i], s[k]) <==> i < k {
      assert s[i] in ToSet(s) && s[k] in ToSet(s);
      if i < k { KeysDiffer(s[i], s[k]); }
      if KeyLess(s[k], s[k]) { KeyLessAsymmetric(s[k], s[k]); }
    }
    forall e ensures e in ToSet(s) && KeyLess(e, s[k]) <==> e in ToSet(s[..k]) {
      if e in ToSet(s[..k]) {
        var i :| 0 <= i < k && s[..k][i] == e;
        assert s[i] == e;
      }
    }
  }

  /** In a store built by ingestion, exactly half of the entries of the range, rounded down, sort below
      the entry at which it is split. */
  lemma {:induction false} MedianHalves(entries: seq<Entry>, r: Range3d)
    requires Distinct(entries) && Undominated(ToSet(entries)) && Select(entries, r) != []
    ensures var inside := Select(entries, r);
            |set e | e in ToSet(inside) && KeyLess(e, Median(inside))| == |inside| / 2
  {
    var inside := Select(entries, r);
    SelectMembers(entries, r);
    SelectDistinct(entries, r);
    assert ToSet(inside) <= ToSet(entries);
    SortedDistinct(inside);
    var sorted := SortByKey(inside);
    var k := |inside| / 2;
    hide Select, SortByKey, KeyLess, Sorted, Dominates;
    assert Median(inside) == sorted[k];
    BelowExactly(sorted, k);
    CountDistinct(sorted[..k]);
    assert forall e :: e in ToSet(inside) <==> e in ToSet(sorted);
    assert (set e | e in ToSet(inside) && KeyLess(e, Median(inside))) == ToSet(sorted[..k]);
  }
}
