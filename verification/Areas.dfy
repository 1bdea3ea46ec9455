/** Areas: their intersection, and their conversion into 3d ranges. */
module Areas {
  import opened Orders
  import opened Entries
  import opened Ranges

  // ---------- the next byte string of the same length ----------

  /** Increment the last byte that is not 255, zeroing the ones after it. */
  function Incremented(v: Bytes): (r: Option<Bytes>)
    ensures r.Some? ==> |r.value| == |v|
  {
    if v == [] then None
    else
      var n := |v| - 1;
      if v[n] != 255 then Some(v[..n] + [v[n] + 1])
      else
        var front := Incremented(v[..n]);
        if front.None? then None else Some(front.value + [0])
  }

  lemma {:induction false} LessSnoc(a: Bytes, b: Bytes, x: byte, y: byte)
    requires |a| == |b|
    ensures BytesLess(a + [x], b + [y]) <==> BytesLess(a, b) || (a == b && x < y)
  {
    if a == [] {
      assert ([] + [x])[1..] == [] && ([] + [y])[1..] == [];
    } else {
      assert (a + [x])[1..] == a[1..] + [x] && (b + [y])[1..] == b[1..] + [y];
      LessSnoc(a[1..], b[1..], x, y);
      assert a == [a[0]] + a[1..] && b == [b[0]] + b[1..];
    }
  }

  /** The increment is exactly the next byte string of its length: nothing of that length lies
      strictly between; and there is none exactly when all bytes are 255, the largest one. */
  lemma {:induction false} IncrementedIsNext(v: Bytes, s: Bytes)
    requires |s| == |v|
    ensures match Incremented(v)
            case Some(next) => BytesLess(v, next) && (BytesLess(v, s) <==> !BytesLess(s, next))
            case None => !BytesLess(v, s) && forall i :: 0 <= i < |v| ==> v[i] == 255
    ensures Incremented(v).Some? ==> exists i :: 0 <= i < |v| && v[i] != 255
  {
    if v != [] {
      var n := |v| - 1;
      var a, x, b, y := v[..n], v[n], s[..n], s[n];
      assert v == a + [x] && s == b + [y];
      LessSnoc(a, b, x, y);
      IncrementedIsNext(a, b);
      BytesLessTotal(a, b);
      if x != 255 {
        LessSnoc(b, a, y, x + 1);
        LessSnoc(a, a, x, x + 1);
        NotBoth(a, b);
      } else if Incremented(a).Some? {
        var next := Incremented(a).value;
        LessSnoc(b, next, y, 0);
        LessSnoc(a, next, x, 0);
        BytesLessIrreflexive(next);
        BytesLessTotal(b, next);
        assert exists i :: 0 <= i < |v| && v[i] != 255 by {
          var i :| 0 <= i < |a| && a[i] != 255;
          assert v[i] == a[i];
        }
      }
    }
  }

  lemma {:induction false} NotBoth(a: Bytes, b: Bytes)
    ensures !(BytesLess(a, b) && BytesLess(b, a)) && !BytesLess(a, a)
  {
    BytesLessIrreflexive(a);
    if BytesLess(a, b) && BytesLess(b, a) { BytesLessTransitive(a, b, a); }
  }

  /** Incrementing from position `k` backwards, with `tail` behind it. */
  function IncrementedFrom(v: Bytes, k: nat, tail: Bytes): Option<Bytes>
    requires k <= |v|
  {
    var front := Incremented(v[..k]);
    if front.None? then None else Some(front.value + tail)
  }

  lemma {:induction false} IncrementStep(v: Bytes, k: nat, tail: Bytes)
    requires k < |v|
    ensures IncrementedFrom(v, k + 1, tail)
            == if v[k] != 255 then Some(v[..k] + [v[k] + 1] + tail) else IncrementedFrom(v, k, [0] + tail)
  {
    assert v[..k + 1][..k] == v[..k] && v[..k + 1][k] == v[k];
    var front := Incremented(v[..k]);
    if front.Some? { assert (front.value + [0]) + tail == front.value + ([0] + tail); }
  }

  /** The increment in place, from the last byte backwards. */
  method IncrementByOne(value: seq<byte>) returns (r: Option<Bytes>)
    ensures r == Incremented(value)
  {
    hide Incremented, IncrementedFrom;
    var out := new byte[|value|](i requires 0 <= i < |value| => value[i]);
    var k := |value|;
    IncrementAll(value);
    assert value[..k] == value && out[k..] == [];
    while k > 0
      invariant 0 <= k <= |value|
      invariant out[..k] == value[..k]
      invariant Incremented(value) == IncrementedFrom(value, k, out[k..])
    {
      k := k - 1;
      ghost var tail := out[k + 1..];
      IncrementStep(value, k, tail);
      assert out[..k + 1][k] == value[..k + 1][k] && out[..k] == out[..k + 1][..k] && value[..k] == value[..k + 1][..k];
      if out[k] != 255 {
        out[k] := out[k] + 1;
        assert out[..] == value[..k] + [value[k] + 1] + tail;
        return Some(out[..]);
      }
      out[k] := 0;
      assert out[k..] == [0] + tail;
    }
    IncrementNone(value, out[k..]);
    return None;
  }

  lemma {:induction false} IncrementAll(v: Bytes)
    ensures IncrementedFrom(v, |v|, []) == Incremented(v)
  {
    assert v[..|v|] == v;
    if Incremented(v).Some? { assert Incremented(v).value + [] == Incremented(v).value; }
  }

  lemma {:induction false} IncrementNone(v: Bytes, tail: Bytes)
    ensures IncrementedFrom(v, 0, tail) == None
  {}

  // ---------- areas to ranges ----------

  const SUBSPACE_LENGTH := 32

  function ZeroBytes(n: nat): (r: Bytes)
    ensures |r| == n
  {
    if n == 0 then [] else [0] + ZeroBytes(n - 1)
  }

  /** `next(p)` is the end of the paths that have `p` as a prefix. */
  ghost predicate SkipsPrefixed(next: Path -> Option<Path>) {
    forall p: Path, q: Path :: EndsAt(p, next(p), q)
  }

  predicate EndsAt(p: Path, end: Option<Path>, q: Path) {
    p <= q <==> !PathLess(q, p) && (end.Some? ==> PathLess(q, end.value))
  }

  function ToRange(next: Path -> Option<Path>, a: Area): Range3d {
    var subspaces :=
      if a.subspace.AnySubspace? then Range(ZeroBytes(SUBSPACE_LENGTH), Open)
      else
        var end := Incremented(a.subspace.id);
        Range(a.subspace.id, if end.None? then Open else Closed(end.value));
    var paths := Range(a.path, if next(a.path).None? then Open else Closed(next(a.path).value));
    Range3d(subspaces, paths, a.times)
  }

  lemma {:induction false} ZerosAreLeast(s: Bytes)
    ensures !BytesLess(s, ZeroBytes(|s|))
  {
    if s != [] {
      assert ZeroBytes(|s|)[1..] == ZeroBytes(|s| - 1);
      ZerosAreLeast(s[1..]);
    }
  }

  /** The range covers exactly the entries of the area. */
  lemma {:induction false} ToRangeExact(next: Path -> Option<Path>, a: Area, e: Entry)
    requires SkipsPrefixed(next)
    requires |e.subspace| == SUBSPACE_LENGTH && (a.subspace.Id? ==> |a.subspace.id| == SUBSPACE_LENGTH)
    ensures IncludesEntry(ToRange(next, a), e) <==> AreaIncludesEntry(a, e)
  {
    assert EndsAt(a.path, next(a.path), e.path);
    assert IncludesPath(ToRange(next, a).paths, e.path) <==> a.path <= e.path;
    hide SkipsPrefixed, PathLess, ZeroBytes;
    if a.subspace.AnySubspace? {
      ZerosAreLeast(e.subspace);
    } else {
      IncrementedIsNext(a.subspace.id, e.subspace);
      IncrementedIsNext(a.subspace.id, a.subspace.id);
      BytesLessTotal(e.subspace, a.subspace.id);
      NotBoth(a.subspace.id, e.subspace);
    }
  }

  /** Without limits on path lengths, appending a zero byte to the last component ends the
      paths prefixed by `p`. */
  function NextUnprefixed(p: Path): Option<Path> {
    if p == [] then None else Some(p[..|p| - 1] + [p[|p| - 1] + [0]])
  }

  lemma {:induction false} ComponentBetween(c: Bytes, d: Bytes)
    ensures !BytesLess(d, c) && BytesLess(d, c + [0]) <==> c == d
  {
    if c == [] {
      assert ([] + [0])[1..] == [];
    } else if d != [] {
      assert (c + [0])[0] == c[0] && (c + [0])[1..] == c[1..] + [0];
      ComponentBetween(c[1..], d[1..]);
      assert c == [c[0]] + c[1..] && d == [d[0]] + d[1..];
    }
  }

  lemma {:induction false} NextUnprefixedSkips(p: Path, q: Path)
    ensures EndsAt(p, NextUnprefixed(p), q)
  {
    if p != [] && q != [] {
      var next := NextUnprefixed(p).value;
      ComponentBetween(p[0], q[0]);
      BytesLessIrreflexive(p[0]);
      if |p| == 1 {
        assert next == [p[0] + [0]] && next[1..] == [];
        assert p[1..] == [];
        assert !PathLess(q[1..], []);
        assert p <= q <==> q[0] == p[0];
        assert PathLess(q, p) <==> BytesLess(q[0], p[0]);
        assert PathLess(q, next) <==> BytesLess(q[0], p[0] + [0]);
      } else {
        NextUnprefixedSkips(p[1..], q[1..]);
        assert next[0] == p[0] && next[1..] == NextUnprefixed(p[1..]).value;
        assert p <= q <==> p[0] == q[0] && p[1..] <= q[1..];
        NotBoth(p[0], q[0]);
        BytesLessTotal(p[0], q[0]);
      }
    }
  }

  lemma {:induction false} SkipsPrefixedWitness()
    ensures SkipsPrefixed(NextUnprefixed)
  {
    forall p: Path, q: Path ensures EndsAt(p, NextUnprefixed(p), q) {
      NextUnprefixedSkips(p, q);
    }
  }

  // ---------- intersections ----------

  function LaterStart(a: Range<u64>, b: Range<u64>): u64 { if a.start <= b.start then b.start else a.start }

  function EarlierEnd(a: Range<u64>, b: Range<u64>): RangeEnd<u64> {
    if a.end.Open? then b.end
    else if b.end.Open? then a.end
    else if a.end.value <= b.end.value then a.end
    else b.end
  }

  function TimesIntersection(a: Range<u64>, b: Range<u64>): Option<Range<u64>> {
    var start, end := LaterStart(a, b), EarlierEnd(a, b);
    if end.Closed? && end.value <= start then None else Some(Range(start, end))
  }

  function AreaIntersection(a: Area, b: Area): Option<Area> {
    var times := TimesIntersection(a.times, b.times);
    if a.subspace.Id? && b.subspace.Id? && a.subspace != b.subspace then None
    else if times.None? then None
    else
      var subspace := if a.subspace.Id? then a.subspace else b.subspace;
      if a.path <= b.path then Some(Area(subspace, b.path, times.value))
      else if b.path <= a.path then Some(Area(subspace, a.path, times.value))
      else None
  }

  lemma {:induction false} PrefixesComparable(p: Path, q: Path, r: Path)
    requires p <= r && q <= r
    ensures p <= q || q <= p
  {}

  /** The intersection holds exactly the entries of both areas, whichever comes first; and areas
      without an intersection share no entry. */
  lemma {:induction false} AreaIntersectionExact(a: Area, b: Area, e: Entry)
    ensures AreaIncludesEntry(a, e) && AreaIncludesEntry(b, e)
            <==> AreaIntersection(a, b).Some? && AreaIncludesEntry(AreaIntersection(a, b).value, e)
    ensures AreaIntersection(a, b) == AreaIntersection(b, a)
  {
    assert a.path <= b.path && b.path <= a.path ==> a.path == b.path;
    if a.path <= e.path && b.path <= e.path { PrefixesComparable(a.path, b.path, e.path); }
  }

  /** `a` includes all of `b`. */
  predicate AreaIncludesArea(a: Area, b: Area) {
    && (a.subspace.AnySubspace? || a.subspace == b.subspace)
    && a.path <= b.path
    && a.times.start <= b.times.start
    && (a.times.end.Closed? ==> b.times.end.Closed? && b.times.end.value <= a.times.end.value)
  }

  lemma {:induction false} AreaIncludesAreaSound(a: Area, b: Area, e: Entry)
    requires AreaIncludesArea(a, b) && AreaIncludesEntry(b, e)
    ensures AreaIncludesEntry(a, e)
  {}

  /** An area with a time in it; ranges are constructed that way. */
  predicate Inhabited(a: Area) { a.times.end.Closed? ==> a.times.start < a.times.end.value }

  function EntryAt(subspace: SubspaceId, path: Path, time: u64): Entry { Entry([], subspace, path, time, [], 0) }

  /** An entry of `b` that `a` leaves out. */
  ghost function Missed(a: Area, b: Area): Entry {
    var subspace :=
      if b.subspace.Id? then b.subspace.id
      else if a.subspace.Id? && a.subspace.id == [] then [0]
      else [];
    var late := if a.times.end.Closed? && a.times.end.value > b.times.start then a.times.end.value else b.times.start;
    if a.times.start <= b.times.start && a.times.end.Closed? && (b.times.end.Open? || a.times.end.value < b.times.end.value)
    then EntryAt(subspace, b.path, late)
    else EntryAt(subspace, b.path, b.times.start)
  }

  lemma {:induction false} MissedIsMissed(a: Area, b: Area)
    requires Inhabited(b) && !AreaIncludesArea(a, b)
    ensures AreaIncludesEntry(b, Missed(a, b)) && !AreaIncludesEntry(a, Missed(a, b))
  {}

  /** An area includes another with a time in it exactly if it includes all its entries. */
  lemma {:induction false} AreaIncludesAreaExact(a: Area, b: Area)
    requires Inhabited(b)
    ensures AreaIncludesArea(a, b) <==> forall e :: AreaIncludesEntry(b, e) ==> AreaIncludesEntry(a, e)
  {
    if AreaIncludesArea(a, b) {
      forall e | AreaIncludesEntry(b, e) ensures AreaIncludesEntry(a, e) { AreaIncludesAreaSound(a, b, e); }
    } else {
      MissedIsMissed(a, b);
    }
  }
}
