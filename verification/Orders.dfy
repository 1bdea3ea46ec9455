/** Byte strings, paths and their total orders.

    Subspace ids, payload digests and path components are byte strings, compared
    lexicographically; a path is a sequence of components, compared component by
    component, with a proper prefix below every one of its extensions. */
module Orders {

  type byte = x: int | 0 <= x < 256

  type u64 = x: int | 0 <= x < 0x1_0000_0000_0000_0000

  type Bytes = seq<byte>

  type Path = seq<Bytes>

  datatype Option<+T> = None | Some(value: T)

  // ---------- byte strings ----------

  predicate BytesLess(a: Bytes, b: Bytes) {
    if b == [] then false
    else if a == [] then true
    else a[0] < b[0] || (a[0] == b[0] && BytesLess(a[1..], b[1..]))
  }

  lemma {:induction false} BytesLessIrreflexive(a: Bytes)
    ensures !BytesLess(a, a)
  {
    if a != [] { BytesLessIrreflexive(a[1..]); }
  }

  lemma {:induction false} BytesLessTransitive(a: Bytes, b: Bytes, c: Bytes)
    requires BytesLess(a, b) && BytesLess(b, c)
    ensures BytesLess(a, c)
  {
    if a != [] && a[0] == b[0] && b[0] == c[0] {
      BytesLessTransitive(a[1..], b[1..], c[1..]);
    }
  }

  lemma {:induction false} BytesLessTotal(a: Bytes, b: Bytes)
    ensures BytesLess(a, b) || a == b || BytesLess(b, a)
  {
    if a != [] && b != [] {
      BytesLessTotal(a[1..], b[1..]);
      assert a == [a[0]] + a[1..] && b == [b[0]] + b[1..];
    }
  }

  // ---------- paths ----------

  predicate PathLess(p: Path, q: Path) {
    if q == [] then false
    else if p == [] then true
    else BytesLess(p[0], q[0]) || (p[0] == q[0] && PathLess(p[1..], q[1..]))
  }

  lemma {:induction false} PathLessIrreflexive(p: Path)
    ensures !PathLess(p, p)
  {
    if p != [] {
      BytesLessIrreflexive(p[0]);
      PathLessIrreflexive(p[1..]);
    }
  }

  lemma {:induction false} PathLessTransitive(p: Path, q: Path, r: Path)
    requires PathLess(p, q) && PathLess(q, r)
    ensures PathLess(p, r)
  {
    if p != [] {
      if BytesLess(p[0], q[0]) && BytesLess(q[0], r[0]) {
        BytesLessTransitive(p[0], q[0], r[0]);
      } else if p[0] == q[0] && q[0] == r[0] && !BytesLess(p[0], r[0]) {
        BytesLessIrreflexive(p[0]);
        PathLessTransitive(p[1..], q[1..], r[1..]);
      }
    }
  }

  lemma {:induction false} PathLessTotal(p: Path, q: Path)
    ensures PathLess(p, q) || p == q || PathLess(q, p)
  {
    if p != [] && q != [] {
      BytesLessTotal(p[0], q[0]);
      PathLessTotal(p[1..], q[1..]);
      assert p == [p[0]] + p[1..] && q == [q[0]] + q[1..];
    }
  }
}
