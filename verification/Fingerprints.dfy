/** Fingerprints: the XOR monoid over 32-byte strings, lifted from entries.

    The hash that lifts a single entry is a parameter of every definition here. */
module Fingerprints {
  import opened Entries
  import opened MemoryStore

  const FINGERPRINT_SIZE := 32

  function Zeros(n: nat): (r: seq<bv8>)
    ensures |r| == n && forall i :: 0 <= i < n ==> r[i] == 0
  {
    if n == 0 then [] else Zeros(n - 1) + [0]
  }

  type Fingerprint = f: seq<bv8> | |f| == FINGERPRINT_SIZE witness Zeros(FINGERPRINT_SIZE)

  type Lift = Entry -> Fingerprint

  function Xor(x: bv8, y: bv8): bv8 { x ^ y }

  function Zero(): bv8 { 0 }

  function Neutral(): Fingerprint {
    seq(FINGERPRINT_SIZE, i requires 0 <= i < FINGERPRINT_SIZE => Zero())
  }

  predicate IsEmpty(f: Fingerprint) { f == Neutral() }

  function Combine(a: Fingerprint, b: Fingerprint): Fingerprint {
    seq(FINGERPRINT_SIZE, i requires 0 <= i < FINGERPRINT_SIZE => Xor(a[i], b[i]))
  }

  lemma {:induction false} XorByte(x: bv8, y: bv8, z: bv8)
    ensures x ^ y == y ^ x && (x ^ y) ^ z == x ^ (y ^ z) && x ^ x == 0 && x ^ 0 == x
  {}

  lemma {:induction false} CombineCommutes(a: Fingerprint, b: Fingerprint)
    ensures Combine(a, b) == Combine(b, a)
  {}

  lemma {:induction false} CombineAssociates(a: Fingerprint, b: Fingerprint, c: Fingerprint)
    ensures Combine(Combine(a, b), c) == Combine(a, Combine(b, c))
  {}

  /** The neutral element is a unit, and every fingerprint is its own inverse. */
  lemma {:induction false} CombineUnitAndInverse(a: Fingerprint)
    ensures Combine(a, Neutral()) == a && Combine(a, a) == Neutral()
  {
    var unit, square := Combine(a, Neutral()), Combine(a, a);
    forall i | 0 <= i < FINGERPRINT_SIZE ensures unit[i] == a[i] && square[i] == Neutral()[i] {
      XorByte(a[i], a[i], a[i]);
      assert Neutral()[i] == Zero() == 0;
      assert unit[i] == Xor(a[i], Neutral()[i]) == a[i] ^ 0;
    }
    assert unit == a;
    assert square == Neutral();
  }

  function FingerprintOf(lift: Lift, s: seq<Entry>): Fingerprint {
    if s == [] then Neutral()
    else Combine(FingerprintOf(lift, s[..|s| - 1]), lift(s[|s| - 1]))
  }

  lemma {:induction false} FingerprintConcat(lift: Lift, a: seq<Entry>, b: seq<Entry>)
    ensures FingerprintOf(lift, a + b) == Combine(FingerprintOf(lift, a), FingerprintOf(lift, b))
  {
    hide Combine;
    if b == [] {
      assert a + b == a;
      CombineUnitAndInverse(FingerprintOf(lift, a));
    } else {
      var n := |b| - 1;
      assert (a + b)[..|a + b| - 1] == a + b[..n];
      FingerprintConcat(lift, a, b[..n]);
      CombineAssociates(FingerprintOf(lift, a), FingerprintOf(lift, b[..n]), lift(b[n]));
    }
  }

  /** Moving one entry to the end of a sequence does not change the fingerprint. */
  lemma {:induction false} FingerprintMoveToEnd(lift: Lift, a: seq<Entry>, x: Entry, b: seq<Entry>)
    ensures FingerprintOf(lift, a + [x] + b) == FingerprintOf(lift, a + b + [x])
  {
    var fa, fx, fb := FingerprintOf(lift, a), FingerprintOf(lift, [x]), FingerprintOf(lift, b);
    hide FingerprintOf, Combine;
    FingerprintConcat(lift, a + [x], b);
    FingerprintConcat(lift, a, [x]);
    FingerprintConcat(lift, a + b, [x]);
    FingerprintConcat(lift, a, b);
    CombineAssociates(fa, fx, fb);
    CombineCommutes(fx, fb);
    CombineAssociates(fa, fb, fx);
  }

  lemma {:induction false} DropOne(a: seq<Entry>, x: Entry, b: seq<Entry>, u: seq<Entry>)
    requires multiset(a + [x] + b) == multiset(u + [x])
    ensures multiset(a + b) == multiset(u)
  {
    assert multiset(a + [x] + b) == multiset(a + b) + multiset{x};
    assert multiset(u) == multiset(u + [x]) - multiset{x};
    assert multiset(a + b) == multiset(a + [x] + b) - multiset{x};
  }

  /** A fingerprint depends only on which entries were added, not on their order. */
  lemma {:induction false} FingerprintOrderIrrelevant(lift: Lift, s: seq<Entry>, t: seq<Entry>)
    requires multiset(s) == multiset(t)
    ensures FingerprintOf(lift, s) == FingerprintOf(lift, t)
    decreases |t|
  {
    hide Combine;
    if t == [] {
      assert |s| == |multiset(s)| == 0;
    } else {
      var n := |t| - 1;
      var x := t[n];
      assert t == t[..n] + [x];
      assert x in multiset(s);
      var i :| 0 <= i < |s| && s[i] == x;
      var a, b := s[..i], s[i + 1..];
      assert s == a + [x] + b;
      DropOne(a, x, b, t[..n]);
      FingerprintOrderIrrelevant(lift, a + b, t[..n]);
      FingerprintMoveToEnd(lift, a, x, b);
      assert (a + b + [x])[..|a + b|] == a + b;
    }
  }

  // ---------- the imperative forms ----------

  /** Bytewise `^=` over the buffer. */
  method BitXorAssign(buffer: array<bv8>, rhs: Fingerprint)
    requires buffer.Length == FINGERPRINT_SIZE
    modifies buffer
    ensures buffer[..] == Combine(old(buffer[..]), rhs)
  {
    for i := 0 to FINGERPRINT_SIZE
      invariant forall k :: 0 <= k < i ==> buffer[k] == old(buffer[k]) ^ rhs[k]
      invariant forall k :: i <= k < FINGERPRINT_SIZE ==> buffer[k] == old(buffer[k])
    {
      buffer[i] := buffer[i] ^ rhs[i];
    }
  }

  /** Fingerprint of a sequence of entries, accumulated in place. */
  method FromEntries(lift: Lift, entries: seq<Entry>) returns (f: Fingerprint)
    ensures f == FingerprintOf(lift, entries)
  {
    var buffer := new bv8[FINGERPRINT_SIZE](i requires 0 <= i < FINGERPRINT_SIZE => Neutral()[i]);
    for i := 0 to |entries|
      invariant buffer[..] == FingerprintOf(lift, entries[..i])
    {
      BitXorAssign(buffer, lift(entries[i]));
      assert entries[..i + 1][..i] == entries[..i];
    }
    assert entries[..|entries|] == entries;
    f := buffer[..];
  }
}
