/** The in-memory entry store: ingestion with prefix pruning, its event log, and subscriptions. */
module MemoryStore {
  import opened Orders
  import opened Entries
  import opened Ranges

  // ---------- one namespace's vector of entries ----------

  ghost function ToSet(s: seq<Entry>): set<Entry> { set e | e in s }

  ghost predicate Distinct(s: seq<Entry>) {
    forall i, j :: 0 <= i < j < |s| ==> s[i] != s[j]
  }

  /** The new entry is refused: already stored, or pruned by a stored newer entry at a prefix. */
  predicate Refused(entries: seq<Entry>, e: Entry) {
    exists i :: 0 <= i < |entries| && Accounts(entries[i], e)
  }

  function Survivors(entries: seq<Entry>, e: Entry): seq<Entry> {
    if entries == [] then []
    else
      var last := entries[|entries| - 1];
      Survivors(entries[..|entries| - 1], e) + if Dominates(e, last) then [] else [last]
  }

  lemma {:induction false} SurvivorsMembers(entries: seq<Entry>, e: Entry)
    ensures forall x :: x in Survivors(entries, e) <==> x in entries && !Dominates(e, x)
  {
    if entries != [] {
      var n := |entries| - 1;
      SurvivorsMembers(entries[..n], e);
      assert entries == entries[..n] + [entries[n]];
    }
  }

  /** Positions of the entries the new one prunes, in ascending order. */
  function Doomed(entries: seq<Entry>, e: Entry): seq<nat> {
    if entries == [] then []
    else
      var n := |entries| - 1;
      Doomed(entries[..n], e) + if Dominates(e, entries[n]) then [n] else []
  }

  lemma {:induction false} DoomedExact(entries: seq<Entry>, e: Entry)
    ensures var r := Doomed(entries, e);
            && (forall k :: 0 <= k < |r| ==> r[k] < |entries| && Dominates(e, entries[r[k]]))
            && (forall j, k :: 0 <= j < k < |r| ==> r[j] < r[k])
            && (forall i :: 0 <= i < |entries| && Dominates(e, entries[i]) ==> i in r)
  {
    if entries != [] {
      var n := |entries| - 1;
      DoomedExact(entries[..n], e);
      var q, r := Doomed(entries[..n], e), Doomed(entries, e);
      forall i | 0 <= i < |entries| && Dominates(e, entries[i]) ensures i in r {
        if i < n {
          assert entries[..n][i] == entries[i];
          assert i in q;
        }
      }
    }
  }

  function Ingest(entries: seq<Entry>, e: Entry): seq<Entry> {
    if Refused(entries, e) then entries else Survivors(entries, e) + [e]
  }

  lemma {:induction false} SurvivorsConcat(a: seq<Entry>, b: seq<Entry>, e: Entry)
    ensures Survivors(a + b, e) == Survivors(a, e) + Survivors(b, e)
  {
    if b == [] {
      assert a + b == a;
    } else {
      var n := |b| - 1;
      assert (a + b)[..|a + b| - 1] == a + b[..n];
      SurvivorsConcat(a, b[..n], e);
    }
  }

  lemma {:induction false} SurvivorsAll(a: seq<Entry>, e: Entry)
    requires forall i :: 0 <= i < |a| ==> !Dominates(e, a[i])
    ensures Survivors(a, e) == a
  {
    if a != [] {
      SurvivorsAll(a[..|a| - 1], e);
      assert a == a[..|a| - 1] + [a[|a| - 1]];
    }
  }

  lemma {:induction false} SurvivorsDistinct(a: seq<Entry>, e: Entry)
    requires Distinct(a)
    ensures Distinct(Survivors(a, e))
  {
    if a != [] {
      var n := |a| - 1;
      SurvivorsDistinct(a[..n], e);
      SurvivorsMembers(a[..n], e);
      var s := Survivors(a[..n], e);
      forall i | 0 <= i < |s| ensures s[i] != a[n] {
        assert s[i] in s;
        assert s[i] in a[..n];
      }
    }
  }

  /** Vector ingestion is set ingestion, and keeps the vector free of repetitions. */
  lemma {:induction false} IngestIsJoin(entries: seq<Entry>, e: Entry)
    requires Distinct(entries)
    ensures ToSet(Ingest(entries, e)) == Join(ToSet(entries), e)
    ensures Refused(entries, e) <==> Knows(ToSet(entries), e)
    ensures Distinct(Ingest(entries, e))
  {
    if Knows(ToSet(entries), e) {
      var d :| d in ToSet(entries) && Accounts(d, e);
      var i :| 0 <= i < |entries| && entries[i] == d;
    }
    if Refused(entries, e) {
      var i :| 0 <= i < |entries| && Accounts(entries[i], e);
      assert entries[i] in ToSet(entries);
    } else {
      SurvivorsDistinct(entries, e);
      SurvivorsMembers(entries, e);
      var s := Survivors(entries, e);
      forall i | 0 <= i < |s| ensures s[i] != e {
        assert s[i] in s;
        var k :| 0 <= k < |entries| && entries[k] == s[i];
      }
      assert ToSet(s + [e]) == ToSet(s) + {e};
    }
  }

  // ---------- whole histories ----------

  function IngestAll(arrivals: seq<Entry>): seq<Entry> {
    if arrivals == [] then []
    else Ingest(IngestAll(arrivals[..|arrivals| - 1]), arrivals[|arrivals| - 1])
  }

  /** The store holds exactly the arrivals that no other arrival prunes, each once. */
  lemma {:induction false} IngestAllIsMaximal(arrivals: seq<Entry>)
    ensures ToSet(IngestAll(arrivals)) == Maximal(ToSet(arrivals))
    ensures Distinct(IngestAll(arrivals))
  {
    if arrivals != [] {
      var n := |arrivals| - 1;
      IngestAllIsMaximal(arrivals[..n]);
      IngestIsJoin(IngestAll(arrivals[..n]), arrivals[n]);
      JoinOfMaximal(ToSet(arrivals[..n]), arrivals[n]);
      assert arrivals == arrivals[..n] + [arrivals[n]];
      assert ToSet(arrivals) == ToSet(arrivals[..n]) + {arrivals[n]};
    }
  }

  /** Neither order nor repetition of the arrivals matters. */
  lemma {:induction false} IngestOrderIrrelevant(xs: seq<Entry>, ys: seq<Entry>)
    requires ToSet(xs) == ToSet(ys)
    ensures ToSet(IngestAll(xs)) == ToSet(IngestAll(ys))
  {
    IngestAllIsMaximal(xs);
    IngestAllIsMaximal(ys);
  }

  /** At most one entry per (namespace, subspace, path). */
  lemma {:induction false} OneEntryPerKey(arrivals: seq<Entry>, i: nat, j: nat)
    requires i < |IngestAll(arrivals)| && j < |IngestAll(arrivals)|
    requires var s := IngestAll(arrivals);
             s[i].namespace == s[j].namespace && s[i].subspace == s[j].subspace && s[i].path == s[j].path
    ensures i == j
  {
    IngestAllIsMaximal(arrivals);
    var s := IngestAll(arrivals);
    SameKeyComparable(s[i], s[j]);
    assert s[i] in ToSet(s) && s[j] in ToSet(s);
  }

  // ---------- the removal loop as written ----------

  function RemoveAt(s: seq<Entry>, i: nat): seq<Entry>
    requires i < |s|
  {
    s[..i] + s[i + 1..]
  }

  /** src/store/memory.rs:188-189 walks the collected indices upwards while the vector
      shrinks under them; an index past the end makes the removal panic (`None`). */
  function RemoveAscending(s: seq<Entry>, indices: seq<nat>): Option<seq<Entry>>
    decreases |indices|
  {
    if indices == [] then Some(s)
    else if indices[0] >= |s| then None
    else RemoveAscending(RemoveAt(s, indices[0]), indices[1..])
  }

  lemma {:induction false} RemoveAscendingKeepsBelow(s: seq<Entry>, indices: seq<nat>, p: nat)
    requires forall k :: 0 <= k < |indices| ==> p < indices[k]
    requires p < |s|
    ensures var r := RemoveAscending(s, indices); r.Some? ==> p < |r.value| && r.value[p] == s[p]
    decreases |indices|
  {
    if indices != [] && indices[0] < |s| {
      RemoveAscendingKeepsBelow(RemoveAt(s, indices[0]), indices[1..], p);
    }
  }

  lemma {:induction false} SurvivorsAround(a: seq<Entry>, x: Entry, b: seq<Entry>, e: Entry)
    requires Survivors(a, e) == a && Survivors([x], e) == [] && Survivors(b, e) == b
    ensures Survivors(a + [x] + b, e) == a + b
  {
    hide Survivors;
    SurvivorsConcat(a, [x], e);
    SurvivorsConcat(a + [x], b, e);
  }

  lemma {:induction false} RemoveOneIsSurvivors(entries: seq<Entry>, i: nat, e: Entry)
    requires i < |entries| && Dominates(e, entries[i])
    requires forall k :: 0 <= k < |entries| && k != i ==> !Dominates(e, entries[k])
    ensures Survivors(entries, e) == RemoveAt(entries, i)
  {
    var a, b := entries[..i], entries[i + 1..];
    assert Survivors([entries[i]], e) == [];
    hide Survivors;
    forall k | 0 <= k < |b| ensures !Dominates(e, b[k]) { assert b[k] == entries[i + 1 + k]; }
    SurvivorsAll(a, e);
    SurvivorsAll(b, e);
    SurvivorsAround(a, entries[i], b, e);
    assert entries == a + [entries[i]] + b;
  }

  /** The loop as written prunes what it should if and only if at most one stored entry is
      to be pruned; with two or more, the second doomed entry always stays behind. */
  lemma {:induction false} AscendingRemovalExact(entries: seq<Entry>, e: Entry)
    ensures RemoveAscending(entries, Doomed(entries, e)) == Some(Survivors(entries, e))
            <==> |Doomed(entries, e)| <= 1
  {
    var d := Doomed(entries, e);
    DoomedExact(entries, e);
    if d == [] {
      SurvivorsAll(entries, e);
    } else if |d| == 1 {
      assert d[1..] == [];
      RemoveOneIsSurvivors(entries, d[0], e);
    } else {
      SecondDoomedStays(entries, e);
    }
  }

  lemma {:induction false} SecondDoomedStays(entries: seq<Entry>, e: Entry)
    requires |Doomed(entries, e)| >= 2
    ensures RemoveAscending(entries, Doomed(entries, e)) != Some(Survivors(entries, e))
  {
    var d := Doomed(entries, e);
    DoomedExact(entries, e);
    var s := RemoveAt(entries, d[0]);
    var p := d[1] - 1;
    assert s[p] == entries[d[1]];
    RemoveAscendingKeepsBelow(s, d[1..], p);
    var r := RemoveAscending(s, d[1..]);
    if r.Some? {
      SurvivorsMembers(entries, e);
      assert r.value[p] in r.value;
    }
  }

  /** Two stored siblings below the new entry's path, then an unrelated entry: the loop as
      written keeps the second sibling, although pruned, and loses the unrelated entry. */
  lemma {:induction false} AscendingRemovalCounterexample() returns (stored: seq<Entry>, e: Entry)
    ensures |stored| == 3 && Undominated(ToSet(stored)) && !Refused(stored, e)
    ensures Dominates(e, stored[1]) && !Dominates(e, stored[2])
    ensures RemoveAscending(stored, Doomed(stored, e)) == Some([stored[1]])
  {
    var a := Entry([], [1], [[1]], 1, [], 0);
    var b := Entry([], [1], [[2]], 1, [], 0);
    var c := Entry([], [2], [[1]], 1, [], 0);
    e := Entry([], [1], [], 2, [], 0);
    stored := [a, b, c];
    assert Dominates(e, a) && Dominates(e, b) && !Dominates(e, c);
    assert !Dominates(a, e) && !Dominates(b, e) && !Dominates(c, e);
    assert !Dominates(a, b) && !Dominates(b, a) by { assert a.path[0] == [1] && b.path[0] == [2]; }
    assert !Dominates(a, c) && !Dominates(b, c) && !Dominates(c, a) && !Dominates(c, b);
    DominatesIrreflexive(a);
    DominatesIrreflexive(b);
    DominatesIrreflexive(c);
    RemovalOfFirstTwo(a, b, c, e);
    hide Dominates, RemoveAscending, Doomed;
  }

  lemma {:induction false} RemovalOfFirstTwo(a: Entry, b: Entry, c: Entry, e: Entry)
    requires Dominates(e, a) && Dominates(e, b) && !Dominates(e, c)
    ensures RemoveAscending([a, b, c], Doomed([a, b, c], e)) == Some([b])
  {
    hide Dominates;
    assert [a, b, c][..2] == [a, b] && [a, b][..1] == [a] && [a][..0] == [];
    assert Doomed([a], e) == [0];
    assert Doomed([a, b], e) == [0, 1];
    assert RemoveAt([a, b, c], 0) == [b, c] && RemoveAt([b, c], 1) == [b];
    assert [0, 1][1..] == [1] && [1][1..] == [];
    assert RemoveAscending([b, c], [1]) == Some([b]);
  }
}
