/** What the persistent store holds, against set-level ingestion. */
module StoredContents {
  import opened Orders
  import opened Entries
  import opened TokenTables

  ghost function Contents(t: Tables): set<Entry> { set p | p in t.entries :: t.entries[p].entry }

  lemma {:induction false} ContentsExact(t: Tables, x: Entry)
    requires TokensOk(t)
    ensures x in Contents(t) <==> PointOf(x) in t.entries && t.entries[PointOf(x)].entry == x
  {
    hide Users;
  }

  /** The new entry's own point is overwritten, and what is strictly older at or below its path goes. */
  predicate Displaces(d: Entry, x: Entry) {
    && d.namespace == x.namespace && d.subspace == x.subspace
    && ((d.timestamp > x.timestamp && d.path <= x.path) || (d.timestamp == x.timestamp && d.path == x.path))
  }

  lemma {:induction false} IngestContents(t: Tables, e: Entry, id: TokenId, cap: WriteCap, order: seq<Point>, x: Entry)
    requires TokensOk(t) && Enumerates(order, Candidates(t, e))
    ensures var r := IngestTokens(t, e, id, cap, order);
            r.Some? && (x in Contents(r.value) <==> x == e || (x in Contents(t) && !Displaces(e, x)))
  {
    IngestKeepsTokens(t, e, id, cap, order);
    var r := IngestTokens(t, e, id, cap, order);
    hide TokensOk, IngestTokens, Contents, Enumerates;
    ContentsExact(t, x);
    ContentsExact(r.value, x);
  }

  /** What a caller can check beforehand: the entry is stored and would prune nothing; or it is not,
      nothing stored prunes it, and it prunes nothing of its own timestamp below its path. */
  ghost predicate Joins(t: Tables, e: Entry) {
    if e in Contents(t) then Candidates(t, e) == {}
    else
      && (forall d :: d in Contents(t) ==> !Dominates(d, e))
      && (forall x :: x in Contents(t) && x.timestamp == e.timestamp && e.path < x.path ==> !Dominates(e, x))
  }

  lemma {:induction false} HeldCandidates(t: Tables, e: Entry)
    requires TokensOk(t) && e in Contents(t)
    ensures Candidates(t, e) == {} <==> forall x :: x in Contents(t) && Displaces(e, x) ==> x == e
  {
    hide Users;
    if Candidates(t, e) != {} {
      var p :| p in Candidates(t, e);
      assert t.entries[p].entry in Contents(t) && Displaces(e, t.entries[p].entry);
    } else {
      forall x | x in Contents(t) && Displaces(e, x) ensures x == e {
        ContentsExact(t, x);
        ContentsExact(t, e);
        assert PointOf(x) !in Candidates(t, e);
      }
    }
  }

  lemma {:induction false} OwnPointIsDominated(e: Entry, x: Entry)
    requires Displaces(e, x) && x != e && !Dominates(x, e)
    ensures Dominates(e, x)
  {
    if e.timestamp == x.timestamp { SameKeyComparable(e, x); }
  }

  lemma {:induction false} DominatedIsDisplaced(e: Entry, x: Entry)
    requires Dominates(e, x)
    ensures Displaces(e, x) || (x.timestamp == e.timestamp && e.path < x.path)
  {}

  lemma {:induction false} OwnTimestampStays(e: Entry, x: Entry)
    requires x.timestamp == e.timestamp && e.path < x.path
    ensures !Displaces(e, x)
  {}

  /** The store's ingestion is the set-level one if and only if the entry joins. */
  lemma {:induction false} IngestIsJoinExactly(t: Tables, e: Entry, id: TokenId, cap: WriteCap, order: seq<Point>)
    requires TokensOk(t) && Enumerates(order, Candidates(t, e))
    ensures var r := IngestTokens(t, e, id, cap, order);
            r.Some? && (Contents(r.value) == Join(Contents(t), e) <==> Joins(t, e))
  {
    IngestKeepsTokens(t, e, id, cap, order);
    var before, after := Contents(t), Contents(IngestTokens(t, e, id, cap, order).value);
    forall x ensures x in after <==> x == e || (x in before && !Displaces(e, x)) {
      IngestContents(t, e, id, cap, order, x);
    }
    if e in before { HeldCandidates(t, e); }
    hide IngestTokens, Contents, Candidates, TokensOk, Enumerates;
    if e in before {
      assert Accounts(e, e);
      HeldJoins(before, after, e);
    } else {
      NewJoins(before, after, e);
    }
  }

  lemma {:induction false} HeldJoins(before: set<Entry>, after: set<Entry>, e: Entry)
    requires e in before && Knows(before, e)
    requires forall x :: x in after <==> x == e || (x in before && !Displaces(e, x))
    ensures after == Join(before, e) <==> forall x :: x in before && Displaces(e, x) ==> x == e
  {
    hide Displaces, Knows;
    if after == before {
      forall x | x in before && Displaces(e, x) ensures x == e { assert x in after; }
    }
  }

  lemma {:induction false} NewJoins(before: set<Entry>, after: set<Entry>, e: Entry)
    requires e !in before
    requires forall x :: x in after <==> x == e || (x in before && !Displaces(e, x))
    ensures after == Join(before, e) <==>
            && (forall d :: d in before ==> !Dominates(d, e))
            && (forall x :: x in before && x.timestamp == e.timestamp && e.path < x.path ==> !Dominates(e, x))
  {
    assert e in after;
    hide Displaces, Dominates;
    if Knows(before, e) {
      var d :| d in before && Accounts(d, e);
      assert Dominates(d, e);
    } else {
      assert forall d :: d in before && Dominates(d, e) ==> Accounts(d, e);
      UnknownJoins(before, after, e);
    }
  }

  lemma {:induction false} UnknownJoins(before: set<Entry>, after: set<Entry>, e: Entry)
    requires e !in before && !Knows(before, e) && forall d :: d in before ==> !Dominates(d, e)
    requires forall x :: x in after <==> x == e || (x in before && !Displaces(e, x))
    ensures after == Join(before, e) <==>
            forall x :: x in before && x.timestamp == e.timestamp && e.path < x.path ==> !Dominates(e, x)
  {
    hide Displaces, Dominates, Knows;
    if after == Join(before, e) {
      forall x | x in before && x.timestamp == e.timestamp && e.path < x.path ensures !Dominates(e, x) {
        OwnTimestampStays(e, x);
        assert x in Join(before, e);
      }
    }
    if forall x :: x in before && x.timestamp == e.timestamp && e.path < x.path ==> !Dominates(e, x) {
      forall x ensures x in after <==> x in Join(before, e) {
        if x in before && Displaces(e, x) && x != e { OwnPointIsDominated(e, x); }
        if x in before && Dominates(e, x) { DominatedIsDisplaced(e, x); }
      }
    }
  }

  ghost function Arrivals(ops: seq<Ingestion>): set<Entry> { set i | 0 <= i < |ops| :: ops[i].entry }

  /** Whole runs: an entry is stored if and only if it arrived and nothing displaced it after its
      last arrival. */
  lemma {:induction false} StoredExactly(ops: seq<Ingestion>, x: Entry)
    requires Honours(ops)
    ensures TokensRun(ops).Some?
    ensures x in Contents(TokensRun(ops).value) <==>
            exists i :: 0 <= i < |ops| && ops[i].entry == x && NotDisplacedAfter(ops, i, x)
  {
    TokensNeverLost(ops);
    if ops != [] {
      var n := |ops| - 1;
      hide Honours, Enumerates, IngestTokens, Candidates, Contents, TokensOk, Displaces, NotDisplacedAfter;
      HonoursLast(ops);
      StoredExactly(ops[..n], x);
      TokensNeverLost(ops[..n]);
      IngestContents(TokensRun(ops[..n]).value, ops[n].entry, ops[n].token, ops[n].cap, ops[n].order, x);
      SurvivorsLast(ops, x);
    }
  }

  ghost predicate NotDisplacedAfter(ops: seq<Ingestion>, i: nat, x: Entry) {
    forall j :: i < j < |ops| ==> !Displaces(ops[j].entry, x)
  }

  ghost predicate Survives(ops: seq<Ingestion>, x: Entry) {
    exists i :: 0 <= i < |ops| && ops[i].entry == x && NotDisplacedAfter(ops, i, x)
  }

  lemma {:induction false} SurvivorsLast(ops: seq<Ingestion>, x: Entry)
    requires ops != []
    ensures var n := |ops| - 1;
            Survives(ops, x) <==> ops[n].entry == x || (Survives(ops[..n], x) && !Displaces(ops[n].entry, x))
  {
    var n := |ops| - 1;
    var before := ops[..n];
    hide Displaces;
    if ops[n].entry == x { assert NotDisplacedAfter(ops, n, x); }
    if Survives(before, x) && !Displaces(ops[n].entry, x) {
      var i :| 0 <= i < |before| && before[i].entry == x && NotDisplacedAfter(before, i, x);
      forall j | i < j < |ops| ensures !Displaces(ops[j].entry, x) { if j < n { assert before[j] == ops[j]; } }
      assert NotDisplacedAfter(ops, i, x) && ops[i].entry == x;
    }
    if Survives(ops, x) && ops[n].entry != x {
      var i :| 0 <= i < |ops| && ops[i].entry == x && NotDisplacedAfter(ops, i, x);
      assert before[i].entry == x && NotDisplacedAfter(before, i, x);
    }
  }

  /** As long as every ingestion joins, the store holds the undominated part of the arrivals. */
  lemma {:induction false} JoiningRunIsMaximal(ops: seq<Ingestion>)
    requires Honours(ops)
    requires forall i :: 0 <= i < |ops| && TokensRun(ops[..i]).Some? ==> Joins(TokensRun(ops[..i]).value, ops[i].entry)
    ensures TokensRun(ops).Some?
    ensures Contents(TokensRun(ops).value) == Maximal(Arrivals(ops))
  {
    if ops == [] {
      assert Arrivals(ops) == {} && Contents(EmptyTables) == {};
    } else {
      var n := |ops| - 1;
      hide Honours, Enumerates, IngestTokens, Candidates, Contents, TokensOk, Joins, Maximal;
      HonoursLast(ops);
      forall i | 0 <= i < n ensures ops[..n][..i] == ops[..i] && ops[..n][i] == ops[i] {}
      JoiningRunIsMaximal(ops[..n]);
      TokensNeverLost(ops[..n]);
      IngestIsJoinExactly(TokensRun(ops[..n]).value, ops[n].entry, ops[n].token, ops[n].cap, ops[n].order);
      JoinOfMaximal(Arrivals(ops[..n]), ops[n].entry);
      ArrivalsLast(ops);
    }
  }

  lemma {:induction false} ArrivalsLast(ops: seq<Ingestion>)
    requires ops != []
    ensures Arrivals(ops) == Arrivals(ops[..|ops| - 1]) + {ops[|ops| - 1].entry}
  {
    var n := |ops| - 1;
    assert forall i :: 0 <= i < n ==> ops[..n][i] == ops[i];
    forall x | x in Arrivals(ops) ensures x in Arrivals(ops[..n]) + {ops[n].entry} {
      var i :| 0 <= i < |ops| && ops[i].entry == x;
      if i < n { assert ops[..n][i].entry == x; }
    }
  }

  ghost const NEWER := Entry([1], [2], [], 2, [0], 0)

  ghost const OLDER := Entry([1], [2], [], 1, [0], 0)

  ghost const LOW := Entry([1], [2], [[7]], 1, [0], 0)

  ghost const HIGH := Entry([1], [2], [], 1, [9], 0)

  /** A stale entry is accepted although a newer one is stored under its key. */
  lemma {:induction false} StaleAccepted(cap: WriteCap)
    ensures Dominates(NEWER, OLDER)
    ensures var ops := [Ingestion(NEWER, [1], cap, []), Ingestion(OLDER, [2], cap, [])];
            Honours(ops) && TokensRun(ops).Some? && Contents(TokensRun(ops).value) == {NEWER, OLDER}
  {
    KeptBoth(Ingestion(NEWER, [1], cap, []), Ingestion(OLDER, [2], cap, []));
  }

  /** Had it come first, it would be gone: what is stored depends on the order of arrival. */
  lemma {:induction false} StalePruned(cap: WriteCap)
    ensures var ops := [Ingestion(OLDER, [2], cap, []), Ingestion(NEWER, [1], cap, [PointOf(OLDER)])];
            Honours(ops) && TokensRun(ops).Some? && Contents(TokensRun(ops).value) == {NEWER}
  {
    var a, b := Ingestion(OLDER, [2], cap, []), Ingestion(NEWER, [1], cap, [PointOf(OLDER)]);
    assert Candidates(Filed(a), NEWER) == {PointOf(OLDER)};
    TwoIngestions(a, b);
    var r := TokensRun([a, b]).value.entries;
    hide TokensRun, Candidates;
    assert r == map[PointOf(NEWER) := Stored(NEWER, [1])];
    assert PointOf(NEWER) in r && r[PointOf(NEWER)].entry == NEWER;
  }

  /** An entry of the same timestamp with a lower digest survives below the path of the entry that
      prunes it. */
  lemma {:induction false} LowerDigestSurvives(cap: WriteCap)
    ensures Dominates(HIGH, LOW)
    ensures var ops := [Ingestion(LOW, [1], cap, []), Ingestion(HIGH, [2], cap, [])];
            Honours(ops) && TokensRun(ops).Some? && Contents(TokensRun(ops).value) == {LOW, HIGH}
  {
    assert PointOf(LOW).path != PointOf(HIGH).path;
    KeptBoth(Ingestion(LOW, [1], cap, []), Ingestion(HIGH, [2], cap, []));
  }

  /** Two ingestions without candidates at different points. */
  lemma {:induction false} KeptBoth(a: Ingestion, b: Ingestion)
    requires a.order == [] == b.order && PointOf(a.entry) != PointOf(b.entry)
    requires !(a.entry.timestamp < b.entry.timestamp)
    ensures Honours([a, b]) && TokensRun([a, b]).Some? && Contents(TokensRun([a, b]).value) == {a.entry, b.entry}
  {
    var p, q := PointOf(a.entry), PointOf(b.entry);
    assert Candidates(Filed(a), b.entry) == {};
    TwoIngestions(a, b);
    var r := TokensRun([a, b]).value.entries;
    hide TokensRun, Candidates;
    assert r == map[p := Stored(a.entry, a.token), q := Stored(b.entry, b.token)];
    assert p in r && q in r && r[p].entry == a.entry && r[q].entry == b.entry;
  }

  /** The tables after a first ingestion. */
  function Filed(op: Ingestion): Tables {
    Tables(map[PointOf(op.entry) := Stored(op.entry, op.token)], map[op.token := op.cap], map[op.token := 1])
  }

  lemma {:induction false} FirstTables(op: Ingestion)
    requires op.order == []
    ensures Enumerates(op.order, Candidates(EmptyTables, op.entry))
    ensures TokensRun([op]) == Some(Filed(op)) && TokensOk(Filed(op))
  {
    assert [op][..0] == [];
    assert TokensRun([]) == Some(EmptyTables);
    assert Candidates(EmptyTables, op.entry) == {};
    assert PruneAll(EmptyTables, op.entry, []) == Some(EmptyTables);
    InsertKeeps(EmptyTables, op.entry, op.token, op.cap);
  }

  lemma {:induction false} TwoIngestions(a: Ingestion, b: Ingestion)
    requires a.order == [] && Enumerates(b.order, Candidates(Filed(a), b.entry))
    ensures Honours([a, b]) && TokensRun([a, b]).Some?
    ensures TokensRun([a, b]).value.entries
            == (Filed(a).entries - Candidates(Filed(a), b.entry))[PointOf(b.entry) := Stored(b.entry, b.token)]
  {
    FirstTables(a);
    var ops := [a, b];
    assert ops[..1] == [a] && ops[..0] == [];
    IngestKeepsTokens(Filed(a), b.entry, b.token, b.cap, b.order);
    hide Enumerates, IngestTokens, TokensOk, Candidates;
    assert TokensRun([]) == Some(EmptyTables);
  }
}
