/** When the persistent store's token counts are exact. */
module TokenCounts {
  import opened Orders
  import opened Entries
  import opened TokenTables

  /** How much higher the token's count is than the number of stored entries using it. */
  ghost function Excess(t: Tables, id: TokenId): int {
    (if id in t.counts then t.counts[id] else 0) - |Users(t.entries, id)|
  }

  ghost predicate ExactCounts(t: Tables) { forall id :: id in t.counts ==> Excess(t, id) == 0 }

  /** What can be read off the tables before an ingestion: no entry is replaced at its own point,
      and every entry to be pruned is the only one its token is counted for. */
  predicate Clean(t: Tables, e: Entry) {
    PointOf(e) !in t.entries && CountedOnce(t, Candidates(t, e))
  }

  predicate CountedOnce(t: Tables, points: set<Point>) {
    forall p :: p in points ==> p in t.entries && t.entries[p].token in t.counts && t.counts[t.entries[p].token] == 1
  }

  lemma {:induction false} ExcessIsNatural(t: Tables, id: TokenId)
    requires TokensOk(t)
    ensures Excess(t, id) >= 0
    ensures id !in t.counts ==> Excess(t, id) == 0
  {
    if id !in t.counts { NotCounted(t, id); }
  }

  lemma {:induction false} PruneOneExcess(t: Tables, e: Entry, p: Point, id: TokenId)
    requires TokensOk(t) && p in t.entries && NewerThan(e, t.entries[p].entry) && PruneOne(t, e, p).Some?
    ensures Excess(PruneOne(t, e, p).value, id)
            == Excess(t, id) + if id == t.entries[p].token && t.counts[id] != 1 then 1 else 0
  {
    RemovingEntry(t.entries, p, id);
    hide Users;
  }

  lemma {:induction false} InsertExcess(u: Tables, e: Entry, id: TokenId, cap: WriteCap, o: TokenId)
    requires TokensOk(u)
    ensures Excess(AddToken(u, id, cap).(entries := u.entries[PointOf(e) := Stored(e, id)]), o)
            == Excess(u, o) + if PointOf(e) in u.entries && u.entries[PointOf(e)].token == o then 1 else 0
  {
    if o !in u.counts { NotCounted(u, o); }
    InsertUsers(u.entries, PointOf(e), Stored(e, id), o);
    hide Users, TokensOk;
  }

  lemma {:induction false} InsertUsers(entries: map<Point, Stored>, q: Point, s: Stored, o: TokenId)
    ensures |Users(entries[q := s], o)| == |Users(entries, o)| + (if s.token == o then 1 else 0)
                                           - (if q in entries && entries[q].token == o then 1 else 0)
  {
    var before, after := Users(entries, o), Users(entries[q := s], o);
    forall x ensures x in after <==> if x == q then s.token == o else x in before {}
    assert q in before <==> q in entries && entries[q].token == o;
    hide Users;
    if s.token == o { assert after == before + {q}; } else { assert after == before - {q}; }
  }

  lemma {:induction false} PruneOneCounts(t: Tables, e: Entry, p: Point)
    requires TokensOk(t) && p in t.entries && NewerThan(e, t.entries[p].entry) && PruneOne(t, e, p).Some?
    ensures var u := PruneOne(t, e, p).value;
            forall q :: q in u.entries && q != p ==>
              && u.entries[q] == t.entries[q]
              && (t.counts[t.entries[p].token] == 1 ==> t.entries[q].token != t.entries[p].token)
              && u.entries[q].token in u.counts && u.counts[u.entries[q].token] == t.counts[t.entries[q].token]
  {
    var id := t.entries[p].token;
    PruneOneKeeps(t, e, p);
    hide NewerThan;
    forall q | q in t.entries && q != p && t.counts[id] == 1 ensures t.entries[q].token != id {
      if t.entries[q].token == id { TwoUsers(t.entries, p, q, id); }
    }
  }

  lemma {:induction false} TwoUsers(entries: map<Point, Stored>, p: Point, q: Point, id: TokenId)
    requires p in entries && q in entries && p != q && entries[p].token == id == entries[q].token
    ensures |Users(entries, id)| >= 2
  {
    var u := Users(entries, id);
    assert u == {p, q} + (u - {p, q});
  }

  lemma {:induction false} ExactSame(t: Tables, u: Tables)
    requires TokensOk(t) && TokensOk(u) && forall id :: Excess(u, id) == Excess(t, id)
    ensures ExactCounts(u) <==> ExactCounts(t)
  {
    hide Excess, TokensOk;
    forall id ensures (id !in t.counts ==> Excess(t, id) == 0) && (id !in u.counts ==> Excess(u, id) == 0) {
      ExcessIsNatural(t, id);
      ExcessIsNatural(u, id);
    }
  }

  lemma {:induction false} ExactBefore(t: Tables, u: Tables)
    requires TokensOk(t) && TokensOk(u) && forall id :: Excess(u, id) >= Excess(t, id)
    requires ExactCounts(u)
    ensures ExactCounts(t)
    ensures forall id :: Excess(u, id) == Excess(t, id)
  {
    hide Excess, TokensOk;
    forall id ensures Excess(t, id) == 0 == Excess(u, id) {
      ExcessIsNatural(t, id);
      ExcessIsNatural(u, id);
    }
  }

  /** Counts only get worse while candidates are pruned, and stay exact if each is counted once. */
  lemma {:induction false} PruneAllExcess(t: Tables, e: Entry, order: seq<Point>)
    requires TokensOk(t) && AllCandidates(t, e, order)
    requires PruneAll(t, e, order).Some? && TokensOk(PruneAll(t, e, order).value)
    ensures var u := PruneAll(t, e, order).value;
            && (forall id :: Excess(u, id) >= Excess(t, id))
            && ((forall id :: Excess(u, id) == Excess(t, id)) <==> CountedOnce(t, set p | p in order))
    decreases |order|
  {
    hide NewerThan, TokensOk, PruneOne, AllCandidates, Candidates, Excess, CountedOnce;
    if order == [] {
      NothingCounted(t, order);
    } else {
      var p := order[0];
      AllCandidatesTail(t, e, order);
      CandidatePresent(t, e, p);
      PruneOneKeeps(t, e, p);
      var u := PruneOne(t, e, p).value;
      PruneAllExcess(u, e, order[1..]);
      forall id ensures Excess(u, id) == Excess(t, id) + if id == t.entries[p].token && CountAt(t, p) != 1 then 1 else 0 {
        TokenCounted(t, p);
        PruneOneExcess(t, e, p, id);
      }
      CountedTail(t, e, order);
      if CountAt(t, p) != 1 { assert Excess(u, t.entries[p].token) > Excess(t, t.entries[p].token); }
    }
  }

  ghost function CountAt(t: Tables, p: Point): nat
    requires p in t.entries
  {
    var id := t.entries[p].token;
    if id in t.counts then t.counts[id] else 0
  }

  lemma {:induction false} TokenCounted(t: Tables, p: Point)
    requires TokensOk(t) && p in t.entries
    ensures t.entries[p].token in t.counts
  {}

  lemma {:induction false} NothingCounted(t: Tables, order: seq<Point>)
    requires order == []
    ensures CountedOnce(t, set p | p in order)
  {}

  lemma {:induction false} CountedTail(t: Tables, e: Entry, order: seq<Point>)
    requires TokensOk(t) && AllCandidates(t, e, order) && order != []
    requires order[0] in t.entries && NewerThan(e, t.entries[order[0]].entry) && PruneOne(t, e, order[0]).Some?
    ensures CountedOnce(t, set p | p in order)
            <==> CountAt(t, order[0]) == 1 && CountedOnce(PruneOne(t, e, order[0]).value, set p | p in order[1..])
  {
    var p := order[0];
    var u := PruneOne(t, e, p).value;
    PruneOneCounts(t, e, p);
    PruneOneKeeps(t, e, p);
    TokenCounted(t, p);
    RestStored(t, e, order);
    hide TokensOk, NewerThan, PruneOne, AllCandidates;
    assert forall q :: q in order <==> q == p || q in order[1..];
  }

  lemma {:induction false} RestStored(t: Tables, e: Entry, order: seq<Point>)
    requires TokensOk(t) && AllCandidates(t, e, order) && order != []
    ensures forall q :: q in order[1..] ==> q != order[0] && q in t.entries && t.entries[q].token in t.counts
  {
    forall q | q in order[1..] ensures q != order[0] && q in t.entries {
      var i :| 0 <= i < |order[1..]| && order[1..][i] == q;
      assert order[i + 1] == q;
    }
  }

  /** One ingestion: counts that were too high stay so, and exact counts stay exact if and only if
      the ingestion is clean. */
  lemma {:induction false} IngestExactness(t: Tables, e: Entry, id: TokenId, cap: WriteCap, order: seq<Point>)
    requires TokensOk(t) && Enumerates(order, Candidates(t, e))
    ensures IngestTokens(t, e, id, cap, order).Some?
    ensures ExactCounts(IngestTokens(t, e, id, cap, order).value) <==> ExactCounts(t) && Clean(t, e)
  {
    hide AllCandidates, TokensOk, Excess, CountedOnce, ExactCounts, NewerThan, PruneAll;
    EnumeratesAll(t, e, order);
    IngestKeepsTokens(t, e, id, cap, order);
    PruneAllKeeps(t, e, order);
    PruneAllExcess(t, e, order);
    OwnPointStays(t, e);
    hide Enumerates, Candidates;
    var u := PruneAll(t, e, order).value;
    var w := IngestTokens(t, e, id, cap, order).value;
    var replaced := if PointOf(e) in t.entries then {t.entries[PointOf(e)].token} else {};
    forall o ensures Excess(w, o) == Excess(u, o) + if o in replaced then 1 else 0 {
      InsertExcess(u, e, id, cap, o);
    }
    StepExactness(t, u, w, replaced);
  }

  lemma {:induction false} EnumeratesAll(t: Tables, e: Entry, order: seq<Point>)
    requires Enumerates(order, Candidates(t, e))
    ensures AllCandidates(t, e, order) && (set p | p in order) == Candidates(t, e)
    ensures Without(t.entries, order) == t.entries - Candidates(t, e)
  {
    WithoutIsMinus(t.entries, order, Candidates(t, e));
    hide Candidates, Without;
  }

  lemma {:induction false} StepExactness(t: Tables, u: Tables, w: Tables, replaced: set<TokenId>)
    requires TokensOk(t) && TokensOk(w)
    requires forall id :: Excess(u, id) >= Excess(t, id)
    requires forall o :: Excess(w, o) == Excess(u, o) + if o in replaced then 1 else 0
    ensures ExactCounts(w) <==> ExactCounts(t) && replaced == {} && forall id :: Excess(u, id) == Excess(t, id)
  {
    hide TokensOk, Excess, ExactCounts;
    if ExactCounts(w) {
      ExactBefore(t, w);
      forall o ensures o !in replaced { assert Excess(w, o) == Excess(t, o); }
    }
    if ExactCounts(t) && replaced == {} && forall id :: Excess(u, id) == Excess(t, id) { ExactSame(t, w); }
  }

  lemma {:induction false} OwnPointStays(t: Tables, e: Entry)
    ensures PointOf(e) !in Candidates(t, e)
  {}

  ghost predicate AllClean(ops: seq<Ingestion>) {
    forall i :: 0 <= i < |ops| ==> TokensRun(ops[..i]).Some? ==> Clean(TokensRun(ops[..i]).value, ops[i].entry)
  }

  lemma {:induction false} AllCleanLast(ops: seq<Ingestion>)
    requires ops != [] && TokensRun(ops[..|ops| - 1]).Some?
    ensures var n := |ops| - 1;
            AllClean(ops) <==> AllClean(ops[..n]) && Clean(TokensRun(ops[..n]).value, ops[n].entry)
  {
    var n := |ops| - 1;
    hide TokensRun, Clean;
    forall i | 0 <= i < n ensures ops[..n][..i] == ops[..i] && ops[..n][i] == ops[i] {}
  }

  /** After a whole run every count is exact if and only if no ingestion replaced an entry at its own
      point or pruned one whose token was counted more than once. */
  lemma {:induction false} CountsExactOverRun(ops: seq<Ingestion>)
    requires Honours(ops)
    ensures TokensRun(ops).Some?
    ensures ExactCounts(TokensRun(ops).value) <==> AllClean(ops)
  {
    if ops != [] {
      var n := |ops| - 1;
      hide Honours, Enumerates, IngestTokens, Candidates, Clean, ExactCounts, AllClean, TokensOk;
      HonoursLast(ops);
      CountsExactOverRun(ops[..n]);
      TokensNeverLost(ops[..n]);
      AllCleanLast(ops);
      var t := TokensRun(ops[..n]).value;
      IngestExactness(t, ops[n].entry, ops[n].token, ops[n].cap, ops[n].order);
    }
  }
}
