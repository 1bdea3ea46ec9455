/** The persistent store's authorisation tokens: stored entries refer to tokens by id, and a
    count per token decides when it is deleted. */
module TokenTables {
  import opened Orders
  import opened Entries

  type TokenId = Bytes

  type WriteCap(==, !new)

  /** Entries are filed under their namespace, subspace, timestamp and path. */
  datatype Point = Point(namespace: NamespaceId, subspace: SubspaceId, timestamp: u64, path: Path)

  datatype Stored = Stored(entry: Entry, token: TokenId)

  datatype Tables = Tables(entries: map<Point, Stored>, tokens: map<TokenId, WriteCap>, counts: map<TokenId, nat>)

  function PointOf(e: Entry): Point { Point(e.namespace, e.subspace, e.timestamp, e.path) }

  const EmptyTables: Tables := Tables(map[], map[], map[])

  // ---------- tokens ----------

  function AddToken(t: Tables, id: TokenId, cap: WriteCap): Tables {
    t.(tokens := t.tokens[id := cap], counts := t.counts[id := if id in t.counts then t.counts[id] + 1 else 1])
  }

  /** A decremented count is written back only as a deletion: when it reaches zero. `None` is
      the inconsistent state in which a counted token is missing. */
  function RemoveToken(t: Tables, id: TokenId): Option<Tables> {
    if id !in t.counts then Some(t)
    else if t.counts[id] != 1 then Some(t)
    else if id !in t.tokens then None
    else Some(t.(tokens := t.tokens - {id}, counts := t.counts - {id}))
  }

  // ---------- ingestion ----------

  /** Older entries of the same subspace at or below the new entry's path. */
  function Candidates(t: Tables, e: Entry): set<Point> {
    set p | p in t.entries && p.namespace == e.namespace && p.subspace == e.subspace
            && p.timestamp < e.timestamp && e.path <= p.path
  }

  /** Prune one candidate; its token has to be found. */
  function PruneOne(t: Tables, e: Entry, p: Point): Option<Tables>
    requires p in t.entries
  {
    var s := t.entries[p];
    if s.token !in t.tokens then None
    else if !NewerThan(e, s.entry) then Some(t)
    else RemoveToken(t.(entries := t.entries - {p}), s.token)
  }

  function PruneAll(t: Tables, e: Entry, order: seq<Point>): Option<Tables>
    decreases |order|
  {
    if order == [] then Some(t)
    else if order[0] !in t.entries then None
    else
      var r := PruneOne(t, e, order[0]);
      if r.None? then None else PruneAll(r.value, e, order[1..])
  }

  /** Whatever order the query returns the candidates in. */
  function IngestTokens(t: Tables, e: Entry, id: TokenId, cap: WriteCap, order: seq<Point>): Option<Tables> {
    var pruned := PruneAll(t, e, order);
    if pruned.None? then None
    else
      var added := AddToken(pruned.value, id, cap);
      Some(added.(entries := added.entries[PointOf(e) := Stored(e, id)]))
  }

  // ---------- the invariant ----------

  ghost function Users(entries: map<Point, Stored>, id: TokenId): set<Point> {
    set p | p in entries && entries[p].token == id
  }

  /** Each count is at least the number of stored entries using the token; exactly the counted
      tokens are in the table; entries are filed under their own points. */
  ghost predicate TokensOk(t: Tables) {
    && t.tokens.Keys == t.counts.Keys
    && (forall id :: id in t.counts ==> t.counts[id] >= 1 && t.counts[id] >= |Users(t.entries, id)|)
    && (forall p :: p in t.entries ==> t.entries[p].token in t.counts && PointOf(t.entries[p].entry) == p)
  }

  lemma {:induction false} RemovingEntry(entries: map<Point, Stored>, p: Point, id: TokenId)
    requires p in entries
    ensures |Users(entries - {p}, id)| == |Users(entries, id)| - if entries[p].token == id then 1 else 0
  {
    if entries[p].token == id {
      assert Users(entries, id) == Users(entries - {p}, id) + {p};
    } else {
      assert Users(entries, id) == Users(entries - {p}, id);
    }
  }

  lemma {:induction false} InsertingEntry(entries: map<Point, Stored>, p: Point, s: Stored, id: TokenId)
    ensures |Users(entries[p := s], id)| <= |Users(entries, id)| + if s.token == id then 1 else 0
  {
    var before, after := Users(entries, id), Users(entries[p := s], id);
    forall x ensures x in after <==> if x == p then s.token == id else x in before {}
    hide Users;
    if s.token == id {
      assert after == before + {p};
    } else if p in before {
      assert before == after + {p};
    } else {
      assert before == after;
    }
  }

  lemma {:induction false} PruneOneKeeps(t: Tables, e: Entry, p: Point)
    requires TokensOk(t) && p in t.entries
    ensures PruneOne(t, e, p).Some? && TokensOk(PruneOne(t, e, p).value)
    ensures PruneOne(t, e, p).value.entries == if NewerThan(e, t.entries[p].entry) then t.entries - {p} else t.entries
  {
    hide NewerThan;
    var id := t.entries[p].token;
    if NewerThan(e, t.entries[p].entry) {
      var u := t.(entries := t.entries - {p});
      forall o | o in t.counts ensures |Users(u.entries, o)| == |Users(t.entries, o)| - if o == id then 1 else 0 {
        RemovingEntry(t.entries, p, o);
      }
      if t.counts[id] == 1 {
        NoUsers(u.entries, id);
      }
    }
  }

  lemma {:induction false} NoUsers(entries: map<Point, Stored>, id: TokenId)
    requires |Users(entries, id)| <= 0
    ensures forall p :: p in entries ==> entries[p].token != id
  {
    forall p | p in entries ensures entries[p].token != id {
      assert p !in Users(entries, id);
    }
  }

  /** Every candidate is dominated by the new entry: its timestamp is strictly smaller. */
  lemma {:induction false} CandidatePresent(t: Tables, e: Entry, p: Point)
    requires TokensOk(t) && p in Candidates(t, e)
    ensures p in t.entries && NewerThan(e, t.entries[p].entry) && Dominates(e, t.entries[p].entry)
  {}

  ghost predicate Enumerates(order: seq<Point>, points: set<Point>) {
    && (forall p :: p in order <==> p in points)
    && forall i, j :: 0 <= i < j < |order| ==> order[i] != order[j]
  }

  ghost function Without(entries: map<Point, Stored>, order: seq<Point>): map<Point, Stored> {
    if order == [] then entries else Without(entries - {order[0]}, order[1..])
  }

  lemma {:induction false} WithoutIsMinus(entries: map<Point, Stored>, order: seq<Point>, points: set<Point>)
    requires forall p :: p in order <==> p in points
    ensures Without(entries, order) == entries - points
  {
    if order == [] {
      assert points == {};
      assert entries - points == entries;
    } else {
      var rest := set p | p in order[1..];
      WithoutIsMinus(entries - {order[0]}, order[1..], rest);
      assert points == rest + {order[0]} by {
        assert forall p :: p in order <==> p == order[0] || p in order[1..];
      }
      assert (entries - {order[0]}) - rest == entries - points;
    }
  }

  ghost predicate AllCandidates(t: Tables, e: Entry, order: seq<Point>) {
    && (forall i :: 0 <= i < |order| ==> order[i] in Candidates(t, e))
    && forall i, j :: 0 <= i < j < |order| ==> order[i] != order[j]
  }

  lemma {:induction false} PruneAllKeeps(t: Tables, e: Entry, order: seq<Point>)
    requires TokensOk(t) && AllCandidates(t, e, order)
    ensures var r := PruneAll(t, e, order);
            r.Some? && TokensOk(r.value) && r.value.entries == Without(t.entries, order)
    decreases |order|
  {
    hide NewerThan, TokensOk, PruneOne, AllCandidates, Candidates;
    if order != [] {
      var p := order[0];
      AllCandidatesTail(t, e, order);
      CandidatePresent(t, e, p);
      PruneOneKeeps(t, e, p);
      PruneAllKeeps(PruneOne(t, e, p).value, e, order[1..]);
    }
  }

  lemma {:induction false} AllCandidatesTail(t: Tables, e: Entry, order: seq<Point>)
    requires AllCandidates(t, e, order) && order != []
    ensures order[0] in Candidates(t, e)
    ensures forall u: Tables :: u.entries == t.entries - {order[0]} ==> AllCandidates(u, e, order[1..])
  {}

  /** Ingestion never fails for want of a token, keeps the counts high enough, removes exactly
      the candidates and files the new entry. */
  lemma {:induction false} IngestKeepsTokens(t: Tables, e: Entry, id: TokenId, cap: WriteCap, order: seq<Point>)
    requires TokensOk(t) && Enumerates(order, Candidates(t, e))
    ensures var r := IngestTokens(t, e, id, cap, order);
            && r.Some? && TokensOk(r.value)
            && r.value.entries == (t.entries - Candidates(t, e))[PointOf(e) := Stored(e, id)]
  {
    PruneAllKeeps(t, e, order);
    WithoutIsMinus(t.entries, order, Candidates(t, e));
    var u := PruneAll(t, e, order).value;
    hide PruneAll, Enumerates;
    InsertKeeps(u, e, id, cap);
  }

  lemma {:induction false} InsertKeeps(u: Tables, e: Entry, id: TokenId, cap: WriteCap)
    requires TokensOk(u)
    ensures var added := AddToken(u, id, cap);
            TokensOk(added.(entries := u.entries[PointOf(e) := Stored(e, id)]))
  {
    hide Users;
    forall o | o in u.counts || o == id
      ensures |Users(u.entries[PointOf(e) := Stored(e, id)], o)| <= |Users(u.entries, o)| + if o == id then 1 else 0
    {
      InsertingEntry(u.entries, PointOf(e), Stored(e, id), o);
    }
    if id !in u.counts { NotCounted(u, id); }
  }

  lemma {:induction false} NotCounted(u: Tables, id: TokenId)
    requires TokensOk(u) && id !in u.counts
    ensures Users(u.entries, id) == {}
  {}

  // ---------- whole histories ----------

  datatype Ingestion = Ingestion(entry: Entry, token: TokenId, cap: WriteCap, order: seq<Point>)

  function TokensRun(ops: seq<Ingestion>): Option<Tables> {
    if ops == [] then Some(EmptyTables)
    else
      var n := |ops| - 1;
      var before := TokensRun(ops[..n]);
      if before.None? then None
      else IngestTokens(before.value, ops[n].entry, ops[n].token, ops[n].cap, ops[n].order)
  }

  ghost predicate Honours(ops: seq<Ingestion>) {
    forall i :: 0 <= i < |ops| ==>
      TokensRun(ops[..i]).Some? ==> Enumerates(ops[i].order, Candidates(TokensRun(ops[..i]).value, ops[i].entry))
  }

  lemma {:induction false} HonoursLast(ops: seq<Ingestion>)
    requires ops != [] && Honours(ops)
    ensures var n := |ops| - 1;
            Honours(ops[..n]) && (TokensRun(ops[..n]).Some? ==>
              Enumerates(ops[n].order, Candidates(TokensRun(ops[..n]).value, ops[n].entry)))
  {
    var n := |ops| - 1;
    hide TokensRun, Enumerates, Candidates;
    forall i | 0 <= i < n ensures ops[..n][..i] == ops[..i] && ops[..n][i] == ops[i] {}
  }

  /** In every run no stored entry ever loses its authorisation token, and no count falls below
      the number of its users. */
  lemma {:induction false} TokensNeverLost(ops: seq<Ingestion>)
    requires Honours(ops)
    ensures TokensRun(ops).Some? && TokensOk(TokensRun(ops).value)
    ensures var t := TokensRun(ops).value; forall p :: p in t.entries ==> t.entries[p].token in t.tokens
  {
    if ops != [] {
      var n := |ops| - 1;
      forall i | 0 <= i < n ensures ops[..n][..i] == ops[..i] && ops[..n][i] == ops[i] {}
      assert Honours(ops[..n]);
      TokensNeverLost(ops[..n]);
      var t := TokensRun(ops[..n]).value;
      assert Enumerates(ops[n].order, Candidates(t, ops[n].entry));
      hide Honours, Enumerates, IngestTokens, Candidates;
      IngestKeepsTokens(t, ops[n].entry, ops[n].token, ops[n].cap, ops[n].order);
    }
  }

  /** Counts can stay too high: removing one of several users leaves the count as it was, so an
      exact count stays exact if and only if it was one. */
  lemma {:induction false} RemovalExactness(t: Tables, p: Point)
    requires TokensOk(t) && p in t.entries
    requires t.counts[t.entries[p].token] == |Users(t.entries, t.entries[p].token)|
    ensures var id := t.entries[p].token;
            var r := RemoveToken(t.(entries := t.entries - {p}), id).value;
            (id !in r.counts && Users(r.entries, id) == {}) || (id in r.counts && r.counts[id] == |Users(r.entries, id)|)
            <==> t.counts[id] == 1
  {
    RemovingEntry(t.entries, p, t.entries[p].token);
  }

  // ---------- the imperative form ----------

  class WillowStore {
    var entries: map<Point, Stored>
    var authTokens: map<TokenId, WriteCap>
    var refCounts: map<TokenId, nat>

    constructor ()
      ensures Value() == EmptyTables
    {
      entries, authTokens, refCounts := map[], map[], map[];
    }

    function Value(): Tables
      reads this
    {
      Tables(entries, authTokens, refCounts)
    }

    method AddEntryAuthToken(id: TokenId, cap: WriteCap)
      modifies this`authTokens, this`refCounts
      ensures Value() == AddToken(old(Value()), id, cap)
    {
      authTokens := authTokens[id := cap];
      var count := if id in refCounts then refCounts[id] + 1 else 1;
      refCounts := refCounts[id := count];
    }

    method RemoveEntryAuthToken(id: TokenId) returns (ok: bool)
      requires forall o :: o in refCounts ==> refCounts[o] > 0
      modifies this`authTokens, this`refCounts
      ensures ok <==> RemoveToken(old(Value()), id).Some?
      ensures Value() == if ok then RemoveToken(old(Value()), id).value else old(Value())
    {
      if id !in refCounts { return true; }
      var count := refCounts[id] - 1;
      if count == 0 {
        if id !in authTokens { return false; }
        authTokens := authTokens - {id};
        refCounts := refCounts - {id};
      }
      return true;
    }

    /** Prunes the candidates one by one, then files the entry with its token. */
    method IngestEntry(e: Entry, id: TokenId, cap: WriteCap) returns (ok: bool)
      requires TokensOk(Value())
      modifies this
      ensures ok && TokensOk(Value())
      ensures entries == (old(entries) - Candidates(old(Value()), e))[PointOf(e) := Stored(e, id)]
      ensures id in authTokens && authTokens[id] == cap
      ensures forall o :: o in authTokens && o != id ==> o in old(authTokens) && authTokens[o] == old(authTokens)[o]
    {
      hide TokensOk, NewerThan, Candidates, RemoveToken;
      ghost var before, candidates := Value(), Candidates(Value(), e);
      var rest := Candidates(Value(), e);
      while rest != {}
        invariant TokensOk(Value()) && rest <= candidates
        invariant entries == before.entries - (candidates - rest)
        invariant forall o :: o in authTokens ==> o in before.tokens && authTokens[o] == before.tokens[o]
        decreases |rest|
      {
        var p :| p in rest;
        CandidatePresent(before, e, p);
        assert p in entries;
        PruneOneKeeps(Value(), e, p);
        var s := entries[p];
        if s.token !in authTokens { return false; }
        ghost var current := Value();
        if NewerThan(e, s.entry) {
          entries := entries - {p};
          PositiveCounts(current);
          ghost var mid := Value();
          var removed := RemoveEntryAuthToken(s.token);
          RemovalKeepsOthers(mid, s.token);
        }
        assert current.entries - {p} == before.entries - (candidates - (rest - {p}));
        rest := rest - {p};
      }
      InsertKeeps(Value(), e, id, cap);
      AddEntryAuthToken(id, cap);
      entries := entries[PointOf(e) := Stored(e, id)];
      assert candidates - rest == candidates;
      return true;
    }
  }

  lemma {:induction false} RemovalKeepsOthers(t: Tables, id: TokenId)
    ensures var r := RemoveToken(t, id);
            r.Some? ==> forall o :: o in r.value.tokens ==> o in t.tokens && r.value.tokens[o] == t.tokens[o]
  {}

  lemma {:induction false} PositiveCounts(t: Tables)
    requires TokensOk(t)
    ensures forall o :: o in t.counts ==> t.counts[o] > 0
  {}
}
