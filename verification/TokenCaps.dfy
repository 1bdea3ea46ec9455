/** Which capability the persistent store keeps under a token. */
module TokenCaps {
  import opened Orders
  import opened Entries
  import opened TokenTables

  ghost predicate KeepsCaps(t: Tables, u: Tables) {
    forall o :: o in u.tokens ==> o in t.tokens && u.tokens[o] == t.tokens[o]
  }

  lemma {:induction false} PruneKeepsCaps(t: Tables, e: Entry, order: seq<Point>)
    requires PruneAll(t, e, order).Some?
    ensures KeepsCaps(t, PruneAll(t, e, order).value)
    decreases |order|
  {
    if order != [] {
      hide NewerThan;
      PruneKeepsCaps(PruneOne(t, e, order[0]).value, e, order[1..]);
    }
  }

  lemma {:induction false} IngestCaps(t: Tables, e: Entry, id: TokenId, cap: WriteCap, order: seq<Point>)
    requires IngestTokens(t, e, id, cap, order).Some?
    ensures var u := IngestTokens(t, e, id, cap, order).value;
            && id in u.tokens && u.tokens[id] == cap
            && forall o :: o in u.tokens && o != id ==> o in t.tokens && u.tokens[o] == t.tokens[o]
  {
    PruneKeepsCaps(t, e, order);
    hide PruneAll;
  }

  /** Ingestion `i` was the last one with the token, and gave it the capability. */
  ghost predicate LastWith(ops: seq<Ingestion>, i: nat, o: TokenId, cap: WriteCap) {
    i < |ops| && ops[i].token == o && ops[i].cap == cap && forall j :: i < j < |ops| ==> ops[j].token != o
  }

  lemma {:induction false} LastGrows(ops: seq<Ingestion>, i: nat, o: TokenId, cap: WriteCap)
    requires ops != [] && LastWith(ops[..|ops| - 1], i, o, cap) && ops[|ops| - 1].token != o
    ensures LastWith(ops, i, o, cap)
  {
    var n := |ops| - 1;
    forall j | i < j < |ops| ensures ops[j].token != o {
      if j < n { assert ops[..n][j] == ops[j]; }
    }
  }

  /** After any ingestions, what is stored under a token is the capability it last came with. */
  lemma {:induction false} CapIsLast(ops: seq<Ingestion>, o: TokenId)
    requires Honours(ops)
    ensures TokensRun(ops).Some?
    ensures o in TokensRun(ops).value.tokens ==> exists i: nat :: LastWith(ops, i, o, TokensRun(ops).value.tokens[o])
  {
    TokensNeverLost(ops);
    if ops != [] && o in TokensRun(ops).value.tokens {
      var n := |ops| - 1;
      hide Honours, Enumerates, IngestTokens, Candidates, TokensOk;
      HonoursLast(ops);
      CapIsLast(ops[..n], o);
      IngestCaps(TokensRun(ops[..n]).value, ops[n].entry, ops[n].token, ops[n].cap, ops[n].order);
      if o == ops[n].token {
        assert LastWith(ops, n, o, ops[n].cap);
      } else {
        var i: nat :| LastWith(ops[..n], i, o, TokensRun(ops[..n]).value.tokens[o]);
        LastGrows(ops, i, o, TokensRun(ops[..n]).value.tokens[o]);
      }
    }
  }

  /** The ingestion of this very entry with this token. */
  ghost predicate CameWith(ops: seq<Ingestion>, i: nat, s: Stored) {
    i < |ops| && ops[i].entry == s.entry && ops[i].token == s.token
  }

  lemma {:induction false} StoredCame(ops: seq<Ingestion>, p: Point)
    requires Honours(ops)
    ensures TokensRun(ops).Some?
    ensures p in TokensRun(ops).value.entries ==> exists i: nat :: CameWith(ops, i, TokensRun(ops).value.entries[p])
  {
    TokensNeverLost(ops);
    if ops != [] && p in TokensRun(ops).value.entries {
      var n := |ops| - 1;
      hide Honours, Enumerates, IngestTokens, Candidates, TokensOk;
      HonoursLast(ops);
      TokensNeverLost(ops[..n]);
      StoredCame(ops[..n], p);
      var s := TokensRun(ops).value.entries[p];
      IngestKeepsTokens(TokensRun(ops[..n]).value, ops[n].entry, ops[n].token, ops[n].cap, ops[n].order);
      if p == PointOf(ops[n].entry) {
        assert CameWith(ops, n, s);
      } else {
        var i: nat :| CameWith(ops[..n], i, s);
        assert CameWith(ops, i, s);
      }
    }
  }

  /** Tokens are signatures: the same one comes with the same capability. */
  ghost predicate SameCaps(ops: seq<Ingestion>) {
    forall i, j :: 0 <= i < |ops| && 0 <= j < |ops| && ops[i].token == ops[j].token ==> ops[i].cap == ops[j].cap
  }

  /** Every stored entry is stored with a token it came with, and what is kept under that token is the
      capability it came with. */
  lemma {:induction false} CapsAreTheirOwn(ops: seq<Ingestion>, p: Point)
    requires Honours(ops) && SameCaps(ops)
    ensures TokensRun(ops).Some?
    ensures var t := TokensRun(ops).value;
            p in t.entries ==>
              && t.entries[p].token in t.tokens
              && exists i: nat :: CameWith(ops, i, t.entries[p]) && ops[i].cap == t.tokens[t.entries[p].token]
  {
    TokensNeverLost(ops);
    var t := TokensRun(ops).value;
    hide Honours, TokensRun, TokensOk;
    if p in t.entries {
      StoredCame(ops, p);
      CapIsLast(ops, t.entries[p].token);
      var i: nat :| CameWith(ops, i, t.entries[p]);
      var k: nat :| LastWith(ops, k, t.entries[p].token, t.tokens[t.entries[p].token]);
      assert ops[i].cap == ops[k].cap;
    }
  }
}
