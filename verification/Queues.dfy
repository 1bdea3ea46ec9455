/** What a queue of messages says about one target. */
module Queues {
  import opened Orders
  import opened Entries
  import opened Wire

  predicate IsFor(m: Message, id: TargetId) { IsRange(m) && Handles(m) == id }

  /** Range messages for `id`. */
  function CountFor(q: seq<Message>, id: TargetId): nat {
    if q == [] then 0 else (if IsFor(q[0], id) then 1 else 0) + CountFor(q[1..], id)
  }

  /** Messages for `id` that expect an answer. */
  function NumberedFor(q: seq<Message>, id: TargetId): nat {
    if q == [] then 0 else (if IsFor(q[0], id) && Numbered(q[0]) then 1 else 0) + NumberedFor(q[1..], id)
  }

  predicate CoversFor(m: Message, id: TargetId) { IsFor(m, id) && m.covers.Some? }

  /** Messages for `id` that answer one of its ranges. */
  function CoverCount(q: seq<Message>, id: TargetId): nat {
    if q == [] then 0 else (if CoversFor(q[0], id) then 1 else 0) + CoverCount(q[1..], id)
  }

  /** The answered range numbers are `next`, `next + 1`, and so on, in queue order. */
  predicate CoversInOrder(q: seq<Message>, id: TargetId, next: nat) {
    if q == [] then true
    else if CoversFor(q[0], id) then q[0].covers.value == next && CoversInOrder(q[1..], id, next + 1)
    else CoversInOrder(q[1..], id, next)
  }

  /** Every message for `id` that answers nothing is followed by another message for `id`. */
  predicate EndsCovered(q: seq<Message>, id: TargetId) {
    if q == [] then true
    else (IsFor(q[0], id) && q[0].covers.None? ==> CountFor(q[1..], id) > 0) && EndsCovered(q[1..], id)
  }

  lemma {:induction false} QueueConcat(a: seq<Message>, b: seq<Message>, id: TargetId, next: nat)
    ensures CountFor(a + b, id) == CountFor(a, id) + CountFor(b, id)
    ensures NumberedFor(a + b, id) == NumberedFor(a, id) + NumberedFor(b, id)
    ensures CoverCount(a + b, id) == CoverCount(a, id) + CoverCount(b, id)
    ensures CoversInOrder(a + b, id, next) <==> CoversInOrder(a, id, next) && CoversInOrder(b, id, next + CoverCount(a, id))
    ensures CountFor(b, id) > 0 && EndsCovered(b, id) ==> EndsCovered(a + b, id)
    ensures CountFor(b, id) == 0 && EndsCovered(a, id) ==> EndsCovered(a + b, id)
    decreases |a|
  {
    if a == [] {
      assert a + b == b;
      if CountFor(b, id) == 0 { NoneForEndsCovered(b, id); }
    } else {
      assert (a + b)[0] == a[0] && (a + b)[1..] == a[1..] + b;
      QueueConcat(a[1..], b, id, if CoversFor(a[0], id) then next + 1 else next);
    }
  }

  /** Messages of other targets, and entries, say nothing about `id`. */
  lemma {:induction false} NoneForEndsCovered(q: seq<Message>, id: TargetId)
    requires CountFor(q, id) == 0
    ensures NumberedFor(q, id) == 0 && CoverCount(q, id) == 0 && EndsCovered(q, id)
    ensures forall next :: CoversInOrder(q, id, next)
    ensures forall m :: m in q ==> !IsFor(m, id)
    decreases |q|
  {
    if q != [] {
      NoneForEndsCovered(q[1..], id);
      assert forall m :: m in q ==> m == q[0] || m in q[1..];
    }
  }

  lemma {:induction false} NoneForCount(q: seq<Message>, id: TargetId)
    requires forall m :: m in q ==> !IsFor(m, id)
    ensures CountFor(q, id) == 0
    decreases |q|
  {
    if q != [] {
      assert q[0] in q;
      forall m | m in q[1..] ensures !IsFor(m, id) { assert m in q; }
      NoneForCount(q[1..], id);
    }
  }

  /** A queue that ends covered but answers nothing holds nothing for the target. */
  lemma {:induction false} CoveredAndSilent(q: seq<Message>, id: TargetId)
    requires EndsCovered(q, id) && CoverCount(q, id) == 0
    ensures CountFor(q, id) == 0
    decreases |q|
  {
    if q != [] { CoveredAndSilent(q[1..], id); }
  }

  lemma {:induction false} NumberedMember(q: seq<Message>, id: TargetId, m: Message)
    requires m in q && IsFor(m, id) && Numbered(m)
    ensures NumberedFor(q, id) > 0 && CountFor(q, id) > 0
    decreases |q|
  {
    if m != q[0] {
      assert m in q[1..];
      NumberedMember(q[1..], id, m);
    }
  }

  lemma {:induction false} CountMember(q: seq<Message>, id: TargetId, m: Message)
    requires m in q && IsFor(m, id)
    ensures CountFor(q, id) > 0
    decreases |q|
  {
    if m != q[0] {
      assert m in q[1..];
      CountMember(q[1..], id, m);
    }
  }

  // ---------- blocks hold no range messages ----------

  lemma {:induction false} ChunksNoRange(n: nat)
    ensures forall m :: m in Chunks(n) ==> m == MsgPayload
  {
    if n > 0 { ChunksNoRange(n - 1); }
  }

  lemma {:induction false} BlockMembers(entries: seq<Entry>, chunks: Entry -> nat)
    ensures forall m :: m in Block(entries, chunks) ==> !IsRange(m)
    ensures forall m :: m in Block(entries, chunks) && m.MsgEntry? ==> m.entry in entries
    decreases |entries|
  {
    if entries != [] {
      BlockMembers(entries[1..], chunks);
      ChunksNoRange(chunks(entries[0]));
      var head := EntryMessages(entries[0], chunks(entries[0]), |entries| == 1);
      forall m | m in head ensures !IsRange(m) && (m.MsgEntry? ==> m.entry == entries[0]) {
        assert m == head[0] || m in Chunks(chunks(entries[0])) || m == head[|head| - 1];
      }
    }
  }
}
