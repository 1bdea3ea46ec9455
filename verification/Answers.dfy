/** The shape of every answer a reconciler sends: which range it covers, how it moves the
    counters, and that it streams. */
module Answers {
  import opened Orders
  import opened Entries
  import opened Ranges
  import opened Fingerprints
  import opened Splitting
  import opened Replicas
  import opened Wire
  import opened Queues
  import opened Reconciler

  function Interval(lo: nat, hi: nat): (r: set<nat>)
    ensures forall n: nat :: n in r <==> lo <= n < hi
  {
    if hi <= lo then {} else Interval(lo, hi - 1) + {hi - 1}
  }

  /** A target after sending `k` numbered messages. */
  function Bumped(t: Target, k: nat): Target {
    t.(uncovered := t.uncovered + Interval(t.ourCounter, t.ourCounter + k), ourCounter := t.ourCounter + k)
  }

  /** Messages for one target only, answering `covers` with their last range message, in
      complete blocks. */
  ghost predicate Piece(id: TargetId, q: seq<Message>, covers: Option<nat>) {
    && CountFor(q, id) > 0
    && (forall m :: m in q && IsRange(m) ==> Handles(m) == id)
    && CoverCount(q, id) == (if covers.Some? then 1 else 0)
    && (covers.Some? ==> CoversInOrder(q, id, covers.value) && EndsCovered(q, id))
    && Streams(Idle, q)
  }

  lemma {:induction false} BumpedZero(t: Target)
    ensures Bumped(t, 0) == t
  {}

  lemma {:induction false} BumpedTwice(t: Target, j: nat, k: nat)
    ensures Bumped(Bumped(t, j), k) == Bumped(t, j + k)
  {}

  lemma {:induction false} BumpedOnce(t: Target)
    ensures MarkNextRangePending(t) == Bumped(t, 1)
  {}

  lemma {:induction false} HeadPiece(id: TargetId, m: Message, body: seq<Message>)
    requires IsFor(m, id)
    requires forall x :: x in body ==> !IsRange(x)
    requires Streams(Idle, [m] + body)
    ensures Piece(id, [m] + body, m.covers)
    ensures NumberedFor([m] + body, id) == if Numbered(m) then 1 else 0
  {
    var q := [m] + body;
    assert q[0] == m && q[1..] == body;
    NoneForCount(body, id);
    NoneForEndsCovered(body, id);
  }

  lemma {:induction false} PieceConcat(id: TargetId, a: seq<Message>, b: seq<Message>, covers: Option<nat>)
    requires Piece(id, a, None) && Piece(id, b, covers)
    ensures Piece(id, a + b, covers)
    ensures NumberedFor(a + b, id) == NumberedFor(a, id) + NumberedFor(b, id)
  {
    var next := if covers.Some? then covers.value else 0;
    QueueConcat(a, b, id, next);
    StreamsConcat(Idle, a, b);
    SilentInOrder(a, id, next);
  }

  lemma {:induction false} SilentInOrder(q: seq<Message>, id: TargetId, next: nat)
    requires CoverCount(q, id) == 0
    ensures CoversInOrder(q, id, next)
    decreases |q|
  {
    if q != [] { SilentInOrder(q[1..], id, next); }
  }

  lemma {:induction false} FingerprintPiece(id: TargetId, t: Target, r: Range3d, f: Fingerprint, covers: Option<nat>)
    ensures var s := SendFingerprintFor(id, t, r, f, covers);
            && Piece(Mirror(id), s.messages, covers)
            && NumberedFor(s.messages, Mirror(id)) == 1
            && s.target == Bumped(t, 1)
  {}

  lemma {:induction false} AnnouncePiece(id: TargetId, t: Target, store: Replica, chunks: Entry -> nat,
                                         r: Range3d, want: bool, covers: Option<nat>, knownEmpty: bool)
    ensures var s := AnnounceAndSend(id, t, store, chunks, r, want, covers, knownEmpty);
            var entries := if knownEmpty then [] else Query(store, t.scope.namespace, r);
            && Piece(Mirror(id), s.messages, covers)
            && NumberedFor(s.messages, Mirror(id)) == (if want then 1 else 0)
            && s.target == Bumped(t, if want then 1 else 0)
            && Owned(Idle, s.messages, Mirror(id)) == (set e | e in entries)
            && (forall m :: m in s.messages && m.MsgEntry? ==> m.entry in entries)
  {
    var entries := if knownEmpty then [] else Query(store, t.scope.namespace, r);
    var m := MsgAnnounce(r, entries == [], want, id.ours, id.theirs, covers);
    var body := Block(entries, chunks);
    var q := [m] + body;
    var mirror := Mirror(id);
    assert q[0] == m && q[1..] == body;
    BumpedOnce(t);
    BumpedZero(t);
    BlockMembers(entries, chunks);
    if entries == [] {
      assert body == [];
    } else {
      BlockStream(entries, chunks, mirror, mirror);
    }
    HeadPiece(mirror, m, body);
  }

  lemma {:induction false} PartPiece(id: TargetId, t: Target, store: Replica, chunks: Entry -> nat,
                                     part: RangeSplit, covers: Option<nat>)
    ensures var s := SendPart(id, t, store, chunks, part, covers);
            && Piece(Mirror(id), s.messages, covers)
            && s.target == Bumped(t, NumberedFor(s.messages, Mirror(id)))
  {
    match part.action {
      case SendEntries(count) => AnnouncePiece(id, t, store, chunks, part.range, true, covers, count == 0);
      case SendFingerprint(f) => FingerprintPiece(id, t, part.range, f, covers);
    }
  }

  lemma {:induction false} PartsPiece(id: TargetId, t: Target, store: Replica, chunks: Entry -> nat,
                                      parts: seq<RangeSplit>, rangeCount: nat)
    requires parts != []
    ensures var s := SendParts(id, t, store, chunks, parts, rangeCount);
            && Piece(Mirror(id), s.messages, Some(rangeCount))
            && s.target == Bumped(t, NumberedFor(s.messages, Mirror(id)))
    decreases |parts|
  {
    var covers := if |parts| == 1 then Some(rangeCount) else None;
    var first := SendPart(id, t, store, chunks, parts[0], covers);
    PartPiece(id, t, store, chunks, parts[0], covers);
    var rest := SendParts(id, first.target, store, chunks, parts[1..], rangeCount);
    hide Piece, NumberedFor, Bumped, SendPart;
    if |parts| == 1 {
      assert rest.messages == [] && first.messages + [] == first.messages;
    } else {
      PartsPiece(id, first.target, store, chunks, parts[1..], rangeCount);
      PieceConcat(Mirror(id), first.messages, rest.messages, Some(rangeCount));
      BumpedTwice(t, NumberedFor(first.messages, Mirror(id)), NumberedFor(rest.messages, Mirror(id)));
    }
  }

  /** The answer to a fingerprint: one piece covering exactly the number the receiver gives
      it, with the counters moved by the ranges it opens. */
  lemma {:induction false} FingerprintAnswerShape(lift: Lift, id: TargetId, t: Target, store: Replica,
                                                  chunks: Entry -> nat, r: Range3d, theirs: Fingerprint)
    ensures var s := AnswerFingerprint(lift, id, t, store, chunks, r, theirs);
            && Piece(Mirror(id), s.messages, Some(t.theirCounter))
            && s.target == Bumped(t.(theirCounter := t.theirCounter + 1), NumberedFor(s.messages, Mirror(id)))
  {
    var c := t.theirCounter;
    var t1 := t.(theirCounter := c + 1);
    var ns := t.scope.namespace;
    var parts := SplitRange(lift, EntriesOf(store, ns), r, DEFAULT_MAX_SET_SIZE);
    assert parts != [];
    hide Piece, Bumped, NumberedFor, AnnounceAndSend, SendParts, SplitRange, Query, FingerprintOf;
    var s := AnswerFingerprint(lift, id, t, store, chunks, r, theirs);
    if FingerprintOf(lift, Query(store, ns, r)) == theirs {
      AnnouncePiece(id, t1, store, chunks, r, false, Some(c), true);
    } else if IsEmpty(theirs) {
      AnnouncePiece(id, t1, store, chunks, r, true, Some(c), false);
    } else {
      assert s == SendParts(id, t1, store, chunks, parts, c);
      PartsPiece(id, t1, store, chunks, parts, c);
    }
  }

  lemma {:induction false} AnnounceAnswerShape(id: TargetId, t: Target, store: Replica, chunks: Entry -> nat, m: Message)
    requires m.MsgAnnounce?
    ensures var s := AnswerAnnounce(id, t, store, chunks, m);
            if m.wantResponse then
              && Piece(Mirror(id), s.messages, Some(t.theirCounter))
              && s.target == Bumped(t.(theirCounter := t.theirCounter + 1), NumberedFor(s.messages, Mirror(id)))
              && NumberedFor(s.messages, Mirror(id)) == 0
            else s == Sent(t, [])
  {
    if m.wantResponse {
      AnnouncePiece(id, t.(theirCounter := t.theirCounter + 1), store, chunks, m.range, false, Some(t.theirCounter), false);
    }
  }

  // ---------- answers stay inside the range they answer ----------

  ghost predicate Inside(r: Range3d, s: Range3d) {
    forall e :: IncludesEntry(r, e) ==> IncludesEntry(s, e)
  }

  ghost predicate RangesWithin(q: seq<Message>, r: Range3d) {
    forall m :: m in q && IsRange(m) ==> Inside(m.range, r)
  }

  lemma {:induction false} AnnounceWithin(id: TargetId, t: Target, store: Replica, chunks: Entry -> nat,
                                          r: Range3d, want: bool, covers: Option<nat>, knownEmpty: bool, s: Range3d)
    requires Inside(r, s)
    ensures RangesWithin(AnnounceAndSend(id, t, store, chunks, r, want, covers, knownEmpty).messages, s)
  {
    var entries := if knownEmpty then [] else Query(store, t.scope.namespace, r);
    BlockMembers(entries, chunks);
  }

  lemma {:induction false} PartsWithin(id: TargetId, t: Target, store: Replica, chunks: Entry -> nat,
                                       parts: seq<RangeSplit>, rangeCount: nat, s: Range3d)
    requires forall p :: p in parts ==> Inside(p.range, s)
    ensures RangesWithin(SendParts(id, t, store, chunks, parts, rangeCount).messages, s)
    decreases |parts|
  {
    if parts != [] {
      var part := parts[0];
      assert part in parts;
      var covers := if |parts| == 1 then Some(rangeCount) else None;
      var first := SendPart(id, t, store, chunks, part, covers);
      assert RangesWithin(first.messages, s) by {
        if part.action.SendEntries? {
          AnnounceWithin(id, t, store, chunks, part.range, true, covers, part.action.count == 0, s);
        }
      }
      hide SendPart, Inside;
      PartsWithin(id, first.target, store, chunks, parts[1..], rangeCount, s);
    }
  }

  lemma {:induction false} SplitWithin(lift: Lift, entries: seq<Entry>, r: Range3d, maxSetSize: nat)
    ensures forall p :: p in SplitRange(lift, entries, r, maxSetSize) ==> Inside(p.range, r)
  {
    var inside := Select(entries, r);
    if |inside| > maxSetSize {
      SelectMembers(entries, r);
      var mid := Median(inside);
      hide IncludesEntry, LowerHalf, UpperHalf;
      forall e ensures IncludesEntry(LowerHalf(r, mid), e) || IncludesEntry(UpperHalf(r, mid), e) ==> IncludesEntry(r, e) {
        HalvesPartition(r, mid, e);
      }
    }
  }

  lemma {:induction false} FingerprintAnswerWithin(lift: Lift, id: TargetId, t: Target, store: Replica,
                                                   chunks: Entry -> nat, r: Range3d, theirs: Fingerprint)
    ensures RangesWithin(AnswerFingerprint(lift, id, t, store, chunks, r, theirs).messages, r)
  {
    var c := t.theirCounter;
    var t1 := t.(theirCounter := c + 1);
    var parts := SplitRange(lift, EntriesOf(store, t.scope.namespace), r, DEFAULT_MAX_SET_SIZE);
    SplitWithin(lift, EntriesOf(store, t.scope.namespace), r, DEFAULT_MAX_SET_SIZE);
    hide RangesWithin, AnnounceAndSend, SendParts, SplitRange, Query;
    AnnounceWithin(id, t1, store, chunks, r, false, Some(c), true, r);
    AnnounceWithin(id, t1, store, chunks, r, true, Some(c), false, r);
    PartsWithin(id, t1, store, chunks, parts, c, r);
  }
}
