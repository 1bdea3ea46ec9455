/** What a peer sends in answer to a range message, read off the messages themselves. */
module AnswerContents {
  import opened Orders
  import opened Entries
  import opened Ranges
  import opened MemoryStore
  import opened Fingerprints
  import opened Splitting
  import opened Replicas
  import opened Wire
  import opened Queues
  import opened Reconciler

  /** The messages that speak about ranges, in order. */
  function RangeMessages(q: seq<Message>): seq<Message> {
    if q == [] then [] else (if IsRange(q[0]) then [q[0]] else []) + RangeMessages(q[1..])
  }

  /** The entries on their way, in order. */
  function EntriesIn(q: seq<Message>): seq<Entry> {
    if q == [] then [] else (if q[0].MsgEntry? then [q[0].entry] else []) + EntriesIn(q[1..])
  }

  lemma {:induction false} RangesConcat(a: seq<Message>, b: seq<Message>)
    ensures RangeMessages(a + b) == RangeMessages(a) + RangeMessages(b)
    decreases |a|
  {
    if a == [] {
      assert a + b == b;
    } else {
      assert (a + b)[0] == a[0] && (a + b)[1..] == a[1..] + b;
      RangesConcat(a[1..], b);
    }
  }

  lemma {:induction false} EntriesConcat(a: seq<Message>, b: seq<Message>)
    ensures EntriesIn(a + b) == EntriesIn(a) + EntriesIn(b)
    decreases |a|
  {
    if a == [] {
      assert a + b == b;
    } else {
      assert (a + b)[0] == a[0] && (a + b)[1..] == a[1..] + b;
      EntriesConcat(a[1..], b);
    }
  }

  lemma {:induction false} ContentsConcat(a: seq<Message>, b: seq<Message>)
    ensures RangeMessages(a + b) == RangeMessages(a) + RangeMessages(b)
    ensures EntriesIn(a + b) == EntriesIn(a) + EntriesIn(b)
  {
    RangesConcat(a, b);
    EntriesConcat(a, b);
  }

  lemma {:induction false} ChunksContents(n: nat)
    ensures RangeMessages(Chunks(n)) == [] && EntriesIn(Chunks(n)) == []
  {
    if n > 0 {
      ChunksContents(n - 1);
      assert Chunks(n)[1..] == Chunks(n - 1);
    }
  }

  lemma {:induction false} SingleContents(m: Message)
    ensures RangeMessages([m]) == if IsRange(m) then [m] else []
    ensures EntriesIn([m]) == if m.MsgEntry? then [m.entry] else []
  {
    assert [m][1..] == [];
  }

  lemma {:induction false} EntryContents(e: Entry, n: nat, isFinal: bool)
    ensures RangeMessages(EntryMessages(e, n, isFinal)) == [] && EntriesIn(EntryMessages(e, n, isFinal)) == [e]
  {
    hide RangeMessages, EntriesIn;
    ContentsConcat([MsgEntry(e, e.length)] + Chunks(n), [MsgTerminate(isFinal)]);
    ContentsConcat([MsgEntry(e, e.length)], Chunks(n));
    ChunksContents(n);
    SingleContents(MsgEntry(e, e.length));
    SingleContents(MsgTerminate(isFinal));
  }

  lemma {:induction false} BlockContents(entries: seq<Entry>, chunks: Entry -> nat)
    ensures RangeMessages(Block(entries, chunks)) == [] && EntriesIn(Block(entries, chunks)) == entries
    decreases |entries|
  {
    if entries != [] {
      var head := EntryMessages(entries[0], chunks(entries[0]), |entries| == 1);
      EntryContents(entries[0], chunks(entries[0]), |entries| == 1);
      BlockContents(entries[1..], chunks);
      ContentsConcat(head, Block(entries[1..], chunks));
      assert entries == [entries[0]] + entries[1..];
    }
  }

  /** What a receiver unpacks: each entry, once its payload has ended, with the number of pieces the
      payload came in. */
  function Unpacked(q: seq<Message>, current: Option<(Entry, nat)>): seq<(Entry, nat)> {
    if q == [] then []
    else
      match q[0]
      case MsgEntry(e, _) => Unpacked(q[1..], Some((e, 0)))
      case MsgPayload =>
        Unpacked(q[1..], if current.Some? then Some((current.value.0, current.value.1 + 1)) else None)
      case MsgTerminate(_) => (if current.Some? then [current.value] else []) + Unpacked(q[1..], None)
      case _ => Unpacked(q[1..], current)
  }

  lemma {:induction false} ChunksUnpack(n: nat, rest: seq<Message>, e: Entry, k: nat)
    ensures Unpacked(Chunks(n) + rest, Some((e, k))) == Unpacked(rest, Some((e, k + n)))
    decreases n
  {
    if n == 0 {
      assert Chunks(0) + rest == rest;
    } else {
      var q := Chunks(n) + rest;
      assert q[0] == MsgPayload && q[1..] == Chunks(n - 1) + rest;
      ChunksUnpack(n - 1, rest, e, k + 1);
    }
  }

  /** A block unpacks to its entries, in order, each with its payload in as many pieces as it was cut. */
  lemma {:induction false} BlockUnpacks(entries: seq<Entry>, chunks: Entry -> nat)
    ensures Unpacked(Block(entries, chunks), None)
            == seq(|entries|, i requires 0 <= i < |entries| => (entries[i], chunks(entries[i])))
    decreases |entries|
  {
    if entries != [] {
      var e := entries[0];
      var rest := Block(entries[1..], chunks);
      var tail := [MsgTerminate(|entries| == 1)] + rest;
      var q := Block(entries, chunks);
      assert q[0] == MsgEntry(e, e.length) && q[1..] == Chunks(chunks(e)) + tail;
      assert tail[0] == MsgTerminate(|entries| == 1) && tail[1..] == rest;
      ChunksUnpack(chunks(e), tail, e, 0);
      BlockUnpacks(entries[1..], chunks);
      assert Unpacked(tail, Some((e, chunks(e)))) == [(e, chunks(e))] + Unpacked(rest, None);
    }
  }

  /** One announcement of the range, followed by exactly these entries, in complete blocks. */
  ghost predicate Announces(q: seq<Message>, id: TargetId, r: Range3d, want: bool, covers: Option<nat>, entries: seq<Entry>) {
    && RangeMessages(q) == [MsgAnnounce(r, entries == [], want, id.ours, id.theirs, covers)]
    && EntriesIn(q) == entries
    && Streams(Idle, q) && Owned(Idle, q, Mirror(id)) == ToSet(entries)
  }

  lemma {:induction false} AnnounceContents(id: TargetId, t: Target, store: Replica, chunks: Entry -> nat,
                                            r: Range3d, want: bool, covers: Option<nat>, knownEmpty: bool)
    ensures var entries := if knownEmpty then [] else Query(store, t.scope.namespace, r);
            Announces(AnnounceAndSend(id, t, store, chunks, r, want, covers, knownEmpty).messages, id, r, want, covers, entries)
  {
    hide Query, RangeMessages, EntriesIn;
    var entries := if knownEmpty then [] else Query(store, t.scope.namespace, r);
    var m := MsgAnnounce(r, entries == [], want, id.ours, id.theirs, covers);
    SingleContents(m);
    BlockContents(entries, chunks);
    ContentsConcat([m], Block(entries, chunks));
    var q := [m] + Block(entries, chunks);
    assert q[0] == m && q[1..] == Block(entries, chunks);
    assert [] + entries == entries && [m] + [] == [m];
    assert RangeMessages(q) == [m] && EntriesIn(q) == entries;
    if entries == [] {
      assert Block(entries, chunks) == [];
      assert TransferStep(Idle, m) == Ok(Idle) && Streams(Idle, []) && Owned(Idle, [], Mirror(id)) == {};
      assert Owned(Idle, q, Mirror(id)) == ToSet(entries);
    } else {
      BlockStream(entries, chunks, Mirror(id), Mirror(id));
    }
  }

  // ---------- splitting ----------

  /** Every entry the range can hold falls into exactly one of the two ranges. */
  ghost predicate CutInTwo(r: Range3d, lo: Range3d, hi: Range3d) {
    forall e :: (IncludesEntry(r, e) <==> IncludesEntry(lo, e) || IncludesEntry(hi, e))
                && !(IncludesEntry(lo, e) && IncludesEntry(hi, e))
  }

  /** Two fingerprints, of what is stored in two ranges that cut the range in two; only the second
      covers. */
  ghost predicate Splits(q: seq<Message>, id: TargetId, lift: Lift, store: Replica, ns: NamespaceId, r: Range3d, covers: Option<nat>) {
    && |q| == 2 && q[0].MsgFingerprint? && q[1].MsgFingerprint?
    && CutInTwo(r, q[0].range, q[1].range)
    && q[0] == MsgFingerprint(q[0].range, FingerprintOf(lift, Query(store, ns, q[0].range)), id.ours, id.theirs, None)
    && q[1] == MsgFingerprint(q[1].range, FingerprintOf(lift, Query(store, ns, q[1].range)), id.ours, id.theirs, covers)
  }

  lemma {:induction false} SendTwo(id: TargetId, t: Target, store: Replica, chunks: Entry -> nat, a: RangeSplit, b: RangeSplit, rangeCount: nat)
    requires a.action.SendFingerprint? && b.action.SendFingerprint?
    ensures SendParts(id, t, store, chunks, [a, b], rangeCount).messages
            == [MsgFingerprint(a.range, a.action.fingerprint, id.ours, id.theirs, None),
                MsgFingerprint(b.range, b.action.fingerprint, id.ours, id.theirs, Some(rangeCount))]
  {
    assert [a, b][1..] == [b] && [b][1..] == [];
    var first := SendPart(id, t, store, chunks, a, None);
    var second := SendPart(id, first.target, store, chunks, b, Some(rangeCount));
    assert SendParts(id, second.target, store, chunks, [], rangeCount).messages == [];
    assert SendParts(id, first.target, store, chunks, [b], rangeCount).messages == second.messages;
  }

  lemma {:induction false} SendOne(id: TargetId, t: Target, store: Replica, chunks: Entry -> nat, a: RangeSplit, rangeCount: nat)
    requires a.action.SendEntries?
    ensures SendParts(id, t, store, chunks, [a], rangeCount).messages
            == AnnounceAndSend(id, t, store, chunks, a.range, true, Some(rangeCount), a.action.count == 0).messages
  {
    assert [a][1..] == [];
    hide AnnounceAndSend;
    var first := SendPart(id, t, store, chunks, a, Some(rangeCount));
    assert SendParts(id, first.target, store, chunks, [], rangeCount).messages == [];
  }

  lemma {:induction false} SplitContents(lift: Lift, id: TargetId, t: Target, store: Replica, chunks: Entry -> nat, r: Range3d, rangeCount: nat)
    ensures var ns := t.scope.namespace;
            var held := Query(store, ns, r);
            var q := SendParts(id, t, store, chunks, SplitRange(lift, EntriesOf(store, ns), r, DEFAULT_MAX_SET_SIZE), rangeCount).messages;
            if |held| <= 1 then Announces(q, id, r, true, Some(rangeCount), held)
            else Splits(q, id, lift, store, ns, r, Some(rangeCount))
  {
    var ns := t.scope.namespace;
    var held := Query(store, ns, r);
    var parts := SplitRange(lift, EntriesOf(store, ns), r, DEFAULT_MAX_SET_SIZE);
    hide SendParts, AnnounceAndSend, Announces;
    if |held| <= 1 {
      AnnounceContents(id, t, store, chunks, r, true, Some(rangeCount), |held| == 0);
      SendOne(id, t, store, chunks, parts[0], rangeCount);
      assert parts == [parts[0]];
    } else {
      SplitPartitions(lift, EntriesOf(store, ns), r, DEFAULT_MAX_SET_SIZE);
      SendTwo(id, t, store, chunks, parts[0], parts[1], rangeCount);
      assert parts == [parts[0], parts[1]];
      hide IncludesEntry, FingerprintOf, Select, LowerHalf, UpperHalf;
    }
  }

  // ---------- answers ----------

  /** Everything a fingerprint is answered with. Equal: a bare announcement. Empty: everything stored in
      the range, and a response is asked for. Else at most one stored entry is sent in the same way, and
      more are split. */
  lemma {:induction false} FingerprintAnswerContents(lift: Lift, id: TargetId, t: Target, store: Replica,
                                                     chunks: Entry -> nat, r: Range3d, theirs: Fingerprint)
    ensures var ns := t.scope.namespace;
            var held := Query(store, ns, r);
            var covers := Some(t.theirCounter);
            var q := AnswerFingerprint(lift, id, t, store, chunks, r, theirs).messages;
            if FingerprintOf(lift, held) == theirs then Announces(q, id, r, false, covers, [])
            else if theirs == Neutral() || |held| <= 1 then Announces(q, id, r, true, covers, held)
            else Splits(q, id, lift, store, ns, r, covers)
  {
    var c := t.theirCounter;
    var t1 := t.(theirCounter := c + 1);
    hide AnnounceAndSend, SendParts, SplitRange, Announces, Splits, Query, FingerprintOf;
    assert IsEmpty(theirs) <==> theirs == Neutral();
    hide Neutral, IsEmpty;
    if FingerprintOf(lift, Query(store, t.scope.namespace, r)) == theirs {
      AnnounceContents(id, t1, store, chunks, r, false, Some(c), true);
    } else if IsEmpty(theirs) {
      AnnounceContents(id, t1, store, chunks, r, true, Some(c), false);
    } else {
      SplitContents(lift, id, t1, store, chunks, r, c);
    }
  }

  /** An announcement is answered with everything stored in its range, exactly if a response is asked for. */
  lemma {:induction false} AnnounceAnswerContents(id: TargetId, t: Target, store: Replica, chunks: Entry -> nat, m: Message)
    requires m.MsgAnnounce?
    ensures var q := AnswerAnnounce(id, t, store, chunks, m).messages;
            if m.wantResponse
            then Announces(q, id, m.range, false, Some(t.theirCounter), Query(store, t.scope.namespace, m.range))
            else q == []
  {
    hide AnnounceAndSend, Announces, Query;
    if m.wantResponse {
      AnnounceContents(id, t.(theirCounter := t.theirCounter + 1), store, chunks, m.range, false, Some(t.theirCounter), false);
    }
  }

  /** The entries announced are exactly the stored ones of the range, each sent once. */
  lemma {:induction false} AnnouncedExactly(q: seq<Message>, id: TargetId, store: Replica, ns: NamespaceId, r: Range3d, want: bool,
                                            covers: Option<nat>)
    requires Sound(store) && Announces(q, id, r, want, covers, Query(store, ns, r))
    ensures Distinct(EntriesIn(q))
    ensures forall e :: e in EntriesIn(q) <==> e in All(store) && e.namespace == ns && IncludesEntry(r, e)
    ensures forall m :: m in q ==> !m.MsgFingerprint?
  {
    hide RangeMessages, EntriesIn, Streams, Owned, Query, Sound, All, IncludesEntry;
    QueryExact(store, ns, r);
    forall m | m in q ensures !m.MsgFingerprint? {
      if IsRange(m) { RangeMember(q, m); }
    }
  }

  lemma {:induction false} RangeMember(q: seq<Message>, m: Message)
    requires m in q && IsRange(m)
    ensures m in RangeMessages(q)
    decreases |q|
  {
    if m != q[0] { RangeMember(q[1..], m); }
  }
}
