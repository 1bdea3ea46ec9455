/** Reconciliation targets in their imperative form: counters updated in place, messages sent
    one by one. */
module Targets {
  import opened Orders
  import opened Entries
  import opened Ranges
  import opened Fingerprints
  import opened Splitting
  import opened Replicas
  import opened Wire
  import opened Reconciler
  import opened EntryStores

  /** Messages handed to the channel towards the other peer. */
  class Outbox {
    var messages: seq<Message>

    constructor ()
      ensures messages == []
    {
      messages := [];
    }

    method Send(m: Message)
      modifies this
      ensures messages == old(messages) + [m]
    {
      messages := messages + [m];
    }

    /** A payload, in `n` chunks. */
    method SendPayloadChunked(n: nat)
      modifies this
      ensures messages == old(messages) + Chunks(n)
    {
      var k := 0;
      while k < n
        invariant k <= n && messages + Chunks(n - k) == old(messages) + Chunks(n)
      {
        assert messages + Chunks(n - k) == (messages + [MsgPayload]) + Chunks(n - k - 1);
        Send(MsgPayload);
        k := k + 1;
      }
      assert messages + Chunks(0) == messages;
    }

    /** Entries with their payloads, the last one marked final. */
    method SendEntries(entries: seq<Entry>, chunks: Entry -> nat)
      modifies this
      ensures messages == old(messages) + Block(entries, chunks)
    {
      hide Chunks;
      var i := 0;
      assert entries[0..] == entries;
      while i < |entries|
        invariant 0 <= i <= |entries|
        invariant messages + Block(entries[i..], chunks) == old(messages) + Block(entries, chunks)
      {
        var e := entries[i];
        var isFinal := i + 1 == |entries|;
        ghost var before, rest := messages, Block(entries[i + 1..], chunks);
        assert entries[i..][1..] == entries[i + 1..];
        Send(MsgEntry(e, e.length));
        SendPayloadChunked(chunks(e));
        Send(MsgTerminate(isFinal));
        assert messages == before + EntryMessages(e, chunks(e), isFinal);
        assert before + (EntryMessages(e, chunks(e), isFinal) + rest) == messages + rest;
        i := i + 1;
      }
      assert messages + [] == messages;
    }
  }

  class LiveTarget {
    const id: TargetId
    const scope: Scope
    var started: bool
    var uncovered: set<nat>
    var ourCounter: nat
    var theirCounter: nat

    constructor (intersection: Intersection)
      ensures id == intersection.id && State() == NewTarget(intersection.scope)
    {
      id, scope := intersection.id, intersection.scope;
      started, uncovered, ourCounter, theirCounter := false, {}, 0, 0;
    }

    function State(): Target
      reads this
    {
      Target(scope, started, uncovered, ourCounter, theirCounter)
    }

    /** Alfie opens the exchange with the fingerprint of the whole area. */
    method Initiate(lift: Lift, store: EntryStore, outbox: Outbox)
      requires store.Valid()
      modifies this, outbox
      ensures var f := FingerprintOf(lift, Query(store.Contents(), scope.namespace, scope.range));
              var s := SendFingerprintFor(id, old(State()), scope.range, f, None);
              State() == s.target && outbox.messages == old(outbox.messages) + s.messages
    {
      var f := store.Fingerprint(lift, scope.namespace, scope.range);
      SendFingerprint(outbox, scope.range, f, None);
    }

    method MarkOurNextRangePending()
      modifies this
      ensures State() == MarkNextRangePending(old(State()))
    {
      var n := ourCounter;
      ourCounter := ourCounter + 1;
      uncovered := uncovered + {n};
    }

    method MarkOurRangeCovered(n: nat) returns (ok: bool)
      modifies this
      ensures ok <==> MarkRangeCovered(old(State()), Some(n)).Ok?
      ensures State() == if ok then MarkRangeCovered(old(State()), Some(n)).value else old(State())
    {
      ok := n in uncovered;
      uncovered := uncovered - {n};
    }

    method NextRangeCountTheirs() returns (n: nat)
      modifies this
      ensures n == old(theirCounter) && State() == old(State()).(theirCounter := n + 1)
    {
      n := theirCounter;
      theirCounter := theirCounter + 1;
    }

    method SendFingerprint(outbox: Outbox, r: Range3d, f: Fingerprint, covers: Option<nat>)
      modifies this, outbox
      ensures var s := SendFingerprintFor(id, old(State()), r, f, covers);
              State() == s.target && outbox.messages == old(outbox.messages) + s.messages
    {
      MarkOurNextRangePending();
      outbox.Send(MsgFingerprint(r, f, id.ours, id.theirs, covers));
    }

    method AnnounceAndSendEntries(outbox: Outbox, store: EntryStore, chunks: Entry -> nat,
                                  r: Range3d, wantResponse: bool, covers: Option<nat>, isEmpty: bool)
      requires store.Valid()
      modifies this, outbox
      ensures var s := AnnounceAndSend(id, old(State()), store.Contents(), chunks, r, wantResponse, covers, isEmpty);
              State() == s.target && outbox.messages == old(outbox.messages) + s.messages
    {
      hide Query, Block, EntryStore.Valid, EntryStore.Contents;
      if wantResponse { MarkOurNextRangePending(); }
      var entries := [];
      if !isEmpty { entries := store.GetEntries(scope.namespace, r); }
      outbox.Send(MsgAnnounce(r, entries == [], wantResponse, id.ours, id.theirs, covers));
      ghost var m := MsgAnnounce(r, entries == [], wantResponse, id.ours, id.theirs, covers);
      assert old(outbox.messages) + ([m] + Block(entries, chunks)) == (old(outbox.messages) + [m]) + Block(entries, chunks);
      outbox.SendEntries(entries, chunks);
    }

    method ReceivedSendFingerprint(lift: Lift, outbox: Outbox, store: EntryStore, chunks: Entry -> nat, m: Message)
      returns (ok: bool)
      requires m.MsgFingerprint? && store.Valid()
      modifies this, outbox
      ensures var s := ReceivedFingerprint(lift, id, old(State()), store.Contents(), chunks, m);
              && (ok <==> s.Ok?)
              && (ok ==> State() == s.value.target && outbox.messages == old(outbox.messages) + s.value.messages)
    {
      hide AnnounceAndSend, SendParts, Splitting.SplitRange, Query, FingerprintOf, EntryStore.Valid, EntryStore.Contents, MarkNextRangePending;
      started := true;
      if m.covers.Some? {
        var covered := MarkOurRangeCovered(m.covers.value);
        if !covered { return false; }
      }
      ghost var t := State();
      assert MarkRangeCovered(old(State()).(started := true), m.covers) == Ok(t);
      AnswerFingerprintMessage(lift, outbox, store, chunks, m);
      return true;
    }

    method AnswerFingerprintMessage(lift: Lift, outbox: Outbox, store: EntryStore, chunks: Entry -> nat, m: Message)
      requires m.MsgFingerprint? && store.Valid()
      modifies this, outbox
      ensures var s := AnswerFingerprint(lift, id, old(State()), store.Contents(), chunks, m.range, m.fingerprint);
              State() == s.target && outbox.messages == old(outbox.messages) + s.messages
    {
      hide AnnounceAndSend, SendParts, Splitting.SplitRange, Query, FingerprintOf, EntryStore.Valid, EntryStore.Contents, MarkNextRangePending;
      var rangeCount := NextRangeCountTheirs();
      var ours := store.Fingerprint(lift, scope.namespace, m.range);
      if ours == m.fingerprint {
        AnnounceAndSendEntries(outbox, store, chunks, m.range, false, Some(rangeCount), true);
      } else if IsEmpty(m.fingerprint) {
        AnnounceAndSendEntries(outbox, store, chunks, m.range, true, Some(rangeCount), false);
      } else {
        var parts := store.SplitRange(lift, scope.namespace, m.range, DEFAULT_MAX_SET_SIZE);
        AnswerWithParts(outbox, store, chunks, parts, rangeCount);
      }
    }

    method AnswerWithParts(outbox: Outbox, store: EntryStore, chunks: Entry -> nat, parts: seq<RangeSplit>, rangeCount: nat)
      requires store.Valid()
      modifies this, outbox
      ensures var s := SendParts(id, old(State()), store.Contents(), chunks, parts, rangeCount);
              State() == s.target && outbox.messages == old(outbox.messages) + s.messages
    {
      hide AnnounceAndSend, SendFingerprintFor, EntryStore.Valid, EntryStore.Contents;
      ghost var whole := SendParts(id, State(), store.Contents(), chunks, parts, rangeCount);
      ghost var sent := outbox.messages;
      var k := 0;
      assert parts[0..] == parts;
      while k < |parts|
        invariant 0 <= k <= |parts|
        invariant store.Valid() && store.Contents() == old(store.Contents())
        invariant var rest := SendParts(id, State(), store.Contents(), chunks, parts[k..], rangeCount);
                  rest.target == whole.target && outbox.messages + rest.messages == sent + whole.messages
      {
        ghost var before, t := outbox.messages, State();
        ghost var rest := SendParts(id, t, store.Contents(), chunks, parts[k..], rangeCount);
        var part := parts[k];
        var covers := if k + 1 == |parts| then Some(rangeCount) else None;
        assert parts[k..][1..] == parts[k + 1..] && |parts[k..]| == |parts| - k;
        match part.action {
          case SendEntries(count) => AnnounceAndSendEntries(outbox, store, chunks, part.range, true, covers, count == 0);
          case SendFingerprint(f) => SendFingerprint(outbox, part.range, f, covers);
        }
        ghost var first := SendPart(id, t, store.Contents(), chunks, part, covers);
        ghost var next := SendParts(id, first.target, store.Contents(), chunks, parts[k + 1..], rangeCount);
        assert rest.messages == first.messages + next.messages;
        assert before + (first.messages + next.messages) == (before + first.messages) + next.messages;
        k := k + 1;
      }
      assert outbox.messages + [] == outbox.messages;
    }

    method ReceivedAnnounceEntries(outbox: Outbox, store: EntryStore, chunks: Entry -> nat, m: Message) returns (ok: bool)
      requires m.MsgAnnounce? && store.Valid()
      modifies this, outbox
      ensures var s := ReceivedAnnounce(id, old(State()), store.Contents(), chunks, m);
              && (ok <==> s.Ok?)
              && (ok ==> State() == s.value.target && outbox.messages == old(outbox.messages) + s.value.messages)
    {
      hide AnnounceAndSend, Query, EntryStore.Valid, EntryStore.Contents;
      started := true;
      if m.covers.Some? {
        var covered := MarkOurRangeCovered(m.covers.value);
        if !covered { return false; }
      }
      assert MarkRangeCovered(old(State()).(started := true), m.covers) == Ok(State());
      if m.wantResponse {
        var rangeCount := NextRangeCountTheirs();
        AnnounceAndSendEntries(outbox, store, chunks, m.range, false, Some(rangeCount), false);
      } else {
        assert outbox.messages + [] == outbox.messages;
      }
      return true;
    }
  }
}
