/** Which messages a peer rejects, whatever the other sends: one by one, and as whole sequences. */
module Rejections {
  import opened Orders
  import opened Entries
  import opened Ranges
  import opened Wire
  import opened Reconciler
  import opened Fingerprints
  import opened Replicas

  // ---------- one message ----------

  /** The message answers nothing, or a range that is still waited for. */
  predicate CoversWaited(p: Peer, m: Message)
    requires IsRange(m) && Ready(p, m)
  {
    m.covers.None? || m.covers.value in p.targets[Handles(m)].uncovered
  }

  /** What fits the entry transfer: announcements between blocks, entries between payloads, pieces and
      the end of a payload while there is one. */
  predicate FitsTransfer(s: Transfer, m: Message) {
    match m
    case MsgFingerprint(_, _, _, _, _) => true
    case MsgAnnounce(_, _, _, _, _, _) => s.Idle?
    case MsgEntry(_, _) => s.Receiving? && s.payload.NoPayload?
    case MsgPayload => s.Receiving? && s.payload.Current?
    case MsgTerminate(_) => s.Receiving? && s.payload.Current?
  }

  /** Of all messages a peer can get, exactly those fail that do not fit the entry transfer, cover a range
      not waited for, or end the last block of a target that is gone; each with its own error. */
  lemma {:induction false} RejectsExactly(lift: Lift, p: Peer, chunks: Entry -> nat, m: Message)
    requires Ready(p, m)
    ensures var r := Receive(lift, p, chunks, m);
            if !FitsTransfer(p.transfer, m) then r == Err(InvalidMessageInCurrentState)
            else if IsRange(m) && !CoversWaited(p, m) then r == Err(InvalidState)
            else if m.MsgTerminate? && m.isFinal && p.transfer.target !in p.targets then r == Err(TargetMissing)
            else r.Ok?
  {
    hide AnswerFingerprint, AnswerAnnounce, CompleteIfDone, IngestAt;
  }

  // ---------- whole sequences ----------

  function TransferAll(s: Transfer, q: seq<Message>): Result<Transfer>
    decreases |q|
  {
    if q == [] then Ok(s)
    else if TransferStep(s, q[0]).Err? then Err(TransferStep(s, q[0]).error)
    else TransferAll(TransferStep(s, q[0]).value, q[1..])
  }

  /** An entry, the length given with it, and the number of pieces of its payload. */
  datatype Item = Item(entry: Entry, available: u64, pieces: nat)

  /** An announcement, and the items that follow it. */
  datatype Section = Section(announce: Message, items: seq<Item>)

  function ItemMessages(i: Item, isFinal: bool): seq<Message> {
    [MsgEntry(i.entry, i.available)] + Chunks(i.pieces) + [MsgTerminate(isFinal)]
  }

  /** The items one after another, the last one marked final. */
  function ItemsMessages(items: seq<Item>): seq<Message> {
    if items == [] then [] else ItemMessages(items[0], |items| == 1) + ItemsMessages(items[1..])
  }

  function SectionsMessages(sections: seq<Section>): seq<Message> {
    if sections == [] then []
    else [sections[0].announce] + ItemsMessages(sections[0].items) + SectionsMessages(sections[1..])
  }

  /** Announcements of an empty range are followed by nothing, all others by at least one item. */
  ghost predicate Proper(sections: seq<Section>) {
    forall i :: 0 <= i < |sections| ==> sections[i].announce.MsgAnnounce? && (sections[i].announce.isEmpty <==> sections[i].items == [])
  }

  lemma {:induction false} TransferConcat(s: Transfer, a: seq<Message>, b: seq<Message>)
    ensures TransferAll(s, a + b) == if TransferAll(s, a).Ok? then TransferAll(TransferAll(s, a).value, b) else TransferAll(s, a)
    decreases |a|
  {
    hide TransferStep;
    if a == [] {
      assert a + b == b;
    } else {
      assert (a + b)[0] == a[0] && (a + b)[1..] == a[1..] + b;
      if TransferStep(s, a[0]).Ok? { TransferConcat(TransferStep(s, a[0]).value, a[1..], b); }
    }
  }

  lemma {:induction false} PiecesAccepted(t: TargetId, active: bool, n: nat)
    ensures TransferAll(Receiving(t, Current(active)), Chunks(n)) == Ok(Receiving(t, Current(active || n > 0)))
    decreases n
  {
    if n > 0 {
      assert Chunks(n)[0] == MsgPayload && Chunks(n)[1..] == Chunks(n - 1);
      PiecesAccepted(t, true, n - 1);
    }
  }

  lemma {:induction false} OneAccepted(s: Transfer, m: Message)
    ensures TransferAll(s, [m]) == TransferStep(s, m)
  {
    assert [m][1..] == [];
  }

  lemma {:induction false} ItemAccepted(t: TargetId, i: Item, isFinal: bool)
    ensures TransferAll(Receiving(t, NoPayload), ItemMessages(i, isFinal)) == Ok(if isFinal then Idle else Receiving(t, NoPayload))
  {
    hide TransferAll;
    OneAccepted(Receiving(t, NoPayload), MsgEntry(i.entry, i.available));
    PiecesAccepted(t, false, i.pieces);
    OneAccepted(Receiving(t, Current(i.pieces > 0)), MsgTerminate(isFinal));
    TransferConcat(Receiving(t, NoPayload), [MsgEntry(i.entry, i.available)], Chunks(i.pieces));
    TransferConcat(Receiving(t, NoPayload), [MsgEntry(i.entry, i.available)] + Chunks(i.pieces), [MsgTerminate(isFinal)]);
  }

  lemma {:induction false} ItemsAccepted(t: TargetId, items: seq<Item>)
    requires items != []
    ensures TransferAll(Receiving(t, NoPayload), ItemsMessages(items)) == Ok(Idle)
    decreases |items|
  {
    hide TransferAll, ItemMessages;
    ItemAccepted(t, items[0], |items| == 1);
    TransferConcat(Receiving(t, NoPayload), ItemMessages(items[0], |items| == 1), ItemsMessages(items[1..]));
    if |items| == 1 {
      assert ItemsMessages(items[1..]) == [];
      assert ItemMessages(items[0], true) + [] == ItemMessages(items[0], true);
    } else {
      ItemsAccepted(t, items[1..]);
    }
  }

  lemma {:induction false} SectionsAccepted(sections: seq<Section>)
    requires Proper(sections)
    ensures TransferAll(Idle, SectionsMessages(sections)) == Ok(Idle)
    decreases |sections|
  {
    if sections != [] {
      var u := sections[0];
      var t := Handles(u.announce);
      var rest := SectionsMessages(sections[1..]);
      assert Proper(sections[1..]);
      SectionsAccepted(sections[1..]);
      OneAccepted(Idle, u.announce);
      if u.items == [] {
        assert ItemsMessages(u.items) == [] && [u.announce] + [] == [u.announce];
      } else {
        ItemsAccepted(t, u.items);
      }
      hide TransferAll, ItemsMessages;
      TransferConcat(Idle, [u.announce], ItemsMessages(u.items));
      TransferConcat(Idle, [u.announce] + ItemsMessages(u.items), rest);
    }
  }

  // ---------- and nothing else ----------

  lemma {:induction false} ParsePieces(t: TargetId, active: bool, q: seq<Message>) returns (n: nat, isFinal: bool, rest: seq<Message>)
    requires TransferAll(Receiving(t, Current(active)), q) == Ok(Idle)
    requires forall m :: m in q ==> !m.MsgFingerprint?
    ensures q == Chunks(n) + [MsgTerminate(isFinal)] + rest
    ensures TransferAll(if isFinal then Idle else Receiving(t, NoPayload), rest) == Ok(Idle)
    decreases |q|
  {
    assert q != [] && !q[0].MsgFingerprint? by { if q != [] { assert q[0] in q; } }
    if q[0].MsgTerminate? {
      n, isFinal, rest := 0, q[0].isFinal, q[1..];
      assert q == [q[0]] + q[1..];
      assert Chunks(0) + [MsgTerminate(isFinal)] == [MsgTerminate(isFinal)];
    } else {
      var k;
      forall m | m in q[1..] ensures !m.MsgFingerprint? { assert m in q; }
      k, isFinal, rest := ParsePieces(t, true, q[1..]);
      n := k + 1;
      assert q == [MsgPayload] + q[1..];
      assert Chunks(n) + [MsgTerminate(isFinal)] + rest == [MsgPayload] + (Chunks(k) + [MsgTerminate(isFinal)] + rest);
    }
  }

  lemma {:induction false} ParseItem(t: TargetId, q: seq<Message>) returns (i: Item, isFinal: bool, rest: seq<Message>)
    requires TransferAll(Receiving(t, NoPayload), q) == Ok(Idle)
    requires forall m :: m in q ==> !m.MsgFingerprint?
    ensures q == ItemMessages(i, isFinal) + rest && |rest| < |q|
    ensures TransferAll(if isFinal then Idle else Receiving(t, NoPayload), rest) == Ok(Idle)
  {
    assert q != [] && !q[0].MsgFingerprint? by { if q != [] { assert q[0] in q; } }
    assert q[0].MsgEntry?;
    forall m | m in q[1..] ensures !m.MsgFingerprint? { assert m in q; }
    var n;
    n, isFinal, rest := ParsePieces(t, false, q[1..]);
    i := Item(q[0].entry, q[0].available, n);
    assert q == [q[0]] + q[1..];
    assert q == ItemMessages(i, isFinal) + rest;
  }

  lemma {:induction false} NoFingerprintRest(a: seq<Message>, b: seq<Message>)
    requires forall m :: m in a + b ==> !m.MsgFingerprint?
    ensures forall m :: m in b ==> !m.MsgFingerprint?
  {
    forall m | m in b ensures !m.MsgFingerprint? { assert m in a + b; }
  }

  lemma {:induction false} ParseItems(t: TargetId, q: seq<Message>) returns (items: seq<Item>, rest: seq<Message>)
    requires TransferAll(Receiving(t, NoPayload), q) == Ok(Idle)
    requires forall m :: m in q ==> !m.MsgFingerprint?
    ensures items != [] && q == ItemsMessages(items) + rest && |rest| < |q|
    ensures TransferAll(Idle, rest) == Ok(Idle)
    decreases |q|
  {
    var i, isFinal, r := ParseItem(t, q);
    hide TransferAll, ItemMessages;
    if isFinal {
      items, rest := [i], r;
      assert items[1..] == [] && ItemMessages(i, true) + [] == ItemMessages(i, true);
    } else {
      NoFingerprintRest(ItemMessages(i, false), r);
      var more;
      more, rest := ParseItems(t, r);
      items := [i] + more;
      assert items[1..] == more && |items| != 1;
      assert ItemMessages(i, false) + (ItemsMessages(more) + rest) == (ItemMessages(i, false) + ItemsMessages(more)) + rest;
    }
  }

  lemma {:induction false} ParseSections(q: seq<Message>) returns (sections: seq<Section>)
    requires TransferAll(Idle, q) == Ok(Idle)
    requires forall m :: m in q ==> !m.MsgFingerprint?
    ensures Proper(sections) && q == SectionsMessages(sections)
    decreases |q|
  {
    if q == [] {
      sections := [];
    } else {
      assert q[0] in q && q[0].MsgAnnounce?;
      assert q == [q[0]] + q[1..];
      forall m | m in q[1..] ensures !m.MsgFingerprint? { assert m in q; }
      if q[0].isEmpty {
        var more := ParseSections(q[1..]);
        sections := [Section(q[0], [])] + more;
        assert sections[1..] == more && ItemsMessages([]) == [] && [q[0]] + [] == [q[0]];
      } else {
        var items, rest := ParseItems(Handles(q[0]), q[1..]);
        NoFingerprintRest(ItemsMessages(items), rest);
        var more := ParseSections(rest);
        sections := [Section(q[0], items)] + more;
        assert sections[1..] == more;
        assert [q[0]] + (ItemsMessages(items) + rest) == [q[0]] + ItemsMessages(items) + rest;
      }
    }
  }

  function WithoutFingerprints(q: seq<Message>): seq<Message> {
    if q == [] then [] else (if q[0].MsgFingerprint? then [] else [q[0]]) + WithoutFingerprints(q[1..])
  }

  lemma {:induction false} FingerprintsPass(s: Transfer, q: seq<Message>)
    ensures TransferAll(s, q) == TransferAll(s, WithoutFingerprints(q))
    ensures forall m :: m in WithoutFingerprints(q) ==> !m.MsgFingerprint?
    decreases |q|
  {
    if q != [] {
      var w := WithoutFingerprints(q);
      var next := if TransferStep(s, q[0]).Ok? then TransferStep(s, q[0]).value else s;
      FingerprintsPass(next, q[1..]);
      if q[0].MsgFingerprint? {
        assert w == WithoutFingerprints(q[1..]) && TransferStep(s, q[0]) == Ok(s);
      } else {
        assert w[0] == q[0] && w[1..] == WithoutFingerprints(q[1..]);
      }
    }
  }

  /** Read from the idle state, exactly those sequences are accepted to their end that are, apart from
      fingerprints anywhere, announcements each followed by what it announces: nothing, or entries with
      their payload pieces and ends, of which the last is marked final. */
  lemma {:induction false} AcceptsExactly(q: seq<Message>)
    ensures TransferAll(Idle, q) == Ok(Idle) <==>
            exists sections :: Proper(sections) && WithoutFingerprints(q) == SectionsMessages(sections)
  {
    hide TransferAll, SectionsMessages, Proper;
    FingerprintsPass(Idle, q);
    if TransferAll(Idle, q) == Ok(Idle) {
      var sections := ParseSections(WithoutFingerprints(q));
    }
    if sections :| Proper(sections) && WithoutFingerprints(q) == SectionsMessages(sections) {
      SectionsAccepted(sections);
    }
  }
}
