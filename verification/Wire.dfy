/** Reconciliation messages, and the receiver's state for entries in transfer. */
module Wire {
  import opened Orders
  import opened Entries
  import opened Ranges
  import opened Fingerprints

  /** A pair of area-of-interest handles, own handle first. */
  datatype TargetId = TargetId(ours: nat, theirs: nat)

  /** The same target as the other peer names it. */
  function Mirror(id: TargetId): TargetId { TargetId(id.theirs, id.ours) }

  datatype Message =
    | MsgFingerprint(range: Range3d, fingerprint: Fingerprint, sender: nat, receiver: nat, covers: Option<nat>)
    | MsgAnnounce(range: Range3d, isEmpty: bool, wantResponse: bool, sender: nat, receiver: nat, covers: Option<nat>)
    | MsgEntry(entry: Entry, available: u64)
    | MsgPayload
    | MsgTerminate(isFinal: bool)

  /** Messages that speak about a range of some target. */
  predicate IsRange(m: Message) { m.MsgFingerprint? || m.MsgAnnounce? }

  /** The target a range message is for, as its receiver names it. */
  function Handles(m: Message): TargetId
    requires IsRange(m)
  {
    TargetId(m.receiver, m.sender)
  }

  /** Range messages that both sides number: those that expect an answer. */
  predicate Numbered(m: Message) {
    m.MsgFingerprint? || (m.MsgAnnounce? && m.wantResponse)
  }

  // ---------- entries in transfer ----------

  datatype Error = InvalidMessageInCurrentState | InvalidState | TargetMissing

  datatype Result<+T> = Ok(value: T) | Err(error: Error)

  /** The payload being received: `active` once a first chunk has arrived. */
  datatype CurrentPayload = NoPayload | Current(active: bool)

  datatype Transfer = Idle | Receiving(target: TargetId, payload: CurrentPayload)

  function TransferAnnounce(s: Transfer, target: TargetId, isEmpty: bool): Result<Transfer> {
    if s.Receiving? then Err(InvalidMessageInCurrentState)
    else Ok(if isEmpty then s else Receiving(target, NoPayload))
  }

  function TransferEntry(s: Transfer): Result<Transfer> {
    if s.Idle? then Err(InvalidMessageInCurrentState)
    else if s.payload.Current? then Err(InvalidMessageInCurrentState)
    else Ok(s.(payload := Current(false)))
  }

  function TransferPayload(s: Transfer): Result<Transfer> {
    if s.Idle? || s.payload.NoPayload? then Err(InvalidMessageInCurrentState)
    else Ok(s.(payload := Current(true)))
  }

  function TransferTerminate(s: Transfer, isFinal: bool): Result<Transfer> {
    if s.Idle? || s.payload.NoPayload? then Err(InvalidMessageInCurrentState)
    else Ok(if isFinal then Idle else s.(payload := NoPayload))
  }

  /** Fingerprints leave the transfer state alone. */
  function TransferStep(s: Transfer, m: Message): Result<Transfer> {
    match m
    case MsgFingerprint(_, _, _, _, _) => Ok(s)
    case MsgAnnounce(_, isEmpty, _, _, _, _) => TransferAnnounce(s, Handles(m), isEmpty)
    case MsgEntry(_, _) => TransferEntry(s)
    case MsgPayload => TransferPayload(s)
    case MsgTerminate(isFinal) => TransferTerminate(s, isFinal)
  }

  /** The queue is a sequence of complete blocks from state `s` on: it is accepted message by
      message, range messages come only between blocks, and it ends between blocks. */
  predicate Streams(s: Transfer, q: seq<Message>)
    decreases |q|
  {
    if q == [] then s.Idle?
    else
      && (IsRange(q[0]) ==> s.Idle?)
      && TransferStep(s, q[0]).Ok?
      && Streams(TransferStep(s, q[0]).value, q[1..])
  }

  lemma {:induction false} StreamsConcat(s: Transfer, a: seq<Message>, b: seq<Message>)
    requires Streams(s, a) && Streams(Idle, b)
    ensures Streams(s, a + b)
    decreases |a|
  {
    if a == [] {
      assert a + b == b;
    } else {
      assert (a + b)[1..] == a[1..] + b && (a + b)[0] == a[0];
      StreamsConcat(TransferStep(s, a[0]).value, a[1..], b);
    }
  }

  /** Entries of the queue that belong to blocks announced for `id`, in state `s`. */
  ghost function Owned(s: Transfer, q: seq<Message>, id: TargetId): set<Entry>
    requires Streams(s, q)
    decreases |q|
  {
    if q == [] then {}
    else
      (if q[0].MsgEntry? && s.Receiving? && s.target == id then {q[0].entry} else {})
      + Owned(TransferStep(s, q[0]).value, q[1..], id)
  }

  lemma {:induction false} OwnedConcat(s: Transfer, a: seq<Message>, b: seq<Message>, id: TargetId)
    requires Streams(s, a) && Streams(Idle, b)
    ensures Streams(s, a + b)
    ensures Owned(s, a + b, id) == Owned(s, a, id) + Owned(Idle, b, id)
    decreases |a|
  {
    StreamsConcat(s, a, b);
    if a == [] {
      assert a + b == b;
    } else {
      assert (a + b)[1..] == a[1..] + b && (a + b)[0] == a[0];
      OwnedConcat(TransferStep(s, a[0]).value, a[1..], b, id);
    }
  }

  // ---------- blocks ----------

  function Chunks(n: nat): seq<Message> {
    if n == 0 then [] else [MsgPayload] + Chunks(n - 1)
  }

  /** One entry: the entry, its payload in `chunks(e)` pieces, and the end of the payload. */
  function EntryMessages(e: Entry, chunks: nat, isFinal: bool): seq<Message> {
    [MsgEntry(e, e.length)] + Chunks(chunks) + [MsgTerminate(isFinal)]
  }

  /** All entries, the last one marked final. */
  function Block(entries: seq<Entry>, chunks: Entry -> nat): seq<Message> {
    if entries == [] then []
    else EntryMessages(entries[0], chunks(entries[0]), |entries| == 1) + Block(entries[1..], chunks)
  }

  lemma {:induction false} ChunksStream(n: nat, s: Transfer, rest: seq<Message>, id: TargetId)
    requires s.Receiving? && s.payload.Current?
    requires Streams(s, rest) && Streams(s.(payload := Current(true)), rest)
    requires Owned(s, rest, id) == Owned(s.(payload := Current(true)), rest, id)
    ensures Streams(s, Chunks(n) + rest)
    ensures Owned(s, Chunks(n) + rest, id) == Owned(s, rest, id)
    decreases n
  {
    if n == 0 {
      assert Chunks(0) + rest == rest;
    } else {
      var q := Chunks(n) + rest;
      assert q[0] == MsgPayload && q[1..] == Chunks(n - 1) + rest;
      ChunksStream(n - 1, s.(payload := Current(true)), rest, id);
    }
  }

  lemma {:induction false} EntryMessagesStream(e: Entry, n: nat, isFinal: bool, target: TargetId, rest: seq<Message>, id: TargetId)
    requires Streams(if isFinal then Idle else Receiving(target, NoPayload), rest)
    ensures Streams(Receiving(target, NoPayload), EntryMessages(e, n, isFinal) + rest)
    ensures Owned(Receiving(target, NoPayload), EntryMessages(e, n, isFinal) + rest, id)
            == (if target == id then {e} else {}) + Owned(if isFinal then Idle else Receiving(target, NoPayload), rest, id)
  {
    var tail := [MsgTerminate(isFinal)] + rest;
    var s := Receiving(target, Current(false));
    assert tail[0] == MsgTerminate(isFinal) && tail[1..] == rest;
    assert Streams(s, tail) && Streams(s.(payload := Current(true)), tail);
    ChunksStream(n, s, tail, id);
    var q := EntryMessages(e, n, isFinal) + rest;
    assert q[0] == MsgEntry(e, e.length) && q[1..] == Chunks(n) + tail;
  }

  /** A block is accepted from the announced state, and leaves the receiver idle. */
  lemma {:induction false} BlockStream(entries: seq<Entry>, chunks: Entry -> nat, target: TargetId, id: TargetId)
    requires entries != []
    ensures Streams(Receiving(target, NoPayload), Block(entries, chunks))
    ensures Owned(Receiving(target, NoPayload), Block(entries, chunks), id)
            == if target == id then set e | e in entries else {}
    decreases |entries|
  {
    var rest := Block(entries[1..], chunks);
    assert entries == [entries[0]] + entries[1..];
    if |entries| == 1 {
      assert rest == [];
    } else {
      BlockStream(entries[1..], chunks, target, id);
    }
    EntryMessagesStream(entries[0], chunks(entries[0]), |entries| == 1, target, rest, id);
  }
}
