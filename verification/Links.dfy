/** One logical channel end to end: a sender's outbound channel, the byte stream between two
    nodes, and the other node's inbound channel, under every schedule. */
module Links {
  import opened Orders
  import opened Framing
  import opened Channels

  const CHANNEL_CAP: u64 := 1024 * 64

  /** `sent` and `delivered` record what the session sent and received; `issued` and `accepted`
      count guarantees issued, the initial ones included, and bytes taken by the outbound channel. */
  datatype Link<M> = Link(
    outbound: Channel,
    wire: Bytes,
    inbound: Channel,
    sent: seq<M>,
    delivered: seq<M>,
    issued: nat,
    accepted: nat)

  datatype LinkStep<M> =
    | Send(m: M)
    | CloseSender
    | Grant(amount: u64)
    | Carry
    | Arrive(n: nat)
    | EndStream
    | Take

  function InitialLink<M>(capacity: u64, g: Guarantees): Link<M> {
    Link(Channel([], capacity, false, g), [], Channel([], capacity, false, Unlimited), [], [], Available(g), 0)
  }

  predicate CanStep<M>(l: Link<M>, s: LinkStep<M>) {
    && Bounded(l.outbound) && Bounded(l.inbound)
    && (s.Arrive? ==> 0 < s.n <= |l.wire|)
    && (s.EndStream? ==> ReadBytes(l.outbound).1 == Ready(None) && l.wire == [])
  }

  function Sending<M>(c: Codec<M>, l: Link<M>, m: M): Link<M>
    requires Bounded(l.outbound)
  {
    var (ch, r) := SendMessage(c, l.outbound, m);
    if r == Ready(Sent) then
      l.(outbound := ch, sent := l.sent + [m], accepted := l.accepted + EncodedLength(c, m))
    else l.(outbound := ch)
  }

  /** The network takes whatever the outbound channel holds. */
  function Carrying<M>(l: Link<M>): Link<M> {
    var (ch, r) := ReadBytes(l.outbound);
    l.(outbound := ch, wire := l.wire + if r.Ready? && r.value.Some? then r.value.value else [])
  }

  /** A chunk of the stream reaches the inbound channel, which takes what it has room for. */
  function Arriving<M>(l: Link<M>, n: nat): Link<M>
    requires Bounded(l.inbound) && n <= |l.wire|
  {
    var (ch, r) := Write(l.inbound, l.wire[..n]);
    l.(inbound := ch, wire := if r.Ready? && r.value.Written? then l.wire[r.value.length..] else l.wire)
  }

  /** The receiver takes the next message; an error ends the link (`None`). */
  function Taking<M>(c: Codec<M>, l: Link<M>): Option<Link<M>> {
    var (ch, r) := ReceiveMessage(c, l.inbound);
    match r
    case Pending => Some(l.(inbound := ch))
    case Ready(Received(item)) => Some(l.(inbound := ch, delivered := l.delivered + [item]))
    case Ready(EndOfChannel) => Some(l.(inbound := ch))
    case Ready(ClosedIncomplete) => None
    case Ready(DecodeError) => None
  }

  function After<M>(c: Codec<M>, l: Link<M>, s: LinkStep<M>): Option<Link<M>>
    requires CanStep(l, s)
  {
    match s
    case Send(m) => Some(Sending(c, l, m))
    case CloseSender => Some(l.(outbound := l.outbound.(closed := true)))
    case Grant(amount) =>
      Some(l.(outbound := l.outbound.(guarantees := AddGuarantee(l.outbound.guarantees, amount)), issued := l.issued + amount))
    case Carry => Some(Carrying(l))
    case Arrive(n) => Some(Arriving(l, n))
    case EndStream => Some(l.(inbound := l.inbound.(closed := true)))
    case Take => Taking(c, l)
  }

  // ---------- the invariant ----------

  ghost predicate ChannelsOk<M>(l: Link<M>) {
    && Bounded(l.outbound) && Bounded(l.inbound)
    && l.inbound.capacity == l.outbound.capacity < TWO_TO_32
    && l.inbound.guarantees.Unlimited?
    && (l.inbound.closed ==> l.outbound.closed && l.outbound.buffer == [] && l.wire == [])
  }

  /** Every message was small enough for the channel when it was sent. */
  ghost predicate SentFits<M>(c: Codec<M>, l: Link<M>) {
    forall i :: 0 <= i < |l.sent| ==> EncodedLength(c, l.sent[i]) <= l.outbound.capacity
  }

  /** What was delivered is what was sent first; the rest is on its way, byte for byte. */
  ghost predicate StreamOk<M>(c: Codec<M>, l: Link<M>) {
    && l.delivered <= l.sent
    && l.inbound.buffer + l.wire + l.outbound.buffer == EncodeAll(c, l.sent[|l.delivered|..])
  }

  /** Bytes accepted never exceed guarantees issued, and the budget is their difference, as a
      64-bit number. */
  ghost predicate BudgetOk<M>(l: Link<M>) {
    l.outbound.guarantees.Limited? ==>
      l.accepted <= l.issued && l.outbound.guarantees.current == (l.issued - l.accepted) % U64_MODULUS
  }

  ghost predicate LinkInv<M>(c: Codec<M>, l: Link<M>) {
    ChannelsOk(l) && SentFits(c, l) && StreamOk(c, l) && BudgetOk(l)
  }

  // ---------- every step keeps it ----------

  lemma {:induction false} InitialLinkOk<M>(c: Codec<M>, capacity: u64, g: Guarantees)
    requires capacity < TWO_TO_32
    ensures LinkInv(c, InitialLink(capacity, g))
  {}

  /** Consuming guarantees never wraps: the budget stays the exact difference. */
  lemma {:induction false} SpendExact(issued: nat, accepted: nat, n: nat)
    requires accepted <= issued && n <= (issued - accepted) % U64_MODULUS
    ensures accepted + n <= issued
    ensures (issued - (accepted + n)) % U64_MODULUS == (issued - accepted) % U64_MODULUS - n
  {}

  lemma {:induction false} AddModulo(a: nat, b: nat)
    ensures (a % U64_MODULUS + b) % U64_MODULUS == (a + b) % U64_MODULUS
  {}

  lemma {:induction false} SendKeeps<M>(c: Codec<M>, l: Link<M>, m: M)
    requires LinkInv(c, l)
    ensures LinkInv(c, Sending(c, l, m))
  {
    hide Encode, StreamOk, BudgetOk;
    var k := Sending(c, l, m);
    var n := EncodedLength(c, m);
    if SendMessage(c, l.outbound, m).1 == Ready(Sent) {
      PushStaysBounded(l.outbound, Encode(c, m));
      assert n <= Available(l.outbound.guarantees);
      SendBudget(l, k, n);
      SendStream(c, l, k, m);
    }
  }

  lemma {:induction false} SendBudget<M>(l: Link<M>, k: Link<M>, n: nat)
    requires BudgetOk(l) && k.issued == l.issued && k.accepted == l.accepted + n
    requires l.outbound.guarantees.Unlimited? ==> k.outbound.guarantees.Unlimited?
    requires l.outbound.guarantees.Limited? ==>
               n <= l.outbound.guarantees.current && k.outbound.guarantees == Limited(l.outbound.guarantees.current - n)
    ensures BudgetOk(k)
  {
    if l.outbound.guarantees.Limited? { SpendExact(l.issued, l.accepted, n); }
  }

  lemma {:induction false} SendStream<M>(c: Codec<M>, l: Link<M>, k: Link<M>, m: M)
    requires StreamOk(c, l)
    requires k.sent == l.sent + [m] && k.delivered == l.delivered && k.inbound == l.inbound && k.wire == l.wire
    requires k.outbound.buffer == l.outbound.buffer + Encode(c, m)
    ensures StreamOk(c, k)
  {
    hide Encode;
    var rest := l.sent[|l.delivered|..];
    assert (l.sent + [m])[|l.delivered|..] == rest + [m];
    EncodeAllConcat(c, rest, [m]);
    assert [m][1..] == [];
    assert EncodeAll(c, [m]) == Encode(c, m) + [];
  }

  lemma {:induction false} GrantKeeps<M>(c: Codec<M>, l: Link<M>, amount: u64)
    requires LinkInv(c, l)
    ensures LinkInv(c, After(c, l, Grant(amount)).value)
  {
    hide StreamOk;
    var k := After(c, l, Grant(amount)).value;
    if l.outbound.guarantees.Limited? { AddModulo(l.issued - l.accepted, amount); }
    assert StreamOk(c, k) by { SameStream(c, l, k); }
  }

  lemma {:induction false} SameStream<M>(c: Codec<M>, l: Link<M>, k: Link<M>)
    requires StreamOk(c, l) && k.delivered == l.delivered && k.sent == l.sent
    requires k.inbound.buffer + k.wire + k.outbound.buffer == l.inbound.buffer + l.wire + l.outbound.buffer
    ensures StreamOk(c, k)
  {}

  lemma {:induction false} CarryKeeps<M>(c: Codec<M>, l: Link<M>)
    requires LinkInv(c, l)
    ensures LinkInv(c, Carrying(l))
  {
    hide StreamOk;
    var k := Carrying(l);
    assert k.wire + k.outbound.buffer == l.wire + l.outbound.buffer;
    assert k.inbound.buffer + k.wire + k.outbound.buffer == k.inbound.buffer + (k.wire + k.outbound.buffer);
    SameStream(c, l, k);
  }

  lemma {:induction false} ArriveKeeps<M>(c: Codec<M>, l: Link<M>, n: nat)
    requires LinkInv(c, l) && 0 < n <= |l.wire|
    ensures LinkInv(c, Arriving(l, n))
  {
    hide StreamOk;
    var k := Arriving(l, n);
    assert k.inbound.buffer + k.wire == l.inbound.buffer + l.wire;
    SameStream(c, l, k);
  }

  /** The front of the inbound buffer is the next message once its bytes have arrived, and
      otherwise nothing yet. */
  lemma {:induction false} FrontIsNext<M(!new)>(c: Codec<M>, l: Link<M>)
    requires Faithful(c) && LinkInv(c, l)
    ensures l.delivered == l.sent ==> Decode(c, l.inbound.buffer) == NeedMoreData && l.inbound.buffer == []
    ensures l.delivered != l.sent ==>
              var m := l.sent[|l.delivered|];
              var n := EncodedLength(c, m);
              && Decode(c, l.inbound.buffer) == (if |l.inbound.buffer| >= n then Decoded(m, n) else NeedMoreData)
              && (l.inbound.closed ==> |l.inbound.buffer| >= n)
              && (|l.inbound.buffer| >= n ==>
                    l.inbound.buffer[n..] + (l.wire + l.outbound.buffer) == EncodeAll(c, l.sent[|l.delivered| + 1..]))
  {
    hide Decode, Encode, BudgetOk;
    var rest := l.sent[|l.delivered|..];
    assert AllFit(c, rest);
    assert l.inbound.buffer + (l.wire + l.outbound.buffer) == EncodeAll(c, rest);
    hide StreamOk, SentFits;
    StreamFront(c, rest, l.inbound.buffer, l.wire + l.outbound.buffer);
    if l.inbound.closed {
      assert l.wire + l.outbound.buffer == [];
      WholeStream(c, rest, l.inbound.buffer);
    }
    if l.delivered != l.sent { assert rest[1..] == l.sent[|l.delivered| + 1..]; }
  }

  /** The receiver sees exactly the next message once its bytes have arrived, and never an error. */
  lemma {:induction false} TakeIsNext<M(!new)>(c: Codec<M>, l: Link<M>)
    requires Faithful(c) && LinkInv(c, l)
    ensures var r := ReceiveMessage(c, l.inbound).1;
            && (r == Ready(EndOfChannel) <==> l.inbound.closed && l.inbound.buffer == [])
            && (!l.inbound.closed && (l.delivered == l.sent || |l.inbound.buffer| < EncodedLength(c, l.sent[|l.delivered|])) ==> r == Pending)
            && (l.delivered != l.sent && |l.inbound.buffer| >= EncodedLength(c, l.sent[|l.delivered|])
                ==> r == Ready(Received(l.sent[|l.delivered|])))
            && r != Ready(DecodeError) && r != Ready(ClosedIncomplete)
    ensures Taking(c, l).Some? && LinkInv(c, Taking(c, l).value)
  {
    FrontIsNext(c, l);
    hide Decode, EncodeAll;
    if l.delivered != l.sent && |l.inbound.buffer| >= EncodedLength(c, l.sent[|l.delivered|]) { ReceivedKeeps(c, l); }
  }

  lemma {:induction false} ReceivedKeeps<M>(c: Codec<M>, l: Link<M>)
    requires LinkInv(c, l) && l.delivered != l.sent
    requires var n := EncodedLength(c, l.sent[|l.delivered|]);
             && n <= |l.inbound.buffer|
             && l.inbound.buffer[n..] + (l.wire + l.outbound.buffer) == EncodeAll(c, l.sent[|l.delivered| + 1..])
    ensures var m := l.sent[|l.delivered|];
            LinkInv(c, l.(inbound := l.inbound.(buffer := l.inbound.buffer[EncodedLength(c, m)..]), delivered := l.delivered + [m]))
  {
    hide EncodeAll, BudgetOk, SentFits;
    var m := l.sent[|l.delivered|];
    var k := l.(inbound := l.inbound.(buffer := l.inbound.buffer[EncodedLength(c, m)..]), delivered := l.delivered + [m]);
    assert k.inbound.buffer + k.wire + k.outbound.buffer == k.inbound.buffer + (k.wire + k.outbound.buffer);
    assert SentFits(c, k) by { SameSent(c, l, k); }
    assert BudgetOk(k) by { SameBudget(l, k); }
  }

  lemma {:induction false} SameSent<M>(c: Codec<M>, l: Link<M>, k: Link<M>)
    requires SentFits(c, l) && k.sent == l.sent && k.outbound.capacity == l.outbound.capacity
    ensures SentFits(c, k)
  {}

  lemma {:induction false} SameBudget<M>(l: Link<M>, k: Link<M>)
    requires BudgetOk(l) && k.outbound == l.outbound && k.issued == l.issued && k.accepted == l.accepted
    ensures BudgetOk(k)
  {}

  /** A whole stream holds its first message whole. */
  lemma {:induction false} WholeStream<M>(c: Codec<M>, ms: seq<M>, front: Bytes)
    requires front + [] == EncodeAll(c, ms)
    ensures ms != [] ==> |front| >= EncodedLength(c, ms[0])
    ensures front == [] ==> ms == []
  {}

  lemma {:induction false} EveryLinkStepKeeps<M(!new)>(c: Codec<M>, l: Link<M>, s: LinkStep<M>)
    requires Faithful(c) && LinkInv(c, l) && CanStep(l, s)
    ensures After(c, l, s).Some? && LinkInv(c, After(c, l, s).value)
  {
    match s {
      case Send(m) => hide LinkInv; SendKeeps(c, l, m);
      case CloseSender =>
      case Grant(amount) => hide LinkInv; GrantKeeps(c, l, amount);
      case Carry => hide LinkInv; CarryKeeps(c, l);
      case Arrive(n) => hide LinkInv; ArriveKeeps(c, l, n);
      case EndStream =>
      case Take => hide LinkInv; TakeIsNext(c, l);
    }
  }

  // ---------- whole runs ----------

  ghost predicate LinkRun<M>(c: Codec<M>, states: seq<Link<M>>, steps: seq<LinkStep<M>>) {
    && |states| == |steps| + 1
    && (exists capacity: u64, g :: capacity < TWO_TO_32 && states[0] == InitialLink(capacity, g))
    && forall i :: 0 <= i < |steps| ==> CanStep(states[i], steps[i]) && After(c, states[i], steps[i]) == Some(states[i + 1])
  }

  /** In every run messages arrive unchanged and in order, none lost or repeated; buffers stay
      within capacity and accepted bytes within issued guarantees; no step ever fails. */
  lemma {:induction false} LinkRunOk<M(!new)>(c: Codec<M>, states: seq<Link<M>>, steps: seq<LinkStep<M>>, i: nat)
    requires Faithful(c) && LinkRun(c, states, steps) && i < |states|
    ensures LinkInv(c, states[i])
    ensures forall s :: CanStep(states[i], s) ==> After(c, states[i], s).Some?
  {
    if i == 0 {
      var capacity: u64, g :| capacity < TWO_TO_32 && states[0] == InitialLink(capacity, g);
      InitialLinkOk(c, capacity, g);
    } else {
      LinkRunOk(c, states, steps, i - 1);
      EveryLinkStepKeeps(c, states[i - 1], steps[i - 1]);
    }
    hide LinkInv, LinkRun, After;
    forall s | CanStep(states[i], s) ensures After(c, states[i], s).Some? { EveryLinkStepKeeps(c, states[i], s); }
  }

  /** The budget is exactly what was issued and not yet accepted if and only if that fits in 64
      bits; adding guarantees may wrap around, using them never does. */
  lemma {:induction false} BudgetExact<M>(c: Codec<M>, l: Link<M>)
    requires LinkInv(c, l) && l.outbound.guarantees.Limited?
    ensures l.accepted <= l.issued
    ensures l.outbound.guarantees.current == l.issued - l.accepted <==> l.issued - l.accepted < U64_MODULUS
  {}

  /** Guarantees for one byte more than 64 bits can count leave a budget of nothing: the sender then
      waits although nothing of what was issued has been used. */
  lemma {:induction false} BudgetWraps<M>(c: Codec<M>, capacity: u64, m: M)
    requires capacity < TWO_TO_32
    ensures var l := InitialLink<M>(capacity, Limited(U64_MODULUS - 1));
            var k := After(c, l, Grant(1)).value;
            && LinkInv(c, k) && k.issued - k.accepted == U64_MODULUS
            && k.outbound.guarantees == Limited(0)
            && Sending(c, k, m) == k && !k.outbound.closed
  {
    InitialLinkOk(c, capacity, Limited(U64_MODULUS - 1));
    GrantKeeps(c, InitialLink<M>(capacity, Limited(U64_MODULUS - 1)), 1);
    hide Encode;
  }

  // ---------- no stall ----------

  /** A full inbound buffer always has a complete message at its front. */
  lemma {:induction false} FullBufferDecodes<M(!new)>(c: Codec<M>, l: Link<M>)
    requires Faithful(c) && LinkInv(c, l)
    requires RemainingWriteCapacity(l.inbound) == 0 && l.inbound.capacity > 0
    ensures l.delivered != l.sent
    ensures ReceiveMessage(c, l.inbound).1 == Ready(Received(l.sent[|l.delivered|]))
  {
    hide Decode, Encode;
    var rest := l.sent[|l.delivered|..];
    assert EncodeAll(c, rest) != [];
    assert l.inbound.buffer != [] && |l.inbound.buffer| == l.inbound.capacity;
    assert EncodedLength(c, l.sent[|l.delivered|]) <= l.inbound.capacity;
    hide StreamOk, ReceiveMessage;
    TakeIsNext(c, l);
  }

  /** Steps of the network and of the receiver. */
  predicate Moves<M>(s: LinkStep<M>) { s.Carry? || s.Arrive? || s.Take? }

  /** What a byte still has to pass. */
  function Backlog<M>(l: Link<M>): nat { 3 * |l.outbound.buffer| + 2 * |l.wire| + |l.inbound.buffer| }

  /** Network and receiver steps only move bytes onwards. */
  lemma {:induction false} BacklogShrinks<M(!new)>(c: Codec<M>, l: Link<M>, s: LinkStep<M>)
    requires Faithful(c) && LinkInv(c, l) && CanStep(l, s) && Moves(s)
    ensures var k := After(c, l, s);
            k.Some? && k.value.sent == l.sent && (k.value == l || Backlog(k.value) < Backlog(l))
  {
    EveryLinkStepKeeps(c, l, s);
    hide LinkInv, Decode, UseGuarantee, Available;
    match s {
      case Carry => assert Carrying(l) == l || |l.outbound.buffer| > 0;
      case Arrive(n) => assert l.wire[0..] == l.wire;
      case Take =>
    }
  }

  /** While something sent is not delivered, some network or receiver step moves bytes onwards. */
  lemma {:induction false} UndeliveredMoves<M(!new)>(c: Codec<M>, l: Link<M>) returns (s: LinkStep<M>)
    requires Faithful(c) && LinkInv(c, l) && l.delivered != l.sent
    ensures CanStep(l, s) && Moves(s)
    ensures After(c, l, s).Some? && After(c, l, s).value != l
  {
    hide Decode, Encode, EncodeAll;
    if l.outbound.buffer != [] {
      s := Carry;
    } else if l.wire == [] || RemainingWriteCapacity(l.inbound) == 0 {
      s := Take;
      LastBytes(c, l);
    } else {
      s := Arrive(|l.wire|);
      assert !l.inbound.closed;
      assert |Arriving(l, |l.wire|).inbound.buffer| > |l.inbound.buffer|;
    }
  }

  lemma {:induction false} LastBytes<M(!new)>(c: Codec<M>, l: Link<M>)
    requires Faithful(c) && LinkInv(c, l) && l.delivered != l.sent && l.outbound.buffer == []
    requires l.wire == [] || RemainingWriteCapacity(l.inbound) == 0
    ensures Taking(c, l).Some? && Taking(c, l).value != l
  {
    hide Decode, Encode;
    var rest := l.sent[|l.delivered|..];
    TakeIsNext(c, l);
    if l.wire == [] {
      assert l.inbound.buffer + l.wire + l.outbound.buffer == l.inbound.buffer + [];
      WholeStream(c, rest, l.inbound.buffer);
    } else {
      assert EncodedLength(c, l.sent[|l.delivered|]) <= l.inbound.capacity;
    }
    hide LinkInv, ReceiveMessage;
    assert ReceiveMessage(c, l.inbound).1 == Ready(Received(l.sent[|l.delivered|]));
    assert |Taking(c, l).value.delivered| > |l.delivered|;
  }

  /** The link after performing the steps one after another, if all of them can be performed. */
  function Perform<M>(c: Codec<M>, l: Link<M>, steps: seq<LinkStep<M>>): Option<Link<M>>
    decreases |steps|
  {
    if steps == [] then Some(l)
    else if !CanStep(l, steps[0]) || After(c, l, steps[0]).None? then None
    else Perform(c, After(c, l, steps[0]).value, steps[1..])
  }

  /** From every state, finitely many network and receiver steps deliver everything sent. */
  lemma {:induction false} EverythingArrives<M(!new)>(c: Codec<M>, l: Link<M>) returns (steps: seq<LinkStep<M>>)
    requires Faithful(c) && LinkInv(c, l)
    ensures forall s :: s in steps ==> Moves(s)
    ensures var k := Perform(c, l, steps);
            k.Some? && k.value.sent == l.sent && k.value.delivered == l.sent
    decreases Backlog(l)
  {
    hide LinkInv, After, Backlog, CanStep;
    if l.delivered == l.sent {
      steps := [];
    } else {
      var s := UndeliveredMoves(c, l);
      BacklogShrinks(c, l, s);
      EveryLinkStepKeeps(c, l, s);
      var rest := EverythingArrives(c, After(c, l, s).value);
      steps := [s] + rest;
      assert steps[0] == s && steps[1..] == rest;
    }
  }

  /** After an orderly close the receiver reads the end of the channel exactly when the stream
      has ended and everything has been delivered. */
  lemma {:induction false} EndMeansDelivered<M(!new)>(c: Codec<M>, l: Link<M>)
    requires Faithful(c) && LinkInv(c, l)
    ensures ReceiveMessage(c, l.inbound).1 == Ready(EndOfChannel) <==> l.inbound.closed && l.delivered == l.sent
    ensures l.inbound.closed ==> l.outbound.closed
  {}

  // ---------- sending ----------

  /** The message fits behind what is buffered, and within the guarantees left. */
  predicate Fits(ch: Channel, n: nat) {
    |ch.buffer| + n <= ch.capacity && (ch.guarantees.Limited? ==> n <= ch.guarantees.current)
  }

  /** A message is taken exactly if the channel is open and its bytes exceed neither the capacity nor the
      guarantees left; a sender waits for no other reason, and is refused exactly on a closed channel. */
  lemma {:induction false} SendsExactly<M>(c: Codec<M>, l: Link<M>, m: M)
    requires LinkInv(c, l)
    ensures Sending(c, l, m).sent
            == if !l.outbound.closed && Fits(l.outbound, EncodedLength(c, m)) then l.sent + [m] else l.sent
    ensures SendMessage(c, l.outbound, m).1
            == if l.outbound.closed then Ready(SendClosed)
               else if Fits(l.outbound, EncodedLength(c, m)) then Ready(Sent) else Pending
  {
    hide StreamOk, SentFits, Encode;
  }

  /** The network takes everything that is buffered, at once. */
  lemma {:induction false} CarryTakesAll<M>(l: Link<M>)
    ensures Carrying(l) == l.(outbound := l.outbound.(buffer := []), wire := l.wire + l.outbound.buffer)
  {
    assert l.wire + [] == l.wire;
  }

  /** An open sender with enough guarantees for a message that fits the channel waits for one step of the
      network at most. */
  lemma {:induction false} SendsAfterCarry<M>(c: Codec<M>, l: Link<M>, m: M)
    requires LinkInv(c, l) && !l.outbound.closed && EncodedLength(c, m) <= l.outbound.capacity
    requires l.outbound.guarantees.Limited? ==> EncodedLength(c, m) <= l.outbound.guarantees.current
    ensures LinkInv(c, Carrying(l)) && Sending(c, Carrying(l), m).sent == l.sent + [m]
  {
    CarryTakesAll(l);
    CarryKeeps(c, l);
    SendsExactly(c, Carrying(l), m);
    hide StreamOk, SentFits, Sending;
  }

  /** And finitely many steps of the network and the receiver later it has been delivered, after all that
      was sent before. */
  lemma {:induction false} SentArrives<M(!new)>(c: Codec<M>, l: Link<M>, m: M) returns (later: seq<LinkStep<M>>)
    requires Faithful(c) && LinkInv(c, l) && !l.outbound.closed && EncodedLength(c, m) <= l.outbound.capacity
    requires l.outbound.guarantees.Limited? ==> EncodedLength(c, m) <= l.outbound.guarantees.current
    ensures forall s :: s in later ==> Moves(s)
    ensures var k := Perform(c, l, [Carry, Send(m)] + later);
            k.Some? && k.value.delivered == l.sent + [m]
  {
    assert CanStep(l, Carry) && CanStep(Carrying(l), Send(m)) by { CarryKeeps(c, l); }
    hide LinkInv, Sending, Encode, CanStep, Carrying;
    SendsAfterCarry(c, l, m);
    var k := Sending(c, Carrying(l), m);
    EveryLinkStepKeeps(c, l, Carry);
    EveryLinkStepKeeps(c, Carrying(l), Send(m));
    later := EverythingArrives(c, k);
    var steps := [Carry, Send(m)] + later;
    assert steps[0] == Carry && steps[1..][0] == Send(m) && steps[1..][1..] == later;
  }

  /** A write takes whatever there is room and budget for: all of the data, or until none is left. */
  lemma {:induction false} WriteTakesAll(ch: Channel, data: Bytes)
    requires Bounded(ch) && !ch.closed && RemainingWriteCapacity(ch) > 0
    ensures var (after, r) := Write(ch, data);
            && r.Ready? && r.value.Written? && r.value.length <= |data|
            && after.buffer == ch.buffer + data[..r.value.length]
            && (r.value.length == |data| || |after.buffer| == after.capacity || Available(after.guarantees) == 0)
  {}

  /** Only an open channel takes data. */
  lemma {:induction false} WriteRefused(ch: Channel, data: Bytes)
    requires Bounded(ch)
    ensures Write(ch, data).1 == Ready(BrokenPipe) <==> ch.closed
    ensures Write(ch, data).1 == Pending <==> !ch.closed && (|ch.buffer| == ch.capacity || Available(ch.guarantees) == 0)
    ensures !(Write(ch, data).1.Ready? && Write(ch, data).1.value.Written?) ==> Write(ch, data).0 == ch
  {}

  /** A channel that holds the front of a stream, but not its first message whole, keeps what it holds:
      its reader waits while the channel is open, and once it is closed learns that a message was cut
      short, or, when nothing is held, of the end. */
  lemma {:induction false} CutShort<M(!new)>(c: Codec<M>, ch: Channel, ms: seq<M>, rest: Bytes)
    requires Faithful(c) && AllFit(c, ms) && ch.buffer + rest == EncodeAll(c, ms)
    requires ms != [] ==> |ch.buffer| < EncodedLength(c, ms[0])
    ensures ReceiveMessage(c, ch)
            == (ch, if !ch.closed then Pending else if ch.buffer == [] then Ready(EndOfChannel) else Ready(ClosedIncomplete))
  {
    StreamFront(c, ms, ch.buffer, rest);
    hide Decode, EncodeAll, Encode;
  }
}
