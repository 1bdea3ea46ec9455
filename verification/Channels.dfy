/** The bounded in-memory channel between a session and the network: a byte buffer, a closed
    flag and a budget of guarantees. Wakers are not modelled: a pending call is simply repeated. */
module Channels {
  import opened Orders
  import opened Framing

  const U64_MODULUS := 0x1_0000_0000_0000_0000

  datatype Guarantees = Unlimited | Limited(current: u64)

  /** Both operations wrap around at 64 bits. */
  function AddGuarantee(g: Guarantees, amount: u64): Guarantees {
    if g.Unlimited? then g else Limited((g.current + amount) % U64_MODULUS)
  }

  function UseGuarantee(g: Guarantees, amount: u64): Guarantees {
    if g.Unlimited? then g else Limited((g.current - amount) % U64_MODULUS)
  }

  function Available(g: Guarantees): u64 {
    if g.Unlimited? then U64_MODULUS - 1 else g.current
  }

  datatype Channel = Channel(buffer: Bytes, capacity: u64, closed: bool, guarantees: Guarantees)

  predicate Bounded(ch: Channel) { |ch.buffer| <= ch.capacity }

  function RemainingWriteCapacity(ch: Channel): u64
    requires Bounded(ch)
  {
    var room := ch.capacity - |ch.buffer|;
    if room <= Available(ch.guarantees) then room else Available(ch.guarantees)
  }

  datatype Poll<+T> = Pending | Ready(value: T)

  datatype WriteResult = Written(length: nat) | BrokenPipe

  datatype SendResult = Sent | SendClosed

  datatype ReceiveResult<+M> = Received(item: M) | EndOfChannel | ClosedIncomplete | DecodeError

  function Push(ch: Channel, data: Bytes): Channel
    requires Bounded(ch) && |data| <= RemainingWriteCapacity(ch)
  {
    ch.(buffer := ch.buffer + data, guarantees := UseGuarantee(ch.guarantees, |data|))
  }

  function Write(ch: Channel, data: Bytes): (Channel, Poll<WriteResult>)
    requires Bounded(ch)
  {
    if ch.closed then (ch, Ready(BrokenPipe))
    else
      var room := RemainingWriteCapacity(ch);
      if room == 0 then (ch, Pending)
      else
        var n := if |data| <= room then |data| else room;
        (Push(ch, data[..n]), Ready(Written(n)))
  }

  function ReadBytes(ch: Channel): (Channel, Poll<Option<Bytes>>) {
    if ch.buffer != [] then (ch.(buffer := []), Ready(Some(ch.buffer)))
    else if ch.closed then (ch, Ready(None))
    else (ch, Pending)
  }

  /** A message is written whole or not at all. */
  function SendMessage<M>(c: Codec<M>, ch: Channel, m: M): (Channel, Poll<SendResult>)
    requires Bounded(ch)
  {
    if ch.closed then (ch, Ready(SendClosed))
    else if RemainingWriteCapacity(ch) < EncodedLength(c, m) then (ch, Pending)
    else (Push(ch, Encode(c, m)), Ready(Sent))
  }

  function ReceiveMessage<M>(c: Codec<M>, ch: Channel): (Channel, Poll<ReceiveResult<M>>) {
    if ch.closed && ch.buffer == [] then (ch, Ready(EndOfChannel))
    else
      match Decode(c, ch.buffer)
      case NeedMoreData => (ch, if ch.closed then Ready(ClosedIncomplete) else Pending)
      case Failed => (ch, Ready(DecodeError))
      case Decoded(item, consumed) => (ch.(buffer := ch.buffer[consumed..]), Ready(Received(item)))
  }

  // ---------- bounds ----------

  /** Using a guarantee within the available amount never wraps; buffers never overflow. */
  lemma {:induction false} PushStaysBounded(ch: Channel, data: Bytes)
    requires Bounded(ch) && |data| <= RemainingWriteCapacity(ch)
    ensures Bounded(Push(ch, data))
    ensures ch.guarantees.Limited? ==> Push(ch, data).guarantees == Limited(ch.guarantees.current - |data|)
  {}

  // ---------- the imperative form ----------

  class Inner {
    var buffer: Bytes
    const capacity: u64
    var closed: bool
    var guarantees: Guarantees

    constructor (capacity: u64, guarantees: Guarantees)
      ensures Value() == Channel([], capacity, false, guarantees)
    {
      this.buffer := [];
      this.capacity := capacity;
      this.closed := false;
      this.guarantees := guarantees;
    }

    function Value(): Channel
      reads this
    {
      Channel(buffer, capacity, closed, guarantees)
    }

    method AddGuarantees(amount: u64)
      requires Bounded(Value())
      modifies this`guarantees
      ensures Value() == old(Value()).(guarantees := AddGuarantee(old(guarantees), amount))
    {
      guarantees := AddGuarantee(guarantees, amount);
    }

    method Close()
      modifies this`closed
      ensures Value() == old(Value()).(closed := true)
    {
      closed := true;
    }

    method RemainingCapacity() returns (n: u64)
      requires Bounded(Value())
      ensures n == RemainingWriteCapacity(Value())
    {
      n := capacity - |buffer|;
      if Available(guarantees) < n { n := Available(guarantees); }
    }

    method PollWrite(data: Bytes) returns (r: Poll<WriteResult>)
      requires Bounded(Value())
      modifies this`buffer, this`guarantees
      ensures Bounded(Value())
      ensures (Value(), r) == Write(old(Value()), data)
    {
      if closed { return Ready(BrokenPipe); }
      var avail := RemainingCapacity();
      if avail == 0 { return Pending; }
      var n := if |data| <= avail then |data| else avail;
      buffer := buffer + data[..n];
      guarantees := UseGuarantee(guarantees, n);
      return Ready(Written(n));
    }

    method PollReadBytes() returns (r: Poll<Option<Bytes>>)
      requires Bounded(Value())
      modifies this`buffer
      ensures Bounded(Value())
      ensures (Value(), r) == ReadBytes(old(Value()))
    {
      if buffer != [] {
        r := Ready(Some(buffer));
        buffer := [];
      } else if closed {
        r := Ready(None);
      } else {
        r := Pending;
      }
    }

    method PollSendMessage<M>(c: Codec<M>, m: M) returns (r: Poll<SendResult>)
      requires Bounded(Value())
      modifies this`buffer, this`guarantees
      ensures Bounded(Value())
      ensures (Value(), r) == SendMessage(c, old(Value()), m)
    {
      if closed { return Ready(SendClosed); }
      var n := EncodedLength(c, m);
      var avail := RemainingCapacity();
      if avail < n { return Pending; }
      buffer := buffer + Encode(c, m);
      guarantees := UseGuarantee(guarantees, n);
      return Ready(Sent);
    }

    method PollReceiveMessage<M>(c: Codec<M>) returns (r: Poll<ReceiveResult<M>>)
      requires Bounded(Value())
      modifies this`buffer
      ensures Bounded(Value())
      ensures (Value(), r) == ReceiveMessage(c, old(Value()))
    {
      if closed && buffer == [] { return Ready(EndOfChannel); }
      match Decode(c, buffer) {
        case NeedMoreData =>
          r := if closed then Ready(ClosedIncomplete) else Pending;
        case Failed =>
          r := Ready(DecodeError);
        case Decoded(item, consumed) =>
          buffer := buffer[consumed..];
          r := Ready(Received(item));
      }
    }
  }
}
