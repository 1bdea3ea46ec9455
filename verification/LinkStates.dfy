/** One logical channel as its two ends and the stream between them drive the shared buffers. */
module LinkStates {
  import opened Orders
  import opened Framing
  import opened Channels
  import opened Links

  class LinkState<M(!new)> {
    const codec: Codec<M>
    const outbound: Inner
    const inbound: Inner
    var wire: Bytes
    ghost var sent: seq<M>
    ghost var delivered: seq<M>
    ghost var issued: nat
    ghost var accepted: nat

    constructor (codec: Codec<M>, capacity: u64, g: Guarantees)
      requires Faithful(codec) && capacity < TWO_TO_32
      ensures Valid() && Value() == InitialLink(capacity, g)
      ensures this.codec == codec && fresh(outbound) && fresh(inbound)
    {
      this.codec := codec;
      outbound := new Inner(capacity, g);
      inbound := new Inner(capacity, Unlimited);
      wire, sent, delivered, issued, accepted := [], [], [], Available(g), 0;
      new;
      InitialLinkOk(codec, capacity, g);
    }

    ghost function Value(): Link<M>
      reads this, outbound, inbound
    {
      Link(outbound.Value(), wire, inbound.Value(), sent, delivered, issued, accepted)
    }

    ghost predicate Valid()
      reads this, outbound, inbound
    {
      outbound != inbound && Faithful(codec) && LinkInv(codec, Value())
    }

    /** The session sends a message; it is on its way if and only if the result says so. */
    method Send(m: M) returns (r: Poll<SendResult>)
      requires Valid()
      modifies this, outbound
      ensures Valid() && Value() == Sending(codec, old(Value()), m)
      ensures sent == if r == Ready(Sent) then old(sent) + [m] else old(sent)
      ensures r == if old(outbound.closed) then Ready(SendClosed)
                   else if Fits(old(outbound.Value()), EncodedLength(codec, m)) then Ready(Sent) else Pending
    {
      ghost var before := Value();
      SendsExactly(codec, before, m);
      assert Bounded(outbound.Value());
      hide LinkInv, Faithful, Encode, Fits;
      EveryLinkStepKeeps(codec, before, LinkStep.Send(m));
      r := outbound.PollSendMessage(codec, m);
      if r == Ready(Sent) {
        sent := sent + [m];
        accepted := accepted + EncodedLength(codec, m);
      }
    }

    method CloseSender()
      requires Valid()
      modifies this, outbound
      ensures Valid() && After(codec, old(Value()), LinkStep.CloseSender) == Some(Value())
    {
      EveryLinkStepKeeps(codec, Value(), LinkStep.CloseSender);
      outbound.Close();
    }

    method Grant(amount: u64)
      requires Valid()
      modifies this, outbound
      ensures Valid() && After(codec, old(Value()), LinkStep.Grant(amount)) == Some(Value())
    {
      EveryLinkStepKeeps(codec, Value(), LinkStep.Grant(amount));
      outbound.AddGuarantees(amount);
      issued := issued + amount;
    }

    /** One turn of the send loop. The stream ends exactly when a closed channel has been drained. */
    method Carry() returns (more: Poll<bool>)
      requires Valid()
      modifies this, outbound
      ensures Valid() && Value() == Carrying(old(Value()))
      ensures more == Ready(false) <==> outbound.closed && old(outbound.buffer) == []
    {
      EveryLinkStepKeeps(codec, Value(), LinkStep.Carry);
      var r := outbound.PollReadBytes();
      match r {
        case Pending => more := Pending;
        case Ready(None) => more := Ready(false);
        case Ready(Some(data)) =>
          wire := wire + data;
          more := Ready(true);
      }
    }

    /** One turn of the receive loop with `n` bytes at the front of the stream: it never finds the
        inbound channel closed. */
    method Arrive(n: nat)
      requires Valid() && 0 < n <= |wire|
      modifies this, inbound
      ensures Valid() && Value() == Arriving(old(Value()), n)
      ensures !inbound.closed
    {
      EveryLinkStepKeeps(codec, Value(), LinkStep.Arrive(n));
      var r := inbound.PollWrite(wire[..n]);
      if r.Ready? && r.value.Written? { wire := wire[r.value.length..]; }
    }

    method EndStream()
      requires Valid() && ReadBytes(outbound.Value()).1 == Ready(None) && wire == []
      modifies this, inbound
      ensures Valid() && After(codec, old(Value()), LinkStep.EndStream) == Some(Value())
    {
      EveryLinkStepKeeps(codec, Value(), LinkStep.EndStream);
      hide LinkInv, ReadBytes, Faithful;
      inbound.Close();
    }

    /** The receiving session gets the next message sent, waits, or learns that everything has been
        delivered; it never sees an error. */
    method Take() returns (r: Poll<ReceiveResult<M>>)
      requires Valid()
      modifies this, inbound
      ensures Valid() && sent == old(sent)
      ensures match r
              case Pending => delivered == old(delivered)
              case Ready(Received(m)) => delivered == old(delivered) + [m] && delivered <= sent
              case Ready(EndOfChannel) => delivered == old(delivered) == sent && outbound.closed
              case Ready(_) => false
    {
      EveryLinkStepKeeps(codec, Value(), LinkStep.Take);
      TakeIsNext(codec, Value());
      EndMeansDelivered(codec, Value());
      r := inbound.PollReceiveMessage(codec);
      if r.Ready? && r.value.Received? { delivered := delivered + [r.value.item]; }
    }
  }
}
