/** Two nodes' connection records driven by the network between them. */
module DialStates {
  import opened Orders
  import opened Entries
  import opened Dialing

  class TwoNodes {
    const big: PeerInfo
    const small: PeerInfo
    var bigDial: Dial
    var smallDial: Dial

    constructor (bigId: NodeId, smallId: NodeId)
      requires BytesLess(smallId, bigId)
      ensures Valid() && Value() == Apart && fresh(big) && fresh(small)
      ensures big.self == bigId && small.self == smallId
    {
      big := new PeerInfo(bigId, smallId);
      small := new PeerInfo(smallId, bigId);
      bigDial, smallDial := NeverDialed, NeverDialed;
      new;
      ApartOk();
    }

    function Value(): Nodes
      reads this, big, small
    {
      Nodes(big.state, small.state, bigDial, smallDial)
    }

    /** The larger node's record and the smaller one's; a node's record knows of its own
        cancellation as long as its dial lasts. */
    ghost predicate Valid()
      reads this, big, small
    {
      && big != small && big.peer == small.self && small.peer == big.self
      && BytesLess(small.self, big.self)
      && DialingOk(Value())
      && (!bigDial.phase.NoDial? ==> big.dialCancelled == bigDial.cancelled)
      && (!smallDial.phase.NoDial? ==> small.dialCancelled == smallDial.cancelled)
    }

    function At(side: Side): PeerInfo { if side.Big? then big else small }

    method Put(side: Side, d: Dial)
      modifies this
      ensures Value() == SetDial(old(Value()), side, d)
    {
      if side.Big? { bigDial := d; } else { smallDial := d; }
    }

    /** A node wants a connection and dials; it does so exactly when it has none. */
    method Start(side: Side)
      requires Valid() && DialEnabled(Value(), DialStep.Start(side))
      modifies this, big, small
      ensures Valid() && Value() == DialApply(big.self, small.self, old(Value()), DialStep.Start(side))
    {
      DialStepKeeps(big.self, small.self, Value(), DialStep.Start(side));
      var dialed := At(side).ConnectIfInactive();
      Put(side, Dial(InFlight, false, false, false));
    }

    /** A dial reaches the other node, which may cancel its own. */
    method Arrive(side: Side)
      requires Valid() && DialEnabled(Value(), DialStep.Arrive(side))
      modifies this, big, small
      ensures Valid() && Value() == DialApply(big.self, small.self, old(Value()), DialStep.Arrive(side))
    {
      DialStepKeeps(big.self, small.self, Value(), DialStep.Arrive(side));
      hide BytesLess;
      var other := At(Other(side));
      ghost var before := Value();
      var was := other.dialCancelled;
      var accepted := other.OnConnection();
      Put(side, DialOf(Value(), side).(phase := if accepted then Accepted else Refused));
      if other.dialCancelled && !was { Put(Other(side), DialOf(Value(), Other(side)).(cancelled := true)); }
    }

    method DialerHears(side: Side)
      requires Valid() && DialEnabled(Value(), DialStep.DialerHears(side))
      modifies this, big, small
      ensures Valid() && Value() == DialApply(big.self, small.self, old(Value()), DialStep.DialerHears(side))
    {
      DialStepKeeps(big.self, small.self, Value(), DialStep.DialerHears(side));
      hide BytesLess;
      var d := DialOf(Value(), side);
      var o := DialerOutcome(d);
      At(side).OnOutcome(o);
      Put(side, if o.Connected? then d.(dialerDone := true) else NeverDialed);
    }

    method AcceptorHears(side: Side)
      requires Valid() && DialEnabled(Value(), DialStep.AcceptorHears(side))
      modifies this, big, small
      ensures Valid() && Value() == DialApply(big.self, small.self, old(Value()), DialStep.AcceptorHears(side))
    {
      DialStepKeeps(big.self, small.self, Value(), DialStep.AcceptorHears(side));
      hide BytesLess;
      var d := DialOf(Value(), side);
      At(Other(side)).OnOutcome(if d.cancelled then DuplicateByRemote else Connected);
      Put(side, d.(acceptorDone := true));
    }
  }
}
