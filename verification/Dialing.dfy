/** Two nodes that may dial each other at the same time: the tie-break that keeps one connection. */
module Dialing {
  import opened Orders
  import opened Entries

  type NodeId = Bytes

  /** `ourDial`: we are dialing, and have not taken an incoming connection instead. */
  datatype ConnState = NoConn | Establishing(ourDial: bool) | Active

  /** What a node does with an incoming connection. */
  datatype Decision = Decision(state: ConnState, accepted: bool, cancelDial: bool)

  function HandleConnection(self: NodeId, peer: NodeId, s: ConnState): Decision {
    match s
    case NoConn => Decision(Establishing(false), true, false)
    case Establishing(ourDial) =>
      if !ourDial then Decision(s, false, false)
      else if BytesLess(self, peer) then Decision(Establishing(false), true, true)
      else Decision(s, false, false)
    case Active => Decision(s, false, false)
  }

  datatype Outcome = Connected | CancelledByUs | DuplicateByRemote

  /** What a node does when one of its connection tasks ends. */
  function HandleOutcome(s: ConnState, o: Outcome): ConnState {
    match o
    case Connected => Active
    case CancelledByUs => s
    case DuplicateByRemote => if s == Establishing(true) then NoConn else s
  }

  // ---------- the imperative form ----------

  class PeerInfo {
    const self: NodeId
    const peer: NodeId
    var state: ConnState
    var dialCancelled: bool

    constructor (self: NodeId, peer: NodeId)
      ensures state == NoConn && !dialCancelled && this.self == self && this.peer == peer
    {
      this.self, this.peer, state, dialCancelled := self, peer, NoConn, false;
    }

    /** Dial unless a connection is there or being made. */
    method ConnectIfInactive() returns (dialed: bool)
      modifies this
      ensures dialed <==> old(state).NoConn?
      ensures state == (if dialed then Establishing(true) else old(state))
      ensures dialCancelled == (!dialed && old(dialCancelled))
    {
      dialed := state.NoConn?;
      if dialed { state, dialCancelled := Establishing(true), false; }
    }

    method OnConnection() returns (accepted: bool)
      modifies this
      ensures var d := HandleConnection(self, peer, old(state));
              state == d.state && accepted == d.accepted && dialCancelled == (old(dialCancelled) || d.cancelDial)
    {
      match state {
        case NoConn => accepted := true;
        case Establishing(ourDial) =>
          if !ourDial {
            accepted := false;
          } else if BytesLess(self, peer) {
            dialCancelled := true;
            accepted := true;
          } else {
            accepted := false;
          }
        case Active => accepted := false;
      }
      if accepted { state := Establishing(false); }
    }

    method OnOutcome(o: Outcome)
      modifies this`state
      ensures state == HandleOutcome(old(state), o)
    {
      match o {
        case Connected => state := Active;
        case CancelledByUs =>
        case DuplicateByRemote => if state == Establishing(true) { state := NoConn; }
      }
    }
  }

  // ---------- two nodes ----------

  datatype Phase = NoDial | InFlight | Accepted | Refused

  /** One node's dial: how far it got at the other node, whether its own node has cancelled it,
      and which ends have heard that the connection is established. */
  datatype Dial = Dial(phase: Phase, cancelled: bool, dialerDone: bool, acceptorDone: bool)

  const NeverDialed: Dial := Dial(NoDial, false, false, false)

  datatype Nodes = Nodes(big: ConnState, small: ConnState, bigDial: Dial, smallDial: Dial)

  datatype Side = Big | Small

  datatype DialStep = Start(side: Side) | Arrive(side: Side) | DialerHears(side: Side) | AcceptorHears(side: Side)

  function StateAt(n: Nodes, side: Side): ConnState { if side.Big? then n.big else n.small }

  function DialOf(n: Nodes, side: Side): Dial { if side.Big? then n.bigDial else n.smallDial }

  function Other(side: Side): Side { if side.Big? then Small else Big }

  function SetState(n: Nodes, side: Side, s: ConnState): Nodes { if side.Big? then n.(big := s) else n.(small := s) }

  function SetDial(n: Nodes, side: Side, d: Dial): Nodes { if side.Big? then n.(bigDial := d) else n.(smallDial := d) }

  function IdOf(bigId: NodeId, smallId: NodeId, side: Side): NodeId { if side.Big? then bigId else smallId }

  predicate DialEnabled(n: Nodes, step: DialStep) {
    match step
    case Start(side) => StateAt(n, side).NoConn? && DialOf(n, side).phase.NoDial?
    case Arrive(side) => DialOf(n, side).phase.InFlight?
    case DialerHears(side) =>
      var d := DialOf(n, side);
      d.phase != NoDial && (d.cancelled || d.phase.Refused? || (d.phase.Accepted? && !d.dialerDone))
    case AcceptorHears(side) =>
      var d := DialOf(n, side);
      d.phase.Accepted? && !d.acceptorDone
  }

  /** What the dialing node hears: a cancelled dial ends as cancelled. */
  function DialerOutcome(d: Dial): Outcome {
    if d.cancelled then CancelledByUs else if d.phase.Refused? then DuplicateByRemote else Connected
  }

  function DialApply(bigId: NodeId, smallId: NodeId, n: Nodes, step: DialStep): Nodes
    requires DialEnabled(n, step)
  {
    match step
    case Start(side) =>
      SetDial(SetState(n, side, Establishing(true)), side, Dial(InFlight, false, false, false))
    case Arrive(side) =>
      var at := Other(side);
      var d := HandleConnection(IdOf(bigId, smallId, at), IdOf(bigId, smallId, side), StateAt(n, at));
      var n1 := SetDial(SetState(n, at, d.state), side, DialOf(n, side).(phase := if d.accepted then Accepted else Refused));
      if d.cancelDial then SetDial(n1, at, DialOf(n1, at).(cancelled := true)) else n1
    case DialerHears(side) =>
      var d := DialOf(n, side);
      var o := DialerOutcome(d);
      SetDial(SetState(n, side, HandleOutcome(StateAt(n, side), o)), side,
              if o.Connected? then d.(dialerDone := true) else NeverDialed)
    case AcceptorHears(side) =>
      var d := DialOf(n, side);
      var o := if d.cancelled then DuplicateByRemote else Connected;
      SetDial(SetState(n, Other(side), HandleOutcome(StateAt(n, Other(side)), o)), side, d.(acceptorDone := true))
  }

  // ---------- the invariant ----------

  /** The states of both nodes while a dial is kept. */
  predicate Keeping(dialer: ConnState, acceptor: ConnState, d: Dial) {
    && !d.cancelled
    && dialer == (if d.dialerDone then Active else Establishing(true))
    && acceptor == (if d.acceptorDone then Active else Establishing(false))
  }

  predicate DialingOk(n: Nodes) {
    && (!n.bigDial.phase.Accepted? ==> !n.bigDial.dialerDone && !n.bigDial.acceptorDone)
    && (!n.smallDial.phase.Accepted? ==> !n.smallDial.dialerDone && !n.smallDial.acceptorDone)
    && !n.bigDial.phase.Refused? && !n.bigDial.cancelled
    && (n.smallDial.phase.NoDial? ==> !n.smallDial.cancelled)
    && match n.bigDial.phase
       case NoDial =>
         (match n.smallDial.phase
          case NoDial => n.big == NoConn && n.small == NoConn
          case InFlight => !n.smallDial.cancelled && n.big == NoConn && n.small == Establishing(true)
          case Accepted => Keeping(n.small, n.big, n.smallDial)
          case Refused => false)
       case InFlight =>
         && n.big == Establishing(true)
         && !n.smallDial.phase.Accepted? && !n.smallDial.cancelled
         && n.small == (if n.smallDial.phase.NoDial? then NoConn else Establishing(true))
       case Accepted =>
         && Keeping(n.big, n.small, n.bigDial)
         && !n.smallDial.phase.Accepted?
         && (n.smallDial.phase != NoDial ==> n.smallDial.cancelled)
       case Refused => false
  }

  lemma {:induction false} DialStepKeeps(bigId: NodeId, smallId: NodeId, n: Nodes, step: DialStep)
    requires BytesLess(smallId, bigId)
    requires DialingOk(n) && DialEnabled(n, step)
    ensures DialingOk(DialApply(bigId, smallId, n, step))
  {
    BytesLessIrreflexive(bigId);
    if BytesLess(bigId, smallId) { BytesLessTransitive(bigId, smallId, bigId); }
    hide BytesLess;
  }

  const Apart: Nodes := Nodes(NoConn, NoConn, NeverDialed, NeverDialed)

  ghost predicate DialRun(bigId: NodeId, smallId: NodeId, states: seq<Nodes>, steps: seq<DialStep>) {
    && |states| == |steps| + 1 && states[0] == Apart
    && forall i :: 0 <= i < |steps| ==>
         DialEnabled(states[i], steps[i]) && states[i + 1] == DialApply(bigId, smallId, states[i], steps[i])
  }

  lemma {:induction false} DialRunOk(bigId: NodeId, smallId: NodeId, states: seq<Nodes>, steps: seq<DialStep>, i: nat)
    requires BytesLess(smallId, bigId) && DialRun(bigId, smallId, states, steps) && i < |states|
    ensures DialingOk(states[i])
  {
    hide DialingOk, BytesLess;
    if i == 0 {
      assert DialingOk(Apart) by { ApartOk(); }
    } else {
      DialRunOk(bigId, smallId, states, steps, i - 1);
      DialStepKeeps(bigId, smallId, states[i - 1], steps[i - 1]);
    }
  }

  lemma {:induction false} ApartOk()
    ensures DialingOk(Apart)
  {}

  /** In every arrival order: the larger node's dial is accepted whenever it arrives; the smaller
      node's is refused whenever the larger node's dial is pending or kept; and never are both
      dials kept, nor is a cancelled one. */
  lemma {:induction false} LargerDialWins(bigId: NodeId, smallId: NodeId, states: seq<Nodes>, steps: seq<DialStep>, i: nat)
    requires BytesLess(smallId, bigId) && DialRun(bigId, smallId, states, steps) && i < |states|
    ensures var n := states[i];
            && (n.bigDial.phase.InFlight? ==> HandleConnection(smallId, bigId, n.small).accepted)
            && (n.smallDial.phase.InFlight? && !n.bigDial.phase.NoDial? ==> !HandleConnection(bigId, smallId, n.big).accepted)
            && !n.bigDial.phase.Refused?
            && !(n.bigDial.phase.Accepted? && n.smallDial.phase.Accepted?)
            && (n.smallDial.phase.Accepted? ==> !n.smallDial.cancelled) && (n.bigDial.phase.Accepted? ==> !n.bigDial.cancelled)
  {
    DialRunOk(bigId, smallId, states, steps, i);
    BytesLessIrreflexive(bigId);
    if BytesLess(bigId, smallId) { BytesLessTransitive(bigId, smallId, bigId); }
    hide BytesLess;
  }

  /** A node hears that a connection is established at most once, while it is establishing one. */
  lemma {:induction false} EstablishedOnce(bigId: NodeId, smallId: NodeId, states: seq<Nodes>, steps: seq<DialStep>, i: nat, side: Side)
    requires BytesLess(smallId, bigId) && DialRun(bigId, smallId, states, steps) && i < |states|
    ensures var n := states[i];
            && (DialEnabled(n, DialerHears(side)) && DialerOutcome(DialOf(n, side)).Connected? ==> StateAt(n, side) == Establishing(true))
            && (DialEnabled(n, AcceptorHears(side)) ==> StateAt(n, Other(side)) == Establishing(false))
  {
    DialRunOk(bigId, smallId, states, steps, i);
    hide BytesLess;
  }

  predicate NothingPending(n: Nodes) {
    forall side :: !DialEnabled(n, Arrive(side)) && !DialEnabled(n, DialerHears(side)) && !DialEnabled(n, AcceptorHears(side))
  }

  /** Once nothing is pending, both nodes are active on one and the same connection, or both are
      free to dial; no node is left establishing. */
  lemma {:induction false} BothOrNeither(bigId: NodeId, smallId: NodeId, states: seq<Nodes>, steps: seq<DialStep>, i: nat)
    requires BytesLess(smallId, bigId) && DialRun(bigId, smallId, states, steps) && i < |states|
    requires NothingPending(states[i])
    ensures var n := states[i];
            || (n.big == Active && n.small == Active && (n.bigDial.phase.Accepted? <==> !n.smallDial.phase.Accepted?))
            || (n.big == NoConn && n.small == NoConn && n.bigDial == n.smallDial == NeverDialed)
  {
    DialRunOk(bigId, smallId, states, steps, i);
    var n := states[i];
    hide BytesLess;
    assert !DialEnabled(n, Arrive(Big)) && !DialEnabled(n, DialerHears(Big)) && !DialEnabled(n, AcceptorHears(Big));
    assert !DialEnabled(n, Arrive(Small)) && !DialEnabled(n, DialerHears(Small)) && !DialEnabled(n, AcceptorHears(Small));
  }
}
