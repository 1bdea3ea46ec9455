/** Two reconcilers joined by two FIFO queues, and the invariant of every run.

    A view shows the session from one peer: `me`, `you`, the queue `out` towards you and the
    queue `inn` towards me. Flipping a view shows the same session from the other side, so
    each half of the invariant is stated once. */
module Session {
  import opened Orders
  import opened Entries
  import opened Ranges
  import opened MemoryStore
  import opened Fingerprints
  import opened Splitting
  import opened Replicas
  import opened Wire
  import opened Queues
  import opened Reconciler
  import opened Answers

  /** What both peers start from: initial entries, and the shared areas under the ids each
      side gives them. The stores each peer has had so far are kept for the invariants of a run;
      nothing is assumed of them at its start. */
  datatype Setup = Setup(
    lift: Lift,
    mine0: set<Entry>,
    yours0: set<Entry>,
    mine: map<TargetId, Scope>,
    yours: map<TargetId, Scope>,
    mineSeen: set<Replica>,
    yoursSeen: set<Replica>)

  datatype View = View(me: Peer, you: Peer, out: seq<Message>, inn: seq<Message>)

  function FlipSetup(c: Setup): Setup { Setup(c.lift, c.yours0, c.mine0, c.yours, c.mine, c.yoursSeen, c.mineSeen) }

  function Flip(v: View): View { View(v.you, v.me, v.inn, v.out) }

  /** Both sides agree on the shared areas. */
  ghost predicate ScopesOk(c: Setup) {
    && (forall id :: id in c.mine ==> Mirror(id) in c.yours && c.yours[Mirror(id)] == c.mine[id])
    && (forall id :: id in c.yours ==> Mirror(id) in c.mine && c.mine[Mirror(id)] == c.yours[id])
  }

  // ---------- one peer's bookkeeping ----------

  predicate Waiting(p: Peer, id: TargetId) {
    exists i :: 0 <= i < |p.inbox| && p.inbox[i].id == id
  }

  /** The target's state: not created yet, live, or as it was when dropped. */
  function StateOf(p: Peer, scopes: map<TargetId, Scope>, id: TargetId): Target
    requires id in scopes
  {
    if id in p.targets then p.targets[id]
    else if id in p.reconciled then p.reconciled[id]
    else NewTarget(scopes[id])
  }

  ghost predicate InboxOk(p: Peer, scopes: map<TargetId, Scope>) {
    && (forall i :: 0 <= i < |p.inbox| ==>
          && p.inbox[i].id in scopes && p.inbox[i].scope == scopes[p.inbox[i].id]
          && p.inbox[i].id !in p.targets && p.inbox[i].id !in p.reconciled)
    && (forall i, j :: 0 <= i < j < |p.inbox| ==> p.inbox[i].id != p.inbox[j].id)
    && (forall id :: id in scopes ==> Waiting(p, id) || id in p.targets || id in p.reconciled)
  }

  predicate CountersOk(t: Target) {
    && (t.ourCounter > 0 && 0 !in t.uncovered ==> t.started)
    && (t.theirCounter > 0 ==> t.started)
  }

  ghost predicate TargetsOk(p: Peer, scopes: map<TargetId, Scope>) {
    && p.targets.Keys !! p.reconciled.Keys
    && (forall id :: id in p.targets ==>
          && id in scopes && p.targets[id].scope == scopes[id]
          && CountersOk(p.targets[id])
          && (p.role.Alfie? ==> p.targets[id].ourCounter > 0))
    && (forall id :: id in p.reconciled ==>
          && id in scopes && p.reconciled[id].scope == scopes[id] && IsComplete(p.reconciled[id])
          && (p.role.Alfie? ==> p.reconciled[id].ourCounter > 0))
  }

  /** Finished targets are dropped at once, unless their last entries are still arriving. */
  ghost predicate DoneIsDropped(p: Peer) {
    && (p.transfer.Receiving? ==> p.transfer.target in p.targets)
    && (forall id :: id in p.targets && IsComplete(p.targets[id]) ==> p.transfer.Receiving? && p.transfer.target == id)
  }

  ghost predicate PeerOk(p: Peer, scopes: map<TargetId, Scope>) {
    InboxOk(p, scopes) && TargetsOk(p, scopes) && DoneIsDropped(p)
  }

  // ---------- counters and queues ----------

  /** Both peers number my ranges alike: I have numbered those you have seen and those on
      their way, and I still wait for exactly the ones whose answer you have not begun or
      whose answer is on its way, answers arriving in order. */
  ghost predicate CountsOk(me: Target, you: Target, out: seq<Message>, inn: seq<Message>, id: TargetId) {
    && me.ourCounter == you.theirCounter + NumberedFor(out, Mirror(id))
    && CoverCount(inn, id) <= you.theirCounter
    && CoversInOrder(inn, id, you.theirCounter - CoverCount(inn, id))
    && me.uncovered == Interval(you.theirCounter - CoverCount(inn, id), me.ourCounter)
  }

  /** The last message of every answer on its way to me covers one of my ranges; the only
      exception is the opening fingerprint. */
  ghost predicate TailOk(me: Target, inn: seq<Message>, id: TargetId) {
    EndsCovered(inn, id) || (!me.started && CountFor(inn, id) == 1)
  }

  ghost predicate RangesOk(scopes: map<TargetId, Scope>, q: seq<Message>) {
    forall m :: m in q && IsRange(m) ==> Handles(m) in scopes && Inside(m.range, scopes[Handles(m)].range)
  }

  /** Counters of both ends of one target, with the messages between them. */
  ghost predicate PairOk(me: Target, you: Target, out: seq<Message>, inn: seq<Message>, id: TargetId) {
    && CountsOk(me, you, out, inn, id) && TailOk(me, inn, id)
    && CountsOk(you, me, inn, out, Mirror(id)) && TailOk(you, out, Mirror(id))
  }

  /** No message of the target is on its way in either direction. */
  predicate Quiet(out: seq<Message>, inn: seq<Message>, id: TargetId) {
    CountFor(out, Mirror(id)) == 0 && CountFor(inn, id) == 0
  }

  /** Until Alfie opens a target, nothing has happened for it anywhere. */
  ghost predicate OpeningOk(opener: Peer, id: TargetId, other: Target, quiet: bool) {
    opener.role.Alfie? && Waiting(opener, id) ==> other == NewTarget(other.scope) && quiet
  }

  ghost predicate TargetInv(c: Setup, v: View, id: TargetId)
    requires id in c.mine && Mirror(id) in c.yours
  {
    var me, you := StateOf(v.me, c.mine, id), StateOf(v.you, c.yours, Mirror(id));
    && PairOk(me, you, v.out, v.inn, id)
    && OpeningOk(v.me, id, you, Quiet(v.out, v.inn, id))
    && OpeningOk(v.you, Mirror(id), me, Quiet(v.out, v.inn, id))
  }

  ghost predicate ProtocolInv(c: Setup, v: View) {
    && ScopesOk(c)
    && v.me.role != v.you.role
    && PeerOk(v.me, c.mine) && PeerOk(v.you, c.yours)
    && Streams(v.me.transfer, v.inn) && Streams(v.you.transfer, v.out)
    && RangesOk(c.mine, v.inn) && RangesOk(c.yours, v.out)
    && (forall id :: id in c.mine ==> TargetInv(c, v, id))
  }

  lemma {:induction false} FlipInv(c: Setup, v: View)
    requires ProtocolInv(c, v)
    ensures ProtocolInv(FlipSetup(c), Flip(v))
  {
    hide PeerOk, Streams, RangesOk, PairOk, OpeningOk;
    forall id | id in c.yours ensures TargetInv(FlipSetup(c), Flip(v), id) {
      assert Mirror(Mirror(id)) == id;
      assert TargetInv(c, v, Mirror(id));
      FlipPair(StateOf(v.me, c.mine, Mirror(id)), StateOf(v.you, c.yours, id), v.out, v.inn, Mirror(id));
    }
  }

  lemma {:induction false} FlipPair(me: Target, you: Target, out: seq<Message>, inn: seq<Message>, id: TargetId)
    ensures PairOk(me, you, out, inn, id) <==> PairOk(you, me, inn, out, Mirror(id))
    ensures Quiet(out, inn, id) <==> Quiet(inn, out, Mirror(id))
  {}

  // ---------- steps ----------

  /** One peer takes a message or an intersection; `chunks` is how many pieces it cuts each
      payload into. */
  datatype Step = Deliver(chunks: Entry -> nat) | StartNext

  predicate Enabled(v: View, s: Step) {
    match s
    case Deliver(_) => v.inn != [] && Ready(v.me, v.inn[0])
    case StartNext => v.me.inbox != []
  }

  /** The view after my step; `None` when the step fails the session. */
  function Apply(lift: Lift, v: View, s: Step): Option<View>
    requires Enabled(v, s)
  {
    match s
    case Deliver(chunks) =>
      var r := Receive(lift, v.me, chunks, v.inn[0]);
      if r.Err? then None
      else Some(View(r.value.peer, v.you, v.out + r.value.messages, v.inn[1..]))
    case StartNext =>
      var r := Start(lift, v.me);
      Some(View(r.peer, v.you, v.out + r.messages, v.inn))
  }
}
