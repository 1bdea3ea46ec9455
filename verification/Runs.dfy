/** Whole runs of a session: any interleaving of both peers' steps from the initial state. */
module Runs {
  import opened Orders
  import opened Entries
  import opened Ranges
  import opened MemoryStore
  import opened Fingerprints
  import opened Splitting
  import opened Replicas
  import opened Wire
  import opened Queues
  import opened Reconciler
  import opened Answers
  import opened Session
  import opened Protocol
  import opened Knowledge
  import opened Learning

  /** A step of either peer. */
  datatype Move = Mine(step: Step) | Yours(step: Step)

  predicate CanMove(v: View, move: Move) {
    match move
    case Mine(s) => Enabled(v, s)
    case Yours(s) => Enabled(Flip(v), s)
  }

  function MoveBy(lift: Lift, v: View, move: Move): Option<View>
    requires CanMove(v, move)
  {
    match move
    case Mine(s) => Apply(lift, v, s)
    case Yours(s) =>
      var w := Apply(lift, Flip(v), s);
      if w.None? then None else Some(Flip(w.value))
  }

  /** A peer before its session: its store, and every shared area waiting to be taken up. */
  ghost predicate Fresh(p: Peer, own: set<Entry>, scopes: map<TargetId, Scope>) {
    && Sound(p.store) && All(p.store) == own
    && InboxOk(p, scopes)
    && p.targets == map[] && p.reconciled == map[] && p.transfer == Idle
  }

  ghost predicate Initial(c: Setup, v: View) {
    && ScopesOk(c)
    && v.me.role != v.you.role
    && Fresh(v.me, c.mine0, c.mine) && Fresh(v.you, c.yours0, c.yours)
    && v.out == [] && v.inn == []
  }

  /** A run: from an initial state, every step an enabled step of one of the peers. */
  ghost predicate Run(c: Setup, states: seq<View>, moves: seq<Move>) {
    && |states| == |moves| + 1
    && Initial(c, states[0])
    && forall i :: 0 <= i < |moves| ==> Follows(c, states[i], moves[i], states[i + 1])
  }

  ghost predicate Follows(c: Setup, v: View, move: Move, w: View) {
    CanMove(v, move) && MoveBy(c.lift, v, move) == Some(w)
  }

  // ---------- the invariant holds throughout ----------

  lemma {:induction false} FreshPeer(p: Peer, own: set<Entry>, scopes: map<TargetId, Scope>)
    requires Fresh(p, own, scopes)
    ensures PeerOk(p, scopes) && p.transfer == Idle
    ensures forall id :: id in scopes ==> StateOf(p, scopes, id) == NewTarget(scopes[id])
  {}

  lemma {:induction false} EmptyQueues(scopes: map<TargetId, Scope>)
    ensures Streams(Idle, []) && RangesOk(scopes, [])
  {}

  lemma {:induction false} FreshPair(t: Target, u: Target, id: TargetId)
    requires t == NewTarget(t.scope) && u == NewTarget(u.scope)
    ensures PairOk(t, u, [], [], id) && Quiet([], [], id)
  {}

  lemma {:induction false} InitialProtocol(c: Setup, v: View)
    requires Initial(c, v)
    ensures ProtocolInv(c, v)
  {
    hide PairOk, PeerOk, Streams, RangesOk, StateOf, Quiet, Fresh, Waiting;
    FreshPeer(v.me, c.mine0, c.mine);
    FreshPeer(v.you, c.yours0, c.yours);
    EmptyQueues(c.mine);
    EmptyQueues(c.yours);
    forall id | id in c.mine ensures TargetInv(c, v, id) {
      FreshPair(StateOf(v.me, c.mine, id), StateOf(v.you, c.yours, Mirror(id)), id);
    }
  }

  lemma {:induction false} FreshStore(c: Setup, p: Peer)
    requires Fresh(p, c.mine0, c.mine) && p.store in c.mineSeen
    ensures StoreOk(c, p.store) && Undominated(c.mine0)
  {
    AllUndominated(p.store);
    forall e | e in c.mine0 ensures Knows(All(p.store), e) { assert Accounts(e, e); }
  }

  lemma {:induction false} FreshKnowledge(c: Setup, v: View)
    requires Initial(c, v) && v.me.store in c.mineSeen
    ensures CarryHalf(c, v) && KnowHalf(c, v)
  {
    FreshStore(c, v.me);
    assert Streams(v.me.transfer, v.inn) by { EmptyQueues(c.mine); }
    FreshOpenings(c, v);
    hide StoreOk, Streams, InScope, Knows, Fresh, OpeningPending;
  }

  lemma {:induction false} FreshOpenings(c: Setup, v: View)
    requires Initial(c, v)
    ensures forall id :: id in c.mine ==> OpeningPending(v, id)
  {
    hide Sound, All, InScope;
    forall id | id in c.mine ensures OpeningPending(v, id) {
      assert Waiting(v.me, id);
      assert Waiting(v.you, Mirror(id));
    }
  }

  lemma {:induction false} FlipInitial(c: Setup, v: View)
    requires Initial(c, v)
    ensures Initial(FlipSetup(c), Flip(v))
  {}

  /** The setup with the stores both peers have in the given states as the ones seen so far. */
  ghost function SeenBy(c: Setup, states: seq<View>): Setup {
    c.(mineSeen := set k | 0 <= k < |states| :: states[k].me.store, yoursSeen := set k | 0 <= k < |states| :: states[k].you.store)
  }

  /** No comparison made in the run is fooled: whenever a fingerprint arrives, no store its sender
      has had so far has that fingerprint for other entries of the range than the receiver, if the
      receiver finds its own equal. */
  ghost predicate Unfooled(c: Setup, states: seq<View>) {
    forall i :: 0 <= i < |states| ==>
      && NotFooled(SeenBy(c, states[..i + 1]), states[i])
      && NotFooled(FlipSetup(SeenBy(c, states[..i + 1])), Flip(states[i]))
  }

  lemma {:induction false} InitialKnow(c: Setup, v: View)
    requires Initial(c, v) && v.me.store in c.mineSeen && v.you.store in c.yoursSeen
    ensures KnowInv(c, v)
  {
    InitialProtocol(c, v);
    FlipInitial(c, v);
    InitialSetup(c, v);
    hide Initial, CarryHalf, KnowHalf, ProtocolInv, SetupOk;
    FreshKnowledge(c, v);
    FreshKnowledge(FlipSetup(c), Flip(v));
  }

  lemma {:induction false} InitialSetup(c: Setup, v: View)
    requires Initial(c, v)
    ensures SetupOk(c)
  {
    AllUndominated(v.me.store);
    AllUndominated(v.you.store);
    hide Sound, Undominated, All, InboxOk;
  }

  lemma {:induction false} MoveKeepsProtocol(c: Setup, v: View, move: Move)
    requires ProtocolInv(c, v) && CanMove(v, move)
    ensures MoveBy(c.lift, v, move).Some? && ProtocolInv(c, MoveBy(c.lift, v, move).value)
  {
    hide ProtocolInv, Apply, Enabled;
    match move {
      case Mine(s) => StepKeepsProtocol(c, v, s);
      case Yours(s) =>
        FlipInv(c, v);
        StepKeepsProtocol(FlipSetup(c), Flip(v), s);
        FlipInv(FlipSetup(c), Apply(c.lift, Flip(v), s).value);
        assert FlipSetup(FlipSetup(c)) == c;
    }
  }

  ghost predicate MoveNotFooled(c: Setup, v: View, move: Move) {
    match move
    case Mine(_) => NotFooled(c, v)
    case Yours(_) => NotFooled(FlipSetup(c), Flip(v))
  }

  /** Every move keeps what holds whatever the hash does, and as long as its comparison is not
      fooled, what both peers have still to learn. */
  lemma {:induction false} MoveLearns(c: Setup, v: View, move: Move, w: View)
    requires CarryInv(c, v) && Follows(c, v, move, w)
    requires w.me.store in c.mineSeen && w.you.store in c.yoursSeen
    ensures CarryInv(c, w)
    ensures KnowInv(c, v) && MoveNotFooled(c, v, move) ==> KnowInv(c, w)
  {
    hide CarryInv, KnowInv, Apply, Enabled, NotFooled;
    match move {
      case Mine(s) => StepLearns(c, v, s);
      case Yours(s) =>
        FlipCarry(c, v);
        if KnowInv(c, v) { FlipKnow(c, v); }
        StepLearns(FlipSetup(c), Flip(v), s);
        assert FlipSetup(FlipSetup(c)) == c && Flip(Flip(w)) == w;
        FlipCarry(FlipSetup(c), Flip(w));
        if KnowInv(FlipSetup(c), Flip(w)) { FlipKnow(FlipSetup(c), Flip(w)); }
    }
  }

  lemma {:induction false} SeenGrows(c: Setup, states: seq<View>, i: nat)
    requires 0 < i < |states|
    ensures var before, after := SeenBy(c, states[..i]), SeenBy(c, states[..i + 1]);
            && SeesMore(before, after)
            && states[i].me.store in after.mineSeen && states[i].you.store in after.yoursSeen
            && after.mineSeen == before.mineSeen + {states[i].me.store}
            && after.yoursSeen == before.yoursSeen + {states[i].you.store}
            && states[i - 1].me.store in before.mineSeen && states[i - 1].you.store in before.yoursSeen
  {
    var a, b := states[..i], states[..i + 1];
    assert b == a + [states[i]];
    assert b[i] == states[i] && a[i - 1] == states[i - 1];
    assert forall k :: 0 <= k < i ==> b[k] == a[k];
  }

  /** A move of one peer leaves the other's store alone, so nothing new can fool its comparison. */
  lemma {:induction false} StillNotFooled(c: Setup, d: Setup, v: View, move: Move, w: View)
    requires Follows(c, v, move, w) && MoveNotFooled(c, v, move) && SeesMore(c, d)
    requires d.mineSeen == c.mineSeen + {w.me.store} && d.yoursSeen == c.yoursSeen + {w.you.store}
    requires v.me.store in c.mineSeen && v.you.store in c.yoursSeen
    ensures MoveNotFooled(d, v, move)
  {
    hide TellsApart, Receive, Start;
  }

  lemma {:induction false} RunStep(c: Setup, states: seq<View>, move: Move, i: nat)
    requires 0 < i < |states| && Follows(c, states[i - 1], move, states[i])
    requires CarryInv(SeenBy(c, states[..i]), states[i - 1])
    ensures CarryInv(SeenBy(c, states[..i + 1]), states[i])
    ensures KnowInv(SeenBy(c, states[..i]), states[i - 1]) && MoveNotFooled(SeenBy(c, states[..i]), states[i - 1], move)
            ==> KnowInv(SeenBy(c, states[..i + 1]), states[i])
  {
    hide CarryInv, KnowInv, CanMove, MoveBy, MoveNotFooled;
    var before, after := SeenBy(c, states[..i]), SeenBy(c, states[..i + 1]);
    SeenGrows(c, states, i);
    hide SeenBy;
    SeeMore(before, after, states[i - 1]);
    assert before.lift == after.lift == c.lift;
    MoveLearns(after, states[i - 1], move, states[i]);
    if MoveNotFooled(before, states[i - 1], move) { StillNotFooled(before, after, states[i - 1], move, states[i]); }
  }

  lemma {:induction false} FirstSeen(c: Setup, states: seq<View>)
    requires states != []
    ensures var d := SeenBy(c, states[..1]); states[0].me.store in d.mineSeen && states[0].you.store in d.yoursSeen
  {
    assert states[..1][0] == states[0];
  }

  /** In every state of every run the protocol invariant holds, nothing a peer held is lost, what
      is on its way is real, and no enabled move fails; whatever the hash does. */
  lemma {:induction false} RunInvariant(c: Setup, states: seq<View>, moves: seq<Move>, i: nat)
    requires Run(c, states, moves) && i < |states|
    ensures CarryInv(SeenBy(c, states[..i + 1]), states[i])
    ensures ProtocolInv(c, states[i])
    ensures forall move :: CanMove(states[i], move) ==> MoveBy(c.lift, states[i], move).Some?
  {
    hide CarryInv, KnowInv, CanMove, MoveBy, Initial, SeenBy, ProtocolInv, Follows;
    if i == 0 {
      FirstSeen(c, states);
      InitialSeen(c, states);
      InitialKnow(SeenBy(c, states[..1]), states[0]);
      KnownIsCarried(SeenBy(c, states[..1]), states[0]);
    } else {
      RunInvariant(c, states, moves, i - 1);
      assert Follows(c, states[i - 1], moves[i - 1], states[i]);
      RunStep(c, states, moves[i - 1], i);
    }
    SeenSame(c, states[..i + 1]);
    CarriedIsProtocol(c, SeenBy(c, states[..i + 1]), states[i]);
    forall move | CanMove(states[i], move) ensures MoveBy(c.lift, states[i], move).Some? {
      MoveKeepsProtocol(c, states[i], move);
    }
  }

  lemma {:induction false} SeenSame(c: Setup, states: seq<View>)
    ensures var d := SeenBy(c, states);
            d.lift == c.lift && d.mine == c.mine && d.yours == c.yours && d.mine0 == c.mine0 && d.yours0 == c.yours0
  {}

  lemma {:induction false} InitialSeen(c: Setup, states: seq<View>)
    requires states != [] && Initial(c, states[0])
    ensures Initial(SeenBy(c, states[..1]), states[0])
  {
    hide Fresh;
  }

  lemma {:induction false} KnownIsCarried(c: Setup, v: View)
    requires KnowInv(c, v)
    ensures CarryInv(c, v)
  {
    hide CarryInv;
  }

  lemma {:induction false} CarriedIsProtocol(c: Setup, d: Setup, v: View)
    requires CarryInv(d, v) && d.mine == c.mine && d.yours == c.yours
    ensures ProtocolInv(c, v)
  {
    hide ProtocolInv;
    SameProtocol(d, c, v);
  }

  /** In every run in which no comparison is fooled, whatever a peer does not know yet is announced
      by something on its way. */
  lemma {:induction false} RunLearns(c: Setup, states: seq<View>, moves: seq<Move>, i: nat)
    requires Run(c, states, moves) && Unfooled(c, states) && i < |states|
    ensures KnowInv(SeenBy(c, states[..i + 1]), states[i])
  {
    hide CarryInv, KnowInv, CanMove, MoveBy, Initial, SeenBy, ProtocolInv, Follows, NotFooled;
    if i == 0 {
      FirstSeen(c, states);
      InitialSeen(c, states);
      InitialKnow(SeenBy(c, states[..1]), states[0]);
    } else {
      RunLearns(c, states, moves, i - 1);
      KnownIsCarried(SeenBy(c, states[..i]), states[i - 1]);
      assert Follows(c, states[i - 1], moves[i - 1], states[i]);
      assert MoveNotFooled(SeenBy(c, states[..i]), states[i - 1], moves[i - 1]);
      RunStep(c, states, moves[i - 1], i);
    }
  }

  // ---------- sessions exist ----------

  /** The shared areas in some order. */
  ghost function Listed(scopes: map<TargetId, Scope>): seq<Intersection>
    decreases |scopes|
  {
    if scopes == map[] then []
    else
      var id :| id in scopes;
      assert (scopes - {id}).Keys == scopes.Keys - {id};
      [Intersection(id, scopes[id])] + Listed(scopes - {id})
  }

  ghost predicate ListedOk(inbox: seq<Intersection>, scopes: map<TargetId, Scope>) {
    && (forall i :: 0 <= i < |inbox| ==> inbox[i].id in scopes && inbox[i].scope == scopes[inbox[i].id])
    && (forall i, j :: 0 <= i < j < |inbox| ==> inbox[i].id != inbox[j].id)
    && (forall id :: id in scopes ==> exists i :: 0 <= i < |inbox| && inbox[i].id == id)
  }

  lemma {:induction false} ListedExact(scopes: map<TargetId, Scope>)
    ensures ListedOk(Listed(scopes), scopes)
    decreases |scopes|
  {
    if scopes != map[] {
      var inbox := Listed(scopes);
      var id := inbox[0].id;
      var less := scopes - {id};
      assert less.Keys == scopes.Keys - {id};
      assert inbox == [Intersection(id, scopes[id])] + Listed(less);
      ListedExact(less);
      ListedCons(Listed(less), scopes, id);
    }
  }

  lemma {:induction false} ListedCons(rest: seq<Intersection>, scopes: map<TargetId, Scope>, id: TargetId)
    requires id in scopes && ListedOk(rest, scopes - {id})
    ensures ListedOk([Intersection(id, scopes[id])] + rest, scopes)
  {
    var inbox := [Intersection(id, scopes[id])] + rest;
    forall o | o in scopes ensures exists i :: 0 <= i < |inbox| && inbox[i].id == o {
      if o == id {
        assert inbox[0].id == o;
      } else {
        assert o in scopes - {id};
        var i :| 0 <= i < |rest| && rest[i].id == o;
        assert inbox[i + 1].id == o;
      }
    }
  }

  function FreshPeerOf(role: Role, store: Replica, inbox: seq<Intersection>): Peer {
    Peer(role, store, inbox, map[], Idle, map[])
  }

  /** Any two sound stores and any agreed areas start a session. */
  lemma {:induction false} SessionsStart(c: Setup, mine: Replica, yours: Replica) returns (v: View)
    requires ScopesOk(c)
    requires Sound(mine) && All(mine) == c.mine0 && Sound(yours) && All(yours) == c.yours0
    ensures Initial(c, v) && v.me.store == mine && v.you.store == yours
  {
    hide Listed, Sound, All;
    ListedExact(c.mine);
    ListedExact(c.yours);
    v := View(FreshPeerOf(Alfie, mine, Listed(c.mine)), FreshPeerOf(Betty, yours, Listed(c.yours)), [], []);
    ListedInbox(v.me, c.mine);
    ListedInbox(v.you, c.yours);
  }

  lemma {:induction false} ListedInbox(p: Peer, scopes: map<TargetId, Scope>)
    requires ListedOk(p.inbox, scopes) && p.targets == map[] && p.reconciled == map[]
    ensures InboxOk(p, scopes)
  {}
}
