/** Which of two capabilities is submitted first decides what requests name: those made when our reply
    comes in name our handle, those made when the other's bind does name the other's, and the other
    side then answers for the wrong fragment or fails. */
module LateRequests {
  import opened Orders
  import opened Entries
  import opened Ranges
  import opened Intersections
  import opened PaiFinders
  import opened SubspaceRequests

  /** The view after the moves one after another, if all of them can be made. */
  function PaiPerform(s: Scheme, v: PaiView, moves: seq<PaiMove>): Option<PaiView>
    decreases |moves|
  {
    if moves == [] then Some(v)
    else if !CanMovePai(v, moves[0]) then None
    else
      var w := MovePai(s, v, moves[0]);
      if w.None? then None else PaiPerform(s, w.value, moves[1..])
  }

  lemma {:induction false} PerformConcat(s: Scheme, v: PaiView, a: seq<PaiMove>, b: seq<PaiMove>)
    requires PaiPerform(s, v, a).Some?
    ensures PaiPerform(s, v, a + b) == PaiPerform(s, PaiPerform(s, v, a).value, b)
    decreases |a|
  {
    hide MovePai, CanMovePai;
    if a == [] {
      assert a + b == b;
    } else {
      assert (a + b)[0] == a[0] && (a + b)[1..] == a[1..] + b;
      PerformConcat(s, MovePai(s, v, a[0]).value, a[1..], b);
    }
  }

  // ---------- delivering everything ----------

  function Weight(q: seq<PaiMessage>): nat { if q == [] then 0 else (if q[0].BindFragment? then 2 else 1) + Weight(q[1..]) }

  lemma {:induction false} WeightConcat(a: seq<PaiMessage>, b: seq<PaiMessage>)
    ensures Weight(a + b) == Weight(a) + Weight(b)
  {
    if a == [] {
      assert a + b == b;
    } else {
      assert (a + b)[0] == a[0] && (a + b)[1..] == a[1..] + b;
      WeightConcat(a[1..], b);
    }
  }

  /** Nothing of mine is on its way in either direction. */
  predicate AllAnswered(v: PaiView) { Binds(v.out) == [] && Replies(v.inn) == [] }

  /** What deliveries leave: submissions and earlier requests; when nothing of mine is on its way, every
      further request is made on a bind, and when no bind is on its way to me, every one on a reply. */
  predicate Continues(v: PaiView, w: PaiView) {
    && w.me.submitted == v.me.submitted && w.you.submitted == v.you.submitted
    && w.me.fragments == v.me.fragments && w.you.fragments == v.you.fragments
    && v.me.requests <= w.me.requests
    && (AllAnswered(v) ==>
          AllAnswered(w) && forall i :: |v.me.requests| <= i < |w.me.requests| ==> !w.me.requests[i].onReply)
    && (Binds(v.inn) == [] ==>
          Binds(w.inn) == [] && forall i :: |v.me.requests| <= i < |w.me.requests| ==> w.me.requests[i].onReply)
  }

  lemma {:induction false} ContinuesOn(u: PaiView, v: PaiView, w: PaiView)
    requires Continues(u, v) && Continues(v, w)
    ensures Continues(u, w)
  {
    hide Binds, AllAnswered;
    forall i | 0 <= i < |v.me.requests| ensures v.me.requests[i] == w.me.requests[i] {}
  }

  lemma {:induction false} NewRequestsAre(f: Finder, found: seq<(nat, nat)>, onReply: bool)
    ensures forall i :: |f.requests| <= i < |Logged(f, found, onReply).requests| ==>
              Logged(f, found, onReply).requests[i].onReply == onReply
  {
    RequestsForHandles(f.fragments, found, onReply);
    hide RequestsFor;
  }

  /** A delivered message is gone; a bind leaves a reply in its place. */
  lemma {:induction false} DeliveredQueues(s: Scheme, f: Finder, out: seq<PaiMessage>, inn: seq<PaiMessage>)
    requires inn != [] && ReceivePai(s, f, inn[0]).Done?
    ensures var r := ReceivePai(s, f, inn[0]).reply.messages;
            && Weight(out + r) + Weight(inn[1..]) < Weight(out) + Weight(inn)
            && Binds(out + r) == Binds(out)
            && (Replies(inn) == [] ==> inn[0].BindFragment? && Replies(inn[1..]) == [])
            && (Binds(inn) == [] ==> inn[0].ReplyFragment? && Binds(inn[1..]) == [] && r == [])
  {
    hide Logged, FoundByOurs, FoundByTheirs;
    HeadParts(inn);
    var r := ReceivePai(s, f, inn[0]).reply.messages;
    if inn[0].BindFragment? {
      assert r == [r[0]] && r[1..] == [];
      QueueParts(out, r);
      OneReply(r[0]);
      WeightConcat(out, r);
      assert Binds(out) + [] == Binds(out);
    } else {
      assert out + [] == out;
    }
  }

  lemma {:induction false} DeliveredFinder(s: Scheme, f: Finder, m: PaiMessage)
    requires ReceivePai(s, f, m).Done?
    ensures var g := ReceivePai(s, f, m).reply.finder;
            && g.submitted == f.submitted && g.fragments == f.fragments && f.requests <= g.requests
            && forall i :: |f.requests| <= i < |g.requests| ==> (g.requests[i].onReply <==> m.ReplyFragment?)
  {
    hide Logged, FoundByOurs, FoundByTheirs;
    if m.BindFragment? {
      var g := GroupState(s.mult(m.group, f.scalar), true, m.secondary);
      NewRequestsAre(f.(theirs := f.theirs + [g]), FoundByTheirs(|f.theirs|, g, f.ours), false);
      LoggedSame(f.(theirs := f.theirs + [g]), FoundByTheirs(|f.theirs|, g, f.ours), false);
    } else {
      var g := GroupState(m.group, true, f.ours[m.handle].secondary);
      NewRequestsAre(f.(ours := f.ours[m.handle := g]), FoundByOurs(m.handle, g, f.theirs), true);
      LoggedSame(f.(ours := f.ours[m.handle := g]), FoundByOurs(m.handle, g, f.theirs), true);
    }
  }

  lemma {:induction false} LoggedSame(f: Finder, found: seq<(nat, nat)>, onReply: bool)
    ensures var g := Logged(f, found, onReply);
            g.submitted == f.submitted && g.fragments == f.fragments && f.requests <= g.requests
  {}

  lemma {:induction false} MyDeliveryIs(s: Scheme, v: PaiView)
    requires PaiInv(s, v) && v.inn != []
    ensures ReceivePai(s, v.me, v.inn[0]).Done?
    ensures var r := ReceivePai(s, v.me, v.inn[0]).reply;
            MovePai(s, v, MyStep(DeliverPai)) == Some(PaiView(r.finder, v.you, v.out + r.messages, v.inn[1..]))
    ensures PaiInv(s, MovePai(s, v, MyStep(DeliverPai)).value)
  {
    hide PaiInv, ReceivePai;
    PaiStepKeeps(s, v, DeliverPai);
  }

  lemma {:induction false} MyDelivery(s: Scheme, v: PaiView)
    requires PaiInv(s, v) && v.inn != []
    ensures MovePai(s, v, MyStep(DeliverPai)).Some?
    ensures var w := MovePai(s, v, MyStep(DeliverPai)).value;
            PaiInv(s, w) && Continues(v, w) && Weight(w.out) + Weight(w.inn) < Weight(v.out) + Weight(v.inn)
  {
    MyDeliveryIs(s, v);
    hide PaiInv, ReceivePai, Weight, Binds, Replies, MovePai, Continues;
    DeliveredQueues(s, v.me, v.out, v.inn);
    DeliveredFinder(s, v.me, v.inn[0]);
    var r := ReceivePai(s, v.me, v.inn[0]).reply;
    MyDeliveryContinues(v, PaiView(r.finder, v.you, v.out + r.messages, v.inn[1..]), v.inn[0].ReplyFragment?);
  }

  lemma {:induction false} MyDeliveryContinues(v: PaiView, w: PaiView, onReply: bool)
    requires w.you == v.you && w.me.submitted == v.me.submitted && w.me.fragments == v.me.fragments
    requires v.me.requests <= w.me.requests
    requires forall i :: |v.me.requests| <= i < |w.me.requests| ==> w.me.requests[i].onReply == onReply
    requires Binds(w.out) == Binds(v.out)
    requires Replies(v.inn) == [] ==> !onReply && Replies(w.inn) == []
    requires Binds(v.inn) == [] ==> onReply && Binds(w.inn) == []
    ensures Continues(v, w)
  {
    hide Binds, Replies;
  }

  lemma {:induction false} YourDeliveryIs(s: Scheme, v: PaiView)
    requires PaiInv(s, v) && v.out != []
    ensures ReceivePai(s, v.you, v.out[0]).Done?
    ensures var r := ReceivePai(s, v.you, v.out[0]).reply;
            MovePai(s, v, YourStep(DeliverPai)) == Some(PaiView(v.me, r.finder, v.out[1..], v.inn + r.messages))
    ensures PaiInv(s, MovePai(s, v, YourStep(DeliverPai)).value)
  {
    hide PaiInv, ReceivePai;
    FlipPaiInv(s, v);
    PaiStepKeeps(s, FlipPai(v), DeliverPai);
    FlipPaiInv(s, PaiApply(s, FlipPai(v), DeliverPai).value);
  }

  lemma {:induction false} YourDeliveryContinues(v: PaiView, w: PaiView)
    requires w.me == v.me && w.you.submitted == v.you.submitted && w.you.fragments == v.you.fragments
    requires Binds(w.inn) == Binds(v.inn)
    requires Binds(v.out) == [] ==> Binds(w.out) == [] && w.inn == v.inn
    ensures Continues(v, w)
  {}

  lemma {:induction false} YourDelivery(s: Scheme, v: PaiView)
    requires PaiInv(s, v) && v.out != []
    ensures MovePai(s, v, YourStep(DeliverPai)).Some?
    ensures var w := MovePai(s, v, YourStep(DeliverPai)).value;
            PaiInv(s, w) && Continues(v, w) && Weight(w.out) + Weight(w.inn) < Weight(v.out) + Weight(v.inn)
  {
    YourDeliveryIs(s, v);
    hide PaiInv, ReceivePai, Weight, Binds, Replies, MovePai, Continues;
    DeliveredQueues(s, v.you, v.inn, v.out);
    DeliveredFinder(s, v.you, v.out[0]);
    var r := ReceivePai(s, v.you, v.out[0]).reply;
    assert r.messages == [] ==> v.inn + r.messages == v.inn;
    YourDeliveryContinues(v, PaiView(v.me, r.finder, v.out[1..], v.inn + r.messages));
  }

  /** Finitely many deliveries settle every exchange. */
  lemma {:induction false} Settles(s: Scheme, v: PaiView) returns (moves: seq<PaiMove>, w: PaiView)
    requires SchemeOk(s) && PaiInv(s, v) && RequestsOk(v.me) && RequestsOk(v.you)
    ensures PaiPerform(s, v, moves) == Some(w) && Continues(v, w)
    ensures Settled(s, w) && RequestsOk(w.me) && RequestsOk(w.you)
    decreases Weight(v.out) + Weight(v.inn)
  {
    hide PaiInv, RequestsOk, MovePai, Continues, Weight, SchemeOk;
    if v.inn == [] && v.out == [] {
      moves, w := [], v;
      ContinuesHere(v);
    } else {
      var move := if v.inn != [] then MyStep(DeliverPai) else YourStep(DeliverPai);
      if v.inn != [] { MyDelivery(s, v); } else { YourDelivery(s, v); }
      MoveKeepsRequests(s, v, move);
      var u := MovePai(s, v, move).value;
      var rest;
      rest, w := Settles(s, u);
      moves := [move] + rest;
      assert moves[0] == move && moves[1..] == rest;
      ContinuesOn(v, u, w);
    }
  }

  lemma {:induction false} ContinuesHere(v: PaiView)
    ensures Continues(v, v)
  {}

  // ---------- a late capability ----------

  lemma {:induction false} SubmittedIs(s: Scheme, v: PaiView, d: Capability)
    requires d !in v.you.submitted
    ensures var you := v.you.(submitted := v.you.submitted + [d], fragments := v.you.fragments + FragmentsOf(d),
                              ours := v.you.ours + StatesFor(s, FragmentsOf(d), v.you.scalar));
            MovePai(s, v, YourStep(SubmitCap(d))) == Some(PaiView(v.me, you, v.out, v.inn + BindsFor(s, FragmentsOf(d), v.you.scalar)))
  {
    SubmitFragmentsIs(s, v.you.(submitted := v.you.submitted + [d]), FragmentsOf(d));
    hide FragmentsOf, SubmitFragments, BindsFor, StatesFor;
  }

  lemma {:induction false} Submitted(s: Scheme, v: PaiView, d: Capability) returns (w: PaiView)
    requires PaiInv(s, v) && RequestsOk(v.me) && RequestsOk(v.you) && d !in v.you.submitted
    ensures PaiPerform(s, v, [YourStep(SubmitCap(d))]) == Some(w)
    ensures PaiInv(s, w) && RequestsOk(w.me) && RequestsOk(w.you)
    ensures w.me == v.me && w.out == v.out && w.you.submitted == v.you.submitted + [d]
    ensures w.you.fragments == v.you.fragments + FragmentsOf(d) && Replies(w.inn) == Replies(v.inn)
  {
    hide PaiInv, RequestsOk, FragmentsOf, Binds, Replies;
    var move := YourStep(SubmitCap(d));
    MoveKeepsRequests(s, v, move);
    SubmittedIs(s, v, d);
    QueueParts(v.inn, BindsFor(s, FragmentsOf(d), v.you.scalar));
    BindsOnly(s, FragmentsOf(d), v.you.scalar);
    w := MovePai(s, v, move).value;
    hide MovePai;
    assert [move][1..] == [];
    assert Replies(v.inn) + [] == Replies(v.inn);
  }

  /** After everything about my capabilities has been delivered you submit another one: once that has
      been delivered too, all requests I made for it name your handle. */
  lemma {:induction false} LateCapability(s: Scheme, v: PaiView, d: Capability) returns (moves: seq<PaiMove>, w: PaiView)
    requires Settled(s, v) && RequestsOk(v.me) && RequestsOk(v.you) && d !in v.you.submitted
    ensures PaiPerform(s, v, moves) == Some(w) && Settled(s, w) && RequestsOk(w.me) && RequestsOk(w.you)
    ensures w.me.submitted == v.me.submitted && w.you.submitted == v.you.submitted + [d]
    ensures w.me.fragments == v.me.fragments && w.you.fragments == v.you.fragments + FragmentsOf(d)
    ensures v.me.requests <= w.me.requests
    ensures forall i :: |v.me.requests| <= i < |w.me.requests| ==> w.me.requests[i].handle == w.me.requests[i].theirs
  {
    var u := Submitted(s, v, d);
    assert AllAnswered(u);
    var rest;
    hide PaiInv, FragmentsOf;
    rest, w := Settles(s, u);
    moves := [YourStep(SubmitCap(d))] + rest;
    PerformConcat(s, v, [YourStep(SubmitCap(d))], rest);
    forall i | |v.me.requests| <= i < |w.me.requests| ensures w.me.requests[i].handle == w.me.requests[i].theirs {
      assert w.me.requests[i] in w.me.requests;
    }
  }

  lemma {:induction false} RequestFor(f: Finder, i: nat, j: nat) returns (n: nat)
    requires RequestsOk(f) && (i, j) in f.found && CallsForRequest(f, i)
    ensures n < |f.requests| && f.requests[n].ours == i && f.requests[n].theirs == j
  {
    assert multiset(f.found)[(i, j)] > 0;
    assert multiset(RequestPairs(f.requests))[(i, j)] > 0;
    assert (i, j) in RequestPairs(f.requests);
    n :| 0 <= n < |RequestPairs(f.requests)| && RequestPairs(f.requests)[n] == (i, j);
  }

  /** If the late capability is one whose subspace capability I need, there is such a request. */
  lemma {:induction false} LateRequest(s: Scheme, v: PaiView, c: Capability, d: Capability)
    returns (moves: seq<PaiMove>, w: PaiView, r: CapRequest)
    requires Settled(s, v) && RequestsOk(v.me) && RequestsOk(v.you)
    requires c in v.me.submitted && d !in v.you.submitted && MeetsThrough(c, d, RequestSubspaceCap)
    ensures PaiPerform(s, v, moves) == Some(w) && Settled(s, w) && RequestsOk(w.me) && RequestsOk(w.you)
    ensures w.me.submitted == v.me.submitted && w.you.submitted == v.you.submitted + [d]
    ensures w.me.fragments == v.me.fragments && w.you.fragments == v.you.fragments + FragmentsOf(d)
    ensures r in w.me.requests && CallsForRequest(w.me, r.ours) && w.me.fragments[r.ours].cap == c
    ensures |v.you.fragments| <= r.theirs < |w.you.fragments| && r.handle == r.theirs
  {
    moves, w := LateCapability(s, v, d);
    MeetsIsFound(s, w, c, d, RequestSubspaceCap);
    var i: nat, j: nat :| FoundFor(w, i, j, c, d, RequestSubspaceCap);
    var n := RequestFor(w.me, i, j);
    r := w.me.requests[n];
    NotYours(s, v, w, d, j);
    hide RequestsOk, PaiInv, MeetsThrough, FragmentsOf;
    if n < |v.me.requests| {
      assert v.me.requests[n] == r && r in v.me.requests;
      RequestMeets(s, v, r);
      assert false;
    }
  }

  /** A fragment of a capability you had not submitted before has a new handle. */
  lemma {:induction false} NotYours(s: Scheme, v: PaiView, w: PaiView, d: Capability, j: nat)
    requires Settled(s, v) && d !in v.you.submitted && w.you.fragments == v.you.fragments + FragmentsOf(d)
    requires j < |w.you.fragments| && w.you.fragments[j].cap == d
    ensures j >= |v.you.fragments|
  {
    assert CapsOk(v.you);
    hide PaiInv, FragmentsOf, AllFragments;
    if j < |v.you.fragments| {
      assert v.you.fragments[j] in v.you.fragments;
      AllFragmentsMember(v.you.submitted, v.you.fragments[j]);
    }
  }

  // ---------- an early capability ----------

  lemma {:induction false} MineSubmitted(s: Scheme, v: PaiView, c: Capability) returns (w: PaiView)
    requires PaiInv(s, v) && RequestsOk(v.me) && RequestsOk(v.you) && c !in v.me.submitted
    ensures PaiPerform(s, v, [MyStep(SubmitCap(c))]) == Some(w)
    ensures PaiInv(s, w) && RequestsOk(w.me) && RequestsOk(w.you)
    ensures w.you == v.you && w.inn == v.inn && w.me.submitted == v.me.submitted + [c]
    ensures w.me.fragments == v.me.fragments + FragmentsOf(c) && w.me.requests == v.me.requests
  {
    hide PaiInv, RequestsOk, FragmentsOf, SubmitFragments, BindsFor, StatesFor;
    var move := MyStep(SubmitCap(c));
    MoveKeepsRequests(s, v, move);
    SubmitFragmentsIs(s, v.me.(submitted := v.me.submitted + [c]), FragmentsOf(c));
    w := MovePai(s, v, move).value;
    assert [move][1..] == [];
  }

  /** After everything about your capabilities has been delivered I submit one: once that has been
      delivered too, all requests I made for it name my own handle. */
  lemma {:induction false} EarlyCapability(s: Scheme, v: PaiView, c: Capability) returns (moves: seq<PaiMove>, w: PaiView)
    requires Settled(s, v) && RequestsOk(v.me) && RequestsOk(v.you) && c !in v.me.submitted
    ensures PaiPerform(s, v, moves) == Some(w) && Settled(s, w) && RequestsOk(w.me) && RequestsOk(w.you)
    ensures w.me.submitted == v.me.submitted + [c] && w.you.submitted == v.you.submitted
    ensures w.me.fragments == v.me.fragments + FragmentsOf(c) && w.you.fragments == v.you.fragments
    ensures v.me.requests <= w.me.requests
    ensures forall i :: |v.me.requests| <= i < |w.me.requests| ==> w.me.requests[i].handle == w.me.requests[i].ours
  {
    var u := MineSubmitted(s, v, c);
    assert Binds(u.inn) == [];
    var rest;
    hide PaiInv, FragmentsOf;
    rest, w := Settles(s, u);
    moves := [MyStep(SubmitCap(c))] + rest;
    PerformConcat(s, v, [MyStep(SubmitCap(c))], rest);
    forall i | |v.me.requests| <= i < |w.me.requests| ensures w.me.requests[i].handle == w.me.requests[i].ours {
      assert w.me.requests[i] in w.me.requests;
    }
  }

  // ---------- two runs ----------

  function Strangers(a: Scalar, b: Scalar): PaiView { PaiView(NewFinder(a), NewFinder(b), [], []) }

  lemma {:induction false} StrangersSettled(s: Scheme, a: Scalar, b: Scalar)
    requires SchemeOk(s)
    ensures Settled(s, Strangers(a, b)) && RequestsOk(NewFinder(a)) && RequestsOk(NewFinder(b))
  {
    NewHalf(s, a, b);
    NewHalf(s, b, a);
    NewRequests(a);
    NewRequests(b);
    hide HalfPai, FoundOk, CapsOk, SchemeOk;
  }

  function Selective(auth: AuthorisationId, ns: NamespaceId, subspace: SubspaceId): Capability {
    Capability(auth, ns, Id(subspace), [])
  }

  function Complete(auth: AuthorisationId, ns: NamespaceId): Capability { Capability(auth, ns, AnySubspace, []) }

  lemma {:induction false} RootFragments(c: Capability, secondary: bool)
    requires |c.path| == 0
    ensures PairsOf(c, secondary) == [LocalFragment(c, Pair(c.namespace, c.path), secondary, ActionOf(secondary, true))]
    ensures c.subspace.Id? ==>
              TriplesOf(c) == [LocalFragment(c, Triple(c.namespace, c.subspace.id, c.path), false, ActionOf(false, true))]
  {
    assert c.path[..0] == c.path;
    assert PairsOf(c, secondary)[0] == LocalFragment(c, Pair(c.namespace, c.path), secondary, ActionOf(secondary, true));
  }

  lemma {:induction false} SelectiveFragments(auth: AuthorisationId, ns: NamespaceId, subspace: SubspaceId)
    ensures var c := Selective(auth, ns, subspace);
            FragmentsOf(c) == [LocalFragment(c, Triple(ns, subspace, []), false, BindReadCap),
                               LocalFragment(c, Pair(ns, []), true, RequestSubspaceCap)]
  {
    RootFragments(Selective(auth, ns, subspace), true);
    hide PairsOf, TriplesOf;
  }

  lemma {:induction false} CompleteFragments(auth: AuthorisationId, ns: NamespaceId)
    ensures FragmentsOf(Complete(auth, ns)) == [LocalFragment(Complete(auth, ns), Pair(ns, []), false, BindReadCap)]
  {
    RootFragments(Complete(auth, ns), false);
    hide PairsOf, TriplesOf;
  }

  /** I hold a capability for one subspace, and you come later with one for all: my request names my
      other fragment, of which you have none, and nothing answers it. */
  lemma {:induction false} AnsweredForNothing(s: Scheme, a: Scalar, b: Scalar, auth: AuthorisationId, ns: NamespaceId, subspace: SubspaceId)
    returns (moves: seq<PaiMove>, w: PaiView, r: CapRequest)
    requires SchemeOk(s)
    ensures PaiPerform(s, Strangers(a, b), moves) == Some(w) && w.out == [] && w.inn == []
    ensures r in w.me.requests && r.ours == 1 && r.handle == 0
    ensures |w.you.fragments| == |w.you.ours|
    ensures AnswersToRequest(w.you, id => true, r.handle) == Some([])
  {
    var c, d := Selective(auth, ns, subspace), Complete(auth, ns);
    StrangersSettled(s, a, b);
    var first, u := EarlyCapability(s, Strangers(a, b), c);
    RequestsSubspaceCapExactly(c, d);
    hide MeetsThrough, RequestsOk, Settled, FragmentsOf, AnswersToRequest, PaiPerform, AnsweredByName, SchemeOk;
    var second;
    second, w, r := LateRequest(s, u, c, d);
    moves := first + second;
    PerformConcat(s, Strangers(a, b), first, second);
    NamesTheTriple(auth, ns, subspace, w.me, w.you, r);
    RequestOutcome(s, w, r, id => true);
    SettledQueues(s, w);
    NoAnswers(w.me, w.you, id => true, r);
  }

  lemma {:induction false} NamesTheTriple(auth: AuthorisationId, ns: NamespaceId, subspace: SubspaceId, me: Finder, you: Finder, r: CapRequest)
    requires me.fragments == [] + FragmentsOf(Selective(auth, ns, subspace)) && you.fragments == [] + FragmentsOf(Complete(auth, ns))
    requires CallsForRequest(me, r.ours) && r.handle == r.theirs < |you.fragments|
    ensures r.ours == 1 && r.handle == 0 < |me.fragments|
    ensures forall k :: 0 <= k < |you.fragments| ==> you.fragments[k].fragment != me.fragments[r.handle].fragment
  {
    SelectiveFragments(auth, ns, subspace);
    CompleteFragments(auth, ns);
    hide FragmentsOf;
  }

  lemma {:induction false} NoAnswers(me: Finder, you: Finder, granted: AuthorisationId -> bool, r: CapRequest)
    requires AnsweredByName(me, you, granted, r) && r.handle < |me.fragments|
    requires forall k :: 0 <= k < |you.fragments| ==> you.fragments[k].fragment != me.fragments[r.handle].fragment
    ensures |you.fragments| == |you.ours| && AnswersToRequest(you, granted, r.handle) == Some([])
  {
    hide AnswersToRequest;
    var found := AnswersToRequest(you, granted, r.handle).value;
    if found != [] { SomeMember(found); }
  }

  lemma {:induction false} SomeMember(s: seq<nat>)
    requires s != []
    ensures exists k: nat :: k in s
  {
    assert s[0] in s;
  }

  lemma {:induction false} SettledQueues(s: Scheme, v: PaiView)
    requires Settled(s, v)
    ensures v.out == [] && v.inn == []
  {
    hide PaiInv, SchemeOk;
  }

  /** If you submit one more capability before, the handle is none of mine, and the request fails. */
  lemma {:induction false} AnsweredByFailure(s: Scheme, a: Scalar, b: Scalar, auth: AuthorisationId, ns: NamespaceId, subspace: SubspaceId,
                                             other: SubspaceId)
    returns (moves: seq<PaiMove>, w: PaiView, r: CapRequest)
    requires SchemeOk(s)
    ensures PaiPerform(s, Strangers(a, b), moves) == Some(w) && w.out == [] && w.inn == []
    ensures r in w.me.requests && r.ours == 1 && r.handle == 2
    ensures |w.you.fragments| == |w.you.ours|
    ensures AnswersToRequest(w.you, id => true, r.handle) == None
  {
    var c, e, d := Selective(auth, ns, subspace), Selective(auth, ns, other), Complete(auth, ns);
    StrangersSettled(s, a, b);
    var first, t := EarlyCapability(s, Strangers(a, b), c);
    RequestsSubspaceCapExactly(c, d);
    hide MeetsThrough, RequestsOk, Settled, FragmentsOf, AnswersToRequest;
    var second, u := LateCapability(s, t, e);
    var third;
    third, w, r := LateRequest(s, u, c, d);
    moves := first + second + third;
    PerformConcat(s, Strangers(a, b), first, second);
    PerformConcat(s, Strangers(a, b), first + second, third);
    SelectiveFragments(auth, ns, subspace);
    SelectiveFragments(auth, ns, other);
    CompleteFragments(auth, ns);
    RequestOutcome(s, w, r, id => true);
    SettledQueues(s, w);
  }
}
