/** Requests for the other side's subspace capability: which handle they name, what the other side
    makes of them, and when they name the fragment they are made for. */
module SubspaceRequests {
  import opened Orders
  import opened Entries
  import opened Ranges
  import opened Intersections
  import opened PaiFinders

  // ---------- which requests are made ----------

  function RequestPairs(requests: seq<CapRequest>): seq<(nat, nat)> {
    seq(|requests|, i requires 0 <= i < |requests| => (requests[i].ours, requests[i].theirs))
  }

  predicate CallsForRequest(f: Finder, i: nat) { i < |f.fragments| && f.fragments[i].action.RequestSubspaceCap? }

  /** One request for every pair found whose own fragment calls for one, under the handle that was
      being checked; and those handles are open. */
  ghost predicate RequestsOk(f: Finder) {
    && (forall i: nat, j: nat ::
          multiset(RequestPairs(f.requests))[(i, j)] == if CallsForRequest(f, i) then multiset(f.found)[(i, j)] else 0)
    && (forall r :: r in f.requests ==> r.handle == if r.onReply then r.ours else r.theirs)
    && f.requested == Asked(f.requests)
  }

  lemma {:induction false} PairsConcat(a: seq<CapRequest>, b: seq<CapRequest>)
    ensures multiset(RequestPairs(a + b)) == multiset(RequestPairs(a)) + multiset(RequestPairs(b))
  {
    assert RequestPairs(a + b) == RequestPairs(a) + RequestPairs(b);
  }

  lemma {:induction false} RequestsForCount(infos: seq<LocalFragment>, found: seq<(nat, nat)>, onReply: bool, i: nat, j: nat)
    ensures multiset(RequestPairs(RequestsFor(infos, found, onReply)))[(i, j)]
            == if i < |infos| && infos[i].action.RequestSubspaceCap? then multiset(found)[(i, j)] else 0
  {
    if found != [] {
      var n := |found| - 1;
      var p := found[n];
      var last := if p.0 < |infos| && infos[p.0].action.RequestSubspaceCap?
                  then [CapRequest(if onReply then p.0 else p.1, p.0, p.1, onReply)] else [];
      RequestsForCount(infos, found[..n], onReply, i, j);
      PairsConcat(RequestsFor(infos, found[..n], onReply), last);
      assert found == found[..n] + [p];
      assert last != [] ==> RequestPairs(last) == [p];
    }
  }

  lemma {:induction false} RequestsForHandles(infos: seq<LocalFragment>, found: seq<(nat, nat)>, onReply: bool)
    ensures forall r :: r in RequestsFor(infos, found, onReply) ==>
              r.onReply == onReply && r.handle == if onReply then r.ours else r.theirs
  {
    if found != [] { RequestsForHandles(infos, found[..|found| - 1], onReply); }
  }

  lemma {:induction false} LoggedCounts(f: Finder, found: seq<(nat, nat)>, onReply: bool, i: nat, j: nat)
    requires multiset(RequestPairs(f.requests))[(i, j)] == if CallsForRequest(f, i) then multiset(f.found)[(i, j)] else 0
    ensures var g := Logged(f, found, onReply);
            multiset(RequestPairs(g.requests))[(i, j)] == if CallsForRequest(g, i) then multiset(g.found)[(i, j)] else 0
  {
    PairsConcat(f.requests, RequestsFor(f.fragments, found, onReply));
    assert multiset(f.found + found) == multiset(f.found) + multiset(found);
    hide RequestsFor, RequestPairs, Asked;
    RequestsForCount(f.fragments, found, onReply, i, j);
  }

  lemma {:induction false} LoggedHandles(f: Finder, found: seq<(nat, nat)>, onReply: bool)
    requires forall r :: r in f.requests ==> r.handle == if r.onReply then r.ours else r.theirs
    ensures forall r :: r in Logged(f, found, onReply).requests ==> r.handle == if r.onReply then r.ours else r.theirs
  {
    hide RequestsFor, Asked;
    RequestsForHandles(f.fragments, found, onReply);
  }

  lemma {:induction false} LoggedAsked(f: Finder, found: seq<(nat, nat)>, onReply: bool)
    requires f.requested == Asked(f.requests)
    ensures Logged(f, found, onReply).requested == Asked(Logged(f, found, onReply).requests)
  {
    hide RequestsFor;
    var more := RequestsFor(f.fragments, found, onReply);
    assert Asked(f.requests + more) == Asked(f.requests) + Asked(more);
  }

  lemma {:induction false} LoggedKeepsRequests(f: Finder, found: seq<(nat, nat)>, onReply: bool)
    requires RequestsOk(f)
    ensures RequestsOk(Logged(f, found, onReply))
  {
    hide Logged, RequestPairs, CallsForRequest, Asked;
    forall i: nat, j: nat
      ensures var g := Logged(f, found, onReply);
              multiset(RequestPairs(g.requests))[(i, j)] == if CallsForRequest(g, i) then multiset(g.found)[(i, j)] else 0
    {
      LoggedCounts(f, found, onReply, i, j);
    }
    LoggedHandles(f, found, onReply);
    LoggedAsked(f, found, onReply);
  }

  lemma {:induction false} SubmitKeepsRequests(s: Scheme, f: Finder, c: Capability)
    requires RequestsOk(f) && FoundOk(f) && |f.ours| == |f.fragments|
    ensures RequestsOk(Submit(s, f, c).finder)
  {
    if c !in f.submitted {
      SubmitFragmentsIs(s, f.(submitted := f.submitted + [c]), FragmentsOf(c));
      var g := Submit(s, f, c).finder;
      hide RequestPairs, FragmentsOf, SubmitFragments, Submit, Asked, CompletesWith;
      forall i: nat, j: nat ensures multiset(f.found)[(i, j)] > 0 ==> (CallsForRequest(g, i) <==> CallsForRequest(f, i)) {}
      forall i: nat, j: nat
        ensures multiset(RequestPairs(g.requests))[(i, j)] == if CallsForRequest(g, i) then multiset(g.found)[(i, j)] else 0
      {
        assert multiset(RequestPairs(f.requests))[(i, j)] == if CallsForRequest(f, i) then multiset(f.found)[(i, j)] else 0;
      }
    }
  }

  lemma {:induction false} DeliverKeepsRequests(s: Scheme, f: Finder, m: PaiMessage)
    requires RequestsOk(f) && ReceivePai(s, f, m).Done?
    ensures RequestsOk(ReceivePai(s, f, m).reply.finder)
  {
    hide Logged, FoundByOurs, FoundByTheirs, RequestPairs;
    if m.BindFragment? {
      var g := GroupState(s.mult(m.group, f.scalar), true, m.secondary);
      LoggedKeepsRequests(f.(theirs := f.theirs + [g]), FoundByTheirs(|f.theirs|, g, f.ours), false);
    } else {
      var g := GroupState(m.group, true, f.ours[m.handle].secondary);
      LoggedKeepsRequests(f.(ours := f.ours[m.handle := g]), FoundByOurs(m.handle, g, f.theirs), true);
    }
  }

  lemma {:induction false} AllNumbered(s: Scheme, v: PaiView)
    requires PaiInv(s, v)
    ensures |v.me.ours| == |v.me.fragments| && FoundOk(v.me)
  {
    hide FoundOk, CapsOk, BoundOk, RepliesOk;
    var k :| OursOk(s, v.me, v.you.scalar, k) && RepliesOk(s, v.me, v.you, v.inn, k);
  }

  lemma {:induction false} StepKeepsRequests(s: Scheme, v: PaiView, step: PaiStep)
    requires PaiInv(s, v) && PaiEnabled(v, step) && RequestsOk(v.me)
    requires PaiApply(s, v, step).Some?
    ensures RequestsOk(PaiApply(s, v, step).value.me) && PaiApply(s, v, step).value.you == v.you
  {
    hide PaiInv, RequestsOk, Submit, ReceivePai;
    AllNumbered(s, v);
    match step {
      case SubmitCap(c) => SubmitKeepsRequests(s, v.me, c);
      case DeliverPai => DeliverKeepsRequests(s, v.me, v.inn[0]);
    }
  }

  lemma {:induction false} MoveKeepsRequests(s: Scheme, v: PaiView, move: PaiMove)
    requires PaiInv(s, v) && RequestsOk(v.me) && RequestsOk(v.you) && CanMovePai(v, move)
    ensures MovePai(s, v, move).Some? && PaiInv(s, MovePai(s, v, move).value)
    ensures RequestsOk(MovePai(s, v, move).value.me) && RequestsOk(MovePai(s, v, move).value.you)
  {
    hide PaiInv, RequestsOk, PaiApply, PaiEnabled;
    match move {
      case MyStep(step) =>
        PaiStepKeeps(s, v, step);
        StepKeepsRequests(s, v, step);
      case YourStep(step) =>
        FlipPaiInv(s, v);
        PaiStepKeeps(s, FlipPai(v), step);
        StepKeepsRequests(s, FlipPai(v), step);
        FlipPaiInv(s, PaiApply(s, FlipPai(v), step).value);
    }
  }

  lemma {:induction false} NewRequests(a: Scalar)
    ensures RequestsOk(NewFinder(a))
  {}

  /** In every run: every request is made for a pair that was found and calls for one, once for each;
      the handle it names is the requested fragment's own if and only if the pair was completed by
      the other's reply, or both handles have the same number. */
  lemma {:induction false} RequestsOverRun(s: Scheme, states: seq<PaiView>, moves: seq<PaiMove>, i: nat)
    requires PaiRun(s, states, moves) && i < |states|
    ensures RequestsOk(states[i].me) && RequestsOk(states[i].you)
    ensures forall r :: r in states[i].me.requests ==> (r.handle == r.ours <==> r.onReply || r.ours == r.theirs)
  {
    if i == 0 {
      var a, b :| states[0] == PaiView(NewFinder(a), NewFinder(b), [], []);
      NewRequests(a);
      NewRequests(b);
    } else {
      RequestsOverRun(s, states, moves, i - 1);
      PaiRunInvariant(s, states, moves, i - 1);
      hide RequestsOk, PaiInv, MovePai, CanMovePai;
      MoveKeepsRequests(s, states[i - 1], moves[i - 1]);
    }
    HandleNamed(states[i].me);
  }

  lemma {:induction false} HandleNamed(f: Finder)
    requires RequestsOk(f)
    ensures forall r :: r in f.requests ==> (r.handle == r.ours <==> r.onReply || r.ours == r.theirs)
  {}

  // ---------- what the other side makes of a request ----------

  /** Own handles whose fragment has the given group, and whose authorisation holds a subspace
      capability. */
  function Matching(infos: seq<LocalFragment>, ours: seq<GroupState>, granted: AuthorisationId -> bool, g: Group): seq<nat>
    requires |infos| == |ours|
  {
    if ours == [] then []
    else
      var n := |ours| - 1;
      Matching(infos[..n], ours[..n], granted, g)
      + if ours[n].complete && g == ours[n].group && granted(infos[n].cap.authorisation) then [n] else []
  }

  /** The own fragments for which a request is answered; `None` for an unknown handle, which fails. */
  function AnswersToRequest(f: Finder, granted: AuthorisationId -> bool, handle: nat): Option<seq<nat>>
    requires |f.fragments| == |f.ours|
  {
    if handle >= |f.theirs| then None else Some(Matching(f.fragments, f.ours, granted, f.theirs[handle].group))
  }

  lemma {:induction false} MatchingMember(infos: seq<LocalFragment>, ours: seq<GroupState>, granted: AuthorisationId -> bool, g: Group, k: nat)
    requires |infos| == |ours|
    ensures k in Matching(infos, ours, granted, g)
            <==> k < |ours| && ours[k].complete && g == ours[k].group && granted(infos[k].cap.authorisation)
  {
    if ours != [] {
      var n := |ours| - 1;
      MatchingMember(infos[..n], ours[..n], granted, g, k);
    }
  }

  /** The pair a request is made for is one that completed. */
  lemma {:induction false} RequestCompletes(s: Scheme, v: PaiView, r: CapRequest)
    requires PaiInv(s, v) && RequestsOk(v.me) && r in v.me.requests
    ensures CallsForRequest(v.me, r.ours) && (r.ours, r.theirs) in v.me.found
    ensures r.ours < |v.me.ours| && r.theirs < |v.me.theirs| && CompletesWith(v.me.ours[r.ours], v.me.theirs[r.theirs])
  {
    assert FoundOk(v.me);
    hide PaiInv, CompletesWith;
    var i :| 0 <= i < |v.me.requests| && v.me.requests[i] == r;
    assert RequestPairs(v.me.requests)[i] == (r.ours, r.theirs);
    assert multiset(RequestPairs(v.me.requests))[(r.ours, r.theirs)] > 0;
    assert multiset(v.me.found)[(r.ours, r.theirs)] > 0;
  }

  /** What you hold of my complete fragments, and the groups of all that are complete. */
  lemma {:induction false} HeldByYou(s: Scheme, v: PaiView, i: nat)
    requires PaiInv(s, v) && i < |v.me.ours|
    ensures |v.me.ours| == |v.me.fragments| && |v.you.theirs| <= |v.me.fragments|
    ensures v.me.ours[i].complete ==> i < |v.you.theirs|
    ensures i < |v.you.theirs| ==> v.you.theirs[i].group == Shared(s, v.me.fragments[i].fragment, v.me.scalar, v.you.scalar)
    ensures v.me.ours[i].complete ==> v.me.ours[i].group == Shared(s, v.me.fragments[i].fragment, v.me.scalar, v.you.scalar)
  {
    hide FoundOk, CapsOk, Binds, Replies, Shared;
    var k :| OursOk(s, v.me, v.you.scalar, k) && RepliesOk(s, v.me, v.you, v.inn, k);
  }

  lemma {:induction false} SameGroup(s: Scheme, v: PaiView, i: nat, k: nat)
    requires SchemeOk(s) && PaiInv(s, v) && i < |v.you.theirs| && k < |v.you.ours| && v.you.ours[k].complete
    ensures |v.you.theirs| <= |v.me.fragments| && |v.you.ours| == |v.you.fragments|
    ensures v.you.theirs[i].group == v.you.ours[k].group <==> v.me.fragments[i].fragment == v.you.fragments[k].fragment
  {
    AllNumbered(s, v);
    assert BoundOk(s, v.me, v.you, v.out);
    hide PaiInv;
    HeldByYouFor(s, v, i, k);
    SharedEqual(s, v.me.fragments[i].fragment, v.you.fragments[k].fragment, v.me.scalar, v.you.scalar);
  }

  lemma {:induction false} HeldByYouFor(s: Scheme, v: PaiView, i: nat, k: nat)
    requires PaiInv(s, v) && i < |v.you.theirs| && k < |v.you.ours| && v.you.ours[k].complete
    ensures |v.you.theirs| <= |v.me.fragments| == |v.me.ours| && |v.you.ours| == |v.you.fragments|
    ensures v.you.theirs[i].group == Shared(s, v.me.fragments[i].fragment, v.me.scalar, v.you.scalar)
    ensures v.you.ours[k].group == Shared(s, v.you.fragments[k].fragment, v.you.scalar, v.me.scalar)
  {
    AllNumbered(s, v);
    assert BoundOk(s, v.me, v.you, v.out);
    FlipPaiInv(s, v);
    HeldByYou(s, FlipPai(v), k);
    hide PaiInv, FoundOk, Shared, Binds;
    HeldByYou(s, v, i);
  }

  /** At any time, a request that named the fragment's own handle would be known to the other side
      and, once the other's fragment is complete there, be answered for it. */
  lemma {:induction false} OwnHandleAnswered(s: Scheme, v: PaiView, r: CapRequest, granted: AuthorisationId -> bool)
    requires SchemeOk(s) && PaiInv(s, v) && RequestsOk(v.me) && r in v.me.requests
    ensures |v.you.fragments| == |v.you.ours| && r.theirs < |v.you.ours|
    ensures var a := AnswersToRequest(v.you, granted, r.ours);
            a.Some? && (r.theirs in a.value <==>
              v.you.ours[r.theirs].complete && granted(v.you.fragments[r.theirs].cap.authorisation))
  {
    RequestCompletes(s, v, r);
    HeldByYou(s, v, r.ours);
    YourNumbers(s, v);
    hide PaiInv, RequestsOk, Shared;
    MatchingMember(v.you.fragments, v.you.ours, granted, v.you.theirs[r.ours].group, r.theirs);
    if v.you.ours[r.theirs].complete {
      SameGroup(s, v, r.ours, r.theirs);
      RequestMeets(s, v, r);
    }
  }

  lemma {:induction false} YourNumbers(s: Scheme, v: PaiView)
    requires PaiInv(s, v)
    ensures |v.you.ours| == |v.you.fragments| && |v.me.theirs| <= |v.you.fragments|
    ensures |v.you.theirs| <= |v.me.fragments|
  {
    FlipPaiInv(s, v);
    AllNumbered(s, FlipPai(v));
  }

  lemma {:induction false} RequestMeets(s: Scheme, v: PaiView, r: CapRequest)
    requires SchemeOk(s) && PaiInv(s, v) && RequestsOk(v.me) && r in v.me.requests
    ensures r.ours < |v.me.fragments| && r.theirs < |v.you.fragments| && Meet(v.me.fragments[r.ours], v.you.fragments[r.theirs])
  {
    RequestCompletes(s, v, r);
    assert FoundOk(v.me);
    assert multiset(v.me.found)[(r.ours, r.theirs)] > 0;
    hide PaiInv, RequestsOk, Meet, CompletesWith;
    FoundOnlyMeeting(s, v, r.ours, r.theirs);
  }

  /** A request fails if its handle is not one of mine; otherwise it is answered for exactly your
      fragments that equal the one it names, hence for the one it is meant for if and only if the
      fragment it names is the one it is made for. */
  ghost predicate AnsweredByName(me: Finder, you: Finder, granted: AuthorisationId -> bool, r: CapRequest) {
    && |you.fragments| == |you.ours| && r.ours < |me.fragments| && r.theirs < |you.fragments|
    && var a := AnswersToRequest(you, granted, r.handle);
       && (a.None? <==> r.handle >= |me.fragments|)
       && (a.Some? ==>
             && (forall k: nat :: k in a.value <==>
                   k < |you.fragments| && you.fragments[k].fragment == me.fragments[r.handle].fragment
                   && granted(you.fragments[k].cap.authorisation))
             && (granted(you.fragments[r.theirs].cap.authorisation) ==>
                   (r.theirs in a.value <==> me.fragments[r.handle].fragment == me.fragments[r.ours].fragment)))
  }

  /** Once all messages have been delivered, requests are answered by the handle they name. */
  lemma {:induction false} RequestOutcome(s: Scheme, v: PaiView, r: CapRequest, granted: AuthorisationId -> bool)
    requires Settled(s, v) && RequestsOk(v.me) && r in v.me.requests
    ensures AnsweredByName(v.me, v.you, granted, r)
  {
    hide *;
    SettledForYou(s, v);
    SettledRequest(s, v, r);
    if r.handle < |v.me.fragments| { AnsweredExactly(s, v, granted, r.handle); }
    NamesAnswer(v.me, v.you, granted, r);
  }

  lemma {:induction false} SettledRequest(s: Scheme, v: PaiView, r: CapRequest)
    requires Settled(s, v) && RequestsOk(v.me) && r in v.me.requests
    ensures r.ours < |v.me.fragments| && r.theirs < |v.you.fragments|
    ensures v.me.fragments[r.ours].fragment == v.you.fragments[r.theirs].fragment
  {
    hide PaiInv, RequestsOk, SchemeOk;
    RequestMeets(s, v, r);
  }

  lemma {:induction false} NamesAnswer(me: Finder, you: Finder, granted: AuthorisationId -> bool, r: CapRequest)
    requires |you.fragments| == |you.ours| && |you.theirs| == |me.fragments|
    requires r.ours < |me.fragments| && r.theirs < |you.fragments|
    requires me.fragments[r.ours].fragment == you.fragments[r.theirs].fragment
    requires r.handle < |me.fragments| ==>
               forall k: nat :: k in Matching(you.fragments, you.ours, granted, you.theirs[r.handle].group) <==>
                 k < |you.fragments| && you.fragments[k].fragment == me.fragments[r.handle].fragment
                 && granted(you.fragments[k].cap.authorisation)
    ensures AnsweredByName(me, you, granted, r)
  {
    hide Matching;
  }

  lemma {:induction false} AnsweredExactly(s: Scheme, v: PaiView, granted: AuthorisationId -> bool, h: nat)
    requires Settled(s, v) && h < |v.me.fragments| && |v.you.fragments| == |v.you.ours| && h < |v.you.theirs|
    ensures forall k: nat :: k in Matching(v.you.fragments, v.you.ours, granted, v.you.theirs[h].group) <==>
              k < |v.you.fragments| && v.you.fragments[k].fragment == v.me.fragments[h].fragment
              && granted(v.you.fragments[k].cap.authorisation)
  {
    hide PaiInv, Matching;
    forall k: nat ensures k in Matching(v.you.fragments, v.you.ours, granted, v.you.theirs[h].group) <==>
        k < |v.you.fragments| && v.you.fragments[k].fragment == v.me.fragments[h].fragment
        && granted(v.you.fragments[k].cap.authorisation)
    {
      MatchingMember(v.you.fragments, v.you.ours, granted, v.you.theirs[h].group, k);
      SettledForYou(s, v);
      if k < |v.you.ours| { SameGroup(s, v, h, k); }
    }
  }

  lemma {:induction false} SettledForYou(s: Scheme, v: PaiView)
    requires Settled(s, v)
    ensures |v.you.ours| == |v.you.fragments| && |v.you.theirs| == |v.me.fragments|
    ensures forall k :: 0 <= k < |v.you.ours| ==> v.you.ours[k].complete
  {
    assert Binds([]) == [] && Replies([]) == [];
    hide FoundOk, CapsOk, Shared;
    var k :| OursOk(s, v.you, v.me.scalar, k) && RepliesOk(s, v.you, v.me, v.out, k);
  }

  // ---------- the answer ----------

  datatype CapReply = NotRequested | UnknownHandle | WrongNamespace | Presents(cap: Capability, handle: nat)

  /** What a subspace capability for a handle leads to. */
  function ReceiveCapReply(f: Finder, handle: nat, namespace: NamespaceId): CapReply
    requires |f.fragments| == |f.ours|
  {
    if handle !in f.requested then NotRequested
    else if handle >= |f.ours| then UnknownHandle
    else if f.fragments[handle].fragment.namespace != namespace then WrongNamespace
    else Presents(f.fragments[handle].cap, handle)
  }

  /** An answer is accepted if and only if it is for a handle requests were made for, in its namespace,
      and then presents the capability of that handle; an answer to a request under a handle for which
      none was made fails the session. */
  lemma {:induction false} CapReplyExactly(s: Scheme, v: PaiView, handle: nat, namespace: NamespaceId)
    requires PaiInv(s, v) && RequestsOk(v.me)
    ensures |v.me.fragments| == |v.me.ours|
    ensures var a := ReceiveCapReply(v.me, handle, namespace);
            && a != UnknownHandle
            && (a == NotRequested <==> forall r :: r in v.me.requests ==> r.ours != handle)
            && (a.Presents? ==> handle < |v.me.fragments| && a == Presents(v.me.fragments[handle].cap, handle)
                                && v.me.fragments[handle].fragment.namespace == namespace)
            && (handle < |v.me.fragments| && v.me.fragments[handle].fragment.namespace == namespace ==>
                  (a.Presents? <==> exists r :: r in v.me.requests && r.ours == handle))
  {
    AllNumbered(s, v);
    if handle in v.me.requested {
      var r :| r in v.me.requests && r.ours == handle;
      RequestCompletes(s, v, r);
    }
    hide PaiInv;
  }
}
