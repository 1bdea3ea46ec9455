/** The intersection finder in its imperative form: resource maps of handles, fragment infos and
    submitted capabilities, changed by every input. */
module PaiStates {
  import opened Orders
  import opened Entries
  import opened Ranges
  import opened Resources
  import opened Intersections
  import opened PaiFinders
  import opened SubspaceRequests

  lemma {:induction false} RequestsForOne(infos: seq<LocalFragment>, found: seq<(nat, nat)>, p: (nat, nat), onReply: bool)
    ensures RequestsFor(infos, [p], onReply)
            == if p.0 < |infos| && infos[p.0].action.RequestSubspaceCap?
               then [CapRequest(if onReply then p.0 else p.1, p.0, p.1, onReply)] else []
    ensures RequestsFor(infos, found + [p], onReply) == RequestsFor(infos, found, onReply) + RequestsFor(infos, [p], onReply)
  {
    var one := [p];
    assert (found + one)[..|found|] == found && one[..0] == [];
    assert RequestsFor(infos, one[..0], onReply) == [];
  }

  lemma {:induction false} PresentedForOne(infos: seq<LocalFragment>, found: seq<(nat, nat)>, p: (nat, nat))
    ensures Presented(infos, [p]) == if p.0 < |infos| && infos[p.0].action.BindReadCap? then [(infos[p.0].cap, p.0)] else []
    ensures Presented(infos, found + [p]) == Presented(infos, found) + Presented(infos, [p])
  {
    var one := [p];
    assert (found + one)[..|found|] == found && one[..0] == [];
    assert Presented(infos, one[..0]) == [];
  }

  /** Acting on one more pair. */
  lemma {:induction false} LoggedOne(f: Finder, found: seq<(nat, nat)>, p: (nat, nat), onReply: bool)
    ensures Logged(Logged(f, found, onReply), [p], onReply) == Logged(f, found + [p], onReply)
  {
    var a, b := RequestsFor(f.fragments, found, onReply), RequestsFor(f.fragments, [p], onReply);
    var x, y := Presented(f.fragments, found), Presented(f.fragments, [p]);
    hide RequestsFor, Presented;
    RequestsForOne(f.fragments, found, p, onReply);
    PresentedForOne(f.fragments, found, p);
    assert f.presented + x + y == f.presented + (x + y);
    assert f.found + found + [p] == f.found + (found + [p]);
    assert f.requests + a + b == f.requests + (a + b);
    assert f.requested + Asked(a) + Asked(b) == f.requested + Asked(a + b);
  }

  lemma {:induction false} LoggedOneIs(f: Finder, p: (nat, nat), onReply: bool)
    requires p.0 < |f.fragments|
    ensures Logged(f, [p], onReply)
            == match f.fragments[p.0].action
               case BindReadCap => f.(found := f.found + [p], presented := f.presented + [(f.fragments[p.0].cap, p.0)])
               case RequestSubspaceCap =>
                 f.(found := f.found + [p], requests := f.requests + [CapRequest(if onReply then p.0 else p.1, p.0, p.1, onReply)],
                    requested := f.requested + {p.0})
               case _ => f.(found := f.found + [p])
  {
    hide RequestsFor, Presented;
    RequestsForOne(f.fragments, [], p, onReply);
    PresentedForOne(f.fragments, [], p);
    assert f.presented + [] == f.presented;
    if !f.fragments[p.0].action.RequestSubspaceCap? {
      assert f.requests + [] == f.requests && Asked([]) == {};
    } else {
      assert Asked([CapRequest(if onReply then p.0 else p.1, p.0, p.1, onReply)]) == {p.0};
    }
  }

  lemma {:induction false} LoggedNone(f: Finder, onReply: bool)
    ensures Logged(f, [], onReply) == f
  {
    assert f.found + [] == f.found && f.requests + [] == f.requests && Asked([]) == {} && f.presented + [] == f.presented;
  }

  /** The pairs found by comparing one handle with all of the other side's. */
  function FoundBy(scopeOurs: bool, handle: nat, g: GroupState, others: seq<GroupState>): seq<(nat, nat)> {
    if scopeOurs then FoundByOurs(handle, g, others) else FoundByTheirs(handle, g, others)
  }

  lemma {:induction false} FoundNext(scopeOurs: bool, handle: nat, g: GroupState, others: seq<GroupState>, k: nat)
    requires k < |others|
    ensures FoundBy(scopeOurs, handle, g, others[..0]) == []
    ensures FoundBy(scopeOurs, handle, g, others[..k + 1])
            == if CompletesWith(others[k], g)
               then FoundBy(scopeOurs, handle, g, others[..k]) + [if scopeOurs then (handle, k) else (k, handle)]
               else FoundBy(scopeOurs, handle, g, others[..k])
  {
    assert others[..k + 1][..k] == others[..k];
  }

  class PaiFinder {
    const scheme: Scheme
    const scalar: Scalar
    const ours: ResourceMap<GroupState>
    const theirs: ResourceMap<GroupState>
    var infos: map<nat, LocalFragment>
    var submitted: set<Capability>
    var requested: set<nat>
    var requests: seq<CapRequest>
    var outbox: seq<PaiMessage>
    var presented: seq<(Capability, nat)>
    ghost var order: seq<Capability>
    ghost var fragments: seq<LocalFragment>
    ghost var found: seq<(nat, nat)>

    constructor (scheme: Scheme, scalar: Scalar)
      ensures Valid() && Value() == NewFinder(scalar) && outbox == [] && fresh(ours) && fresh(theirs)
      ensures this.scheme == scheme
    {
      this.scheme, this.scalar := scheme, scalar;
      ours := new ResourceMap();
      theirs := new ResourceMap();
      infos, submitted, requested, requests, outbox, presented := map[], {}, {}, [], [], [];
      order, fragments, found := [], [], [];
    }

    ghost predicate Valid()
      reads this, ours, theirs
    {
      && ours != theirs && ours.Valid() && theirs.Valid()
      && |fragments| == |ours.Bound()|
      && (forall h :: h in infos <==> 0 <= h < |fragments|)
      && (forall h :: 0 <= h < |fragments| ==> infos[h] == fragments[h])
      && (forall c :: c in submitted <==> c in order)
      && (forall p :: p in found ==> p.0 < |fragments|)
    }

    ghost function Value(): Finder
      requires ours.Valid() && theirs.Valid()
      reads this, ours, theirs
    {
      Finder(scalar, order, fragments, ours.Bound(), theirs.Bound(), found, requests, requested, presented)
    }

    method SubmitFragment(f: LocalFragment)
      requires Valid()
      modifies this`infos, this`outbox, this`fragments, ours
      ensures Valid()
      ensures var g := PendingState(scheme, f, scalar);
              && Value() == old(Value()).(fragments := old(fragments) + [f], ours := old(ours.Bound()) + [g])
              && outbox == old(outbox) + [BindOf(g)]
    {
      var multiplied := scheme.mult(scheme.hash(f.fragment), scalar);
      var g := GroupState(multiplied, false, f.secondary);
      var handle := ours.Bind(g);
      infos := infos[handle := f];
      fragments := fragments + [f];
      outbox := outbox + [BindOf(g)];
    }

    method SubmitAuthorisation(c: Capability)
      requires Valid()
      modifies this`infos, this`outbox, this`fragments, this`submitted, this`order, ours
      ensures Valid()
      ensures var r := Submit(scheme, old(Value()), c);
              Value() == r.finder && outbox == old(outbox) + r.messages
    {
      hide FragmentsOf, ResourceMap.Valid, ResourceMap.Bound;
      if c in submitted {
        assert outbox + [] == outbox;
        return;
      }
      submitted := submitted + {c};
      order := order + [c];
      var kit := FragmentsOf(c);
      ghost var whole, sent := SubmitFragments(scheme, Value(), kit), outbox;
      var i := 0;
      assert kit[0..] == kit;
      while i < |kit|
        invariant 0 <= i <= |kit| && Valid()
        invariant var rest := SubmitFragments(scheme, Value(), kit[i..]);
                  rest.finder == whole.finder && outbox + rest.messages == sent + whole.messages
      {
        ghost var before, v := outbox, Value();
        ghost var g := PendingState(scheme, kit[i], scalar);
        assert kit[i..][1..] == kit[i + 1..];
        ghost var rest := SubmitFragments(scheme, v.(fragments := v.fragments + [kit[i]], ours := v.ours + [g]), kit[i + 1..]);
        assert before + ([BindOf(g)] + rest.messages) == (before + [BindOf(g)]) + rest.messages;
        SubmitFragment(kit[i]);
        i := i + 1;
      }
      assert outbox + [] == outbox;
    }

    /** An intersection at our handle `i`, found while checking `handle`: present our capability, or
        ask for theirs under the handle checked. */
    method OnIntersectionFound(i: nat, j: nat, handle: nat, scopeOurs: bool)
      requires Valid() && i < |fragments| && handle == if scopeOurs then i else j
      modifies this`presented, this`requested, this`requests, this`found
      ensures Valid() && Value() == Logged(old(Value()), [(i, j)], scopeOurs)
    {
      hide ResourceMap.Valid, ResourceMap.Bound, RequestsFor, Presented;
      LoggedOneIs(Value(), (i, j), scopeOurs);
      var info := infos[i];
      match info.action {
        case BindReadCap => presented := presented + [(info.cap, i)];
        case RequestSubspaceCap =>
          requested := requested + {i};
          requests := requests + [CapRequest(handle, i, j, scopeOurs)];
        case ReplyReadCap =>
        case DoNothing =>
      }
      found := found + [(i, j)];
      assert found[..|found| - 1] == old(found);
    }

    /** Compare one of our handles with all of theirs, or one of theirs with all of ours. */
    method CheckForIntersection(handle: nat, scopeOurs: bool)
      requires Valid()
      requires handle < if scopeOurs then |ours.Bound()| else |theirs.Bound()|
      modifies this`presented, this`requested, this`requests, this`found
      ensures Valid()
      ensures var g := if scopeOurs then ours.Bound()[handle] else theirs.Bound()[handle];
              var others := if scopeOurs then theirs.Bound() else ours.Bound();
              Value() == Logged(old(Value()), FoundBy(scopeOurs, handle, g, others), scopeOurs)
    {
      hide Logged, FoundBy;
      ghost var before := Value();
      LoggedNone(before, scopeOurs);
      var source, other := theirs, ours;
      if scopeOurs { source, other := ours, theirs; }
      var intersection := source.resources[handle];
      assert intersection == source.Bound()[handle];
      NothingFound(handle, intersection, other.Bound());
      if !intersection.complete {
        return;
      }
      var k := 0;
      while k < other.nextHandle
        invariant 0 <= k <= other.nextHandle && Valid()
        invariant Value() == Logged(before, FoundBy(scopeOurs, handle, intersection, other.Bound()[..k]), scopeOurs)
      {
        var candidate := other.resources[k];
        assert candidate == other.Bound()[k];
        ghost var sofar := FoundBy(scopeOurs, handle, intersection, other.Bound()[..k]);
        FoundNext(scopeOurs, handle, intersection, other.Bound(), k);
        if CompletesWith(candidate, intersection) {
          var ourHandle := if scopeOurs then handle else k;
          var theirHandle := if scopeOurs then k else handle;
          LoggedOne(before, sofar, (ourHandle, theirHandle), scopeOurs);
          OnIntersectionFound(ourHandle, theirHandle, handle, scopeOurs);
        }
        k := k + 1;
      }
      assert other.Bound()[..k] == other.Bound();
    }

    method ReceiveBindFragment(m: PaiMessage)
      requires Valid() && m.BindFragment?
      modifies this`presented, this`requested, this`requests, this`found, this`outbox, theirs
      ensures Valid()
      ensures var r := ReceiveBind(scheme, old(Value()), m);
              Value() == r.finder && outbox == old(outbox) + r.messages
    {
      hide FoundByTheirs, Logged;
      var multiplied := scheme.mult(m.group, scalar);
      var handle := theirs.Bind(GroupState(multiplied, true, m.secondary));
      outbox := outbox + [ReplyFragment(handle, multiplied)];
      CheckForIntersection(handle, false);
    }

    method ReceiveReplyFragment(m: PaiMessage) returns (ok: bool)
      requires Valid() && m.ReplyFragment?
      modifies this`presented, this`requested, this`requests, this`found, ours
      ensures Valid() && (ok <==> ReceiveReply(old(Value()), m).Done?)
      ensures Value() == if ok then ReceiveReply(old(Value()), m).reply.finder else old(Value())
    {
      hide FoundByOurs, Logged;
      var state := ours.TryGet(m.handle);
      if state.None? { return false; }
      var updated := ours.Update(m.handle, GroupState(m.group, true, state.value.secondary));
      CheckForIntersection(m.handle, true);
      return true;
    }

    /** The other presented its capability for the fragment under its handle: the own
        capabilities to present in answer. */
    method ReceivedReadCapForIntersection(theirHandle: nat) returns (ok: bool, answers: seq<(Capability, nat)>)
      requires Valid()
      ensures ok <==> theirHandle < |theirs.Bound()|
      ensures answers == if ok then AnswersTo(fragments, ours.Bound(), theirs.Bound()[theirHandle]) else []
    {
      var intersection := theirs.TryGet(theirHandle);
      if intersection.None? { return false, []; }
      answers := [];
      var k := 0;
      while k < ours.nextHandle
        invariant 0 <= k <= ours.nextHandle
        invariant answers == AnswersTo(fragments[..k], ours.Bound()[..k], intersection.value)
      {
        var candidate := ours.resources[k];
        assert candidate == ours.Bound()[k];
        assert ours.Bound()[..k + 1][..k] == ours.Bound()[..k] && fragments[..k + 1][..k] == fragments[..k];
        if CompletesWith(candidate, intersection.value) {
          var info := infos[k];
          if info.action.ReplyReadCap? { answers := answers + [(info.cap, k)]; }
        }
        k := k + 1;
      }
      assert ours.Bound()[..k] == ours.Bound() && fragments[..k] == fragments;
      ok := true;
    }

    /** The other asks for a subspace capability under one of its handles: the own handles it is
        answered for. */
    method ReceivedSubspaceCapRequest(theirHandle: nat, granted: AuthorisationId -> bool) returns (ok: bool, answers: seq<nat>)
      requires Valid()
      ensures (if ok then Some(answers) else None) == AnswersToRequest(Value(), granted, theirHandle)
    {
      answers := [];
      var result := theirs.TryGet(theirHandle);
      if result.None? { return false, []; }
      var k := 0;
      while k < ours.nextHandle
        invariant 0 <= k <= ours.nextHandle
        invariant answers == Matching(fragments[..k], ours.Bound()[..k], granted, result.value.group)
      {
        var intersection := ours.resources[k];
        assert intersection == ours.Bound()[k];
        assert ours.Bound()[..k + 1][..k] == ours.Bound()[..k] && fragments[..k + 1][..k] == fragments[..k];
        if intersection.complete && result.value.group == intersection.group {
          var info := infos[k];
          if granted(info.cap.authorisation) { answers := answers + [k]; }
        }
        k := k + 1;
      }
      assert ours.Bound()[..k] == ours.Bound() && fragments[..k] == fragments;
      ok := true;
    }

    /** A subspace capability has arrived for a handle; the request is closed, and our capability is
        presented if the handle was asked for and the namespaces agree. */
    method ReceivedVerifiedSubspaceCapReply(handle: nat, namespace: NamespaceId) returns (r: CapReply)
      requires Valid()
      modifies this`requested
      ensures Valid() && r == ReceiveCapReply(old(Value()), handle, namespace)
      ensures Value() == old(Value()).(requested := old(requested) - {handle})
    {
      if handle !in requested {
        assert requested - {handle} == requested;
        return NotRequested;
      }
      requested := requested - {handle};
      var state := ours.TryGet(handle);
      if state.None? { return UnknownHandle; }
      var info := infos[handle];
      if info.fragment.namespace != namespace { return WrongNamespace; }
      return Presents(info.cap, handle);
    }
  }

  lemma {:induction false} NothingFound(h: nat, g: GroupState, others: seq<GroupState>)
    ensures !g.complete ==> FoundBy(true, h, g, others) == [] && FoundBy(false, h, g, others) == []
    ensures FoundBy(true, h, g, []) == [] && FoundBy(false, h, g, []) == []
  {
    if others != [] { NothingFound(h, g, others[..|others| - 1]); }
  }
}
