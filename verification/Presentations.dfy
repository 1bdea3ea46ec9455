/** Which own capabilities the intersection finder presents, and how often, over whole runs. */
module Presentations {
  import opened Orders
  import opened Entries
  import opened Ranges
  import opened Intersections
  import opened PaiFinders
  import opened SubspaceRequests

  /** Pairs found at our handle `i`. */
  function PairsAt(found: seq<(nat, nat)>, i: nat): nat {
    if found == [] then 0
    else PairsAt(found[..|found| - 1], i) + if found[|found| - 1].0 == i then 1 else 0
  }

  /** Handle `i` is of the capability's most specific primary fragment. */
  predicate NamesWhole(f: Finder, c: Capability, i: nat) {
    i < |f.fragments| && f.fragments[i].cap == c && !f.fragments[i].secondary && f.fragments[i].fragment.path == c.path
  }

  /** A capability is presented at its whole path's handle, once for every pair found there. */
  ghost predicate PresentedOk(f: Finder) {
    forall c, i: nat :: multiset(f.presented)[(c, i)] == if NamesWhole(f, c, i) then PairsAt(f.found, i) else 0
  }

  // ---------- every step keeps it ----------

  lemma {:induction false} PairsConcat(a: seq<(nat, nat)>, b: seq<(nat, nat)>, i: nat)
    ensures PairsAt(a + b, i) == PairsAt(a, i) + PairsAt(b, i)
  {
    if b == [] {
      assert a + b == a;
    } else {
      assert (a + b)[..|a + b| - 1] == a + b[..|b| - 1];
      PairsConcat(a, b[..|b| - 1], i);
    }
  }

  lemma {:induction false} NoPairs(found: seq<(nat, nat)>, i: nat)
    requires forall p :: p in found ==> p.0 != i
    ensures PairsAt(found, i) == 0
  {
    if found != [] {
      assert found[|found| - 1] in found;
      NoPairs(found[..|found| - 1], i);
    }
  }

  /** The rule that presents a capability is the one of its most specific primary fragment. */
  lemma {:induction false} WholeBinds(f: Finder, c: Capability, i: nat)
    requires CapsOk(f) && i < |f.fragments| && f.fragments[i].cap == c
    ensures f.fragments[i].action.BindReadCap? <==> NamesWhole(f, c, i)
  {
    hide FragmentsOf, AllFragments;
    AllFragmentsMember(f.submitted, f.fragments[i]);
    FragmentShape(c, f.fragments[i]);
  }

  lemma {:induction false} PresentedCount(infos: seq<LocalFragment>, found: seq<(nat, nat)>, c: Capability, i: nat)
    ensures multiset(Presented(infos, found))[(c, i)]
            == if i < |infos| && infos[i].action.BindReadCap? && infos[i].cap == c then PairsAt(found, i) else 0
  {
    if found != [] {
      PresentedCount(infos, found[..|found| - 1], c, i);
    }
  }

  lemma {:induction false} LoggedKeepsPresented(f: Finder, found: seq<(nat, nat)>, onReply: bool)
    requires PresentedOk(f) && CapsOk(f)
    ensures PresentedOk(Logged(f, found, onReply))
  {
    var g := Logged(f, found, onReply);
    assert multiset(f.presented + Presented(f.fragments, found)) == multiset(f.presented) + multiset(Presented(f.fragments, found));
    hide Presented, RequestsFor, CapsOk, Asked;
    forall c, i: nat ensures multiset(g.presented)[(c, i)] == if NamesWhole(g, c, i) then PairsAt(g.found, i) else 0 {
      PresentedCount(f.fragments, found, c, i);
      PairsConcat(f.found, found, i);
      if i < |f.fragments| && f.fragments[i].cap == c { WholeBinds(f, c, i); }
    }
  }

  lemma {:induction false} SameLog(f: Finder, g: Finder)
    requires PresentedOk(f) && g.presented == f.presented && g.found == f.found && g.fragments == f.fragments
    ensures PresentedOk(g)
  {
    hide PairsAt;
    forall c, i: nat ensures multiset(g.presented)[(c, i)] == if NamesWhole(g, c, i) then PairsAt(g.found, i) else 0 {
      assert NamesWhole(g, c, i) <==> NamesWhole(f, c, i);
    }
  }

  lemma {:induction false} FoundBelow(f: Finder)
    requires FoundOk(f)
    ensures forall p :: p in f.found ==> p.0 < |f.ours|
  {
    hide CompletesWith;
    forall p | p in f.found ensures p.0 < |f.ours| {
      assert p == (p.0, p.1) && multiset(f.found)[p] > 0;
    }
  }

  lemma {:induction false} SubmitKeepsPresented(s: Scheme, f: Finder, c: Capability)
    requires PresentedOk(f) && FoundOk(f) && |f.ours| == |f.fragments|
    ensures PresentedOk(Submit(s, f, c).finder)
  {
    if c !in f.submitted {
      SubmitFragmentsIs(s, f.(submitted := f.submitted + [c]), FragmentsOf(c));
      var g := Submit(s, f, c).finder;
      FoundBelow(f);
      hide FragmentsOf, SubmitFragments, Submit, FoundOk, PairsAt;
      forall d, i: nat ensures multiset(g.presented)[(d, i)] == if NamesWhole(g, d, i) then PairsAt(g.found, i) else 0 {
        assert multiset(f.presented)[(d, i)] == if NamesWhole(f, d, i) then PairsAt(f.found, i) else 0;
        if i < |f.fragments| { assert g.fragments[i] == f.fragments[i]; } else { NoPairs(f.found, i); }
      }
    }
  }

  lemma {:induction false} DeliverKeepsPresented(s: Scheme, f: Finder, m: PaiMessage)
    requires PresentedOk(f) && CapsOk(f) && ReceivePai(s, f, m).Done?
    ensures PresentedOk(ReceivePai(s, f, m).reply.finder)
  {
    hide Logged, FoundByOurs, FoundByTheirs, PresentedOk, AllFragments;
    if m.BindFragment? {
      var g := GroupState(s.mult(m.group, f.scalar), true, m.secondary);
      SameLog(f, f.(theirs := f.theirs + [g]));
      LoggedKeepsPresented(f.(theirs := f.theirs + [g]), FoundByTheirs(|f.theirs|, g, f.ours), false);
    } else {
      var g := GroupState(m.group, true, f.ours[m.handle].secondary);
      SameLog(f, f.(ours := f.ours[m.handle := g]));
      LoggedKeepsPresented(f.(ours := f.ours[m.handle := g]), FoundByOurs(m.handle, g, f.theirs), true);
    }
  }

  lemma {:induction false} MyCapsOk(s: Scheme, v: PaiView)
    requires PaiInv(s, v)
    ensures CapsOk(v.me)
  {
    hide HalfPai, FoundOk, CapsOk;
  }

  lemma {:induction false} StepKeepsPresented(s: Scheme, v: PaiView, step: PaiStep)
    requires PaiInv(s, v) && PaiEnabled(v, step) && PresentedOk(v.me)
    requires PaiApply(s, v, step).Some?
    ensures PresentedOk(PaiApply(s, v, step).value.me) && PaiApply(s, v, step).value.you == v.you
  {
    hide PaiInv, PresentedOk, Submit, ReceivePai;
    AllNumbered(s, v);
    MyCapsOk(s, v);
    match step {
      case SubmitCap(c) => SubmitKeepsPresented(s, v.me, c);
      case DeliverPai => DeliverKeepsPresented(s, v.me, v.inn[0]);
    }
  }

  lemma {:induction false} MoveKeepsPresented(s: Scheme, v: PaiView, move: PaiMove)
    requires PaiInv(s, v) && PresentedOk(v.me) && PresentedOk(v.you) && CanMovePai(v, move)
    requires MovePai(s, v, move).Some?
    ensures PresentedOk(MovePai(s, v, move).value.me) && PresentedOk(MovePai(s, v, move).value.you)
  {
    hide PaiInv, PresentedOk, PaiApply, PaiEnabled;
    match move {
      case MyStep(step) => StepKeepsPresented(s, v, step);
      case YourStep(step) => FlipPaiInv(s, v); StepKeepsPresented(s, FlipPai(v), step);
    }
  }

  lemma {:induction false} PresentedOverRun(s: Scheme, states: seq<PaiView>, moves: seq<PaiMove>, i: nat)
    requires PaiRun(s, states, moves) && i < |states|
    ensures PresentedOk(states[i].me) && PresentedOk(states[i].you)
  {
    if i == 0 {
      var a, b :| states[0] == PaiView(NewFinder(a), NewFinder(b), [], []);
    } else {
      PresentedOverRun(s, states, moves, i - 1);
      PaiRunInvariant(s, states, moves, i - 1);
      assert CanMovePai(states[i - 1], moves[i - 1]) && MovePai(s, states[i - 1], moves[i - 1]) == Some(states[i]);
      hide PresentedOk, PaiInv, MovePai, CanMovePai;
      MoveKeepsPresented(s, states[i - 1], moves[i - 1]);
    }
  }

  // ---------- counting ----------

  function TheirHandles(found: seq<(nat, nat)>, i: nat): set<nat> { set p | p in found && p.0 == i :: p.1 }

  lemma {:induction false} PairsAtIsSize(found: seq<(nat, nat)>, i: nat)
    requires forall j: nat :: multiset(found)[(i, j)] <= 1
    ensures PairsAt(found, i) == |TheirHandles(found, i)|
  {
    if found != [] {
      var n := |found| - 1;
      var p := found[n];
      assert found == found[..n] + [p];
      assert multiset(found) == multiset(found[..n]) + multiset{p};
      forall j: nat ensures multiset(found[..n])[(i, j)] <= 1 { assert multiset(found)[(i, j)] <= 1; }
      PairsAtIsSize(found[..n], i);
      if p.0 == i {
        assert p == (i, p.1) && multiset(found)[(i, p.1)] <= 1;
        assert p !in found[..n];
        assert TheirHandles(found, i) == TheirHandles(found[..n], i) + {p.1};
        assert p.1 !in TheirHandles(found[..n], i);
      } else {
        assert TheirHandles(found, i) == TheirHandles(found[..n], i);
      }
    }
  }

  /** The capabilities behind some handles. */
  function CapsAt(fragments: seq<LocalFragment>, handles: set<nat>): set<Capability>
    requires forall j :: j in handles ==> j < |fragments|
  {
    set j | j in handles :: fragments[j].cap
  }

  lemma {:induction false} AsManyCaps(fragments: seq<LocalFragment>, handles: set<nat>)
    requires forall j :: j in handles ==> j < |fragments|
    requires forall j, k :: j in handles && k in handles && fragments[j].cap == fragments[k].cap ==> j == k
    ensures |CapsAt(fragments, handles)| == |handles|
    decreases |handles|
  {
    if handles != {} {
      var j :| j in handles;
      var rest := handles - {j};
      AsManyCaps(fragments, rest);
      assert CapsAt(fragments, handles) == CapsAt(fragments, rest) + {fragments[j].cap};
      assert fragments[j].cap !in CapsAt(fragments, rest);
    }
  }

  // ---------- what is presented in the end ----------

  lemma {:induction false} HandlesMeet(s: Scheme, v: PaiView, i: nat, j: nat)
    requires Settled(s, v) && i < |v.me.fragments|
    ensures j in TheirHandles(v.me.found, i) <==> j < |v.you.fragments| && Meet(v.me.fragments[i], v.you.fragments[j])
    ensures multiset(v.me.found)[(i, j)] <= 1
  {
    SettledSizes(s, v);
    FoundOnlyMeeting(s, v, i, j);
    if j < |v.you.fragments| { FoundExactly(s, v, i, j); }
    hide PaiInv, Meet;
    assert (i, j) in v.me.found <==> multiset(v.me.found)[(i, j)] > 0;
  }

  lemma {:induction false} OneHandleEach(s: Scheme, v: PaiView, i: nat, j: nat, k: nat)
    requires Settled(s, v) && i < |v.me.fragments|
    requires j in TheirHandles(v.me.found, i) && k in TheirHandles(v.me.found, i)
    requires j < |v.you.fragments| && k < |v.you.fragments| && v.you.fragments[j].cap == v.you.fragments[k].cap
    ensures j == k
  {
    SettledSizes(s, v);
    HandlesMeet(s, v, i, j);
    HandlesMeet(s, v, i, k);
    hide Settled, TheirHandles, FragmentsOf, AllFragments;
    SamePosition(v.you.submitted, j, k, v.you.fragments[j].cap);
  }

  /** At the handle of the whole path, the other's handles found are of exactly the capabilities it covers. */
  lemma {:induction false} CoveredAt(s: Scheme, v: PaiView, c: Capability, i: nat, d: Capability)
    requires Settled(s, v) && NamesWhole(v.me, c, i)
    ensures (exists j: nat :: j in TheirHandles(v.me.found, i) && j < |v.you.fragments| && v.you.fragments[j].cap == d)
            <==> d in v.you.submitted && Covers(c, d)
  {
    SettledSizes(s, v);
    WholeBinds(v.me, c, i);
    BindsReadCapExactly(c, d);
    hide Settled, TheirHandles, FragmentsOf, AllFragments, Meet, Covers;
    AllFragmentsMember(v.me.submitted, v.me.fragments[i]);
    if j: nat :| j in TheirHandles(v.me.found, i) && j < |v.you.fragments| && v.you.fragments[j].cap == d {
      HandlesMeet(s, v, i, j);
      AllFragmentsMember(v.you.submitted, v.you.fragments[j]);
      assert MeetsThrough(c, d, BindReadCap);
    }
    if d in v.you.submitted && Covers(c, d) { MeetsAt(s, v, c, i, d); }
  }

  lemma {:induction false} MeetsAt(s: Scheme, v: PaiView, c: Capability, i: nat, d: Capability)
    requires Settled(s, v) && NamesWhole(v.me, c, i) && v.me.fragments[i] in FragmentsOf(c) && v.me.fragments[i].action == BindReadCap
    requires d in v.you.submitted && MeetsThrough(c, d, BindReadCap)
    ensures exists j: nat :: j in TheirHandles(v.me.found, i) && j < |v.you.fragments| && v.you.fragments[j].cap == d
  {
    SettledSizes(s, v);
    hide Settled, TheirHandles, FragmentsOf, AllFragments;
    var f, g :| f in FragmentsOf(c) && g in FragmentsOf(d) && f.action == BindReadCap && Meet(f, g);
    ActionNamesFragment(c, f, v.me.fragments[i]);
    FragmentShape(c, f);
    FragmentShape(c, v.me.fragments[i]);
    var j := PositionOf(v.you.submitted, d, g);
    HandlesMeet(s, v, i, j);
  }

  /** Once all messages have been delivered, a capability has been presented through the rule for read
      capabilities once for each of the other's capabilities it covers, always at the handle of its most
      specific primary fragment, and never otherwise. */
  lemma {:induction false} PresentedExactly(s: Scheme, v: PaiView, c: Capability, i: nat)
    requires Settled(s, v) && PresentedOk(v.me)
    ensures multiset(v.me.presented)[(c, i)]
            == if NamesWhole(v.me, c, i) then |set d | d in v.you.submitted && Covers(c, d)| else 0
  {
    if NamesWhole(v.me, c, i) {
      var handles := TheirHandles(v.me.found, i);
      var covered := set d | d in v.you.submitted && Covers(c, d);
      hide PresentedOk, Settled, TheirHandles, Covers;
      forall j: nat ensures multiset(v.me.found)[(i, j)] <= 1 { HandlesMeet(s, v, i, j); }
      PairsAtIsSize(v.me.found, i);
      forall j | j in handles ensures j < |v.you.fragments| { HandlesMeet(s, v, i, j); }
      forall j, k | j in handles && k in handles && v.you.fragments[j].cap == v.you.fragments[k].cap ensures j == k {
        OneHandleEach(s, v, i, j, k);
      }
      AsManyCaps(v.you.fragments, handles);
      forall d ensures d in CapsAt(v.you.fragments, handles) <==> d in covered { CoveredAt(s, v, c, i, d); }
      assert CapsAt(v.you.fragments, handles) == covered;
    }
    hide Settled, PairsAt, Covers;
  }

  /** A capability is presented at all if and only if it was submitted and covers one of the other's. */
  lemma {:induction false} PresentedIffCovers(s: Scheme, v: PaiView, c: Capability)
    requires Settled(s, v) && PresentedOk(v.me)
    ensures (exists i: nat :: (c, i) in v.me.presented) <==> c in v.me.submitted && exists d :: d in v.you.submitted && Covers(c, d)
  {
    SettledSizes(s, v);
    hide Settled, PresentedOk, Covers, AllFragments, FragmentsOf;
    var covered := set d | d in v.you.submitted && Covers(c, d);
    if i: nat :| (c, i) in v.me.presented {
      PresentedExactly(s, v, c, i);
      assert multiset(v.me.presented)[(c, i)] > 0;
      AllFragmentsMember(v.me.submitted, v.me.fragments[i]);
      assert covered != {};
    }
    if c in v.me.submitted && exists d :: d in v.you.submitted && Covers(c, d) {
      var d :| d in v.you.submitted && Covers(c, d);
      assert d in covered;
      var i := WholeHandle(v.me, c);
      PresentedExactly(s, v, c, i);
      assert multiset(v.me.presented)[(c, i)] > 0;
    }
  }

  lemma {:induction false} WholeHandle(f: Finder, c: Capability) returns (i: nat)
    requires CapsOk(f) && c in f.submitted
    ensures NamesWhole(f, c, i)
  {
    var n := |c.path|;
    assert c.path[..n] == c.path;
    if c.subspace.AnySubspace? { PairMember(c, false, n); } else { TripleMember(c, n); }
    var fragment := if c.subspace.AnySubspace? then Pair(c.namespace, c.path) else Triple(c.namespace, c.subspace.id, c.path);
    i := PositionOf(f.submitted, c, LocalFragment(c, fragment, false, BindReadCap));
  }
}
