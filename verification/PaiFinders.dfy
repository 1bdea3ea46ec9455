/** Two private area intersection finders exchanging bind and reply messages: every pair of
    meeting fragments is found exactly once by each peer, in every interleaving. */
module PaiFinders {
  import opened Orders
  import opened Entries
  import opened Ranges
  import opened Intersections

  datatype GroupState = GroupState(group: Group, complete: bool, secondary: bool)

  predicate CompletesWith(a: GroupState, b: GroupState) {
    a.complete && b.complete && !(a.secondary && b.secondary) && a.group == b.group
  }

  datatype PaiMessage = BindFragment(group: Group, secondary: bool) | ReplyFragment(handle: nat, group: Group)

  /** A request for the other's subspace capability: the handle it names, the two handles whose
      intersection it is made for, and whether our reply or their bind completed the pair. */
  datatype CapRequest = CapRequest(handle: nat, ours: nat, theirs: nat, onReply: bool)

  /** Handles number the bound fragments from 0; `found` logs the intersections checked out, as
      pairs of our handle and their handle; `requests` logs the requests sent, and `requested`
      keeps the handles whose request is open; `presented` logs the own capabilities reported as
      intersecting, with the handles they are reported for. */
  datatype Finder = Finder(
    scalar: Scalar,
    submitted: seq<Capability>,
    fragments: seq<LocalFragment>,
    ours: seq<GroupState>,
    theirs: seq<GroupState>,
    found: seq<(nat, nat)>,
    requests: seq<CapRequest>,
    requested: set<nat>,
    presented: seq<(Capability, nat)>)

  datatype FinderReply = FinderReply(finder: Finder, messages: seq<PaiMessage>)

  datatype FinderResult = Done(reply: FinderReply) | MissingResource

  function NewFinder(scalar: Scalar): Finder { Finder(scalar, [], [], [], [], [], [], {}, []) }

  // ---------- checking for intersections ----------

  function FoundByOurs(i: nat, mine: GroupState, theirs: seq<GroupState>): seq<(nat, nat)> {
    if theirs == [] then []
    else
      var n := |theirs| - 1;
      FoundByOurs(i, mine, theirs[..n]) + if CompletesWith(theirs[n], mine) then [(i, n)] else []
  }

  function FoundByTheirs(j: nat, yours: GroupState, ours: seq<GroupState>): seq<(nat, nat)> {
    if ours == [] then []
    else
      var n := |ours| - 1;
      FoundByTheirs(j, yours, ours[..n]) + if CompletesWith(ours[n], yours) then [(n, j)] else []
  }

  lemma {:induction false} FoundByOursExact(i: nat, mine: GroupState, theirs: seq<GroupState>, p: (nat, nat))
    ensures multiset(FoundByOurs(i, mine, theirs))[p]
            == if p.0 == i && p.1 < |theirs| && CompletesWith(theirs[p.1], mine) then 1 else 0
  {
    if theirs != [] { FoundByOursExact(i, mine, theirs[..|theirs| - 1], p); }
  }

  lemma {:induction false} FoundByTheirsExact(j: nat, yours: GroupState, ours: seq<GroupState>, p: (nat, nat))
    ensures multiset(FoundByTheirs(j, yours, ours))[p]
            == if p.1 == j && p.0 < |ours| && CompletesWith(ours[p.0], yours) then 1 else 0
  {
    if ours != [] { FoundByTheirsExact(j, yours, ours[..|ours| - 1], p); }
  }

  /** The requests made for the pairs found. The handle named is the one being checked: ours when our
      reply came in, theirs when their bind did. */
  function RequestsFor(infos: seq<LocalFragment>, found: seq<(nat, nat)>, onReply: bool): seq<CapRequest> {
    if found == [] then []
    else
      var p := found[|found| - 1];
      RequestsFor(infos, found[..|found| - 1], onReply)
      + if p.0 < |infos| && infos[p.0].action.RequestSubspaceCap?
        then [CapRequest(if onReply then p.0 else p.1, p.0, p.1, onReply)] else []
  }

  /** What the loop over the other side's handles yields for fragments with the given infos:
      own capabilities to present, with their handles. */
  function Presented(infos: seq<LocalFragment>, found: seq<(nat, nat)>): seq<(Capability, nat)> {
    if found == [] then []
    else
      var p := found[|found| - 1];
      Presented(infos, found[..|found| - 1])
      + if p.0 < |infos| && infos[p.0].action.BindReadCap? then [(infos[p.0].cap, p.0)] else []
  }

  function Asked(requests: seq<CapRequest>): set<nat> { set r | r in requests :: r.ours }

  /** The finder after acting on the pairs found. */
  function Logged(f: Finder, found: seq<(nat, nat)>, onReply: bool): Finder {
    var more := RequestsFor(f.fragments, found, onReply);
    f.(found := f.found + found, requests := f.requests + more, requested := f.requested + Asked(more),
       presented := f.presented + Presented(f.fragments, found))
  }

  // ---------- the finder's inputs ----------

  function PendingState(s: Scheme, f: LocalFragment, a: Scalar): GroupState {
    GroupState(s.mult(s.hash(f.fragment), a), false, f.secondary)
  }

  function CompleteState(s: Scheme, f: LocalFragment, a: Scalar, b: Scalar): GroupState {
    GroupState(Shared(s, f.fragment, a, b), true, f.secondary)
  }

  function BindOf(g: GroupState): PaiMessage { BindFragment(g.group, g.secondary) }

  function SubmitFragments(s: Scheme, f: Finder, fragments: seq<LocalFragment>): FinderReply
    decreases |fragments|
  {
    if fragments == [] then FinderReply(f, [])
    else
      var g := PendingState(s, fragments[0], f.scalar);
      var rest := SubmitFragments(s, f.(fragments := f.fragments + [fragments[0]], ours := f.ours + [g]), fragments[1..]);
      FinderReply(rest.finder, [BindOf(g)] + rest.messages)
  }

  /** A capability submitted before is ignored. */
  function Submit(s: Scheme, f: Finder, c: Capability): FinderReply {
    if c in f.submitted then FinderReply(f, [])
    else SubmitFragments(s, f.(submitted := f.submitted + [c]), FragmentsOf(c))
  }

  function ReceiveBind(s: Scheme, f: Finder, m: PaiMessage): FinderReply
    requires m.BindFragment?
  {
    var g := GroupState(s.mult(m.group, f.scalar), true, m.secondary);
    var handle := |f.theirs|;
    FinderReply(Logged(f.(theirs := f.theirs + [g]), FoundByTheirs(handle, g, f.ours), false),
                [ReplyFragment(handle, g.group)])
  }

  function ReceiveReply(f: Finder, m: PaiMessage): FinderResult
    requires m.ReplyFragment?
  {
    if m.handle >= |f.ours| then MissingResource
    else
      var g := GroupState(m.group, true, f.ours[m.handle].secondary);
      Done(FinderReply(Logged(f.(ours := f.ours[m.handle := g]), FoundByOurs(m.handle, g, f.theirs), true), []))
  }

  function ReceivePai(s: Scheme, f: Finder, m: PaiMessage): FinderResult {
    if m.BindFragment? then Done(ReceiveBind(s, f, m)) else ReceiveReply(f, m)
  }

  // ---------- two finders and their queues ----------

  datatype PaiView = PaiView(me: Finder, you: Finder, out: seq<PaiMessage>, inn: seq<PaiMessage>)

  function FlipPai(v: PaiView): PaiView { PaiView(v.you, v.me, v.inn, v.out) }

  datatype PaiStep = SubmitCap(c: Capability) | DeliverPai

  predicate PaiEnabled(v: PaiView, step: PaiStep) { step.DeliverPai? ==> v.inn != [] }

  function PaiApply(s: Scheme, v: PaiView, step: PaiStep): Option<PaiView>
    requires PaiEnabled(v, step)
  {
    match step
    case SubmitCap(c) =>
      var r := Submit(s, v.me, c);
      Some(PaiView(r.finder, v.you, v.out + r.messages, v.inn))
    case DeliverPai =>
      match ReceivePai(s, v.me, v.inn[0])
      case MissingResource => None
      case Done(r) => Some(PaiView(r.finder, v.you, v.out + r.messages, v.inn[1..]))
  }

  function Binds(q: seq<PaiMessage>): seq<PaiMessage> {
    if q == [] then [] else (if q[0].BindFragment? then [q[0]] else []) + Binds(q[1..])
  }

  function Replies(q: seq<PaiMessage>): seq<PaiMessage> {
    if q == [] then [] else (if q[0].ReplyFragment? then [q[0]] else []) + Replies(q[1..])
  }

  lemma {:induction false} BindsConcat(a: seq<PaiMessage>, b: seq<PaiMessage>)
    ensures Binds(a + b) == Binds(a) + Binds(b)
  {
    if a == [] {
      assert a + b == b;
    } else {
      assert (a + b)[0] == a[0] && (a + b)[1..] == a[1..] + b;
      BindsConcat(a[1..], b);
    }
  }

  lemma {:induction false} RepliesConcat(a: seq<PaiMessage>, b: seq<PaiMessage>)
    ensures Replies(a + b) == Replies(a) + Replies(b)
  {
    if a == [] {
      assert a + b == b;
    } else {
      assert (a + b)[0] == a[0] && (a + b)[1..] == a[1..] + b;
      RepliesConcat(a[1..], b);
    }
  }

  lemma {:induction false} QueueParts(a: seq<PaiMessage>, b: seq<PaiMessage>)
    ensures Binds(a + b) == Binds(a) + Binds(b) && Replies(a + b) == Replies(a) + Replies(b)
  {
    hide Binds, Replies;
    BindsConcat(a, b);
    RepliesConcat(a, b);
  }

  // ---------- the invariant ----------

  /** My fragments from `k` on still wait for their reply. */
  ghost predicate OursOk(s: Scheme, me: Finder, b: Scalar, k: nat) {
    && |me.ours| == |me.fragments| && k <= |me.ours|
    && forall i :: 0 <= i < |me.ours| ==>
         me.ours[i] == if i < k then CompleteState(s, me.fragments[i], me.scalar, b) else PendingState(s, me.fragments[i], me.scalar)
  }

  /** What you hold of my fragments, and the binds on their way to you. */
  ghost predicate BoundOk(s: Scheme, me: Finder, you: Finder, out: seq<PaiMessage>) {
    && |you.theirs| <= |me.fragments|
    && (forall j :: 0 <= j < |you.theirs| ==> you.theirs[j] == CompleteState(s, me.fragments[j], me.scalar, you.scalar))
    && |Binds(out)| == |me.fragments| - |you.theirs|
    && (forall i :: 0 <= i < |Binds(out)| ==>
          Binds(out)[i] == BindOf(PendingState(s, me.fragments[|you.theirs| + i], me.scalar)))
  }

  /** The replies on their way to me: one for each of my fragments you hold, from `k` on. */
  ghost predicate RepliesOk(s: Scheme, me: Finder, you: Finder, inn: seq<PaiMessage>, k: nat) {
    && |you.theirs| <= |me.fragments|
    && k + |Replies(inn)| == |you.theirs|
    && forall i :: 0 <= i < |Replies(inn)| ==>
         Replies(inn)[i] == ReplyFragment(k + i, Shared(s, me.fragments[k + i].fragment, me.scalar, you.scalar))
  }

  ghost predicate HalfPai(s: Scheme, me: Finder, you: Finder, out: seq<PaiMessage>, inn: seq<PaiMessage>) {
    && BoundOk(s, me, you, out)
    && exists k :: OursOk(s, me, you.scalar, k) && RepliesOk(s, me, you, inn, k)
  }

  /** Every pair that completes has been found exactly once, and no other. */
  ghost predicate FoundOk(f: Finder) {
    forall i: nat, j: nat ::
      multiset(f.found)[(i, j)] == if i < |f.ours| && j < |f.theirs| && CompletesWith(f.ours[i], f.theirs[j]) then 1 else 0
  }

  ghost predicate CapsOk(f: Finder) {
    && f.fragments == AllFragments(f.submitted)
    && forall i, j :: 0 <= i < j < |f.submitted| ==> f.submitted[i] != f.submitted[j]
  }

  function AllFragments(caps: seq<Capability>): seq<LocalFragment> {
    if caps == [] then [] else AllFragments(caps[..|caps| - 1]) + FragmentsOf(caps[|caps| - 1])
  }

  ghost predicate PaiInv(s: Scheme, v: PaiView) {
    && HalfPai(s, v.me, v.you, v.out, v.inn) && HalfPai(s, v.you, v.me, v.inn, v.out)
    && FoundOk(v.me) && FoundOk(v.you)
    && CapsOk(v.me) && CapsOk(v.you)
  }

  lemma {:induction false} FlipPaiInv(s: Scheme, v: PaiView)
    requires PaiInv(s, v)
    ensures PaiInv(s, FlipPai(v))
  {}

  // ---------- submitting ----------

  function BindsFor(s: Scheme, fragments: seq<LocalFragment>, a: Scalar): seq<PaiMessage> {
    seq(|fragments|, i requires 0 <= i < |fragments| => BindOf(PendingState(s, fragments[i], a)))
  }

  function StatesFor(s: Scheme, fragments: seq<LocalFragment>, a: Scalar): seq<GroupState> {
    seq(|fragments|, i requires 0 <= i < |fragments| => PendingState(s, fragments[i], a))
  }

  lemma {:induction false} SubmitFragmentsIs(s: Scheme, f: Finder, fragments: seq<LocalFragment>)
    ensures SubmitFragments(s, f, fragments)
            == FinderReply(f.(fragments := f.fragments + fragments, ours := f.ours + StatesFor(s, fragments, f.scalar)),
                           BindsFor(s, fragments, f.scalar))
    decreases |fragments|
  {
    if fragments == [] {
      assert f.fragments + fragments == f.fragments && f.ours + StatesFor(s, [], f.scalar) == f.ours;
    } else {
      var x, rest := fragments[0], fragments[1..];
      var g := PendingState(s, x, f.scalar);
      var f1 := f.(fragments := f.fragments + [x], ours := f.ours + [g]);
      SubmitFragmentsIs(s, f1, rest);
      assert fragments == [x] + rest;
      assert f.fragments + [x] + rest == f.fragments + fragments;
      assert StatesFor(s, fragments, f.scalar) == [g] + StatesFor(s, rest, f.scalar);
      assert BindsFor(s, fragments, f.scalar) == [BindOf(g)] + BindsFor(s, rest, f.scalar);
      assert f.ours + [g] + StatesFor(s, rest, f.scalar) == f.ours + StatesFor(s, fragments, f.scalar);
    }
  }

  lemma {:induction false} BindsOnly(s: Scheme, fragments: seq<LocalFragment>, a: Scalar)
    ensures Binds(BindsFor(s, fragments, a)) == BindsFor(s, fragments, a) && Replies(BindsFor(s, fragments, a)) == []
    decreases |fragments|
  {
    if fragments != [] {
      var q := BindsFor(s, fragments, a);
      assert q[1..] == BindsFor(s, fragments[1..], a);
      BindsOnly(s, fragments[1..], a);
    }
  }

  lemma {:induction false} SubmitKeepsMine(s: Scheme, me: Finder, you: Finder, out: seq<PaiMessage>, inn: seq<PaiMessage>,
                                           fragments: seq<LocalFragment>, caps: seq<Capability>)
    requires HalfPai(s, me, you, out, inn)
    ensures var r := me.(submitted := caps, fragments := me.fragments + fragments, ours := me.ours + StatesFor(s, fragments, me.scalar));
            HalfPai(s, r, you, out + BindsFor(s, fragments, me.scalar), inn)
  {
    var r := me.(submitted := caps, fragments := me.fragments + fragments, ours := me.ours + StatesFor(s, fragments, me.scalar));
    QueueParts(out, BindsFor(s, fragments, me.scalar));
    BindsOnly(s, fragments, me.scalar);
    hide Binds, Replies, Shared;
    var k :| OursOk(s, me, you.scalar, k) && RepliesOk(s, me, you, inn, k);
    assert OursOk(s, r, you.scalar, k) && RepliesOk(s, r, you, inn, k);
  }

  lemma {:induction false} SubmitKeepsYours(s: Scheme, me: Finder, you: Finder, out: seq<PaiMessage>, inn: seq<PaiMessage>,
                                            fragments: seq<LocalFragment>, r: Finder)
    requires HalfPai(s, you, me, inn, out)
    requires r.theirs == me.theirs && r.scalar == me.scalar
    ensures HalfPai(s, you, r, inn, out + BindsFor(s, fragments, me.scalar))
  {
    hide HalfPai;
    QueueParts(out, BindsFor(s, fragments, me.scalar));
    BindsOnly(s, fragments, me.scalar);
    assert Replies(out) + [] == Replies(out);
    SameOtherHalf(s, me, r, you, out, inn, out + BindsFor(s, fragments, me.scalar), inn);
  }

  lemma {:induction false} SubmitKeepsFound(s: Scheme, f: Finder, fragments: seq<LocalFragment>, caps: seq<Capability>)
    requires FoundOk(f)
    ensures FoundOk(f.(submitted := caps, fragments := f.fragments + fragments, ours := f.ours + StatesFor(s, fragments, f.scalar)))
  {}

  lemma {:induction false} SubmitKeepsCaps(f: Finder, c: Capability, ours: seq<GroupState>)
    requires CapsOk(f) && c !in f.submitted
    ensures CapsOk(f.(submitted := f.submitted + [c], fragments := f.fragments + FragmentsOf(c), ours := ours))
  {}

  lemma {:induction false} SubmitKeeps(s: Scheme, v: PaiView, c: Capability)
    requires PaiInv(s, v)
    ensures PaiInv(s, PaiApply(s, v, SubmitCap(c)).value)
  {
    hide HalfPai, FoundOk, CapsOk, FragmentsOf, SubmitFragments;
    if c in v.me.submitted {
      assert v.out + [] == v.out;
    } else {
      var fs := FragmentsOf(c);
      var caps := v.me.submitted + [c];
      SubmitFragmentsIs(s, v.me.(submitted := caps), fs);
      SubmitKeepsMine(s, v.me, v.you, v.out, v.inn, fs, caps);
      SubmitKeepsYours(s, v.me, v.you, v.out, v.inn, fs, PaiApply(s, v, SubmitCap(c)).value.me);
      SubmitKeepsFound(s, v.me, fs, caps);
      SubmitKeepsCaps(v.me, c, v.me.ours + StatesFor(s, fs, v.me.scalar));
    }
  }

  // ---------- receiving ----------

  lemma {:induction false} HeadParts(q: seq<PaiMessage>)
    requires q != []
    ensures q[0].BindFragment? ==> Binds(q) != [] && Binds(q)[0] == q[0] && Binds(q[1..]) == Binds(q)[1..] && Replies(q[1..]) == Replies(q)
    ensures q[0].ReplyFragment? ==> Replies(q) != [] && Replies(q)[0] == q[0] && Replies(q[1..]) == Replies(q)[1..] && Binds(q[1..]) == Binds(q)
  {}

  lemma {:induction false} OneReply(m: PaiMessage)
    requires m.ReplyFragment?
    ensures Binds([m]) == [] && Replies([m]) == [m]
  {}

  /** A bind is for your next fragment, and I answer it under the handle you gave it. */
  lemma {:induction false} BindKeepsYours(s: Scheme, me: Finder, you: Finder, out: seq<PaiMessage>, inn: seq<PaiMessage>)
    requires HalfPai(s, you, me, inn, out)
    requires inn != [] && inn[0].BindFragment?
    ensures var r := ReceiveBind(s, me, inn[0]);
            HalfPai(s, you, r.finder, inn[1..], out + r.messages)
  {
    var r := ReceiveBind(s, me, inn[0]);
    HeadParts(inn);
    QueueParts(out, r.messages);
    OneReply(r.messages[0]);
    hide OursOk, RepliesOk, BoundOk, Binds, Replies, FoundByTheirs, CompleteState, PendingState, Shared;
    var k :| OursOk(s, you, me.scalar, k) && RepliesOk(s, you, me, out, k);
    NextBind(s, you, me, inn);
    BindExtendsBound(s, you, me, r.finder, inn);
    BindExtendsReplies(s, you, me, r.finder, out, k, r.messages[0]);
  }

  /** The next bind carries your next fragment. */
  lemma {:induction false} NextBind(s: Scheme, you: Finder, me: Finder, inn: seq<PaiMessage>)
    requires BoundOk(s, you, me, inn) && Binds(inn) != [] && Binds(inn)[0] == inn[0]
    ensures |me.theirs| < |you.fragments| && inn[0].BindFragment?
    ensures GroupState(s.mult(inn[0].group, me.scalar), true, inn[0].secondary)
            == CompleteState(s, you.fragments[|me.theirs|], you.scalar, me.scalar)
    ensures s.mult(inn[0].group, me.scalar) == Shared(s, you.fragments[|me.theirs|].fragment, you.scalar, me.scalar)
  {}

  lemma {:induction false} BindExtendsBound(s: Scheme, you: Finder, me: Finder, r: Finder, inn: seq<PaiMessage>)
    requires BoundOk(s, you, me, inn) && inn != [] && Binds(inn) != [] && Binds(inn[1..]) == Binds(inn)[1..]
    requires r.scalar == me.scalar && |me.theirs| < |you.fragments|
    requires r.theirs == me.theirs + [CompleteState(s, you.fragments[|me.theirs|], you.scalar, me.scalar)]
    ensures BoundOk(s, you, r, inn[1..])
  {
    hide Binds, CompleteState, PendingState;
    forall i | 0 <= i < |Binds(inn[1..])|
      ensures Binds(inn[1..])[i] == BindOf(PendingState(s, you.fragments[|r.theirs| + i], you.scalar))
    {
      assert Binds(inn[1..])[i] == Binds(inn)[i + 1];
    }
  }

  lemma {:induction false} BindExtendsReplies(s: Scheme, you: Finder, me: Finder, r: Finder, out: seq<PaiMessage>, k: nat, m: PaiMessage)
    requires RepliesOk(s, you, me, out, k) && |me.theirs| < |you.fragments|
    requires r.scalar == me.scalar && |r.theirs| == |me.theirs| + 1
    requires m == ReplyFragment(|me.theirs|, Shared(s, you.fragments[|me.theirs|].fragment, you.scalar, me.scalar))
    requires Replies(out + [m]) == Replies(out) + [m]
    ensures RepliesOk(s, you, r, out + [m], k)
  {}

  lemma {:induction false} BindKeepsMine(s: Scheme, me: Finder, you: Finder, out: seq<PaiMessage>, inn: seq<PaiMessage>)
    requires HalfPai(s, me, you, out, inn)
    requires inn != [] && inn[0].BindFragment?
    ensures var r := ReceiveBind(s, me, inn[0]);
            HalfPai(s, r.finder, you, out + r.messages, inn[1..])
  {
    hide HalfPai, FoundByTheirs;
    var r := ReceiveBind(s, me, inn[0]);
    HeadParts(inn);
    QueueParts(out, r.messages);
    OneReply(r.messages[0]);
    assert Binds(out) + [] == Binds(out);
    SameHalf(s, me, r.finder, you, out, inn, out + r.messages, inn[1..]);
  }

  /** My half of the invariant reads only my fragments and their states, and the messages about them. */
  lemma {:induction false} SameHalf(s: Scheme, me: Finder, r: Finder, you: Finder, out: seq<PaiMessage>, inn: seq<PaiMessage>,
                                    out1: seq<PaiMessage>, inn1: seq<PaiMessage>)
    requires HalfPai(s, me, you, out, inn)
    requires r.scalar == me.scalar && r.fragments == me.fragments && r.ours == me.ours
    requires Binds(out1) == Binds(out) && Replies(inn1) == Replies(inn)
    ensures HalfPai(s, r, you, out1, inn1)
  {
    hide Binds, Replies, Shared, PendingState, CompleteState;
    var k :| OursOk(s, me, you.scalar, k) && RepliesOk(s, me, you, inn, k);
    assert OursOk(s, r, you.scalar, k) && RepliesOk(s, r, you, inn1, k);
  }

  lemma {:induction false} BindKeepsFound(s: Scheme, f: Finder, m: PaiMessage)
    requires FoundOk(f) && m.BindFragment?
    ensures FoundOk(ReceiveBind(s, f, m).finder)
  {
    var r := ReceiveBind(s, f, m).finder;
    var g := r.theirs[|f.theirs|];
    var more := FoundByTheirs(|f.theirs|, g, f.ours);
    forall i: nat, j: nat
      ensures multiset(r.found)[(i, j)] == if i < |r.ours| && j < |r.theirs| && CompletesWith(r.ours[i], r.theirs[j]) then 1 else 0
    {
      FoundByTheirsExact(|f.theirs|, g, f.ours, (i, j));
      assert multiset(r.found) == multiset(f.found) + multiset(more);
    }
  }

  /** A reply is for my oldest fragment without one. */
  lemma {:induction false} ReplyIsNext(s: Scheme, me: Finder, you: Finder, out: seq<PaiMessage>, inn: seq<PaiMessage>)
    requires HalfPai(s, me, you, out, inn)
    requires inn != [] && inn[0].ReplyFragment?
    ensures inn[0].handle < |me.ours| && !me.ours[inn[0].handle].complete
    ensures ReceiveReply(me, inn[0]).Done?
    ensures HalfPai(s, ReceiveReply(me, inn[0]).reply.finder, you, out, inn[1..])
  {
    HeadParts(inn);
    hide OursOk, RepliesOk, BoundOk, Binds, Replies, FoundByOurs, CompleteState, PendingState;
    var k :| OursOk(s, me, you.scalar, k) && RepliesOk(s, me, you, inn, k);
    NextReply(s, me, you, inn, k);
    var r := ReceiveReply(me, inn[0]).reply.finder;
    ReplyAdvancesOurs(s, me, r, you.scalar, k);
    ReplyAdvancesReplies(s, me, r, you, inn, k);
    SameBound(s, me, r, you, out);
  }

  lemma {:induction false} NextReply(s: Scheme, me: Finder, you: Finder, inn: seq<PaiMessage>, k: nat)
    requires OursOk(s, me, you.scalar, k) && RepliesOk(s, me, you, inn, k)
    requires Replies(inn) != [] && Replies(inn)[0] == inn[0]
    ensures k < |me.ours| && !me.ours[k].complete
    ensures inn[0] == ReplyFragment(k, Shared(s, me.fragments[k].fragment, me.scalar, you.scalar))
    ensures GroupState(Shared(s, me.fragments[k].fragment, me.scalar, you.scalar), true, me.ours[k].secondary)
            == CompleteState(s, me.fragments[k], me.scalar, you.scalar)
  {}

  lemma {:induction false} SameBound(s: Scheme, me: Finder, r: Finder, you: Finder, out: seq<PaiMessage>)
    requires BoundOk(s, me, you, out) && r.scalar == me.scalar && r.fragments == me.fragments
    ensures BoundOk(s, r, you, out)
  {}

  lemma {:induction false} ReplyAdvancesOurs(s: Scheme, me: Finder, r: Finder, b: Scalar, k: nat)
    requires OursOk(s, me, b, k) && k < |me.ours|
    requires r.scalar == me.scalar && r.fragments == me.fragments
    requires r.ours == me.ours[k := CompleteState(s, me.fragments[k], me.scalar, b)]
    ensures OursOk(s, r, b, k + 1)
  {}

  lemma {:induction false} ReplyAdvancesReplies(s: Scheme, me: Finder, r: Finder, you: Finder, inn: seq<PaiMessage>, k: nat)
    requires RepliesOk(s, me, you, inn, k) && inn != [] && Replies(inn) != [] && Replies(inn[1..]) == Replies(inn)[1..]
    requires r.scalar == me.scalar && r.fragments == me.fragments
    ensures RepliesOk(s, r, you, inn[1..], k + 1)
  {}

  lemma {:induction false} ReplyKeepsYours(s: Scheme, me: Finder, you: Finder, out: seq<PaiMessage>, inn: seq<PaiMessage>, r: Finder)
    requires HalfPai(s, you, me, inn, out)
    requires inn != [] && inn[0].ReplyFragment?
    requires r.theirs == me.theirs && r.scalar == me.scalar
    ensures HalfPai(s, you, r, inn[1..], out)
  {
    hide HalfPai;
    HeadParts(inn);
    SameOtherHalf(s, me, r, you, out, inn, out, inn[1..]);
  }

  /** Your half reads only my scalar and what I hold of your fragments, and the messages about them. */
  lemma {:induction false} SameOtherHalf(s: Scheme, me: Finder, r: Finder, you: Finder, out: seq<PaiMessage>, inn: seq<PaiMessage>,
                                         out1: seq<PaiMessage>, inn1: seq<PaiMessage>)
    requires HalfPai(s, you, me, inn, out)
    requires r.scalar == me.scalar && r.theirs == me.theirs
    requires Binds(inn1) == Binds(inn) && Replies(out1) == Replies(out)
    ensures HalfPai(s, you, r, inn1, out1)
  {}

  lemma {:induction false} ReplyKeepsFound(f: Finder, m: PaiMessage)
    requires FoundOk(f) && m.ReplyFragment? && m.handle < |f.ours| && !f.ours[m.handle].complete
    ensures FoundOk(ReceiveReply(f, m).reply.finder)
  {
    var r := ReceiveReply(f, m).reply.finder;
    var g := r.ours[m.handle];
    var more := FoundByOurs(m.handle, g, f.theirs);
    forall i: nat, j: nat
      ensures multiset(r.found)[(i, j)] == if i < |r.ours| && j < |r.theirs| && CompletesWith(r.ours[i], r.theirs[j]) then 1 else 0
    {
      FoundByOursExact(m.handle, g, f.theirs, (i, j));
      assert multiset(r.found) == multiset(f.found) + multiset(more);
    }
  }

  lemma {:induction false} DeliverPaiKeeps(s: Scheme, v: PaiView)
    requires PaiInv(s, v) && v.inn != []
    ensures PaiApply(s, v, DeliverPai).Some? && PaiInv(s, PaiApply(s, v, DeliverPai).value)
  {
    hide HalfPai, FoundOk;
    if v.inn[0].BindFragment? {
      BindKeepsYours(s, v.me, v.you, v.out, v.inn);
      BindKeepsMine(s, v.me, v.you, v.out, v.inn);
      BindKeepsFound(s, v.me, v.inn[0]);
    } else {
      ReplyIsNext(s, v.me, v.you, v.out, v.inn);
      var r := ReceiveReply(v.me, v.inn[0]).reply;
      ReplyKeepsYours(s, v.me, v.you, v.out, v.inn, r.finder);
      ReplyKeepsFound(v.me, v.inn[0]);
      assert v.out + [] == v.out;
    }
  }

  /** No step fails, and every step of either peer keeps the invariant. */
  lemma {:induction false} PaiStepKeeps(s: Scheme, v: PaiView, step: PaiStep)
    requires PaiInv(s, v) && PaiEnabled(v, step)
    ensures PaiApply(s, v, step).Some? && PaiInv(s, PaiApply(s, v, step).value)
  {
    hide PaiInv;
    match step {
      case SubmitCap(c) => SubmitKeeps(s, v, c);
      case DeliverPai => DeliverPaiKeeps(s, v);
    }
  }

  // ---------- whole runs ----------

  datatype PaiMove = MyStep(step: PaiStep) | YourStep(step: PaiStep)

  predicate CanMovePai(v: PaiView, move: PaiMove) {
    match move
    case MyStep(step) => PaiEnabled(v, step)
    case YourStep(step) => PaiEnabled(FlipPai(v), step)
  }

  function MovePai(s: Scheme, v: PaiView, move: PaiMove): Option<PaiView>
    requires CanMovePai(v, move)
  {
    match move
    case MyStep(step) => PaiApply(s, v, step)
    case YourStep(step) =>
      var w := PaiApply(s, FlipPai(v), step);
      if w.None? then None else Some(FlipPai(w.value))
  }

  ghost predicate PaiRun(s: Scheme, states: seq<PaiView>, moves: seq<PaiMove>) {
    && |states| == |moves| + 1
    && (exists a, b :: states[0] == PaiView(NewFinder(a), NewFinder(b), [], []))
    && forall i :: 0 <= i < |moves| ==> CanMovePai(states[i], moves[i]) && MovePai(s, states[i], moves[i]) == Some(states[i + 1])
  }

  lemma {:induction false} NewHalf(s: Scheme, a: Scalar, b: Scalar)
    ensures HalfPai(s, NewFinder(a), NewFinder(b), [], []) && FoundOk(NewFinder(a)) && CapsOk(NewFinder(a))
  {
    assert OursOk(s, NewFinder(a), b, 0) && RepliesOk(s, NewFinder(a), NewFinder(b), [], 0);
  }

  lemma {:induction false} PaiRunInvariant(s: Scheme, states: seq<PaiView>, moves: seq<PaiMove>, i: nat)
    requires PaiRun(s, states, moves) && i < |states|
    ensures PaiInv(s, states[i])
  {
    if i == 0 {
      var a, b :| states[0] == PaiView(NewFinder(a), NewFinder(b), [], []);
      NewHalf(s, a, b);
      NewHalf(s, b, a);
    } else {
      PaiRunInvariant(s, states, moves, i - 1);
      var v, move := states[i - 1], moves[i - 1];
      hide PaiInv, PaiApply, PaiRun;
      match move {
        case MyStep(step) => PaiStepKeeps(s, v, step);
        case YourStep(step) =>
          FlipPaiInv(s, v);
          PaiStepKeeps(s, FlipPai(v), step);
          FlipPaiInv(s, PaiApply(s, FlipPai(v), step).value);
      }
    }
  }

  /** At any time: a pair has been found at most once, and only if its fragments meet. */
  lemma {:induction false} FoundOnlyMeeting(s: Scheme, v: PaiView, i: nat, j: nat)
    requires SchemeOk(s) && PaiInv(s, v)
    ensures multiset(v.me.found)[(i, j)] <= 1
    ensures multiset(v.me.found)[(i, j)] == 1 ==>
              i < |v.me.fragments| && j < |v.you.fragments| && Meet(v.me.fragments[i], v.you.fragments[j])
  {
    hide Binds, Replies;
    if i < |v.me.ours| && j < |v.me.theirs| {
      var k :| OursOk(s, v.me, v.you.scalar, k) && RepliesOk(s, v.me, v.you, v.inn, k);
      SharedEqual(s, v.me.fragments[i].fragment, v.you.fragments[j].fragment, v.me.scalar, v.you.scalar);
    }
  }

  /** Once all messages have been delivered: a pair has been found exactly once if its fragments
      meet, and never otherwise. */
  lemma {:induction false} FoundExactly(s: Scheme, v: PaiView, i: nat, j: nat)
    requires SchemeOk(s) && PaiInv(s, v) && v.out == [] && v.inn == []
    requires i < |v.me.fragments| && j < |v.you.fragments|
    ensures multiset(v.me.found)[(i, j)] == if Meet(v.me.fragments[i], v.you.fragments[j]) then 1 else 0
  {}

  // ---------- capabilities reported ----------

  lemma {:induction false} AllFragmentsMember(caps: seq<Capability>, f: LocalFragment)
    ensures f in AllFragments(caps) <==> f.cap in caps && f in FragmentsOf(f.cap)
  {
    hide FragmentsOf;
    if caps != [] {
      var n := |caps| - 1;
      assert caps == caps[..n] + [caps[n]];
      AllFragmentsMember(caps[..n], f);
      if f in FragmentsOf(caps[n]) { FragmentShape(caps[n], f); }
    }
  }

  lemma {:induction false} AllFragmentsDistinct(caps: seq<Capability>, i: nat, j: nat)
    requires forall i, j :: 0 <= i < j < |caps| ==> caps[i] != caps[j]
    requires i < j < |AllFragments(caps)|
    ensures AllFragments(caps)[i] != AllFragments(caps)[j]
  {
    hide FragmentsOf;
    var n := |caps| - 1;
    var before := AllFragments(caps[..n]);
    if j < |before| {
      AllFragmentsDistinct(caps[..n], i, j);
    } else if i >= |before| {
      FragmentsDistinct(caps[n], i - |before|, j - |before|);
    } else {
      AllFragmentsMember(caps[..n], before[i]);
      FragmentShape(caps[n], FragmentsOf(caps[n])[j - |before|]);
    }
  }

  /** An intersection found between my capability `c` and yours `d`, at handles `i` and `j`, in
      which my fragment calls for `action`. */
  ghost predicate FoundFor(v: PaiView, i: nat, j: nat, c: Capability, d: Capability, action: OnIntersection) {
    && (i, j) in v.me.found && i < |v.me.fragments| && j < |v.you.fragments|
    && v.me.fragments[i].cap == c && v.me.fragments[i].action == action && v.you.fragments[j].cap == d
  }

  ghost predicate Settled(s: Scheme, v: PaiView) {
    SchemeOk(s) && PaiInv(s, v) && v.out == [] && v.inn == []
  }

  lemma {:induction false} FoundForMeets(s: Scheme, v: PaiView, c: Capability, d: Capability, action: OnIntersection, i: nat, j: nat)
    requires Settled(s, v) && FoundFor(v, i, j, c, d, action)
    ensures MeetsThrough(c, d, action)
  {
    assert CapsOk(v.me) && CapsOk(v.you);
    hide PaiInv, FragmentsOf, AllFragments, Meet;
    FoundExactly(s, v, i, j);
    assert multiset(v.me.found)[(i, j)] > 0;
    AllFragmentsMember(v.me.submitted, v.me.fragments[i]);
    AllFragmentsMember(v.you.submitted, v.you.fragments[j]);
  }

  lemma {:induction false} PositionOf(caps: seq<Capability>, c: Capability, f: LocalFragment) returns (i: nat)
    requires c in caps && f in FragmentsOf(c)
    ensures i < |AllFragments(caps)| && AllFragments(caps)[i] == f && f.cap == c
  {
    FragmentShape(c, f);
    AllFragmentsMember(caps, f);
    hide AllFragments, FragmentsOf;
    i :| i < |AllFragments(caps)| && AllFragments(caps)[i] == f;
  }

  lemma {:induction false} MeetsIsFound(s: Scheme, v: PaiView, c: Capability, d: Capability, action: OnIntersection)
    requires Settled(s, v) && c in v.me.submitted && d in v.you.submitted && MeetsThrough(c, d, action)
    ensures exists i, j :: FoundFor(v, i, j, c, d, action)
  {
    assert CapsOk(v.me) && CapsOk(v.you);
    hide PaiInv, FragmentsOf, AllFragments, Meet;
    var f, g :| f in FragmentsOf(c) && g in FragmentsOf(d) && f.action == action && Meet(f, g);
    var i := PositionOf(v.me.submitted, c, f);
    var j := PositionOf(v.you.submitted, d, g);
    FoundExactly(s, v, i, j);
    assert (i, j) in multiset(v.me.found);
    assert FoundFor(v, i, j, c, d, action);
  }

  lemma {:induction false} FoundForExactly(s: Scheme, v: PaiView, c: Capability, d: Capability, action: OnIntersection)
    requires Settled(s, v) && c in v.me.submitted && d in v.you.submitted
    ensures (exists i, j :: FoundFor(v, i, j, c, d, action)) <==> MeetsThrough(c, d, action)
  {
    hide Settled, FoundFor, MeetsThrough;
    if i: nat, j: nat :| FoundFor(v, i, j, c, d, action) { FoundForMeets(s, v, c, d, action, i, j); }
    if MeetsThrough(c, d, action) { MeetsIsFound(s, v, c, d, action); }
  }

  lemma {:induction false} ActionNamesFragment(c: Capability, f: LocalFragment, g: LocalFragment)
    requires f in FragmentsOf(c) && g in FragmentsOf(c)
    requires f.action == g.action && (f.action.BindReadCap? || f.action.RequestSubspaceCap?)
    ensures f.fragment == g.fragment
  {
    FragmentShape(c, f);
    FragmentShape(c, g);
  }

  lemma {:induction false} SamePosition(caps: seq<Capability>, i: nat, k: nat, c: Capability)
    requires forall i, j :: 0 <= i < j < |caps| ==> caps[i] != caps[j]
    requires i < |AllFragments(caps)| && k < |AllFragments(caps)|
    requires AllFragments(caps)[i].cap == AllFragments(caps)[k].cap == c
    requires AllFragments(caps)[i].fragment == AllFragments(caps)[k].fragment
    ensures i == k
  {
    hide FragmentsOf;
    var f, g := AllFragments(caps)[i], AllFragments(caps)[k];
    AllFragmentsMember(caps, f);
    AllFragmentsMember(caps, g);
    var a :| 0 <= a < |FragmentsOf(c)| && FragmentsOf(c)[a] == f;
    var b :| 0 <= b < |FragmentsOf(c)| && FragmentsOf(c)[b] == g;
    if a < b { FragmentsDistinct(c, a, b); }
    if b < a { FragmentsDistinct(c, b, a); }
    if i < k { AllFragmentsDistinct(caps, i, k); }
    if k < i { AllFragmentsDistinct(caps, k, i); }
  }

  lemma {:induction false} FoundForOnce(s: Scheme, v: PaiView, c: Capability, d: Capability, action: OnIntersection,
                                        i: nat, j: nat, k: nat, l: nat)
    requires Settled(s, v)
    requires action.BindReadCap? || action.RequestSubspaceCap?
    requires FoundFor(v, i, j, c, d, action) && FoundFor(v, k, l, c, d, action)
    ensures i == k && j == l
  {
    assert CapsOk(v.me) && CapsOk(v.you);
    hide HalfPai, FoundOk, FragmentsOf, AllFragments;
    FoundExactly(s, v, i, j);
    FoundExactly(s, v, k, l);
    assert multiset(v.me.found)[(i, j)] > 0 && multiset(v.me.found)[(k, l)] > 0;
    AllFragmentsMember(v.me.submitted, v.me.fragments[i]);
    AllFragmentsMember(v.me.submitted, v.me.fragments[k]);
    ActionNamesFragment(c, v.me.fragments[i], v.me.fragments[k]);
    SamePosition(v.me.submitted, i, k, c);
    SamePosition(v.you.submitted, j, l, d);
  }

  /** Once all messages have been delivered, a peer has reported its capability for the other's
      through the BindReadCap rule exactly once if it covers it, and never otherwise. */
  lemma {:induction false} ReadCapReportedExactly(s: Scheme, v: PaiView, c: Capability, d: Capability)
    requires Settled(s, v) && c in v.me.submitted && d in v.you.submitted
    ensures (exists i, j :: FoundFor(v, i, j, c, d, BindReadCap)) <==> Covers(c, d)
    ensures forall i, j :: FoundFor(v, i, j, c, d, BindReadCap) ==>
              && multiset(v.me.found)[(i, j)] == 1
              && forall k, l :: FoundFor(v, k, l, c, d, BindReadCap) ==> k == i && l == j
  {
    FoundForExactly(s, v, c, d, BindReadCap);
    BindsReadCapExactly(c, d);
    hide PaiInv, MeetsThrough, Covers;
    forall i, j | FoundFor(v, i, j, c, d, BindReadCap)
      ensures multiset(v.me.found)[(i, j)] == 1
      ensures forall k, l :: FoundFor(v, k, l, c, d, BindReadCap) ==> k == i && l == j
    {
      FoundExactly(s, v, i, j);
      assert multiset(v.me.found)[(i, j)] > 0;
      forall k, l | FoundFor(v, k, l, c, d, BindReadCap) ensures k == i && l == j {
        FoundForOnce(s, v, c, d, BindReadCap, i, j, k, l);
      }
    }
  }

  // ---------- answering a presented capability ----------

  /** On the other's read capability for its handle's fragment: own capabilities to present in answer. */
  function AnswersTo(infos: seq<LocalFragment>, ours: seq<GroupState>, yours: GroupState): seq<(Capability, nat)>
    requires |infos| == |ours|
  {
    if ours == [] then []
    else
      var n := |ours| - 1;
      AnswersTo(infos[..n], ours[..n], yours)
      + if CompletesWith(ours[n], yours) && infos[n].action.ReplyReadCap? then [(infos[n].cap, n)] else []
  }

  lemma {:induction false} AnswersToMember(infos: seq<LocalFragment>, ours: seq<GroupState>, yours: GroupState, c: Capability, i: nat)
    requires |infos| == |ours|
    ensures (c, i) in AnswersTo(infos, ours, yours)
            <==> i < |ours| && infos[i].cap == c && infos[i].action.ReplyReadCap? && CompletesWith(ours[i], yours)
  {
    hide CompletesWith;
    if ours != [] {
      var n := |ours| - 1;
      AnswersToMember(infos[..n], ours[..n], yours, c, i);
    }
  }

  lemma {:induction false} SettledCompletes(s: Scheme, v: PaiView, i: nat, j: nat)
    requires Settled(s, v) && i < |v.me.fragments| && j < |v.you.fragments|
    ensures |v.me.ours| == |v.me.fragments| && |v.me.theirs| == |v.you.fragments|
    ensures CompletesWith(v.me.ours[i], v.me.theirs[j]) <==> Meet(v.me.fragments[i], v.you.fragments[j])
  {
    assert Binds([]) == [] && Replies([]) == [];
    var k :| OursOk(s, v.me, v.you.scalar, k) && RepliesOk(s, v.me, v.you, v.inn, k);
    assert |v.me.theirs| == |v.you.fragments| && k == |v.me.ours|;
    SharedEqual(s, v.me.fragments[i].fragment, v.you.fragments[j].fragment, v.me.scalar, v.you.scalar);
  }

  /** Once all messages have been delivered: on your capability `d`, presented under handle `j`,
      I answer with my capability `c` exactly when `d` has the properly shorter path. */
  lemma {:induction false} ReadCapAnsweredExactly(s: Scheme, v: PaiView, c: Capability, d: Capability, j: nat)
    requires Settled(s, v) && c in v.me.submitted && d in v.you.submitted
    requires j < |v.you.fragments| && v.you.fragments[j].cap == d && v.you.fragments[j].action == BindReadCap
    ensures |v.me.ours| == |v.me.fragments| && |v.me.theirs| == |v.you.fragments|
    ensures (exists i :: (c, i) in AnswersTo(v.me.fragments, v.me.ours, v.me.theirs[j]))
            <==> d.namespace == c.namespace && d.subspace == c.subspace && d.path < c.path
  {
    SettledSizes(s, v);
    AnswersReadCapExactly(c, d);
    hide PaiInv, Settled, AnswersTo, FragmentsOf;
    if i: nat :| (c, i) in AnswersTo(v.me.fragments, v.me.ours, v.me.theirs[j]) {
      AnswerMeets(s, v, c, d, i, j);
    }
    if AnswersReadCap(c, d) { MeetsIsAnswered(s, v, c, d, j); }
  }

  lemma {:induction false} SettledSizes(s: Scheme, v: PaiView)
    requires Settled(s, v)
    ensures |v.me.ours| == |v.me.fragments| && |v.me.theirs| == |v.you.fragments|
    ensures CapsOk(v.me) && CapsOk(v.you)
  {
    assert Binds([]) == [] && Replies([]) == [];
    var k :| OursOk(s, v.me, v.you.scalar, k) && RepliesOk(s, v.me, v.you, v.inn, k);
  }

  lemma {:induction false} AnswerMeets(s: Scheme, v: PaiView, c: Capability, d: Capability, i: nat, j: nat)
    requires Settled(s, v) && |v.me.ours| == |v.me.fragments| && |v.me.theirs| == |v.you.fragments|
    requires j < |v.you.fragments| && v.you.fragments[j].cap == d && v.you.fragments[j].action == BindReadCap
    requires (c, i) in AnswersTo(v.me.fragments, v.me.ours, v.me.theirs[j])
    ensures AnswersReadCap(c, d)
  {
    SettledSizes(s, v);
    hide PaiInv, Settled, AnswersTo, FragmentsOf, Meet;
    AnswersToMember(v.me.fragments, v.me.ours, v.me.theirs[j], c, i);
    SettledCompletes(s, v, i, j);
    AllFragmentsMember(v.me.submitted, v.me.fragments[i]);
    AllFragmentsMember(v.you.submitted, v.you.fragments[j]);
  }

  lemma {:induction false} MeetsIsAnswered(s: Scheme, v: PaiView, c: Capability, d: Capability, j: nat)
    requires Settled(s, v) && |v.me.ours| == |v.me.fragments| && |v.me.theirs| == |v.you.fragments|
    requires j < |v.you.fragments| && v.you.fragments[j].cap == d && v.you.fragments[j].action == BindReadCap
    requires AnswersReadCap(c, d) && c in v.me.submitted && d in v.you.submitted
    ensures exists i :: (c, i) in AnswersTo(v.me.fragments, v.me.ours, v.me.theirs[j])
  {
    SettledSizes(s, v);
    hide PaiInv, Settled, AnswersTo, FragmentsOf;
    var f, g :| f in FragmentsOf(c) && g in FragmentsOf(d) && f.action == ReplyReadCap && g.action == BindReadCap && Meet(f, g);
    AllFragmentsMember(v.you.submitted, v.you.fragments[j]);
    ActionNamesFragment(d, g, v.you.fragments[j]);
    FragmentShape(c, f);
    FragmentShape(d, g);
    FragmentShape(d, v.you.fragments[j]);
    AllFragmentsMember(v.me.submitted, f);
    var i: nat :| i < |v.me.fragments| && v.me.fragments[i] == f;
    SettledCompletes(s, v, i, j);
    AnswersToMember(v.me.fragments, v.me.ours, v.me.theirs[j], c, i);
    assert (c, i) in AnswersTo(v.me.fragments, v.me.ours, v.me.theirs[j]);
  }
}
