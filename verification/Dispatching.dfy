/** The intent dispatcher: many intents, and the areas reconciled so far. */
module Dispatching {
  import opened Orders
  import opened Entries
  import opened Ranges
  import opened Areas
  import opened Intents

  /** What an intent was submitted with, everything that has happened since, in order (the areas
      reconciled, before it came and after, the other events, the interests added to it, and its
      being closed), and what its handle has been sent. */
  datatype History = History(original: Interests, live: bool, ops: seq<IntentOp>, sent: seq<EventKind>)

  datatype Dispatcher = Dispatcher(
    intents: map<nat, IntentInfo>,
    complete: Interests,
    nextId: nat,
    histories: map<nat, History>)

  const NewDispatcher: Dispatcher := Dispatcher(map[], map[], 0, map[])

  /** Replay already reconciled areas to a new intent, one after another. */
  function Replayed(i: IntentInfo, areas: seq<(NamespaceId, Area)>): IntentInfo {
    if areas == [] then i
    else
      var n := |areas| - 1;
      HandleEvent(Replayed(i, areas[..n]), Reconciled(areas[n].0, areas[n].1))
  }

  /** `areas` lists the reconciled areas, in whatever order. */
  ghost predicate Lists(areas: seq<(NamespaceId, Area)>, complete: Interests) {
    forall ns, a :: (ns, a) in areas <==> a in InterestsIn(complete, ns)
  }

  function ReconcileOps(areas: seq<(NamespaceId, Area)>): seq<IntentOp> {
    seq(|areas|, i requires 0 <= i < |areas| => Reconcile(areas[i].0, areas[i].1))
  }

  /** A new intent is registered unless the areas reconciled so far already complete it. */
  function SubmitIntent(d: Dispatcher, interests: Interests, live: bool, areas: seq<(NamespaceId, Area)>): Dispatcher {
    var info := Replayed(IntentInfo(interests, live, []), areas);
    d.(nextId := d.nextId + 1,
       histories := d.histories[d.nextId := History(interests, live, ReconcileOps(areas), info.sent)],
       intents := if IsComplete(info) then d.intents else d.intents[d.nextId := info])
  }

  function AddComplete(complete: Interests, e: EventKind): Interests {
    if e.Reconciled? then complete[e.namespace := InterestsIn(complete, e.namespace) + {e.area}] else complete
  }

  /** A registered intent's handle is sent what the intent makes of the event. */
  function Told(h: History, intents: map<nat, IntentInfo>, id: nat, e: EventKind): History {
    h.(ops := h.ops + [OpOf(e)], sent := if id in intents then HandleEvent(intents[id], e).sent else h.sent)
  }

  function AllTold(histories: map<nat, History>, intents: map<nat, IntentInfo>, e: EventKind): map<nat, History> {
    map id | id in histories :: Told(histories[id], intents, id, e)
  }

  /** Every intent handles the event; the ones it completes are dropped. */
  function EmitEvent(d: Dispatcher, e: EventKind): Dispatcher {
    d.(complete := AddComplete(d.complete, e),
       histories := AllTold(d.histories, d.intents, e),
       intents := map id | id in d.intents && !IsComplete(HandleEvent(d.intents[id], e)) :: HandleEvent(d.intents[id], e))
  }

  function Merged(histories: map<nat, History>, id: nat, more: Interests): map<nat, History> {
    if id in histories then histories[id := histories[id].(ops := histories[id].ops + [Merge(more)])] else histories
  }

  /** Interests for an intent that is gone are refused. */
  function AddInterests(d: Dispatcher, id: nat, more: Interests): Dispatcher {
    if id !in d.intents then d
    else
      var info := d.intents[id];
      d.(intents := d.intents[id := info.(interests := MergeInterests(info.interests, more))],
         histories := Merged(d.histories, id, more))
  }

  function Cancelled(histories: map<nat, History>, id: nat): map<nat, History> {
    if id in histories then histories[id := histories[id].(ops := histories[id].ops + [Close])] else histories
  }

  function CancelIntent(d: Dispatcher, id: nat): Dispatcher {
    d.(intents := d.intents - {id}, histories := Cancelled(d.histories, id))
  }

  // ---------- the invariant ----------

  function RemainingOf(h: History): Interests { IntentRun(h.original, h.ops) }

  ghost predicate Listed(ops: seq<IntentOp>, complete: Interests) {
    forall ns, a :: Reconcile(ns, a) in ops <==> a in InterestsIn(complete, ns)
  }

  /** An intent's history lists exactly the areas reconciled so far; it is registered unless it was
      closed, or nothing remains and it is not live; its interests are what its history leaves, and its
      handle has been sent exactly the news. */
  ghost predicate IntentOk(d: Dispatcher, id: nat)
    requires id in d.histories
  {
    var h := d.histories[id];
    && Listed(h.ops, d.complete)
    && (id in d.intents <==> Close !in h.ops && (h.live || RemainingOf(h) != map[]))
    && (id in d.intents ==>
          d.intents[id].live == h.live && d.intents[id].interests == RemainingOf(h) && d.intents[id].sent == h.sent)
    && (GoodHistory(h) ==> h.sent == AllNews(h.original, h.live, h.ops))
  }

  /** Interests with a time in them, in no empty set. */
  ghost predicate GoodHistory(h: History) { GoodStart(h.original, h.ops) }

  ghost predicate DispatcherOk(d: Dispatcher) {
    && (forall id: nat :: id in d.histories <==> id < d.nextId)
    && (forall id :: id in d.intents ==> id in d.histories)
    && (forall id :: id in d.histories ==> IntentOk(d, id))
  }

  lemma {:induction false} HandleReconciled(i: IntentInfo, ns: NamespaceId, a: Area)
    ensures var after := HandleEvent(i, Reconciled(ns, a));
            after.interests == CompleteArea(i.interests, ns, a) && after.live == i.live
  {}

  lemma {:induction false} HandleOther(i: IntentInfo, e: EventKind)
    requires !e.Reconciled?
    ensures HandleEvent(i, e).interests == i.interests && HandleEvent(i, e).live == i.live
  {}

  lemma {:induction false} RunSnoc(s: Interests, ops: seq<IntentOp>, op: IntentOp)
    ensures IntentRun(s, ops + [op]) == IntentStep(IntentRun(s, ops), op)
  {
    RunLater(s, ops, op);
  }

  lemma {:induction false} GoodBefore(s: Interests, ops: seq<IntentOp>, op: IntentOp)
    requires GoodStart(s, ops + [op])
    ensures GoodStart(s, ops)
  {
    hide NoEmptySet, AllInhabited;
    forall i | 0 <= i < |ops| && ops[i].Merge? ensures NoEmptySet(ops[i].more) && AllInhabited(ops[i].more) {
      assert (ops + [op])[i] == ops[i];
    }
  }

  /** Replaying the reconciled areas is running the intent's history. */
  lemma {:induction false} ReplayedIsRun(i: IntentInfo, areas: seq<(NamespaceId, Area)>)
    ensures Replayed(i, areas).interests == IntentRun(i.interests, ReconcileOps(areas))
    ensures Replayed(i, areas).live == i.live
  {
    hide CompleteArea, HandleEvent;
    if areas != [] {
      var n := |areas| - 1;
      ReplayedIsRun(i, areas[..n]);
      HandleReconciled(Replayed(i, areas[..n]), areas[n].0, areas[n].1);
      assert ReconcileOps(areas) == ReconcileOps(areas[..n]) + [Reconcile(areas[n].0, areas[n].1)];
      RunSnoc(i.interests, ReconcileOps(areas[..n]), Reconcile(areas[n].0, areas[n].1));
    }
  }

  lemma {:induction false} ReplayedTells(i: IntentInfo, areas: seq<(NamespaceId, Area)>)
    requires GoodStart(i.interests, ReconcileOps(areas)) && i.sent == []
    ensures Replayed(i, areas).sent == AllNews(i.interests, i.live, ReconcileOps(areas))
  {
    hide CompleteArea, HandleEvent, GoodStart, News, IntentRun;
    if areas != [] {
      var n := |areas| - 1;
      var ops, e := ReconcileOps(areas[..n]), Reconciled(areas[n].0, areas[n].1);
      assert ReconcileOps(areas) == ops + [OpOf(e)];
      GoodBefore(i.interests, ops, OpOf(e));
      ReplayedTells(i, areas[..n]);
      ReplayedIsRun(i, areas[..n]);
      assert Close !in ops;
      HandleTellsNews(Replayed(i, areas[..n]), i.interests, i.live, ops, e);
      AllNewsSnoc(i.interests, i.live, ops, OpOf(e));
    }
  }

  lemma {:induction false} ReconcileMembers(areas: seq<(NamespaceId, Area)>, ns: NamespaceId, a: Area)
    ensures Reconcile(ns, a) in ReconcileOps(areas) <==> (ns, a) in areas
  {
    if (ns, a) in areas {
      var i :| 0 <= i < |areas| && areas[i] == (ns, a);
      assert ReconcileOps(areas)[i] == Reconcile(ns, a);
    }
    if Reconcile(ns, a) in ReconcileOps(areas) {
      var i :| 0 <= i < |areas| && ReconcileOps(areas)[i] == Reconcile(ns, a);
      assert areas[i] == (ns, a);
    }
  }

  lemma {:induction false} SubmitKeeps(d: Dispatcher, interests: Interests, live: bool, areas: seq<(NamespaceId, Area)>)
    requires DispatcherOk(d) && Lists(areas, d.complete)
    ensures DispatcherOk(SubmitIntent(d, interests, live, areas))
  {
    hide Replayed, ReconcileOps, IntentRun, AllNews, GoodStart;
    var i := IntentInfo(interests, live, []);
    var e := SubmitIntent(d, interests, live, areas);
    ReplayedIsRun(i, areas);
    if GoodStart(interests, ReconcileOps(areas)) { ReplayedTells(i, areas); }
    forall ns, a ensures Reconcile(ns, a) in ReconcileOps(areas) <==> a in InterestsIn(d.complete, ns) { ReconcileMembers(areas, ns, a); }
    assert Close !in ReconcileOps(areas) by { ReconcilesOnly(areas); }
    hide Lists, InterestsIn, Listed;
    assert Listed(ReconcileOps(areas), d.complete) by { assert Lists(areas, d.complete); ListsListed(areas, d.complete); }
    assert IntentOk(e, d.nextId);
    forall id | id in d.histories ensures IntentOk(e, id) { assert IntentOk(d, id); }
  }

  lemma {:induction false} ReconcilesOnly(areas: seq<(NamespaceId, Area)>)
    ensures forall op :: op in ReconcileOps(areas) ==> op.Reconcile?
  {}

  lemma {:induction false} ListsListed(areas: seq<(NamespaceId, Area)>, complete: Interests)
    requires Lists(areas, complete)
    ensures Listed(ReconcileOps(areas), complete)
  {
    hide ReconcileOps, InterestsIn;
    forall ns, a ensures Reconcile(ns, a) in ReconcileOps(areas) <==> a in InterestsIn(complete, ns) { ReconcileMembers(areas, ns, a); }
  }

  lemma {:induction false} ListedSnoc(ops: seq<IntentOp>, op: IntentOp, complete: Interests)
    requires Listed(ops, complete)
    ensures op.Reconcile? ==> Listed(ops + [op], AddComplete(complete, Reconciled(op.namespace, op.area)))
    ensures !op.Reconcile? ==> Listed(ops + [op], complete)
  {
    forall ns, a ensures Reconcile(ns, a) in ops + [op] <==> Reconcile(ns, a) in ops || op == Reconcile(ns, a) {}
  }

  lemma {:induction false} NothingDropped(ns: NamespaceId, area: Area)
    ensures CompleteArea(map[], ns, area) == map[]
  {}

  lemma {:induction false} EmitListed(ops: seq<IntentOp>, complete: Interests, e: EventKind)
    requires Listed(ops, complete)
    ensures Listed(ops + [OpOf(e)], AddComplete(complete, e))
  {
    hide Listed, InterestsIn, AddComplete;
    ListedSnoc(ops, OpOf(e), complete);
    if e.Reconciled? {
      assert e == Reconciled(e.namespace, e.area);
    } else {
      AddOther(complete, e);
    }
  }

  lemma {:induction false} EmitInterests(i: IntentInfo, s: Interests, ops: seq<IntentOp>, e: EventKind)
    ensures i.interests == IntentRun(s, ops) ==> HandleEvent(i, e).interests == IntentRun(s, ops + [OpOf(e)])
    ensures HandleEvent(i, e).live == i.live
    ensures IntentRun(s, ops) == map[] ==> IntentRun(s, ops + [OpOf(e)]) == map[]
  {
    hide HandleEvent, IntentRun, CompleteArea;
    RunSnoc(s, ops, OpOf(e));
    if e.Reconciled? {
      HandleReconciled(i, e.namespace, e.area);
      NothingDropped(e.namespace, e.area);
      assert e == Reconciled(e.namespace, e.area);
    } else {
      HandleOther(i, e);
    }
  }

  /** A closed intent, and one with nothing left that is not live, is told nothing. */
  lemma {:induction false} GoneHearsNothing(s: Interests, live: bool, ops: seq<IntentOp>, op: IntentOp)
    requires GoodStart(s, ops) && (Close in ops || (!live && IntentRun(s, ops) == map[]))
    ensures News(s, live, ops, op) == []
  {
    RemainingRead(s, ops);
    hide IntentRun, Remains, GoodStart, AreaIntersection;
  }

  lemma {:induction false} EmitTells(h: History, intents: map<nat, IntentInfo>, id: nat, e: EventKind)
    requires GoodStart(h.original, h.ops + [OpOf(e)])
    requires GoodHistory(h) ==> h.sent == AllNews(h.original, h.live, h.ops)
    requires id in intents <==> Close !in h.ops && (h.live || RemainingOf(h) != map[])
    requires id in intents ==> intents[id].live == h.live && intents[id].interests == RemainingOf(h) && intents[id].sent == h.sent
    ensures Told(h, intents, id, e).sent == AllNews(h.original, h.live, h.ops + [OpOf(e)])
  {
    hide HandleEvent, News, GoodStart, IntentRun, AllNews;
    GoodBefore(h.original, h.ops, OpOf(e));
    AllNewsSnoc(h.original, h.live, h.ops, OpOf(e));
    if id in intents {
      HandleTellsNews(intents[id], h.original, h.live, h.ops, e);
    } else {
      GoneHearsNothing(h.original, h.live, h.ops, OpOf(e));
      assert h.sent + [] == h.sent;
    }
  }

  lemma {:induction false} EmitKeepsIntent(d: Dispatcher, e: EventKind, id: nat)
    requires id in d.histories && IntentOk(d, id)
    ensures IntentOk(EmitEvent(d, e), id)
  {
    hide AddComplete, HandleEvent, IntentRun, Listed, GoodStart, AllNews;
    var h := d.histories[id];
    EmitListed(h.ops, d.complete, e);
    if id in d.intents { EmitInterests(d.intents[id], h.original, h.ops, e); }
    EmitInterests(IntentInfo(map[], false, []), h.original, h.ops, e);
    if GoodStart(h.original, h.ops + [OpOf(e)]) { EmitTells(h, d.intents, id, e); }
    assert Close in h.ops + [OpOf(e)] <==> Close in h.ops;
  }

  lemma {:induction false} AddOther(complete: Interests, e: EventKind)
    requires !e.Reconciled?
    ensures AddComplete(complete, e) == complete
  {}

  lemma {:induction false} EmitKeeps(d: Dispatcher, e: EventKind)
    requires DispatcherOk(d)
    ensures DispatcherOk(EmitEvent(d, e))
  {
    hide IntentOk, HandleEvent, AddComplete, Told;
    forall id | id in d.histories ensures IntentOk(EmitEvent(d, e), id) { EmitKeepsIntent(d, e, id); }
  }

  lemma {:induction false} MergedNonempty(s: Interests, more: Interests)
    requires s != map[]
    ensures MergeInterests(s, more) != map[]
  {
    var ns :| ns in s;
    assert ns in MergeInterests(s, more);
  }

  lemma {:induction false} NoNews(s: Interests, live: bool, ops: seq<IntentOp>, op: IntentOp)
    requires op.Merge? || op.Close?
    ensures AllNews(s, live, ops + [op]) == AllNews(s, live, ops)
  {
    hide AllNews;
    AllNewsSnoc(s, live, ops, op);
    assert AllNews(s, live, ops) + [] == AllNews(s, live, ops);
  }

  lemma {:induction false} MergedIsOk(d: Dispatcher, id: nat, more: Interests)
    requires id in d.intents && id in d.histories && IntentOk(d, id)
    ensures IntentOk(AddInterests(d, id, more), id)
  {
    hide IntentRun, MergeInterests, Listed, GoodStart, AllNews;
    var h := d.histories[id];
    RunSnoc(h.original, h.ops, Merge(more));
    ListedSnoc(h.ops, Merge(more), d.complete);
    NoNews(h.original, h.live, h.ops, Merge(more));
    if RemainingOf(h) != map[] { MergedNonempty(RemainingOf(h), more); }
    if GoodStart(h.original, h.ops + [Merge(more)]) { GoodBefore(h.original, h.ops, Merge(more)); }
    assert Close in h.ops + [Merge(more)] <==> Close in h.ops;
  }

  lemma {:induction false} OtherIsOk(d: Dispatcher, e: Dispatcher, id: nat)
    requires id in d.histories && IntentOk(d, id) && e.complete == d.complete
    requires id in e.histories && e.histories[id] == d.histories[id]
    requires id in e.intents <==> id in d.intents
    requires id in e.intents ==> e.intents[id] == d.intents[id]
    ensures IntentOk(e, id)
  {
    hide Listed, RemainingOf, GoodHistory, AllNews;
  }

  lemma {:induction false} AddKeeps(d: Dispatcher, id: nat, more: Interests)
    requires DispatcherOk(d) && id in d.intents
    ensures DispatcherOk(AddInterests(d, id, more))
  {
    hide IntentOk, MergeInterests;
    var e := AddInterests(d, id, more);
    MergedIsOk(d, id, more);
    forall o | o in d.histories && o != id ensures IntentOk(e, o) { OtherIsOk(d, e, o); }
  }

  lemma {:induction false} ClosedIsOk(d: Dispatcher, id: nat)
    requires id in d.histories && IntentOk(d, id)
    ensures IntentOk(CancelIntent(d, id), id)
  {
    hide IntentRun, Listed, GoodStart, AllNews;
    var h := d.histories[id];
    ListedSnoc(h.ops, Close, d.complete);
    NoNews(h.original, h.live, h.ops, Close);
    if GoodStart(h.original, h.ops + [Close]) { GoodBefore(h.original, h.ops, Close); }
    assert (h.ops + [Close])[|h.ops|] == Close;
  }

  lemma {:induction false} CancelKeeps(d: Dispatcher, id: nat)
    requires DispatcherOk(d)
    ensures DispatcherOk(CancelIntent(d, id))
  {
    hide IntentOk;
    var e := CancelIntent(d, id);
    if id in d.histories { ClosedIsOk(d, id); }
    forall o | o in d.histories && o != id ensures IntentOk(e, o) { OtherIsOk(d, e, o); }
  }

  // ---------- whole histories ----------

  datatype DispatcherOp =
    | SubmitOp(interests: Interests, live: bool, areas: seq<(NamespaceId, Area)>)
    | EmitOp(event: EventKind)
    | AddOp(id: nat, more: Interests)
    | CancelOp(id: nat)

  function DispatcherStep(d: Dispatcher, op: DispatcherOp): Dispatcher {
    match op
    case SubmitOp(interests, live, areas) => SubmitIntent(d, interests, live, areas)
    case EmitOp(e) => EmitEvent(d, e)
    case AddOp(id, more) => AddInterests(d, id, more)
    case CancelOp(id) => CancelIntent(d, id)
  }

  /** A new intent is replayed the areas reconciled so far. */
  ghost predicate GoodOp(d: Dispatcher, op: DispatcherOp) {
    op.SubmitOp? ==> Lists(op.areas, d.complete)
  }

  function DispatcherRun(ops: seq<DispatcherOp>): Dispatcher {
    if ops == [] then NewDispatcher else DispatcherStep(DispatcherRun(ops[..|ops| - 1]), ops[|ops| - 1])
  }

  lemma {:induction false} DispatcherRunOk(ops: seq<DispatcherOp>)
    requires forall i :: 0 <= i < |ops| ==> GoodOp(DispatcherRun(ops[..i]), ops[i])
    ensures DispatcherOk(DispatcherRun(ops))
  {
    if ops != [] {
      var n := |ops| - 1;
      forall i | 0 <= i < n ensures GoodOp(DispatcherRun(ops[..n][..i]), ops[..n][i]) { assert ops[..n][..i] == ops[..i]; }
      DispatcherRunOk(ops[..n]);
      var d := DispatcherRun(ops[..n]);
      assert GoodOp(d, ops[n]);
      assert DispatcherRun(ops) == DispatcherStep(d, ops[n]);
      hide DispatcherRun;
      StepKeeps(d, ops[n]);
    }
  }

  lemma {:induction false} StepKeeps(d: Dispatcher, op: DispatcherOp)
    requires DispatcherOk(d) && GoodOp(d, op)
    ensures DispatcherOk(DispatcherStep(d, op))
  {
    hide DispatcherOk, SubmitIntent, EmitEvent;
    match op {
      case SubmitOp(interests, live, areas) => SubmitKeeps(d, interests, live, areas);
      case EmitOp(e) => EmitKeeps(d, e);
      case AddOp(id, more) => if id in d.intents { AddKeeps(d, id, more); }
      case CancelOp(id) => CancelKeeps(d, id);
    }
  }

  /** The intent is interested in exactly what its history leaves: what it came with and no area
      reconciled before or since includes, and what was added later and no area reconciled after
      that includes. It is dropped exactly when it was closed, or nothing remains and it is not live. */
  ghost predicate ExactlyRemains(d: Dispatcher, id: nat)
    requires id in d.histories
  {
    var h := d.histories[id];
    && (id in d.intents ==>
          forall ns, x :: x in InterestsIn(d.intents[id].interests, ns) <==> Remains(h.original, h.ops, ns, x))
    && (id !in d.intents <==> Close in h.ops || (!h.live && forall ns, x :: !Remains(h.original, h.ops, ns, x)))
  }

  /** Its handle has been sent exactly the news of its history, in order, each at its time. */
  ghost predicate ToldExactly(h: History) { h.sent == AllNews(h.original, h.live, h.ops) }

  /** In every history of submissions, events, updates and cancellations, of every intent. */
  lemma {:induction false} DispatcherExact(ops: seq<DispatcherOp>, id: nat)
    requires forall i :: 0 <= i < |ops| ==> GoodOp(DispatcherRun(ops[..i]), ops[i])
    ensures var d := DispatcherRun(ops);
            && (id in d.histories <==> id < d.nextId)
            && (id in d.histories && GoodHistory(d.histories[id]) ==> ExactlyRemains(d, id) && ToldExactly(d.histories[id]))
            && (id in d.histories ==>
                  forall ns, a :: Reconcile(ns, a) in d.histories[id].ops <==> a in InterestsIn(d.complete, ns))
  {
    DispatcherRunOk(ops);
    var d := DispatcherRun(ops);
    hide DispatcherRun, GoodOp;
    if id in d.histories && GoodHistory(d.histories[id]) {
      assert IntentOk(d, id);
      RemainsExactly(d, id);
    }
  }

  lemma {:induction false} RemainsExactly(d: Dispatcher, id: nat)
    requires id in d.histories && IntentOk(d, id) && GoodHistory(d.histories[id])
    ensures ExactlyRemains(d, id)
  {
    var h := d.histories[id];
    hide IntentRun, Remains, InterestsIn, AllInhabited, GoodOps;
    forall ns, x ensures x in InterestsIn(RemainingOf(h), ns) <==> Remains(h.original, h.ops, ns, x) {
      RemainingExact(h.original, h.ops, ns, x);
    }
    RemainingExact(h.original, h.ops, [], Area(AnySubspace, [], Range(0, Open)));
    EmptyExactly(RemainingOf(h));
  }

  lemma {:induction false} EmptyExactly(s: Interests)
    requires NoEmptySet(s)
    ensures s == map[] <==> forall ns, x :: x !in InterestsIn(s, ns)
  {
    if s != map[] {
      var ns :| ns in s;
      var x :| x in s[ns];
      assert x in InterestsIn(s, ns);
    }
  }

  // ---------- intents without updates ----------

  /** No single area reconciled so far includes the interest. */
  ghost predicate Uncovered(complete: Interests, ns: NamespaceId, x: Area) {
    forall a :: a in InterestsIn(complete, ns) ==> !AreaIncludesArea(a, x)
  }

  /** Of an intent that was never updated, exactly the interests remain that no reconciled area
      includes, whether that was reconciled before the intent came or after. */
  lemma {:induction false} WithoutUpdates(d: Dispatcher, id: nat, ns: NamespaceId, x: Area)
    requires DispatcherOk(d) && id in d.histories && forall op :: op in d.histories[id].ops ==> !op.Merge?
    ensures Remains(d.histories[id].original, d.histories[id].ops, ns, x)
            <==> x in InterestsIn(d.histories[id].original, ns) && Uncovered(d.complete, ns, x)
  {
    assert IntentOk(d, id);
    var h := d.histories[id];
    hide AreaIncludesArea, InterestsIn, IntentRun;
    forall k ensures !AddedAt(h.ops, k, ns, x) {
      if 0 <= k < |h.ops| { assert h.ops[k] in h.ops; }
    }
    KeptIsUncovered(h.ops, d.complete, ns, x);
  }

  lemma {:induction false} KeptIsUncovered(ops: seq<IntentOp>, complete: Interests, ns: NamespaceId, x: Area)
    requires forall o, a :: Reconcile(o, a) in ops <==> a in InterestsIn(complete, o)
    ensures KeptBy(ops, ns, x) <==> Uncovered(complete, ns, x)
  {
    hide AreaIncludesArea, InterestsIn;
    if KeptBy(ops, ns, x) {
      forall a | a in InterestsIn(complete, ns) ensures !AreaIncludesArea(a, x) {
        var i :| 0 <= i < |ops| && ops[i] == Reconcile(ns, a);
        assert !Drops(ops[i], ns, x);
      }
    } else {
      var i :| 0 <= i < |ops| && Drops(ops[i], ns, x);
      assert ops[i] == Reconcile(ns, ops[i].area) && ops[i] in ops;
    }
  }

  /** An interest added later is not compared with areas reconciled before. */
  lemma {:induction false} LateInterestRemains() returns (d: Dispatcher, more: Interests, x: Area)
    ensures DispatcherOk(d) && 0 in d.intents && x in InterestsIn(more, [])
    ensures exists a :: a in InterestsIn(d.complete, []) && AreaIncludesArea(a, x)
    ensures x in InterestsIn(AddInterests(d, 0, more).intents[0].interests, [])
  {
    x := Area(AnySubspace, [], Range(0, Open));
    var d1 := EmitEvent(NewDispatcher, Reconciled([], x));
    EmitKeeps(NewDispatcher, Reconciled([], x));
    assert InterestsIn(d1.complete, []) == {x};
    var areas := [([], x)];
    forall ns, a ensures (ns, a) in areas <==> a in InterestsIn(d1.complete, ns) {}
    var empty: Interests := map[];
    SubmitKeeps(d1, empty, true, areas);
    d := SubmitIntent(d1, empty, true, areas);
    more := map[[] := {x}];
    assert IntentOk(d, 0);
    assert x in InterestsIn(d.complete, []) && AreaIncludesArea(x, x);
  }
}
