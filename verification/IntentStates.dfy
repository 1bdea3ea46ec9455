/** Intents and their dispatcher in imperative form: interest maps pruned in place. */
module IntentStates {
  import opened Orders
  import opened Entries
  import opened Ranges
  import opened Areas
  import opened Intents
  import opened Dispatching

  class IntentState {
    var interests: Interests
    const live: bool
    var sent: seq<EventKind>

    constructor (interests: Interests, live: bool)
      ensures Value() == IntentInfo(interests, live, [])
    {
      this.interests, this.live, this.sent := interests, live, [];
    }

    function Value(): IntentInfo
      reads this
    {
      IntentInfo(interests, live, sent)
    }

    method Send(e: EventKind)
      modifies this`sent
      ensures sent == old(sent) + [e]
    {
      sent := sent + [e];
    }

    method AnyIntersects(ns: NamespaceId, area: Area) returns (any: bool)
      ensures any <==> MatchesArea(interests, ns, area)
    {
      hide AreaIntersection;
      if ns !in interests { return false; }
      var rest := interests[ns];
      while rest != {}
        invariant rest <= interests[ns]
        invariant forall x :: x in interests[ns] && x !in rest ==> AreaIntersection(x, area).None?
        decreases |rest|
      {
        var x :| x in rest;
        if AreaIntersection(x, area).Some? { return true; }
        rest := rest - {x};
      }
      return false;
    }

    /** Keep only the interests the area does not include. */
    method Retain(ns: NamespaceId, area: Area)
      requires ns in interests
      modifies this`interests
      ensures interests == old(interests)[ns := set x | x in old(interests)[ns] && !AreaIncludesArea(area, x)]
    {
      hide AreaIncludesArea;
      var rest, kept := interests[ns], {};
      while rest != {}
        invariant rest <= interests[ns]
        invariant kept == set x | x in interests[ns] && x !in rest && !AreaIncludesArea(area, x)
        decreases |rest|
      {
        var x :| x in rest;
        if !AreaIncludesArea(area, x) { kept := kept + {x}; }
        rest := rest - {x};
      }
      assert kept == set x | x in interests[ns] && !AreaIncludesArea(area, x);
      interests := interests[ns := kept];
    }

    method CompleteAreaIfMatches(ns: NamespaceId, area: Area) returns (met: bool)
      modifies this`interests
      ensures met <==> MatchesArea(old(interests), ns, area)
      ensures interests == CompleteArea(old(interests), ns, area)
    {
      hide AreaIncludesArea, AreaIntersection;
      met := AnyIntersects(ns, area);
      if met {
        ghost var before := interests;
        Retain(ns, area);
        assert interests[ns] == set x | x in InterestsIn(before, ns) && !AreaIncludesArea(area, x);
        if interests[ns] == {} {
          interests := interests - {ns};
          assert interests == before - {ns};
        }
      }
    }

    method HandleEvent(e: EventKind) returns (complete: bool)
      modifies this
      ensures Value() == Intents.HandleEvent(old(Value()), e) && (complete <==> IsComplete(Value()))
    {
      hide CompleteArea, MatchesArea;
      var concerned;
      match e {
        case CapabilityIntersection(ns, _) => concerned := ns in interests;
        case InterestIntersection(ns, area) => concerned := AnyIntersects(ns, area);
        case Reconciled(ns, area) => concerned := CompleteAreaIfMatches(ns, area);
        case Abort => concerned := true;
        case ReconciledAll => concerned := false;
      }
      if e.Reconciled? && !concerned { assert interests == old(interests) by { Unmatched(old(interests), e.namespace, e.area); } }
      if concerned {
        Send(e);
        if e.Reconciled? && interests == map[] { Send(ReconciledAll); } else { assert sent + [] == sent; }
      }
      complete := interests == map[] && !live;
    }

    method MergeMore(more: Interests)
      modifies this`interests
      ensures interests == MergeInterests(old(interests), more)
    {
      interests := MergeInterests(interests, more);
    }
  }

  lemma {:induction false} Unmatched(s: Interests, ns: NamespaceId, area: Area)
    requires !MatchesArea(s, ns, area)
    ensures CompleteArea(s, ns, area) == s
  {}

  lemma {:induction false} ReplayedLive(i: IntentInfo, areas: seq<(NamespaceId, Area)>)
    ensures Replayed(i, areas).live == i.live
  {
    hide CompleteArea, Concerns;
    if areas != [] { ReplayedLive(i, areas[..|areas| - 1]); }
  }

  /** The intents in `seen` have handled the event. */
  function Handled(intents: map<nat, IntentInfo>, seen: set<nat>, e: EventKind): map<nat, IntentInfo> {
    map id | id in intents :: if id in seen then Intents.HandleEvent(intents[id], e) else intents[id]
  }

  function Completed(intents: map<nat, IntentInfo>, seen: set<nat>): set<nat> {
    set id | id in seen && id in intents && IsComplete(intents[id])
  }

  lemma {:induction false} HandledKeys(intents: map<nat, IntentInfo>, seen: set<nat>, e: EventKind)
    ensures Handled(intents, seen, e).Keys == intents.Keys
  {}

  lemma {:induction false} HandledStep(intents: map<nat, IntentInfo>, seen: set<nat>, id: nat, e: EventKind)
    requires id in intents && id !in seen
    ensures Handled(intents, seen + {id}, e) == Handled(intents, seen, e)[id := Intents.HandleEvent(Handled(intents, seen, e)[id], e)]
  {}

  lemma {:induction false} HandledNone(intents: map<nat, IntentInfo>, e: EventKind)
    ensures Handled(intents, {}, e) == intents && Completed(intents, {}) == {}
  {}

  lemma {:induction false} CompletedStep(intents: map<nat, IntentInfo>, info: IntentInfo, seen: set<nat>, id: nat)
    requires id in intents && id !in seen
    ensures Completed(intents[id := info], seen + {id}) == Completed(intents, seen) + if IsComplete(info) then {id} else {}
  {}

  lemma {:induction false} DropCompleted(d: Dispatcher, e: EventKind)
    ensures var after := Handled(d.intents, d.intents.Keys, e);
            after - Completed(after, after.Keys) == Dispatching.EmitEvent(d, e).intents
  {}

  class IntentDispatcher {
    var intents: map<nat, IntentState>
    var completeAreas: Interests
    var nextIntentId: nat
    ghost var histories: map<nat, History>

    constructor ()
      ensures Valid() && Value() == NewDispatcher
    {
      intents, completeAreas, nextIntentId := map[], map[], 0;
      histories := map[];
    }

    ghost predicate Valid()
      reads this`intents
    {
      forall a, b :: a in intents && b in intents && a != b ==> intents[a] != intents[b]
    }

    ghost function Table(): map<nat, IntentInfo>
      reads this`intents, intents.Values
    {
      map id | id in intents :: intents[id].Value()
    }

    ghost function Value(): Dispatcher
      reads this, intents.Values
    {
      Dispatcher(Table(), completeAreas, nextIntentId, histories)
    }

    /** Replay the areas reconciled so far to a new intent. */
    method ReplayComplete(info: IntentState) returns (ghost areas: seq<(NamespaceId, Area)>)
      modifies info
      ensures Lists(areas, completeAreas)
      ensures info.Value() == Replayed(old(info.Value()), areas)
    {
      hide Intents.HandleEvent;
      areas := [];
      var namespaces := completeAreas.Keys;
      while namespaces != {}
        invariant namespaces <= completeAreas.Keys
        invariant forall ns, a :: (ns, a) in areas <==> ns in completeAreas && ns !in namespaces && a in completeAreas[ns]
        invariant info.Value() == Replayed(old(info.Value()), areas)
        decreases |namespaces|
      {
        var ns :| ns in namespaces;
        var rest := completeAreas[ns];
        while rest != {}
          invariant rest <= completeAreas[ns]
          invariant forall o, a :: (o, a) in areas <==>
                      && o in completeAreas && a in completeAreas[o]
                      && (o !in namespaces || (o == ns && a !in rest))
          invariant info.Value() == Replayed(old(info.Value()), areas)
          decreases |rest|
        {
          var a :| a in rest;
          var complete := info.HandleEvent(Reconciled(ns, a));
          ghost var before := areas;
          areas := areas + [(ns, a)];
          assert areas[..|areas| - 1] == before;
          rest := rest - {a};
        }
        namespaces := namespaces - {ns};
      }
    }

    method NewIntent(interests: Interests, live: bool) returns (info: IntentState, ghost areas: seq<(NamespaceId, Area)>)
      ensures fresh(info) && Lists(areas, completeAreas)
      ensures info.Value() == Replayed(IntentInfo(interests, live, []), areas)
    {
      hide Replayed, Lists;
      info := new IntentState(interests, live);
      areas := ReplayComplete(info);
    }

    method SubmitIntent(interests: Interests, live: bool) returns (ghost areas: seq<(NamespaceId, Area)>)
      requires Valid()
      modifies this
      ensures Valid() && Lists(areas, old(completeAreas))
      ensures Value() == Dispatching.SubmitIntent(old(Value()), interests, live, areas)
    {
      hide Replayed, Lists, Table;
      ghost var before := Table();
      var id := nextIntentId;
      nextIntentId := nextIntentId + 1;
      var info;
      info, areas := NewIntent(interests, live);
      histories := histories[id := History(interests, live, ReconcileOps(areas), info.sent)];
      ReplayedLive(IntentInfo(interests, live, []), areas);
      if info.interests != map[] || live { Insert(id, info); }
    }

    method Insert(id: nat, info: IntentState)
      requires Valid() && info !in intents.Values
      modifies this`intents
      ensures Valid() && Table() == old(Table())[id := info.Value()]
    {
      ghost var before := Table();
      intents := intents[id := info];
      assert Table() == before[id := info.Value()];
    }

    method HandleOne(id: nat, e: EventKind) returns (complete: bool)
      requires Valid() && id in intents
      modifies intents[id]
      ensures Table() == old(Table())[id := Intents.HandleEvent(old(Table())[id], e)]
      ensures complete <==> IsComplete(Table()[id])
    {
      hide Intents.HandleEvent, IsComplete;
      ghost var before := Table();
      complete := intents[id].HandleEvent(e);
      assert Table() == before[id := intents[id].Value()];
    }

    /** Every intent handles the event; the ones it completes are to be cancelled. */
    method HandleAll(e: EventKind) returns (cancelled: set<nat>)
      requires Valid()
      modifies intents.Values
      ensures Table() == Handled(old(Table()), old(Table()).Keys, e)
      ensures cancelled == Completed(Table(), Table().Keys)
    {
      hide Intents.HandleEvent, IsComplete, Table, Handled, Completed, Valid;
      ghost var before := Table();
      HandledNone(before, e);
      var todo := intents.Keys;
      cancelled := {};
      assert Table().Keys == intents.Keys by { TableKeys(); }
      assert before.Keys - todo == {};
      while todo != {}
        invariant todo <= before.Keys == intents.Keys && Valid()
        invariant Table() == Handled(before, before.Keys - todo, e)
        invariant cancelled == Completed(Table(), before.Keys - todo)
        decreases |todo|
      {
        var id :| id in todo;
        ghost var mid, seen := Table(), before.Keys - todo;
        HandledKeys(before, seen, e);
        var complete := HandleOne(id, e);
        HandledStep(before, seen, id, e);
        CompletedStep(mid, Table()[id], seen, id);
        if complete { cancelled := cancelled + {id}; }
        todo := todo - {id};
        assert before.Keys - todo == seen + {id};
      }
      assert before.Keys - todo == before.Keys;
      HandledKeys(before, before.Keys, e);
    }

    lemma TableKeys()
      ensures Table().Keys == intents.Keys
    {}

    method EmitEvent(e: EventKind)
      requires Valid()
      modifies this`intents, this`completeAreas, this`histories, intents.Values
      ensures Valid() && Value() == Dispatching.EmitEvent(old(Value()), e)
    {
      hide Intents.HandleEvent, IsComplete, Handled, Completed, Table;
      ghost var d := Value();
      if e.Reconciled? {
        completeAreas := completeAreas[e.namespace := InterestsIn(completeAreas, e.namespace) + {e.area}];
      }
      histories := AllTold(histories, Table(), e);
      var cancelled := HandleAll(e);
      DropCompleted(old(Value()), e);
      Remove(cancelled);
    }

    method Remove(cancelled: set<nat>)
      requires Valid()
      modifies this`intents
      ensures Valid() && Table() == old(Table()) - cancelled
    {
      ghost var before := Table();
      intents := intents - cancelled;
      assert Table() == before - cancelled;
    }

    method UpdateIntent(id: nat, more: Interests)
      requires Valid()
      modifies this`histories, if id in intents then {intents[id]} else {}
      ensures Valid() && Value() == AddInterests(old(Value()), id, more)
    {
      ghost var before := Table();
      if id in intents {
        intents[id].MergeMore(more);
        histories := Merged(histories, id, more);
        assert Table() == before[id := intents[id].Value()];
      }
    }

    method CancelIntent(id: nat)
      requires Valid()
      modifies this`intents, this`histories
      ensures Valid() && Value() == Dispatching.CancelIntent(old(Value()), id)
    {
      ghost var before := Table();
      intents := intents - {id};
      histories := Cancelled(histories, id);
      assert Table() == before - {id};
    }
  }
}
