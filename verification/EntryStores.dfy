/** The in-memory store in its imperative form: one vector of entries and one event queue per
    namespace, and the log they keep. */
module EntryStores {
  import opened Orders
  import opened Entries
  import opened Ranges
  import opened MemoryStore
  import opened Fingerprints
  import opened Splitting
  import opened Replicas
  import opened Events

  // ---------- what ingestion logs ----------

  /** The pruned entries, from the back of the vector to its front. */
  function PruneLog(entries: seq<Entry>, e: Entry, nextId: nat): seq<StoreEvent> {
    if entries == [] then []
    else
      var n := |entries| - 1;
      if Dominates(e, entries[n]) then [Pruned(nextId, entries[n], e)] + PruneLog(entries[..n], e, nextId + 1)
      else PruneLog(entries[..n], e, nextId)
  }

  function IngestLog(entries: seq<Entry>, e: Entry, origin: Origin, nextId: nat): seq<StoreEvent> {
    if Refused(entries, e) then []
    else
      var pruned := PruneLog(entries, e, nextId);
      pruned + [Ingested(nextId + |pruned|, e, origin)]
  }

  /** Rebuilding the stored entries from a log. */
  ghost function Replay(log: seq<StoreEvent>): set<Entry> {
    if log == [] then {}
    else
      var before := Replay(log[..|log| - 1]);
      match log[|log| - 1]
      case Ingested(_, e, _) => before + {e}
      case Pruned(_, e, _) => before - {e}
  }

  ghost predicate Numbered(log: seq<StoreEvent>, first: nat) {
    forall i :: 0 <= i < |log| ==> log[i].id == first + i
  }

  ghost function PrunedBy(log: seq<StoreEvent>): set<Entry> {
    set x | x in log && x.Pruned? :: x.pruned
  }

  lemma {:induction false} PruneLogExact(entries: seq<Entry>, e: Entry, nextId: nat)
    ensures var log := PruneLog(entries, e, nextId);
            && Numbered(log, nextId)
            && (forall x :: x in log ==> x.Pruned? && x.cause == e)
            && PrunedBy(log) == set x | x in entries && Dominates(e, x)
  {
    if entries != [] {
      var n := |entries| - 1;
      assert entries == entries[..n] + [entries[n]];
      PruneLogExact(entries[..n], e, if Dominates(e, entries[n]) then nextId + 1 else nextId);
      hide Dominates;
      if Dominates(e, entries[n]) {
        var rest := PruneLog(entries[..n], e, nextId + 1);
        var log := PruneLog(entries, e, nextId);
        assert log == [Pruned(nextId, entries[n], e)] + rest;
        assert PrunedBy(log) == {entries[n]} + PrunedBy(rest) by {
          assert forall x :: x in log <==> x == log[0] || x in rest;
        }
      }
    }
  }

  lemma {:induction false} ReplayPrunes(log: seq<StoreEvent>, pruned: seq<StoreEvent>)
    requires forall x :: x in pruned ==> x.Pruned?
    ensures Replay(log + pruned) == Replay(log) - PrunedBy(pruned)
  {
    if pruned == [] {
      assert log + pruned == log;
    } else {
      var n := |pruned| - 1;
      assert pruned == pruned[..n] + [pruned[n]];
      assert (log + pruned)[..|log + pruned| - 1] == log + pruned[..n];
      ReplayPrunes(log, pruned[..n]);
      assert PrunedBy(pruned) == PrunedBy(pruned[..n]) + {pruned[n].pruned};
    }
  }

  lemma {:induction false} ReplayLast(log: seq<StoreEvent>, last: StoreEvent)
    requires last.Ingested?
    ensures Replay(log + [last]) == Replay(log) + {last.entry}
  {}

  lemma {:induction false} NumberedConcat(a: seq<StoreEvent>, b: seq<StoreEvent>, first: nat)
    requires Numbered(a, first) && Numbered(b, first + |a|)
    ensures Numbered(a + b, first)
  {}

  lemma {:induction false} SurvivorsSet(entries: seq<Entry>, e: Entry)
    ensures ToSet(Survivors(entries, e) + [e]) == (ToSet(entries) - set x | x in entries && Dominates(e, x)) + {e}
  {
    SurvivorsMembers(entries, e);
    hide Dominates, Survivors;
  }

  /** One ingestion keeps the log an exact account of the stored entries. */
  lemma {:induction false} IngestKeepsReplay(entries: seq<Entry>, log: seq<StoreEvent>, e: Entry, origin: Origin, offset: nat)
    requires Replay(log) == ToSet(entries) && Numbered(log, offset)
    ensures var after := log + IngestLog(entries, e, origin, offset + |log|);
            Replay(after) == ToSet(Ingest(entries, e)) && Numbered(after, offset)
  {
    hide PruneLog, Survivors, Dominates, Refused, Replay, Numbered, ToSet, PrunedBy;
    if Refused(entries, e) {
      assert log + [] == log;
    } else {
      var pruned := PruneLog(entries, e, offset + |log|);
      PruneLogExact(entries, e, offset + |log|);
      ReplayPrunes(log, pruned);
      SurvivorsSet(entries, e);
      var last := Ingested(offset + |log| + |pruned|, e, origin);
      ReplayLast(log + pruned, last);
      assert log + IngestLog(entries, e, origin, offset + |log|) == (log + pruned) + [last];
      NumberedConcat(log, pruned, offset);
      assert Numbered([last], offset + |log + pruned|) by { SingleNumbered(last); }
      NumberedConcat(log + pruned, [last], offset);
    }
  }

  lemma {:induction false} SingleNumbered(event: StoreEvent)
    ensures Numbered([event], event.id)
  {}

  /** The whole log of a namespace that ingested the arrivals, with their origins, in order. */
  function LogOf(arrivals: seq<(Entry, Origin)>, offset: nat): seq<StoreEvent> {
    if arrivals == [] then []
    else
      var n := |arrivals| - 1;
      var log := LogOf(arrivals[..n], offset);
      log + IngestLog(IngestAll(EntriesIn(arrivals[..n])), arrivals[n].0, arrivals[n].1, offset + |log|)
  }

  function EntriesIn(arrivals: seq<(Entry, Origin)>): (r: seq<Entry>)
    ensures |r| == |arrivals|
  {
    if arrivals == [] then [] else EntriesIn(arrivals[..|arrivals| - 1]) + [arrivals[|arrivals| - 1].0]
  }

  /** Replaying the whole log of a namespace rebuilds exactly its stored entries, and progress
      ids count the events. */
  lemma {:induction false} LogReplaysStore(arrivals: seq<(Entry, Origin)>, offset: nat)
    ensures Replay(LogOf(arrivals, offset)) == ToSet(IngestAll(EntriesIn(arrivals)))
    ensures Numbered(LogOf(arrivals, offset), offset)
  {
    hide IngestLog, Ingest, Numbered, Maximal, Distinct, Replay, ToSet;
    if arrivals == [] {
      EmptyLog(offset);
    } else {
      var n := |arrivals| - 1;
      var before := EntriesIn(arrivals[..n]);
      LogReplaysStore(arrivals[..n], offset);
      IngestAllIsMaximal(before);
      IngestKeepsReplay(IngestAll(before), LogOf(arrivals[..n], offset), arrivals[n].0, arrivals[n].1, offset);
      assert EntriesIn(arrivals)[..n] == before;
    }
  }

  // ---------- mirroring an area ----------

  /** What a subscriber that ignores nothing asks for. */
  const Everything: SubscribeParams := SubscribeParams(false, None, false)

  ghost predicate LogOfNamespace(log: seq<StoreEvent>, ns: NamespaceId) {
    forall x :: x in log ==> (if x.Ingested? then x.entry else x.pruned).namespace == ns
  }

  /** Replaying the events a subscriber to an area has received rebuilds exactly the stored
      entries of that area. */
  lemma {:induction false} AreaMirror(log: seq<StoreEvent>, ns: NamespaceId, area: Area, offset: nat)
    requires LogOfNamespace(log, ns)
    ensures Replay(Matching(log, offset, offset, offset + |log|, Filter(ns, area, Everything)))
            == set e | e in Replay(log) && AreaIncludesEntry(area, e)
  {
    var filter := Filter(ns, area, Everything);
    if log != [] {
      var n := |log| - 1;
      var last := log[n];
      assert last in log && log == log[..n] + [last];
      AreaMirror(log[..n], ns, area, offset);
      MatchingGrows(log[..n], [last], offset, offset, offset + n, filter);
      var before := Matching(log[..n], offset, offset, offset + n, filter);
      assert Matching(log, offset, offset, offset + |log|, filter) == before + if filter(last) then [last] else [];
      hide AreaIncludesEntry, Matching;
      if filter(last) {
        assert (before + [last])[..|before|] == before;
      } else {
        assert before + [] == before;
      }
    }
  }

  lemma {:induction false} EmptyLog(offset: nat)
    ensures Replay([]) == ToSet([]) && Numbered([], offset)
  {}

  lemma {:induction false} EmptyNamespaceSound(store: Replica, ns: NamespaceId)
    requires Sound(store)
    ensures Sound(store[ns := []])
  {}

  lemma {:induction false} SetTwice(store: Replica, ns: NamespaceId, x: seq<Entry>, y: seq<Entry>)
    ensures store[ns := x][ns := y] == store[ns := y]
  {}

  lemma {:induction false} SoundNamespace(store: Replica, ns: NamespaceId)
    requires Sound(store)
    ensures forall x :: x in EntriesOf(store, ns) ==> x.namespace == ns
  {}

  // ---------- one namespace ----------

  class NamespaceStore {
    var entries: seq<Entry>
    const events: EventQueue<StoreEvent>

    constructor ()
      ensures entries == [] && events.events == [] && events.offset == 0 && fresh(events)
    {
      entries := [];
      events := new EventQueue();
    }

    /** The scan over the stored entries: whether the new one is refused, and otherwise the
        positions it prunes. */
    method Scan(e: Entry) returns (refused: bool, toPrune: seq<nat>)
      requires forall x :: x in entries ==> x.namespace == e.namespace
      ensures refused <==> Refused(entries, e)
      ensures !refused ==> toPrune == Doomed(entries, e)
    {
      toPrune := [];
      var i := 0;
      while i < |entries|
        invariant 0 <= i <= |entries|
        invariant forall k :: 0 <= k < i ==> !Accounts(entries[k], e)
        invariant toPrune == Doomed(entries[..i], e)
      {
        var existing := entries[i];
        assert existing in entries;
        if existing == e { return true, toPrune; }
        if existing.subspace == e.subspace && existing.path <= e.path && NewerThan(existing, e) {
          return true, toPrune;
        }
        assert entries[..i + 1][..i] == entries[..i];
        if e.subspace == existing.subspace && e.path <= existing.path && NewerThan(e, existing) {
          toPrune := toPrune + [i];
        }
        i := i + 1;
      }
      assert entries[..|entries|] == entries;
      refused := false;
    }

    /** Removal from the back, so that the collected positions stay valid; src/store/memory.rs
        removes from the front. */
    method Prune(e: Entry, toPrune: seq<nat>)
      requires toPrune == Doomed(entries, e)
      modifies this`entries, events
      ensures entries == Survivors(old(entries), e)
      ensures events.events == old(events.events) + PruneLog(old(entries), e, old(events.NextProgressId()))
    {
      hide Doomed, Survivors, PruneLog, Dominates;
      ghost var before, logged := entries, events.events;
      var k := |toPrune|;
      ghost var done: nat := |entries|;
      PruneStart(before, e);
      assert toPrune[..k] == toPrune;
      while k > 0
        invariant 0 <= k <= |toPrune| && done <= |before|
        invariant toPrune[..k] == Doomed(before[..done], e)
        invariant entries == before[..done] + Survivors(before[done..], e)
        invariant events.events + PruneLog(before[..done], e, events.NextProgressId())
                  == logged + PruneLog(before, e, events.offset + |logged|)
      {
        PruneStep(before, done, e, events.NextProgressId());
        k := k - 1;
        var i := toPrune[k];
        assert toPrune[..k + 1][..k] == toPrune[..k] && toPrune[..k + 1][k] == i;
        var pruned := entries[i];
        assert pruned == before[i];
        entries := RemoveAt(entries, i);
        ghost var rest := PruneLog(before[..i], e, events.NextProgressId() + 1);
        assert events.events + ([Pruned(events.NextProgressId(), pruned, e)] + rest)
               == (events.events + [Pruned(events.NextProgressId(), pruned, e)]) + rest;
        events.Insert((id: nat) => Pruned(id, pruned, e));
        done := i;
      }
      NoneDoomed(before, done, e);
      PruneLogNone(before[..done], e, events.NextProgressId());
    }

    method IngestEntry(e: Entry, origin: Origin) returns (ingested: bool)
      requires forall x :: x in entries ==> x.namespace == e.namespace
      modifies this`entries, events
      ensures ingested <==> !Refused(old(entries), e)
      ensures entries == Ingest(old(entries), e)
      ensures events.events == old(events.events) + IngestLog(old(entries), e, origin, old(events.NextProgressId()))
    {
      var refused, toPrune := Scan(e);
      if refused { return false; }
      Prune(e, toPrune);
      entries := entries + [e];
      events.Insert((id: nat) => Ingested(id, e, origin));
      return true;
    }
  }

  lemma {:induction false} PruneStart(before: seq<Entry>, e: Entry)
    ensures before[..|before|] == before && before == before[..|before|] + Survivors(before[|before|..], e)
  {}

  /** Removing the last doomed entry below `done`. */
  lemma {:induction false} PruneStep(before: seq<Entry>, done: nat, e: Entry, nextId: nat)
    requires done <= |before| && Doomed(before[..done], e) != []
    ensures var d := Doomed(before[..done], e);
            var i := d[|d| - 1];
            && i < done && Doomed(before[..i], e) == d[..|d| - 1]
            && RemoveAt(before[..done] + Survivors(before[done..], e), i) == before[..i] + Survivors(before[i..], e)
            && PruneLog(before[..done], e, nextId) == [Pruned(nextId, before[i], e)] + PruneLog(before[..i], e, nextId + 1)
  {
    hide Doomed, Survivors, PruneLog, Dominates;
    LastDoomed(before, done, e);
    var d := Doomed(before[..done], e);
    SurvivorsTail(before, d[|d| - 1], done, e);
    PruneLogSkips(before, d[|d| - 1], done, e, nextId);
  }

  /** The last of the doomed positions below `done`. */
  lemma {:induction false} LastDoomed(entries: seq<Entry>, done: nat, e: Entry)
    requires done <= |entries| && Doomed(entries[..done], e) != []
    ensures var d := Doomed(entries[..done], e);
            var i := d[|d| - 1];
            && i < done && Dominates(e, entries[i])
            && Doomed(entries[..i], e) == d[..|d| - 1]
            && forall k :: i < k < done ==> !Dominates(e, entries[k])
  {
    assert entries[..done][..done - 1] == entries[..done - 1];
    if !Dominates(e, entries[done - 1]) { LastDoomed(entries, done - 1, e); }
  }

  lemma {:induction false} CutAround(s: seq<Entry>, i: nat, done: nat)
    requires i < done <= |s|
    ensures s[..done] == s[..i] + [s[i]] + s[i + 1..done]
    ensures s[i..] == [s[i]] + s[i + 1..done] + s[done..]
  {}

  lemma {:induction false} NoneDoomedBetween(before: seq<Entry>, lo: nat, hi: nat, e: Entry)
    requires lo <= hi <= |before|
    requires forall k :: lo <= k < hi ==> !Dominates(e, before[k])
    ensures Survivors(before[lo..hi], e) == before[lo..hi]
  {
    hide Survivors, Dominates;
    var mid := before[lo..hi];
    forall k | 0 <= k < |mid| ensures !Dominates(e, mid[k]) { assert mid[k] == before[lo + k]; }
    SurvivorsAll(mid, e);
  }

  lemma {:induction false} SurvivorsOne(x: Entry, mid: seq<Entry>, rest: seq<Entry>, e: Entry)
    requires Dominates(e, x) && Survivors(mid, e) == mid
    ensures Survivors([x] + mid + rest, e) == mid + Survivors(rest, e)
  {
    assert Survivors([x], e) == [];
    hide Survivors, Dominates;
    SurvivorsConcat([x] + mid, rest, e);
    SurvivorsConcat([x], mid, e);
    assert [] + mid == mid;
  }

  lemma {:induction false} SurvivorsTail(before: seq<Entry>, i: nat, done: nat, e: Entry)
    requires i < done <= |before| && Dominates(e, before[i])
    requires forall k :: i < k < done ==> !Dominates(e, before[k])
    ensures RemoveAt(before[..done] + Survivors(before[done..], e), i) == before[..i] + Survivors(before[i..], e)
  {
    hide Survivors, Dominates, RemoveAt;
    NoneDoomedBetween(before, i + 1, done, e);
    CutAround(before, i, done);
    var front, x, mid, rest := before[..i], before[i], before[i + 1..done], before[done..];
    SurvivorsOne(x, mid, rest, e);
    RemoveMiddle(front, x, mid, Survivors(rest, e));
  }

  lemma {:induction false} RemoveMiddle(front: seq<Entry>, x: Entry, mid: seq<Entry>, rest: seq<Entry>)
    ensures RemoveAt(front + [x] + mid + rest, |front|) == front + (mid + rest)
  {}

  lemma {:induction false} PruneLogSkips(before: seq<Entry>, i: nat, done: nat, e: Entry, nextId: nat)
    requires i < done <= |before| && Dominates(e, before[i])
    requires forall k :: i < k < done ==> !Dominates(e, before[k])
    ensures PruneLog(before[..done], e, nextId) == [Pruned(nextId, before[i], e)] + PruneLog(before[..i], e, nextId + 1)
    decreases done
  {
    assert before[..done][..done - 1] == before[..done - 1];
    if i < done - 1 { PruneLogSkips(before, i, done - 1, e, nextId); }
  }

  lemma {:induction false} NoneDoomed(before: seq<Entry>, done: nat, e: Entry)
    requires done <= |before| && Doomed(before[..done], e) == []
    ensures before[..done] + Survivors(before[done..], e) == Survivors(before, e)
    ensures forall x :: x in before[..done] ==> !Dominates(e, x)
  {
    DoomedExact(before[..done], e);
    SurvivorsAll(before[..done], e);
    SurvivorsConcat(before[..done], before[done..], e);
    assert before == before[..done] + before[done..];
  }

  lemma {:induction false} PruneLogNone(entries: seq<Entry>, e: Entry, nextId: nat)
    requires forall x :: x in entries ==> !Dominates(e, x)
    ensures PruneLog(entries, e, nextId) == []
  {
    if entries != [] { PruneLogNone(entries[..|entries| - 1], e, nextId); }
  }

  // ---------- the whole store ----------

  class EntryStore {
    var stores: map<NamespaceId, NamespaceStore>

    ghost predicate Valid()
      reads this, stores.Values, set s | s in stores.Values :: s.events
    {
      Separate() && Sound(Contents()) && forall ns :: ns in stores ==> stores[ns].events.offset == 0
    }

    /** No two namespaces share entries or events. */
    ghost predicate Separate()
      reads this, stores.Values
    {
      forall a, b :: a in stores && b in stores && a != b ==>
        stores[a] != stores[b] && stores[a].events != stores[b].events
    }

    ghost function Footprint(): set<object>
      reads this, stores.Values
    {
      {this} + stores.Values + set s | s in stores.Values :: s.events
    }

    function Contents(): Replica
      reads this, stores.Values
    {
      map ns | ns in stores :: stores[ns].entries
    }

    /** The log of a namespace. */
    ghost function Log(ns: NamespaceId): seq<StoreEvent>
      reads this, stores.Values, set s | s in stores.Values :: s.events
    {
      if ns in stores then stores[ns].events.events else []
    }

    constructor ()
      ensures Valid() && Contents() == map[] && fresh(Footprint())
    {
      stores := map[];
    }

    method AddNamespace(ns: NamespaceId) returns (s: NamespaceStore)
      requires Valid() && ns !in stores
      modifies this
      ensures Valid() && stores == old(stores)[ns := s] && fresh(s) && fresh(s.events)
      ensures Contents() == old(Contents())[ns := []] && s.events.events == []
    {
      hide Sound;
      EmptyNamespaceSound(Contents(), ns);
      s := new NamespaceStore();
      stores := stores[ns := s];
      assert Contents() == old(Contents())[ns := []];
    }

    method Open(ns: NamespaceId) returns (s: NamespaceStore)
      requires Valid()
      modifies this
      ensures Valid() && ns in stores && stores[ns] == s
      ensures fresh(Footprint() - old(Footprint()))
      ensures forall o :: o in old(stores) ==> o in stores && stores[o] == old(stores[o])
      ensures s.entries == EntriesOf(old(Contents()), ns)
      ensures Contents() == if ns in old(stores) then old(Contents()) else old(Contents())[ns := []]
      ensures forall o :: Log(o) == old(Log(o))
    {
      hide Sound, Valid;
      if ns in stores {
        s := stores[ns];
      } else {
        s := AddNamespace(ns);
        assert Contents()[ns] == s.entries;
      }
    }

    method IngestEntry(e: Entry, origin: Origin) returns (ingested: bool)
      requires Valid()
      modifies Footprint()
      ensures Valid() && fresh(Footprint() - old(Footprint()))
      ensures ingested <==> !Refused(EntriesOf(old(Contents()), e.namespace), e)
      ensures Contents() == IngestAt(old(Contents()), e)
      ensures Log(e.namespace) == old(Log(e.namespace))
              + IngestLog(EntriesOf(old(Contents()), e.namespace), e, origin, |old(Log(e.namespace))|)
      ensures forall ns :: ns != e.namespace ==> Log(ns) == old(Log(ns))
    {
      hide Sound, Ingest, Refused, IngestLog;
      ghost var before, log := Contents(), Log(e.namespace);
      var s := Open(e.namespace);
      ghost var own := s.entries;
      assert own == EntriesOf(before, e.namespace);
      SetTwice(before, e.namespace, [], Ingest(own, e));
      assert Contents()[e.namespace := Ingest(own, e)] == before[e.namespace := Ingest(own, e)];
      ingested := IngestInto(s, e, origin);
    }

    method IngestInto(s: NamespaceStore, e: Entry, origin: Origin) returns (ingested: bool)
      requires Valid() && e.namespace in stores && stores[e.namespace] == s
      modifies s, s.events
      ensures Valid()
      ensures ingested <==> !Refused(old(s.entries), e)
      ensures Contents() == old(Contents())[e.namespace := Ingest(old(s.entries), e)]
      ensures Log(e.namespace) == old(Log(e.namespace)) + IngestLog(old(s.entries), e, origin, |old(Log(e.namespace))|)
      ensures forall ns :: ns != e.namespace ==> Log(ns) == old(Log(ns))
    {
      hide Sound, Ingest, Refused, IngestLog;
      ghost var before := Contents();
      assert before[e.namespace] == s.entries;
      IngestAtSound(before, e);
      SoundNamespace(before, e.namespace);
      ingested := s.IngestEntry(e, origin);
      assert Contents() == before[e.namespace := s.entries];
    }

    /** The stored entries of a namespace in a range. */
    method GetEntries(ns: NamespaceId, r: Range3d) returns (found: seq<Entry>)
      requires Valid()
      ensures found == Query(Contents(), ns, r)
    {
      found := [];
      if ns in stores {
        var all := stores[ns].entries;
        for i := 0 to |all|
          invariant found == Select(all[..i], r)
        {
          assert all[..i + 1][..i] == all[..i];
          if IncludesEntry(r, all[i]) { found := found + [all[i]]; }
        }
        assert all[..|all|] == all;
      }
    }

    method Fingerprint(lift: Lift, ns: NamespaceId, r: Range3d) returns (f: Fingerprint)
      requires Valid()
      ensures f == FingerprintOf(lift, Query(Contents(), ns, r))
    {
      var entries := GetEntries(ns, r);
      f := FromEntries(lift, entries);
    }

    method Count(ns: NamespaceId, r: Range3d) returns (n: nat)
      requires Valid()
      ensures n == |Query(Contents(), ns, r)|
    {
      var entries := GetEntries(ns, r);
      n := |entries|;
    }

    /** Split a range at the median entry, by subspace, path or time, and fingerprint the parts. */
    method SplitRange(lift: Lift, ns: NamespaceId, r: Range3d, maxSetSize: nat) returns (parts: seq<RangeSplit>)
      requires Valid()
      ensures parts == Splitting.SplitRange(lift, EntriesOf(Contents(), ns), r, maxSetSize)
    {
      hide Valid, Contents, FingerprintOf, Select, SortByKey;
      var count := Count(ns, r);
      if count <= maxSetSize { return [RangeSplit(r, SendEntries(count))]; }
      var entries := GetEntries(ns, r);
      var sorted := SortByKey(entries);
      SortByKeySorts(entries);
      assert |sorted| == |multiset(sorted)| == |entries|;
      var mid := sorted[count / 2];
      assert mid == Median(entries);
      var ranges := [];
      if mid.subspace != r.subspaces.start {
        ranges := ranges + [r.(subspaces := Range(r.subspaces.start, Closed(mid.subspace)))];
        ranges := ranges + [r.(subspaces := Range(mid.subspace, r.subspaces.end))];
      } else if mid.path != r.paths.start {
        ranges := ranges + [r.(paths := Range(r.paths.start, Closed(mid.path)))];
        ranges := ranges + [r.(paths := Range(mid.path, r.paths.end))];
      } else {
        ranges := ranges + [r.(times := Range(r.times.start, Closed(mid.timestamp)))];
        ranges := ranges + [r.(times := Range(mid.timestamp, r.times.end))];
      }
      assert ranges == [LowerHalf(r, mid), UpperHalf(r, mid)];
      parts := FingerprintParts(lift, ns, ranges);
    }

    method FingerprintParts(lift: Lift, ns: NamespaceId, ranges: seq<Range3d>) returns (parts: seq<RangeSplit>)
      requires Valid()
      ensures |parts| == |ranges|
      ensures forall k :: 0 <= k < |parts| ==> parts[k] == Part(lift, EntriesOf(Contents(), ns), ranges[k])
    {
      hide Valid, Contents, FingerprintOf, Select;
      parts := [];
      for i := 0 to |ranges|
        invariant |parts| == i
        invariant forall k :: 0 <= k < i ==> parts[k] == Part(lift, EntriesOf(Contents(), ns), ranges[k])
      {
        var f := Fingerprint(lift, ns, ranges[i]);
        parts := parts + [RangeSplit(ranges[i], SendFingerprint(f))];
      }
    }
  }
}
