/** What the log of a namespace says about its arrivals, and what subscribers make of it. */
module StoreLogs {
  import opened Orders
  import opened Entries
  import opened Ranges
  import opened MemoryStore
  import opened Events
  import opened EntryStores

  // ---------- origins ----------

  /** The ingestions a log reports, with their origins, in order. */
  function Reported(log: seq<StoreEvent>): seq<(Entry, Origin)> {
    if log == [] then []
    else
      var last := log[|log| - 1];
      Reported(log[..|log| - 1]) + if last.Ingested? then [(last.entry, last.origin)] else []
  }

  /** Nothing that arrived before accounts for the arrival. */
  ghost predicate News(arrivals: seq<(Entry, Origin)>, n: nat)
    requires n < |arrivals|
  {
    forall k :: 0 <= k < n ==> !Accounts(arrivals[k].0, arrivals[n].0)
  }

  /** The arrivals that were news when they arrived. */
  ghost function AllNews(arrivals: seq<(Entry, Origin)>): seq<(Entry, Origin)> {
    if arrivals == [] then []
    else
      var n := |arrivals| - 1;
      AllNews(arrivals[..n]) + if News(arrivals, n) then [arrivals[n]] else []
  }

  lemma {:induction false} ReportedConcat(a: seq<StoreEvent>, b: seq<StoreEvent>)
    ensures Reported(a + b) == Reported(a) + Reported(b)
  {
    if b == [] {
      assert a + b == a;
    } else {
      assert (a + b)[..|a + b| - 1] == a + b[..|b| - 1];
      ReportedConcat(a, b[..|b| - 1]);
    }
  }

  lemma {:induction false} NoneReported(log: seq<StoreEvent>)
    requires forall x :: x in log ==> x.Pruned?
    ensures Reported(log) == []
  {
    if log != [] {
      assert log[|log| - 1] in log;
      NoneReported(log[..|log| - 1]);
    }
  }

  lemma {:induction false} IngestReports(entries: seq<Entry>, e: Entry, origin: Origin, nextId: nat)
    ensures Reported(IngestLog(entries, e, origin, nextId)) == if Refused(entries, e) then [] else [(e, origin)]
  {
    hide PruneLog, Refused, Numbered, PrunedBy;
    if !Refused(entries, e) {
      var pruned := PruneLog(entries, e, nextId);
      PruneLogExact(entries, e, nextId);
      NoneReported(pruned);
      var last := Ingested(nextId + |pruned|, e, origin);
      assert [last][..0] == [];
      assert Reported([last]) == [(e, origin)];
      ReportedConcat(pruned, [last]);
    }
  }

  lemma {:induction false} ArrivedAt(arrivals: seq<(Entry, Origin)>, k: nat)
    requires k < |arrivals|
    ensures EntriesIn(arrivals)[k] == arrivals[k].0
  {
    if k < |arrivals| - 1 { ArrivedAt(arrivals[..|arrivals| - 1], k); }
  }

  lemma {:induction false} KnownIsOld(arrivals: seq<(Entry, Origin)>, n: nat)
    requires n < |arrivals|
    ensures Knows(ToSet(EntriesIn(arrivals[..n])), arrivals[n].0) <==> !News(arrivals, n)
  {
    var seen := EntriesIn(arrivals[..n]);
    var e := arrivals[n].0;
    hide Accounts, EntriesIn;
    forall k | 0 <= k < n ensures seen[k] == arrivals[k].0 { ArrivedAt(arrivals[..n], k); }
    if Knows(ToSet(seen), e) {
      var d :| d in ToSet(seen) && Accounts(d, e);
      var k :| 0 <= k < |seen| && seen[k] == d;
    }
    if !News(arrivals, n) {
      var k :| 0 <= k < n && Accounts(arrivals[k].0, e);
      assert seen[k] in ToSet(seen);
    }
  }

  /** What a store has seen it accounts for, and nothing else. */
  lemma {:induction false} RefusedIsOld(arrivals: seq<(Entry, Origin)>, n: nat)
    requires n < |arrivals|
    ensures Refused(IngestAll(EntriesIn(arrivals[..n])), arrivals[n].0) <==> !News(arrivals, n)
  {
    hide *;
    var seen := EntriesIn(arrivals[..n]);
    IngestAllIsMaximal(seen);
    IngestIsJoin(IngestAll(seen), arrivals[n].0);
    KnownToMaximal(ToSet(seen), arrivals[n].0);
    KnownIsOld(arrivals, n);
  }

  lemma {:induction false} KnownToMaximal(s: set<Entry>, e: Entry)
    ensures Knows(Maximal(s), e) <==> Knows(s, e)
  {
    hide Accounts;
    if Knows(s, e) {
      var d :| d in s && Accounts(d, e);
      MaximalKnowsAll(s, d);
      var k :| k in Maximal(s) && Accounts(k, d);
      AccountsTransitive(k, d, e);
    }
  }

  /** The log reports every arrival that was news exactly once, with its own origin, in order of
      arrival, and reports nothing else as ingested. */
  lemma {:induction false} LogReportsNews(arrivals: seq<(Entry, Origin)>, offset: nat)
    ensures Reported(LogOf(arrivals, offset)) == AllNews(arrivals)
  {
    hide IngestLog, IngestAll, News, Refused;
    if arrivals != [] {
      var n := |arrivals| - 1;
      var log := LogOf(arrivals[..n], offset);
      var e, origin := arrivals[n].0, arrivals[n].1;
      LogReportsNews(arrivals[..n], offset);
      IngestReports(IngestAll(EntriesIn(arrivals[..n])), e, origin, offset + |log|);
      RefusedIsOld(arrivals, n);
      ReportedConcat(log, IngestLog(IngestAll(EntriesIn(arrivals[..n])), e, origin, offset + |log|));
      assert arrivals[n] == (e, origin);
    }
  }

  ghost function Victims(entries: seq<Entry>, e: Entry): set<Entry> { set x | x in entries && Dominates(e, x) }

  lemma {:induction false} VictimsSnoc(entries: seq<Entry>, e: Entry)
    requires entries != [] && Distinct(entries)
    ensures var n := |entries| - 1;
            && Victims(entries, e) == Victims(entries[..n], e) + (if Dominates(e, entries[n]) then {entries[n]} else {})
            && entries[n] !in Victims(entries[..n], e) && Distinct(entries[..n])
  {
    hide Dominates;
    var n := |entries| - 1;
    assert entries == entries[..n] + [entries[n]];
  }

  lemma {:induction false} AsManyPrunings(entries: seq<Entry>, e: Entry, nextId: nat)
    requires Distinct(entries)
    ensures |PruneLog(entries, e, nextId)| == |Victims(entries, e)|
  {
    hide Dominates, Victims, Distinct;
    if entries == [] {
      assert Victims(entries, e) == {} by { NoVictims(entries, e); }
    } else {
      var n := |entries| - 1;
      VictimsSnoc(entries, e);
      AsManyPrunings(entries[..n], e, if Dominates(e, entries[n]) then nextId + 1 else nextId);
    }
  }

  lemma {:induction false} NoVictims(entries: seq<Entry>, e: Entry)
    requires entries == []
    ensures Victims(entries, e) == {}
  {}

  /** Every pruned entry is logged once. */
  lemma {:induction false} PrunesOnce(entries: seq<Entry>, e: Entry, nextId: nat)
    requires Distinct(entries)
    ensures var log := PruneLog(entries, e, nextId);
            |log| == |PrunedBy(log)| && PrunedBy(log) == set x | x in entries && Dominates(e, x)
  {
    PruneLogExact(entries, e, nextId);
    AsManyPrunings(entries, e, nextId);
    hide PruneLog, Dominates, PrunedBy;
  }

  // ---------- what a subscriber rebuilds ----------

  /** An ingestion the subscriber wants to hear of. */
  predicate Wanted(p: SubscribeParams, e: Entry, origin: Origin) {
    && (p.ignoreEmptyPayloads ==> e.length > 0)
    && (p.ignoreRemote.Some? ==> origin != Remote(p.ignoreRemote.value))
  }

  ghost predicate PrunedAfter(log: seq<StoreEvent>, i: nat, e: Entry) {
    exists j :: i < j < |log| && log[j].Pruned? && log[j].pruned == e
  }

  /** The entry was ingested in a way the subscriber wants to hear of, and, if it hears of prunings,
      has not been pruned since. */
  ghost predicate Mirrored(log: seq<StoreEvent>, p: SubscribeParams, e: Entry) {
    exists i :: HeardAt(log, p, e, i)
  }

  ghost predicate HeardAt(log: seq<StoreEvent>, p: SubscribeParams, e: Entry, i: int) {
    && 0 <= i < |log| && log[i].Ingested? && log[i].entry == e && Wanted(p, e, log[i].origin)
    && (p.ingestOnly || !PrunedAfter(log, i, e))
  }

  lemma {:induction false} PrunedSnoc(log: seq<StoreEvent>, last: StoreEvent, i: nat, e: Entry)
    requires i < |log|
    ensures PrunedAfter(log + [last], i, e) <==> PrunedAfter(log, i, e) || (last.Pruned? && last.pruned == e)
  {
    var all := log + [last];
    assert all[|log|] == last;
    if PrunedAfter(log, i, e) {
      var j :| i < j < |log| && log[j].Pruned? && log[j].pruned == e;
      assert all[j] == log[j];
    }
    if PrunedAfter(all, i, e) {
      var j :| i < j < |all| && all[j].Pruned? && all[j].pruned == e;
      if j < |log| { assert all[j] == log[j]; }
    }
  }

  lemma {:induction false} HeardSnoc(log: seq<StoreEvent>, last: StoreEvent, p: SubscribeParams, e: Entry, i: int)
    ensures HeardAt(log + [last], p, e, i)
            <==> (HeardAt(log, p, e, i) && !(!p.ingestOnly && last.Pruned? && last.pruned == e))
                 || (i == |log| && last.Ingested? && last.entry == e && Wanted(p, e, last.origin))
  {
    hide PrunedAfter, Wanted;
    if 0 <= i < |log| { PrunedSnoc(log, last, i, e); }
    if i == |log| { NothingAfter(log + [last], i, e); }
  }

  lemma {:induction false} NothingAfter(log: seq<StoreEvent>, i: nat, e: Entry)
    requires i + 1 >= |log|
    ensures !PrunedAfter(log, i, e)
  {}

  lemma {:induction false} MirroredSnoc(log: seq<StoreEvent>, last: StoreEvent, p: SubscribeParams, e: Entry)
    ensures Mirrored(log + [last], p, e)
            <==> (Mirrored(log, p, e) && !(!p.ingestOnly && last.Pruned? && last.pruned == e))
                 || (last.Ingested? && last.entry == e && Wanted(p, e, last.origin))
  {
    hide HeardAt, Wanted;
    forall i ensures HeardAt(log + [last], p, e, i)
            <==> (HeardAt(log, p, e, i) && !(!p.ingestOnly && last.Pruned? && last.pruned == e))
                 || (i == |log| && last.Ingested? && last.entry == e && Wanted(p, e, last.origin))
    {
      HeardSnoc(log, last, p, e, i);
    }
    if last.Ingested? && last.entry == e && Wanted(p, e, last.origin) { assert HeardAt(log + [last], p, e, |log|); }
  }

  /** Whatever a subscriber to an area asks not to hear of, replaying the events it receives leaves
      exactly the entries of the area that were ingested in a way it wants to hear of, without those
      pruned since if it hears of prunings. */
  lemma {:induction false} SubscriberMirror(log: seq<StoreEvent>, ns: NamespaceId, area: Area, p: SubscribeParams, offset: nat, e: Entry)
    requires LogOfNamespace(log, ns)
    ensures e in Replay(Matching(log, offset, offset, offset + |log|, Filter(ns, area, p)))
            <==> AreaIncludesEntry(area, e) && Mirrored(log, p, e)
  {
    var filter := Filter(ns, area, p);
    if log != [] {
      var n := |log| - 1;
      var last := log[n];
      assert last in log && log == log[..n] + [last];
      SubscriberMirror(log[..n], ns, area, p, offset, e);
      MirroredSnoc(log[..n], last, p, e);
      MatchingGrows(log[..n], [last], offset, offset, offset + n, filter);
      var before := Matching(log[..n], offset, offset, offset + n, filter);
      assert Matching(log, offset, offset, offset + |log|, filter) == before + if filter(last) then [last] else [];
      hide AreaIncludesEntry, Matching, Mirrored;
      if filter(last) {
        assert (before + [last])[..|before|] == before;
      } else {
        assert before + [] == before;
      }
    }
  }

  /** A subscriber that ignores one session hears, of the arrivals that were news, exactly of those from
      elsewhere, each once and in order. */
  lemma {:induction false} SessionIgnored(log: seq<StoreEvent>, ns: NamespaceId, area: Area, session: u64, offset: nat)
    requires LogOfNamespace(log, ns)
    ensures Reported(Matching(log, offset, offset, offset + |log|, Filter(ns, area, SubscribeParams(false, Some(session), false))))
            == Elsewhere(Reported(log), area, session)
  {
    var filter := Filter(ns, area, SubscribeParams(false, Some(session), false));
    if log != [] {
      var n := |log| - 1;
      var last := log[n];
      assert last in log && log == log[..n] + [last];
      SessionIgnored(log[..n], ns, area, session, offset);
      MatchingGrows(log[..n], [last], offset, offset, offset + n, filter);
      var before := Matching(log[..n], offset, offset, offset + n, filter);
      assert Matching(log, offset, offset, offset + |log|, filter) == before + if filter(last) then [last] else [];
      ElsewhereSnoc(Reported(log[..n]), if last.Ingested? then [(last.entry, last.origin)] else [], area, session);
      hide AreaIncludesEntry, Matching, Elsewhere;
      if filter(last) {
        assert (before + [last])[..|before|] == before;
      } else {
        assert before + [] == before;
      }
    }
  }

  /** Of some arrivals, those in the area that did not come from the session. */
  function Elsewhere(arrivals: seq<(Entry, Origin)>, area: Area, session: u64): seq<(Entry, Origin)> {
    if arrivals == [] then []
    else
      var n := |arrivals| - 1;
      Elsewhere(arrivals[..n], area, session)
      + if AreaIncludesEntry(area, arrivals[n].0) && arrivals[n].1 != Remote(session) then [arrivals[n]] else []
  }

  lemma {:induction false} ElsewhereSnoc(a: seq<(Entry, Origin)>, b: seq<(Entry, Origin)>, area: Area, session: u64)
    requires |b| <= 1
    ensures Elsewhere(a + b, area, session)
            == Elsewhere(a, area, session)
               + if |b| == 1 && AreaIncludesEntry(area, b[0].0) && b[0].1 != Remote(session) then b else []
  {
    hide AreaIncludesEntry;
    if b == [] {
      assert a + b == a;
    } else {
      assert (a + b)[..|a|] == a;
    }
  }
}
