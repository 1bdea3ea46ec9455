/** A peer's store across namespaces, as the reconciler sees it. */
module Replicas {
  import opened Orders
  import opened Entries
  import opened Ranges
  import opened MemoryStore
  import opened Splitting

  type Replica = map<NamespaceId, seq<Entry>>

  function EntriesOf(store: Replica, ns: NamespaceId): seq<Entry> {
    if ns in store then store[ns] else []
  }

  function Query(store: Replica, ns: NamespaceId, r: Range3d): seq<Entry> {
    Select(EntriesOf(store, ns), r)
  }

  function IngestAt(store: Replica, e: Entry): Replica {
    store[e.namespace := Ingest(EntriesOf(store, e.namespace), e)]
  }

  /** What ingestion establishes and keeps: entries filed under their namespace, no
      repetition, nothing pruned by anything else. */
  ghost predicate Sound(store: Replica) {
    forall ns :: ns in store ==>
      && Distinct(store[ns])
      && Undominated(ToSet(store[ns]))
      && forall e :: e in store[ns] ==> e.namespace == ns
  }

  ghost predicate Holds(store: Replica, e: Entry) {
    e in EntriesOf(store, e.namespace)
  }

  ghost function All(store: Replica): set<Entry> {
    set ns, e | ns in store && e in store[ns] :: e
  }

  lemma {:induction false} AllExact(store: Replica, e: Entry)
    requires Sound(store)
    ensures e in All(store) <==> Holds(store, e)
  {}

  lemma {:induction false} AllUndominated(store: Replica)
    requires Sound(store)
    ensures Undominated(All(store))
  {}

  lemma {:induction false} KnowsInNamespace(store: Replica, e: Entry)
    requires Sound(store)
    ensures Knows(All(store), e) <==> Knows(ToSet(EntriesOf(store, e.namespace)), e)
  {}

  lemma {:induction false} IngestAtSound(store: Replica, e: Entry)
    requires Sound(store)
    ensures Sound(IngestAt(store, e))
  {
    var own := EntriesOf(store, e.namespace);
    IngestIsJoin(own, e);
    JoinUndominated(ToSet(own), e);
    forall x | x in Ingest(own, e) ensures x.namespace == e.namespace {
      assert x in ToSet(Ingest(own, e));
    }
  }

  /** Ingestion into the store is set-level ingestion of the store's contents. */
  lemma {:induction false} IngestAtIsJoin(store: Replica, e: Entry)
    requires Sound(store)
    ensures All(IngestAt(store, e)) == Join(All(store), e)
  {
    var own := EntriesOf(store, e.namespace);
    IngestIsJoin(own, e);
    IngestAtSound(store, e);
    KnowsInNamespace(store, e);
    var after := IngestAt(store, e);
    hide Sound, Knows, Ingest;
    forall x ensures x in All(after) <==> x in Join(All(store), e) {
      IngestAtMember(store, e, x);
    }
  }

  lemma {:induction false} IngestAtMember(store: Replica, e: Entry, x: Entry)
    requires Sound(store)
    ensures x in All(IngestAt(store, e)) <==> x in Join(All(store), e)
  {
    var own := EntriesOf(store, e.namespace);
    IngestIsJoin(own, e);
    IngestAtSound(store, e);
    KnowsInNamespace(store, e);
    var after := IngestAt(store, e);
    AllExact(store, x);
    AllExact(after, x);
    if x.namespace == e.namespace {
      assert Holds(after, x) <==> x in ToSet(Ingest(own, e));
    } else {
      assert !Dominates(e, x);
    }
  }

  /** A query returns exactly the stored entries of the namespace in the range, each once. */
  lemma {:induction false} QueryExact(store: Replica, ns: NamespaceId, r: Range3d)
    requires Sound(store)
    ensures Distinct(Query(store, ns, r))
    ensures forall e :: e in Query(store, ns, r) <==> e in All(store) && e.namespace == ns && IncludesEntry(r, e)
  {
    SelectMembers(EntriesOf(store, ns), r);
    SelectDistinct(EntriesOf(store, ns), r);
    forall e ensures e in Query(store, ns, r) <==> e in All(store) && e.namespace == ns && IncludesEntry(r, e) {
      AllExact(store, e);
    }
  }
}
