/** The event queue of a namespace, and subscriptions that poll it. */
module Events {
  import opened Orders
  import opened Entries
  import opened Ranges
  import opened MemoryStore
  import opened Channels

  datatype Origin = Local | Remote(session: u64)

  /** The first field is the event's progress id. */
  datatype StoreEvent = Ingested(id: nat, entry: Entry, origin: Origin) | Pruned(id: nat, pruned: Entry, cause: Entry)

  datatype SubscribeParams = SubscribeParams(ignoreEmptyPayloads: bool, ignoreRemote: Option<u64>, ingestOnly: bool)

  predicate IncludesOrigin(p: SubscribeParams, o: Origin) {
    match (p.ignoreRemote, o)
    case (Some(ignored), Remote(session)) => session != ignored
    case _ => true
  }

  predicate Matches(event: StoreEvent, ns: NamespaceId, area: Area, p: SubscribeParams) {
    match event
    case Ingested(_, e, origin) =>
      && e.namespace == ns && AreaIncludesEntry(area, e)
      && !(p.ignoreEmptyPayloads && e.length == 0) && IncludesOrigin(p, origin)
    case Pruned(_, pruned, _) =>
      !p.ingestOnly && pruned.namespace == ns && AreaIncludesEntry(area, pruned)
  }

  function Filter(ns: NamespaceId, area: Area, p: SubscribeParams): StoreEvent -> bool {
    (e: StoreEvent) => Matches(e, ns, area, p)
  }

  // ---------- the queue ----------

  class EventQueue<T(==)> {
    var events: seq<T>
    const offset: nat

    constructor ()
      ensures events == [] && offset == 0
    {
      events := [];
      offset := 0;
    }

    function NextProgressId(): nat
      reads this
    {
      offset + |events|
    }

    method Insert(f: nat -> T)
      modifies this
      ensures events == old(events) + [f(old(NextProgressId()))]
    {
      events := events + [f(NextProgressId())];
    }

    function Get(progressId: nat): (r: Option<T>)
      reads this
    {
      if progressId < offset || progressId - offset >= |events| then None else Some(events[progressId - offset])
    }

    /** The first matching event at `progressId` or after, with the id to continue from. */
    method PollNext(progressId: nat, filter: T -> bool) returns (r: Poll<Option<(nat, T)>>)
      ensures r == NextEvent(events, offset, progressId, filter)
    {
      if progressId < offset { return Ready(None); }
      var i := progressId;
      while i - offset < |events|
        invariant offset <= i
        invariant NextEvent(events, offset, i, filter) == NextEvent(events, offset, progressId, filter)
      {
        var event := Get(i);
        i := i + 1;
        if filter(event.value) { return Ready(Some((i, event.value))); }
      }
      return Pending;
    }
  }

  /** What polling from `progressId` yields. */
  function NextEvent<T>(events: seq<T>, offset: nat, progressId: nat, filter: T -> bool): Poll<Option<(nat, T)>>
    decreases |events| - (progressId - offset)
  {
    if progressId < offset then Ready(None)
    else if progressId - offset >= |events| then Pending
    else
      var event := events[progressId - offset];
      if filter(event) then Ready(Some((progressId + 1, event)))
      else NextEvent(events, offset, progressId + 1, filter)
  }

  // ---------- subscriptions ----------

  /** The events from id `start` up to but excluding id `end` that pass the filter, in order. */
  function Matching<T>(events: seq<T>, offset: nat, start: nat, end: nat, filter: T -> bool): seq<T>
    requires offset <= start && (end <= start || end - offset <= |events|)
    decreases end
  {
    if end <= start then []
    else
      var event := events[end - 1 - offset];
      Matching(events, offset, start, end - 1, filter) + if filter(event) then [event] else []
  }

  ghost predicate NoneMatch<T>(events: seq<T>, filter: T -> bool) {
    forall i :: 0 <= i < |events| ==> !filter(events[i])
  }

  lemma {:induction false} NothingMatches<T>(events: seq<T>, offset: nat, start: nat, pos: nat, end: nat, filter: T -> bool)
    requires offset <= start <= pos <= end && end - offset <= |events|
    requires NoneMatch(events[pos - offset..end - offset], filter)
    ensures Matching(events, offset, start, end, filter) == Matching(events, offset, start, pos, filter)
    decreases end
  {
    if pos < end {
      var run := events[pos - offset..end - offset];
      assert events[end - 1 - offset] == run[|run| - 1];
      assert events[pos - offset..end - 1 - offset] == run[..|run| - 1];
      NothingMatches(events, offset, start, pos, end - 1, filter);
    }
  }

  lemma {:induction false} PollSkipsOnlyMisses<T>(events: seq<T>, offset: nat, pos: nat, filter: T -> bool)
    requires offset <= pos
    ensures var r := NextEvent(events, offset, pos, filter);
            match r
            case Pending => pos - offset <= |events| ==> NoneMatch(events[pos - offset..], filter)
            case Ready(None) => false
            case Ready(Some((next, event))) =>
              && pos < next <= offset + |events| && event == events[next - 1 - offset] && filter(event)
              && NoneMatch(events[pos - offset..next - 1 - offset], filter)
    decreases |events| - (pos - offset)
  {
    if pos - offset < |events| && !filter(events[pos - offset]) {
      PollSkipsOnlyMisses(events, offset, pos + 1, filter);
      match NextEvent(events, offset, pos + 1, filter) {
        case Pending => assert events[pos - offset..] == [events[pos - offset]] + events[pos + 1 - offset..];
        case Ready(Some((next, _))) =>
          assert events[pos - offset..next - 1 - offset] == [events[pos - offset]] + events[pos + 1 - offset..next - 1 - offset];
      }
    }
  }

  lemma {:induction false} MatchingGrows<T>(events: seq<T>, more: seq<T>, offset: nat, start: nat, end: nat, filter: T -> bool)
    requires offset <= start && (end <= start || end - offset <= |events|)
    ensures Matching(events + more, offset, start, end, filter) == Matching(events, offset, start, end, filter)
    decreases end
  {
    if start < end { MatchingGrows(events, more, offset, start, end - 1, filter); }
  }

  /** A subscription in use: the queue's events, the position it continues from, and what it
      has received since it started at `start`. */
  datatype Subscription<T> = Subscription(offset: nat, start: nat, events: seq<T>, position: nat, received: seq<T>)

  datatype SubscriptionStep<T> = Append(event: T) | PollOnce

  function SubscriptionAfter<T>(s: Subscription<T>, filter: T -> bool, step: SubscriptionStep<T>): Subscription<T> {
    match step
    case Append(event) => s.(events := s.events + [event])
    case PollOnce =>
      match NextEvent(s.events, s.offset, s.position, filter)
      case Ready(Some((next, event))) => s.(position := next, received := s.received + [event])
      case _ => s
  }

  function SubscriptionRun<T>(s: Subscription<T>, filter: T -> bool, steps: seq<SubscriptionStep<T>>): Subscription<T> {
    if steps == [] then s
    else SubscriptionAfter(SubscriptionRun(s, filter, steps[..|steps| - 1]), filter, steps[|steps| - 1])
  }

  /** Received so far: exactly the matching events between start and position. */
  ghost predicate Gapless<T>(s: Subscription<T>, filter: T -> bool) {
    && s.offset <= s.start <= s.position
    && (s.start < s.position ==> s.position - s.offset <= |s.events|)
    && s.received == Matching(s.events, s.offset, s.start, s.position, filter)
  }

  lemma {:induction false} SubscriptionStepGapless<T>(s: Subscription<T>, filter: T -> bool, step: SubscriptionStep<T>)
    requires Gapless(s, filter)
    ensures Gapless(SubscriptionAfter(s, filter, step), filter)
  {
    match step {
      case Append(event) => MatchingGrows(s.events, [event], s.offset, s.start, s.position, filter);
      case PollOnce =>
        PollSkipsOnlyMisses(s.events, s.offset, s.position, filter);
        match NextEvent(s.events, s.offset, s.position, filter) {
          case Ready(Some((next, event))) =>
            NothingMatches(s.events, s.offset, s.start, s.position, next - 1, filter);
          case _ =>
        }
    }
  }

  /** Under every interleaving of inserts and polls a subscriber has received exactly the
      matching events from where it started up to its position, in order and without gaps; and
      when a poll finds nothing, that is everything there is. */
  lemma {:induction false} SubscriberReceivesAll<T>(s0: Subscription<T>, filter: T -> bool, steps: seq<SubscriptionStep<T>>)
    requires s0.offset <= s0.start == s0.position && s0.received == []
    ensures var s := SubscriptionRun(s0, filter, steps);
            && Gapless(s, filter) && s.start == s0.start && s.offset == s0.offset
            && (NextEvent(s.events, s.offset, s.position, filter) == Pending && s.start <= s.offset + |s.events|
                ==> s.received == Matching(s.events, s.offset, s.start, s.offset + |s.events|, filter))
  {
    if steps != [] {
      var n := |steps| - 1;
      SubscriberReceivesAll(s0, filter, steps[..n]);
      SubscriptionStepGapless(SubscriptionRun(s0, filter, steps[..n]), filter, steps[n]);
    }
    var s := SubscriptionRun(s0, filter, steps);
    CaughtUp(s, filter);
  }

  lemma {:induction false} CaughtUp<T>(s: Subscription<T>, filter: T -> bool)
    requires Gapless(s, filter)
    ensures NextEvent(s.events, s.offset, s.position, filter) == Pending && s.start <= s.offset + |s.events|
            ==> s.received == Matching(s.events, s.offset, s.start, s.offset + |s.events|, filter)
  {
    if NextEvent(s.events, s.offset, s.position, filter) == Pending && s.start <= s.offset + |s.events| {
      PollSkipsOnlyMisses(s.events, s.offset, s.position, filter);
      if s.position - s.offset <= |s.events| {
        assert s.events[s.position - s.offset..|s.events|] == s.events[s.position - s.offset..];
        NothingMatches(s.events, s.offset, s.start, s.position, s.offset + |s.events|, filter);
      }
    }
  }

  /** A subscription to an area of a namespace. */
  class EventStream {
    var progressId: nat
    const queue: EventQueue<StoreEvent>
    const namespace: NamespaceId
    const area: Area
    const params: SubscribeParams

    constructor (queue: EventQueue<StoreEvent>, progressId: nat, namespace: NamespaceId, area: Area, params: SubscribeParams)
      ensures this.queue == queue && this.progressId == progressId
      ensures this.namespace == namespace && this.area == area && this.params == params
    {
      this.progressId := progressId;
      this.queue := queue;
      this.namespace := namespace;
      this.area := area;
      this.params := params;
    }

    method PollNext() returns (r: Poll<Option<StoreEvent>>)
      modifies this
      ensures var polled := NextEvent(queue.events, queue.offset, old(progressId), Filter(namespace, area, params));
              match polled
              case Pending => r == Pending && progressId == old(progressId)
              case Ready(None) => r == Ready(None) && progressId == old(progressId)
              case Ready(Some((next, event))) => r == Ready(Some(event)) && progressId == next
    {
      var polled := queue.PollNext(progressId, Filter(namespace, area, params));
      match polled {
        case Pending => r := Pending;
        case Ready(None) => r := Ready(None);
        case Ready(Some((next, event))) =>
          progressId := next;
          r := Ready(Some(event));
      }
    }
  }
}
