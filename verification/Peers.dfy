/** One peer's reconciler in its imperative form: the target map, the entry state and the inbox
    are updated in place by every message. */
module Peers {
  import opened Orders
  import opened Entries
  import opened Ranges
  import opened Fingerprints
  import opened MemoryStore
  import opened Replicas
  import opened Wire
  import opened Reconciler
  import opened Events
  import opened EntryStores
  import opened Targets
  import opened Session
  import opened Protocol

  // ---------- waiting for a target ----------

  /** Intersections are taken up one by one until the target exists. */
  function StartUntil(lift: Lift, p: Peer, id: TargetId): Reply
    decreases |p.inbox|
  {
    if id in p.targets || p.inbox == [] then Reply(p, [])
    else
      var first := Start(lift, p);
      var rest := StartUntil(lift, first.peer, id);
      Reply(rest.peer, first.messages + rest.messages)
  }

  /** What receiving a message does when its target may still have to be taken up. */
  function ReceiveEventually(lift: Lift, p: Peer, chunks: Entry -> nat, m: Message): Result<Reply> {
    var started := if IsRange(m) then StartUntil(lift, p, Handles(m)) else Reply(p, []);
    if !Ready(started.peer, m) then Err(TargetMissing)
    else
      var r := Receive(lift, started.peer, chunks, m);
      if r.Err? then r else Ok(Reply(r.value.peer, started.messages + r.value.messages))
  }

  lemma {:induction false} StartUntilKeeps(lift: Lift, p: Peer, id: TargetId)
    ensures var q := StartUntil(lift, p, id).peer;
            q.transfer == p.transfer && q.store == p.store && q.role == p.role && (id in q.targets || q.inbox == [])
    decreases |p.inbox|
  {
    hide Query, FingerprintOf;
    if id !in p.targets && p.inbox != [] { StartUntilKeeps(lift, Start(lift, p).peer, id); }
  }

  /** My view after taking up `n` intersections. */
  function StartTimes(lift: Lift, v: View, n: nat): View
    requires n <= |v.me.inbox|
    decreases n
  {
    if n == 0 then v
    else
      var s := Start(lift, v.me);
      StartTimes(lift, View(s.peer, v.you, v.out + s.messages, v.inn), n - 1)
  }

  /** Waiting for a target is some number of start steps of the session. */
  lemma {:induction false} StartUntilIsSteps(lift: Lift, v: View, id: TargetId) returns (n: nat)
    ensures n <= |v.me.inbox|
    ensures var s := StartUntil(lift, v.me, id);
            StartTimes(lift, v, n) == View(s.peer, v.you, v.out + s.messages, v.inn)
    decreases |v.me.inbox|
  {
    hide Start;
    if id in v.me.targets || v.me.inbox == [] {
      n := 0;
      assert v.out + [] == v.out;
    } else {
      StartShortens(lift, v.me);
      var s := Start(lift, v.me);
      var w := View(s.peer, v.you, v.out + s.messages, v.inn);
      var k := StartUntilIsSteps(lift, w, id);
      var rest := StartUntil(lift, s.peer, id);
      assert v.out + (s.messages + rest.messages) == (v.out + s.messages) + rest.messages;
      n := k + 1;
    }
  }

  /** Receiving a message, target lookup included, is a sequence of start steps of the session
      followed by one delivery; so everything proved of session runs holds of it. */
  lemma {:induction false} ReceivingIsSteps(lift: Lift, v: View, chunks: Entry -> nat) returns (n: nat)
    requires v.inn != [] && ReceiveEventually(lift, v.me, chunks, v.inn[0]).Ok?
    ensures n <= |v.me.inbox|
    ensures var w := StartTimes(lift, v, n);
            var r := ReceiveEventually(lift, v.me, chunks, v.inn[0]).value;
            && Enabled(w, Deliver(chunks))
            && Apply(lift, w, Deliver(chunks)) == Some(View(r.peer, v.you, v.out + r.messages, v.inn[1..]))
  {
    hide Receive, Start;
    var m := v.inn[0];
    if IsRange(m) {
      n := StartUntilIsSteps(lift, v, Handles(m));
      var s := StartUntil(lift, v.me, Handles(m));
      var r := Receive(lift, s.peer, chunks, m).value;
      assert v.out + (s.messages + r.messages) == (v.out + s.messages) + r.messages;
    } else {
      n := 0;
      var r := Receive(lift, v.me, chunks, m).value;
      assert [] + r.messages == r.messages;
    }
  }

  // ---------- the entry state ----------

  class EntryState {
    var state: Transfer

    constructor ()
      ensures state == Idle
    {
      state := Idle;
    }

    method ReceivedAnnounceEntries(target: TargetId, isEmpty: bool) returns (ok: bool)
      modifies this
      ensures ok <==> TransferAnnounce(old(state), target, isEmpty).Ok?
      ensures state == if ok then TransferAnnounce(old(state), target, isEmpty).value else old(state)
    {
      if state.Receiving? { return false; }
      if !isEmpty { state := Receiving(target, NoPayload); }
      return true;
    }

    method ReceivedSendEntry() returns (ok: bool)
      modifies this
      ensures ok <==> TransferEntry(old(state)).Ok?
      ensures state == if ok then TransferEntry(old(state)).value else old(state)
    {
      if state.Idle? { return false; }
      if state.payload.Current? { return false; }
      state := state.(payload := Current(false));
      return true;
    }

    method ReceivedSendPayload() returns (ok: bool)
      modifies this
      ensures ok <==> TransferPayload(old(state)).Ok?
      ensures state == if ok then TransferPayload(old(state)).value else old(state)
    {
      if state.Idle? || state.payload.NoPayload? { return false; }
      state := state.(payload := Current(true));
      return true;
    }

    /** The completed target when the terminated payload was the final one. */
    method ReceivedTerminatePayload(isFinal: bool) returns (ok: bool, completed: Option<TargetId>)
      modifies this
      ensures ok <==> TransferTerminate(old(state), isFinal).Ok?
      ensures state == if ok then TransferTerminate(old(state), isFinal).value else old(state)
      ensures completed == if ok && isFinal then Some(old(state).target) else None
    {
      if state.Idle? || state.payload.NoPayload? { return false, None; }
      if isFinal {
        completed := Some(state.target);
        state := Idle;
      } else {
        completed := None;
        state := state.(payload := NoPayload);
      }
      ok := true;
    }
  }

  // ---------- the reconciler ----------

  class ReconcilerState {
    const role: Role
    const lift: Lift
    const sessionId: u64
    const store: EntryStore
    const outbox: Outbox
    const entryState: EntryState
    var inbox: seq<Intersection>
    var targets: map<TargetId, LiveTarget>
    var reconciled: map<TargetId, Target>

    constructor (role: Role, lift: Lift, sessionId: u64, store: EntryStore, inbox: seq<Intersection>)
      requires store.Valid()
      ensures Valid() && this.store == store && this.role == role && this.lift == lift && this.sessionId == sessionId
      ensures Value() == Peer(role, store.Contents(), inbox, map[], Idle, map[]) && outbox.messages == []
      ensures fresh(outbox) && fresh(entryState)
    {
      this.role, this.lift, this.sessionId, this.store, this.inbox := role, lift, sessionId, store, inbox;
      outbox := new Outbox();
      entryState := new EntryState();
      targets, reconciled := map[], map[];
    }

    ghost predicate Valid()
      reads this, targets.Values, store, store.stores.Values, set s | s in store.stores.Values :: s.events
    {
      && store.Valid()
      && (forall a, b :: a in targets && b in targets && a != b ==> targets[a] != targets[b])
      && (forall id :: id in targets ==> targets[id].id == id)
    }

    ghost function Value(): Peer
      reads this, entryState, targets.Values, store, store.stores.Values
    {
      Peer(role, store.Contents(), inbox, Table(), entryState.state, reconciled)
    }

    ghost function Table(): map<TargetId, Target>
      reads this, targets.Values
    {
      map id | id in targets :: targets[id].State()
    }

    /** A new target; Alfie opens its exchange. */
    method NewLiveTarget(next: Intersection) returns (target: LiveTarget)
      requires store.Valid()
      modifies outbox
      ensures fresh(target) && target.id == next.id
      ensures var opening := Opening(lift, role, store.Contents(), next);
              target.State() == opening.target && outbox.messages == old(outbox.messages) + opening.messages
    {
      hide EntryStore.Valid, EntryStore.Contents, Query, FingerprintOf;
      target := new LiveTarget(next);
      if role.Alfie? { target.Initiate(lift, store, outbox); } else { assert outbox.messages + [] == outbox.messages; }
    }

    method InsertTarget(target: LiveTarget)
      requires Valid() && target !in targets.Values && inbox != []
      modifies this`inbox, this`targets
      ensures Valid() && targets == old(targets)[target.id := target]
      ensures Table() == old(Table())[target.id := target.State()] && inbox == old(inbox)[1..]
    {
      hide EntryStore.Valid, EntryStore.Contents;
      ghost var before := Table();
      inbox := inbox[1..];
      targets := targets[target.id := target];
      assert Table() == before[target.id := target.State()];
    }

    /** Take up the next intersection. */
    method InitTarget()
      requires Valid() && inbox != []
      modifies this`inbox, this`targets, outbox
      ensures Valid() && fresh(targets.Values - old(targets.Values))
      ensures var r := Start(lift, old(Value()));
              Value() == r.peer && outbox.messages == old(outbox.messages) + r.messages
    {
      hide EntryStore.Valid, EntryStore.Contents, Opening, Start;
      StartOpens(lift, Value());
      var target := NewLiveTarget(inbox[0]);
      InsertTarget(target);
    }

    /** Take up intersections until the requested target exists. */
    method WaitForTarget(id: TargetId)
      requires Valid()
      modifies this`inbox, this`targets, outbox
      ensures Valid() && fresh(targets.Values - old(targets.Values))
      ensures var r := StartUntil(lift, old(Value()), id);
              Value() == r.peer && outbox.messages == old(outbox.messages) + r.messages
    {
      hide EntryStore.Valid, EntryStore.Contents, Start;
      ghost var whole := StartUntil(lift, Value(), id);
      ghost var sent := outbox.messages;
      while id !in targets && inbox != []
        invariant Valid() && fresh(targets.Values - old(targets.Values))
        invariant var rest := StartUntil(lift, Value(), id);
                  rest.peer == whole.peer && outbox.messages + rest.messages == sent + whole.messages
        decreases |inbox|
      {
        ghost var before, p := outbox.messages, Value();
        ghost var first := Start(lift, p);
        ghost var rest := StartUntil(lift, first.peer, id);
        assert before + (first.messages + rest.messages) == (before + first.messages) + rest.messages;
        StartShortens(lift, p);
        InitTarget();
      }
      assert outbox.messages + [] == outbox.messages;
    }

    /** Drop the target and report its area. */
    method CompleteTarget(id: TargetId)
      requires Valid() && id in targets
      modifies this`targets, this`reconciled
      ensures Valid() && targets == old(targets) - {id}
      ensures Value() == Reconciler.CompleteTarget(old(Value()), id)
    {
      hide EntryStore.Valid, EntryStore.Contents;
      var target := targets[id];
      ghost var before := Table();
      targets := targets - {id};
      reconciled := reconciled[id := target.State()];
      assert Table() == before - {id};
    }

    method CompleteIfDone(id: TargetId)
      requires Valid() && id in targets
      modifies this`targets, this`reconciled
      ensures Valid() && Value() == Reconciler.CompleteIfDone(old(Value()), id)
    {
      hide EntryStore.Valid, EntryStore.Contents, Reconciler.CompleteTarget;
      assert Table()[id] == targets[id].State();
      if targets[id].started && targets[id].uncovered == {} && entryState.state.Idle? { CompleteTarget(id); }
    }

    /** The target answers a range message. */
    method AnswerRange(chunks: Entry -> nat, m: Message) returns (ok: bool)
      requires Valid() && IsRange(m) && Handles(m) in targets
      modifies targets[Handles(m)], outbox
      ensures var a := RangeAnswer(lift, old(Value()), chunks, m);
              && (ok <==> a.Ok?)
              && (ok ==>
                    && Valid()
                    && Value() == old(Value()).(targets := old(Table())[Handles(m) := a.value.target])
                    && outbox.messages == old(outbox.messages) + a.value.messages)
    {
      hide EntryStore.Valid, EntryStore.Contents, ReceivedFingerprint, ReceivedAnnounce;
      var id := Handles(m);
      var target := targets[id];
      ghost var before := Table();
      assert before[id] == target.State();
      if m.MsgFingerprint? {
        ok := target.ReceivedSendFingerprint(lift, outbox, store, chunks, m);
      } else {
        ok := target.ReceivedAnnounceEntries(outbox, store, chunks, m);
      }
      assert Table() == before[id := target.State()];
    }

    /** Look the target up, waiting for it if need be, and let it answer. */
    method LookUpAndAnswer(chunks: Entry -> nat, m: Message) returns (ok: bool)
      requires Valid() && IsRange(m)
      modifies this`inbox, this`targets, this`reconciled, targets.Values, outbox
      ensures var r := LookUp(lift, old(Value()), chunks, m);
              && (ok <==> r.Ok?)
              && (ok ==> Valid() && Value() == r.value.peer && outbox.messages == old(outbox.messages) + r.value.messages)
    {
      hide EntryStore.Valid, EntryStore.Contents, RangeAnswer, StartUntil, Reconciler.CompleteIfDone;
      ghost var sent := outbox.messages;
      ghost var started := StartUntil(lift, Value(), Handles(m));
      WaitForTarget(Handles(m));
      assert Value() == started.peer;
      assert Handles(m) in targets <==> Handles(m) in Table();
      if Handles(m) !in targets { return false; }
      ok := AnswerRange(chunks, m);
      if !ok { return false; }
      CompleteIfDone(Handles(m));
      ghost var a := RangeAnswer(lift, started.peer, chunks, m).value;
      assert (sent + started.messages) + a.messages == sent + (started.messages + a.messages);
    }

    method ReceivedRange(chunks: Entry -> nat, m: Message) returns (ok: bool)
      requires Valid() && IsRange(m)
      modifies this`inbox, this`targets, this`reconciled, targets.Values, outbox, entryState
      ensures var r := ReceiveEventually(lift, old(Value()), chunks, m);
              && (ok <==> r.Ok?)
              && (ok ==> Valid() && Value() == r.value.peer && outbox.messages == old(outbox.messages) + r.value.messages)
    {
      hide EntryStore.Valid, EntryStore.Contents, LookUp, TransferAnnounce, ReceiveEventually, Table;
      LookUpIsReceiving(lift, Value(), chunks, m);
      if m.MsgAnnounce? {
        var fits := entryState.ReceivedAnnounceEntries(Handles(m), m.isEmpty);
        if !fits { return false; }
      }
      ok := LookUpAndAnswer(chunks, m);
    }

    method IngestReceived(e: Entry)
      requires Valid()
      modifies store.Footprint()
      ensures Valid() && Value() == old(Value()).(store := IngestAt(old(store.Contents()), e))
    {
      hide EntryStore.Contents, EntryStore.Valid, EntryStore.Log, IngestLog, IngestAt, Refused;
      ghost var before := Table();
      assert forall id :: id in targets ==> (targets[id] as object) !in store.Footprint();
      hide EntryStore.Footprint;
      var ingested := store.IngestEntry(e, Remote(sessionId));
      assert Table() == before;
    }

    method ReceivedEntry(chunks: Entry -> nat, m: Message) returns (ok: bool)
      requires Valid() && m.MsgEntry?
      modifies entryState, store.Footprint()
      ensures var r := ReceiveEventually(lift, old(Value()), chunks, m);
              && (ok <==> r.Ok?)
              && (ok ==> Valid() && Value() == r.value.peer && outbox.messages == old(outbox.messages) + r.value.messages)
    {
      hide EntryStore.Contents, EntryStore.Valid, IngestAt, ReceiveEventually, TransferEntry, Table;
      EntryIsReceiving(lift, Value(), chunks, m);
      ok := entryState.ReceivedSendEntry();
      if !ok { return; }
      IngestReceived(m.entry);
      assert outbox.messages + [] == outbox.messages;
    }

    method ReceivedPayload(chunks: Entry -> nat, m: Message) returns (ok: bool)
      requires Valid() && m.MsgPayload?
      modifies entryState
      ensures var r := ReceiveEventually(lift, old(Value()), chunks, m);
              && (ok <==> r.Ok?)
              && (ok ==> Valid() && Value() == r.value.peer && outbox.messages == old(outbox.messages) + r.value.messages)
    {
      hide EntryStore.Valid, EntryStore.Contents;
      ok := entryState.ReceivedSendPayload();
      assert outbox.messages + [] == outbox.messages;
    }

    method ReceivedTerminate(chunks: Entry -> nat, m: Message) returns (ok: bool)
      requires Valid() && m.MsgTerminate?
      modifies this`targets, this`reconciled, entryState
      ensures var r := ReceiveEventually(lift, old(Value()), chunks, m);
              && (ok <==> r.Ok?)
              && (ok ==> Valid() && Value() == r.value.peer && outbox.messages == old(outbox.messages) + r.value.messages)
    {
      hide EntryStore.Valid, EntryStore.Contents, Reconciler.CompleteIfDone;
      var completed;
      ok, completed := entryState.ReceivedTerminatePayload(m.isFinal);
      if !ok { return; }
      assert outbox.messages + [] == outbox.messages;
      if completed.Some? {
        assert completed.value in targets <==> completed.value in Table();
        if completed.value !in targets { return false; }
        CompleteIfDone(completed.value);
      }
    }

    /** One received message, exactly as the session's step says: same failures, same new state,
        same messages sent. */
    method ReceivedMessage(chunks: Entry -> nat, m: Message) returns (ok: bool)
      requires Valid()
      modifies this`inbox, this`targets, this`reconciled, targets.Values, outbox, entryState, store.Footprint()
      ensures var r := ReceiveEventually(lift, old(Value()), chunks, m);
              && (ok <==> r.Ok?)
              && (ok ==> Valid() && Value() == r.value.peer && outbox.messages == old(outbox.messages) + r.value.messages)
    {
      hide ReceiveEventually, Valid, Value, EntryStore.Footprint;
      match m {
        case MsgFingerprint(_, _, _, _, _) => ok := ReceivedRange(chunks, m);
        case MsgAnnounce(_, _, _, _, _, _) => ok := ReceivedRange(chunks, m);
        case MsgEntry(_, _) => ok := ReceivedEntry(chunks, m);
        case MsgPayload => ok := ReceivedPayload(chunks, m);
        case MsgTerminate(_) => ok := ReceivedTerminate(chunks, m);
      }
    }
  }

  /** Target lookup and answer, the entry state apart. */
  function LookUp(lift: Lift, p: Peer, chunks: Entry -> nat, m: Message): Result<Reply>
    requires IsRange(m)
  {
    var id := Handles(m);
    var started := StartUntil(lift, p, id);
    if id !in started.peer.targets then Err(TargetMissing)
    else
      var a := RangeAnswer(lift, started.peer, chunks, m);
      if a.Err? then Err(a.error)
      else
        var q := started.peer.(targets := started.peer.targets[id := a.value.target]);
        Ok(Reply(Reconciler.CompleteIfDone(q, id), started.messages + a.value.messages))
  }

  /** Updating the entry state first, then looking the target up and answering, is receiving. */
  lemma {:induction false} LookUpIsReceiving(lift: Lift, p: Peer, chunks: Entry -> nat, m: Message)
    requires IsRange(m)
    ensures var stepped := TransferStep(p.transfer, m);
            var r := ReceiveEventually(lift, p, chunks, m);
            && (stepped.Err? ==> r.Err?)
            && (stepped.Ok? ==>
                  var looked := LookUp(lift, p.(transfer := stepped.value), chunks, m);
                  (r.Ok? <==> looked.Ok?) && (r.Ok? ==> looked == r))
  {
    hide ReceiveEventually, RangeAnswer, StartUntil, TransferStep, Reconciler.CompleteIfDone;
    RangeSteps(lift, p, chunks, m);
    var stepped := TransferStep(p.transfer, m);
    if stepped.Ok? {
      StartUntilTransfer(lift, p, Handles(m), stepped.value);
      var started := StartUntil(lift, p, Handles(m));
      if Handles(m) in started.peer.targets {
        RangeAnswerTransfer(lift, started.peer, chunks, m, stepped.value);
      }
    }
  }

  /** The target's answer to a range message. */
  function RangeAnswer(lift: Lift, p: Peer, chunks: Entry -> nat, m: Message): Result<Sent>
    requires IsRange(m) && Handles(m) in p.targets
  {
    if m.MsgFingerprint? then ReceivedFingerprint(lift, Handles(m), p.targets[Handles(m)], p.store, chunks, m)
    else ReceivedAnnounce(Handles(m), p.targets[Handles(m)], p.store, chunks, m)
  }

  lemma {:induction false} EntryIsReceiving(lift: Lift, p: Peer, chunks: Entry -> nat, m: Message)
    requires m.MsgEntry?
    ensures var t := TransferEntry(p.transfer);
            var r := ReceiveEventually(lift, p, chunks, m);
            if t.Err? then r.Err? else r == Ok(Reply(p.(transfer := t.value, store := IngestAt(p.store, m.entry)), []))
  {
    hide IngestAt, TransferEntry;
    var none: seq<Message> := [];
    assert none + none == none;
  }

  lemma {:induction false} RangeAnswerTransfer(lift: Lift, p: Peer, chunks: Entry -> nat, m: Message, transfer: Transfer)
    requires IsRange(m) && Handles(m) in p.targets
    ensures RangeAnswer(lift, p.(transfer := transfer), chunks, m) == RangeAnswer(lift, p, chunks, m)
  {}

  /** Taking up intersections neither reads nor writes the entry state. */
  lemma {:induction false} StartUntilTransfer(lift: Lift, p: Peer, id: TargetId, transfer: Transfer)
    ensures var s, u := StartUntil(lift, p, id), StartUntil(lift, p.(transfer := transfer), id);
            u.peer == s.peer.(transfer := transfer) && u.messages == s.messages
    decreases |p.inbox|
  {
    hide Query, FingerprintOf;
    if id !in p.targets && p.inbox != [] { StartUntilTransfer(lift, Start(lift, p).peer, id, transfer); }
  }

  /** A range message in three parts: entry state, target lookup, answer. */
  lemma {:induction false} RangeSteps(lift: Lift, p: Peer, chunks: Entry -> nat, m: Message)
    requires IsRange(m)
    ensures var id := Handles(m);
            var started := StartUntil(lift, p, id);
            var stepped := TransferStep(p.transfer, m);
            var r := ReceiveEventually(lift, p, chunks, m);
            && (r.Ok? <==> stepped.Ok? && id in started.peer.targets && RangeAnswer(lift, started.peer, chunks, m).Ok?)
            && (r.Ok? ==>
                  var a := RangeAnswer(lift, started.peer, chunks, m).value;
                  var q := started.peer.(transfer := stepped.value, targets := started.peer.targets[id := a.target]);
                  r.value == Reply(Reconciler.CompleteIfDone(q, id), started.messages + a.messages))
  {
    hide ReceivedFingerprint, ReceivedAnnounce, StartUntil, Reconciler.CompleteIfDone, TransferStep;
    StartUntilKeeps(lift, p, Handles(m));
  }

  /** A new target with its opening fingerprint, if this peer opens. */
  function Opening(lift: Lift, role: Role, store: Replica, next: Intersection): Sent {
    var t := NewTarget(next.scope);
    var f := FingerprintOf(lift, Query(store, next.scope.namespace, next.scope.range));
    if role.Alfie? then SendFingerprintFor(next.id, t, next.scope.range, f, None) else Sent(t, [])
  }

  lemma {:induction false} StartOpens(lift: Lift, p: Peer)
    requires p.inbox != []
    ensures var opening := Opening(lift, p.role, p.store, p.inbox[0]);
            Start(lift, p) == Reply(p.(inbox := p.inbox[1..], targets := p.targets[p.inbox[0].id := opening.target]), opening.messages)
  {}

  lemma {:induction false} StartShortens(lift: Lift, p: Peer)
    requires p.inbox != []
    ensures |Start(lift, p).peer.inbox| == |p.inbox| - 1
  {}
}
