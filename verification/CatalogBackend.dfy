/**
 The catalog backend object. Its methods are the handlers that run on the GUI thread; each is proved
 to make exactly the step that CatalogProtocol describes. `disk` and `workers` are the shared
 directory and the detached threads, which other threads change between two handlers.
 */
module CatalogBackend {
  import opened Collections
  import opened CatalogProtocol
  import opened CatalogRuns

  /** What a callback may do to the backend while it is being called. */
  datatype Reaction = ReFetch(cb: Callback) | ReInvalidate | ReChange(inputs: Inputs)

  function ReactOnce(s: State, r: Reaction): (t: State)
    ensures t.delivering == s.delivering && t.delivered == s.delivered
  {
    match r
    case ReFetch(cb) => FetchStep(s, cb)
    case ReInvalidate => InvalidateStep(s)
    case ReChange(inputs) => ChangeInputsStep(s, inputs)
  }

  function React(s: State, rs: seq<Reaction>): (t: State)
    ensures t.delivering == s.delivering && t.delivered == s.delivered
    decreases |rs|
  {
    if rs == [] then s else React(ReactOnce(s, rs[0]), rs[1..])
  }

  function First(reactions: seq<seq<Reaction>>): seq<Reaction> {
    if reactions == [] then [] else reactions[0]
  }

  function Rest(reactions: seq<seq<Reaction>>): seq<seq<Reaction>> {
    if reactions == [] then [] else reactions[1..]
  }

  /** The whole delivery loop, when the k-th called callback reacts with `reactions[k]`. */
  function DeliverAll(s: State, reactions: seq<seq<Reaction>>): State
    decreases |s.delivering|
  {
    if s.delivering == [] then s
    else DeliverAll(React(DeliverStep(s), First(reactions)), Rest(reactions))
  }

  lemma {:induction false} ReactKeepsInv(s: State, rs: seq<Reaction>)
    requires Inv(s)
    ensures Inv(React(s, rs))
    decreases |rs|
  {
    if rs == [] {
    } else {
      var e := match rs[0]
               case ReFetch(cb) => Fetch(cb)
               case ReInvalidate => Invalidate
               case ReChange(inputs) => ChangeInputs(inputs);
      StepKeepsInv(s, e);
      assert ReactOnce(s, rs[0]) == Step(s, e);
      ReactKeepsInv(ReactOnce(s, rs[0]), rs[1..]);
    }
  }

  // ---------------------------------------------------------------- the handler as a run of steps

  function EventsOf(rs: seq<Reaction>): seq<Event> {
    if rs == [] then []
    else
      [match rs[0]
       case ReFetch(cb) => Fetch(cb)
       case ReInvalidate => Invalidate
       case ReChange(inputs) => ChangeInputs(inputs)]
      + EventsOf(rs[1..])
  }

  /** A delivery for each of `n` callbacks, each followed by what the callback does. */
  function DeliveryEvents(n: nat, reactions: seq<seq<Reaction>>): seq<Event>
    decreases n
  {
    if n == 0 then [] else [DeliverNext] + (EventsOf(First(reactions)) + DeliveryEvents(n - 1, Rest(reactions)))
  }

  lemma {:induction false} ReactIsRun(s: State, rs: seq<Reaction>)
    requires Inv(s)
    ensures LegalRun(s, EventsOf(rs)) && React(s, rs) == Run(s, EventsOf(rs))
    decreases |rs|
  {
    if rs == [] {
    } else {
      var es := EventsOf(rs);
      assert es[1..] == EventsOf(rs[1..]);
      StepKeepsInv(s, es[0]);
      assert ReactOnce(s, rs[0]) == Step(s, es[0]);
      ReactIsRun(ReactOnce(s, rs[0]), rs[1..]);
    }
  }

  lemma OneThen(s: State, e: Event, rest: seq<Event>)
    requires Legal(s, e) && LegalRun(Step(s, e), rest)
    ensures LegalRun(s, [e] + rest) && Run(s, [e] + rest) == Run(Step(s, e), rest)
  {
    assert ([e] + rest)[1..] == rest;
  }

  /** A delivery, what it causes, and the rest, as one run. */
  lemma DeliveryThenRest(s: State, caused: seq<Event>, rest: seq<Event>)
    requires s.delivering != [] && LegalRun(DeliverStep(s), caused) && LegalRun(Run(DeliverStep(s), caused), rest)
    ensures var es := [DeliverNext] + (caused + rest);
            LegalRun(s, es) && Run(s, es) == Run(Run(DeliverStep(s), caused), rest)
  {
    RunAppend(DeliverStep(s), caused, rest);
    assert Step(s, DeliverNext) == DeliverStep(s);
    OneThen(s, DeliverNext, caused + rest);
  }

  /**
   The delivery loop is a run of the protocol: every callback is delivered in turn, and what it does to the
   backend while being called are the next steps.
   */
  lemma {:induction false} DeliverAllIsRun(s: State, reactions: seq<seq<Reaction>>)
    requires Inv(s)
    ensures var es := DeliveryEvents(|s.delivering|, reactions);
            LegalRun(s, es) && DeliverAll(s, reactions) == Run(s, es)
    decreases |s.delivering|
  {
    if s.delivering == [] {
    } else {
      var u := DeliverStep(s);
      var v := React(u, First(reactions));
      DeliverKeepsInv(s);
      ReactIsRun(u, First(reactions));
      ReactKeepsInv(u, First(reactions));
      DeliverAllIsRun(v, Rest(reactions));
      DeliveryThenRest(s, EventsOf(First(reactions)), DeliveryEvents(|v.delivering|, Rest(reactions)));
    }
  }

  /** Whatever the callbacks do when called, the batch is delivered as a whole and in order. */
  lemma {:induction false} DeliverAllDelivers(s: State, reactions: seq<seq<Reaction>>)
    requires Inv(s)
    ensures var t := DeliverAll(s, reactions);
            Inv(t) && t.delivering == [] && t.delivered == s.delivered + s.delivering
    decreases |s.delivering|
  {
    if s.delivering == [] {
      assert s.delivered + [] == s.delivered;
    } else {
      var u := DeliverStep(s);
      DeliverKeepsInv(s);
      ReactKeepsInv(u, First(reactions));
      DeliverAllDelivers(React(u, First(reactions)), Rest(reactions));
      DeliverKeepsCalled(s);
    }
  }

  class CloudCatalogBackend {
    var settings: Inputs
    var unifiedFetchInFlight: bool
    var pendingUnifiedCallbacks: seq<Callback>
    var catalogGeneration: nat
    var pendingCallbacks: map<nat, Callback>
    var nextRequestId: nat
    var workers: seq<Worker>
    var disk: map<Slot, set<Tag>>
    ghost var batch: seq<Callback>
    ghost var payload: Option<Payload>
    ghost var submitted: seq<Callback>
    ghost var delivered: seq<Callback>

    ghost function Abs(): State
      reads this
    {
      State(unifiedFetchInFlight, pendingUnifiedCallbacks, pendingCallbacks, nextRequestId, catalogGeneration,
            settings, workers, disk, batch, payload, submitted, delivered)
    }

    constructor (settings: Inputs)
      ensures Abs() == Init(settings)
    {
      this.settings := settings;
      unifiedFetchInFlight, pendingUnifiedCallbacks := false, [];
      catalogGeneration, pendingCallbacks, nextRequestId := 0, map[], 0;
      workers, disk := [], map[];
      batch, payload, submitted, delivered := [], None, [], [];
    }

    /** `isNew` is false when the stale branch of a completion restarts a callback submitted before. */
    method FetchUnifiedCatalog(cb: Callback, ghost isNew: bool)
      modifies this
      ensures Abs() == if isNew then FetchStep(old(Abs()), cb) else Enter(old(Abs()), cb)
    {
      if isNew && cb.callable {
        submitted := submitted + [cb];
      }
      if unifiedFetchInFlight {
        if cb.callable {
          pendingUnifiedCallbacks := pendingUnifiedCallbacks + [cb];
        }
        return;
      }
      unifiedFetchInFlight := true;
      nextRequestId := nextRequestId + 1;
      var reqId := nextRequestId;
      pendingCallbacks := pendingCallbacks[reqId := cb];
      var gen := catalogGeneration;
      workers := workers + [Worker(reqId, gen, settings, {}, Running)];
    }

    method InvalidateCache()
      modifies this
      ensures Abs() == InvalidateStep(old(Abs()))
    {
      catalogGeneration := catalogGeneration + 1;
      disk := map[];
    }

    method SwitchSettings(inputs: Inputs)
      modifies this
      ensures Abs() == ChangeInputsStep(old(Abs()), inputs)
    {
      settings := inputs;
      InvalidateCache();
    }

    /** Calls the head of the batch, which reacts by using the backend again. */
    method Call(cb: Callback, reactions: seq<Reaction>)
      requires batch != [] && batch[0] == cb
      modifies this
      ensures Abs() == React(DeliverStep(old(Abs())), reactions)
    {
      batch, delivered := batch[1..], delivered + [cb];
      ghost var goal := React(Abs(), reactions);
      for k := 0 to |reactions|
        invariant React(Abs(), reactions[k..]) == goal
      {
        assert reactions[k..][1..] == reactions[k + 1..];
        match reactions[k]
        case ReFetch(again) => FetchUnifiedCatalog(again, true);
        case ReInvalidate => InvalidateCache();
        case ReChange(inputs) => SwitchSettings(inputs);
      }
    }

    /** The stale branch: fetch again for the taken callback, then for the parked ones. */
    method RestartWaiters(cb: Callback, parked: seq<Callback>)
      modifies this
      ensures Abs() == EnterAll(old(Abs()), (if cb.callable then [cb] else []) + Callables(parked))
    {
      ghost var waiters := (if cb.callable then [cb] else []) + Callables(parked);
      ghost var goal := EnterAll(Abs(), waiters);
      if cb.callable {
        assert waiters[1..] == Callables(parked);
        FetchUnifiedCatalog(cb, false);
      } else {
        assert waiters == Callables(parked);
      }
      assert parked[0..] == parked;
      for k := 0 to |parked|
        invariant EnterAll(Abs(), Callables(parked[k..])) == goal
      {
        CallablesFrom(parked, k);
        if parked[k].callable {
          FetchUnifiedCatalog(parked[k], false);
        }
      }
    }

    /** The current branch: call the taken callback, then the parked ones. */
    method DeliverToWaiters(cb: Callback, parked: seq<Callback>, reactions: seq<seq<Reaction>>)
      requires batch == (if cb.callable then [cb] else []) + Callables(parked)
      modifies this
      ensures Abs() == DeliverAll(old(Abs()), reactions)
    {
      ghost var goal := DeliverAll(Abs(), reactions);
      var rest := reactions;
      if cb.callable {
        assert batch[1..] == Callables(parked);
        Call(cb, First(rest));
        rest := Rest(rest);
      } else {
        assert batch == Callables(parked);
      }
      assert parked[0..] == parked;
      for k := 0 to |parked|
        invariant batch == Callables(parked[k..])
        invariant DeliverAll(Abs(), rest) == goal
      {
        CallablesFrom(parked, k);
        if parked[k].callable {
          Call(parked[k], First(rest));
          rest := Rest(rest);
        }
      }
    }

    /** Takes the callback of worker `i` and the parked callbacks, and clears the in-flight flag. */
    method TakeRequest(i: nat) returns (w: Worker, cb: Callback, parked: seq<Callback>)
      requires i < |workers|
      modifies this
      ensures Abs() == Taken(old(Abs()), i)
      ensures w == old(workers[i])
      ensures (if cb.callable then [cb] else []) + Callables(parked) == Batch(old(Abs()), w)
    {
      BatchSplits(Abs(), workers[i]);
      w := workers[i];
      workers := workers[..i] + workers[i + 1..];
      cb := if w.reqId in pendingCallbacks then pendingCallbacks[w.reqId] else Callback(0, false);
      pendingCallbacks := pendingCallbacks - {w.reqId};
      parked := pendingUnifiedCallbacks;
      pendingUnifiedCallbacks := [];
      unifiedFetchInFlight := false;
    }

    /**
     The completion handler queued by worker `i`. On the current branch the callbacks are called in
     turn and react with `reactions`; on the stale branch they are fetched again.
     */
    method OnWorkerFinished(i: nat, reactions: seq<seq<Reaction>>)
      requires i < |workers| && workers[i].phase.Posted? && batch == []
      modifies this
      ensures Abs() == DeliverAll(CompleteStep(old(Abs()), i), reactions)
    {
      ghost var before := Abs();
      var w, cb, parked := TakeRequest(i);
      if catalogGeneration != w.generation {
        EnterAllDelivering(before, i);
        disk := map[];
        RestartWaiters(cb, parked);
      } else {
        settings := Settle(settings, w.phase.outcome);
        payload := Some(Payload(w.phase.outcome, w.generation, w.inputs.npsso, w.sources + {OwnTag(w)}));
        batch := Batch(before, w);
        assert Abs() == StartDelivery(Taken(before, i), w, Batch(before, w));
        DeliverToWaiters(cb, parked, reactions);
      }
    }
  }

  lemma CallablesFrom(cbs: seq<Callback>, k: nat)
    requires k < |cbs|
    ensures Callables(cbs[k..]) == (if cbs[k].callable then [cbs[k]] else []) + Callables(cbs[k + 1..])
    ensures !cbs[k].callable ==> Callables(cbs[k..]) == Callables(cbs[k + 1..])
    ensures cbs[k].callable ==> Callables(cbs[k..])[1..] == Callables(cbs[k + 1..])
  {
    assert cbs[k..][1..] == cbs[k + 1..];
  }

  lemma {:induction false} EnterAllKeepsBatch(s: State, cbs: seq<Callback>)
    ensures EnterAll(s, cbs).delivering == s.delivering
    decreases |cbs|
  {
    if cbs == [] {
    } else {
      EnterAllKeepsBatch(Enter(s, cbs[0]), cbs[1..]);
    }
  }

  lemma EnterAllDelivering(s: State, i: nat)
    requires Legal(s, Complete(i)) && s.generation != s.workers[i].generation
    ensures CompleteStep(s, i).delivering == []
  {
    EnterAllKeepsBatch(Taken(s, i).(cache := map[]), Batch(s, s.workers[i]));
  }

  /**
   One run of the completion handler, from a reachable state and whatever the callbacks do: on the
   current branch exactly the waiting callbacks are called, in order, and on the stale branch none is.
   */
  lemma HandlerServesAllOrNone(s: State, i: nat, reactions: seq<seq<Reaction>>)
    requires Inv(s) && Legal(s, Complete(i))
    ensures var t := DeliverAll(CompleteStep(s, i), reactions);
            && Inv(t) && t.delivering == []
            && t.delivered == s.delivered + (if s.workers[i].generation == s.generation then Waiting(s) else [])
  {
    CompleteEffect(s);
    DeliverAllDelivers(CompleteStep(s, i), reactions);
  }

  /** One run of the completion handler is a completion followed by the deliveries and what they cause. */
  lemma HandlerIsRun(s: State, i: nat, reactions: seq<seq<Reaction>>)
    requires Inv(s) && Legal(s, Complete(i))
    ensures var u := CompleteStep(s, i);
            var es := [Complete(i)] + DeliveryEvents(|u.delivering|, reactions);
            LegalRun(s, es) && DeliverAll(u, reactions) == Run(s, es)
  {
    var u := CompleteStep(s, i);
    StepKeepsInv(s, Complete(i));
    assert Step(s, Complete(i)) == u;
    DeliverAllIsRun(u, reactions);
    OneThen(s, Complete(i), DeliveryEvents(|u.delivering|, reactions));
  }

  lemma BatchSplits(s: State, w: Worker)
    ensures var cb := if w.reqId in s.pending then s.pending[w.reqId] else Callback(0, false);
            Batch(s, w) == (if cb.callable then [cb] else []) + Callables(s.parked)
  {
    var keep := (c: Callback) => c.callable;
    if w.reqId in s.pending {
      CallablesSingle(s.pending[w.reqId]);
      FilterAppend([s.pending[w.reqId]], s.parked, keep);
    } else {
      assert [] + s.parked == s.parked;
      assert [] + Callables(s.parked) == Callables(s.parked);
    }
  }
}
