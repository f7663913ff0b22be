/**
 The unified catalog fetch as a step system: the GUI thread, one detached worker per fetch, the
 catalog files on disk, and a history of which callbacks were submitted and delivered.

 A step is atomic for the GUI thread except where it calls a callback: the callbacks of one
 completion are delivered by separate steps, so that a callback may fetch or invalidate again while
 the rest of its batch is still waiting to be called.
 */
module CatalogProtocol {
  import opened Collections

  datatype Callback = Callback(id: nat, callable: bool)

  /** What a fetch reads from the settings when it starts. */
  datatype Inputs = Inputs(npsso: string, locale: string)

  /** Where a piece of catalog data comes from: an invalidation generation and an account. */
  datatype Tag = Tag(generation: nat, npsso: string)

  /** The catalog files that a worker reads and writes. */
  datatype Slot = Unified | Browse | Library

  datatype Outcome = Success(settledLocale: string) | Failure

  datatype Phase = Running | Posted(outcome: Outcome)

  /** `sources` are the tags of everything the worker's result was computed from so far. */
  datatype Worker = Worker(reqId: nat, generation: nat, inputs: Inputs, sources: set<Tag>, phase: Phase)

  datatype Payload = Payload(outcome: Outcome, generation: nat, npsso: string, sources: set<Tag>)

  datatype State = State(
    inFlight: bool,
    parked: seq<Callback>,
    pending: map<nat, Callback>,
    nextRequestId: nat,
    generation: nat,
    inputs: Inputs,
    workers: seq<Worker>,
    cache: map<Slot, set<Tag>>,
    delivering: seq<Callback>,
    payload: Option<Payload>,
    submitted: seq<Callback>,
    delivered: seq<Callback>)

  datatype Event =
    | Fetch(cb: Callback)
    | Invalidate
    | ChangeInputs(inputs: Inputs)
    | WorkerRead(i: nat, slot: Slot)
    | WorkerWrite(i: nat, slot: Slot)
    | WorkerRemove(i: nat, slot: Slot)
    | WorkerPost(i: nat, outcome: Outcome)
    | Complete(i: nat)
    | DeliverNext

  function Init(inputs: Inputs): State {
    State(false, [], map[], 0, 0, inputs, [], map[], [], None, [], [])
  }

  function Callables(cbs: seq<Callback>): seq<Callback> {
    Filter(cbs, (cb: Callback) => cb.callable)
  }

  // ---------------------------------------------------------------- the steps

  /** The body of a fetch: park the callback behind the running fetch, or start a worker. */
  function Enter(s: State, cb: Callback): State {
    if s.inFlight then
      if cb.callable then s.(parked := s.parked + [cb]) else s
    else
      var id := s.nextRequestId + 1;
      s.(inFlight := true, nextRequestId := id, pending := s.pending[id := cb],
         workers := s.workers + [Worker(id, s.generation, s.inputs, {}, Running)])
  }

  function EnterAll(s: State, cbs: seq<Callback>): State
    decreases |cbs|
  {
    if cbs == [] then s else EnterAll(Enter(s, cbs[0]), cbs[1..])
  }

  function FetchStep(s: State, cb: Callback): State {
    Enter(if cb.callable then s.(submitted := s.submitted + [cb]) else s, cb)
  }

  function InvalidateStep(s: State): State {
    s.(generation := s.generation + 1, cache := map[])
  }

  /** A login, a profile switch or a language change: new inputs, then an invalidation at once. */
  function ChangeInputsStep(s: State, inputs: Inputs): State {
    InvalidateStep(s.(inputs := inputs))
  }

  function OwnTag(w: Worker): Tag {
    Tag(w.generation, w.inputs.npsso)
  }

  function ReadStep(s: State, i: nat, slot: Slot): State
    requires i < |s.workers|
  {
    if slot in s.cache then
      var w := s.workers[i];
      s.(workers := s.workers[i := w.(sources := w.sources + s.cache[slot])])
    else s
  }

  function WriteStep(s: State, i: nat, slot: Slot): State
    requires i < |s.workers|
  {
    var w := s.workers[i];
    s.(cache := s.cache[slot := w.sources + {OwnTag(w)}])
  }

  /** The callback and the parked callbacks of a completion, as one list in calling order. */
  function Batch(s: State, w: Worker): seq<Callback> {
    Callables((if w.reqId in s.pending then [s.pending[w.reqId]] else []) + s.parked)
  }

  function Settle(inputs: Inputs, outcome: Outcome): Inputs {
    if outcome.Success? && outcome.settledLocale != "" then inputs.(locale := outcome.settledLocale) else inputs
  }

  /** The request of worker `i` taken out of the bookkeeping. */
  function Taken(s: State, i: nat): State
    requires i < |s.workers|
  {
    s.(workers := s.workers[..i] + s.workers[i + 1..], pending := s.pending - {s.workers[i].reqId},
       parked := [], inFlight := false)
  }

  /** The batch of a current worker made ready to be called. */
  function StartDelivery(s: State, w: Worker, batch: seq<Callback>): State
    requires w.phase.Posted?
  {
    s.(inputs := Settle(s.inputs, w.phase.outcome), delivering := batch,
       payload := Some(Payload(w.phase.outcome, w.generation, w.inputs.npsso, w.sources + {OwnTag(w)})))
  }

  /** The completion handler up to its first callback call. */
  function CompleteStep(s: State, i: nat): State
    requires i < |s.workers| && s.workers[i].phase.Posted?
  {
    var w := s.workers[i];
    if s.generation != w.generation then
      EnterAll(Taken(s, i).(cache := map[]), Batch(s, w))
    else
      StartDelivery(Taken(s, i), w, Batch(s, w))
  }

  function DeliverStep(s: State): State
    requires s.delivering != []
  {
    s.(delivering := s.delivering[1..], delivered := s.delivered + [s.delivering[0]])
  }

  /** The GUI thread runs one completion at a time: the next one waits until the batch is delivered. */
  predicate Legal(s: State, e: Event) {
    match e
    case Fetch(_) => true
    case Invalidate => true
    case ChangeInputs(_) => true
    case WorkerRead(i, _) => i < |s.workers| && s.workers[i].phase.Running?
    case WorkerWrite(i, _) => i < |s.workers| && s.workers[i].phase.Running?
    case WorkerRemove(i, _) => i < |s.workers| && s.workers[i].phase.Running?
    case WorkerPost(i, _) => i < |s.workers| && s.workers[i].phase.Running?
    case Complete(i) => i < |s.workers| && s.workers[i].phase.Posted? && s.delivering == []
    case DeliverNext => s.delivering != []
  }

  function Step(s: State, e: Event): State
    requires Legal(s, e)
  {
    match e
    case Fetch(cb) => FetchStep(s, cb)
    case Invalidate => InvalidateStep(s)
    case ChangeInputs(inputs) => ChangeInputsStep(s, inputs)
    case WorkerRead(i, slot) => ReadStep(s, i, slot)
    case WorkerWrite(i, slot) => WriteStep(s, i, slot)
    case WorkerRemove(_, slot) => s.(cache := s.cache - {slot})
    case WorkerPost(i, outcome) => s.(workers := s.workers[i := s.workers[i].(phase := Posted(outcome))])
    case Complete(i) => CompleteStep(s, i)
    case DeliverNext => DeliverStep(s)
  }

  predicate LegalRun(s: State, es: seq<Event>)
    decreases |es|
  {
    es == [] || (Legal(s, es[0]) && LegalRun(Step(s, es[0]), es[1..]))
  }

  function Run(s: State, es: seq<Event>): State
    requires LegalRun(s, es)
    decreases |es|
  {
    if es == [] then s else Run(Step(s, es[0]), es[1..])
  }

  // ---------------------------------------------------------------- the invariant

  /** Callbacks that wait for the running fetch, in the order they will be called. */
  function Waiting(s: State): seq<Callback> {
    if s.workers == [] then Callables(s.parked) else Batch(s, s.workers[0])
  }

  /** The logical queue: callbacks submitted and not yet called. */
  function Queue(s: State): seq<Callback> {
    s.delivering + Waiting(s)
  }

  /** The only tag that data on disk may carry. */
  function DiskTag(s: State): Tag {
    if s.workers == [] then Tag(s.generation, s.inputs.npsso) else OwnTag(s.workers[0])
  }

  ghost predicate OneWorker(s: State) {
    && |s.workers| <= 1
    && (s.inFlight <==> |s.workers| == 1)
    && (s.workers == [] ==> s.parked == [])
    && s.pending.Keys == (if s.workers == [] then {} else {s.workers[0].reqId})
    && (forall cb :: cb in s.parked ==> cb.callable)
  }

  ghost predicate Fresh(s: State) {
    && (forall w :: w in s.workers ==>
          && w.generation <= s.generation
          && (w.generation == s.generation ==> w.inputs == s.inputs)
          && w.sources <= {OwnTag(w)})
    && (forall slot :: slot in s.cache ==> s.cache[slot] <= {DiskTag(s)})
    && (s.payload.Some? ==>
          var p := s.payload.value;
          && p.generation <= s.generation
          && (p.generation == s.generation ==> p.npsso == s.inputs.npsso)
          && p.sources == {Tag(p.generation, p.npsso)})
    && (s.delivering != [] ==> s.payload.Some?)
  }

  ghost predicate Inv(s: State) {
    OneWorker(s) && Fresh(s) && s.submitted == s.delivered + Queue(s)
  }

  // ---------------------------------------------------------------- proofs about single steps

  lemma CallablesSingle(cb: Callback)
    ensures Callables([cb]) == if cb.callable then [cb] else []
  {
    assert [cb][1..] == [];
  }

  /** Entering a callback adds it, if it can be called, at the end of the waiting callbacks. */
  lemma EnterWaits(s: State, cb: Callback)
    requires OneWorker(s)
    ensures OneWorker(Enter(s, cb))
    ensures Waiting(Enter(s, cb)) == Waiting(s) + Callables([cb])
    ensures Enter(s, cb).inFlight && |Enter(s, cb).workers| == 1
    ensures s.workers == [] ==>
              Enter(s, cb).workers[0].generation == s.generation && Enter(s, cb).workers[0].phase.Running?
    ensures s.workers != [] ==> Enter(s, cb).workers == s.workers
  {
    var t := Enter(s, cb);
    CallablesSingle(cb);
    if s.inFlight {
      var w := s.workers[0];
      var all := [s.pending[w.reqId]] + s.parked;
      FilterAppend(all, [cb], (c: Callback) => c.callable);
      assert [t.pending[w.reqId]] + (s.parked + [cb]) == all + [cb];
      assert Waiting(s) + [] == Waiting(s);
    } else {
      assert [t.pending[t.workers[0].reqId]] + t.parked == [cb];
      assert Waiting(s) == [];
    }
  }

  lemma EnterFresh(s: State, cb: Callback)
    requires OneWorker(s) && Fresh(s)
    ensures Fresh(Enter(s, cb))
  {
    var t := Enter(s, cb);
    if !s.inFlight {
      assert t.workers == [t.workers[0]];
      assert DiskTag(t) == DiskTag(s);
    }
  }

  /** Entering touches only the request bookkeeping. */
  ghost predicate SameOutside(s: State, t: State) {
    t == s.(inFlight := t.inFlight, parked := t.parked, pending := t.pending,
            nextRequestId := t.nextRequestId, workers := t.workers)
  }

  ghost predicate CurrentWorker(s: State) {
    s.workers != [] ==> s.workers[0].generation == s.generation
  }

  /** Restarting a whole batch leaves it waiting, in the same order, behind one fresh worker. */
  lemma {:induction false} EnterAllRestarts(s: State, cbs: seq<Callback>)
    requires OneWorker(s) && Fresh(s) && CurrentWorker(s)
    requires forall cb :: cb in cbs ==> cb.callable
    ensures var t := EnterAll(s, cbs);
            && OneWorker(t) && Fresh(t) && CurrentWorker(t) && SameOutside(s, t)
            && Waiting(t) == Waiting(s) + cbs
            && (t.workers == [] <==> s.workers == [] && cbs == [])
    decreases |cbs|
  {
    if cbs == [] {
      assert Waiting(s) + [] == Waiting(s);
    } else {
      var u := Enter(s, cbs[0]);
      EnterWaits(s, cbs[0]);
      EnterFresh(s, cbs[0]);
      CallablesSingle(cbs[0]);
      assert SameOutside(s, u) && CurrentWorker(u);
      EnterAllRestarts(u, cbs[1..]);
      assert EnterAll(s, cbs) == EnterAll(u, cbs[1..]);
      assert [cbs[0]] + cbs[1..] == cbs;
      ConcatAssoc(Waiting(s), [cbs[0]], cbs[1..]);
    }
  }

  lemma BatchCallable(s: State, w: Worker)
    ensures forall cb :: cb in Batch(s, w) ==> cb.callable
  {
    var own := if w.reqId in s.pending then [s.pending[w.reqId]] else [];
    FilterMembers(own + s.parked, (cb: Callback) => cb.callable);
  }

  /** A stale completion wipes the files and puts every waiter back, in order, behind a fresh worker. */
  lemma CompleteStale(s: State)
    requires Inv(s) && Legal(s, Complete(0)) && s.workers[0].generation != s.generation
    ensures var t := CompleteStep(s, 0);
            && Inv(t) && SameOutside(Taken(s, 0).(cache := map[]), t) && CurrentWorker(t)
            && Waiting(t) == Waiting(s)
            && (t.workers == [] <==> Waiting(s) == [])
  {
    var w := s.workers[0];
    assert s.workers[..0] + s.workers[1..] == [];
    var s1 := Taken(s, 0).(cache := map[]);
    assert OneWorker(s1) && Fresh(s1);
    BatchCallable(s, w);
    EnterAllRestarts(s1, Batch(s, w));
    assert Waiting(s1) == [];
    assert [] + Batch(s, w) == Batch(s, w);
  }

  /**
   A current completion starts to deliver all waiters, in order, and leaves no worker behind. Settling
   the locale invalidates nothing: the files just written and the generation stay, and the next worker
   starts with the settled locale.
   */
  lemma CompleteCurrent(s: State)
    requires Inv(s) && Legal(s, Complete(0)) && s.workers[0].generation == s.generation
    ensures var t := CompleteStep(s, 0);
            && Inv(t) && t.workers == [] && t.delivering == Waiting(s) && Waiting(t) == []
            && t.submitted == s.submitted && t.delivered == s.delivered
            && t.payload.Some? && t.payload.value.outcome == s.workers[0].phase.outcome
            && t.generation == s.generation && t.cache == s.cache && t.inputs.npsso == s.inputs.npsso
            && (forall cb :: var w := Enter(t, cb).workers[0];
                  && w.generation == s.generation
                  && w.inputs.locale == (match s.workers[0].phase.outcome
                                         case Success(settled) =>
                                           if settled != "" then settled else s.workers[0].inputs.locale
                                         case Failure => s.workers[0].inputs.locale))
  {
    var t := CompleteStep(s, 0);
    assert s.workers[..0] + s.workers[1..] == [];
    assert Waiting(t) == [];
    assert Queue(t) == Queue(s);
    assert OneWorker(t);
    assert Fresh(t);
  }

  /** What a completion does, on either branch, to the waiting callbacks and the outstanding worker. */
  lemma CompleteEffect(s: State)
    requires Inv(s) && Legal(s, Complete(0))
    ensures var t := CompleteStep(s, 0);
            && Inv(t) && t.delivered == s.delivered && t.submitted == s.submitted && t.generation == s.generation
            && Queue(t) == Queue(s)
            && CurrentWorker(t)
            && (s.workers[0].generation == s.generation ==> t.workers == [] && t.delivering == Waiting(s))
            && (s.workers[0].generation != s.generation ==>
                  t.delivering == [] && (t.workers == [] <==> Waiting(s) == []))
  {
    if s.workers[0].generation == s.generation {
      CompleteCurrent(s);
      assert Waiting(s) + [] == [] + Waiting(s);
    } else {
      CompleteStale(s);
    }
  }

  lemma FetchKeepsInv(s: State, cb: Callback)
    requires Inv(s)
    ensures Inv(FetchStep(s, cb))
    ensures Queue(FetchStep(s, cb)) == Queue(s) + (if cb.callable then [cb] else [])
  {
    var s1 := if cb.callable then s.(submitted := s.submitted + [cb]) else s;
    assert OneWorker(s1) && Fresh(s1);
    assert Waiting(s1) == Waiting(s);
    EnterWaits(s1, cb);
    EnterFresh(s1, cb);
    CallablesSingle(cb);
    ConcatAssoc(s.delivering, Waiting(s), Callables([cb]));
    ConcatAssoc(s.delivered, Queue(s), Callables([cb]));
    assert s.delivered + Queue(s) + [] == s.delivered + Queue(s);
  }

  lemma WorkerKeepsInv(s: State, e: Event)
    requires Inv(s) && Legal(s, e)
    requires e.WorkerRead? || e.WorkerWrite? || e.WorkerRemove? || e.WorkerPost?
    ensures Inv(Step(s, e))
    ensures Queue(Step(s, e)) == Queue(s)
  {
    var t := Step(s, e);
    assert e.i == 0;
    assert |t.workers| == 1 && t.workers[0].reqId == s.workers[0].reqId;
    assert OwnTag(t.workers[0]) == OwnTag(s.workers[0]);
    assert Waiting(t) == Waiting(s);
  }

  /** An invalidation makes the outstanding worker stale and leaves every waiter where it is. */
  lemma InvalidateKeepsInv(s: State, inputs: Inputs)
    requires Inv(s)
    ensures Inv(InvalidateStep(s.(inputs := inputs)))
    ensures Queue(InvalidateStep(s.(inputs := inputs))) == Queue(s)
  {
    assert Waiting(InvalidateStep(s.(inputs := inputs))) == Waiting(s);
  }

  /** A delivery calls the head of the queue. */
  lemma DeliverKeepsInv(s: State)
    requires Inv(s) && s.delivering != []
    ensures Inv(DeliverStep(s))
    ensures Queue(s) != [] && Queue(DeliverStep(s)) == Queue(s)[1..]
    ensures DeliverStep(s).delivered == s.delivered + [Queue(s)[0]]
  {
    var t := DeliverStep(s);
    assert Waiting(t) == Waiting(s);
    assert s.delivering == [s.delivering[0]] + t.delivering;
    assert Queue(s) == [s.delivering[0]] + Queue(t);
    ConcatAssoc(s.delivered, [s.delivering[0]], Queue(t));
  }

  /** Every step keeps the invariant. */
  lemma StepKeepsInv(s: State, e: Event)
    requires Inv(s) && Legal(s, e)
    ensures Inv(Step(s, e))
  {
    match e
    case Fetch(cb) => FetchKeepsInv(s, cb);
    case Complete(i) => CompleteEffect(s);
    case DeliverNext => DeliverKeepsInv(s);
    case Invalidate => InvalidateKeepsInv(s, s.inputs);
    case ChangeInputs(inputs) => InvalidateKeepsInv(s, inputs);
    case _ => WorkerKeepsInv(s, e);
  }
}
