/**
 Whole runs of the catalog protocol: it refines a plain queue of waiters, loses no callback, delivers fresh
 data, and always gets every waiter served.
 */
module CatalogRuns {
  import opened Collections
  import opened CatalogProtocol

  // ---------------------------------------------------------------- refinement of a plain FIFO

  datatype QueueOp = Submit(cb: Callback) | Serve | Stutter

  /** From `s` to `t` the plain queue of waiters does one operation. */
  ghost predicate Performs(s: State, t: State, op: QueueOp) {
    match op
    case Submit(cb) =>
      Queue(t) == Queue(s) + [cb] && t.delivered == s.delivered && t.submitted == s.submitted + [cb]
    case Serve =>
      && Queue(s) != [] && Queue(t) == Queue(s)[1..]
      && t.delivered == s.delivered + [Queue(s)[0]] && t.submitted == s.submitted
    case Stutter =>
      Queue(t) == Queue(s) && t.delivered == s.delivered && t.submitted == s.submitted
  }

  function Abstraction(e: Event): QueueOp {
    match e
    case Fetch(cb) => if cb.callable then Submit(cb) else Stutter
    case DeliverNext => Serve
    case _ => Stutter
  }

  lemma FetchSubmits(s: State, cb: Callback)
    requires Inv(s)
    ensures Performs(s, FetchStep(s, cb), Abstraction(Fetch(cb)))
  {
    FetchKeepsInv(s, cb);
    assert Queue(s) + [] == Queue(s);
  }

  lemma WorkerStutters(s: State, e: Event)
    requires Inv(s) && Legal(s, e)
    requires e.WorkerRead? || e.WorkerWrite? || e.WorkerRemove? || e.WorkerPost?
    ensures Performs(s, Step(s, e), Stutter)
  {
    WorkerKeepsInv(s, e);
  }

  /**
   Each step is one operation of a plain queue of waiters: only a fetch submits, only a delivery
   serves (and it calls the head of the queue), and completing, even with a stale snapshot that
   restarts every waiter, leaves the queue as it was.
   */
  lemma RefinesFifo(s: State, e: Event)
    requires Inv(s) && Legal(s, e)
    ensures Performs(s, Step(s, e), Abstraction(e))
  {
    match e
    case Fetch(cb) => FetchSubmits(s, cb);
    case Complete(i) => CompleteEffect(s);
    case DeliverNext => DeliverKeepsInv(s);
    case Invalidate => InvalidateKeepsInv(s, s.inputs);
    case ChangeInputs(inputs) => InvalidateKeepsInv(s, inputs);
    case _ => WorkerStutters(s, e);
  }

  // ---------------------------------------------------------------- whole runs

  lemma {:induction false} RunKeepsInv(s: State, es: seq<Event>)
    requires Inv(s) && LegalRun(s, es)
    ensures Inv(Run(s, es))
    decreases |es|
  {
    if es == [] {
    } else {
      StepKeepsInv(s, es[0]);
      RunKeepsInv(Step(s, es[0]), es[1..]);
    }
  }

  /** The callable callbacks that a run submits, in order. */
  function Submissions(es: seq<Event>): seq<Callback> {
    if es == [] then []
    else (if es[0].Fetch? && es[0].cb.callable then [es[0].cb] else []) + Submissions(es[1..])
  }

  lemma {:induction false} RunSubmits(s: State, es: seq<Event>)
    requires Inv(s) && LegalRun(s, es)
    ensures Run(s, es).submitted == s.submitted + Submissions(es)
    decreases |es|
  {
    if es == [] {
      assert s.submitted + [] == s.submitted;
    } else {
      var t := Step(s, es[0]);
      RefinesFifo(s, es[0]);
      StepKeepsInv(s, es[0]);
      RunSubmits(t, es[1..]);
      var first := if es[0].Fetch? && es[0].cb.callable then [es[0].cb] else [];
      assert t.submitted == s.submitted + first;
      ConcatAssoc(s.submitted, first, Submissions(es[1..]));
    }
  }

  /**
   Conservation. After any run, the callable callbacks submitted so far are, in submission order,
   the delivered ones followed by the batch being delivered followed by those waiting for the one
   outstanding worker; and when nothing is outstanding every one of them has been called.
   */
  lemma NoCallbackLost(inputs: Inputs, es: seq<Event>)
    requires LegalRun(Init(inputs), es)
    ensures var t := Run(Init(inputs), es);
            && Submissions(es) == t.delivered + t.delivering + Waiting(t)
            && |t.workers| <= 1 && (t.inFlight <==> |t.workers| == 1)
            && (t.workers == [] && t.delivering == [] ==> t.delivered == Submissions(es))
  {
    var s := Init(inputs);
    assert Inv(s);
    RunKeepsInv(s, es);
    RunSubmits(s, es);
    var t := Run(s, es);
    assert [] + Submissions(es) == Submissions(es);
    assert t.delivered + (t.delivering + Waiting(t)) == t.delivered + t.delivering + Waiting(t);
    if t.workers == [] && t.delivering == [] {
      assert Waiting(t) == [];
      assert t.delivered + [] + [] == t.delivered;
    }
  }

  function Invalidations(es: seq<Event>): nat {
    if es == [] then 0
    else (if es[0].Invalidate? || es[0].ChangeInputs? then 1 else 0) + Invalidations(es[1..])
  }

  function Completions(es: seq<Event>): nat {
    if es == [] then 0 else (if es[0].Complete? then 1 else 0) + Completions(es[1..])
  }

  lemma StepGeneration(s: State, e: Event)
    requires Inv(s) && Legal(s, e)
    ensures Step(s, e).generation == s.generation + (if e.Invalidate? || e.ChangeInputs? then 1 else 0)
  {
    if e.Complete? {
      CompleteEffect(s);
    }
  }

  lemma {:induction false} GenerationCounts(s: State, es: seq<Event>)
    requires Inv(s) && LegalRun(s, es)
    ensures Run(s, es).generation == s.generation + Invalidations(es)
    decreases |es|
  {
    if es == [] {
    } else {
      StepKeepsInv(s, es[0]);
      StepGeneration(s, es[0]);
      GenerationCounts(Step(s, es[0]), es[1..]);
    }
  }

  lemma {:induction false} PayloadStays(s: State, es: seq<Event>)
    requires Inv(s) && LegalRun(s, es) && Completions(es) == 0
    ensures Run(s, es).payload == s.payload
    decreases |es|
  {
    if es == [] {
    } else {
      StepKeepsInv(s, es[0]);
      PayloadStays(Step(s, es[0]), es[1..]);
    }
  }

  /**
   Freshness inside a batch. A callback called later in the batch still gets current data exactly
   when nothing invalidated the catalog since the batch began; callbacks before it may have done so.
   */
  lemma LaterDeliveryFreshIff(s: State, es: seq<Event>)
    requires Inv(s) && Legal(s, Complete(0)) && Step(s, Complete(0)).delivering != []
    requires LegalRun(Step(s, Complete(0)), es) && Completions(es) == 0
    ensures var t := Run(Step(s, Complete(0)), es);
            && t.payload.Some?
            && (t.payload.value.generation == t.generation <==> Invalidations(es) == 0)
            && (Invalidations(es) == 0 ==> t.payload.value.sources == {Tag(t.generation, t.inputs.npsso)})
  {
    var u := Step(s, Complete(0));
    CompleteEffect(s);
    GenerationCounts(u, es);
    PayloadStays(u, es);
    RunKeepsInv(u, es);
  }

  /** Two fetches before the worker posts its data. */
  function TwoWaiting(inputs: Inputs, a: Callback, b: Callback, settled: string): State {
    var s := FetchStep(FetchStep(Init(inputs), a), b);
    Step(s, WorkerPost(0, Success(settled)))
  }

  lemma TwoWaitingIsReachable(inputs: Inputs, a: Callback, b: Callback, settled: string)
    requires a.callable && b.callable
    ensures var s := TwoWaiting(inputs, a, b, settled);
            Inv(s) && Legal(s, Complete(0)) && s.workers[0].generation == s.generation && Waiting(s) == [a, b]
  {
    var s0 := Init(inputs);
    assert Inv(s0) && Queue(s0) == [];
    FetchKeepsInv(s0, a);
    var s1 := FetchStep(s0, a);
    FetchKeepsInv(s1, b);
    var s2 := FetchStep(s1, b);
    assert Queue(s2) == [] + [a] + [b] == [a, b];
    StepKeepsInv(s2, WorkerPost(0, Success(settled)));
    WorkerStutters(s2, WorkerPost(0, Success(settled)));
    var s3 := TwoWaiting(inputs, a, b, settled);
    assert Queue(s3) == [] + Waiting(s3);
  }

  /** Two callbacks in one batch, of which the first invalidates: the second is called with old data. */
  lemma InvalidatingCallbackLeavesOldData(inputs: Inputs, a: Callback, b: Callback, settled: string)
    requires a.callable && b.callable
    ensures var s := TwoWaiting(inputs, a, b, settled);
            Legal(s, Complete(0)) && Step(s, Complete(0)).delivering == [a, b]
            && var t := Step(Step(Step(s, Complete(0)), DeliverNext), Invalidate);
               && t.delivering == [b] && t.payload.Some? && t.payload.value.outcome == Success(settled)
               && t.payload.value.generation != t.generation
  {
    var s := TwoWaiting(inputs, a, b, settled);
    TwoWaitingIsReachable(inputs, a, b, settled);
    CompleteCurrent(s);
    assert s.workers[..0] + s.workers[1..] == [];
    assert [a, b][1..] == [b];
  }

  // ---------------------------------------------------------------- progress

  function Stale(s: State): nat {
    if s.workers != [] && s.workers[0].generation != s.generation then 1 else 0
  }

  /** The callbacks of `s` have all been called or are all in the batch being delivered. */
  ghost predicate Served(s: State, t: State) {
    s.submitted <= t.delivered + t.delivering
  }

  /** A completion of a stale worker leaves none behind that is stale; any other serves all waiters. */
  lemma CompleteBudget(s: State)
    requires Inv(s) && Legal(s, Complete(0))
    ensures var t := CompleteStep(s, 0);
            Stale(t) == 0 && (Stale(s) == 1 || Served(s, t))
  {
    CompleteEffect(s);
    if Stale(s) == 0 {
      assert CompleteStep(s, 0).delivering == s.delivering + Waiting(s);
    }
  }

  /** Only an invalidation makes the outstanding worker stale. */
  lemma OtherBudget(s: State, e: Event)
    requires Inv(s) && Legal(s, e) && !e.Complete?
    ensures Stale(Step(s, e)) <= Stale(s) + (if e.Invalidate? || e.ChangeInputs? then 1 else 0)
  {
    if e.Fetch? {
      EnterWaits(if e.cb.callable then s.(submitted := s.submitted + [e.cb]) else s, e.cb);
    }
  }

  /** One step: the stale completions are paid for by invalidations, unless the waiters get served. */
  lemma StepBudget(s: State, e: Event)
    requires Inv(s) && Legal(s, e)
    ensures var t := Step(s, e);
            || (e.Complete? && Served(s, t))
            || Completions([e]) + Stale(t) <= Invalidations([e]) + Stale(s)
  {
    assert [e][1..] == [];
    if e.Complete? {
      assert e.i == 0;
      CompleteBudget(s);
    } else {
      OtherBudget(s, e);
    }
  }

  lemma CompleteKeepsCalled(t: State)
    requires Inv(t) && Legal(t, Complete(0))
    ensures var u := CompleteStep(t, 0);
            t.delivered + t.delivering <= u.delivered + u.delivering
  {
    CompleteEffect(t);
    assert t.delivered + [] == t.delivered;
  }

  lemma DeliverKeepsCalled(t: State)
    requires t.delivering != []
    ensures var u := DeliverStep(t);
            t.delivered + t.delivering == u.delivered + u.delivering
  {
    var u := DeliverStep(t);
    assert t.delivering == [t.delivering[0]] + u.delivering;
    ConcatAssoc(t.delivered, [t.delivering[0]], u.delivering);
  }

  lemma OtherStepsDeliverNothing(t: State, e: Event)
    requires Legal(t, e) && !e.Complete? && !e.DeliverNext?
    ensures Step(t, e).delivered == t.delivered && Step(t, e).delivering == t.delivering
  {
  }

  /** No step takes away a callback that has been called or is being called. */
  lemma StepKeepsCalled(t: State, e: Event)
    requires Inv(t) && Legal(t, e)
    ensures t.delivered + t.delivering <= Step(t, e).delivered + Step(t, e).delivering
  {
    if e.Complete? {
      assert e.i == 0;
      CompleteKeepsCalled(t);
    } else if e.DeliverNext? {
      DeliverKeepsCalled(t);
    } else {
      OtherStepsDeliverNothing(t, e);
    }
  }

  lemma ServedStep(s: State, t: State, e: Event)
    requires Inv(t) && Legal(t, e) && Served(s, t)
    ensures Served(s, Step(t, e))
  {
    StepKeepsCalled(t, e);
  }

  lemma {:induction false} ServedStays(s: State, t: State, es: seq<Event>)
    requires Inv(t) && LegalRun(t, es) && Served(s, t)
    ensures Served(s, Run(t, es))
    decreases |es|
  {
    if es == [] {
    } else {
      StepKeepsInv(t, es[0]);
      ServedStep(s, t, es[0]);
      ServedStays(s, Step(t, es[0]), es[1..]);
    }
  }

  lemma SubmittedGrows(s: State, e: Event)
    requires Inv(s) && Legal(s, e)
    ensures s.submitted <= Step(s, e).submitted
  {
    RefinesFifo(s, e);
  }

  lemma CountsOfFirst(es: seq<Event>)
    requires es != []
    ensures Completions(es) == Completions([es[0]]) + Completions(es[1..])
    ensures Invalidations(es) == Invalidations([es[0]]) + Invalidations(es[1..])
  {
    assert [es[0]][1..] == [];
  }

  lemma {:induction false} BudgetOrServed(s: State, t: State, es: seq<Event>)
    requires Inv(s) && Inv(t) && s.submitted <= t.submitted && LegalRun(t, es)
    ensures || Served(s, Run(t, es))
            || Completions(es) + Stale(Run(t, es)) <= Invalidations(es) + Stale(t)
    decreases |es|
  {
    if es == [] {
    } else {
      var e, u := es[0], Step(t, es[0]);
      StepKeepsInv(t, e);
      StepBudget(t, e);
      if e.Complete? && Served(t, u) {
        assert Served(s, u);
        ServedStays(s, u, es[1..]);
      } else {
        CountsOfFirst(es);
        SubmittedGrows(t, e);
        BudgetOrServed(s, u, es[1..]);
      }
    }
  }

  /**
   Progress. In a run with n invalidations, n + 2 completions (n + 1 when the worker outstanding at
   the start is not stale) are enough: once the handler of the last one has returned, every callback
   submitted before the run has been called.
   */
  lemma DeliveredWithinBudget(s: State, es: seq<Event>)
    requires Inv(s) && LegalRun(s, es)
    requires Completions(es) > Invalidations(es) + Stale(s)
    requires Run(s, es).delivering == []
    ensures s.submitted <= Run(s, es).delivered
  {
    BudgetOrServed(s, s, es);
    var t := Run(s, es);
    assert t.delivered + [] == t.delivered;
  }

  lemma {:induction false} RunAppend(s: State, a: seq<Event>, b: seq<Event>)
    requires LegalRun(s, a) && LegalRun(Run(s, a), b)
    ensures LegalRun(s, a + b) && Run(s, a + b) == Run(Run(s, a), b)
    ensures Completions(a + b) == Completions(a) + Completions(b)
    decreases |a|
  {
    if a == [] {
      assert a + b == b;
    } else {
      assert (a + b)[1..] == a[1..] + b;
      RunAppend(Step(s, a[0]), a[1..], b);
    }
  }

  /** Delivering the current batch to its end needs nothing from the outside. */
  lemma {:induction false} DeliverRest(s: State) returns (es: seq<Event>)
    requires Inv(s)
    ensures LegalRun(s, es) && Completions(es) == 0 && Submissions(es) == []
    ensures var t := Run(s, es);
            Inv(t) && t.delivering == [] && t.workers == s.workers && t.generation == s.generation
    decreases |s.delivering|
  {
    if s.delivering == [] {
      es := [];
    } else {
      StepKeepsInv(s, DeliverNext);
      var rest := DeliverRest(Step(s, DeliverNext));
      es := [DeliverNext] + rest;
      assert es[1..] == rest;
    }
  }

  lemma RunOne(s: State, e: Event)
    requires Legal(s, e)
    ensures LegalRun(s, [e]) && Run(s, [e]) == Step(s, e)
  {
    var es := [e];
    assert es[1..] == [];
    assert Run(s, es) == Run(Step(s, es[0]), es[1..]);
  }

  /** A running worker can always post its result. */
  lemma PostWorker(s: State) returns (es: seq<Event>)
    requires Inv(s) && s.delivering == [] && s.workers != []
    ensures LegalRun(s, es) && Completions(es) == 0 && forall e :: e in es ==> !e.Fetch?
    ensures var t := Run(s, es);
            && Inv(t) && t.delivering == [] && t.generation == s.generation
            && |t.workers| == 1 && t.workers[0].phase.Posted? && t.workers[0].generation == s.workers[0].generation
  {
    if s.workers[0].phase.Running? {
      StepKeepsInv(s, WorkerPost(0, Failure));
      RunOne(s, WorkerPost(0, Failure));
      es := [WorkerPost(0, Failure)];
      assert es[1..] == [];
    } else {
      es := [];
    }
  }

  /** With no batch in delivery, the worker can post and its completion runs. */
  lemma FinishWorker(s: State) returns (es: seq<Event>)
    requires Inv(s) && s.delivering == [] && s.workers != []
    ensures LegalRun(s, es) && Completions(es) == 1 && Submissions(es) == []
    ensures var t := Run(s, es);
            && Inv(t) && CurrentWorker(t)
            && (s.workers[0].generation == s.generation ==> t.workers == [])
            && (s.workers[0].generation != s.generation ==> t.delivering == [])
  {
    es := PostWorker(s);
    var u := Run(s, es);
    CompleteEffect(u);
    RunOne(u, Complete(0));
    RunAppend(s, es, [Complete(0)]);
    es := es + [Complete(0)];
    NoFetchSubmitsNothing(es);
  }

  lemma {:induction false} NoFetchSubmitsNothing(es: seq<Event>)
    requires forall e :: e in es ==> !e.Fetch?
    ensures Submissions(es) == []
  {
    if es == [] {
    } else {
      NoFetchSubmitsNothing(es[1..]);
    }
  }

  /**
   No waiter can be stuck. From every state that satisfies the invariant there is a run without new
   fetches and with at most two completions that calls every callback submitted so far.
   */
  lemma CanDrain(s: State) returns (es: seq<Event>)
    requires Inv(s)
    ensures LegalRun(s, es) && Completions(es) <= 2
    ensures Run(s, es).delivered == s.submitted && Run(s, es).workers == []
  {
    es := DeliverRest(s);
    RunSubmits(s, es);
    var t := Run(s, es);
    var rounds := 0;
    while t.workers != []
      invariant LegalRun(s, es) && t == Run(s, es) && Inv(t) && t.delivering == []
      invariant Completions(es) == rounds && t.submitted == s.submitted
      invariant rounds <= 2 && (rounds == 1 ==> CurrentWorker(t)) && (rounds == 2 ==> t.workers == [])
      decreases 2 - rounds
    {
      var fin := FinishWorker(t);
      RunAppend(s, es, fin);
      var u := Run(t, fin);
      var rest := DeliverRest(u);
      RunAppend(s, es + fin, rest);
      RunSubmits(t, fin);
      RunSubmits(u, rest);
      es := es + fin + rest;
      t := Run(u, rest);
      rounds := rounds + 1;
    }
    assert Waiting(t) == [];
    assert t.delivered + [] == t.delivered;
  }
}
