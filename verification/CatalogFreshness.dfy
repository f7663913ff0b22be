/**
 What a catalog fetch reads, serves and leaves on disk, told by the events of the run alone: the account
 signed in, the locale in use, the outcome posted last, and the files written since the last wipe.
 */
module CatalogFreshness {
  import opened Collections
  import opened CatalogProtocol
  import opened CatalogRuns

  // ---------------------------------------------------------------- account, locale and outcome by the events

  function Account(npsso: string, e: Event): string {
    match e
    case ChangeInputs(inputs) => inputs.npsso
    case _ => npsso
  }

  /** The account signed in after a run: that of the last change of the settings, else the first one. */
  function AccountAfter(npsso: string, es: seq<Event>): string
    decreases |es|
  {
    if es == [] then npsso else AccountAfter(Account(npsso, es[0]), es[1..])
  }

  /** The locale that a completion settles on: that of a success computed for the current generation. */
  function SettledBy(s: State, e: Event): Option<string>
    requires Legal(s, e)
  {
    match e
    case Complete(i) =>
      (match s.workers[i].phase
       case Posted(Success(settled)) =>
         if s.workers[i].generation == s.generation && settled != "" then Some(settled) else None
       case _ => None)
    case _ => None
  }

  /** The locale in use after a run: the last one chosen or settled on, else the first one. */
  function LocaleAfter(locale: string, s: State, es: seq<Event>): string
    requires LegalRun(s, es)
    decreases |es|
  {
    if es == [] then locale
    else
      var settled := SettledBy(s, es[0]);
      var next := match es[0]
                  case ChangeInputs(inputs) => inputs.locale
                  case _ => if settled.Some? then settled.value else locale;
      LocaleAfter(next, Step(s, es[0]), es[1..])
  }

  lemma StepInputs(s: State, e: Event)
    requires Inv(s) && Legal(s, e)
    ensures Step(s, e).inputs
            == match e
               case ChangeInputs(inputs) => inputs
               case _ => if SettledBy(s, e).Some? then s.inputs.(locale := SettledBy(s, e).value) else s.inputs
  {
    if e.Complete? {
      assert e.i == 0;
      if s.workers[0].generation != s.generation {
        CompleteStale(s);
      }
    }
  }

  /** The settings that a fetch reads are, after every run, the account and the locale that its events say. */
  lemma {:induction false} InputsAfter(s: State, es: seq<Event>)
    requires Inv(s) && LegalRun(s, es)
    ensures Run(s, es).inputs == Inputs(AccountAfter(s.inputs.npsso, es), LocaleAfter(s.inputs.locale, s, es))
    decreases |es|
  {
    if es == [] {
    } else {
      StepInputs(s, es[0]);
      StepKeepsInv(s, es[0]);
      InputsAfter(Step(s, es[0]), es[1..]);
    }
  }

  /** The outcome posted last by a worker. */
  function LastPosted(last: Option<Outcome>, es: seq<Event>): Option<Outcome>
    decreases |es|
  {
    if es == [] then last
    else
      match es[0]
      case WorkerPost(_, outcome) => LastPosted(Some(outcome), es[1..])
      case _ => LastPosted(last, es[1..])
  }

  ghost predicate HoldsPosted(s: State, last: Option<Outcome>) {
    forall w :: w in s.workers && w.phase.Posted? ==> last == Some(w.phase.outcome)
  }

  /**
   Where workers come from. After a step the worker is the one there was, with the same request, snapshot
   of the generation and settings, or a new one, with a new request, no sources and the current snapshot,
   started by a fetch that found none or by a stale completion with waiters.
   */
  lemma WorkerAfter(s: State, e: Event)
    requires Inv(s) && Legal(s, e)
    ensures var t := Step(s, e);
            var started := [Worker(s.nextRequestId + 1, s.generation, s.inputs, {}, Running)];
            match e
            case Fetch(_) => t.workers == if s.workers == [] then started else s.workers
            case Complete(_) =>
              t.workers == if s.workers[0].generation != s.generation && Waiting(s) != [] then started else []
            case WorkerPost(_, outcome) => t.workers == [s.workers[0].(phase := Posted(outcome))]
            case WorkerRead(_, slot) =>
              var read := if slot in s.cache then s.cache[slot] else {};
              t.workers == [s.workers[0].(sources := s.workers[0].sources + read)]
            case _ => t.workers == s.workers
  {
    match e
    case Complete(_) =>
      assert e.i == 0;
      CompletionLeaves(s);
    case WorkerRead(_, slot) =>
      assert s.workers[0].sources + {} == s.workers[0].sources;
      assert s.workers == [s.workers[0]];
    case Fetch(cb) => FetchStarts(s, cb);
    case _ =>
  }

  lemma FetchStarts(s: State, cb: Callback)
    requires OneWorker(s)
    ensures FetchStep(s, cb).workers
            == if s.workers == [] then [Worker(s.nextRequestId + 1, s.generation, s.inputs, {}, Running)] else s.workers
  {
  }

  lemma CompletionLeaves(s: State)
    requires Inv(s) && Legal(s, Complete(0))
    ensures CompleteStep(s, 0).workers
            == if s.workers[0].generation != s.generation && Waiting(s) != []
               then [Worker(s.nextRequestId + 1, s.generation, s.inputs, {}, Running)] else []
  {
    if s.workers[0].generation != s.generation {
      RestartStartsOne(s);
    } else {
      CompleteCurrent(s);
    }
  }

  lemma RestartStartsOne(s: State)
    requires Inv(s) && Legal(s, Complete(0)) && s.workers[0].generation != s.generation
    ensures CompleteStep(s, 0).workers
            == if Waiting(s) == [] then [] else [Worker(s.nextRequestId + 1, s.generation, s.inputs, {}, Running)]
  {
    var waiters := Batch(s, s.workers[0]);
    var u := Taken(s, 0).(cache := map[]);
    assert s.workers[..0] + s.workers[1..] == [];
    if waiters == [] {
    } else {
      BatchCallable(s, s.workers[0]);
      assert OneWorker(u);
      EnterWaits(u, waiters[0]);
      ParkedStartNone(Enter(u, waiters[0]), waiters[1..]);
    }
  }

  lemma {:induction false} ParkedStartNone(s: State, cbs: seq<Callback>)
    requires s.inFlight
    ensures EnterAll(s, cbs).workers == s.workers
    decreases |cbs|
  {
    if cbs == [] {
    } else {
      ParkedStartNone(Enter(s, cbs[0]), cbs[1..]);
    }
  }

  lemma {:induction false} RunHoldsPosted(s: State, last: Option<Outcome>, es: seq<Event>)
    requires Inv(s) && LegalRun(s, es) && HoldsPosted(s, last)
    ensures HoldsPosted(Run(s, es), LastPosted(last, es))
    decreases |es|
  {
    if es == [] {
    } else {
      var next := match es[0] case WorkerPost(_, outcome) => Some(outcome) case _ => last;
      WorkerAfter(s, es[0]);
      assert HoldsPosted(Step(s, es[0]), next);
      StepKeepsInv(s, es[0]);
      RunHoldsPosted(Step(s, es[0]), next, es[1..]);
    }
  }

  /** A completion that starts to deliver passes on its worker's outcome and data of the state's generation. */
  lemma PayloadOfCompletion(s: State)
    requires Inv(s) && Legal(s, Complete(0)) && CompleteStep(s, 0).delivering != []
    ensures var tag := Tag(s.generation, s.inputs.npsso);
            && s.workers[0].generation == s.generation
            && CompleteStep(s, 0).payload == Some(Payload(s.workers[0].phase.outcome, s.generation, tag.npsso, {tag}))
  {
    CompleteEffect(s);
    assert s.workers[0].generation == s.generation;
    CompleteCurrent(s);
  }

  /**
   Freshness of what is served. A completion that starts to deliver, in any reachable state, passes on the
   outcome posted last, and its data was computed only after the last invalidation and for the account
   signed in now.
   */
  lemma DeliveryStartsFresh(inputs: Inputs, es: seq<Event>, i: nat)
    requires LegalRun(Init(inputs), es)
    requires var s := Run(Init(inputs), es);
             Legal(s, Complete(i)) && Step(s, Complete(i)).delivering != []
    ensures var t := Step(Run(Init(inputs), es), Complete(i));
            && t.payload.Some?
            && t.payload.value.generation == Invalidations(es)
            && t.payload.value.sources == {Tag(Invalidations(es), AccountAfter(inputs.npsso, es))}
            && Some(t.payload.value.outcome) == LastPosted(None, es)
  {
    var s := Run(Init(inputs), es);
    assert Inv(Init(inputs));
    RunKeepsInv(Init(inputs), es);
    GenerationCounts(Init(inputs), es);
    InputsAfter(Init(inputs), es);
    RunHoldsPosted(Init(inputs), None, es);
    assert i == 0;
    PayloadOfCompletion(s);
  }

  // ---------------------------------------------------------------- the files

  /** The step wipes all files: an invalidation, or a completion that finds its worker stale. */
  predicate Wipes(s: State, e: Event)
    requires Legal(s, e)
  {
    match e
    case Invalidate => true
    case ChangeInputs(_) => true
    case Complete(i) => s.workers[i].generation != s.generation
    case _ => false
  }

  /** Whether a file is there after a run: it was written and neither removed nor wiped since. */
  predicate FileAfter(there: bool, s: State, es: seq<Event>, slot: Slot)
    requires LegalRun(s, es)
    decreases |es|
  {
    if es == [] then there
    else
      var e := es[0];
      FileAfter((there || (e.WorkerWrite? && e.slot == slot)) && !(e.WorkerRemove? && e.slot == slot) && !Wipes(s, e),
                Step(s, e), es[1..], slot)
  }

  lemma CompleteFiles(s: State)
    requires Inv(s) && Legal(s, Complete(0))
    ensures CompleteStep(s, 0).cache == if s.workers[0].generation != s.generation then map[] else s.cache
  {
    if s.workers[0].generation != s.generation {
      CompleteStale(s);
    }
  }

  lemma FetchTouchesNoFile(s: State, cb: Callback)
    ensures FetchStep(s, cb).cache == s.cache
  {
  }

  /** Everything that data written by the worker was computed from: what it has read, and its own account. */
  function Written(w: Worker): set<Tag> {
    w.sources + {Tag(w.generation, w.inputs.npsso)}
  }

  /** The files after one step. */
  function FilesNext(s: State, e: Event): map<Slot, set<Tag>>
    requires Legal(s, e) && |s.workers| <= 1
  {
    match e
    case WorkerWrite(_, slot) => s.cache[slot := Written(s.workers[0])]
    case WorkerRemove(_, slot) => s.cache - {slot}
    case _ => if Wipes(s, e) then map[] else s.cache
  }

  lemma OtherFilesStep(s: State, e: Event)
    requires Legal(s, e) && |s.workers| <= 1 && !e.Complete?
    ensures Step(s, e).cache == FilesNext(s, e)
  {
    match e
    case Fetch(cb) => FetchTouchesNoFile(s, cb);
    case _ =>
  }

  lemma FilesStep(s: State, e: Event)
    requires Inv(s) && Legal(s, e)
    ensures Step(s, e).cache == FilesNext(s, e)
  {
    if e.Complete? {
      assert e.i == 0;
      CompleteFiles(s);
    } else {
      OtherFilesStep(s, e);
    }
  }

  /** Over every run the files on disk are those written since they were last removed or wiped. */
  lemma {:induction false} FilesAfter(s: State, es: seq<Event>, slot: Slot)
    requires Inv(s) && LegalRun(s, es)
    ensures slot in Run(s, es).cache <==> FileAfter(slot in s.cache, s, es, slot)
    decreases |es|
  {
    if es == [] {
    } else {
      FilesStep(s, es[0]);
      StepKeepsInv(s, es[0]);
      FilesAfter(Step(s, es[0]), es[1..], slot);
    }
  }

  /** The account signed in from the g-th invalidation on: each change of the account is an invalidation. */
  function AccountAt(npsso: string, es: seq<Event>, g: nat): string
    decreases |es|
  {
    if es == [] then npsso
    else if es[0].Invalidate? || es[0].ChangeInputs? then
      if g == 0 then npsso else AccountAt(Account(npsso, es[0]), es[1..], g - 1)
    else AccountAt(npsso, es[1..], g)
  }

  lemma {:induction false} AccountAtEnd(npsso: string, es: seq<Event>)
    ensures AccountAt(npsso, es, Invalidations(es)) == AccountAfter(npsso, es)
    decreases |es|
  {
    if es == [] {
    } else {
      AccountAtEnd(Account(npsso, es[0]), es[1..]);
    }
  }

  lemma {:induction false} AccountAtKept(npsso: string, es: seq<Event>, e: Event, g: nat)
    requires g <= Invalidations(es)
    ensures AccountAt(npsso, es + [e], g) == AccountAt(npsso, es, g)
    ensures Invalidations(es + [e]) == Invalidations(es) + (if e.Invalidate? || e.ChangeInputs? then 1 else 0)
    decreases |es|
  {
    if es == [] {
      assert [] + [e] == [e] && [e][1..] == [];
    } else {
      assert (es + [e])[1..] == es[1..] + [e];
      var counts := es[0].Invalidate? || es[0].ChangeInputs?;
      if counts && g == 0 {
        AccountAtKept(npsso, es[1..], e, 0);
      } else {
        AccountAtKept(Account(npsso, es[0]), es[1..], e, if counts then g - 1 else g);
      }
    }
  }

  /** The worker's account is the one signed in when its generation began. */
  ghost predicate WorkersBelong(s: State, npsso: string, es: seq<Event>) {
    && s.generation == Invalidations(es) && s.inputs.npsso == AccountAfter(npsso, es)
    && forall w :: w in s.workers ==>
         w.generation <= Invalidations(es) && w.inputs.npsso == AccountAt(npsso, es, w.generation)
  }

  lemma {:induction false} RunBelongs(s: State, npsso: string, before: seq<Event>, es: seq<Event>)
    requires Inv(s) && LegalRun(s, es) && WorkersBelong(s, npsso, before)
    ensures WorkersBelong(Run(s, es), npsso, before + es)
    decreases |es|
  {
    if es == [] {
      assert before + es == before;
    } else {
      var e := es[0];
      MoveFirst(before, es);
      StepBelongs(s, npsso, before, e);
      StepKeepsInv(s, e);
      RunBelongs(Step(s, e), npsso, before + [e], es[1..]);
    }
  }

  lemma StepBelongs(s: State, npsso: string, before: seq<Event>, e: Event)
    requires Inv(s) && Legal(s, e) && WorkersBelong(s, npsso, before)
    ensures WorkersBelong(Step(s, e), npsso, before + [e])
  {
    StepInputs(s, e);
    StepGeneration(s, e);
    WorkerAfter(s, e);
    AccountAfterSnoc(npsso, before, e);
    AccountAtEnd(npsso, before);
    forall g: nat | g <= Invalidations(before)
      ensures AccountAt(npsso, before + [e], g) == AccountAt(npsso, before, g)
    {
      AccountAtKept(npsso, before, e, g);
    }
    AccountAtKept(npsso, before, e, 0);
  }

  lemma {:induction false} AccountAfterSnoc(npsso: string, es: seq<Event>, e: Event)
    ensures AccountAfter(npsso, es + [e]) == Account(AccountAfter(npsso, es), e)
    decreases |es|
  {
    if es == [] {
      assert [] + [e] == [e] && [e][1..] == [];
    } else {
      assert (es + [e])[1..] == es[1..] + [e];
      AccountAfterSnoc(Account(npsso, es[0]), es[1..], e);
    }
  }

  /**
   Freshness of the files. In any reachable state every file on disk holds data of one generation, that of
   the outstanding worker or, with no worker outstanding, the current one, and of the account that was
   signed in when that generation began.
   */
  lemma DiskHoldsOneOrigin(inputs: Inputs, es: seq<Event>)
    requires LegalRun(Init(inputs), es)
    ensures var t := Run(Init(inputs), es);
            var g := if t.workers == [] then Invalidations(es) else t.workers[0].generation;
            && g <= Invalidations(es)
            && forall slot :: slot in t.cache ==> t.cache[slot] <= {Tag(g, AccountAt(inputs.npsso, es, g))}
  {
    assert Inv(Init(inputs));
    RunKeepsInv(Init(inputs), es);
    RunBelongs(Init(inputs), inputs.npsso, [], es);
    assert [] + es == es;
    AccountAtEnd(inputs.npsso, es);
  }
}
