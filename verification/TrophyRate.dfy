/**
 The trophy chain behind the request limiter: a fetch that no other request competes with asks again
 200 ms or more after each refusal, so the limiter cannot hold it up for ever.
 */
module TrophyRate {
  import opened Collections
  import opened PsnLimiter
  import Trophies

  /** An event at a clock time. */
  datatype TimedEvent = At(now: int, event: Trophies.Event)

  /**
   The fetch, the limiter's list, and the time of the last event. While requests are being refused,
   `since` is the time of the first refusal and `refused` their number; `refusals` counts all of them.
   */
  datatype State = State(
    fetch: Trophies.Fetch,
    times: seq<int>,
    clock: int,
    since: int,
    refused: nat,
    refusals: nat)

  /** The fetch is about to ask for its first request; the list may hold anything granted before. */
  function Start(npTitleId: string, times: seq<int>, clock: int): State {
    State(Trophies.Asked(npTitleId), times, clock, clock, 0, 0)
  }

  /** The clock does not go back, the limiter decides, and a refused request waits before it asks again. */
  predicate Legal(s: State, e: TimedEvent) {
    && s.clock <= e.now && Trophies.Legal(s.fetch, e.event)
    && (e.event.LimiterGrants? ==> Granted(s.times, e.now))
    && (e.event.LimiterRefuses? ==> !Granted(s.times, e.now))
    && (s.refused > 0 ==> s.clock + RETRY_MS <= e.now)
  }

  function Step(s: State, e: TimedEvent): State
    requires Legal(s, e)
  {
    var t := s.(fetch := Trophies.Step(s.fetch, e.event), clock := e.now);
    match e.event
    case LimiterGrants => t.(times := After(s.times, e.now), refused := 0)
    case LimiterRefuses =>
      t.(times := After(s.times, e.now), since := if s.refused == 0 then e.now else s.since,
         refused := s.refused + 1, refusals := s.refusals + 1)
    case _ => t
  }

  predicate LegalRun(s: State, es: seq<TimedEvent>)
    decreases |es|
  {
    es == [] || (Legal(s, es[0]) && LegalRun(Step(s, es[0]), es[1..]))
  }

  function Run(s: State, es: seq<TimedEvent>): State
    requires LegalRun(s, es)
    decreases |es|
  {
    if es == [] then s else Run(Step(s, es[0]), es[1..])
  }

  // ---------------------------------------------------------------- one request

  const MAX_REFUSALS := 6

  /** Nothing on the list is later than the first refusal, and the refusals are spaced. */
  ghost predicate Waiting(s: State) {
    && (forall t :: t in s.times ==> t <= if s.refused > 0 then s.since else s.clock)
    && (s.refused > 0 ==> s.fetch.chain.Asking? && s.since + RETRY_MS * (s.refused - 1) <= s.clock)
    && s.refused <= MAX_REFUSALS
  }

  /** A refusal means that something on the list has not expired. */
  lemma RefusalNeedsLive(times: seq<int>, now: int, latest: int)
    requires !Granted(times, now) && forall t :: t in times ==> t <= latest
    ensures now - latest <= WINDOW_MS
  {
    LiveMembers(times, now);
    var t := Live(times, now)[0];
    assert t in Live(times, now);
    assert t <= latest && !Expired(now, t);
  }

  lemma AfterMembers(times: seq<int>, now: int)
    ensures forall t :: t in After(times, now) ==> t in times || t == now
    ensures !Granted(times, now) ==> forall t :: t in After(times, now) ==> t in times
  {
    LiveMembers(times, now);
  }

  lemma StepKeepsWaiting(s: State, e: TimedEvent)
    requires Waiting(s) && Legal(s, e)
    ensures Waiting(Step(s, e))
  {
    AfterMembers(s.times, e.now);
    if e.event.LimiterRefuses? {
      RefusalNeedsLive(s.times, e.now, if s.refused > 0 then s.since else e.now);
    }
  }

  // ---------------------------------------------------------------- the whole fetch

  /** Every request is refused at most six times before it goes out. */
  ghost predicate Inv(s: State) {
    && Trophies.Inv(s.fetch) && Waiting(s)
    && s.refusals <= MAX_REFUSALS * s.fetch.requests + s.refused
  }

  lemma StepKeepsInv(s: State, e: TimedEvent)
    requires Inv(s) && Legal(s, e)
    ensures Inv(Step(s, e))
    ensures if e.event.LimiterRefuses? then Step(s, e).fetch == s.fetch && Step(s, e).refusals == s.refusals + 1
            else Step(s, e).refusals == s.refusals
                 && Trophies.Measure(Step(s, e).fetch.chain) < Trophies.Measure(s.fetch.chain)
  {
    Trophies.StepKeepsInv(s.fetch, e.event);
    StepKeepsWaiting(s, e);
  }

  lemma {:induction false} RunKeepsInv(s: State, es: seq<TimedEvent>)
    requires Inv(s) && LegalRun(s, es)
    ensures Inv(Run(s, es))
    ensures |es| + s.refusals + Trophies.Measure(Run(s, es).fetch.chain)
            <= Trophies.Measure(s.fetch.chain) + Run(s, es).refusals
    decreases |es|
  {
    if es == [] {
    } else {
      StepKeepsInv(s, es[0]);
      RunKeepsInv(Step(s, es[0]), es[1..]);
    }
  }

  /** As long as nothing has been emitted some event is due, at the latest 200 ms from now. */
  lemma SomethingIsDue(s: State)
    requires Inv(s) && s.fetch.emitted == []
    ensures exists e :: Legal(s, e) && e.now == s.clock + RETRY_MS
  {
    var now := s.clock + RETRY_MS;
    match s.fetch.chain
    case Asking(_) =>
      assert Legal(s, At(now, if Granted(s.times, now) then Trophies.LimiterGrants else Trophies.LimiterRefuses));
    case Awaiting(_) => assert Legal(s, At(now, Trophies.Replied(Trophies.NotAnObject, false)));
    case Refreshing(_) => assert Legal(s, At(now, Trophies.RefreshFails));
  }

  /**
   A fetch that no other request competes with always ends. Whatever the replies are and whatever the
   limiter granted before, each of its requests, the first included, is refused at most six times, all of
   them together at most 42 times, and a run has at most 62 events and can only stop once the answer has
   been emitted.
   */
  lemma LoneFetchEnds(npTitleId: string, times: seq<int>, clock: int, es: seq<TimedEvent>)
    requires forall t :: t in times ==> t <= clock
    requires LegalRun(Start(npTitleId, times, clock), es)
    ensures var s := Run(Start(npTitleId, times, clock), es);
            && s.refused <= 6 && s.refusals <= 42 && |es| <= 62
            && (s.fetch.emitted == [] <==> exists e :: Legal(s, e))
  {
    RunKeepsInv(Start(npTitleId, times, clock), es);
    var s := Run(Start(npTitleId, times, clock), es);
    if s.fetch.emitted == [] {
      SomethingIsDue(s);
    }
  }
}
