/**
 Counting stream time and throttling the review prompt by it, over any number of launches of the app.
 */
module ReviewThrottle {

  const FIRST_PROMPT_MS := 10 * 60 * 1000
  const BETWEEN_PROMPTS_MS := 60 * 60 * 1000

  /** `totalMs` and `lastPromptMs` are stored settings; the rest lives for one launch. */
  datatype State = State(
    totalMs: int,
    lastPromptMs: int,
    timerRunning: bool,
    timerStart: int,
    armed: bool,
    checkPending: bool,
    requestedThisLaunch: bool,
    promptsThisLaunch: nat,
    prompts: nat)

  const INITIAL := State(0, 0, false, 0, false, false, false, 0, 0)

  /** What happens, each at a time of the monotonic clock. */
  datatype Event =
    | Launched(time: int)
    | Armed(time: int)
    | Activated(time: int, donationActive: bool)
    | Connected(time: int)
    | Flushed(time: int)

  function LaunchStep(s: State): State {
    s.(timerRunning := false, armed := false, checkPending := false, requestedThisLaunch := false,
       promptsThisLaunch := 0)
  }

  function ArmStep(s: State): State {
    if s.armed then s else s.(armed := true, checkPending := true)
  }

  predicate Eligible(s: State) {
    s.totalMs >= if s.lastPromptMs == 0 then FIRST_PROMPT_MS else s.lastPromptMs + BETWEEN_PROMPTS_MS
  }

  function RequestStep(s: State, donationActive: bool): State {
    if s.requestedThisLaunch || !Eligible(s) || donationActive then s
    else s.(requestedThisLaunch := true, lastPromptMs := s.totalMs, prompts := s.prompts + 1,
            promptsThisLaunch := s.promptsThisLaunch + 1)
  }

  function ActivateStep(s: State, donationActive: bool): State {
    if s.checkPending then RequestStep(s.(checkPending := false), donationActive) else s
  }

  function ConnectStep(s: State, now: int): State {
    if s.timerRunning then s else s.(timerRunning := true, timerStart := now)
  }

  function FlushStep(s: State, now: int): State {
    if s.timerRunning then s.(timerRunning := false, totalMs := s.totalMs + (now - s.timerStart)) else s
  }

  function Step(s: State, e: Event): State {
    match e
    case Launched(_) => LaunchStep(s)
    case Armed(_) => ArmStep(s)
    case Activated(_, donationActive) => ActivateStep(s, donationActive)
    case Connected(now) => ConnectStep(s, now)
    case Flushed(now) => FlushStep(s, now)
  }

  function Run(s: State, es: seq<Event>): State
    decreases |es|
  {
    if es == [] then s else Run(Step(s, es[0]), es[1..])
  }

  /** The clock does not go back. */
  predicate InOrder(clock: int, es: seq<Event>)
    decreases |es|
  {
    es == [] || (clock <= es[0].time && InOrder(es[0].time, es[1..]))
  }

  function EndTime(clock: int, es: seq<Event>): int {
    if es == [] then clock else es[|es| - 1].time
  }

  // ---------------------------------------------------------------- stream time

  /** Whether a session is open after an event: a connection opens it, a flush or a launch ends it. */
  predicate OpenAfter(open: bool, e: Event) {
    match e
    case Connected(_) => true
    case Flushed(_) => false
    case Launched(_) => false
    case _ => open
  }

  /** The clock time spent with a session open: the gaps between events, where one is open. */
  function OpenTime(open: bool, clock: int, es: seq<Event>): int
    decreases |es|
  {
    if es == [] then 0
    else (if open then es[0].time - clock else 0) + OpenTime(OpenAfter(open, es[0]), es[0].time, es[1..])
  }

  /** The session that is open now ends by a flush, not by a launch or not at all. */
  predicate EndsFlushed(es: seq<Event>)
    decreases |es|
  {
    es != [] && (es[0].Flushed? || (!es[0].Launched? && EndsFlushed(es[1..])))
  }

  /** The open time of the sessions that end by a flush. */
  function KeptTime(open: bool, clock: int, es: seq<Event>): int
    decreases |es|
  {
    if es == [] then 0
    else (if open && EndsFlushed(es) then es[0].time - clock else 0)
         + KeptTime(OpenAfter(open, es[0]), es[0].time, es[1..])
  }

  /** The open time of the other sessions. */
  function UnflushedTime(open: bool, clock: int, es: seq<Event>): int
    decreases |es|
  {
    if es == [] then 0
    else (if open && !EndsFlushed(es) then es[0].time - clock else 0)
         + UnflushedTime(OpenAfter(open, es[0]), es[0].time, es[1..])
  }

  /** The time on a timer that is running and will be flushed. */
  function Due(s: State, clock: int, es: seq<Event>): int {
    if s.timerRunning && EndsFlushed(es) then clock - s.timerStart else 0
  }

  lemma {:induction false} StoredIsKept(s: State, clock: int, es: seq<Event>)
    ensures Run(s, es).totalMs == s.totalMs + Due(s, clock, es) + KeptTime(s.timerRunning, clock, es)
    decreases |es|
  {
    if es == [] {
    } else {
      var e, t := es[0], Step(s, es[0]);
      StoredIsKept(t, e.time, es[1..]);
      assert t.timerRunning == OpenAfter(s.timerRunning, e);
      assert t.totalMs + Due(t, e.time, es[1..])
          == s.totalMs + Due(s, clock, es) + (if s.timerRunning && EndsFlushed(es) then e.time - clock else 0);
    }
  }

  lemma {:induction false} OpenIsKeptOrNot(open: bool, clock: int, es: seq<Event>)
    ensures KeptTime(open, clock, es) + UnflushedTime(open, clock, es) == OpenTime(open, clock, es)
    decreases |es|
  {
    if es == [] {
    } else {
      OpenIsKeptOrNot(OpenAfter(open, es[0]), es[0].time, es[1..]);
    }
  }

  /**
   Stream time is counted once. Over any run the stored total is the clock time spent with a session
   open in those sessions that end by a flush, however often a connection or a flush was reported; only
   the sessions cut off by a launch, or still open, are missing from the open time.
   */
  lemma TotalIsOpenTime(start: int, es: seq<Event>)
    ensures Run(INITIAL, es).totalMs == KeptTime(false, start, es)
    ensures Run(INITIAL, es).totalMs + UnflushedTime(false, start, es) == OpenTime(false, start, es)
  {
    StoredIsKept(INITIAL, start, es);
    OpenIsKeptOrNot(false, start, es);
  }

  /** No session is open at the end, and none was open when the app was launched again. */
  predicate NoneCutOff(open: bool, es: seq<Event>)
    decreases |es|
  {
    if es == [] then !open else !(open && es[0].Launched?) && NoneCutOff(OpenAfter(open, es[0]), es[1..])
  }

  lemma {:induction false} NothingUnflushed(open: bool, clock: int, es: seq<Event>)
    requires NoneCutOff(open, es)
    ensures UnflushedTime(open, clock, es) == 0 && (open ==> EndsFlushed(es))
    decreases |es|
  {
    if es == [] {
    } else {
      NothingUnflushed(OpenAfter(open, es[0]), es[0].time, es[1..]);
    }
  }

  /** When no session is cut off, the stored total is the whole open time. */
  lemma NothingMissing(start: int, es: seq<Event>)
    requires NoneCutOff(false, es)
    ensures Run(INITIAL, es).totalMs == OpenTime(false, start, es)
  {
    TotalIsOpenTime(start, es);
    NothingUnflushed(false, start, es);
  }

  // ---------------------------------------------------------------- prompts

  ghost predicate Inv(s: State, clock: int) {
    && s.totalMs >= 0 && (s.timerRunning ==> s.timerStart <= clock)
    && (s.checkPending ==> s.armed) && (s.requestedThisLaunch ==> s.armed && !s.checkPending)
    && s.promptsThisLaunch == (if s.requestedThisLaunch then 1 else 0)
    && (if s.prompts == 0 then s.lastPromptMs == 0
        else FIRST_PROMPT_MS + BETWEEN_PROMPTS_MS * (s.prompts - 1) <= s.lastPromptMs <= s.totalMs)
  }

  lemma StepKeepsInv(s: State, clock: int, e: Event)
    requires Inv(s, clock) && clock <= e.time
    ensures Inv(Step(s, e), e.time) && Step(s, e).totalMs >= s.totalMs
  {
  }

  lemma {:induction false} RunKeepsInv(s: State, clock: int, es: seq<Event>)
    requires Inv(s, clock) && InOrder(clock, es)
    ensures Inv(Run(s, es), EndTime(clock, es))
    decreases |es|
  {
    if es == [] {
    } else {
      StepKeepsInv(s, clock, es[0]);
      RunKeepsInv(Step(s, es[0]), es[0].time, es[1..]);
      assert EndTime(es[0].time, es[1..]) == EndTime(clock, es);
    }
  }

  /**
   Over any run there is at most one prompt per launch, and k prompts in all take at least ten minutes
   of stream time and sixty more for each prompt after the first.
   */
  lemma PromptsAreEarned(start: int, es: seq<Event>)
    requires InOrder(start, es)
    ensures var s := Run(INITIAL, es);
            && s.promptsThisLaunch <= 1
            && (s.prompts >= 1 ==> s.totalMs >= FIRST_PROMPT_MS + BETWEEN_PROMPTS_MS * (s.prompts - 1))
  {
    RunKeepsInv(INITIAL, start, es);
  }

  /** The stored stream time at each prompt of the run. */
  function PromptTotals(s: State, es: seq<Event>): seq<int>
    decreases |es|
  {
    if es == [] then []
    else
      var t := Step(s, es[0]);
      (if t.prompts > s.prompts then [t.totalMs] else []) + PromptTotals(t, es[1..])
  }

  /** The stream time needed for the next prompt: ten minutes, or sixty more than at the last one. */
  function Needed(last: int): int {
    if last == 0 then 10 * 60 * 1000 else last + 60 * 60 * 1000
  }

  predicate SpacedOut(totals: seq<int>) {
    forall i :: 0 <= i < |totals| - 1 ==> totals[i + 1] - totals[i] >= 60 * 60 * 1000
  }

  lemma PrependTotal(first: int, rest: seq<int>)
    requires SpacedOut(rest) && (rest != [] ==> rest[0] - first >= 60 * 60 * 1000)
    ensures SpacedOut([first] + rest)
  {
    var totals := [first] + rest;
    forall i | 0 <= i < |totals| - 1 ensures totals[i + 1] - totals[i] >= 60 * 60 * 1000 {
      assert totals[i + 1] == rest[i];
      assert i > 0 ==> totals[i] == rest[i - 1];
    }
  }

  /** One event prompts only when the time needed has been streamed, and remembers the total at the prompt. */
  lemma StepPrompts(s: State, clock: int, e: Event)
    requires Inv(s, clock) && clock <= e.time
    ensures var t := Step(s, e);
            if t.prompts > s.prompts then t.totalMs >= Needed(s.lastPromptMs) > 0 && t.lastPromptMs == t.totalMs
            else t.lastPromptMs == s.lastPromptMs
  {
  }

  lemma {:induction false} PromptsFollow(s: State, clock: int, es: seq<Event>)
    requires Inv(s, clock) && InOrder(clock, es)
    ensures var totals := PromptTotals(s, es);
            SpacedOut(totals) && (totals != [] ==> totals[0] >= Needed(s.lastPromptMs))
    decreases |es|
  {
    if es == [] {
    } else {
      var t := Step(s, es[0]);
      StepKeepsInv(s, clock, es[0]);
      StepPrompts(s, clock, es[0]);
      PromptsFollow(t, es[0].time, es[1..]);
      if t.prompts > s.prompts {
        PrependTotal(t.totalMs, PromptTotals(t, es[1..]));
      } else {
        assert PromptTotals(s, es) == PromptTotals(t, es[1..]);
      }
    }
  }

  lemma {:induction false} LastPrompt(s: State, clock: int, es: seq<Event>)
    requires Inv(s, clock) && InOrder(clock, es)
    ensures var totals := PromptTotals(s, es);
            && Run(s, es).lastPromptMs == (if totals == [] then s.lastPromptMs else totals[|totals| - 1])
            && (totals != [] ==> totals[|totals| - 1] > 0)
    decreases |es|
  {
    if es == [] {
    } else {
      var t := Step(s, es[0]);
      var rest := PromptTotals(t, es[1..]);
      StepKeepsInv(s, clock, es[0]);
      StepPrompts(s, clock, es[0]);
      LastPrompt(t, es[0].time, es[1..]);
      if t.prompts > s.prompts {
        assert PromptTotals(s, es) == [t.totalMs] + rest;
      } else {
        assert PromptTotals(s, es) == rest;
      }
    }
  }

  /**
   The throttle over every run: the first prompt comes after at least ten minutes of stream time, and each
   further one at least sixty minutes of stream time after the one before it actually came.
   */
  lemma PromptsAreSpaced(start: int, es: seq<Event>)
    requires InOrder(start, es)
    ensures var totals := PromptTotals(INITIAL, es);
            && (totals != [] ==> totals[0] >= 10 * 60 * 1000)
            && SpacedOut(totals)
  {
    PromptsFollow(INITIAL, start, es);
  }

  lemma RunThree(s: State, a: Event, b: Event, c: Event)
    ensures Run(s, [a, b, c]) == Step(Step(Step(s, a), b), c)
  {
    var es := [a, b, c];
    assert es[1..] == [b, c] && es[1..][1..] == [c] && es[1..][1..][1..] == [];
    var u := Step(Step(Step(s, a), b), c);
    assert Run(Step(Step(s, a), b), [c]) == Run(u, [c][1..]) == u;
    assert Run(Step(s, a), [b, c]) == Run(Step(Step(s, a), b), [c]);
    assert Run(s, es) == Run(Step(s, a), es[1..]);
  }

  /**
   A launch of the app, after any run: the prompt is armed, the app becomes active, and the user is prompted
   exactly when the stream time has come to ten minutes, or to sixty more than at the last prompt, and no
   donation offer is active.
   */
  lemma PromptedExactlyWhenEarned(start: int, es: seq<Event>, time: int, donationActive: bool)
    requires InOrder(start, es) && EndTime(start, es) <= time
    ensures var s := Run(INITIAL, es);
            var t := Run(s, [Launched(time), Armed(time), Activated(time, donationActive)]);
            var totals := PromptTotals(INITIAL, es);
            var needed := if totals == [] then 10 * 60 * 1000 else totals[|totals| - 1] + 60 * 60 * 1000;
            t.prompts == s.prompts + (if s.totalMs >= needed && !donationActive then 1 else 0)
  {
    var s := Run(INITIAL, es);
    RunKeepsInv(INITIAL, start, es);
    LastPrompt(INITIAL, start, es);
    RunThree(s, Launched(time), Armed(time), Activated(time, donationActive));
  }

  /** A check of the prompt is due: it was armed in this launch and the app has not become active since. */
  predicate CheckDue(armed: bool, due: bool, es: seq<Event>)
    decreases |es|
  {
    if es == [] then due
    else
      match es[0]
      case Launched(_) => CheckDue(false, false, es[1..])
      case Armed(_) => CheckDue(true, due || !armed, es[1..])
      case Activated(_, _) => CheckDue(armed, false, es[1..])
      case _ => CheckDue(armed, due, es[1..])
  }

  lemma {:induction false} PendingIsDue(s: State, es: seq<Event>)
    ensures Run(s, es).checkPending <==> CheckDue(s.armed, s.checkPending, es)
    decreases |es|
  {
    if es == [] {
    } else {
      PendingIsDue(Step(s, es[0]), es[1..]);
    }
  }

  /**
   Exactly when the user is prompted, after any run: the app becomes active with a check due, the stream time
   has come to ten minutes, or to sixty more than at the last prompt, and no donation offer is active.
   */
  lemma PromptedIff(start: int, es: seq<Event>, e: Event)
    requires InOrder(start, es) && EndTime(start, es) <= e.time
    ensures var s := Run(INITIAL, es);
            var totals := PromptTotals(INITIAL, es);
            var needed := if totals == [] then 10 * 60 * 1000 else totals[|totals| - 1] + 60 * 60 * 1000;
            Step(s, e).prompts
            == s.prompts + (match e
                            case Activated(_, donationActive) =>
                              if CheckDue(false, false, es) && s.totalMs >= needed && !donationActive then 1 else 0
                            case _ => 0)
  {
    RunKeepsInv(INITIAL, start, es);
    LastPrompt(INITIAL, start, es);
    PendingIsDue(INITIAL, es);
  }

  // ---------------------------------------------------------------- the objects

  class DonationManager {
    var totalMs: int
    var sessionTimerRunning: bool
    var timerStart: int

    constructor (totalMs: int)
      ensures this.totalMs == totalMs && !sessionTimerRunning && timerStart == 0
    {
      this.totalMs, sessionTimerRunning, timerStart := totalMs, false, 0;
    }

    ghost predicate Holds(s: State)
      reads this
    {
      totalMs == s.totalMs && sessionTimerRunning == s.timerRunning && timerStart == s.timerStart
    }

    method MarkConnected(now: int)
      modifies this
      ensures forall s :: old(Holds(s)) ==> Holds(ConnectStep(s, now))
    {
      if !sessionTimerRunning {
        timerStart := now;
        sessionTimerRunning := true;
      }
    }

    method FlushStreamTime(now: int)
      modifies this
      ensures forall s :: old(Holds(s)) ==> Holds(FlushStep(s, now))
    {
      if !sessionTimerRunning {
        return;
      }
      var elapsed := now - timerStart;
      sessionTimerRunning := false;
      totalMs := totalMs + elapsed;
    }
  }

  class AppReviewManager {
    const donations: DonationManager
    var lastPromptMs: int
    var armed: bool
    var checkPending: bool
    var requestedThisLaunch: bool
    ghost var prompts: nat
    ghost var promptsThisLaunch: nat

    constructor (donations: DonationManager, lastPromptMs: int, ghost prompts: nat)
      ensures this.donations == donations && this.lastPromptMs == lastPromptMs && this.prompts == prompts
      ensures !armed && !checkPending && !requestedThisLaunch && promptsThisLaunch == 0
    {
      this.donations, this.lastPromptMs, this.prompts := donations, lastPromptMs, prompts;
      armed, checkPending, requestedThisLaunch, promptsThisLaunch := false, false, false, 0;
    }

    ghost function Abs(): State
      reads this, donations
    {
      State(donations.totalMs, lastPromptMs, donations.sessionTimerRunning, donations.timerStart, armed, checkPending,
            requestedThisLaunch, promptsThisLaunch, prompts)
    }

    method ArmOnNextActivation()
      modifies this
      ensures Abs() == ArmStep(old(Abs()))
    {
      if armed {
        return;
      }
      armed := true;
      checkPending := true;
    }

    method OnActivated(donationActive: bool)
      modifies this
      ensures Abs() == ActivateStep(old(Abs()), donationActive)
    {
      if checkPending {
        checkPending := false;
        RequestReviewIfEligible(donationActive);
      }
    }

    method RequestReviewIfEligible(donationActive: bool)
      modifies this
      ensures Abs() == RequestStep(old(Abs()), donationActive)
    {
      if requestedThisLaunch {
        return;
      }
      var total := donations.totalMs;
      var needed := if lastPromptMs == 0 then 10 * 60 * 1000 else lastPromptMs + 60 * 60 * 1000;
      if total < needed {
        return;
      }
      if donationActive {
        return;
      }
      requestedThisLaunch := true;
      prompts, promptsThisLaunch := prompts + 1, promptsThisLaunch + 1;
      lastPromptMs := total;
    }
  }
}
