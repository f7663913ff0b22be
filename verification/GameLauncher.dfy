/**
 Launching a game by playing a list of timed actions on a connected session. Each action ends by
 calling its continuation; here a pending timer names the continuation it will run.
 */
module GameLauncher {
  import opened Collections

  type Button = nat

  datatype Action =
    | Delay(ms: nat)
    | Press(button: Button, duration: nat, pause: nat)
    | Hold(x: int, y: int, duration: nat, pause: nat)
    | Text(text: string, pause: nat)

  datatype Continuation =
    | Next
    | ReleaseButtons(pause: nat)
    | CenterStick(pause: nat)
    | AcceptKeyboard(pause: nat)
    | Cleanup

  datatype Timer = Timer(ms: nat, run: Continuation)

  /** The part of the controller state that the launcher drives. */
  datatype Pad = Pad(buttons: set<Button>, x: int, y: int)

  const NEUTRAL := Pad({}, 0, 0)
  const CLEANUP_DELAY_MS := 1000

  /** `performed` records the actions that passed their guards; `elapsed` is the time since connecting. */
  datatype State = State(
    actions: seq<Action>,
    index: nat,
    timers: seq<Timer>,
    pad: Pad,
    connected: bool,
    shutDown: bool,
    completed: bool,
    elapsed: nat,
    performed: seq<Action>)

  function Fresh(actions: seq<Action>): State {
    State(actions, 0, [], NEUTRAL, true, false, false, 0, [])
  }

  function Schedule(s: State, ms: nat, run: Continuation): State {
    s.(timers := s.timers + [Timer(ms, run)])
  }

  function Execute(s: State, a: Action): State {
    match a
    case Delay(ms) => Schedule(s.(performed := s.performed + [a]), ms, Next)
    case Press(button, duration, pause) =>
      if s.shutDown || !s.connected then s
      else
        var pad := s.pad.(buttons := s.pad.buttons + {button});
        Schedule(s.(performed := s.performed + [a], pad := pad), duration, ReleaseButtons(pause))
    case Hold(x, y, duration, pause) =>
      if s.shutDown || !s.connected then s
      else Schedule(s.(performed := s.performed + [a], pad := s.pad.(x := x, y := y)), duration, CenterStick(pause))
    case Text(_, pause) =>
      if s.shutDown || !s.connected then s
      else Schedule(s.(performed := s.performed + [a]), pause, AcceptKeyboard(pause))
  }

  function RunNext(s: State): State {
    if s.shutDown then s
    else if s.index >= |s.actions| then Schedule(s.(completed := true), CLEANUP_DELAY_MS, Cleanup)
    else Execute(s.(index := s.index + 1), s.actions[s.index])
  }

  /** A pending timer fires. */
  function Fire(s: State, i: nat): State
    requires i < |s.timers|
  {
    var t := s.timers[i];
    var u := s.(timers := s.timers[..i] + s.timers[i + 1..], elapsed := s.elapsed + t.ms);
    if s.shutDown then u
    else
      match t.run
      case Next => RunNext(u)
      case ReleaseButtons(pause) => if u.connected then Schedule(u.(pad := u.pad.(buttons := {})), pause, Next) else u
      case CenterStick(pause) => if u.connected then Schedule(u.(pad := u.pad.(x := 0, y := 0)), pause, Next) else u
      case AcceptKeyboard(pause) => if u.connected then Schedule(u, pause, Next) else u
      case Cleanup => u
  }

  /** Fires the pending timer `n` times, or until none is pending. */
  function Play(s: State, n: nat): State
    decreases n
  {
    if n == 0 || s.timers == [] then s else Play(Fire(s, 0), n - 1)
  }

  // ---------------------------------------------------------------- a run that stays connected

  function DurationOf(a: Action): nat {
    match a
    case Delay(ms) => ms
    case Press(_, duration, pause) => duration + pause
    case Hold(_, _, duration, pause) => duration + pause
    case Text(_, pause) => pause + pause
  }

  function Duration(actions: seq<Action>): nat {
    if actions == [] then 0 else DurationOf(actions[0]) + Duration(actions[1..])
  }

  function TimersOf(a: Action): nat {
    if a.Delay? then 1 else 2
  }

  /** How many timers a list of actions sets in all. */
  function TimerCount(actions: seq<Action>): nat {
    if actions == [] then 0 else TimersOf(actions[0]) + TimerCount(actions[1..])
  }

  lemma {:induction false} SumsAppend(a: seq<Action>, b: seq<Action>)
    ensures Duration(a + b) == Duration(a) + Duration(b)
    ensures TimerCount(a + b) == TimerCount(a) + TimerCount(b)
  {
    if a == [] {
      assert a + b == b;
    } else {
      assert (a + b)[1..] == a[1..] + b;
      SumsAppend(a[1..], b);
    }
  }

  lemma SumsNext(actions: seq<Action>, i: nat)
    requires i < |actions|
    ensures Duration(actions[..i + 1]) == Duration(actions[..i]) + DurationOf(actions[i])
    ensures TimerCount(actions[i..]) == TimersOf(actions[i]) + TimerCount(actions[i + 1..])
  {
    assert actions[..i + 1] == actions[..i] + [actions[i]];
    assert [actions[i]][1..] == [];
    SumsAppend(actions[..i], [actions[i]]);
    assert actions[i..][1..] == actions[i + 1..];
  }

  /** The time a pending timer stands for, with the pause that follows it. */
  function Pending(t: Timer): nat {
    t.ms + (if t.run.Next? || t.run.Cleanup? then 0 else t.run.pause)
  }

  function TimersLeft(s: State): nat
    requires s.index <= |s.actions|
  {
    if s.timers == [] then 0
    else
      var after := TimerCount(s.actions[s.index..]);
      match s.timers[0].run
      case Cleanup => 0
      case Next => 1 + after
      case _ => 2 + after
  }

  /** How long an action is held: a button or the stick for its duration, the keyboard for its pause. */
  function HoldOf(a: Action): nat {
    match a
    case Delay(_) => 0
    case Press(_, duration, _) => duration
    case Hold(_, _, duration, _) => duration
    case Text(_, pause) => pause
  }

  /** How long it takes from the end of an action to the next one. */
  function PauseOf(a: Action): nat {
    match a
    case Delay(ms) => ms
    case Press(_, _, pause) => pause
    case Hold(_, _, _, pause) => pause
    case Text(_, pause) => pause
  }

  /** What the controller shows while the first timer of an action runs. */
  function PadDuring(a: Action): Pad {
    match a
    case Press(button, _, _) => Pad({button}, 0, 0)
    case Hold(x, y, _, _) => Pad({}, x, y)
    case _ => NEUTRAL
  }

  /** The first timer of an action with two is pending. */
  predicate InAction(s: State) {
    s.timers != [] && !s.timers[0].run.Next? && !s.timers[0].run.Cleanup?
  }

  /** The state between two timers of a run that is connected and not shut down. */
  ghost predicate Playing(s: State) {
    && s.connected && !s.shutDown && s.index <= |s.actions|
    && s.performed == s.actions[..s.index]
    && |s.timers| <= 1
    && (s.timers == [] ==> s.completed)
    && (s.completed ==> s.index == |s.actions| && s.pad == NEUTRAL)
    && (s.completed && s.timers != [] ==> s.timers[0] == Timer(CLEANUP_DELAY_MS, Cleanup))
    && (s.timers != [] ==>
          var t := s.timers[0];
          && (t.run.Cleanup? <==> s.completed)
          && s.elapsed + (if t.run.Cleanup? then 0 else Pending(t)) == Duration(s.actions[..s.index])
          && (t.run.Next? ==> s.pad == NEUTRAL)
          && (InAction(s) ==> s.index > 0 && s.pad == PadDuring(s.actions[s.index - 1]))
          && (InAction(s) ==> !s.actions[s.index - 1].Delay?)
          && (InAction(s) ==> t.ms == HoldOf(s.actions[s.index - 1]) && t.run.pause == PauseOf(s.actions[s.index - 1]))
          && (t.run.Next? && s.index > 0 ==> t.ms == PauseOf(s.actions[s.index - 1]))
          && (InAction(s) ==> (t.run.ReleaseButtons? <==> s.actions[s.index - 1].Press?))
          && (InAction(s) ==> (t.run.CenterStick? <==> s.actions[s.index - 1].Hold?)))
  }

  /** A connected run between two actions: the controller is neutral and nothing is pending. */
  ghost predicate BetweenActions(s: State) {
    && s.connected && !s.shutDown && !s.completed && s.timers == [] && s.index <= |s.actions|
    && s.pad == NEUTRAL && s.performed == s.actions[..s.index] && s.elapsed == Duration(s.actions[..s.index])
  }

  /** What starting an action sets up: its one timer, what the controller shows, and the record of it. */
  lemma ExecuteShape(s: State)
    requires BetweenActions(s) && s.index < |s.actions|
    ensures var a := s.actions[s.index];
            var t := RunNext(s);
            && t == s.(index := s.index + 1, performed := s.performed + [a], pad := PadDuring(a), timers := t.timers)
            && |t.timers| == 1 && Pending(t.timers[0]) == DurationOf(a) && !t.timers[0].run.Cleanup?
            && t.timers[0].ms == (if a.Delay? then PauseOf(a) else HoldOf(a))
            && (!a.Delay? ==> t.timers[0].run.pause == PauseOf(a))
            && (t.timers[0].run.Next? <==> a.Delay?)
            && (t.timers[0].run.ReleaseButtons? <==> a.Press?)
            && (t.timers[0].run.CenterStick? <==> a.Hold?)
  {
  }

  lemma ExecutePlays(s: State)
    requires BetweenActions(s) && s.index < |s.actions|
    ensures Playing(RunNext(s))
  {
    ExecuteShape(s);
    SumsNext(s.actions, s.index);
    assert s.actions[..s.index + 1] == s.actions[..s.index] + [s.actions[s.index]];
  }

  /** Starting the next action, or completing, from a neutral controller. */
  lemma RunNextPlays(s: State)
    requires BetweenActions(s)
    ensures var t := RunNext(s);
            && Playing(t) && t.timers != [] && t.elapsed == s.elapsed && t.actions == s.actions
            && (t.completed <==> s.index == |s.actions|)
            && TimersLeft(t) == TimerCount(s.actions[s.index..])
  {
    if s.index < |s.actions| {
      ExecutePlays(s);
      SumsNext(s.actions, s.index);
    }
  }

  /** The state in which the continuation of the first pending timer runs. */
  function Elapse(s: State): State
    requires s.timers != []
  {
    s.(timers := s.timers[..0] + s.timers[1..], elapsed := s.elapsed + s.timers[0].ms)
  }

  lemma ElapseBeforeNext(s: State)
    requires Playing(s) && s.timers != [] && s.timers[0].run.Next?
    ensures var u := Elapse(s);
            && BetweenActions(u)
            && Fire(s, 0) == RunNext(u)
            && TimersLeft(s) == 1 + TimerCount(u.actions[u.index..])
  {
    assert s.timers[..0] + s.timers[1..] == [];
  }

  /** The timer that continues the list: the next action starts, or the run completes. */
  lemma FireNextPlays(s: State)
    requires Playing(s) && s.timers != [] && s.timers[0].run.Next?
    ensures var t := Fire(s, 0);
            && Playing(t) && t.timers != [] && t.actions == s.actions
            && TimersLeft(t) == TimersLeft(s) - 1
            && (t.completed <==> TimersLeft(s) == 1)
  {
    ElapseBeforeNext(s);
    var u := Elapse(s);
    TimerCountZero(u.actions[u.index..]);
    RunNextPlays(u);
  }

  /** The timer that ends the first half of an action: the controller is released and the pause begins. */
  lemma FireReleasePlays(s: State)
    requires Playing(s) && s.timers != [] && !s.completed && !s.timers[0].run.Next?
    ensures var t := Fire(s, 0);
            && Playing(t) && t.timers != [] && t.actions == s.actions && !t.completed
            && TimersLeft(t) == TimersLeft(s) - 1
  {
    assert s.timers[..0] + s.timers[1..] == [];
  }

  /** One timer of a connected run: the invariant is kept and one timer fewer is left. */
  lemma FirePlays(s: State)
    requires Playing(s) && s.timers != [] && !s.completed
    ensures var t := Fire(s, 0);
            && Playing(t) && t.timers != [] && t.actions == s.actions
            && TimersLeft(t) == TimersLeft(s) - 1
            && (t.completed <==> TimersLeft(s) == 1)
  {
    if s.timers[0].run.Next? {
      FireNextPlays(s);
    } else {
      FireReleasePlays(s);
    }
  }

  lemma TimerCountZero(actions: seq<Action>)
    ensures TimerCount(actions) == 0 <==> actions == []
  {
  }

  lemma {:induction false} PlayPlays(s: State, n: nat)
    requires Playing(s) && s.timers != [] && n <= TimersLeft(s)
    ensures var t := Play(s, n);
            && Playing(t) && t.timers != [] && t.actions == s.actions
            && TimersLeft(t) == TimersLeft(s) - n
            && (t.completed <==> TimersLeft(t) == 0)
    decreases n
  {
    if n == 0 {
      LeftMeansIncomplete(s);
    } else {
      LeftMeansIncomplete(s);
      FirePlays(s);
      PlayPlays(Fire(s, 0), n - 1);
    }
  }

  lemma LeftMeansIncomplete(s: State)
    requires Playing(s)
    ensures s.completed <==> TimersLeft(s) == 0
  {
  }

  lemma StartPlays(actions: seq<Action>)
    ensures var s := RunNext(Fresh(actions));
            Playing(s) && s.timers != [] && s.actions == actions && TimersLeft(s) == TimerCount(actions)
  {
    assert actions[..0] == [] && actions[0..] == actions;
    RunNextPlays(Fresh(actions));
  }

  /**
   Every moment of a connected run, for any list of actions: each action so far was performed once and
   in order, at most one timer is pending, the controller shows the action being held and is neutral
   whenever a continuation is about to run, and the clock shows the exact time of the actions behind it.
   */
  lemma RunIsOrderly(actions: seq<Action>, n: nat)
    requires n <= TimerCount(actions)
    ensures var s := Play(RunNext(Fresh(actions)), n);
            && s.index <= |actions| && s.performed == actions[..s.index] && |s.timers| <= 1
            && (s.timers != [] ==>
                  s.pad == if InAction(s) && s.index > 0 then PadDuring(actions[s.index - 1]) else NEUTRAL)
            && (s.timers != [] && s.timers[0].run.Next? ==> s.elapsed + s.timers[0].ms == Duration(actions[..s.index]))
            && (s.index > 0 && s.timers != [] ==>
                  && (InAction(s) ==> s.timers[0].ms == HoldOf(actions[s.index - 1]))
                  && (s.timers[0].run.Next? ==> s.timers[0].ms == PauseOf(actions[s.index - 1])))
            && (s.completed <==> n == TimerCount(actions))
  {
    StartPlays(actions);
    PlayPlays(RunNext(Fresh(actions)), n);
  }

  lemma CompletedMeans(t: State)
    requires Playing(t) && t.timers != [] && t.completed
    ensures t.performed == t.actions && t.pad == NEUTRAL && t.elapsed == Duration(t.actions)
    ensures t.timers == [Timer(CLEANUP_DELAY_MS, Cleanup)]
  {
    assert t.actions[..|t.actions|] == t.actions;
  }

  lemma PlayToEnd(s: State, n: nat)
    requires Playing(s) && s.timers != [] && n == TimersLeft(s)
    ensures var t := Play(s, n);
            && t.completed && t.performed == s.actions && t.pad == NEUTRAL && t.elapsed == Duration(s.actions)
            && t.timers == [Timer(CLEANUP_DELAY_MS, Cleanup)]
  {
    PlayPlays(s, n);
    CompletedMeans(Play(s, n));
  }

  /**
   A connected run completes after exactly as many timers as its actions set, with all actions
   performed once and in order, a neutral controller and the sum of all delays on the clock.
   */
  lemma RunCompletes(actions: seq<Action>)
    ensures var s := Play(RunNext(Fresh(actions)), TimerCount(actions));
            && s.completed && s.performed == actions && s.pad == NEUTRAL && s.elapsed == Duration(actions)
            && s.timers == [Timer(CLEANUP_DELAY_MS, Cleanup)]
  {
    StartPlays(actions);
    PlayToEnd(RunNext(Fresh(actions)), TimerCount(actions));
  }

  // ---------------------------------------------------------------- shutdown and disconnection

  /** After a shutdown no timer does anything. */
  lemma {:induction false} NothingAfterShutdown(s: State, n: nat)
    requires s.shutDown
    ensures var t := Play(s, n);
            && t.performed == s.performed && t.index == s.index && t.pad == s.pad
            && t.completed == s.completed && t.shutDown
    decreases n
  {
    if n == 0 || s.timers == [] {
    } else {
      NothingAfterShutdown(Fire(s, 0), n - 1);
    }
  }

  /**
   While the session is disconnected a timer performs an action exactly when it continues the list and
   the next action is a plain delay; it never touches the controller.
   */
  lemma DisconnectedFire(s: State)
    requires !s.connected && !s.shutDown && s.timers != []
    ensures var t := Fire(s, 0);
            && t.pad == s.pad
            && (t.performed != s.performed
                <==> s.timers[0].run.Next? && s.index < |s.actions| && s.actions[s.index].Delay?)
            && (t.performed != s.performed ==> t.performed == s.performed + [s.actions[s.index]])
  {
  }

  /** After a disconnection only delays are performed, so nothing is pressed, held or typed. */
  lemma {:induction false} OnlyDelaysAfterDisconnect(s: State, n: nat)
    requires !s.connected
    ensures var t := Play(s, n);
            && t.pad == s.pad && s.performed <= t.performed
            && (forall i :: |s.performed| <= i < |t.performed| ==> t.performed[i].Delay?)
    decreases n
  {
    if n == 0 || s.timers == [] {
    } else {
      if !s.shutDown {
        DisconnectedFire(s);
      }
      OnlyDelaysAfterDisconnect(Fire(s, 0), n - 1);
    }
  }

  /** A disconnected launch that is under way. */
  predicate Underway(s: State) {
    !s.connected && !s.shutDown && !s.completed && s.index <= |s.actions| && |s.timers| <= 1
  }

  /** The plain delays with which a list begins. */
  function LeadingDelays(actions: seq<Action>): seq<Action> {
    if actions == [] || !actions[0].Delay? then [] else [actions[0]] + LeadingDelays(actions[1..])
  }

  /** What a disconnected launch still performs. */
  function StillPerformed(s: State): seq<Action>
    requires s.index <= |s.actions|
  {
    if s.timers != [] && s.timers[0].run.Next? then LeadingDelays(s.actions[s.index..]) else []
  }

  function AtMost(n: nat, length: nat): nat {
    if n <= length then n else length
  }

  lemma FireStillPerforms(s: State)
    requires Underway(s) && s.timers != []
    ensures var t := Fire(s, 0);
            && !t.connected && !t.shutDown && t.index <= |t.actions| && |t.timers| <= 1
            && (if StillPerformed(s) == [] then t.performed == s.performed && StillPerformed(t) == []
                else && Underway(t) && t.performed == s.performed + [StillPerformed(s)[0]]
                     && StillPerformed(t) == StillPerformed(s)[1..])
            && (t.completed ==> StillPerformed(s) == [] && t.timers == [Timer(CLEANUP_DELAY_MS, Cleanup)])
  {
    assert s.timers[..0] + s.timers[1..] == [];
    if s.timers[0].run.Next? && s.index < |s.actions| {
      assert s.actions[s.index..][1..] == s.actions[s.index + 1..];
    }
  }

  lemma {:induction false} CleanupPerformsNothing(s: State, n: nat)
    requires s.timers == [Timer(CLEANUP_DELAY_MS, Cleanup)]
    ensures Play(s, n).performed == s.performed
  {
    if n == 0 {
    } else {
      var t := Fire(s, 0);
      assert t.timers == [] && Play(t, n - 1) == t;
    }
  }

  lemma TakenStep(before: seq<Action>, still: seq<Action>, n: nat)
    requires n > 0
    ensures var taken := still[..AtMost(n, |still|)];
            if still == [] then before + taken == before
            else (before + [still[0]]) + still[1..][..AtMost(n - 1, |still| - 1)] == before + taken
  {
    if still == [] {
    } else {
      var k := AtMost(n, |still|);
      assert still[..k] == [still[0]] + still[1..][..k - 1];
      ConcatAssoc(before, [still[0]], still[1..][..k - 1]);
    }
  }

  /**
   Everything that happens after a disconnection: the plain delays that come next in the list are
   performed, one per timer and only when the pending timer continues the list, and nothing else ever is.
   */
  lemma {:induction false} PerformedAfterDisconnect(s: State, n: nat)
    requires Underway(s)
    ensures var still := StillPerformed(s);
            Play(s, n).performed == s.performed + still[..AtMost(n, |still|)]
    decreases n
  {
    if n == 0 || s.timers == [] {
      assert s.performed + [] == s.performed;
    } else {
      var t := Fire(s, 0);
      FireStillPerforms(s);
      if t.completed {
        CleanupPerformsNothing(t, n - 1);
        assert s.performed + [] == s.performed;
      } else {
        PerformedAfterDisconnect(t, n - 1);
        TakenStep(s.performed, StillPerformed(s), n);
      }
    }
  }

  /** No further action starts after a disconnection unless a plain delay is what comes next. */
  lemma NothingStartsIff(s: State)
    requires Underway(s)
    ensures (forall n: nat :: Play(s, n).performed == s.performed)
            <==> !(s.timers != [] && s.timers[0].run.Next? && s.index < |s.actions| && s.actions[s.index].Delay?)
  {
    var still := StillPerformed(s);
    forall n: nat ensures Play(s, n).performed == s.performed + still[..AtMost(n, |still|)] {
      PerformedAfterDisconnect(s, n);
    }
    if still == [] {
      assert s.performed + [] == s.performed;
    } else {
      assert |Play(s, 1).performed| == |s.performed| + 1;
    }
  }

  /** The pending timer continues the list, and every action left is a plain delay. */
  predicate OnlyDelaysLeft(s: State) {
    s.timers != [] && s.timers[0].run.Next? && forall i :: s.index <= i < |s.actions| ==> s.actions[i].Delay?
  }

  lemma FireDelay(s: State)
    requires Underway(s) && OnlyDelaysLeft(s)
    ensures var t := Fire(s, 0);
            if s.index == |s.actions| then t.completed
            else Underway(t) && OnlyDelaysLeft(t) && t.actions == s.actions && t.index == s.index + 1
  {
    assert s.timers[..0] + s.timers[1..] == [];
  }

  lemma {:induction false} DelaysComplete(s: State)
    requires Underway(s) && OnlyDelaysLeft(s)
    ensures Play(s, |s.actions| - s.index + 1).completed
    decreases |s.actions| - s.index
  {
    var t := Fire(s, 0);
    FireDelay(s);
    if s.index == |s.actions| {
      assert Play(t, 0) == t;
    } else {
      DelaysComplete(t);
    }
  }

  lemma FireOther(s: State)
    requires Underway(s) && s.timers != [] && !OnlyDelaysLeft(s)
    ensures Underway(Fire(s, 0)) && !OnlyDelaysLeft(Fire(s, 0))
  {
    assert s.timers[..0] + s.timers[1..] == [];
    if s.timers[0].run.Next? {
      var i :| s.index <= i < |s.actions| && !s.actions[i].Delay?;
      assert Fire(s, 0).actions == s.actions;
    }
  }

  lemma {:induction false} OthersNeverComplete(s: State, n: nat)
    requires Underway(s) && !OnlyDelaysLeft(s)
    ensures !Play(s, n).completed
    decreases n
  {
    if n == 0 || s.timers == [] {
    } else {
      FireOther(s);
      OthersNeverComplete(Fire(s, 0), n - 1);
    }
  }

  /**
   When a launch whose session disconnects half-way still reports completion: if and only if the
   pending timer continues the list and every action left is a plain delay.
   */
  lemma CompletesDisconnectedIff(s: State)
    requires Playing(s) && s.timers != [] && !s.completed
    ensures (exists n: nat :: Play(s.(connected := false), n).completed) <==> OnlyDelaysLeft(s)
  {
    var u := s.(connected := false);
    assert OnlyDelaysLeft(u) <==> OnlyDelaysLeft(s);
    if OnlyDelaysLeft(u) {
      DelaysComplete(u);
    } else {
      forall n: nat ensures !Play(u, n).completed {
        OthersNeverComplete(u, n);
      }
    }
  }

  // ---------------------------------------------------------------- the launch sequence

  const PRESS_MS := 100
  const LONG_PRESS_MS := 500
  const PAUSE_MS := 300

  function Tap(button: Button): Action {
    Press(button, PRESS_MS, PAUSE_MS)
  }

  /** From the stream to the games tab. */
  const OPEN_GAMES := [Delay(1000), Press(15, LONG_PRESS_MS, PAUSE_MS), Tap(6), Tap(4), Tap(0), Tap(4)]

  /** From the games tab to the search field. */
  const OPEN_SEARCH := [Hold(0x7fff, 0, 2000, PAUSE_MS), Tap(0), Tap(4), Tap(0)]

  /** Typing the name and choosing the game. */
  function ChooseGame(gameName: string): seq<Action> {
    [Delay(500), Text(gameName, 1000), Tap(7), Tap(0), Delay(1000), Tap(0)]
  }

  /** The actions played to start a game by name. */
  function LaunchActions(gameName: string): seq<Action> {
    OPEN_GAMES + OPEN_SEARCH + ChooseGame(gameName)
  }

  function Total(durations: seq<nat>): nat {
    if durations == [] then 0 else durations[0] + Total(durations[1..])
  }

  lemma {:induction false} DurationIsTotal(actions: seq<Action>, durations: seq<nat>)
    requires |actions| == |durations| && forall i :: 0 <= i < |actions| ==> DurationOf(actions[i]) == durations[i]
    ensures Duration(actions) == Total(durations)
  {
    if actions == [] {
    } else {
      DurationIsTotal(actions[1..], durations[1..]);
    }
  }

  lemma PartsTake(gameName: string)
    ensures Duration(OPEN_GAMES) == 3400 && Duration(OPEN_SEARCH) == 3500 && Duration(ChooseGame(gameName)) == 4700
  {
    DurationIsTotal(OPEN_GAMES, [1000, 800, 400, 400, 400, 400]);
    DurationIsTotal(OPEN_SEARCH, [2300, 400, 400, 400]);
    DurationIsTotal(ChooseGame(gameName), [500, 2000, 400, 400, 1000, 400]);
  }

  /** On a session that stays connected the launch takes 11.6 seconds and ends with every action played. */
  lemma LaunchTakes(gameName: string)
    ensures var actions := LaunchActions(gameName);
            var s := Play(RunNext(Fresh(actions)), TimerCount(actions));
            s.completed && s.performed == actions && s.pad == NEUTRAL && s.elapsed == 11600
  {
    RunCompletes(LaunchActions(gameName));
    SumsAppend(OPEN_GAMES + OPEN_SEARCH, ChooseGame(gameName));
    SumsAppend(OPEN_GAMES, OPEN_SEARCH);
    PartsTake(gameName);
  }

  // ---------------------------------------------------------------- disconnecting during the launch

  lemma {:induction false} TimerCountGrows(actions: seq<Action>, i: nat)
    requires i <= |actions|
    ensures TimerCount(actions[i..]) <= TimerCount(actions)
    ensures TimerCount(actions[i..]) == TimerCount(actions) <==> i == 0
  {
    if i == 0 {
      assert actions[0..] == actions;
    } else {
      assert actions[i..] == actions[1..][i - 1..];
      TimerCountGrows(actions[1..], i - 1);
    }
  }

  /** A later place in a list has fewer timers to come. */
  lemma LaterHasFewer(actions: seq<Action>, i: nat, j: nat)
    requires i <= j <= |actions|
    ensures TimerCount(actions[j..]) <= TimerCount(actions[i..])
    ensures TimerCount(actions[j..]) == TimerCount(actions[i..]) <==> i == j
  {
    assert actions[j..] == actions[i..][j - i..];
    TimerCountGrows(actions[i..], j - i);
  }

  /** The number of timers left tells where a connected run is. */
  lemma PlaceByTimersLeft(s: State, i: nat)
    requires Playing(s) && s.timers != [] && i <= |s.actions|
    requires TimersLeft(s) == 1 + TimerCount(s.actions[i..])
    ensures s.timers[0].run.Next? && s.index == i
  {
    if s.index <= i {
      LaterHasFewer(s.actions, s.index, i);
    } else {
      SumsNext(s.actions, s.index - 1);
      LaterHasFewer(s.actions, i, s.index - 1);
    }
  }

  lemma PlayToPlace(s: State, n: nat, i: nat)
    requires Playing(s) && s.timers != [] && i <= |s.actions|
    requires TimersLeft(s) == n + 1 + TimerCount(s.actions[i..])
    ensures var t := Play(s, n);
            && Playing(t) && t.actions == s.actions && !t.completed
            && t.timers != [] && t.timers[0].run.Next? && t.index == i
  {
    PlayPlays(s, n);
    PlaceByTimersLeft(Play(s, n), i);
  }

  lemma PlayFromStart(actions: seq<Action>, n: nat, i: nat)
    requires i <= |actions| && n + 1 + TimerCount(actions[i..]) == TimerCount(actions)
    ensures var t := Play(RunNext(Fresh(actions)), n);
            && Playing(t) && t.actions == actions && !t.completed
            && t.timers != [] && t.timers[0].run.Next? && t.index == i
  {
    StartPlays(actions);
    PlayToPlace(RunNext(Fresh(actions)), n, i);
  }

  /** The last timer before the actions `b` is the one that continues with them. */
  lemma LastTimerBefore(a: seq<Action>, b: seq<Action>)
    requires a != []
    ensures TimerCount(a) > 0
    ensures var s := Play(RunNext(Fresh(a + b)), TimerCount(a) - 1);
            && Playing(s) && s.actions == a + b && !s.completed
            && s.timers != [] && s.timers[0].run.Next? && s.index == |a|
  {
    SumsAppend(a, b);
    TimerCountZero(a);
    assert (a + b)[|a|..] == b;
    PlayFromStart(a + b, TimerCount(a) - 1, |a|);
  }

  /** A session that is lost in the last pause of the launch does not stop it from reporting completion. */
  lemma LostInLastPauseCompletes(gameName: string)
    ensures var actions := LaunchActions(gameName);
            && TimerCount(actions) > 0
            && var s := Play(RunNext(Fresh(actions)), TimerCount(actions) - 1).(connected := false);
               Underway(s) && exists n: nat :: Play(s, n).completed
  {
    var actions := LaunchActions(gameName);
    assert actions + [] == actions;
    LastTimerBefore(actions, []);
    CompletesDisconnectedIff(Play(RunNext(Fresh(actions)), TimerCount(actions) - 1));
  }

  /** Lost in the pause before the search text, one more action, the delay of half a second, is performed. */
  lemma LostBeforeSearchDelays(gameName: string)
    ensures var before := OPEN_GAMES + OPEN_SEARCH;
            && TimerCount(before) > 0
            && var s := Play(RunNext(Fresh(LaunchActions(gameName))), TimerCount(before) - 1).(connected := false);
               Underway(s) && Play(s, 1).performed == s.performed + [Delay(500)]
  {
    var before := OPEN_GAMES + OPEN_SEARCH;
    LastTimerBefore(before, ChooseGame(gameName));
    var s := Play(RunNext(Fresh(LaunchActions(gameName))), TimerCount(before) - 1).(connected := false);
    assert s.actions[s.index] == Delay(500);
    FireStillPerforms(s);
    assert s.actions[s.index..][0] == Delay(500);
    assert Play(Fire(s, 0), 0) == Fire(s, 0);
  }

  // ---------------------------------------------------------------- the object

  class Launcher {
    var actions: seq<Action>
    var currentActionIndex: nat
    var isShuttingDown: bool
    var isCompleted: bool
    var connected: bool
    var keyboardState: Pad
    var timers: seq<Timer>
    ghost var elapsed: nat
    ghost var performed: seq<Action>

    ghost function Abs(): State
      reads this
    {
      State(actions, currentActionIndex, timers, keyboardState, connected, isShuttingDown, isCompleted, elapsed,
            performed)
    }

    constructor ()
      ensures Abs() == Fresh([]).(connected := false)
    {
      actions, currentActionIndex, isShuttingDown, isCompleted, connected := [], 0, false, false, false;
      keyboardState, timers, elapsed, performed := NEUTRAL, [], 0, [];
    }

    method ScheduleSafe(ms: nat, run: Continuation)
      modifies this`timers
      ensures Abs() == Schedule(old(Abs()), ms, run)
    {
      timers := timers + [Timer(ms, run)];
    }

    /** The connection changed; a connection starts the list of actions from its beginning. */
    method OnConnectedChanged(isConnected: bool, list: seq<Action>)
      modifies this
      ensures Abs() == (var s := old(Abs()).(connected := isConnected);
                        if isConnected then RunNext(s.(actions := list, index := 0, elapsed := 0)) else s)
    {
      connected := isConnected;
      if !connected {
        return;
      }
      elapsed := 0;
      actions := list;
      currentActionIndex := 0;
      RunNextAction();
    }

    method RunNextAction()
      modifies this
      ensures Abs() == RunNext(old(Abs()))
    {
      if isShuttingDown {
        return;
      }
      if currentActionIndex >= |actions| {
        isCompleted := true;
        ScheduleSafe(CLEANUP_DELAY_MS, Cleanup);
        return;
      }
      var current := actions[currentActionIndex];
      currentActionIndex := currentActionIndex + 1;
      Perform(current);
    }

    method Perform(a: Action)
      modifies this
      ensures Abs() == Execute(old(Abs()), a)
    {
      if !a.Delay? && (isShuttingDown || !connected) {
        return;
      }
      performed := performed + [a];
      match a
      case Delay(ms) => ScheduleSafe(ms, Next);
      case Press(button, duration, pause) =>
        keyboardState := keyboardState.(buttons := keyboardState.buttons + {button});
        ScheduleSafe(duration, ReleaseButtons(pause));
      case Hold(x, y, duration, pause) =>
        keyboardState := keyboardState.(x := x, y := y);
        ScheduleSafe(duration, CenterStick(pause));
      case Text(_, pause) => ScheduleSafe(pause, AcceptKeyboard(pause));
    }

    /** The i-th pending single-shot timer fires. */
    method OnTimeout(i: nat)
      requires i < |timers|
      modifies this
      ensures Abs() == Fire(old(Abs()), i)
    {
      var t := timers[i];
      timers := timers[..i] + timers[i + 1..];
      elapsed := elapsed + t.ms;
      if isShuttingDown {
        return;
      }
      match t.run
      case Next => RunNextAction();
      case Cleanup =>
      case ReleaseButtons(pause) =>
        if connected {
          keyboardState := keyboardState.(buttons := {});
          ScheduleSafe(pause, Next);
        }
      case CenterStick(pause) =>
        if connected {
          keyboardState := keyboardState.(x := 0, y := 0);
          ScheduleSafe(pause, Next);
        }
      case AcceptKeyboard(pause) =>
        if connected {
          ScheduleSafe(pause, Next);
        }
    }

    method Shutdown()
      modifies this`isShuttingDown
      ensures Abs() == old(Abs()).(shutDown := true)
    {
      isShuttingDown := true;
    }
  }
}
