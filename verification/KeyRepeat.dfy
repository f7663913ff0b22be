/**
 Turning controller buttons into key events, with auto-repeat. A button mask is the set of its bit
 positions.
 */
module KeyRepeat {
  import opened Collections

  type Buttons = set<nat>

  datatype Key =
    | Up | Down | Left | Right | Return | Escape | No | Yes | PageUp | PageDown | Menu | F1 | F2
    | MenuChord | Unknown

  /** The button of each key, in the order in which the table is scanned. */
  const KEY_MAP: seq<(nat, Key)> := [
    (6, Up), (7, Down), (4, Left), (5, Right), (0, Return), (1, Escape), (2, No), (3, Yes),
    (8, PageUp), (9, PageDown), (12, Menu), (10, F1), (11, F2)]

  const FIRST_DELAY_MS := 250
  const REPEAT_DELAY_MS := 80
  const MAX_REPEATS := 50
  const STICK_THRESHOLD := 30000

  /** Stick deflections count as pressed direction buttons. */
  function WithSticks(buttons: Buttons, leftX: int, leftY: int): Buttons {
    buttons
    + (if leftX > STICK_THRESHOLD then {5} else if leftX < -STICK_THRESHOLD then {4} else {})
    + (if leftY > STICK_THRESHOLD then {7} else if leftY < -STICK_THRESHOLD then {6} else {})
  }

  datatype State = State(
    oldButtons: Buttons,
    pressedKey: Key,
    repeatRunning: nat,
    timerActive: bool,
    interval: nat,
    sent: seq<Key>)

  const INITIAL := State({}, Unknown, 0, false, 0, [])

  function SendKey(s: State, key: Key): State {
    s.(sent := s.sent + [key])
  }

  /** One row of the table against the old and the new mask. */
  function ScanRow(s: State, buttons: Buttons, row: (nat, Key)): State {
    if row.0 in buttons && row.0 !in s.oldButtons then
      SendKey(s.(pressedKey := row.1, repeatRunning := 0, timerActive := true, interval := FIRST_DELAY_MS), row.1)
    else if row.0 in s.oldButtons && row.0 !in buttons && s.pressedKey == row.1 then
      s.(timerActive := false, repeatRunning := 1)
    else s
  }

  function ScanRows(s: State, buttons: Buttons, rows: seq<(nat, Key)>): State
    decreases |rows|
  {
    if rows == [] then s else ScanRows(ScanRow(s, buttons, rows[0]), buttons, rows[1..])
  }

  /** All buttons of the shortcut were held and no longer are. */
  predicate Released(shortcut: Buttons, before: Buttons, after: Buttons) {
    shortcut <= before && !(shortcut <= after)
  }

  /** What does not change during a run: the buttons of the menu chord and the table of keys. */
  datatype Config = Config(shortcut: Buttons, table: seq<(nat, Key)>)

  function ChangeStep(c: Config, s: State, buttons: Buttons): State {
    var t := ScanRows(s, buttons, c.table);
    (if Released(c.shortcut, s.oldButtons, buttons) then SendKey(t, MenuChord) else t).(oldButtons := buttons)
  }

  function TickStep(s: State): State {
    var interval := if s.repeatRunning == 0 then REPEAT_DELAY_MS else s.interval;
    var t := s.(repeatRunning := s.repeatRunning + 1, interval := interval);
    SendKey(t, t.pressedKey).(timerActive := t.timerActive && t.repeatRunning != MAX_REPEATS)
  }

  class QmlController {
    var escapeShortcut: Buttons
    var oldButtons: Buttons
    var pressedKey: Key
    var repeatRunning: nat
    var timerActive: bool
    var interval: nat
    ghost var sent: seq<Key>

    ghost function Abs(): State
      reads this
    {
      State(oldButtons, pressedKey, repeatRunning, timerActive, interval, sent)
    }

    constructor (shortcut: Buttons)
      ensures Abs() == INITIAL && escapeShortcut == shortcut
    {
      escapeShortcut := shortcut;
      oldButtons, pressedKey, repeatRunning, timerActive, interval, sent := {}, Unknown, 0, false, 0, [];
    }

    method Send(key: Key)
      modifies this`sent
      ensures sent == old(sent) + [key]
    {
      sent := sent + [key];
    }

    method OnRepeatTimeout()
      requires timerActive
      modifies this
      ensures Abs() == TickStep(old(Abs())) && escapeShortcut == old(escapeShortcut)
    {
      var before := repeatRunning;
      repeatRunning := repeatRunning + 1;
      if before == 0 {
        interval := 80;
        timerActive := true;
      }
      Send(pressedKey);
      if repeatRunning == 50 {
        timerActive := false;
      }
    }

    static method AddSticks(held: Buttons, leftX: int, leftY: int) returns (buttons: Buttons)
      ensures buttons == WithSticks(held, leftX, leftY)
    {
      buttons := held;
      if leftX > 30000 {
        buttons := buttons + {5};
      } else if leftX < -30000 {
        buttons := buttons + {4};
      }
      if leftY > 30000 {
        buttons := buttons + {7};
      } else if leftY < -30000 {
        buttons := buttons + {6};
      }
    }

    method ScanTable(rows: seq<(nat, Key)>, buttons: Buttons)
      modifies this`pressedKey, this`repeatRunning, this`timerActive, this`interval, this`sent
      ensures Abs() == ScanRows(old(Abs()), buttons, rows)
    {
      assert rows[0..] == rows;
      for i := 0 to |rows|
        invariant ScanRows(Abs(), buttons, rows[i..]) == ScanRows(old(Abs()), buttons, rows)
      {
        var row := rows[i];
        assert rows[i..][0] == row && rows[i..][1..] == rows[i + 1..];
        var pressed, oldPressed := row.0 in buttons, row.0 in oldButtons;
        if pressed && !oldPressed {
          pressedKey := row.1;
          Send(pressedKey);
          repeatRunning := 0;
          timerActive, interval := true, 250;
        } else if oldPressed && !pressed && pressedKey == row.1 {
          timerActive := false;
          repeatRunning := 1;
        }
      }
    }

    method OnStateChanged(held: Buttons, leftX: int, leftY: int)
      modifies this
      ensures Abs() == ChangeStep(Config(escapeShortcut, KEY_MAP), old(Abs()), WithSticks(held, leftX, leftY))
      ensures escapeShortcut == old(escapeShortcut)
    {
      var buttons := AddSticks(held, leftX, leftY);
      ApplyMask(KEY_MAP, buttons);
    }

    method ApplyMask(rows: seq<(nat, Key)>, buttons: Buttons)
      modifies this
      ensures Abs() == ChangeStep(Config(escapeShortcut, rows), old(Abs()), buttons)
      ensures escapeShortcut == old(escapeShortcut)
    {
      ScanTable(rows, buttons);
      if escapeShortcut <= oldButtons && !(escapeShortcut <= buttons) {
        Send(MenuChord);
      }
      oldButtons := buttons;
    }
  }

  // ---------------------------------------------------------------- runs

  datatype Event = Change(buttons: Buttons) | Tick

  predicate Legal(s: State, e: Event) {
    e.Tick? ==> s.timerActive
  }

  function Step(c: Config, s: State, e: Event): State {
    match e
    case Change(buttons) => ChangeStep(c, s, buttons)
    case Tick => TickStep(s)
  }

  predicate LegalRun(c: Config, s: State, es: seq<Event>)
    decreases |es|
  {
    es == [] || (Legal(s, es[0]) && LegalRun(c, Step(c, s, es[0]), es[1..]))
  }

  function Run(c: Config, s: State, es: seq<Event>): State
    decreases |es|
  {
    if es == [] then s else Run(c, Step(c, s, es[0]), es[1..])
  }

  // ---------------------------------------------------------------- repeats belong to a held button

  /** Each key has one row and the menu chord has none. */
  ghost predicate IsTable(rows: seq<(nat, Key)>) {
    && (forall i, j :: 0 <= i < j < |rows| ==> rows[i].1 != rows[j].1)
    && (forall i :: 0 <= i < |rows| ==> rows[i].1 != MenuChord)
  }

  /** The results below hold for every such table; the one of the program is such a table. */
  lemma KeyMapIsTable()
    ensures IsTable(KEY_MAP)
  {
  }

  /** The key is that of a button in the mask. */
  ghost predicate KeyHeld(rows: seq<(nat, Key)>, key: Key, buttons: Buttons) {
    exists i :: 0 <= i < |rows| && rows[i].1 == key && rows[i].0 in buttons
  }

  ghost predicate Inv(c: Config, s: State) {
    && IsTable(c.table)
    && s.pressedKey != MenuChord
    && (s.timerActive ==> KeyHeld(c.table, s.pressedKey, s.oldButtons) && s.repeatRunning < MAX_REPEATS)
  }

  /**
   While a table is scanned, an active timer belongs to a row already scanned and held, or not yet scanned
   and held before.
   */
  lemma {:induction false} ScanKeepsHeld(s: State, buttons: Buttons, done: seq<(nat, Key)>, rows: seq<(nat, Key)>)
    requires IsTable(done + rows) && s.pressedKey != MenuChord
    requires s.timerActive ==> s.repeatRunning < MAX_REPEATS
    requires s.timerActive ==> KeyHeld(done, s.pressedKey, buttons) || KeyHeld(rows, s.pressedKey, s.oldButtons)
    ensures var t := ScanRows(s, buttons, rows);
            && t.oldButtons == s.oldButtons && t.pressedKey != MenuChord
            && (t.timerActive ==> KeyHeld(done + rows, t.pressedKey, buttons) && t.repeatRunning < MAX_REPEATS)
    decreases |rows|
  {
    if rows == [] {
      assert done + rows == done;
    } else {
      var row := rows[0];
      var t := ScanRow(s, buttons, row);
      var done' := done + [row];
      assert done' + rows[1..] == done + rows;
      assert done'[|done|] == row && (done + rows)[|done|] == row;
      if t.timerActive {
        if row.0 in buttons && row.0 !in s.oldButtons {
          assert KeyHeld(done', t.pressedKey, buttons);
        } else if KeyHeld(done, s.pressedKey, buttons) {
          var i :| 0 <= i < |done| && done[i].1 == s.pressedKey && done[i].0 in buttons;
          assert done'[i] == done[i];
        } else {
          var i :| 0 <= i < |rows| && rows[i].1 == s.pressedKey && rows[i].0 in s.oldButtons;
          if i == 0 {
            assert KeyHeld(done', t.pressedKey, buttons);
          } else {
            assert rows[1..][i - 1] == rows[i];
          }
        }
      }
      ScanKeepsHeld(t, buttons, done', rows[1..]);
    }
  }

  lemma StepKeepsInv(c: Config, s: State, e: Event)
    requires Inv(c, s) && Legal(s, e)
    ensures Inv(c, Step(c, s, e))
  {
    if e.Change? {
      assert [] + c.table == c.table;
      ScanKeepsHeld(s, e.buttons, [], c.table);
    }
  }

  lemma {:induction false} RunKeepsInv(c: Config, s: State, es: seq<Event>)
    requires Inv(c, s) && LegalRun(c, s, es)
    ensures Inv(c, Run(c, s, es))
    decreases |es|
  {
    if es == [] {
    } else {
      StepKeepsInv(c, s, es[0]);
      RunKeepsInv(c, Step(c, s, es[0]), es[1..]);
    }
  }

  /** In every reachable state a repeat about to fire is for a button that is still held. */
  lemma RepeatsOnlyWhileHeld(c: Config, es: seq<Event>)
    requires IsTable(c.table) && LegalRun(c, INITIAL, es)
    ensures var s := Run(c, INITIAL, es);
            s.timerActive ==>
              && s.repeatRunning < MAX_REPEATS
              && exists i :: 0 <= i < |c.table| && c.table[i].1 == s.pressedKey && c.table[i].0 in s.oldButtons
  {
    RunKeepsInv(c, INITIAL, es);
  }

  // ---------------------------------------------------------------- what is sent

  function KeysSent(sent: seq<Key>): nat {
    if sent == [] then 0 else (if sent[0] == MenuChord then 0 else 1) + KeysSent(sent[1..])
  }

  function ChordsSent(sent: seq<Key>): nat {
    if sent == [] then 0 else (if sent[0] == MenuChord then 1 else 0) + ChordsSent(sent[1..])
  }

  lemma {:induction false} CountOne(sent: seq<Key>, key: Key)
    ensures KeysSent(sent + [key]) == KeysSent(sent) + (if key == MenuChord then 0 else 1)
    ensures ChordsSent(sent + [key]) == ChordsSent(sent) + (if key == MenuChord then 1 else 0)
  {
    if sent == [] {
      assert sent + [key] == [key] && [key][1..] == [];
    } else {
      assert (sent + [key])[1..] == sent[1..] + [key];
      CountOne(sent[1..], key);
    }
  }

  /** The buttons of the table that go down. */
  function Pressed(before: Buttons, after: Buttons, rows: seq<(nat, Key)>): seq<nat> {
    if rows == [] then []
    else (if rows[0].0 in after && rows[0].0 !in before then [rows[0].0] else []) + Pressed(before, after, rows[1..])
  }

  lemma {:induction false} ScanSends(s: State, buttons: Buttons, rows: seq<(nat, Key)>)
    requires forall i :: 0 <= i < |rows| ==> rows[i].1 != MenuChord
    ensures var t := ScanRows(s, buttons, rows);
            var pressed := Pressed(s.oldButtons, buttons, rows);
            && KeysSent(t.sent) == KeysSent(s.sent) + |pressed|
            && ChordsSent(t.sent) == ChordsSent(s.sent) && t.oldButtons == s.oldButtons
            && (pressed == [] ==> t.pressedKey == s.pressedKey)
            && (pressed == [] && t.timerActive ==> s.timerActive && t.repeatRunning == s.repeatRunning)
    decreases |rows|
  {
    if rows == [] {
    } else {
      CountOne(s.sent, rows[0].1);
      ScanSends(ScanRow(s, buttons, rows[0]), buttons, rows[1..]);
    }
  }

  /** What a change of the mask sends: one key per button that goes down, and the chord on its release. */
  lemma ChangeSends(c: Config, s: State, buttons: Buttons)
    requires IsTable(c.table)
    ensures var t := ChangeStep(c, s, buttons);
            var pressed := Pressed(s.oldButtons, buttons, c.table);
            && t.oldButtons == buttons
            && KeysSent(t.sent) == KeysSent(s.sent) + |pressed|
            && ChordsSent(t.sent) == ChordsSent(s.sent) + (if Released(c.shortcut, s.oldButtons, buttons) then 1 else 0)
            && (pressed == [] && t.timerActive ==> s.timerActive && t.repeatRunning == s.repeatRunning)
  {
    ScanSends(s, buttons, c.table);
    CountOne(ScanRows(s, buttons, c.table).sent, MenuChord);
  }

  /** The keys of the buttons that go down, in table order. */
  function KeysDown(before: Buttons, after: Buttons, rows: seq<(nat, Key)>): seq<Key> {
    if rows == [] then []
    else (if rows[0].0 in after && rows[0].0 !in before then [rows[0].1] else []) + KeysDown(before, after, rows[1..])
  }

  lemma {:induction false} ScanSendsKeys(s: State, buttons: Buttons, rows: seq<(nat, Key)>)
    ensures var t := ScanRows(s, buttons, rows);
            t.oldButtons == s.oldButtons && t.sent == s.sent + KeysDown(s.oldButtons, buttons, rows)
    decreases |rows|
  {
    if rows == [] {
      assert s.sent + [] == s.sent;
    } else {
      var t := ScanRow(s, buttons, rows[0]);
      var first := if rows[0].0 in buttons && rows[0].0 !in s.oldButtons then [rows[0].1] else [];
      assert t.sent == s.sent + first;
      ScanSendsKeys(t, buttons, rows[1..]);
      ConcatAssoc(s.sent, first, KeysDown(s.oldButtons, buttons, rows[1..]));
    }
  }

  /**
   Which keys a change of the mask sends: those of the buttons that go down, in table order, and then the
   menu chord if all buttons of the shortcut were held and no longer are.
   */
  lemma ChangeSendsKeys(c: Config, s: State, buttons: Buttons)
    ensures ChangeStep(c, s, buttons).sent
            == s.sent + KeysDown(s.oldButtons, buttons, c.table)
               + (if && (forall b :: b in c.shortcut ==> b in s.oldButtons)
                     && (exists b :: b in c.shortcut && b !in buttons)
                  then [MenuChord] else [])
  {
    ScanSendsKeys(s, buttons, c.table);
  }

  // ---------------------------------------------------------------- the repeat timer

  /** The button of the key sent last was held and no longer is. */
  ghost predicate LetGo(s: State, buttons: Buttons, rows: seq<(nat, Key)>) {
    exists i :: 0 <= i < |rows| && rows[i].1 == s.pressedKey && rows[i].0 in s.oldButtons && rows[i].0 !in buttons
  }

  lemma LetGoFirst(s: State, buttons: Buttons, rows: seq<(nat, Key)>)
    requires rows != []
    ensures LetGo(s, buttons, rows)
            <==> (rows[0].1 == s.pressedKey && rows[0].0 in s.oldButtons && rows[0].0 !in buttons)
                 || LetGo(s, buttons, rows[1..])
  {
    var rest := rows[1..];
    if LetGo(s, buttons, rest) {
      var i :| 0 <= i < |rest| && rest[i].1 == s.pressedKey && rest[i].0 in s.oldButtons && rest[i].0 !in buttons;
      assert rows[i + 1] == rest[i];
    }
    if LetGo(s, buttons, rows) {
      var i :| 0 <= i < |rows| && rows[i].1 == s.pressedKey && rows[i].0 in s.oldButtons && rows[i].0 !in buttons;
      assert i > 0 ==> rest[i - 1] == rows[i];
    }
  }

  lemma TableTail(rows: seq<(nat, Key)>)
    requires IsTable(rows) && rows != []
    ensures IsTable(rows[1..]) && forall i :: 0 <= i < |rows| - 1 ==> rows[1..][i].1 != rows[0].1
  {
    var rest := rows[1..];
    assert forall i :: 0 <= i < |rest| ==> rest[i] == rows[i + 1];
  }

  /** The timer restarts for the last key that goes down, and stops when the button of its key is let go. */
  ghost predicate TimerFollows(s: State, t: State, down: seq<Key>, letGo: bool) {
    if down != [] then t.pressedKey == down[|down| - 1] && t.timerActive && t.repeatRunning == 0 && t.interval == 250
    else
      && t.pressedKey == s.pressedKey && t.interval == s.interval
      && (if letGo then !t.timerActive && t.repeatRunning == 1
          else t.timerActive == s.timerActive && t.repeatRunning == s.repeatRunning)
  }

  lemma {:induction false} ScanTimer(s: State, buttons: Buttons, rows: seq<(nat, Key)>)
    requires IsTable(rows)
    ensures TimerFollows(s, ScanRows(s, buttons, rows), KeysDown(s.oldButtons, buttons, rows), LetGo(s, buttons, rows))
    decreases |rows|
  {
    if rows == [] {
    } else {
      var row, rest := rows[0], rows[1..];
      var t := ScanRow(s, buttons, row);
      TableTail(rows);
      LetGoFirst(s, buttons, rows);
      ScanTimer(t, buttons, rest);
      if row.1 == t.pressedKey {
        assert !LetGo(t, buttons, rest);
      } else {
        assert t == s;
      }
    }
  }

  /** What a change of the mask does to the timer. */
  lemma ChangeTimer(c: Config, s: State, buttons: Buttons)
    requires IsTable(c.table)
    ensures TimerFollows(s, ChangeStep(c, s, buttons), KeysDown(s.oldButtons, buttons, c.table),
                         LetGo(s, buttons, c.table))
  {
    ScanTimer(s, buttons, c.table);
  }

  /** A tick sends one key, that of a button still held, and is the last one after fifty. */
  lemma TickSends(c: Config, s: State)
    requires Inv(c, s) && s.timerActive
    ensures var t := TickStep(s);
            && t.sent == s.sent + [s.pressedKey] && t.oldButtons == s.oldButtons && t.pressedKey == s.pressedKey
            && (exists i :: 0 <= i < |c.table| && c.table[i].1 == s.pressedKey && c.table[i].0 in s.oldButtons)
            && t.repeatRunning == s.repeatRunning + 1 && (t.timerActive <==> t.repeatRunning < 50)
  {
  }

  /** The first repeat comes after 250 ms and each further one after 80 ms, in every reachable state. */
  lemma {:induction false} RepeatInterval(c: Config, s: State, es: seq<Event>)
    requires Inv(c, s) && LegalRun(c, s, es)
    requires s.timerActive ==> s.interval == if s.repeatRunning == 0 then 250 else 80
    ensures var t := Run(c, s, es);
            t.timerActive ==> t.interval == if t.repeatRunning == 0 then 250 else 80
    decreases |es|
  {
    if es == [] {
    } else {
      StepKeepsInv(c, s, es[0]);
      if es[0].Change? {
        ChangeTimer(c, s, es[0].buttons);
      }
      RepeatInterval(c, Step(c, s, es[0]), es[1..]);
    }
  }

  function Ticks(n: nat): seq<Event> {
    if n == 0 then [] else [Tick] + Ticks(n - 1)
  }

  function Copies(key: Key, n: nat): seq<Key> {
    if n == 0 then [] else [key] + Copies(key, n - 1)
  }

  lemma {:induction false} TicksRepeat(c: Config, s: State, n: nat)
    requires Inv(c, s) && s.timerActive && s.repeatRunning + n <= 50
    ensures LegalRun(c, s, Ticks(n))
    ensures var t := Run(c, s, Ticks(n));
            && t.sent == s.sent + Copies(s.pressedKey, n)
            && (t.timerActive <==> s.repeatRunning + n < 50)
    decreases n
  {
    if n == 0 {
      assert s.sent + [] == s.sent;
    } else {
      TickSends(c, s);
      StepKeepsInv(c, s, Tick);
      var t := TickStep(s);
      assert Ticks(n)[1..] == Ticks(n - 1);
      if n > 1 {
        TicksRepeat(c, t, n - 1);
      } else {
        assert Ticks(0) == [] && Copies(s.pressedKey, 0) == [];
      }
      ConcatAssoc(s.sent, [s.pressedKey], Copies(s.pressedKey, n - 1));
    }
  }

  /**
   A button that goes down and is held: after its press the timer fires exactly fifty times, and each time
   its key is sent again.
   */
  lemma HeldKeyRepeats(c: Config, s: State, buttons: Buttons, n: nat)
    requires Inv(c, s) && KeysDown(s.oldButtons, buttons, c.table) != [] && n <= 50
    ensures var down := KeysDown(s.oldButtons, buttons, c.table);
            var t := ChangeStep(c, s, buttons);
            && LegalRun(c, t, Ticks(n))
            && Run(c, t, Ticks(n)).sent == t.sent + Copies(down[|down| - 1], n)
            && (Run(c, t, Ticks(n)).timerActive <==> n < 50)
  {
    StepKeepsInv(c, s, Change(buttons));
    ChangeTimer(c, s, buttons);
    TicksRepeat(c, ChangeStep(c, s, buttons), n);
  }

  // ---------------------------------------------------------------- the left stick

  /** A deflected stick holds the button of its direction and leaves every other button as it is. */
  lemma StickHolds(buttons: Buttons, leftX: int, leftY: int, b: nat)
    ensures b in WithSticks(buttons, leftX, leftY)
            <==> || b in buttons
                 || (b == 4 && leftX < -30000) || (b == 5 && leftX > 30000)
                 || (b == 6 && leftY < -30000) || (b == 7 && leftY > 30000)
  {
  }

  lemma {:induction false} NoneDown(before: Buttons, after: Buttons, rows: seq<(nat, Key)>)
    requires forall j :: 0 <= j < |rows| ==> !(rows[j].0 in after && rows[j].0 !in before)
    ensures KeysDown(before, after, rows) == []
  {
    if rows == [] {
    } else {
      NoneDown(before, after, rows[1..]);
    }
  }

  lemma {:induction false} OneDown(before: Buttons, after: Buttons, rows: seq<(nat, Key)>, i: nat)
    requires i < |rows| && forall j :: 0 <= j < |rows| ==> (rows[j].0 in after && rows[j].0 !in before <==> j == i)
    ensures KeysDown(before, after, rows) == [rows[i].1]
  {
    if i == 0 {
      forall j | 0 <= j < |rows| - 1 ensures !(rows[1..][j].0 in after && rows[1..][j].0 !in before) {
        assert rows[1..][j] == rows[j + 1];
      }
      NoneDown(before, after, rows[1..]);
    } else {
      assert forall j :: 0 <= j < |rows| - 1 ==> rows[1..][j] == rows[j + 1];
      OneDown(before, after, rows[1..], i - 1);
    }
  }

  /** With no button held, a stick pushed in one direction sends the arrow key of that direction. */
  lemma StickIsArrow(leftX: int, leftY: int)
    ensures var down := KeysDown({}, WithSticks({}, leftX, leftY), KEY_MAP);
            && (leftX < -30000 && -30000 <= leftY <= 30000 ==> down == [Left])
            && (leftX > 30000 && -30000 <= leftY <= 30000 ==> down == [Right])
            && (leftY < -30000 && -30000 <= leftX <= 30000 ==> down == [Up])
            && (leftY > 30000 && -30000 <= leftX <= 30000 ==> down == [Down])
  {
    var after := WithSticks({}, leftX, leftY);
    if leftX < -30000 && -30000 <= leftY <= 30000 {
      OneDown({}, after, KEY_MAP, 2);
    } else if leftX > 30000 && -30000 <= leftY <= 30000 {
      OneDown({}, after, KEY_MAP, 3);
    } else if leftY < -30000 && -30000 <= leftX <= 30000 {
      OneDown({}, after, KEY_MAP, 0);
    } else if leftY > 30000 && -30000 <= leftX <= 30000 {
      OneDown({}, after, KEY_MAP, 1);
    }
  }

  // ---------------------------------------------------------------- at most fifty repeats of a press

  /** No button of the table goes down during the run. */
  predicate NoPress(c: Config, s: State, es: seq<Event>)
    decreases |es|
  {
    es == []
    || (&& (es[0].Change? ==> Pressed(s.oldButtons, es[0].buttons, c.table) == [])
        && NoPress(c, Step(c, s, es[0]), es[1..]))
  }

  /** How many repeats the timer may still send. */
  function RepeatsLeft(s: State): nat {
    if s.timerActive && s.repeatRunning < MAX_REPEATS then MAX_REPEATS - s.repeatRunning else 0
  }

  lemma {:induction false} RepeatsBounded(c: Config, s: State, es: seq<Event>)
    requires Inv(c, s) && LegalRun(c, s, es) && NoPress(c, s, es)
    ensures KeysSent(Run(c, s, es).sent) <= KeysSent(s.sent) + RepeatsLeft(s)
    decreases |es|
  {
    if es == [] {
    } else {
      StepKeepsInv(c, s, es[0]);
      if es[0].Tick? {
        CountOne(s.sent, s.pressedKey);
      } else {
        ChangeSends(c, s, es[0].buttons);
      }
      RepeatsBounded(c, Step(c, s, es[0]), es[1..]);
    }
  }

  /**
   A press sends its key once and, until the next press, at most fifty repeats: from any state that
   satisfies the invariant, after an event in which k buttons go down, at most k + 50 keys are sent.
   */
  lemma PressSendsAtMostFiftyRepeats(c: Config, s: State, buttons: Buttons, after: seq<Event>)
    requires Inv(c, s)
    requires LegalRun(c, ChangeStep(c, s, buttons), after) && NoPress(c, ChangeStep(c, s, buttons), after)
    ensures KeysSent(Run(c, ChangeStep(c, s, buttons), after).sent)
            <= KeysSent(s.sent) + |Pressed(s.oldButtons, buttons, c.table)| + MAX_REPEATS
  {
    StepKeepsInv(c, s, Change(buttons));
    ChangeSends(c, s, buttons);
    RepeatsBounded(c, ChangeStep(c, s, buttons), after);
  }

  // ---------------------------------------------------------------- the menu chord

  /** The falling edges of "all buttons of the shortcut held" over the masks seen. */
  function FallingEdges(shortcut: Buttons, held: Buttons, es: seq<Event>): nat
    decreases |es|
  {
    if es == [] then 0
    else if es[0].Tick? then FallingEdges(shortcut, held, es[1..])
    else (if Released(shortcut, held, es[0].buttons) then 1 else 0) + FallingEdges(shortcut, es[0].buttons, es[1..])
  }

  /** Over every run the menu chord is sent once per falling edge, and never for the empty shortcut. */
  lemma {:induction false} ChordOncePerRelease(c: Config, s: State, es: seq<Event>)
    requires Inv(c, s) && LegalRun(c, s, es)
    ensures ChordsSent(Run(c, s, es).sent) == ChordsSent(s.sent) + FallingEdges(c.shortcut, s.oldButtons, es)
    ensures c.shortcut == {} ==> FallingEdges(c.shortcut, s.oldButtons, es) == 0
    decreases |es|
  {
    if es == [] {
    } else {
      StepKeepsInv(c, s, es[0]);
      if es[0].Tick? {
        CountOne(s.sent, s.pressedKey);
      } else {
        ChangeSends(c, s, es[0].buttons);
      }
      ChordOncePerRelease(c, Step(c, s, es[0]), es[1..]);
    }
  }
}
