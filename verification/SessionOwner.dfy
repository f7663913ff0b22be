/**
 Which stream session the backend owns. About ten asynchronous handlers assign the session pointer and
 the global log context; sessions are never freed at once but scheduled for deletion.
 */
module SessionOwner {
  import opened Collections

  type Id = nat

  /** `created` and `scheduled` record every session object and every deletion request. */
  datatype State = State(
    session: Option<Id>,
    logContext: Option<Id>,
    created: set<Id>,
    scheduled: seq<Id>,
    wakeupNickname: string,
    wakeupStart: bool)

  /** A discovered host that matches the session being connected. */
  datatype Host = Host(name: string, ready: bool, standby: bool, connecting: bool, startSucceeds: bool)

  /**
   A quit may come from any session, even a replaced one, and the result of connecting through PSN may have
   been asked for by any session; both always act on the current session.
   */
  datatype Event =
    | ConnectToStandby(nickname: string)
    | CreateSession(id: Id, constructs: bool, viaPsn: bool, startSucceeds: bool, hosts: seq<Host>)
    | RegisterCloudSession(id: Id)
    | SessionQuit(emitter: Id)
    | PsnConnected(asker: Id, startSucceeds: bool)
    | PsnFailed(asker: Id)
    | HostsDiscovered(hosts: seq<Host>)
    | StopAutoConnect

  const INITIAL := State(None, None, {}, [], "", false)

  // ---------------------------------------------------------------- what the handlers do

  function Drop(s: State): State
    requires s.session.Some?
  {
    s.(logContext := None, scheduled := s.scheduled + [s.session.value], session := None)
  }

  function Adopt(s: State, id: Id): State {
    s.(session := Some(id), logContext := Some(id), created := s.created + {id})
  }

  function Start(s: State, succeeds: bool): State
    requires s.session.Some?
  {
    if succeeds then s else Drop(s)
  }

  /** The loop over the matching hosts: start the session of an awake console, or note one to wake. */
  function Discover(s: State, hosts: seq<Host>): State
    decreases |hosts|
  {
    if hosts == [] then s
    else
      var h := hosts[0];
      if s.wakeupStart && s.session.Some? && h.name == s.wakeupNickname && h.ready then
        Discover(Start(s.(wakeupNickname := "", wakeupStart := false), h.startSucceeds), hosts[1..])
      else if h.standby && s.session.Some? && h.connecting then s.(wakeupNickname := h.name)
      else Discover(s, hosts[1..])
  }

  function Create(s: State, id: Id, constructs: bool, viaPsn: bool, startSucceeds: bool, hosts: seq<Host>): State {
    if s.session.Some? || !constructs then s
    else if viaPsn then Adopt(s, id)
    else if s.wakeupNickname != "" then Discover(Adopt(s, id).(wakeupStart := true), hosts)
    else Start(Adopt(s, id), startSucceeds)
  }

  /** A handler may run only where it does not use a missing session; new sessions are new objects. */
  predicate Legal(s: State, e: Event) {
    match e
    case ConnectToStandby(_) => true
    case CreateSession(id, _, _, _, _) => id !in s.created
    case RegisterCloudSession(id) => id !in s.created
    case SessionQuit(emitter) => emitter in s.created && s.session.Some?
    case PsnConnected(asker, _) => asker in s.created && s.session.Some?
    case PsnFailed(asker) => asker in s.created
    case HostsDiscovered(_) => true
    case StopAutoConnect => s.wakeupNickname != "" && s.wakeupStart ==> s.session.Some?
  }

  function Step(s: State, e: Event): State
    requires Legal(s, e)
  {
    match e
    case ConnectToStandby(nickname) => if nickname == "" then s else s.(wakeupNickname := nickname)
    case CreateSession(id, constructs, viaPsn, startSucceeds, hosts) =>
      Create(s, id, constructs, viaPsn, startSucceeds, hosts)
    case RegisterCloudSession(id) => Adopt(if s.session.Some? then Drop(s) else s, id)
    case SessionQuit(_) => Drop(s)
    case PsnConnected(_, startSucceeds) => Start(s, startSucceeds)
    case PsnFailed(_) => if s.session.Some? then Drop(s) else s
    case HostsDiscovered(hosts) => Discover(s, hosts)
    case StopAutoConnect =>
      if s.wakeupNickname == "" then s
      else if s.wakeupStart then Drop(s.(wakeupNickname := "", wakeupStart := false))
      else s.(wakeupNickname := "")
  }

  predicate LegalRun(s: State, es: seq<Event>)
    decreases |es|
  {
    es == [] || (Legal(s, es[0]) && LegalRun(Step(s, es[0]), es[1..]))
  }

  function Run(s: State, es: seq<Event>): State
    requires LegalRun(s, es)
    decreases |es|
  {
    if es == [] then s else Run(Step(s, es[0]), es[1..])
  }

  // ---------------------------------------------------------------- ownership

  function Owned(s: State): set<Id> {
    if s.session.Some? then {s.session.value} else {}
  }

  /** Every session ever created is the current one or has been scheduled for deletion, once. */
  ghost predicate Inv(s: State) {
    && s.logContext == s.session
    && NoDuplicates(s.scheduled)
    && (forall id :: id in s.created <==> id in Owned(s) || id in s.scheduled)
    && (forall id :: id in s.scheduled ==> id !in Owned(s))
  }

  lemma DropKeepsInv(s: State)
    requires Inv(s) && s.session.Some?
    ensures Inv(Drop(s))
  {
    assert forall i :: 0 <= i < |s.scheduled| ==> s.scheduled[i] in s.scheduled;
  }

  lemma AdoptKeepsInv(s: State, id: Id)
    requires Inv(s) && s.session.None? && id !in s.created
    ensures Inv(Adopt(s, id))
  {
  }

  lemma {:induction false} DiscoverKeepsInv(s: State, hosts: seq<Host>)
    requires Inv(s)
    ensures Inv(Discover(s, hosts))
    decreases |hosts|
  {
    if hosts == [] {
    } else {
      var h := hosts[0];
      if s.wakeupStart && s.session.Some? && h.name == s.wakeupNickname && h.ready {
        var t := s.(wakeupNickname := "", wakeupStart := false);
        assert Inv(t);
        if !h.startSucceeds {
          DropKeepsInv(t);
        }
        DiscoverKeepsInv(Start(t, h.startSucceeds), hosts[1..]);
      } else if h.standby && s.session.Some? && h.connecting {
        assert Inv(s.(wakeupNickname := h.name));
      } else {
        DiscoverKeepsInv(s, hosts[1..]);
      }
    }
  }

  lemma StepKeepsInv(s: State, e: Event)
    requires Inv(s) && Legal(s, e)
    ensures Inv(Step(s, e))
  {
    match e
    case CreateSession(id, constructs, viaPsn, startSucceeds, hosts) =>
      if s.session.None? && constructs {
        AdoptKeepsInv(s, id);
        if !viaPsn && s.wakeupNickname != "" {
          var t := Adopt(s, id).(wakeupStart := true);
          assert Inv(t);
          DiscoverKeepsInv(t, hosts);
        } else if !viaPsn && !startSucceeds {
          DropKeepsInv(Adopt(s, id));
        }
      }
    case RegisterCloudSession(id) =>
      if s.session.Some? {
        DropKeepsInv(s);
      }
      AdoptKeepsInv(if s.session.Some? then Drop(s) else s, id);
    case HostsDiscovered(hosts) => DiscoverKeepsInv(s, hosts);
    case StopAutoConnect =>
      if s.wakeupNickname != "" && s.wakeupStart {
        var t := s.(wakeupNickname := "", wakeupStart := false);
        assert Inv(t);
        DropKeepsInv(t);
      }
    case ConnectToStandby(_) =>
    case _ =>
      if s.session.Some? {
        DropKeepsInv(s);
      }
  }

  lemma {:induction false} RunKeepsInv(s: State, es: seq<Event>)
    requires Inv(s) && LegalRun(s, es)
    ensures Inv(Run(s, es))
    decreases |es|
  {
    if es == [] {
    } else {
      StepKeepsInv(s, es[0]);
      RunKeepsInv(Step(s, es[0]), es[1..]);
    }
  }

  /**
   Ownership over every interleaving of the handlers. After each of them the log context is the
   current session's (or none, with no session), exactly the current session is not scheduled for
   deletion, and no session has been scheduled twice.
   */
  lemma OneOwnerAlways(es: seq<Event>)
    requires LegalRun(INITIAL, es)
    ensures var s := Run(INITIAL, es);
            && s.logContext == s.session
            && (forall id :: id in s.created && id !in s.scheduled <==> s.session == Some(id))
            && (forall i, j :: 0 <= i < j < |s.scheduled| ==> s.scheduled[i] != s.scheduled[j])
  {
    RunKeepsInv(INITIAL, es);
  }

  // ---------------------------------------------------------------- the cancel handler

  /** A pending wake-up has a session that waits for it. */
  predicate Guarded(s: State) {
    s.wakeupStart ==> s.session.Some?
  }

  /** The event takes the session away from a pending wake-up and leaves the wake-up pending. */
  predicate Overtakes(s: State, e: Event) {
    s.wakeupStart && (e.SessionQuit? || e.PsnFailed? || (e.PsnConnected? && !e.startSucceeds))
  }

  lemma {:induction false} DiscoverKeepsGuarded(s: State, hosts: seq<Host>)
    requires Guarded(s)
    ensures Guarded(Discover(s, hosts))
    decreases |hosts|
  {
    if hosts == [] {
    } else {
      var h := hosts[0];
      if s.wakeupStart && s.session.Some? && h.name == s.wakeupNickname && h.ready {
        DiscoverKeepsGuarded(Start(s.(wakeupNickname := "", wakeupStart := false), h.startSucceeds), hosts[1..]);
      } else if !(h.standby && s.session.Some? && h.connecting) {
        DiscoverKeepsGuarded(s, hosts[1..]);
      }
    }
  }

  /** One handler leaves a pending wake-up without its session exactly when it overtakes the wake-up. */
  lemma GuardedAfterIff(s: State, e: Event)
    requires Guarded(s) && Legal(s, e)
    ensures Guarded(Step(s, e)) <==> !Overtakes(s, e)
  {
    match e
    case CreateSession(id, constructs, viaPsn, startSucceeds, hosts) =>
      if s.session.None? && constructs && !viaPsn && s.wakeupNickname != "" {
        DiscoverKeepsGuarded(Adopt(s, id).(wakeupStart := true), hosts);
      }
    case HostsDiscovered(hosts) => DiscoverKeepsGuarded(s, hosts);
    case _ =>
  }

  /** The console to wake has a name, as the names of discovered consoles do. */
  predicate NamesHosts(e: Event) {
    match e
    case CreateSession(_, _, _, _, hosts) => forall h :: h in hosts ==> h.name != ""
    case HostsDiscovered(hosts) => forall h :: h in hosts ==> h.name != ""
    case _ => true
  }

  predicate Named(s: State) {
    s.wakeupStart ==> s.wakeupNickname != ""
  }

  lemma {:induction false} DiscoverKeepsNamed(s: State, hosts: seq<Host>)
    requires Named(s) && forall h :: h in hosts ==> h.name != ""
    ensures Named(Discover(s, hosts))
    decreases |hosts|
  {
    if hosts == [] {
    } else {
      var h := hosts[0];
      assert h in hosts;
      if s.wakeupStart && s.session.Some? && h.name == s.wakeupNickname && h.ready {
        DiscoverKeepsNamed(Start(s.(wakeupNickname := "", wakeupStart := false), h.startSucceeds), hosts[1..]);
      } else if !(h.standby && s.session.Some? && h.connecting) {
        DiscoverKeepsNamed(s, hosts[1..]);
      }
    }
  }

  lemma NamedAfter(s: State, e: Event)
    requires Named(s) && Legal(s, e) && NamesHosts(e)
    ensures Named(Step(s, e))
  {
    match e
    case CreateSession(id, constructs, viaPsn, startSucceeds, hosts) =>
      if s.session.None? && constructs && !viaPsn && s.wakeupNickname != "" {
        DiscoverKeepsNamed(Adopt(s, id).(wakeupStart := true), hosts);
      }
    case HostsDiscovered(hosts) => DiscoverKeepsNamed(s, hosts);
    case _ =>
  }

  /** No event of the run overtakes a wake-up that is pending when it happens. */
  predicate NeverOvertaken(s: State, es: seq<Event>)
    requires LegalRun(s, es)
    decreases |es|
  {
    es == [] || (!Overtakes(s, es[0]) && NeverOvertaken(Step(s, es[0]), es[1..]))
  }

  /** At every moment of the run the wake-up could be cancelled. */
  predicate CancelAlwaysSafe(s: State, es: seq<Event>)
    requires LegalRun(s, es)
    decreases |es|
  {
    Legal(s, StopAutoConnect) && (es == [] || CancelAlwaysSafe(Step(s, es[0]), es[1..]))
  }

  /** At every moment of the run a pending wake-up has its session. */
  predicate AlwaysGuarded(s: State, es: seq<Event>)
    requires LegalRun(s, es)
    decreases |es|
  {
    Guarded(s) && (es == [] || AlwaysGuarded(Step(s, es[0]), es[1..]))
  }

  /**
   Over every run, a pending wake-up has its session at every moment if and only if no quit and no failed
   PSN connection overtakes it; and as long as it has, cancelling is safe.
   */
  lemma {:induction false} GuardedIffNeverOvertaken(s: State, es: seq<Event>)
    requires LegalRun(s, es) && Guarded(s)
    ensures AlwaysGuarded(s, es) <==> NeverOvertaken(s, es)
    ensures NeverOvertaken(s, es) ==> CancelAlwaysSafe(s, es)
    decreases |es|
  {
    if es == [] {
    } else {
      var t := Step(s, es[0]);
      GuardedAfterIff(s, es[0]);
      if Guarded(t) {
        GuardedIffNeverOvertaken(t, es[1..]);
      } else {
        assert !AlwaysGuarded(t, es[1..]);
      }
    }
  }

  /**
   The guard of the cancel handler over runs in which discovered hosts have names. Cancelling is safe at
   every moment if and only if no quit and no failed PSN connection overtakes a pending wake-up.
   */
  lemma {:induction false} CancelSafeIffNeverOvertaken(s: State, es: seq<Event>)
    requires LegalRun(s, es) && Guarded(s) && Named(s) && forall e :: e in es ==> NamesHosts(e)
    ensures CancelAlwaysSafe(s, es) <==> NeverOvertaken(s, es)
    decreases |es|
  {
    if es == [] {
    } else {
      var e, t := es[0], Step(s, es[0]);
      assert e in es;
      GuardedAfterIff(s, e);
      NamedAfter(s, e);
      if Guarded(t) {
        CancelSafeIffNeverOvertaken(t, es[1..]);
      } else {
        assert !Legal(t, StopAutoConnect);
      }
    }
  }

  /**
   Cancelling is not always safe: a wake-up overtaken by a cloud session stays pending, and once that
   session quits there is none to cancel.
   */
  lemma WakeupFlagCanOutliveSession(name: string)
    requires name != ""
    ensures var s := Step(Step(INITIAL, ConnectToStandby(name)), CreateSession(0, true, false, true, []));
            var t := Step(s, RegisterCloudSession(1));
            && Legal(t, SessionQuit(1)) && Overtakes(t, SessionQuit(1))
            && !Legal(Step(t, SessionQuit(1)), StopAutoConnect)
  {
    var s := Step(Step(INITIAL, ConnectToStandby(name)), CreateSession(0, true, false, true, []));
    assert s.session == Some(0) && s.wakeupStart && s.wakeupNickname == name;
  }

  // ---------------------------------------------------------------- whose session a handler acts on

  /** The session that sent the event, for events that a session sends. */
  function Sender(e: Event): Option<Id> {
    match e
    case SessionQuit(emitter) => Some(emitter)
    case PsnConnected(asker, _) => Some(asker)
    case PsnFailed(asker) => Some(asker)
    case _ => None
  }

  /** A session exists and has not been scheduled for deletion. */
  predicate Alive(s: State, id: Id) {
    id in s.created && id !in s.scheduled
  }

  /** With one owner, a session is the current one exactly while it is alive. */
  lemma CurrentIffAlive(s: State, id: Id)
    requires Inv(s)
    ensures s.session == Some(id) <==> Alive(s, id)
  {
    assert id in Owned(s) <==> s.session == Some(id);
  }

  /** Every event sent by a session acts on that session. */
  predicate AllOwn(s: State, es: seq<Event>)
    requires LegalRun(s, es)
    decreases |es|
  {
    es == []
    || ((Sender(es[0]).Some? ==> s.session == Sender(es[0])) && AllOwn(Step(s, es[0]), es[1..]))
  }

  /** The sender of the event is alive; an event that no session sends keeps its own rule. */
  predicate SentAlive(s: State, e: Event) {
    if Sender(e).Some? then Alive(s, Sender(e).value) else Legal(s, e)
  }

  lemma SentAliveStep(s: State, e: Event)
    requires Inv(s)
    ensures SentAlive(s, e) <==> Legal(s, e) && (Sender(e).Some? ==> s.session == Sender(e))
    ensures Legal(s, e) ==> Inv(Step(s, e))
  {
    if Sender(e).Some? {
      CurrentIffAlive(s, Sender(e).value);
    }
    if Legal(s, e) {
      StepKeepsInv(s, e);
    }
  }

  /** Every event sent by a session is sent while that session is alive. */
  ghost predicate AllAlive(s: State, es: seq<Event>)
    requires Inv(s)
    decreases |es|
  {
    es == [] || (SentAlive(s, es[0]) && (SentAliveStep(s, es[0]); AllAlive(Step(s, es[0]), es[1..])))
  }

  /**
   Quits and results of PSN connections name no session; they act on the current one. Over every sequence
   of events, each of them finds a session, and it is the sender's own, if and only if each is sent by a
   session that has not been dropped.
   */
  lemma {:induction false} OwnIffAlive(s: State, es: seq<Event>)
    requires Inv(s)
    ensures AllAlive(s, es) <==> LegalRun(s, es) && AllOwn(s, es)
    decreases |es|
  {
    if es == [] {
    } else {
      SentAliveStep(s, es[0]);
      if Legal(s, es[0]) {
        OwnIffAlive(Step(s, es[0]), es[1..]);
      }
    }
  }

  /**
   A session replaced by a cloud session reports late: its quit, or its failed PSN connection, drops the
   cloud session instead, and when that one quits there is no session left.
   */
  lemma LateReportDropsOther(viaPsn: bool, e: Event)
    requires e == SessionQuit(0) || (viaPsn && e == PsnFailed(0))
    ensures var s := Step(Step(INITIAL, CreateSession(0, true, viaPsn, true, [])), RegisterCloudSession(1));
            && s.session == Some(1) && Legal(s, e) && !Alive(s, 0)
            && var t := Step(s, e);
               t.session == None && 1 in t.scheduled && !Legal(t, SessionQuit(1))
  {
    var r := Step(INITIAL, CreateSession(0, true, viaPsn, true, []));
    assert r.session == Some(0) && r.created == {0};
    var s := Step(r, RegisterCloudSession(1));
    assert s.scheduled == [0] && s.session == Some(1);
    assert Step(s, e).scheduled == [0, 1];
  }

  // ---------------------------------------------------------------- when a session begins and ends

  /** Host `i` is the console a wake-up waits for: it has woken, and no host before it stops the pass. */
  predicate Wakes(nickname: string, hosts: seq<Host>, i: nat)
    requires i < |hosts|
  {
    && hosts[i].name == nickname && hosts[i].ready
    && forall k :: 0 <= k < i ==>
         !(hosts[k].standby && hosts[k].connecting) && !(hosts[k].name == nickname && hosts[k].ready)
  }

  /** The wake-up finds its console and the start of the session throws. */
  predicate WakeFails(nickname: string, hosts: seq<Host>) {
    exists i :: 0 <= i < |hosts| && Wakes(nickname, hosts, i) && !hosts[i].startSucceeds
  }

  predicate WakeFound(nickname: string, hosts: seq<Host>) {
    exists i :: 0 <= i < |hosts| && Wakes(nickname, hosts, i)
  }

  /** The current session ends by this event. */
  predicate Ends(s: State, e: Event) {
    match e
    case SessionQuit(_) => true
    case PsnFailed(_) => true
    case PsnConnected(_, succeeds) => !succeeds
    case RegisterCloudSession(_) => true
    case StopAutoConnect => s.wakeupStart && s.wakeupNickname != ""
    case HostsDiscovered(hosts) => s.wakeupStart && WakeFails(s.wakeupNickname, hosts)
    case CreateSession(_, _, _, _, _) => false
    case ConnectToStandby(_) => false
  }

  /** The event makes a session object with this id. */
  predicate Makes(s: State, e: Event, id: Id) {
    match e
    case CreateSession(made, constructs, _, _, _) => made == id && s.session.None? && constructs
    case RegisterCloudSession(made) => made == id
    case _ => false
  }

  /** A session made by this event stays: it waits for PSN or for its console, or its start succeeds. */
  predicate Stays(s: State, e: Event) {
    match e
    case CreateSession(_, _, viaPsn, startSucceeds, hosts) =>
      viaPsn || (if s.wakeupNickname != "" then !WakeFails(s.wakeupNickname, hosts) else startSucceeds)
    case _ => true
  }

  lemma WakesFirst(nickname: string, hosts: seq<Host>, i: nat)
    requires i < |hosts|
    ensures i == 0 ==> (Wakes(nickname, hosts, i) <==> hosts[0].name == nickname && hosts[0].ready)
    ensures i > 0 ==>
              (Wakes(nickname, hosts, i)
               <==> && !(hosts[0].standby && hosts[0].connecting) && !(hosts[0].name == nickname && hosts[0].ready)
                    && Wakes(nickname, hosts[1..], i - 1))
  {
    var rest := hosts[1..];
    assert forall k :: 0 <= k < |rest| ==> rest[k] == hosts[k + 1];
    if i > 0 && Wakes(nickname, hosts, i) {
      assert !(hosts[0].standby && hosts[0].connecting);
      forall k | 0 <= k < i - 1
        ensures !(rest[k].standby && rest[k].connecting) && !(rest[k].name == nickname && rest[k].ready)
      {
        assert rest[k] == hosts[k + 1];
      }
    }
    if i > 0 && !(hosts[0].standby && hosts[0].connecting) && !(hosts[0].name == nickname && hosts[0].ready)
       && Wakes(nickname, rest, i - 1)
    {
      forall k | 0 <= k < i
        ensures !(hosts[k].standby && hosts[k].connecting) && !(hosts[k].name == nickname && hosts[k].ready)
      {
        assert k > 0 ==> hosts[k] == rest[k - 1];
      }
    }
  }

  /** What the first host decides. */
  lemma WakeFirst(nickname: string, hosts: seq<Host>)
    requires hosts != []
    ensures var h := hosts[0];
            if h.name == nickname && h.ready then
              WakeFound(nickname, hosts) && (WakeFails(nickname, hosts) <==> !h.startSucceeds)
            else if h.standby && h.connecting then !WakeFound(nickname, hosts) && !WakeFails(nickname, hosts)
            else
              && (WakeFound(nickname, hosts) <==> WakeFound(nickname, hosts[1..]))
              && (WakeFails(nickname, hosts) <==> WakeFails(nickname, hosts[1..]))
  {
    var h, rest := hosts[0], hosts[1..];
    assert forall k :: 0 <= k < |rest| ==> rest[k] == hosts[k + 1];
    forall i: nat | i < |hosts|
      ensures i == 0 ==> (Wakes(nickname, hosts, i) <==> h.name == nickname && h.ready)
      ensures i > 0 ==> (Wakes(nickname, hosts, i)
                         <==> && !(h.standby && h.connecting) && !(h.name == nickname && h.ready)
                              && Wakes(nickname, rest, i - 1))
    {
      WakesFirst(nickname, hosts, i);
    }
    if h.name == nickname && h.ready {
      assert Wakes(nickname, hosts, 0);
    } else if !(h.standby && h.connecting) {
      if i :| 0 <= i < |rest| && Wakes(nickname, rest, i) {
        assert Wakes(nickname, hosts, i + 1);
      }
      if i :| 0 <= i < |rest| && Wakes(nickname, rest, i) && !rest[i].startSucceeds {
        assert Wakes(nickname, hosts, i + 1) && !hosts[i + 1].startSucceeds;
      }
      if i :| 0 <= i < |hosts| && Wakes(nickname, hosts, i) {
        assert Wakes(nickname, rest, i - 1);
      }
      if i :| 0 <= i < |hosts| && Wakes(nickname, hosts, i) && !hosts[i].startSucceeds {
        assert Wakes(nickname, rest, i - 1) && !rest[i - 1].startSucceeds;
      }
    }
  }

  /** With no wake-up pending, or no session, a pass over the hosts touches neither. */
  lemma {:induction false} IdlePass(s: State, hosts: seq<Host>)
    requires !s.wakeupStart || s.session.None?
    ensures var t := Discover(s, hosts);
            t == s.(wakeupNickname := t.wakeupNickname) && (s.session.None? ==> t == s)
    decreases |hosts|
  {
    if hosts == [] {
    } else if !(hosts[0].standby && s.session.Some? && hosts[0].connecting) {
      IdlePass(s, hosts[1..]);
    }
  }

  /** The session and the pending wake-up after a pass over the hosts. */
  lemma {:induction false} PassOutcome(s: State, hosts: seq<Host>)
    requires s.wakeupStart && s.session.Some?
    ensures var t := Discover(s, hosts);
            && t.created == s.created
            && (t.wakeupStart <==> !WakeFound(s.wakeupNickname, hosts))
            && (if WakeFails(s.wakeupNickname, hosts)
                then t.session == None && t.logContext == None && t.scheduled == s.scheduled + [s.session.value]
                else t.session == s.session && t.logContext == s.logContext && t.scheduled == s.scheduled)
    decreases |hosts|
  {
    if hosts == [] {
    } else {
      var h := hosts[0];
      WakeFirst(s.wakeupNickname, hosts);
      if h.name == s.wakeupNickname && h.ready {
        IdlePass(Start(s.(wakeupNickname := "", wakeupStart := false), h.startSucceeds), hosts[1..]);
      } else if !(h.standby && h.connecting) {
        PassOutcome(s, hosts[1..]);
      }
    }
  }

  lemma CreateOutcome(s: State, id: Id, constructs: bool, viaPsn: bool, startSucceeds: bool, hosts: seq<Host>)
    requires Inv(s) && id !in s.created
    ensures var e := CreateSession(id, constructs, viaPsn, startSucceeds, hosts);
            var t := Create(s, id, constructs, viaPsn, startSucceeds, hosts);
            && t.created == (if Makes(s, e, id) then s.created + {id} else s.created)
            && t.session == (if !Makes(s, e, id) then s.session else if Stays(s, e) then Some(id) else None)
            && t.scheduled == s.scheduled + (if Makes(s, e, id) && !Stays(s, e) then [id] else [])
  {
    assert s.scheduled + [] == s.scheduled;
    if s.session.None? && constructs && !viaPsn && s.wakeupNickname != "" {
      PassOutcome(Adopt(s, id).(wakeupStart := true), hosts);
    }
  }

  /**
   The life of a session, over every handler. A session that is alive ends exactly by its own failed start
   (after a wake-up or through PSN), a quit, a failed PSN connection, a cloud session that replaces it, or
   the cancelling of its pending wake-up; a new one begins exactly when an event makes it and it stays. A
   session that ends is scheduled for deletion, and nothing else is.
   */
  lemma LifeOfSession(s: State, e: Event, id: Id)
    requires Inv(s) && Legal(s, e)
    ensures var t := Step(s, e);
            && (id in t.created <==> id in s.created || Makes(s, e, id))
            && (Alive(t, id) <==> (Alive(s, id) && !Ends(s, e)) || (Makes(s, e, id) && Stays(s, e)))
            && (id in t.scheduled
                <==> || id in s.scheduled || (Alive(s, id) && Ends(s, e)) || (Makes(s, e, id) && !Stays(s, e)))
            && (t.session == Some(id) <==> Alive(t, id)) && (t.logContext == Some(id) <==> Alive(t, id))
  {
    var t := Step(s, e);
    StepKeepsInv(s, e);
    CurrentIffAlive(s, id);
    CurrentIffAlive(t, id);
    match e
    case CreateSession(made, constructs, viaPsn, startSucceeds, hosts) =>
      CreateOutcome(s, made, constructs, viaPsn, startSucceeds, hosts);
    case HostsDiscovered(hosts) =>
      if s.wakeupStart && s.session.Some? {
        PassOutcome(s, hosts);
      } else {
        IdlePass(s, hosts);
      }
    case _ =>
  }

  // ---------------------------------------------------------------- the pending wake-up

  /** The first console in standby that the session is connecting to is noted; the pass ends with it. */
  function NameNoted(hosts: seq<Host>, otherwise: string): string {
    if hosts == [] then otherwise
    else if hosts[0].standby && hosts[0].connecting then hosts[0].name
    else NameNoted(hosts[1..], otherwise)
  }

  lemma {:induction false} IdlePassNotes(s: State, hosts: seq<Host>)
    requires !s.wakeupStart && s.session.Some?
    ensures Discover(s, hosts).wakeupNickname == NameNoted(hosts, s.wakeupNickname)
    decreases |hosts|
  {
    if hosts == [] {
    } else if !(hosts[0].standby && hosts[0].connecting) {
      IdlePassNotes(s, hosts[1..]);
    }
  }

  /** A pass that wakes no console notes one in standby; one that starts the session goes on after it. */
  lemma {:induction false} PassNotes(s: State, hosts: seq<Host>)
    requires s.wakeupStart && s.session.Some?
    ensures !WakeFound(s.wakeupNickname, hosts) ==>
              Discover(s, hosts).wakeupNickname == NameNoted(hosts, s.wakeupNickname)
    ensures forall i: nat :: i < |hosts| && Wakes(s.wakeupNickname, hosts, i) ==>
              Discover(s, hosts).wakeupNickname
              == if hosts[i].startSucceeds then NameNoted(hosts[i + 1..], "") else ""
    decreases |hosts|
  {
    if hosts == [] {
    } else {
      var h, rest := hosts[0], hosts[1..];
      WakeFirst(s.wakeupNickname, hosts);
      forall i: nat | i < |hosts| && Wakes(s.wakeupNickname, hosts, i)
        ensures Discover(s, hosts).wakeupNickname
                == if hosts[i].startSucceeds then NameNoted(hosts[i + 1..], "") else ""
      {
        WakesFirst(s.wakeupNickname, hosts, i);
        PassNotesAt(s, hosts, i);
      }
      if !(h.name == s.wakeupNickname && h.ready) && !(h.standby && h.connecting) {
        PassNotes(s, rest);
      }
    }
  }

  lemma {:induction false} PassNotesAt(s: State, hosts: seq<Host>, i: nat)
    requires s.wakeupStart && s.session.Some? && i < |hosts| && Wakes(s.wakeupNickname, hosts, i)
    ensures Discover(s, hosts).wakeupNickname == if hosts[i].startSucceeds then NameNoted(hosts[i + 1..], "") else ""
    decreases i
  {
    var h := hosts[0];
    WakesFirst(s.wakeupNickname, hosts, i);
    if i == 0 {
      var woken := Start(s.(wakeupNickname := "", wakeupStart := false), h.startSucceeds);
      if h.startSucceeds {
        IdlePassNotes(woken, hosts[1..]);
      } else {
        IdlePass(woken, hosts[1..]);
      }
    } else {
      assert hosts[i + 1..] == hosts[1..][i..];
      PassNotesAt(s, hosts[1..], i - 1);
    }
  }

  /** The event makes a session that waits for its console to wake, in a pass over the hosts. */
  predicate Waits(s: State, e: Event) {
    match e
    case CreateSession(_, constructs, viaPsn, _, _) =>
      s.session.None? && constructs && !viaPsn && s.wakeupNickname != ""
    case _ => false
  }

  /**
   The wake-up over every handler. It becomes pending exactly when a session is made that waits for its
   console, and is over when a pass finds the console awake or it is cancelled; the console's name changes
   with a connection to one in standby, a cancellation and a pass over the hosts, and with nothing else.
   */
  lemma WakeupAfter(s: State, e: Event)
    requires Inv(s) && Legal(s, e)
    ensures var t := Step(s, e);
            && (t.wakeupStart <==>
                match e
                case CreateSession(_, _, _, _, hosts) =>
                  if Waits(s, e) then !WakeFound(s.wakeupNickname, hosts) else s.wakeupStart
                case HostsDiscovered(hosts) =>
                  s.wakeupStart && (s.session.Some? ==> !WakeFound(s.wakeupNickname, hosts))
                case StopAutoConnect => s.wakeupStart && s.wakeupNickname == ""
                case _ => s.wakeupStart)
            && (match e
                case ConnectToStandby(nickname) =>
                  t.wakeupNickname == if nickname != "" then nickname else s.wakeupNickname
                case StopAutoConnect => t.wakeupNickname == ""
                case HostsDiscovered(_) => s.session.None? ==> t.wakeupNickname == s.wakeupNickname
                case _ => !Waits(s, e) ==> t.wakeupNickname == s.wakeupNickname)
  {
    match e
    case CreateSession(id, _, _, _, hosts) =>
      if Waits(s, e) {
        PassOutcome(Adopt(s, id).(wakeupStart := true), hosts);
      }
    case HostsDiscovered(hosts) =>
      if s.wakeupStart && s.session.Some? {
        PassOutcome(s, hosts);
      } else {
        IdlePass(s, hosts);
      }
    case _ =>
  }

  // ---------------------------------------------------------------- runs in which every guard holds

  /** New sessions are new objects, senders are alive, and no pending wake-up is overtaken. */
  predicate KeepsRules(s: State, e: Event) {
    && (e.CreateSession? || e.RegisterCloudSession? ==> e.id !in s.created)
    && (Sender(e).Some? ==> Alive(s, Sender(e).value))
    && !Overtakes(s, e)
  }

  lemma RulesMeanLegal(s: State, e: Event)
    requires Inv(s) && Guarded(s)
    ensures KeepsRules(s, e)
            <==> Legal(s, e) && (Sender(e).Some? ==> s.session == Sender(e)) && !Overtakes(s, e)
    ensures KeepsRules(s, e) ==> Inv(Step(s, e)) && Guarded(Step(s, e))
  {
    SentAliveStep(s, e);
    if Legal(s, e) {
      GuardedAfterIff(s, e);
    }
  }

  ghost predicate RulesRun(s: State, es: seq<Event>)
    requires Inv(s) && Guarded(s)
    decreases |es|
  {
    es == [] || (KeepsRules(s, es[0]) && (RulesMeanLegal(s, es[0]); RulesRun(Step(s, es[0]), es[1..])))
  }

  /**
   All guards together. The events of a sequence keep the rules if and only if every handler, the cancel
   handler included, finds the session it uses, each report finds its sender's, and no wake-up is overtaken.
   */
  lemma {:induction false} RulesRunIsLegal(s: State, es: seq<Event>)
    requires Inv(s) && Guarded(s)
    ensures RulesRun(s, es) <==> LegalRun(s, es) && AllOwn(s, es) && NeverOvertaken(s, es)
    ensures RulesRun(s, es) ==> CancelAlwaysSafe(s, es)
    decreases |es|
  {
    if es == [] {
    } else {
      RulesMeanLegal(s, es[0]);
      if KeepsRules(s, es[0]) {
        RulesRunIsLegal(Step(s, es[0]), es[1..]);
      }
    }
  }

  // ---------------------------------------------------------------- the object

  class QmlBackend {
    var session: Option<Id>
    var logContext: Option<Id>
    var wakeupNickname: string
    var wakeupStart: bool
    ghost var created: set<Id>
    ghost var scheduled: seq<Id>

    ghost function Abs(): State
      reads this
    {
      State(session, logContext, created, scheduled, wakeupNickname, wakeupStart)
    }

    constructor ()
      ensures Abs() == INITIAL
    {
      session, logContext, wakeupNickname, wakeupStart := None, None, "", false;
      created, scheduled := {}, [];
    }

    method DeleteSession()
      requires session.Some?
      modifies this`session, this`logContext, this`scheduled
      ensures Abs() == Drop(old(Abs()))
    {
      logContext := None;
      scheduled := scheduled + [session.value];
      session := None;
    }

    method StartSession(succeeds: bool)
      requires session.Some?
      modifies this`session, this`logContext, this`scheduled
      ensures Abs() == Start(old(Abs()), succeeds)
    {
      if !succeeds {
        DeleteSession();
      }
    }

    method OnCloudSessionCreated(id: Id)
      modifies this
      ensures Abs() == Adopt(if old(session).Some? then Drop(old(Abs())) else old(Abs()), id)
    {
      if session.Some? {
        logContext := None;
        scheduled := scheduled + [session.value];
      }
      session := Some(id);
      created := created + {id};
      logContext := Some(id);
    }

    method OnSessionQuit()
      requires session.Some?
      modifies this
      ensures Abs() == Drop(old(Abs()))
    {
      logContext := None;
      scheduled := scheduled + [session.value];
      session := None;
    }

    /** The result of connecting through PSN. */
    method CheckPsnConnection(connected: bool, startSucceeds: bool)
      requires connected ==> session.Some?
      modifies this
      ensures Abs() == if connected then Start(old(Abs()), startSucceeds)
                       else if old(session).Some? then Drop(old(Abs())) else old(Abs())
    {
      if connected {
        StartSession(startSucceeds);
      } else if session.Some? {
        DeleteSession();
      }
    }

    method CreateSession(id: Id, constructs: bool, viaPsn: bool, startSucceeds: bool, hosts: seq<Host>)
      modifies this
      ensures Abs() == Create(old(Abs()), id, constructs, viaPsn, startSucceeds, hosts)
    {
      if session.Some? || !constructs {
        return;
      }
      session := Some(id);
      created := created + {id};
      logContext := Some(id);
      if !viaPsn {
        if wakeupNickname != "" {
          wakeupStart := true;
          UpdateDiscoveryHosts(hosts);
        } else {
          StartSession(startSucceeds);
        }
      }
    }

    method UpdateDiscoveryHosts(hosts: seq<Host>)
      modifies this
      ensures Abs() == Discover(old(Abs()), hosts)
    {
      assert hosts[0..] == hosts;
      for i := 0 to |hosts|
        invariant Discover(Abs(), hosts[i..]) == Discover(old(Abs()), hosts)
      {
        var h := hosts[i];
        assert hosts[i..][0] == h && hosts[i..][1..] == hosts[i + 1..];
        if wakeupStart && session.Some? && h.name == wakeupNickname && h.ready {
          wakeupNickname := "";
          wakeupStart := false;
          StartSession(h.startSucceeds);
        } else if h.standby && session.Some? && h.connecting {
          wakeupNickname := h.name;
          return;
        }
      }
    }

    method StopAutoConnect()
      requires Legal(Abs(), Event.StopAutoConnect)
      modifies this
      ensures Abs() == Step(old(Abs()), Event.StopAutoConnect)
    {
      if wakeupNickname != "" {
        wakeupNickname := "";
        if wakeupStart {
          wakeupStart := false;
          DeleteSession();
        }
      }
    }
  }
}
