/**
 The PSN request limiter: a sliding window over the times of the requests granted so far, pruned in
 place on every call.
 */
module PsnLimiter {
  import opened Collections

  const WINDOW_MS := 1000
  const MAX_IN_WINDOW := 5
  const RETRY_MS := 200

  predicate Expired(now: int, time: int) {
    now - time > WINDOW_MS
  }

  /** The times that still count at `now`. */
  function Live(times: seq<int>, now: int): seq<int> {
    if times == [] then [] else (if Expired(now, times[0]) then [] else [times[0]]) + Live(times[1..], now)
  }

  /** One call: whether it is granted, and the list it leaves behind. */
  function Granted(times: seq<int>, now: int): bool {
    |Live(times, now)| < MAX_IN_WINDOW
  }

  function After(times: seq<int>, now: int): seq<int> {
    if Granted(times, now) then Live(times, now) + [now] else Live(times, now)
  }

  class RequestLimiter {
    var requestTimes: seq<int>
    ghost var history: seq<int>

    constructor ()
      ensures requestTimes == [] && history == []
    {
      requestTimes, history := [], [];
    }

    method CanMakePsnRequest(now: int) returns (granted: bool)
      modifies this
      ensures granted == Granted(old(requestTimes), now)
      ensures requestTimes == After(old(requestTimes), now)
      ensures history == old(history) + (if granted then [now] else [])
    {
      var kept := [];
      for i := 0 to |requestTimes|
        invariant requestTimes == old(requestTimes) && history == old(history)
        invariant kept + Live(requestTimes[i..], now) == Live(requestTimes, now)
      {
        assert requestTimes[i..][1..] == requestTimes[i + 1..];
        if !(now - requestTimes[i] > 1000) {
          ConcatAssoc(kept, [requestTimes[i]], Live(requestTimes[i + 1..], now));
          kept := kept + [requestTimes[i]];
        }
      }
      requestTimes := kept;
      if |requestTimes| >= 5 {
        return false;
      }
      requestTimes := requestTimes + [now];
      history := history + [now];
      return true;
    }
  }

  // ---------------------------------------------------------------- runs

  predicate Ordered(times: seq<int>) {
    forall i, j :: 0 <= i < j < |times| ==> times[i] <= times[j]
  }

  /** The granted times of a run of calls, starting from the list `times`. */
  function Grants(times: seq<int>, calls: seq<int>): seq<int>
    decreases |calls|
  {
    if calls == [] then []
    else (if Granted(times, calls[0]) then [calls[0]] else []) + Grants(After(times, calls[0]), calls[1..])
  }

  /** The list after a run of calls. */
  function ListAfter(times: seq<int>, calls: seq<int>): seq<int>
    decreases |calls|
  {
    if calls == [] then times else ListAfter(After(times, calls[0]), calls[1..])
  }

  lemma {:induction false} LiveAppend(a: seq<int>, b: seq<int>, now: int)
    ensures Live(a + b, now) == Live(a, now) + Live(b, now)
  {
    if a == [] {
      assert a + b == b;
    } else {
      assert (a + b)[1..] == a[1..] + b;
      LiveAppend(a[1..], b, now);
      ConcatAssoc(if Expired(now, a[0]) then [] else [a[0]], Live(a[1..], now), Live(b, now));
    }
  }

  /** Pruning earlier loses nothing that a later pruning would keep. */
  lemma {:induction false} LiveOfLive(times: seq<int>, now: int, later: int)
    requires now <= later
    ensures Live(Live(times, now), later) == Live(times, later)
  {
    if times == [] {
    } else {
      LiveOfLive(times[1..], now, later);
      if !Expired(now, times[0]) {
        assert Live(times, now)[1..] == Live(times[1..], now);
      } else {
        assert Live(times, now) == Live(times[1..], now);
      }
    }
  }

  /** What ties the pruned list to the full history: both count the same requests from `clock` on. */
  ghost predicate Represents(times: seq<int>, history: seq<int>, clock: int) {
    forall now :: clock <= now ==> Live(times, now) == Live(history, now)
  }

  lemma CallRepresents(times: seq<int>, history: seq<int>, clock: int, now: int)
    requires Represents(times, history, clock) && clock <= now
    ensures Represents(After(times, now), history + (if Granted(times, now) then [now] else []), now)
  {
    forall later | now <= later
      ensures Live(After(times, now), later) == Live(history + (if Granted(times, now) then [now] else []), later)
    {
      assert clock <= later && Live(times, later) == Live(history, later);
      LiveOfLive(times, now, later);
      if Granted(times, now) {
        LiveAppend(Live(times, now), [now], later);
        LiveAppend(history, [now], later);
      } else {
        assert history + [] == history;
      }
    }
  }

  lemma OrderedTail(clock: int, calls: seq<int>)
    requires Ordered([clock] + calls) && calls != []
    ensures clock <= calls[0] && Ordered([calls[0]] + calls[1..])
    ensures Last([calls[0]] + calls[1..]) == Last([clock] + calls)
  {
    var all := [clock] + calls;
    assert all[0] == clock && all[1] == calls[0];
    assert [calls[0]] + calls[1..] == all[1..];
  }

  lemma {:induction false} RunRepresents(times: seq<int>, history: seq<int>, clock: int, calls: seq<int>)
    requires Represents(times, history, clock) && Ordered([clock] + calls)
    ensures Represents(ListAfter(times, calls), history + Grants(times, calls), Last([clock] + calls))
    decreases |calls|
  {
    if calls == [] {
      assert history + [] == history;
    } else {
      OrderedTail(clock, calls);
      var now := calls[0];
      var first := if Granted(times, now) then [now] else [];
      CallRepresents(times, history, clock, now);
      RunRepresents(After(times, now), history + first, now, calls[1..]);
      ConcatAssoc(history, first, Grants(After(times, now), calls[1..]));
    }
  }

  function Last(s: seq<int>): int
    requires s != []
  {
    s[|s| - 1]
  }

  lemma OrderedFromFirst(calls: seq<int>)
    requires Ordered(calls) && calls != []
    ensures Ordered([calls[0]] + calls) && Last([calls[0]] + calls) == Last(calls)
  {
    var all := [calls[0]] + calls;
    forall i, j | 0 <= i < j < |all| ensures all[i] <= all[j] {
      assert all[j] == calls[j - 1] && all[i] == (if i == 0 then calls[0] else calls[i - 1]);
    }
  }

  lemma RunFromEmpty(calls: seq<int>)
    requires Ordered(calls) && calls != []
    ensures Represents(ListAfter([], calls), Grants([], calls), Last(calls))
  {
    OrderedFromFirst(calls);
    RunRepresents([], [], calls[0], calls);
    assert [] + Grants([], calls) == Grants([], calls);
  }

  /** The requests that are at most a second old. */
  function Recent(history: seq<int>, now: int): seq<int> {
    Filter(history, (time: int) => now - time <= 1000)
  }

  lemma {:induction false} LiveIsRecent(history: seq<int>, now: int)
    ensures Live(history, now) == Recent(history, now)
  {
    if history == [] {
    } else {
      LiveIsRecent(history[1..], now);
    }
  }

  /**
   Pruning is exact. With a clock that does not go back, after any run the next call is granted
   exactly when fewer than five of all the requests ever granted are at most a second old.
   */
  lemma PrunedListDecidesAsHistory(calls: seq<int>, now: int)
    requires Ordered(calls + [now])
    ensures Granted(ListAfter([], calls), now) <==> |Recent(Grants([], calls), now)| < 5
  {
    LiveIsRecent(Grants([], calls), now);
    var all := calls + [now];
    assert forall i :: 0 <= i < |calls| ==> all[i] == calls[i];
    if calls == [] {
    } else {
      RunFromEmpty(calls);
      assert all[|calls| - 1] == Last(calls) && all[|calls|] == now;
    }
  }

  // ---------------------------------------------------------------- the rate

  /** Every granted request comes more than a second after the one five grants earlier. */
  ghost predicate Spaced(history: seq<int>) {
    forall i :: 0 <= i && i + MAX_IN_WINDOW < |history| ==> history[i + MAX_IN_WINDOW] - history[i] > WINDOW_MS
  }

  lemma {:induction false} AllLive(times: seq<int>, now: int)
    requires forall t :: t in times ==> !Expired(now, t)
    ensures Live(times, now) == times
  {
    if times == [] {
    } else {
      AllLive(times[1..], now);
    }
  }

  /** Entries that have not expired at the end of a history all count. */
  lemma RecentEndIsLive(history: seq<int>, k: nat, now: int)
    requires k <= |history| && forall i :: k <= i < |history| ==> !Expired(now, history[i])
    ensures |Live(history, now)| >= |history| - k
  {
    var end := history[k..];
    assert history == history[..k] + end;
    LiveAppend(history[..k], end, now);
    forall t | t in end ensures !Expired(now, t) {
      var j :| 0 <= j < |end| && end[j] == t;
      assert t == history[k + j];
    }
    AllLive(end, now);
  }

  /** In an ordered history with few recent entries the fifth from the end is not recent. */
  lemma FewLiveMeansOldFifth(history: seq<int>, now: int)
    requires Ordered(history) && |history| >= MAX_IN_WINDOW && |Live(history, now)| < MAX_IN_WINDOW
    ensures Expired(now, history[|history| - MAX_IN_WINDOW])
  {
    var k := |history| - MAX_IN_WINDOW;
    if !Expired(now, history[k]) {
      forall i | k <= i < |history| ensures !Expired(now, history[i]) {
        assert i == k || history[k] <= history[i];
      }
      RecentEndIsLive(history, k, now);
    }
  }

  ghost predicate OrderedUpTo(history: seq<int>, clock: int) {
    Ordered(history) && forall i :: 0 <= i < |history| ==> history[i] <= clock
  }

  lemma GrantKeepsSpaced(times: seq<int>, history: seq<int>, clock: int, now: int)
    requires Represents(times, history, clock) && clock <= now && OrderedUpTo(history, clock) && Spaced(history)
    ensures Granted(times, now) ==> OrderedUpTo(history + [now], now) && Spaced(history + [now])
  {
    if Granted(times, now) && |history| >= MAX_IN_WINDOW {
      assert Live(times, now) == Live(history, now);
      FewLiveMeansOldFifth(history, now);
    }
  }

  lemma {:induction false} RunStaysSpaced(times: seq<int>, history: seq<int>, clock: int, calls: seq<int>)
    requires Represents(times, history, clock) && Ordered([clock] + calls)
    requires OrderedUpTo(history, clock) && Spaced(history)
    ensures Spaced(history + Grants(times, calls))
    decreases |calls|
  {
    if calls == [] {
      assert history + [] == history;
    } else {
      OrderedTail(clock, calls);
      var now := calls[0];
      var first := if Granted(times, now) then [now] else [];
      CallRepresents(times, history, clock, now);
      GrantKeepsSpaced(times, history, clock, now);
      assert first == [] ==> history + first == history;
      RunStaysSpaced(After(times, now), history + first, now, calls[1..]);
      ConcatAssoc(history, first, Grants(After(times, now), calls[1..]));
    }
  }

  /** Over every run with a clock that does not go back, any six consecutive grants span more than a second. */
  lemma SixGrantsSpanASecond(calls: seq<int>)
    requires Ordered(calls)
    ensures Spaced(Grants([], calls))
  {
    if calls == [] {
    } else {
      OrderedFromFirst(calls);
      RunStaysSpaced([], [], calls[0], calls);
      assert [] + Grants([], calls) == Grants([], calls);
    }
  }

  lemma GrantsStep(times: seq<int>, now: int, rest: seq<int>)
    ensures Grants(times, [now] + rest) == (if Granted(times, now) then [now] else []) + Grants(After(times, now), rest)
  {
    assert ([now] + rest)[1..] == rest;
  }

  /** Calls at one clock time are granted as long as the list has room. */
  lemma {:induction false} GrantsWhileRoom(times: seq<int>, calls: seq<int>, now: int)
    requires |times| + |calls| <= MAX_IN_WINDOW
    requires (forall t :: t in times ==> !Expired(now, t)) && forall i :: 0 <= i < |calls| ==> calls[i] == now
    ensures Grants(times, calls) == calls
    decreases |calls|
  {
    if calls == [] {
    } else {
      assert calls == [now] + calls[1..];
      AllLive(times, now);
      GrantsWhileRoom(times + [now], calls[1..], now);
    }
  }

  /** No call reads a time more than `d` behind the time of an earlier call. */
  ghost predicate SetbackAtMost(calls: seq<int>, d: nat) {
    forall i, j :: 0 <= i < j < |calls| ==> calls[i] - calls[j] <= d
  }

  /** The clock steps back by one millisecond after the second call. */
  const SLIPPED: seq<int> := [0] + ([1001] + [1000, 1000, 1000, 1000])

  lemma AfterOne(first: int, now: int)
    ensures After([], first) == [first]
    ensures Expired(now, first) ==> After([first], now) == [now]
  {
    assert [first][1..] == [];
    assert Expired(now, first) ==> Live([first], now) == [] + Live([], now);
  }

  lemma SlippedGrants()
    ensures Grants([], SLIPPED) == SLIPPED
  {
    var four := [1000, 1000, 1000, 1000];
    AfterOne(0, 1001);
    GrantsWhileRoom([1001], four, 1000);
    GrantsStep([0], 1001, four);
    GrantsStep([], 0, [1001] + four);
  }

  /** The sixth request of such a run is granted one second after the first. */
  lemma SlippedRun(calls: seq<int>)
    requires |calls| == 6 && calls[0] == 0 && calls[1] == 1001 && forall i :: 2 <= i < 6 ==> calls[i] == 1000
    ensures SetbackAtMost(calls, 1) && !Spaced(calls)
  {
    assert calls[0 + MAX_IN_WINDOW] - calls[0] == 1000;
  }

  /** The rate holds over every run of a clock exactly when the clock never steps back, not even by a millisecond. */
  lemma RateNeedsSteadyClock(d: nat)
    ensures (forall calls :: SetbackAtMost(calls, d) ==> Spaced(Grants([], calls))) <==> d == 0
  {
    if d == 0 {
      forall calls | SetbackAtMost(calls, d) ensures Spaced(Grants([], calls)) {
        assert forall i, j :: 0 <= i < j < |calls| ==> calls[i] - calls[j] <= d;
        SixGrantsSpanASecond(calls);
      }
    } else {
      SlippedGrants();
      SlippedRun(SLIPPED);
      assert SetbackAtMost(SLIPPED, d);
    }
  }

  // ---------------------------------------------------------------- a lone caller that retries

  lemma {:induction false} LiveMembers(times: seq<int>, now: int)
    ensures forall t :: t in Live(times, now) ==> t in times && !Expired(now, t)
  {
    if times == [] {
    } else {
      LiveMembers(times[1..], now);
    }
  }

  /** A caller that no one competes with is granted by the time everything on the list has expired. */
  lemma {:induction false} GrantedOnceAllExpired(times: seq<int>, calls: seq<int>)
    requires calls != [] && forall t :: t in times ==> Expired(Last(calls), t)
    ensures Grants(times, calls) != []
    decreases |calls|
  {
    LiveMembers(times, calls[0]);
    if !Granted(times, calls[0]) {
      var live := Live(times, calls[0]);
      assert live[0] in live && Expired(Last(calls), live[0]);
      if |calls| > 1 {
        assert Last(calls[1..]) == Last(calls);
        GrantedOnceAllExpired(Live(times, calls[0]), calls[1..]);
      }
    }
  }

  /** Retrying every 200 ms, a refused lone caller is granted by its sixth retry at the latest. */
  lemma GrantedWithinSixRetries(times: seq<int>, calls: seq<int>)
    requires |calls| == 7 && forall i :: 0 <= i < 6 ==> calls[i + 1] - calls[i] >= RETRY_MS
    requires forall t :: t in times ==> t <= calls[0]
    ensures Grants(times, calls) != []
  {
    assert calls[0 + 1] - calls[0] >= RETRY_MS && calls[1 + 1] - calls[1] >= RETRY_MS;
    assert calls[2 + 1] - calls[2] >= RETRY_MS && calls[3 + 1] - calls[3] >= RETRY_MS;
    assert calls[4 + 1] - calls[4] >= RETRY_MS && calls[5 + 1] - calls[5] >= RETRY_MS;
    GrantedOnceAllExpired(times, calls);
  }

  /** While five requests have not expired every call is refused. */
  lemma {:induction false} RefusedWhileFull(times: seq<int>, calls: seq<int>)
    requires |times| == 5 && forall c, t :: c in calls && t in times ==> !Expired(c, t)
    ensures Grants(times, calls) == []
    decreases |calls|
  {
    if calls == [] {
    } else {
      assert calls[0] in calls;
      AllLive(times, calls[0]);
      RefusedWhileFull(times, calls[1..]);
    }
  }

  /** Six are sometimes needed: after five grants at time 0 the retries up to time 1000 are refused. */
  lemma FiveRetriesCanFail()
    ensures Grants([0, 0, 0, 0, 0], [0, 200, 400, 600, 800, 1000]) == []
  {
    RefusedWhileFull([0, 0, 0, 0, 0], [0, 200, 400, 600, 800, 1000]);
  }
}
