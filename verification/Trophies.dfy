/**
 Fetching the trophies of a title: a chain of four requests, each allowed one retry after a token
 refresh, that ends by joining trophy definitions with the progress of the user.
 */
module Trophies {
  import opened Collections

  type Json = string

  /** A trophy object. The seven optional fields are the progress fields; `rest` is everything else. */
  datatype Trophy = Trophy(
    id: int,
    rest: Json,
    earned: Option<Json>,
    earnedDateTime: Option<Json>,
    progress: Option<Json>,
    progressRate: Option<Json>,
    progressedDateTime: Option<Json>,
    trophyRare: Option<Json>,
    trophyEarnedRate: Option<Json>)

  datatype Value = Object(trophy: Trophy) | NotObject

  // ---------------------------------------------------------------- the join

  function Or<T>(first: Option<T>, second: Option<T>): Option<T> {
    if first.Some? then first else second
  }

  /** A definition with the progress fields of a record; `earned` is taken over even when missing. */
  function Overlay(d: Trophy, p: Trophy): Trophy {
    Trophy(d.id, d.rest, p.earned, Or(p.earnedDateTime, d.earnedDateTime), Or(p.progress, d.progress),
           Or(p.progressRate, d.progressRate), Or(p.progressedDateTime, d.progressedDateTime),
           Or(p.trophyRare, d.trophyRare), Or(p.trophyEarnedRate, d.trophyEarnedRate))
  }

  /** The last record with this id, by scanning all of them. */
  function LastRecord(records: seq<Value>, id: int): Option<Trophy> {
    if records == [] then None
    else
      var later := LastRecord(records[1..], id);
      if later.Some? then later
      else if records[0].Object? && records[0].trophy.id == id then Some(records[0].trophy)
      else None
  }

  function JoinOne(d: Trophy, records: seq<Value>): Trophy {
    var p := LastRecord(records, d.id);
    if p.Some? then Overlay(d, p.value) else d
  }

  /** The nested-loop join: every definition scans all progress records. */
  function NestedLoopJoin(definitions: seq<Value>, records: seq<Value>): seq<Trophy> {
    if definitions == [] then []
    else (if definitions[0].Object? then [JoinOne(definitions[0].trophy, records)] else [])
         + NestedLoopJoin(definitions[1..], records)
  }

  function Trophies(values: seq<Value>): seq<Trophy> {
    if values == [] then [] else (if values[0].Object? then [values[0].trophy] else []) + Trophies(values[1..])
  }

  lemma {:induction false} LastRecordAppend(a: seq<Value>, v: Value, id: int)
    ensures LastRecord(a + [v], id) == if v.Object? && v.trophy.id == id then Some(v.trophy) else LastRecord(a, id)
  {
    if a == [] {
      assert a + [v] == [v] && [v][1..] == [];
    } else {
      assert (a + [v])[1..] == a[1..] + [v];
      LastRecordAppend(a[1..], v, id);
    }
  }

  /** The join keeps order, count, ids and everything that is not progress. */
  lemma {:induction false} JoinKeepsDefinitions(definitions: seq<Value>, records: seq<Value>)
    ensures var out := NestedLoopJoin(definitions, records);
            var ds := Trophies(definitions);
            && |out| == |ds|
            && (forall i :: 0 <= i < |ds| ==> out[i] == JoinOne(ds[i], records))
            && (forall i :: 0 <= i < |ds| ==> out[i].id == ds[i].id && out[i].rest == ds[i].rest)
            && (forall i :: 0 <= i < |ds| && LastRecord(records, ds[i].id).None? ==> out[i] == ds[i])
  {
    if definitions == [] {
    } else {
      JoinKeepsDefinitions(definitions[1..], records);
    }
  }

  /** The join through a map from id to record, as it is computed. */
  method JoinProgress(definitions: seq<Value>, records: seq<Value>) returns (merged: seq<Trophy>)
    ensures merged == NestedLoopJoin(definitions, records)
  {
    var byId: map<int, Trophy> := map[];
    for i := 0 to |records|
      invariant forall id :: (id in byId <==> LastRecord(records[..i], id).Some?)
      invariant forall id :: id in byId ==> Some(byId[id]) == LastRecord(records[..i], id)
    {
      assert records[..i + 1] == records[..i] + [records[i]];
      forall id {
        LastRecordAppend(records[..i], records[i], id);
      }
      if records[i].Object? {
        byId := byId[records[i].trophy.id := records[i].trophy];
      }
    }
    assert records[..|records|] == records;
    merged := [];
    for i := 0 to |definitions|
      invariant merged + NestedLoopJoin(definitions[i..], records) == NestedLoopJoin(definitions, records)
    {
      assert definitions[i..][1..] == definitions[i + 1..];
      if definitions[i].Object? {
        var t := definitions[i].trophy;
        if t.id in byId {
          var p := byId[t.id];
          t := t.(earned := p.earned);
          if p.earnedDateTime.Some? { t := t.(earnedDateTime := p.earnedDateTime); }
          if p.progress.Some? { t := t.(progress := p.progress); }
          if p.progressRate.Some? { t := t.(progressRate := p.progressRate); }
          if p.progressedDateTime.Some? { t := t.(progressedDateTime := p.progressedDateTime); }
          if p.trophyRare.Some? { t := t.(trophyRare := p.trophyRare); }
          if p.trophyEarnedRate.Some? { t := t.(trophyEarnedRate := p.trophyEarnedRate); }
        }
        assert t == JoinOne(definitions[i].trophy, records);
        ConcatAssoc(merged, [t], NestedLoopJoin(definitions[i + 1..], records));
        merged := merged + [t];
      }
    }
  }

  // ---------------------------------------------------------------- the chain of requests

  /** A reply: an error with its status, something other than an object, or an object's fields. */
  datatype Reply =
    | Failed(status: int)
    | NotAnObject
    | Body(title: Option<Json>, groups: seq<Json>, trophies: seq<Value>)

  /** What a request is for; every stage is handed the game's title id by the one before. */
  datatype Job =
    | TitleJob(npTitleId: string)
    | GroupsJob(npTitleId: string, title: Json, isRetry: bool)
    | DefinitionsJob(npTitleId: string, title: Json, groups: seq<Json>, isRetry: bool)
    | ProgressJob(npTitleId: string, title: Json, groups: seq<Json>, definitions: seq<Value>, isRetry: bool)

  /** What the user interface receives: nothing, the title alone, or everything. */
  datatype Emission = Empty | TitleOnly(title: Json) | Full(title: Json, groups: seq<Json>, trophies: seq<Value>)

  /** The signal to the user interface, or a cache entry under a title id. */
  datatype Signal = Signal(npTitleId: string, data: Emission)

  datatype Chain = Asking(job: Job) | Awaiting(job: Job) | Refreshing(job: Job) | Done

  datatype Fetch = Fetch(chain: Chain, requests: nat, refreshes: nat, emitted: seq<Signal>, cached: seq<Signal>)

  datatype Event =
    | LimiterRefuses
    | LimiterGrants
    | Replied(reply: Reply, refreshToken: bool)
    | RefreshSucceeds
    | RefreshFails

  /** A fetch that found neither a young cache entry nor a reason to stop, before its first request. */
  function Asked(npTitleId: string): Fetch {
    Fetch(Asking(TitleJob(npTitleId)), 0, 0, [], [])
  }

  /** The same fetch once the limiter has granted its first request. */
  function Started(npTitleId: string): Fetch {
    Fetch(Awaiting(TitleJob(npTitleId)), 1, 0, [], [])
  }

  function AsObjects(trophies: seq<Trophy>): seq<Value> {
    if trophies == [] then [] else [Object(trophies[0])] + AsObjects(trophies[1..])
  }

  function Emit(f: Fetch, npTitleId: string, e: Emission): Fetch {
    f.(chain := Done, emitted := f.emitted + [Signal(npTitleId, e)])
  }

  function Finish(f: Fetch, npTitleId: string, e: Emission): Fetch {
    Emit(f.(cached := f.cached + [Signal(npTitleId, e)]), npTitleId, e)
  }

  function AsRetry(job: Job): Job {
    if job.TitleJob? then job else job.(isRetry := true)
  }

  /** An unauthorized first try: refresh the token, or give up when there is no refresh token. */
  function Unauthorized(f: Fetch, job: Job, refreshToken: bool): Fetch {
    if refreshToken then f.(chain := Refreshing(job), refreshes := f.refreshes + 1) else Emit(f, job.npTitleId, Empty)
  }

  function OnReply(f: Fetch, job: Job, reply: Reply, refreshToken: bool): Fetch {
    match job
    case TitleJob(np) =>
      if reply.Body? && reply.title.Some? then f.(chain := Asking(GroupsJob(np, reply.title.value, false)))
      else Emit(f, np, Empty)
    case GroupsJob(np, title, isRetry) =>
      if reply.Failed? && reply.status == 401 && !isRetry then Unauthorized(f, job, refreshToken)
      else if reply.Body? && reply.groups != [] then f.(chain := Asking(DefinitionsJob(np, title, reply.groups, false)))
      else Emit(f, np, TitleOnly(title))
    case DefinitionsJob(np, title, groups, isRetry) =>
      if reply.Failed? && reply.status == 401 && !isRetry then Unauthorized(f, job, refreshToken)
      else if reply.Body? then f.(chain := Asking(ProgressJob(np, title, groups, reply.trophies, false)))
      else Emit(f, np, TitleOnly(title))
    case ProgressJob(np, title, groups, definitions, isRetry) =>
      if reply.Failed? && reply.status == 401 && !isRetry then Unauthorized(f, job, refreshToken)
      else if reply.Body? then
        Finish(f, np, Full(title, groups, AsObjects(NestedLoopJoin(definitions, reply.trophies))))
      else Finish(f, np, Full(title, groups, definitions))
  }

  predicate Legal(f: Fetch, e: Event) {
    match e
    case LimiterRefuses => f.chain.Asking?
    case LimiterGrants => f.chain.Asking?
    case Replied(_, _) => f.chain.Awaiting?
    case RefreshSucceeds => f.chain.Refreshing?
    case RefreshFails => f.chain.Refreshing?
  }

  function Step(f: Fetch, e: Event): Fetch
    requires Legal(f, e)
  {
    match e
    case LimiterRefuses => f
    case LimiterGrants => f.(chain := Awaiting(f.chain.job), requests := f.requests + 1)
    case Replied(reply, refreshToken) => OnReply(f, f.chain.job, reply, refreshToken)
    case RefreshSucceeds => f.(chain := Asking(AsRetry(f.chain.job)))
    case RefreshFails => Emit(f, f.chain.job.npTitleId, Empty)
  }

  predicate LegalRun(f: Fetch, es: seq<Event>)
    decreases |es|
  {
    es == [] || (Legal(f, es[0]) && LegalRun(Step(f, es[0]), es[1..]))
  }

  function Run(f: Fetch, es: seq<Event>): Fetch
    requires LegalRun(f, es)
    decreases |es|
  {
    if es == [] then f else Run(Step(f, es[0]), es[1..])
  }

  // ---------------------------------------------------------------- bounds over every run

  /** How many of the retryable stages have not been reached yet, this one included. */
  function StagesLeft(job: Job): nat {
    match job
    case TitleJob(_) => 4
    case GroupsJob(_, _, _) => 3
    case DefinitionsJob(_, _, _, _) => 2
    case ProgressJob(_, _, _, _, _) => 1
  }

  /** The stages still to run, then whether the retry of this stage is unused. */
  function RetriesLeft(chain: Chain): nat {
    match chain
    case Done => 0
    case Refreshing(job) => StagesLeft(job) - 1
    case Asking(job) => if job.TitleJob? then 3 else StagesLeft(job) - (if job.isRetry then 1 else 0)
    case Awaiting(job) => if job.TitleJob? then 3 else StagesLeft(job) - (if job.isRetry then 1 else 0)
  }

  function RequestsLeft(chain: Chain): nat {
    match chain
    case Done => 0
    case Refreshing(job) => 2 * StagesLeft(job) - 1
    case Asking(job) => if job.TitleJob? then 7 else 2 * StagesLeft(job) - (if job.isRetry then 1 else 0)
    case Awaiting(job) => if job.TitleJob? then 6 else 2 * StagesLeft(job) - (if job.isRetry then 2 else 1)
  }

  /** A measure that every event except a refusal by the limiter decreases. */
  function Measure(chain: Chain): nat {
    match chain
    case Done => 0
    case Refreshing(job) => 5 * StagesLeft(job) - 2
    case Asking(job) => 5 * StagesLeft(job) - (if !job.TitleJob? && job.isRetry then 3 else 0)
    case Awaiting(job) => 5 * StagesLeft(job) - (if !job.TitleJob? && job.isRetry then 4 else 1)
  }

  ghost predicate Inv(f: Fetch) {
    && f.requests + RequestsLeft(f.chain) <= 7
    && f.refreshes + RetriesLeft(f.chain) <= 3
    && (f.chain.Refreshing? ==> !f.chain.job.TitleJob? && !f.chain.job.isRetry)
    && (if f.chain.Done? then |f.emitted| == 1 && f.cached == (if f.emitted[0].data.Full? then f.emitted else [])
        else f.emitted == [] && f.cached == [])
  }

  lemma StepKeepsInv(f: Fetch, e: Event)
    requires Inv(f) && Legal(f, e)
    ensures Inv(Step(f, e))
    ensures !e.LimiterRefuses? ==> Measure(Step(f, e).chain) < Measure(f.chain)
    ensures e.LimiterRefuses? ==> Step(f, e) == f
  {
  }

  function Productive(es: seq<Event>): nat {
    if es == [] then 0 else (if es[0].LimiterRefuses? then 0 else 1) + Productive(es[1..])
  }

  lemma {:induction false} RunKeepsInv(f: Fetch, es: seq<Event>)
    requires Inv(f) && LegalRun(f, es)
    ensures Inv(Run(f, es)) && Productive(es) + Measure(Run(f, es).chain) <= Measure(f.chain)
    decreases |es|
  {
    if es == [] {
    } else {
      StepKeepsInv(f, es[0]);
      RunKeepsInv(Step(f, es[0]), es[1..]);
    }
  }

  /**
   Whatever the replies are, a fetch whose first request went out makes at most seven requests and
   three token refreshes, emits at most once, writes the cache exactly when it emits the full data,
   takes at most 19 steps besides waiting for the limiter, and as long as it has not emitted some
   step is due.
   */
  lemma ChainBounds(npTitleId: string, es: seq<Event>)
    requires LegalRun(Started(npTitleId), es)
    ensures var f := Run(Started(npTitleId), es);
            && f.requests <= 7 && f.refreshes <= 3 && Productive(es) <= 19
            && |f.emitted| == (if f.chain.Done? then 1 else 0)
            && f.cached == (if f.chain.Done? && f.emitted[0].data.Full? then f.emitted else [])
            && (f.emitted == [] <==> exists e :: Legal(f, e))
  {
    RunKeepsInv(Started(npTitleId), es);
    var f := Run(Started(npTitleId), es);
    match f.chain
    case Done =>
    case Asking(_) => assert Legal(f, LimiterGrants);
    case Awaiting(_) => assert Legal(f, Replied(NotAnObject, false));
    case Refreshing(_) => assert Legal(f, RefreshFails);
  }

  /** A stage whose first try is unauthorized and whose retry goes out. */
  const RETRIED := [LimiterGrants, Replied(Failed(401), true), RefreshSucceeds, LimiterGrants]

  lemma RetryOnce(f: Fetch)
    requires f.chain.Asking? && !f.chain.job.TitleJob? && !f.chain.job.isRetry
    ensures Legal4(f, RETRIED)
    ensures Run4(f, RETRIED) ==
            f.(chain := Awaiting(AsRetry(f.chain.job)), requests := f.requests + 2, refreshes := f.refreshes + 1)
  {
  }

  lemma StageAndRetry(f: Fetch, e: Event, rest: seq<Event>)
    requires Legal(f, e)
    requires var g := Step(f, e); g.chain.Asking? && !g.chain.job.TitleJob? && !g.chain.job.isRetry
    ensures LegalRun(f, [e] + (RETRIED + rest)) <==> LegalRun(Run4(Step(f, e), RETRIED), rest)
    ensures LegalRun(Run4(Step(f, e), RETRIED), rest) ==>
              Run(f, [e] + (RETRIED + rest)) == Run(Run4(Step(f, e), RETRIED), rest)
  {
    RetryOnce(Step(f, e));
    Unfold(f, e, RETRIED + rest);
    Unfold4(Step(f, e), RETRIED, rest);
  }

  /** The bound of seven requests and three refreshes is met when every first try is unauthorized. */
  lemma SevenRequestsHappen(npTitleId: string, title: Json, group: Json)
    ensures exists es :: && LegalRun(Started(npTitleId), es)
                         && Run(Started(npTitleId), es).requests == 7 && Run(Started(npTitleId), es).refreshes == 3
  {
    var body := Replied(Body(Some(title), [group], []), true);
    var start := Started(npTitleId);
    RetryOnce(Step(start, body));
    var a := Run4(Step(start, body), RETRIED);
    RetryOnce(Step(a, body));
    var b := Run4(Step(a, body), RETRIED);
    RetryOnce(Step(b, body));
    var c := Run4(Step(b, body), RETRIED);
    assert c.requests == 7 && c.refreshes == 3;
    StageAndRetry(b, body, []);
    StageAndRetry(a, body, [body] + (RETRIED + []));
    StageAndRetry(start, body, [body] + (RETRIED + ([body] + (RETRIED + []))));
    assert LegalRun(c, []) && Run(c, []) == c;
  }

  ghost predicate Legal4(f: Fetch, es: seq<Event>) {
    && |es| == 4
    && Legal(f, es[0]) && Legal(Step(f, es[0]), es[1]) && Legal(Step(Step(f, es[0]), es[1]), es[2])
    && Legal(Step(Step(Step(f, es[0]), es[1]), es[2]), es[3])
  }

  ghost function Run4(f: Fetch, es: seq<Event>): Fetch
    requires Legal4(f, es)
  {
    Step(Step(Step(Step(f, es[0]), es[1]), es[2]), es[3])
  }

  lemma Unfold(f: Fetch, e: Event, rest: seq<Event>)
    ensures LegalRun(f, [e] + rest) <==> Legal(f, e) && LegalRun(Step(f, e), rest)
    ensures LegalRun(f, [e] + rest) ==> Run(f, [e] + rest) == Run(Step(f, e), rest)
  {
    assert ([e] + rest)[1..] == rest;
  }

  lemma Unfold4(f: Fetch, es: seq<Event>, rest: seq<Event>)
    requires Legal4(f, es)
    ensures LegalRun(f, es + rest) <==> LegalRun(Run4(f, es), rest)
    ensures LegalRun(f, es + rest) ==> Run(f, es + rest) == Run(Run4(f, es), rest)
  {
    assert es + rest == [es[0]] + ([es[1]] + ([es[2]] + ([es[3]] + rest)));
    Unfold(f, es[0], [es[1]] + ([es[2]] + ([es[3]] + rest)));
    Unfold(Step(f, es[0]), es[1], [es[2]] + ([es[3]] + rest));
    Unfold(Step(Step(f, es[0]), es[1]), es[2], [es[3]] + rest);
    Unfold(Step(Step(Step(f, es[0]), es[1]), es[2]), es[3], rest);
  }

  // ---------------------------------------------------------------- what is emitted

  /** The fetch works for this game, and what it emitted and cached is under its title id. */
  ghost predicate For(f: Fetch, npTitleId: string) {
    && (!f.chain.Done? ==> f.chain.job.npTitleId == npTitleId)
    && (forall e :: e in f.emitted ==> e.npTitleId == npTitleId)
    && (forall e :: e in f.cached ==> e.npTitleId == npTitleId)
  }

  /** The fetch works for this title, and what it emitted is nothing or about this title. */
  ghost predicate About(f: Fetch, title: Json) {
    && (!f.chain.Done? ==> !f.chain.job.TitleJob? && f.chain.job.title == title)
    && (forall e :: e in f.emitted ==> e.data.Empty? || e.data.title == title)
  }

  lemma StepStaysFor(f: Fetch, e: Event, npTitleId: string)
    requires For(f, npTitleId) && Legal(f, e)
    ensures For(Step(f, e), npTitleId)
  {
  }

  lemma StepStaysAbout(f: Fetch, e: Event, title: Json)
    requires About(f, title) && Legal(f, e)
    ensures About(Step(f, e), title)
  {
  }

  lemma {:induction false} RunStaysFor(f: Fetch, es: seq<Event>, npTitleId: string)
    requires For(f, npTitleId) && LegalRun(f, es)
    ensures For(Run(f, es), npTitleId)
    decreases |es|
  {
    if es == [] {
    } else {
      StepStaysFor(f, es[0], npTitleId);
      RunStaysFor(Step(f, es[0]), es[1..], npTitleId);
    }
  }

  lemma {:induction false} RunStaysAbout(f: Fetch, es: seq<Event>, title: Json)
    requires About(f, title) && LegalRun(f, es)
    ensures About(Run(f, es), title)
    decreases |es|
  {
    if es == [] {
    } else {
      StepStaysAbout(f, es[0], title);
      RunStaysAbout(Step(f, es[0]), es[1..], title);
    }
  }

  /**
   Through all stages and retries of a fetch, what is emitted and cached is under the title id asked
   for, and nothing but the title named by the first reply is reported.
   */
  lemma ReportsItsTitle(npTitleId: string, reply: Reply, refreshToken: bool, es: seq<Event>)
    requires LegalRun(Started(npTitleId), [Replied(reply, refreshToken)] + es)
    ensures var f := Run(Started(npTitleId), [Replied(reply, refreshToken)] + es);
            && (forall e :: e in f.emitted || e in f.cached ==> e.npTitleId == npTitleId)
            && (forall e :: e in f.emitted ==>
                  e.data.Empty? || Some(e.data.title) == (if reply.Body? then reply.title else None))
  {
    var start := Started(npTitleId);
    var first := Replied(reply, refreshToken);
    RunStaysFor(start, [first] + es, npTitleId);
    Unfold(start, first, es);
    if reply.Body? && reply.title.Some? {
      RunStaysAbout(Step(start, first), es, reply.title.value);
    } else {
      assert Step(start, first).chain.Done?;
      assert es == [];
    }
  }

  // ---------------------------------------------------------------- the join, field by field

  /** `p` is the last record with this id. */
  ghost predicate IsLastRecord(records: seq<Value>, id: int, p: Trophy) {
    exists k :: 0 <= k < |records| && records[k] == Object(p) && p.id == id
                && forall j :: k < j < |records| ==> !HasId(records[j], id)
  }

  predicate HasId(v: Value, id: int) {
    v.Object? && v.trophy.id == id
  }

  ghost predicate NoRecord(records: seq<Value>, id: int) {
    forall k :: 0 <= k < |records| ==> !HasId(records[k], id)
  }

  lemma {:induction false} LastRecordMeaning(records: seq<Value>, id: int)
    ensures match LastRecord(records, id)
            case Some(p) => IsLastRecord(records, id, p)
            case None => NoRecord(records, id)
  {
    if records == [] {
    } else {
      var rest := records[1..];
      assert forall k :: 0 <= k < |rest| ==> rest[k] == records[k + 1];
      LastRecordMeaning(rest, id);
      if LastRecord(rest, id).Some? {
        var p := LastRecord(rest, id).value;
        var k :| 0 <= k < |rest| && rest[k] == Object(p) && p.id == id
                 && forall j :: k < j < |rest| ==> !HasId(rest[j], id);
        assert records[k + 1] == Object(p);
        forall j | k + 1 < j < |records| ensures !HasId(records[j], id) {
          assert rest[j - 1] == records[j];
        }
      } else if HasId(records[0], id) {
        forall j | 0 < j < |records| ensures !HasId(records[j], id) {
          assert rest[j - 1] == records[j];
        }
        assert records[0] == Object(records[0].trophy);
      } else {
        forall k | 0 <= k < |records| ensures !HasId(records[k], id) {
          assert k > 0 ==> rest[k - 1] == records[k];
        }
      }
    }
  }

  /**
   `out` is the definition `d` with the user's progress: the id and everything else are the definition's,
   `earned` is the record's, and each other progress field is the record's where it has one.
   */
  predicate CarriesProgress(out: Trophy, d: Trophy, p: Trophy) {
    && out.id == d.id && out.rest == d.rest && out.earned == p.earned
    && out.earnedDateTime == (if p.earnedDateTime.Some? then p.earnedDateTime else d.earnedDateTime)
    && out.progress == (if p.progress.Some? then p.progress else d.progress)
    && out.progressRate == (if p.progressRate.Some? then p.progressRate else d.progressRate)
    && out.progressedDateTime == (if p.progressedDateTime.Some? then p.progressedDateTime else d.progressedDateTime)
    && out.trophyRare == (if p.trophyRare.Some? then p.trophyRare else d.trophyRare)
    && out.trophyEarnedRate == (if p.trophyEarnedRate.Some? then p.trophyEarnedRate else d.trophyEarnedRate)
  }

  /** The trophies are the definitions, in order, each with the progress of its last record if it has one. */
  ghost predicate IsJoin(trophies: seq<Value>, definitions: seq<Value>, records: seq<Value>) {
    var ds := Trophies(definitions);
    && |trophies| == |ds|
    && forall i :: 0 <= i < |ds| ==>
         && trophies[i].Object?
         && (NoRecord(records, ds[i].id) ==> trophies[i].trophy == ds[i])
         && (forall p :: IsLastRecord(records, ds[i].id, p) ==> CarriesProgress(trophies[i].trophy, ds[i], p))
  }

  lemma OneLastRecord(records: seq<Value>, id: int, p: Trophy)
    requires IsLastRecord(records, id, p)
    ensures LastRecord(records, id) == Some(p)
  {
    LastRecordMeaning(records, id);
    var k :| 0 <= k < |records| && records[k] == Object(p) && p.id == id
             && forall j :: k < j < |records| ==> !HasId(records[j], id);
    assert HasId(records[k], id);
    if LastRecord(records, id).Some? {
      var q := LastRecord(records, id).value;
      var l :| 0 <= l < |records| && records[l] == Object(q) && q.id == id
               && forall j :: l < j < |records| ==> !HasId(records[j], id);
      assert HasId(records[l], id);
    }
  }

  lemma {:induction false} AsObjectsAt(trophies: seq<Trophy>)
    ensures |AsObjects(trophies)| == |trophies|
    ensures forall i :: 0 <= i < |trophies| ==> AsObjects(trophies)[i] == Object(trophies[i])
  {
    if trophies == [] {
    } else {
      AsObjectsAt(trophies[1..]);
    }
  }

  lemma JoinIsJoin(definitions: seq<Value>, records: seq<Value>)
    ensures IsJoin(AsObjects(NestedLoopJoin(definitions, records)), definitions, records)
  {
    var ds := Trophies(definitions);
    var out := NestedLoopJoin(definitions, records);
    JoinKeepsDefinitions(definitions, records);
    AsObjectsAt(out);
    forall i | 0 <= i < |ds|
      ensures NoRecord(records, ds[i].id) ==> out[i] == ds[i]
      ensures forall p :: IsLastRecord(records, ds[i].id, p) ==> CarriesProgress(out[i], ds[i], p)
    {
      LastRecordMeaning(records, ds[i].id);
      if LastRecord(records, ds[i].id).Some? {
        var p := LastRecord(records, ds[i].id).value;
        var k :| 0 <= k < |records| && records[k] == Object(p) && p.id == ds[i].id;
        assert HasId(records[k], ds[i].id);
      }
      forall p | IsLastRecord(records, ds[i].id, p) ensures CarriesProgress(out[i], ds[i], p) {
        OneLastRecord(records, ds[i].id, p);
      }
    }
  }

  // ---------------------------------------------------------------- what a whole run reports

  /** The replies of a run that are JSON objects, in order. */
  function Bodies(es: seq<Event>): (r: seq<Reply>)
    ensures forall i :: 0 <= i < |r| ==> r[i].Body?
  {
    if es == [] then []
    else
      Bodies(es[..|es| - 1])
      + (match es[|es| - 1]
         case Replied(Body(title, groups, trophies), _) => [Body(title, groups, trophies)]
         case _ => [])
  }

  /** Since the last such reply the token has been refreshed, so the stage is being retried. */
  predicate Retrying(es: seq<Event>) {
    if es == [] then false
    else
      match es[|es| - 1]
      case RefreshSucceeds => true
      case Replied(Body(_, _, _), _) => false
      case _ => Retrying(es[..|es| - 1])
  }

  /** The run ended because the token could not be refreshed. */
  predicate TokenLost(es: seq<Event>) {
    if es == [] then false
    else
      match es[|es| - 1]
      case RefreshFails => true
      case Replied(Failed(401), false) => Bodies(es) != [] && !Retrying(es)
      case _ => false
  }

  /**
   The answer that the replies of a finished run call for. The first object names the title, the second
   lists the groups, the third defines the trophies and the fourth has the progress of the user.
   */
  ghost predicate IsAnswer(data: Emission, es: seq<Event>) {
    var got := Bodies(es);
    if got == [] || got[0].title.None? || TokenLost(es) then data == Empty
    else if |got| <= 2 then data == TitleOnly(got[0].title.value)
    else
      && data.Full? && data.title == got[0].title.value && data.groups == got[1].groups
      && (if |got| == 3 then data.trophies == got[2].trophies
          else IsJoin(data.trophies, got[2].trophies, got[3].trophies))
  }

  /** The request that is due after the replies so far. */
  function DueJob(npTitleId: string, got: seq<Reply>, retrying: bool): Job
    requires forall i :: 0 <= i < |got| ==> got[i].Body?
    requires |got| > 0 ==> got[0].title.Some?
  {
    match |got|
    case 0 => TitleJob(npTitleId)
    case 1 => GroupsJob(npTitleId, got[0].title.value, retrying)
    case 2 => DefinitionsJob(npTitleId, got[0].title.value, got[1].groups, retrying)
    case _ => ProgressJob(npTitleId, got[0].title.value, got[1].groups, got[2].trophies, retrying)
  }

  ghost predicate Tracks(f: Fetch, npTitleId: string, es: seq<Event>) {
    var got := Bodies(es);
    && (if f.chain.Done? then
          && |f.emitted| == 1 && f.emitted[0].npTitleId == npTitleId && IsAnswer(f.emitted[0].data, es)
          && f.cached == (if f.emitted[0].data.Full? then f.emitted else [])
        else
          && f.emitted == [] && f.cached == [] && |got| <= 3 && (|got| > 0 ==> got[0].title.Some?)
          && f.chain.job == DueJob(npTitleId, got, Retrying(es)) && (got == [] ==> !Retrying(es))
          && (f.chain.Refreshing? ==> got != [] && !Retrying(es)))
  }

  lemma ReplyTracks(f: Fetch, npTitleId: string, es: seq<Event>, e: Event)
    requires Tracks(f, npTitleId, es) && Legal(f, e) && e.Replied?
    ensures Tracks(Step(f, e), npTitleId, es + [e])
  {
    var all := es + [e];
    assert all[..|all| - 1] == es && all[|all| - 1] == e;
    match f.chain.job
    case ProgressJob(_, _, _, definitions, _) =>
      if e.reply.Body? {
        JoinIsJoin(definitions, e.reply.trophies);
      }
    case _ =>
  }

  lemma OtherTracks(f: Fetch, npTitleId: string, es: seq<Event>, e: Event)
    requires Tracks(f, npTitleId, es) && Legal(f, e) && !e.Replied?
    ensures Tracks(Step(f, e), npTitleId, es + [e])
  {
    var all := es + [e];
    assert all[..|all| - 1] == es && all[|all| - 1] == e;
  }

  lemma {:induction false} RunTracks(f: Fetch, npTitleId: string, before: seq<Event>, es: seq<Event>)
    requires Tracks(f, npTitleId, before) && LegalRun(f, es)
    ensures Tracks(Run(f, es), npTitleId, before + es)
    decreases |es|
  {
    if es == [] {
      assert before + es == before;
    } else {
      if es[0].Replied? {
        ReplyTracks(f, npTitleId, before, es[0]);
      } else {
        OtherTracks(f, npTitleId, before, es[0]);
      }
      RunTracks(Step(f, es[0]), npTitleId, before + [es[0]], es[1..]);
      MoveFirst(before, es);
    }
  }

  /**
   What the user interface gets, over every run: once the chain has ended, one answer under the title id
   asked for, and it is the one that the replies call for; it is cached exactly when it has the trophies.
   */
  lemma AnswersWhatWasReplied(npTitleId: string, es: seq<Event>)
    requires LegalRun(Started(npTitleId), es) && Run(Started(npTitleId), es).chain.Done?
    ensures var f := Run(Started(npTitleId), es);
            && |f.emitted| == 1 && f.emitted[0].npTitleId == npTitleId && IsAnswer(f.emitted[0].data, es)
            && f.cached == (if f.emitted[0].data.Full? then f.emitted else [])
  {
    RunTracks(Started(npTitleId), npTitleId, [], es);
    assert [] + es == es;
  }

  // ---------------------------------------------------------------- the object

  const CACHE_DURATION_MS := 24 * 60 * 60 * 1000

  datatype Cached = Cached(data: Emission, timestamp: int)

  datatype Outcome = Ignored | FromCache | NoToken | RetryLater | Requested

  /** One title's fetch, driven by the replies that arrive. */
  class TrophyFetch {
    const npTitleId: string
    var cache: map<string, Cached>
    var chain: Chain
    var requests: nat
    var refreshes: nat
    var emitted: seq<Signal>
    ghost var cached: seq<Signal>

    constructor (npTitleId: string, cache: map<string, Cached>)
      ensures this.npTitleId == npTitleId && this.cache == cache
      ensures Abs() == Asked(npTitleId)
    {
      this.npTitleId, this.cache := npTitleId, cache;
      chain, requests, refreshes, emitted, cached := Asking(TitleJob(npTitleId)), 0, 0, [], [];
    }

    ghost function Abs(): Fetch
      reads this
    {
      Fetch(chain, requests, refreshes, emitted, cached)
    }

    /** The entry point: a young cache entry answers at once, otherwise the first request goes out. */
    method FetchTrophyData(forceRefresh: bool, now: int, psnToken: string, limiterGrants: bool)
      returns (outcome: Outcome)
      requires Abs() == Asked(npTitleId)
      modifies this
      ensures cache == old(cache)
      ensures outcome.FromCache? <==>
                && npTitleId != "" && !forceRefresh && npTitleId in cache
                && now - cache[npTitleId].timestamp < CACHE_DURATION_MS
      ensures outcome.FromCache? ==> emitted == [Signal(npTitleId, cache[npTitleId].data)] && requests == 0
      ensures outcome.Requested? <==>
                npTitleId != "" && !old(CacheAnswers(forceRefresh, now)) && psnToken != "" && limiterGrants
      ensures outcome.Requested? ==> Abs() == Started(npTitleId)
      ensures outcome.Ignored? || outcome.NoToken? || outcome.RetryLater? ==> Abs() == old(Abs())
      ensures outcome.RetryLater? ==> psnToken != "" && !limiterGrants
    {
      if npTitleId == "" {
        return Ignored;
      }
      if !forceRefresh && npTitleId in cache && now - cache[npTitleId].timestamp < CACHE_DURATION_MS {
        emitted := emitted + [Signal(npTitleId, cache[npTitleId].data)];
        chain := Done;
        return FromCache;
      }
      if psnToken == "" {
        return NoToken;
      }
      if !limiterGrants {
        return RetryLater;
      }
      requests := requests + 1;
      chain := Awaiting(TitleJob(npTitleId));
      return Requested;
    }

    ghost predicate CacheAnswers(forceRefresh: bool, now: int)
      reads this
    {
      npTitleId != "" && !forceRefresh && npTitleId in cache && now - cache[npTitleId].timestamp < CACHE_DURATION_MS
    }

    method OnLimiter(grants: bool)
      requires chain.Asking?
      modifies this`chain, this`requests
      ensures Abs() == Step(old(Abs()), if grants then LimiterGrants else LimiterRefuses)
    {
      if grants {
        requests := requests + 1;
        chain := Awaiting(chain.job);
      }
    }

    method Receive(id: string, data: Emission)
      modifies this`chain, this`emitted
      ensures Abs() == Emit(old(Abs()), id, data)
    {
      emitted := emitted + [Signal(id, data)];
      chain := Done;
    }

    method StoreAndReceive(id: string, data: Emission, now: int)
      modifies this
      ensures Abs() == Finish(old(Abs()), id, data)
      ensures cache == old(cache)[id := Cached(data, now)]
    {
      cache := cache[id := Cached(data, now)];
      cached := cached + [Signal(id, data)];
      Receive(id, data);
    }

    method RefreshPsnTokenAndRetry(refreshToken: bool)
      requires chain.Awaiting?
      modifies this
      ensures Abs() == Unauthorized(old(Abs()), old(chain.job), refreshToken) && cache == old(cache)
    {
      if !refreshToken {
        Receive(chain.job.npTitleId, Empty);
        return;
      }
      refreshes := refreshes + 1;
      chain := Refreshing(chain.job);
    }

    method OnRefreshed(succeeded: bool)
      requires chain.Refreshing?
      modifies this
      ensures Abs() == Step(old(Abs()), if succeeded then RefreshSucceeds else RefreshFails) && cache == old(cache)
    {
      if succeeded {
        chain := Asking(AsRetry(chain.job));
      } else {
        Receive(chain.job.npTitleId, Empty);
      }
    }

    /** The handler of a finished request, at whichever stage the fetch is. */
    method OnReplyFinished(reply: Reply, refreshToken: bool, now: int)
      requires chain.Awaiting?
      modifies this
      ensures Abs() == Step(old(Abs()), Replied(reply, refreshToken))
      ensures cached == old(cached) ==> cache == old(cache)
      ensures cached != old(cached) ==>
                var entry := cached[|cached| - 1];
                cache == old(cache)[entry.npTitleId := Cached(entry.data, now)]
    {
      var job := chain.job;
      if job.TitleJob? {
        if reply.Body? && reply.title.Some? {
          chain := Asking(GroupsJob(job.npTitleId, reply.title.value, false));
        } else {
          Receive(job.npTitleId, Empty);
        }
      } else if reply.Failed? && reply.status == 401 && !job.isRetry {
        RefreshPsnTokenAndRetry(refreshToken);
      } else if job.GroupsJob? {
        if reply.Body? && reply.groups != [] {
          chain := Asking(DefinitionsJob(job.npTitleId, job.title, reply.groups, false));
        } else {
          Receive(job.npTitleId, TitleOnly(job.title));
        }
      } else if job.DefinitionsJob? {
        if reply.Body? {
          chain := Asking(ProgressJob(job.npTitleId, job.title, job.groups, reply.trophies, false));
        } else {
          Receive(job.npTitleId, TitleOnly(job.title));
        }
      } else {
        var merged := job.definitions;
        if reply.Body? {
          var joined := JoinProgress(job.definitions, reply.trophies);
          merged := AsObjects(joined);
        }
        StoreAndReceive(job.npTitleId, Full(job.title, job.groups, merged), now);
      }
    }
  }
}
