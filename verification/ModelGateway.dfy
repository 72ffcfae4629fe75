/**
 The multi-provider gateway: providers are tried in order, a rate-limited one cools down, every
 attempt is reported when it starts and when it ends. What the network, the clock and the caller's
 abort signal do is given for each provider visited; the gateway's own decisions are modelled.
 */
module ModelGateway {
  import opened Text
  import opened Sorting
  import ProviderStream

  const COOLDOWN_MS := 60000
  const CHAIN_IDS: set<string> := {"gemini", "groq", "openai", "claude"}

  datatype Status = Started | Completed | Failed | Cancelled

  /** What the attempt observer is told. */
  datatype Attempt = Attempt(id: nat, provider: string, status: Status, usage: Option<ProviderStream.TokenUsage>)

  /** Cooldown per provider, providers holding a key, and what the observer has been told. */
  datatype State = State(until: map<string, int>, keys: set<string>, log: seq<Attempt>)

  datatype Reason = CoolingDown | MockLimit | MockUnavailable | RateLimit | CallFailed | NoKey

  datatype Failure = Failure(provider: string, why: Reason)

  // ----- what happens outside -----

  /** What a provider answers, with its token counts. */
  datatype Reply = Reply(content: string, promptTokens: Option<nat>, completionTokens: Option<nat>)

  datatype Call = Replies(reply: Reply) | Aborts | Limits(retryAt: Option<int>) | Breaks

  /** One provider's turn in `complete`: whether the signal is aborted before it, the failure code
      simulated for it (0 for none), how a call would end, and the clock when it fails. */
  datatype Visit = Visit(aborted: bool, mock: int, call: Call, at: int)

  datatype Ending =
    | Ends(usage: Option<ProviderStream.TokenUsage>)
    | StreamAborts
    | ConsumerStops
    | StreamLimits(retryAt: Option<int>)
    | StreamBreaks

  /** One provider's turn in `stream`: the clock read for it, the chunks that come, the usage
      observed by then, and how it ends.
      A consumer stops at a chunk; where none came, that ending counts as an empty response. */
  datatype Turn = Turn(
    aborted: bool,
    clock: int,
    chunks: seq<string>,
    observed: Option<ProviderStream.TokenUsage>,
    ending: Ending,
    at: int)

  /** A configured fallback order has at least one entry. */
  type Chain = ids: seq<string> | |ids| > 0 witness [""]

  /** The environment: model and key variables are given by the ids they are set for. */
  datatype Env = Env(
    selected: Option<string>,
    chain: Option<Chain>,
    chat: Option<string>,
    models: set<string>,
    keys: set<string>,
    requireProvider: bool,
    production: bool)

  /** Whether the deterministic local answer is ruled out. */
  predicate ProviderRequired(env: Env) {
    env.requireProvider || env.selected.Some? || env.chain.Some? || env.production
  }

  // ----- cooling down -----

  /** The end of a cooldown imposed at `at`, respecting the provider's own retry time. */
  function CooldownEnd(at: int, retryAt: Option<int>): int {
    var least := at + COOLDOWN_MS;
    if retryAt.Some? && retryAt.value > least then retryAt.value else least
  }

  function Cool(st: State, id: string, until: int): State {
    st.(until := st.until[id := until])
  }

  function Report(st: State, a: Attempt): State {
    st.(log := st.log + [a])
  }

  /** Attempts are numbered by their position in the log. */
  function NextId(st: State): nat {
    |st.log|
  }

  /** One attempt: the report that it starts, and the one how it ended and what it used. */
  function Tried(st: State, provider: string, status: Status, usage: Option<ProviderStream.TokenUsage>): State {
    var id := NextId(st);
    Report(Report(st, Attempt(id, provider, Started, None)), Attempt(id, provider, status, usage))
  }

  function UsageOf(reply: Reply): Option<ProviderStream.TokenUsage> {
    Some(ProviderStream.TokenUsage(reply.promptTokens, reply.completionTokens, None, None))
  }

  // ----- complete -----

  datatype Completion =
    | Answered(provider: string, reply: Reply, failed: seq<Failure>)
    | LocalAnswer(failed: seq<Failure>)
    | Aborted
    | QuotaLimited(retryAt: int)
    | Unavailable(failed: seq<Failure>)
    | Misconfigured

  /** A provider's turn either moves on to the next provider or ends the call. */
  datatype VisitResult = Next(st: State, why: Reason) | Over(st: State, completion: Completion)

  function VisitOne(st: State, env: Env, id: string, v: Visit, now: int, failed: seq<Failure>): VisitResult {
    if v.aborted then Over(st, Aborted)
    else
      var keyed := if id in env.keys then st.(keys := st.keys + {id}) else st;
      if Cooling(st, id, now) then Next(keyed, CoolingDown)
      else if v.mock == 429 then Next(Cool(keyed, id, now + COOLDOWN_MS), MockLimit)
      else if v.mock >= 500 then Next(keyed, MockUnavailable)
      else if id !in keyed.keys && id != "ollama" then Next(keyed, NoKey)
      else
        match v.call
        case Replies(reply) => Over(Tried(keyed, id, Completed, UsageOf(reply)), Answered(id, reply, failed))
        case Aborts => Over(Tried(keyed, id, Cancelled, None), Aborted)
        case Limits(retryAt) => Next(Tried(Cool(keyed, id, CooldownEnd(v.at, retryAt)), id, Failed, None), RateLimit)
        case Breaks => Next(Tried(keyed, id, Failed, None), CallFailed)
  }

  /** `complete` from the `k`-th selected provider on; no completion when all of them have failed. */
  function Visits(st: State, env: Env, ids: seq<string>, visits: seq<Visit>, now: int, k: nat, failed: seq<Failure>)
    : (State, Option<Completion>, seq<Failure>)
    requires |visits| == |ids| && k <= |ids|
    decreases |ids| - k
  {
    if k == |ids| then (st, None, failed)
    else
      match VisitOne(st, env, ids[k], visits[k], now, failed)
      case Over(after, completion) => (after, Some(completion), failed)
      case Next(after, why) => Visits(after, env, ids, visits, now, k + 1, failed + [Failure(ids[k], why)])
  }

  /** Every selected provider is cooling down, as of the clock read for it. */
  predicate AllCooling(st: State, ids: seq<string>, clocks: seq<int>)
    requires |clocks| == |ids|
  {
    forall k :: 0 <= k < |ids| ==> Cooling(st, ids[k], clocks[k])
  }

  /** The earliest end of a cooldown among the first `n` providers. */
  function EarliestTo(st: State, ids: seq<string>, n: nat): int
    requires 0 < n <= |ids| && forall k :: 0 <= k < |ids| ==> ids[k] in st.until
  {
    var last := st.until[ids[n - 1]];
    if n == 1 then last
    else
      var before := EarliestTo(st, ids, n - 1);
      if last < before then last else before
  }

  function QuotaError(st: State, ids: seq<string>, clocks: seq<int>): Option<int>
    requires |clocks| == |ids|
  {
    if |ids| > 0 && AllCooling(st, ids, clocks) then Some(EarliestTo(st, ids, |ids|)) else None
  }

  function Complete(st: State, env: Env, ids: seq<string>, visits: seq<Visit>, now: int, clocks: seq<int>)
    : (State, Completion)
    requires |visits| == |clocks| == |ids|
  {
    var (after, done, failed) := Visits(st, env, ids, visits, now, 0, []);
    if done.Some? then (after, done.value)
    else
      var quota := QuotaError(after, ids, clocks);
      if quota.Some? then (after, QuotaLimited(quota.value))
      else if ProviderRequired(env) then (after, Unavailable(failed))
      else (after, LocalAnswer(failed))
  }

  // ----- stream -----

  datatype Streaming =
    | StreamDone(provider: string, usage: Option<ProviderStream.TokenUsage>)
    | Interrupted
    | Stopped
    | StreamCancelled
    | StreamQuota(retryAt: int)
    | NoProvider

  /** A chunk handed to the consumer, and whose it is. */
  datatype Chunk = Chunk(provider: string, text: string)

  function Label(provider: string, chunks: seq<string>): seq<Chunk> {
    seq(|chunks|, i requires 0 <= i < |chunks| => Chunk(provider, chunks[i]))
  }

  predicate Cooling(st: State, id: string, clock: int) {
    id in st.until && st.until[id] > clock
  }

  predicate NotChatProvider(env: Env, id: string) {
    env.chain.None? && env.chat.Some? && env.chat.value != id
  }

  datatype TurnResult = Pass(st: State) | Last(st: State, chunks: seq<Chunk>, result: Streaming)

  function TurnOne(st: State, env: Env, id: string, t: Turn): TurnResult {
    if NotChatProvider(env, id) then Pass(st)
    else if t.aborted then Last(st, [], StreamCancelled)
    else if Cooling(st, id, t.clock) then Pass(st)
    else if id !in st.keys && id !in env.keys && id != "ollama" then Pass(st)
    else
      var given, emitted := Label(id, t.chunks), t.chunks != [];
      match t.ending
      case Ends(usage) =>
        if emitted then Last(Tried(st, id, Completed, t.observed), given, StreamDone(id, usage))
        else Pass(Tried(st, id, Failed, t.observed))
      case StreamAborts => Last(Tried(st, id, Cancelled, t.observed), given, Interrupted)
      case ConsumerStops =>
        if emitted then Last(Tried(st, id, Cancelled, t.observed), given, Stopped)
        else Pass(Tried(st, id, Failed, t.observed))
      case StreamLimits(retryAt) =>
        if emitted then Last(Tried(st, id, Failed, t.observed), given, Interrupted)
        else Pass(Tried(Cool(st, id, CooldownEnd(t.at, retryAt)), id, Failed, t.observed))
      case StreamBreaks =>
        if emitted then Last(Tried(st, id, Failed, t.observed), given, Interrupted)
        else Pass(Tried(st, id, Failed, t.observed))
  }

  /** `stream` from the `k`-th selected provider on. */
  function Turns(st: State, env: Env, ids: seq<string>, turns: seq<Turn>, k: nat)
    : (State, seq<Chunk>, Option<Streaming>)
    requires |turns| == |ids| && k <= |ids|
    decreases |ids| - k
  {
    if k == |ids| then (st, [], None)
    else
      match TurnOne(st, env, ids[k], turns[k])
      case Last(after, chunks, result) => (after, chunks, Some(result))
      case Pass(after) => Turns(after, env, ids, turns, k + 1)
  }

  function Stream(st: State, env: Env, ids: seq<string>, turns: seq<Turn>, clocks: seq<int>)
    : (State, seq<Chunk>, Streaming)
    requires |turns| == |clocks| == |ids|
  {
    var (after, chunks, done) := Turns(st, env, ids, turns, 0);
    if done.Some? then (after, chunks, done.value)
    else
      var quota := QuotaError(after, ids, clocks);
      if quota.Some? then (after, chunks, StreamQuota(quota.value)) else (after, chunks, NoProvider)
  }

  // ----- one turn -----

  /** An attempt started and the report how it ended. */
  predicate StartAndEnd(a: Attempt, b: Attempt) {
    a.status == Started && b.status != Started && a.id == b.id && a.provider == b.provider
  }

  /** The log consists of adjacent pairs of start and end. */
  ghost predicate AllPaired(log: seq<Attempt>) {
    log == [] ||
    (|log| >= 2 && StartAndEnd(log[|log| - 2], log[|log| - 1]) && AllPaired(log[..|log| - 2]))
  }

  /** Such pairs, and only the last attempt, if any, completed. */
  ghost predicate Paired(log: seq<Attempt>) {
    AllPaired(log) && forall i :: 0 <= i < |log| - 1 ==> log[i].status != Completed
  }

  lemma {:induction false} AllPairedConcat(a: seq<Attempt>, b: seq<Attempt>)
    requires AllPaired(a) && AllPaired(b)
    ensures AllPaired(a + b)
  {
    if b == [] {
      assert a + b == a;
    } else {
      var short := b[..|b| - 2];
      AllPairedConcat(a, short);
      assert (a + b)[..|a + b| - 2] == a + short;
    }
  }

  /** In such a log an attempt that starts is followed by its own end. */
  lemma {:induction false} StartIsFollowedByEnd(log: seq<Attempt>, i: nat)
    requires AllPaired(log) && i < |log| && log[i].status == Started
    ensures i + 1 < |log| && StartAndEnd(log[i], log[i + 1])
  {
    if i < |log| - 2 {
      StartIsFollowedByEnd(log[..|log| - 2], i);
    }
  }

  /** A pair for provider `id`. */
  ghost predicate IsPair(pair: seq<Attempt>, id: string, completed: bool) {
    && |pair| == 2 && Paired(pair) && pair[0].provider == pair[1].provider == id
    && (pair[1].status == Completed <==> completed)
  }

  /** What one turn of provider `id` may do: report one attempt, if `id` was not cooling down, and
      put off the end of its own cooldown. */
  ghost predicate OneTurn(st: State, after: State, id: string, clock: int, completed: bool) {
    && st.log <= after.log
    && (var added := after.log[|st.log|..];
        (added == [] && !completed) || (!Cooling(st, id, clock) && IsPair(added, id, completed)))
    && after.until.Keys <= st.until.Keys + {id}
    && (forall other :: other in st.until && other != id ==>
                          other in after.until && after.until[other] == st.until[other])
    && (id in st.until ==> id in after.until && after.until[id] >= st.until[id])
  }

  lemma TriedPair(base: State, id: string, status: Status, usage: Option<ProviderStream.TokenUsage>)
    requires status != Started
    ensures base.log <= Tried(base, id, status, usage).log
    ensures IsPair(Tried(base, id, status, usage).log[|base.log|..], id, status == Completed)
    ensures Tried(base, id, status, usage).until == base.until
  {
    var pair := [Attempt(NextId(base), id, Started, None), Attempt(NextId(base), id, status, usage)];
    assert Tried(base, id, status, usage).log == base.log + pair;
    assert (base.log + pair)[|base.log|..] == pair;
  }

  lemma VisitIsOneTurn(st: State, env: Env, id: string, v: Visit, now: int, failed: seq<Failure>)
    requires now <= v.at
    ensures var r := VisitOne(st, env, id, v, now, failed);
            && OneTurn(st, r.st, id, now, r.Over? && r.completion.Answered?)
            && (r.Over? && r.completion.Answered? ==>
                  v.call.Replies? && r.completion == Answered(id, v.call.reply, failed))
            && (r.Next? && r.why == CoolingDown <==> !v.aborted && Cooling(st, id, now))
  {
    hide Paired, IsPair, Tried;
    var keyed := if id in env.keys then st.(keys := st.keys + {id}) else st;
    var limited := Cool(keyed, id, CooldownEnd(v.at, if v.call.Limits? then v.call.retryAt else None));
    TriedPair(keyed, id, Completed, if v.call.Replies? then UsageOf(v.call.reply) else None);
    TriedPair(keyed, id, Cancelled, None);
    TriedPair(keyed, id, Failed, None);
    TriedPair(limited, id, Failed, None);
    assert st.log[|st.log|..] == [];
  }

  lemma TurnIsOneTurn(st: State, env: Env, id: string, t: Turn)
    requires t.clock <= t.at
    ensures var r := TurnOne(st, env, id, t);
            && OneTurn(st, r.st, id, t.clock, r.Last? && r.result.StreamDone?)
            && (r.Last? ==> forall i :: 0 <= i < |r.chunks| ==> r.chunks[i].provider == id)
            && (r.Last? && r.result.StreamDone? ==>
                  t.ending.Ends? && r.result == StreamDone(id, t.ending.usage) && r.chunks != [])
            && (r.Last? && r.chunks != [] ==> r.chunks == Label(id, t.chunks) && r.st.log != st.log)
  {
    hide Paired, Tried;
    var limited := Cool(st, id, CooldownEnd(t.at, if t.ending.StreamLimits? then t.ending.retryAt else None));
    TriedPair(st, id, Completed, t.observed);
    TriedPair(st, id, Cancelled, t.observed);
    TriedPair(st, id, Failed, t.observed);
    TriedPair(limited, id, Failed, t.observed);
    assert st.log[|st.log|..] == [];
  }

  // ----- a whole call -----

  ghost predicate DistinctIds(ids: seq<string>) {
    forall i, j :: 0 <= i < j < |ids| ==> ids[i] != ids[j]
  }

  /** What the turns of providers `k` onwards do together, `clocks` being read for each:
      they report paired attempts, only of providers that are not cooling down, and no cooldown ends
      earlier for it. */
  ghost predicate ManyTurns(st: State, after: State, ids: seq<string>, clocks: seq<int>, k: nat, completed: bool)
    requires |clocks| == |ids|
  {
    && st.log <= after.log
    && Paired(after.log[|st.log|..])
    && (completed <==> |after.log| > |st.log| && after.log[|after.log| - 1].status == Completed)
    && (forall i :: |st.log| <= i < |after.log| ==>
                      exists j :: k <= j < |ids| && ids[j] == after.log[i].provider && !Cooling(st, ids[j], clocks[j]))
    && (forall id :: id in st.until ==> id in after.until && after.until[id] >= st.until[id])
  }

  lemma NoTurns(st: State, ids: seq<string>, clocks: seq<int>, k: nat)
    requires |clocks| == |ids|
    ensures ManyTurns(st, st, ids, clocks, k, false)
  {
  }

  lemma LastTurn(st: State, after: State, ids: seq<string>, clocks: seq<int>, k: nat, completed: bool)
    requires |clocks| == |ids| && k < |ids| && OneTurn(st, after, ids[k], clocks[k], completed)
    ensures ManyTurns(st, after, ids, clocks, k, completed)
  {
    var added := after.log[|st.log|..];
    forall i | |st.log| <= i < |after.log|
      ensures exists j :: k <= j < |ids| && ids[j] == after.log[i].provider && !Cooling(st, ids[j], clocks[j])
    {
      assert after.log[i] == added[i - |st.log|];
      assert ids[k] == after.log[i].provider;
    }
  }

  /** Two stretches of the log that are each paired, the first without a completion, are paired. */
  lemma PairedConcat(pair: seq<Attempt>, rest: seq<Attempt>, id: string)
    requires IsPair(pair, id, false) && Paired(rest)
    ensures Paired(pair + rest)
  {
    AllPairedConcat(pair, rest);
    assert forall i :: 0 <= i < |pair + rest| ==> (pair + rest)[i] == if i < 2 then pair[i] else rest[i - 2];
  }

  lemma FirstTurnLog(st: State, mid: State, after: State, id: string, clock: int)
    requires OneTurn(st, mid, id, clock, false) && mid.log <= after.log && Paired(after.log[|mid.log|..])
    ensures st.log <= after.log && Paired(after.log[|st.log|..])
    ensures forall i :: |st.log| <= i < |mid.log| ==> after.log[i].provider == id && !Cooling(st, id, clock)
    ensures |mid.log| > |st.log| ==> after.log[|mid.log| - 1].status != Completed
  {
    hide Paired;
    var added, rest := mid.log[|st.log|..], after.log[|mid.log|..];
    assert after.log[|st.log|..] == added + rest;
    assert forall i :: |st.log| <= i < |mid.log| ==> after.log[i] == mid.log[i] == added[i - |st.log|];
    if added == [] {
      assert added + rest == rest;
    } else {
      PairedConcat(added, rest, id);
    }
  }

  lemma FirstTurn(st: State, mid: State, after: State, ids: seq<string>, clocks: seq<int>, k: nat, completed: bool)
    requires |clocks| == |ids| && k < |ids| && DistinctIds(ids)
    requires OneTurn(st, mid, ids[k], clocks[k], false) && ManyTurns(mid, after, ids, clocks, k + 1, completed)
    ensures ManyTurns(st, after, ids, clocks, k, completed)
  {
    FirstTurnLog(st, mid, after, ids[k], clocks[k]);
    hide Paired, IsPair;
    forall i | |st.log| <= i < |after.log|
      ensures exists j :: k <= j < |ids| && ids[j] == after.log[i].provider && !Cooling(st, ids[j], clocks[j])
    {
      if i < |mid.log| {
        assert ids[k] == after.log[i].provider && !Cooling(st, ids[k], clocks[k]);
      } else {
        var j :| k + 1 <= j < |ids| && ids[j] == after.log[i].provider && !Cooling(mid, ids[j], clocks[j]);
        assert !Cooling(st, ids[j], clocks[j]);
      }
    }
  }

  lemma {:induction false} VisitsAreManyTurns(st: State, env: Env, ids: seq<string>, visits: seq<Visit>, now: int,
                                              k: nat, failed: seq<Failure>)
    requires |visits| == |ids| && k <= |ids| && DistinctIds(ids)
    requires forall j :: 0 <= j < |visits| ==> now <= visits[j].at
    ensures var (after, done, _) := Visits(st, env, ids, visits, now, k, failed);
            ManyTurns(st, after, ids, seq(|ids|, _ => now), k, done.Some? && done.value.Answered?)
    decreases |ids| - k
  {
    hide ManyTurns, OneTurn, VisitOne;
    var clocks := seq(|ids|, _ => now);
    if k == |ids| {
      NoTurns(st, ids, clocks, k);
    } else {
      VisitIsOneTurn(st, env, ids[k], visits[k], now, failed);
      var r := VisitOne(st, env, ids[k], visits[k], now, failed);
      if r.Over? {
        LastTurn(st, r.st, ids, clocks, k, r.completion.Answered?);
      } else {
        var more := failed + [Failure(ids[k], r.why)];
        VisitsAreManyTurns(r.st, env, ids, visits, now, k + 1, more);
        var (after, done, _) := Visits(r.st, env, ids, visits, now, k + 1, more);
        FirstTurn(st, r.st, after, ids, clocks, k, done.Some? && done.value.Answered?);
      }
    }
  }

  function Readings(turns: seq<Turn>): seq<int> {
    seq(|turns|, i requires 0 <= i < |turns| => turns[i].clock)
  }

  /** All chunks are those of turn `j`, and so is the usage reported when that completes. */
  predicate FromTurn(ids: seq<string>, turns: seq<Turn>, j: nat, chunks: seq<Chunk>, done: Option<Streaming>)
    requires |turns| == |ids| && j < |ids|
  {
    && chunks == Label(ids[j], turns[j].chunks)
    && (done.Some? && done.value.StreamDone? ==> turns[j].ending == Ends(done.value.usage))
  }

  lemma {:induction false} TurnsAreManyTurns(st: State, env: Env, ids: seq<string>, turns: seq<Turn>, k: nat)
    requires |turns| == |ids| && k <= |ids| && DistinctIds(ids)
    requires forall j :: 0 <= j < |turns| ==> turns[j].clock <= turns[j].at
    ensures var (after, chunks, done) := Turns(st, env, ids, turns, k);
            && ManyTurns(st, after, ids, Readings(turns), k, done.Some? && done.value.StreamDone?)
            && (forall i :: 0 <= i < |chunks| ==> chunks[i].provider == chunks[0].provider)
            && (done.Some? && done.value.StreamDone? ==> chunks != [] && chunks[0].provider == done.value.provider)
            && (chunks != [] ==> exists j :: k <= j < |ids| && FromTurn(ids, turns, j, chunks, done))
    decreases |ids| - k
  {
    hide ManyTurns, OneTurn, TurnOne, Label;
    var clocks := Readings(turns);
    if k == |ids| {
      NoTurns(st, ids, clocks, k);
    } else {
      TurnIsOneTurn(st, env, ids[k], turns[k]);
      var r := TurnOne(st, env, ids[k], turns[k]);
      if r.Last? {
        assert r.chunks != [] ==> FromTurn(ids, turns, k, r.chunks, Some(r.result));
        LastTurn(st, r.st, ids, clocks, k, r.result.StreamDone?);
      } else {
        TurnsAreManyTurns(r.st, env, ids, turns, k + 1);
        var (after, _, done) := Turns(r.st, env, ids, turns, k + 1);
        FirstTurn(st, r.st, after, ids, clocks, k, done.Some? && done.value.StreamDone?);
      }
    }
  }

  // ----- failures, quota errors, later calls -----

  /** Each provider gone past is listed once, in order, as cooling down exactly when it was. */
  ghost predicate Accounted(st: State, ids: seq<string>, now: int, failed: seq<Failure>) {
    && |failed| <= |ids|
    && forall j :: 0 <= j < |failed| ==>
                     failed[j].provider == ids[j] && (failed[j].why == CoolingDown <==> Cooling(st, ids[j], now))
  }

  lemma {:induction false} VisitsAccount(start: State, st: State, env: Env, ids: seq<string>, visits: seq<Visit>,
                                         now: int, k: nat, failed: seq<Failure>)
    requires |visits| == |ids| && k <= |ids| && DistinctIds(ids)
    requires forall j :: 0 <= j < |visits| ==> now <= visits[j].at
    requires |failed| == k && Accounted(start, ids, now, failed)
    requires forall j :: k <= j < |ids| ==> (Cooling(st, ids[j], now) <==> Cooling(start, ids[j], now))
    ensures var (after, done, all) := Visits(st, env, ids, visits, now, k, failed);
            && Accounted(start, ids, now, all)
            && (done.None? ==> |all| == |ids|)
            && (done.Some? ==> |all| < |ids| && (done.value.Answered? || done.value.Aborted?))
            && (done.Some? && done.value.Answered? ==>
                  visits[|all|].call.Replies? && done.value == Answered(ids[|all|], visits[|all|].call.reply, all))
    decreases |ids| - k
  {
    hide OneTurn, VisitOne;
    if k < |ids| {
      VisitIsOneTurn(st, env, ids[k], visits[k], now, failed);
      VisitOutcome(st, env, ids[k], visits[k], now, failed);
      var r := VisitOne(st, env, ids[k], visits[k], now, failed);
      if r.Next? {
        OtherCooldowns(st, r.st, ids, k, now);
        VisitsAccount(start, r.st, env, ids, visits, now, k + 1, failed + [Failure(ids[k], r.why)]);
      }
    }
  }

  lemma VisitOutcome(st: State, env: Env, id: string, v: Visit, now: int, failed: seq<Failure>)
    ensures var r := VisitOne(st, env, id, v, now, failed);
            && (r.Over? ==> r.completion.Answered? || r.completion.Aborted?)
            && (r.Next? ==> !v.aborted)
            && VisitOne(st, env, id, v, now, []).Over? == r.Over?
  {
  }

  /** A turn changes no cooldown but its own provider's. */
  lemma OtherCooldowns(st: State, mid: State, ids: seq<string>, k: nat, clock: int)
    requires k < |ids| && DistinctIds(ids) && exists completed :: OneTurn(st, mid, ids[k], clock, completed)
    ensures forall j :: k < j < |ids| ==> (Cooling(mid, ids[j], clock) <==> Cooling(st, ids[j], clock))
  {
  }

  function CoolingSkips(failed: seq<Failure>): nat {
    if failed == [] then 0
    else CoolingSkips(failed[..|failed| - 1]) + (if failed[|failed| - 1].why == CoolingDown then 1 else 0)
  }

  lemma {:induction false} SkipsAtMost(failed: seq<Failure>)
    ensures CoolingSkips(failed) <= |failed|
    ensures CoolingSkips(failed) == |failed| ==> forall j :: 0 <= j < |failed| ==> failed[j].why == CoolingDown
  {
    if failed != [] {
      SkipsAtMost(failed[..|failed| - 1]);
    }
  }

  lemma {:induction false} EarliestIsMinimum(st: State, ids: seq<string>, n: nat)
    requires 0 < n <= |ids| && forall k :: 0 <= k < |ids| ==> ids[k] in st.until
    ensures exists m :: 0 <= m < n && st.until[ids[m]] == EarliestTo(st, ids, n)
    ensures forall j :: 0 <= j < n ==> EarliestTo(st, ids, n) <= st.until[ids[j]]
  {
    if n == 1 {
      assert st.until[ids[0]] == EarliestTo(st, ids, n);
    } else {
      EarliestIsMinimum(st, ids, n - 1);
      var m :| 0 <= m < n - 1 && st.until[ids[m]] == EarliestTo(st, ids, n - 1);
      assert st.until[ids[if st.until[ids[n - 1]] < st.until[ids[m]] then n - 1 else m]] == EarliestTo(st, ids, n);
    }
  }

  ghost predicate SomeReady(st: State, ids: seq<string>, now: int) {
    exists k :: 0 <= k < |ids| && !Cooling(st, ids[k], now)
  }

  /** A quota error is raised exactly when all selected providers are cooling down; it carries the
      earliest end of a cooldown, from which on not all of them are. */
  lemma QuotaErrorIff(st: State, ids: seq<string>, clocks: seq<int>)
    requires |clocks| == |ids|
    ensures QuotaError(st, ids, clocks).Some? <==>
        |ids| > 0 && forall k :: 0 <= k < |ids| ==> Cooling(st, ids[k], clocks[k])
    ensures QuotaError(st, ids, clocks).Some? ==>
              var earliest := QuotaError(st, ids, clocks).value;
              && (exists k :: 0 <= k < |ids| && st.until[ids[k]] == earliest)
              && (forall k :: 0 <= k < |ids| ==> earliest <= st.until[ids[k]])
              && (forall now :: SomeReady(st, ids, now) <==> now >= earliest)
  {
    if QuotaError(st, ids, clocks).Some? {
      EarliestIsMinimum(st, ids, |ids|);
    }
  }

  /** What a `complete` amounts to: paired attempts of providers not cooling down, no cooldown ending
      earlier, one listed failure per provider before the one that answers, and a quota error exactly
      when the last providers gone past leave every selected one cooling down. */
  lemma CompleteIsSound(st: State, env: Env, ids: seq<string>, visits: seq<Visit>, now: int, clocks: seq<int>)
    requires |visits| == |clocks| == |ids| && DistinctIds(ids)
    requires forall j :: 0 <= j < |visits| ==> now <= visits[j].at
    ensures var (after, r) := Complete(st, env, ids, visits, now, clocks);
            && ManyTurns(st, after, ids, seq(|ids|, _ => now), 0, r.Answered?)
            && (r.Answered? ==>
                  && Accounted(st, ids, now, r.failed) && |r.failed| < |ids| && r.provider == ids[|r.failed|]
                  && visits[|r.failed|].call == Replies(r.reply))
            && (r.Unavailable? || r.LocalAnswer? ==> Accounted(st, ids, now, r.failed) && |r.failed| == |ids|)
            && (r.LocalAnswer? ==> !ProviderRequired(env))
            && (r.Unavailable? ==> ProviderRequired(env))
            && (r.QuotaLimited? ==> QuotaError(after, ids, clocks) == Some(r.retryAt))
            && (r.Unavailable? || r.LocalAnswer? ==> QuotaError(after, ids, clocks) == None)
  {
    hide ManyTurns, Accounted, Visits;
    assert Accounted(st, ids, now, []) by {
      NothingAccounted(st, ids, now);
    }
    VisitsAreManyTurns(st, env, ids, visits, now, 0, []);
    VisitsAccount(st, st, env, ids, visits, now, 0, []);
    var (after, done, failed) := Visits(st, env, ids, visits, now, 0, []);
    var r := Complete(st, env, ids, visits, now, clocks).1;
    assert done.Some? ==> r == done.value;
    assert done.None? && !r.QuotaLimited? ==> r.failed == failed;
  }

  lemma NothingAccounted(st: State, ids: seq<string>, now: int)
    ensures Accounted(st, ids, now, [])
  {
  }

  /** What a `stream` amounts to: the same for its attempts and cooldowns, and all chunks come from
      one provider, in the order it sent them. */
  lemma StreamIsSound(st: State, env: Env, ids: seq<string>, turns: seq<Turn>, clocks: seq<int>)
    requires |turns| == |clocks| == |ids| && DistinctIds(ids)
    requires forall j :: 0 <= j < |turns| ==> turns[j].clock <= turns[j].at
    ensures var (after, chunks, r) := Stream(st, env, ids, turns, clocks);
            && ManyTurns(st, after, ids, Readings(turns), 0, r.StreamDone?)
            && (chunks != [] ==> exists j :: 0 <= j < |ids| && FromTurn(ids, turns, j, chunks, Some(r)))
            && (forall i :: 0 <= i < |chunks| ==> chunks[i].provider == chunks[0].provider)
            && (r.StreamDone? ==> chunks != [] && chunks[0].provider == r.provider)
            && (r.StreamQuota? ==> QuotaError(after, ids, clocks) == Some(r.retryAt))
            && (r.NoProvider? ==> chunks == [] && QuotaError(after, ids, clocks) == None)
  {
    hide ManyTurns, QuotaError, Turns, Label;
    TurnsAreManyTurns(st, env, ids, turns, 0);
    TurnsEndQuietly(st, env, ids, turns, 0);
    var (after, chunks, done) := Turns(st, env, ids, turns, 0);
    if done.Some? {
      assert Stream(st, env, ids, turns, clocks) == (after, chunks, done.value);
    } else {
      assert Stream(st, env, ids, turns, clocks).1 == [];
    }
  }

  lemma {:induction false} TurnsEndQuietly(st: State, env: Env, ids: seq<string>, turns: seq<Turn>, k: nat)
    requires |turns| == |ids| && k <= |ids|
    ensures var (_, chunks, done) := Turns(st, env, ids, turns, k);
            && (done.None? ==> chunks == [])
            && (done.Some? ==> !done.value.StreamQuota? && !done.value.NoProvider?)
    decreases |ids| - k
  {
    if k < |ids| {
      var r := TurnOne(st, env, ids[k], turns[k]);
      if r.Pass? {
        TurnsEndQuietly(r.st, env, ids, turns, k + 1);
      }
    }
  }

  // ----- runs of calls -----

  datatype CallInput =
    | CompleteCall(env: Env, ids: seq<string>, visits: seq<Visit>, now: int)
    | StreamCall(env: Env, ids: seq<string>, turns: seq<Turn>)

  /** Inputs the outside can give: one entry per selected provider, and a clock that does not run back
      within the call. */
  ghost predicate Sensible(c: CallInput) {
    DistinctIds(c.ids) &&
    match c
    case CompleteCall(_, ids, visits, now) => |visits| == |ids| && forall j :: 0 <= j < |visits| ==> now <= visits[j].at
    case StreamCall(_, ids, turns) => |turns| == |ids| && forall j :: 0 <= j < |turns| ==> turns[j].clock <= turns[j].at
  }

  function AfterCall(st: State, c: CallInput): State {
    match c
    case CompleteCall(env, ids, visits, now) =>
      if |visits| == |ids| then Visits(st, env, ids, visits, now, 0, []).0 else st
    case StreamCall(env, ids, turns) => if |turns| == |ids| then Turns(st, env, ids, turns, 0).0 else st
  }

  function AfterCalls(st: State, calls: seq<CallInput>): State {
    if calls == [] then st else AfterCall(AfterCalls(st, calls[..|calls| - 1]), calls[|calls| - 1])
  }

  /** Over any sequence of calls the log stays paired and only grows, and cooldowns only move later. */
  lemma {:induction false} RunsKeepCooldowns(st: State, calls: seq<CallInput>)
    requires AllPaired(st.log) && forall k :: 0 <= k < |calls| ==> Sensible(calls[k])
    ensures var after := AfterCalls(st, calls);
            && st.log <= after.log && AllPaired(after.log)
            && (forall id :: id in st.until ==> id in after.until && after.until[id] >= st.until[id])
  {
    if calls != [] {
      var before, c := AfterCalls(st, calls[..|calls| - 1]), calls[|calls| - 1];
      RunsKeepCooldowns(st, calls[..|calls| - 1]);
      CallGrows(before, c);
    }
  }

  lemma CallGrows(st: State, c: CallInput)
    requires AllPaired(st.log) && Sensible(c)
    ensures var after := AfterCall(st, c);
            && st.log <= after.log && AllPaired(after.log)
            && (forall id :: id in st.until ==> id in after.until && after.until[id] >= st.until[id])
  {
    hide Visits, Turns, AllPaired, Paired;
    if c.CompleteCall? {
      VisitsAreManyTurns(st, c.env, c.ids, c.visits, c.now, 0, []);
    } else {
      TurnsAreManyTurns(st, c.env, c.ids, c.turns, 0);
    }
    var after := AfterCall(st, c);
    var added := after.log[|st.log|..];
    assert after.log == st.log + added;
    PairsOf(added);
    AllPairedConcat(st.log, added);
  }

  lemma PairsOf(log: seq<Attempt>)
    requires Paired(log)
    ensures AllPaired(log)
  {
  }

  // ----- trying again after a quota error -----

  /** A provider whose cooldown outlasts the clock of a call keeps it unchanged. */
  lemma {:induction false} VisitsKeepCooling(st: State, env: Env, ids: seq<string>, visits: seq<Visit>, now: int,
                                             k: nat, failed: seq<Failure>, id: string)
    requires |visits| == |ids| && k <= |ids| && Cooling(st, id, now)
    ensures var after := Visits(st, env, ids, visits, now, k, failed).0;
            id in after.until && after.until[id] == st.until[id]
    decreases |ids| - k
  {
    if k < |ids| {
      var r := VisitOne(st, env, ids[k], visits[k], now, failed);
      if r.Next? {
        VisitsKeepCooling(r.st, env, ids, visits, now, k + 1, failed + [Failure(ids[k], r.why)], id);
      }
    }
  }

  lemma {:induction false} TurnsKeepCooling(st: State, env: Env, ids: seq<string>, turns: seq<Turn>, k: nat, id: string)
    requires |turns| == |ids| && k <= |ids| && id in st.until
    requires forall j :: 0 <= j < |turns| ==> turns[j].clock < st.until[id]
    ensures var after := Turns(st, env, ids, turns, k).0;
            id in after.until && after.until[id] == st.until[id]
    decreases |ids| - k
  {
    if k < |ids| {
      var r := TurnOne(st, env, ids[k], turns[k]);
      if r.Pass? {
        TurnsKeepCooling(r.st, env, ids, turns, k + 1, id);
      }
    }
  }

  /** The clock readings of a call that decide which providers are cooling down. */
  ghost predicate Before(c: CallInput, moment: int) {
    match c
    case CompleteCall(_, _, _, now) => now < moment
    case StreamCall(_, _, turns) => forall j :: 0 <= j < |turns| ==> turns[j].clock < moment
  }

  lemma {:induction false} CallsKeepCooling(st: State, calls: seq<CallInput>, id: string)
    requires id in st.until && forall c :: 0 <= c < |calls| ==> Before(calls[c], st.until[id])
    ensures id in AfterCalls(st, calls).until && AfterCalls(st, calls).until[id] == st.until[id]
  {
    if calls != [] {
      var before, c := AfterCalls(st, calls[..|calls| - 1]), calls[|calls| - 1];
      CallsKeepCooling(st, calls[..|calls| - 1], id);
      assert Before(c, before.until[id]);
      hide Visits, Turns, AfterCalls;
      if c.CompleteCall? && |c.visits| == |c.ids| {
        VisitsKeepCooling(before, c.env, c.ids, c.visits, c.now, 0, [], id);
      } else if c.StreamCall? && |c.turns| == |c.ids| {
        TurnsKeepCooling(before, c.env, c.ids, c.turns, 0, id);
      }
      LastCall(st, calls);
    }
  }

  lemma LastCall(st: State, calls: seq<CallInput>)
    requires calls != []
    ensures AfterCalls(st, calls) == AfterCall(AfterCalls(st, calls[..|calls| - 1]), calls[|calls| - 1])
  {
  }

  lemma {:induction false} AllSkipped(st: State, env: Env, ids: seq<string>, visits: seq<Visit>, now: int, k: nat,
                                      failed: seq<Failure>)
    requires |visits| == |ids| && k <= |ids| && |failed| == k == CoolingSkips(failed)
    requires forall j :: 0 <= j < |ids| ==> Cooling(st, ids[j], now) && !visits[j].aborted
    ensures CoolingSkips(Visits(st, env, ids, visits, now, k, failed).2) == |ids|
    decreases |ids| - k
  {
    if k < |ids| {
      var more := failed + [Failure(ids[k], CoolingDown)];
      assert more[..|more| - 1] == failed;
      var r := VisitOne(st, env, ids[k], visits[k], now, failed);
      assert r.Next? && r.why == CoolingDown && r.st.until == st.until;
      AllSkipped(r.st, env, ids, visits, now, k + 1, more);
    }
  }

  /** A pass that is not aborted between providers skips all of them for cooling down exactly when all
      of them are. */
  lemma SkipsAllIff(st: State, env: Env, ids: seq<string>, visits: seq<Visit>, now: int)
    requires |visits| == |ids| && DistinctIds(ids)
    requires forall j :: 0 <= j < |visits| ==> now <= visits[j].at && !visits[j].aborted
    ensures CoolingSkips(Visits(st, env, ids, visits, now, 0, []).2) == |ids| <==> !SomeReady(st, ids, now)
  {
    hide Visits, VisitOne;
    if SomeReady(st, ids, now) {
      SkipsFewer(st, env, ids, visits, now);
    } else {
      AllSkipped(st, env, ids, visits, now, 0, []);
    }
  }

  lemma SkipsFewer(st: State, env: Env, ids: seq<string>, visits: seq<Visit>, now: int)
    requires |visits| == |ids| && DistinctIds(ids) && SomeReady(st, ids, now)
    requires forall j :: 0 <= j < |visits| ==> now <= visits[j].at
    ensures CoolingSkips(Visits(st, env, ids, visits, now, 0, []).2) < |ids|
  {
    hide Visits;
    var k :| 0 <= k < |ids| && !Cooling(st, ids[k], now);
    VisitsAccount(st, st, env, ids, visits, now, 0, []);
    SkipsAtMost(Visits(st, env, ids, visits, now, 0, []).2);
  }

  /** After a quota error, whatever calls come before the retry time it carries, a `complete` on the
      same providers from that time on skips fewer of them for cooling down than there are. */
  lemma RetryTimeHelps(st: State, calls: seq<CallInput>, ids: seq<string>, clocks: seq<int>, env: Env,
                       visits: seq<Visit>, now: int)
    requires |clocks| == |visits| == |ids| && DistinctIds(ids) && QuotaError(st, ids, clocks).Some?
    requires forall c :: 0 <= c < |calls| ==> Before(calls[c], QuotaError(st, ids, clocks).value)
    requires now >= QuotaError(st, ids, clocks).value && forall j :: 0 <= j < |visits| ==> now <= visits[j].at
    ensures CoolingSkips(Visits(AfterCalls(st, calls), env, ids, visits, now, 0, []).2) < |ids|
  {
    QuotaErrorIff(st, ids, clocks);
    var earliest := QuotaError(st, ids, clocks).value;
    hide QuotaError, Visits, AfterCalls;
    var k :| 0 <= k < |ids| && st.until[ids[k]] == earliest;
    CallsKeepCooling(st, calls, ids[k]);
    assert !Cooling(AfterCalls(st, calls), ids[k], now);
    SkipsFewer(AfterCalls(st, calls), env, ids, visits, now);
  }

  /** The exact condition: after any calls at all, a pass at or after the retry time that is not
      aborted skips fewer providers exactly when one of them is ready by then. */
  lemma RetryHelpsIff(st: State, calls: seq<CallInput>, ids: seq<string>, clocks: seq<int>, env: Env,
                      visits: seq<Visit>, now: int)
    requires |clocks| == |visits| == |ids| && DistinctIds(ids) && QuotaError(st, ids, clocks).Some?
    requires now >= QuotaError(st, ids, clocks).value
    requires forall j :: 0 <= j < |visits| ==> now <= visits[j].at && !visits[j].aborted
    ensures CoolingSkips(Visits(AfterCalls(st, calls), env, ids, visits, now, 0, []).2) < |ids| <==>
            SomeReady(AfterCalls(st, calls), ids, now)
    ensures (forall c :: 0 <= c < |calls| ==> Before(calls[c], QuotaError(st, ids, clocks).value)) ==>
              SomeReady(AfterCalls(st, calls), ids, now)
  {
    var later := AfterCalls(st, calls);
    hide QuotaError, Visits, AfterCalls;
    SkipsAllIff(later, env, ids, visits, now);
    if forall c :: 0 <= c < |calls| ==> Before(calls[c], QuotaError(st, ids, clocks).value) {
      RetryTimeHelps(st, calls, ids, clocks, env, visits, now);
    }
    if SomeReady(later, ids, now) {
      SkipsFewer(later, env, ids, visits, now);
    }
  }

  /** A call at the retry time can spoil the next one: it meets the limit again, and a millisecond
      later its only provider is skipped once more. */
  lemma RetryCanComeTooLate(t: int, env: Env)
    ensures var ids := ["groq"];
            var st := State(map["groq" := t], {"groq"}, []);
            var first := CompleteCall(env, ids, [Visit(false, 0, Limits(None), t)], t);
            var second := [Visit(false, 0, Breaks, t + 1)];
            && QuotaError(st, ids, [t - 1]) == Some(t)
            && CoolingSkips(Visits(AfterCalls(st, [first]), env, ids, second, t + 1, 0, []).2) == |ids|
  {
    var ids := ["groq"];
    var st := State(map["groq" := t], {"groq"}, []);
    var visits := [Visit(false, 0, Limits(None), t)];
    var first := CompleteCall(env, ids, visits, t);
    assert [first][..0] == [];
    var r := VisitOne(st, env, "groq", visits[0], t, []);
    assert r.Next? && r.st.until == map["groq" := t + COOLDOWN_MS];
    assert Visits(st, env, ids, visits, t, 0, []).0 == Visits(r.st, env, ids, visits, t, 1, [Failure("groq", r.why)]).0;
    var later := AfterCalls(st, [first]);
    LastCall(st, [first]);
    assert AfterCalls(st, []) == st;
    assert later == r.st;
    AllSkipped(later, env, ids, [Visit(false, 0, Breaks, t + 1)], t + 1, 0, []);
  }

  // ----- streaming again after a quota error -----

  /** Neither the chat setting nor a missing key rules the provider out. */
  predicate MayCall(env: Env, st: State, id: string) {
    !NotChatProvider(env, id) && (id in st.keys || id in env.keys || id == "ollama")
  }

  lemma {:induction false} TurnsGrow(st: State, env: Env, ids: seq<string>, turns: seq<Turn>, k: nat)
    requires |turns| == |ids| && k <= |ids|
    ensures |Turns(st, env, ids, turns, k).0.log| >= |st.log|
    decreases |ids| - k
  {
    if k < |ids| {
      var r := TurnOne(st, env, ids[k], turns[k]);
      if r.Pass? {
        TurnsGrow(r.st, env, ids, turns, k + 1);
      }
    }
  }

  /** Some provider from the `k`-th on may be called and is not cooling down when its clock is read. */
  ghost predicate SomeCallable(st: State, env: Env, ids: seq<string>, turns: seq<Turn>, k: nat)
    requires |turns| == |ids|
  {
    exists j :: k <= j < |ids| && MayCall(env, st, ids[j]) && !Cooling(st, ids[j], turns[j].clock)
  }

  /** A stream that is not aborted beforehand makes an attempt exactly when some provider may be called
      and is not cooling down. */
  lemma {:induction false} StreamTriesIff(st: State, env: Env, ids: seq<string>, turns: seq<Turn>, k: nat)
    requires |turns| == |ids| && k <= |ids| && forall j :: 0 <= j < |turns| ==> !turns[j].aborted
    ensures |Turns(st, env, ids, turns, k).0.log| > |st.log| <==> SomeCallable(st, env, ids, turns, k)
    decreases |ids| - k
  {
    if k < |ids| {
      var ready := MayCall(env, st, ids[k]) && !Cooling(st, ids[k], turns[k].clock);
      TurnMade(st, env, ids[k], turns[k]);
      var r := TurnOne(st, env, ids[k], turns[k]);
      hide TurnOne, MayCall, Cooling;
      if ready {
        if r.Pass? {
          TurnsGrow(r.st, env, ids, turns, k + 1);
        }
      } else {
        StreamTriesIff(st, env, ids, turns, k + 1);
      }
    }
  }

  lemma TurnMade(st: State, env: Env, id: string, t: Turn)
    requires !t.aborted
    ensures var r := TurnOne(st, env, id, t);
            if MayCall(env, st, id) && !Cooling(st, id, t.clock) then |r.st.log| > |st.log| else r == Pass(st)
  {
  }

  /** After a quota error, whatever calls come before the retry time it carries, a `stream` that reads the
      clock from that time on makes an attempt, unless the providers ready first may not be called. */
  lemma StreamRetryTimeHelps(st: State, calls: seq<CallInput>, ids: seq<string>, clocks: seq<int>, env: Env,
                             turns: seq<Turn>)
    requires |clocks| == |turns| == |ids| && QuotaError(st, ids, clocks).Some?
    requires forall c :: 0 <= c < |calls| ==> Before(calls[c], QuotaError(st, ids, clocks).value)
    requires forall j :: 0 <= j < |turns| ==>
                           turns[j].clock >= QuotaError(st, ids, clocks).value && !turns[j].aborted
    ensures var later, earliest := AfterCalls(st, calls), QuotaError(st, ids, clocks).value;
            (exists j :: 0 <= j < |ids| && st.until[ids[j]] == earliest && MayCall(env, later, ids[j])) ==>
              |Turns(later, env, ids, turns, 0).0.log| > |later.log|
  {
    var later, earliest := AfterCalls(st, calls), QuotaError(st, ids, clocks).value;
    StreamTriesIff(later, env, ids, turns, 0);
    hide QuotaError, Turns, AfterCalls, MayCall;
    if j :| 0 <= j < |ids| && st.until[ids[j]] == earliest && MayCall(env, later, ids[j]) {
      CallsKeepCooling(st, calls, ids[j]);
      assert !Cooling(later, ids[j], turns[j].clock);
    }
  }

  // ----- when a call succeeds, in terms of what it is given -----

  /** Not aborted before the provider's turn or during its call. */
  predicate Undisturbed(v: Visit) {
    !v.aborted && !v.call.Aborts?
  }

  /** The provider is ready, has its key or needs none, no failure is simulated, and it replies. */
  predicate WillAnswer(st: State, env: Env, id: string, v: Visit, now: int) {
    && (id in st.until ==> st.until[id] <= now)
    && (id in st.keys || id in env.keys || id == "ollama")
    && v.mock != 429 && v.mock < 500
    && v.call.Replies?
  }

  /** Why a provider that does not answer is passed over; the first that applies. */
  predicate ReasonFits(why: Reason, st: State, env: Env, id: string, v: Visit, now: int) {
    if id in st.until && st.until[id] > now then why == CoolingDown
    else if v.mock == 429 then why == MockLimit
    else if v.mock >= 500 then why == MockUnavailable
    else if id !in st.keys && id !in env.keys && id != "ollama" then why == NoKey
    else (v.call.Limits? && why == RateLimit) || (v.call.Breaks? && why == CallFailed)
  }

  /** The end of the provider's cooldown after its turn: a minute after a simulated limit, at least a
      minute after a real one and no sooner than the provider says, and otherwise as before. */
  predicate CooldownFits(why: Reason, st: State, after: State, id: string, v: Visit, now: int) {
    match why
    case MockLimit => id in after.until && after.until[id] == now + 60000
    case RateLimit =>
      && v.call.Limits? && id in after.until && after.until[id] >= v.at + 60000
      && (v.call.retryAt.Some? ==> after.until[id] >= v.call.retryAt.value)
      && (after.until[id] == v.at + 60000 || Some(after.until[id]) == v.call.retryAt)
    case _ => SameCooldown(st, after, id)
  }

  predicate SameCooldown(st: State, after: State, id: string) {
    if id in st.until then id in after.until && after.until[id] == st.until[id] else id !in after.until
  }

  /** What a turn may not touch: the cooldowns and keys of other providers. */
  ghost predicate OthersSame(st: State, after: State, id: string) {
    forall other :: other != id ==> SameCooldown(st, after, other) && (other in after.keys <==> other in st.keys)
  }

  predicate EndsCompleted(st: State, id: string, reply: Reply) {
    && |st.log| > 0
    && var last := st.log[|st.log| - 1];
       && last.provider == id && last.status == Completed
       && last.usage == Some(ProviderStream.TokenUsage(reply.promptTokens, reply.completionTokens, None, None))
  }

  lemma VisitOnInputs(st: State, env: Env, id: string, v: Visit, now: int, failed: seq<Failure>)
    requires Undisturbed(v)
    ensures var r := VisitOne(st, env, id, v, now, failed);
            && OthersSame(st, r.st, id)
            && if WillAnswer(st, env, id, v, now)
               then && r.Over? && r.completion == Answered(id, v.call.reply, failed)
                    && EndsCompleted(r.st, id, v.call.reply)
               else && r.Next? && ReasonFits(r.why, st, env, id, v, now) && CooldownFits(r.why, st, r.st, id, v, now)
                    && (if r.why.RateLimit? || r.why.CallFailed? then EndsWith(st, r.st, id, Failed, None)
                        else r.st.log == st.log)
    ensures id in VisitOne(st, env, id, v, now, failed).st.keys <==> id in st.keys || id in env.keys
  {
  }

  /** Two reports more, the second with this outcome. */
  predicate EndsWith(st: State, after: State, id: string, status: Status, usage: Option<ProviderStream.TokenUsage>) {
    && |after.log| == |st.log| + 2 && after.log[|after.log| - 1].provider == id
    && after.log[|after.log| - 1].status == status && after.log[|after.log| - 1].usage == usage
  }

  /** An abort before a provider's turn changes nothing; one during its call is reported as cancelled. */
  lemma AbortOnInputs(st: State, env: Env, id: string, v: Visit, now: int, failed: seq<Failure>)
    requires v.aborted || (v.call.Aborts? && WillAnswer(st, env, id, v.(call := Replies(Reply("", None, None))), now))
    ensures var r := VisitOne(st, env, id, v, now, failed);
            && r.Over? && r.completion == Aborted && r.st.until == st.until
            && if v.aborted then r.st == st else EndsWith(st, r.st, id, Cancelled, None)
  {
  }

  /** The first provider that will answer, or none of them. */
  function FirstAnswer(st: State, env: Env, ids: seq<string>, visits: seq<Visit>, now: int, k: nat): (j: nat)
    requires |visits| == |ids| && k <= |ids|
    ensures k <= j <= |ids|
    ensures forall i :: k <= i < j ==> !WillAnswer(st, env, ids[i], visits[i], now)
    ensures j < |ids| ==> WillAnswer(st, env, ids[j], visits[j], now)
    decreases |ids| - k
  {
    if k == |ids| || WillAnswer(st, env, ids[k], visits[k], now) then k
    else FirstAnswer(st, env, ids, visits, now, k + 1)
  }

  /** The providers from the `k`-th on are as they were. */
  ghost predicate Untouched(start: State, st: State, ids: seq<string>, k: nat) {
    forall j :: k <= j < |ids| ==>
                  SameCooldown(start, st, ids[j]) && (ids[j] in st.keys <==> ids[j] in start.keys)
  }

  ghost predicate ReasonsFit(failed: seq<Failure>, st: State, env: Env, ids: seq<string>, visits: seq<Visit>, now: int)
    requires |visits| == |ids|
  {
    |failed| <= |ids| &&
    forall j :: 0 <= j < |failed| ==>
                  failed[j].provider == ids[j] && ReasonFits(failed[j].why, st, env, ids[j], visits[j], now)
  }

  lemma SameDecision(start: State, st: State, env: Env, id: string, v: Visit, now: int)
    requires SameCooldown(start, st, id) && (id in st.keys <==> id in start.keys)
    ensures WillAnswer(start, env, id, v, now) <==> WillAnswer(st, env, id, v, now)
    ensures forall why :: ReasonFits(why, start, env, id, v, now) <==> ReasonFits(why, st, env, id, v, now)
  {
  }

  lemma StaysUntouched(start: State, st: State, after: State, ids: seq<string>, k: nat)
    requires Untouched(start, st, ids, k) && k < |ids| && DistinctIds(ids) && OthersSame(st, after, ids[k])
    ensures Untouched(start, after, ids, k + 1)
  {
  }

  lemma {:induction false} VisitsOnInputs(start: State, st: State, env: Env, ids: seq<string>, visits: seq<Visit>,
                                          now: int, k: nat, failed: seq<Failure>)
    requires |visits| == |ids| && k <= |ids| && DistinctIds(ids) && Untouched(start, st, ids, k)
    requires forall j :: 0 <= j < |visits| ==> Undisturbed(visits[j])
    requires |failed| == k && ReasonsFit(failed, start, env, ids, visits, now)
    ensures var first := FirstAnswer(start, env, ids, visits, now, k);
            var (after, done, all) := Visits(st, env, ids, visits, now, k, failed);
            && |all| == first && ReasonsFit(all, start, env, ids, visits, now)
            && if first == |ids| then done == None
               else && done == Some(Answered(ids[first], visits[first].call.reply, all))
                    && EndsCompleted(after, ids[first], visits[first].call.reply)
    decreases |ids| - k
  {
    if k < |ids| {
      hide VisitOne, WillAnswer, ReasonFits, SameCooldown, OthersSame, EndsCompleted, CooldownFits;
      assert Undisturbed(visits[k]) && SameCooldown(start, st, ids[k]);
      SameDecision(start, st, env, ids[k], visits[k], now);
      VisitOnInputs(st, env, ids[k], visits[k], now, failed);
      var r := VisitOne(st, env, ids[k], visits[k], now, failed);
      if r.Next? {
        StaysUntouched(start, st, r.st, ids, k);
        VisitsOnInputs(start, r.st, env, ids, visits, now, k + 1, failed + [Failure(ids[k], r.why)]);
      }
    }
  }

  /** A `complete` that nothing aborts is answered exactly when some selected provider will answer: by the
      first such provider, with its reply, the failures of those before it, and a log that ends with its
      completed attempt. */
  lemma AnsweredIff(st: State, env: Env, ids: seq<string>, visits: seq<Visit>, now: int, clocks: seq<int>)
    requires |visits| == |clocks| == |ids| && DistinctIds(ids)
    requires forall j :: 0 <= j < |visits| ==> Undisturbed(visits[j])
    ensures var (after, r) := Complete(st, env, ids, visits, now, clocks);
            && (r.Answered? <==> exists k :: 0 <= k < |ids| && WillAnswer(st, env, ids[k], visits[k], now))
            && (forall k :: 0 <= k < |ids| && WillAnswer(st, env, ids[k], visits[k], now)
                            && (forall j :: 0 <= j < k ==> !WillAnswer(st, env, ids[j], visits[j], now)) ==>
                              && r.Answered? && r.provider == ids[k] && r.reply == visits[k].call.reply
                              && |r.failed| == k && ReasonsFit(r.failed, st, env, ids, visits, now)
                              && EndsCompleted(after, ids[k], r.reply))
            && (r.Unavailable? || r.LocalAnswer? ==>
                  |r.failed| == |ids| && ReasonsFit(r.failed, st, env, ids, visits, now))
  {
    hide WillAnswer, ReasonFits, SameCooldown, EndsCompleted, Visits;
    assert Untouched(st, st, ids, 0) by {
      AllUntouched(st, ids);
    }
    VisitsOnInputs(st, st, env, ids, visits, now, 0, []);
    var first := FirstAnswer(st, env, ids, visits, now, 0);
    forall k | 0 <= k < |ids| && WillAnswer(st, env, ids[k], visits[k], now)
               && (forall j :: 0 <= j < k ==> !WillAnswer(st, env, ids[j], visits[j], now))
      ensures k == first
    {
    }
  }

  lemma AllUntouched(st: State, ids: seq<string>)
    ensures Untouched(st, st, ids, 0)
  {
  }

  // ----- what a stream gives, in terms of what it is given -----

  /** The provider is ready, has its key or needs none, and is not ruled out by the chat setting. */
  predicate CanStream(st: State, env: Env, id: string, t: Turn) {
    && (id in st.until ==> st.until[id] <= t.clock)
    && (id in st.keys || id in env.keys || id == "ollama")
    && (env.chain.Some? || env.chat.None? || env.chat == Some(id))
  }

  /** Its turn ends the call: something was shown, or the caller aborted. */
  predicate Settles(st: State, env: Env, id: string, t: Turn) {
    CanStream(st, env, id, t) && (t.chunks != [] || t.ending.StreamAborts?)
  }

  predicate ResultFits(result: Streaming, id: string, t: Turn) {
    match t.ending
    case Ends(usage) => result == StreamDone(id, usage)
    case ConsumerStops => result == Stopped
    case _ => result == Interrupted
  }

  predicate StatusFits(status: Status, t: Turn) {
    if t.ending.Ends? && t.chunks != [] then status == Completed
    else if t.ending.StreamAborts? || (t.ending.ConsumerStops? && t.chunks != []) then status == Cancelled
    else status == Failed
  }

  ghost predicate ChunksOf(given: seq<Chunk>, id: string, t: Turn) {
    |given| == |t.chunks| &&
    forall i :: 0 <= i < |given| ==> given[i].provider == id && given[i].text == t.chunks[i]
  }

  /** Only a limit met before anything was shown starts a cooldown. */
  predicate StreamCooldownFits(st: State, after: State, id: string, t: Turn) {
    if t.ending.StreamLimits? && t.chunks == [] then
      && id in after.until && after.until[id] >= t.at + 60000
      && (t.ending.retryAt.Some? ==> after.until[id] >= t.ending.retryAt.value)
      && (after.until[id] == t.at + 60000 || Some(after.until[id]) == t.ending.retryAt)
    else SameCooldown(st, after, id)
  }

  lemma TurnOnInputs(st: State, env: Env, id: string, t: Turn)
    requires !t.aborted
    ensures var r := TurnOne(st, env, id, t);
            && OthersSame(st, r.st, id) && r.st.keys == st.keys
            && if !CanStream(st, env, id, t) then r == Pass(st)
               else && |r.st.log| == |st.log| + 2
                    && (var last := r.st.log[|r.st.log| - 1];
                        last.provider == id && StatusFits(last.status, t) && last.usage == t.observed)
                    && StreamCooldownFits(st, r.st, id, t)
                    && if Settles(st, env, id, t)
                       then r.Last? && ChunksOf(r.chunks, id, t) && ResultFits(r.result, id, t)
                       else r.Pass?
  {
  }

  lemma AbortedTurn(st: State, env: Env, id: string, t: Turn)
    requires t.aborted && (env.chain.Some? || env.chat.None? || env.chat == Some(id))
    ensures TurnOne(st, env, id, t) == Last(st, [], StreamCancelled)
  {
  }

  function FirstSettled(st: State, env: Env, ids: seq<string>, turns: seq<Turn>, k: nat): (j: nat)
    requires |turns| == |ids| && k <= |ids|
    ensures k <= j <= |ids|
    ensures forall i :: k <= i < j ==> !Settles(st, env, ids[i], turns[i])
    ensures j < |ids| ==> Settles(st, env, ids[j], turns[j])
    decreases |ids| - k
  {
    if k == |ids| || Settles(st, env, ids[k], turns[k]) then k else FirstSettled(st, env, ids, turns, k + 1)
  }

  lemma SameTurn(start: State, st: State, env: Env, id: string, t: Turn)
    requires SameCooldown(start, st, id) && (id in st.keys <==> id in start.keys)
    ensures Settles(start, env, id, t) <==> Settles(st, env, id, t)
  {
  }

  lemma {:induction false} TurnsOnInputs(start: State, st: State, env: Env, ids: seq<string>, turns: seq<Turn>, k: nat)
    requires |turns| == |ids| && k <= |ids| && DistinctIds(ids) && Untouched(start, st, ids, k)
    requires forall j :: 0 <= j < |turns| ==> !turns[j].aborted
    ensures var first := FirstSettled(start, env, ids, turns, k);
            var (after, chunks, done) := Turns(st, env, ids, turns, k);
            if first == |ids| then chunks == [] && done == None
            else && done.Some? && ChunksOf(chunks, ids[first], turns[first])
                 && ResultFits(done.value, ids[first], turns[first])
    decreases |ids| - k
  {
    if k < |ids| {
      hide TurnOne, Settles, CanStream, SameCooldown, OthersSame, ChunksOf, ResultFits, StreamCooldownFits, StatusFits;
      assert SameCooldown(start, st, ids[k]);
      SameTurn(start, st, env, ids[k], turns[k]);
      TurnOnInputs(st, env, ids[k], turns[k]);
      SettlesCanStream(st, env, ids[k], turns[k]);
      var r := TurnOne(st, env, ids[k], turns[k]);
      if r.Pass? {
        StaysUntouched(start, st, r.st, ids, k);
        TurnsOnInputs(start, r.st, env, ids, turns, k + 1);
      }
    }
  }

  lemma SettlesCanStream(st: State, env: Env, id: string, t: Turn)
    ensures Settles(st, env, id, t) ==> CanStream(st, env, id, t)
  {
  }

  /** A `stream` not aborted between providers shows the chunks of the first provider whose turn ends the
      call, and ends as that turn does: completed if the provider's stream ended, stopped if the consumer
      left, interrupted otherwise. Without such a provider it shows nothing and fails. */
  lemma StreamedIff(st: State, env: Env, ids: seq<string>, turns: seq<Turn>, clocks: seq<int>)
    requires |turns| == |clocks| == |ids| && DistinctIds(ids)
    requires forall j :: 0 <= j < |turns| ==> !turns[j].aborted
    ensures var (after, chunks, r) := Stream(st, env, ids, turns, clocks);
            && ((r.StreamQuota? || r.NoProvider?) <==>
                forall k :: 0 <= k < |ids| ==> !Settles(st, env, ids[k], turns[k]))
            && (r.StreamQuota? || r.NoProvider? ==> chunks == [])
            && forall k :: 0 <= k < |ids| && Settles(st, env, ids[k], turns[k])
                           && (forall j :: 0 <= j < k ==> !Settles(st, env, ids[j], turns[j])) ==>
                             ChunksOf(chunks, ids[k], turns[k]) && ResultFits(r, ids[k], turns[k])
  {
    AllUntouched(st, ids);
    TurnsOnInputs(st, st, env, ids, turns, 0);
    TurnsEndQuietly(st, env, ids, turns, 0);
    hide Settles, ChunksOf, ResultFits, Turns, QuotaError, Untouched;
    var first := FirstSettled(st, env, ids, turns, 0);
    forall k | 0 <= k < |ids| && Settles(st, env, ids[k], turns[k])
               && (forall j :: 0 <= j < k ==> !Settles(st, env, ids[j], turns[j]))
      ensures k == first
    {
    }
  }

  // ----- the providers -----

  class Provider {
    const id: string
    const priority: int
    var hasKey: bool
    var isRateLimitedUntil: int

    constructor (id: string, priority: int, hasKey: bool)
      ensures this.id == id && this.priority == priority && this.hasKey == hasKey && isRateLimitedUntil == 0
    {
      this.id, this.priority, this.hasKey, isRateLimitedUntil := id, priority, hasKey, 0;
    }
  }

  function IdsOf(ps: seq<Provider>): seq<string> {
    seq(|ps|, i requires 0 <= i < |ps| => ps[i].id)
  }

  datatype ConfigError = InvalidOrder | PrimaryConflict | ChatConflict | UnknownProvider | MissingModel

  datatype Selection = Chosen(ps: seq<Provider>) | Rejected(why: ConfigError)

  function FindById(ps: seq<Provider>, id: string): Option<Provider> {
    if ps == [] then None else if ps[0].id == id then Some(ps[0]) else FindById(ps[1..], id)
  }

  /** The providers named, in that order; nothing if one of them is not registered. */
  function FindAll(ps: seq<Provider>, ids: seq<string>): Option<seq<Provider>> {
    if ids == [] then Some([])
    else
      var first, rest := FindById(ps, ids[0]), FindAll(ps, ids[1..]);
      if first.Some? && rest.Some? then Some([first.value] + rest.value) else None
  }

  function WithId(ps: seq<Provider>, selected: Option<string>): seq<Provider> {
    if ps == [] then []
    else
      var last := ps[|ps| - 1];
      WithId(ps[..|ps| - 1], selected) + (if selected.None? || last.id == selected.value then [last] else [])
  }

  function Urgency(p: Provider): real {
    -(p.priority as real)
  }

  /** The providers a call will try: the configured chain, or the selected one, or all by priority. */
  function Select(env: Env, providers: seq<Provider>): Selection {
    if env.chain.Some? then
      var ids := env.chain.value;
      if (exists i, j :: 0 <= i < j < |ids| && ids[i] == ids[j]) || (exists i :: 0 <= i < |ids| && ids[i] !in CHAIN_IDS)
      then Rejected(InvalidOrder)
      else if env.selected.Some? && env.selected.value != ids[0] then Rejected(PrimaryConflict)
      else if env.chat.Some? && env.chat.value != ids[0] then Rejected(ChatConflict)
      else if exists i :: 0 <= i < |ids| && ids[i] !in env.models then Rejected(MissingModel)
      else
        var found := FindAll(providers, ids);
        if found.Some? then Chosen(found.value) else Rejected(UnknownProvider)
    else if env.selected.Some? && FindById(providers, env.selected.value).None? then Rejected(UnknownProvider)
    else if env.selected.Some? && env.selected.value !in env.models then Rejected(MissingModel)
    else Chosen(SortDescending(WithId(providers, env.selected), Urgency))
  }

  ghost predicate DistinctProviders(ps: seq<Provider>) {
    forall i, j :: 0 <= i < j < |ps| ==> ps[i].id != ps[j].id
  }

  lemma {:induction false} FindByIdFinds(ps: seq<Provider>, id: string)
    ensures var r := FindById(ps, id);
            && (r.Some? <==> exists i :: 0 <= i < |ps| && ps[i].id == id)
            && (r.Some? ==> r.value in ps && r.value.id == id)
  {
    if ps != [] {
      FindByIdFinds(ps[1..], id);
      if i :| 0 <= i < |ps| && ps[i].id == id {
        assert i > 0 ==> ps[1..][i - 1].id == id;
      }
    }
  }

  lemma {:induction false} FindAllFinds(ps: seq<Provider>, ids: seq<string>)
    ensures var r := FindAll(ps, ids);
            r.Some? ==> |r.value| == |ids| && forall i :: 0 <= i < |ids| ==> r.value[i] in ps && r.value[i].id == ids[i]
  {
    if ids != [] {
      FindByIdFinds(ps, ids[0]);
      FindAllFinds(ps, ids[1..]);
    }
  }

  predicate Eligible(p: Provider, selected: Option<string>) {
    selected.None? || p.id == selected.value
  }

  lemma {:induction false} WithIdMembers(ps: seq<Provider>, selected: Option<string>, p: Provider)
    ensures p in WithId(ps, selected) <==> p in ps && Eligible(p, selected)
  {
    if ps != [] {
      WithIdMembers(ps[..|ps| - 1], selected, p);
      assert ps == ps[..|ps| - 1] + [ps[|ps| - 1]];
    }
  }

  lemma {:induction false} WithIdDistinct(ps: seq<Provider>, selected: Option<string>)
    requires DistinctProviders(ps)
    ensures DistinctProviders(WithId(ps, selected))
  {
    if ps != [] {
      var short, last := ps[..|ps| - 1], ps[|ps| - 1];
      WithIdDistinct(short, selected);
      var kept := WithId(short, selected);
      forall k | 0 <= k < |kept| ensures kept[k].id != last.id {
        WithIdMembers(short, selected, kept[k]);
        var i :| 0 <= i < |short| && short[i] == kept[k];
      }
    }
  }

  lemma DistinctWhenRearranged(a: seq<Provider>, b: seq<Provider>)
    requires multiset(a) == multiset(b) && DistinctProviders(a)
    ensures DistinctProviders(b)
  {
    forall i, j | 0 <= i < j < |b| ensures b[i].id != b[j].id {
      if b[i].id == b[j].id {
        assert b[i] in multiset(a) && b[j] in multiset(a);
        var m :| 0 <= m < |a| && a[m] == b[i];
        var n :| 0 <= n < |a| && a[n] == b[j];
        assert m == n;
        OccursTwice(b, i, j);
        OccursOnce(a, m);
      }
    }
  }

  lemma OccursTwice(b: seq<Provider>, i: nat, j: nat)
    requires i < j < |b| && b[i] == b[j]
    ensures multiset(b)[b[i]] >= 2
  {
    var x := b[i];
    assert b == b[..i] + [x] + b[i + 1..j] + [x] + b[j + 1..];
  }

  lemma OccursOnce(a: seq<Provider>, m: nat)
    requires DistinctProviders(a) && m < |a|
    ensures multiset(a)[a[m]] == 1
  {
    var front, back := a[..m], a[m + 1..];
    assert a == front + [a[m]] + back;
    assert a[m] !in front && a[m] !in back;
    assert multiset(front)[a[m]] == 0 && multiset(back)[a[m]] == 0;
  }

  /** A selection has each provider once, all registered; a chain in its own order, otherwise all
      providers, or the selected one, by priority and in the order registered for equal priority. */
  lemma SelectionIsOrdered(env: Env, providers: seq<Provider>)
    requires DistinctProviders(providers)
    ensures var sel := Select(env, providers);
            sel.Chosen? ==>
              && DistinctIds(IdsOf(sel.ps))
              && (forall i :: 0 <= i < |sel.ps| ==> sel.ps[i] in providers)
              && (env.chain.Some? ==> IdsOf(sel.ps) == env.chain.value)
              && (env.chain.None? ==>
                    && (forall i, j :: 0 <= i < j < |sel.ps| ==> sel.ps[i].priority <= sel.ps[j].priority)
                    && (forall i :: 0 <= i < |providers| && Eligible(providers[i], env.selected) ==>
                        providers[i] in sel.ps)
                    && (forall i :: 0 <= i < |sel.ps| ==> Eligible(sel.ps[i], env.selected))
                    && (forall v :: Ties(sel.ps, Urgency, v) == Ties(WithId(providers, env.selected), Urgency, v)))
  {
    hide SortDescending, WithId, FindAll, FindById, Ties;
    var sel := Select(env, providers);
    if sel.Chosen? {
      if env.chain.Some? {
        hide DistinctProviders;
        FindAllFinds(providers, env.chain.value);
      } else {
        SortedSelection(providers, env.selected);
      }
    }
  }

  ghost predicate IsRegistered(providers: seq<Provider>, id: string)
  {
    exists i :: 0 <= i < |providers| && providers[i].id == id
  }

  /** When a selection is made at all: a fallback order has to name different providers of the four it
      may name, agree with the primary and the chat provider, and have a model for each; a selected
      provider has to be registered and to have a model, and is then the only one. */
  lemma ChosenIff(env: Env, providers: seq<Provider>)
    ensures env.chain.Some? ==>
              var ids := env.chain.value;
              (Select(env, providers).Chosen? <==>
               && DistinctIds(ids)
               && (forall i :: 0 <= i < |ids| ==>
                     ids[i] == "gemini" || ids[i] == "groq" || ids[i] == "openai" || ids[i] == "claude")
               && (env.selected.Some? ==> env.selected.value == ids[0])
               && (env.chat.Some? ==> env.chat.value == ids[0])
               && (forall i :: 0 <= i < |ids| ==> ids[i] in env.models && IsRegistered(providers, ids[i])))
    ensures env.chain.None? ==>
              (Select(env, providers).Chosen? <==>
               (env.selected.Some? ==> IsRegistered(providers, env.selected.value) && env.selected.value in env.models))
    ensures env.chain.None? && env.selected.Some? && Select(env, providers).Chosen? ==>
              var ps := Select(env, providers).ps;
              |ps| > 0 && forall i :: 0 <= i < |ps| ==> ps[i].id == env.selected.value
  {
    hide SortDescending, FindAll, FindById, WithId;
    if env.chain.Some? {
      FindAllIff(providers, env.chain.value);
    } else if env.selected.Some? {
      FindByIdFinds(providers, env.selected.value);
      if IsRegistered(providers, env.selected.value) {
        OnlySelected(providers, env.selected);
      }
    }
  }

  lemma OnlySelected(providers: seq<Provider>, selected: Option<string>)
    requires selected.Some? && IsRegistered(providers, selected.value)
    ensures var ps := SortDescending(WithId(providers, selected), Urgency);
            |ps| > 0 && forall i :: 0 <= i < |ps| ==> ps[i].id == selected.value
  {
    var kept := WithId(providers, selected);
    var k :| 0 <= k < |providers| && providers[k].id == selected.value;
    WithIdMembers(providers, selected, providers[k]);
    SortIsStable(kept, Urgency);
    hide SortDescending, WithId;
    var ps := SortDescending(kept, Urgency);
    SameProviders(kept, ps);
    forall i | 0 <= i < |ps| ensures ps[i].id == selected.value {
      WithIdMembers(providers, selected, ps[i]);
    }
  }

  lemma {:induction false} FindAllIff(ps: seq<Provider>, ids: seq<string>)
    ensures FindAll(ps, ids).Some? <==> forall i :: 0 <= i < |ids| ==> IsRegistered(ps, ids[i])
  {
    if ids != [] {
      FindByIdFinds(ps, ids[0]);
      FindAllIff(ps, ids[1..]);
      hide FindById;
      assert forall i :: 1 <= i < |ids| ==> ids[1..][i - 1] == ids[i];
    }
  }

  /** Without configuration all providers are selected in the order in which the gateway keeps them; for
      a new gateway that is the default order. */
  lemma DefaultSelection(env: Env, providers: seq<Provider>)
    requires env.chain.None? && env.selected.None?
    requires forall i, j :: 0 <= i < j < |providers| ==> providers[i].priority <= providers[j].priority
    ensures Select(env, providers) == Chosen(providers)
  {
    AllEligible(providers);
    SortedAlready(providers, Urgency);
  }

  lemma {:induction false} AllEligible(ps: seq<Provider>)
    ensures WithId(ps, None) == ps
  {
    if ps != [] {
      AllEligible(ps[..|ps| - 1]);
      assert ps == ps[..|ps| - 1] + [ps[|ps| - 1]];
    }
  }

  lemma SortedSelection(providers: seq<Provider>, selected: Option<string>)
    requires DistinctProviders(providers)
    ensures var kept := WithId(providers, selected);
            var ps := SortDescending(kept, Urgency);
            && DistinctIds(IdsOf(ps))
            && (forall i, j :: 0 <= i < j < |ps| ==> ps[i].priority <= ps[j].priority)
            && (forall i :: 0 <= i < |ps| ==> ps[i] in providers && Eligible(ps[i], selected))
            && (forall i :: 0 <= i < |providers| && Eligible(providers[i], selected) ==> providers[i] in ps)
            && (forall v :: Ties(ps, Urgency, v) == Ties(kept, Urgency, v))
  {
    hide SortDescending, WithId, Ties;
    var kept := WithId(providers, selected);
    var ps := SortDescending(kept, Urgency);
    WithIdDistinct(providers, selected);
    SortIsStable(kept, Urgency);
    DistinctWhenRearranged(kept, ps);
    forall i | 0 <= i < |ps| ensures ps[i] in providers && Eligible(ps[i], selected) {
      assert ps[i] in multiset(ps) && ps[i] in multiset(kept);
      WithIdMembers(providers, selected, ps[i]);
    }
    forall i | 0 <= i < |providers| && Eligible(providers[i], selected) ensures providers[i] in ps {
      WithIdMembers(providers, selected, providers[i]);
      assert providers[i] in multiset(kept) && providers[i] in multiset(ps);
    }
    forall i, j | 0 <= i < j < |ps| ensures ps[i].priority <= ps[j].priority {
      assert Urgency(ps[i]) >= Urgency(ps[j]);
    }
  }

  // ----- the gateway -----

  function WithProvider(ps: seq<Provider>, p: Provider): seq<Provider> {
    if ps == [] then [p]
    else if ps[0].id == p.id then [p] + ps[1..]
    else [ps[0]] + WithProvider(ps[1..], p)
  }

  lemma {:induction false} WithProviderDistinct(ps: seq<Provider>, p: Provider)
    requires DistinctProviders(ps)
    ensures DistinctProviders(WithProvider(ps, p)) && p in WithProvider(ps, p)
    ensures forall i :: 0 <= i < |WithProvider(ps, p)| ==>
                          var q := WithProvider(ps, p)[i]; q == p || (q in ps && q.id != p.id)
    ensures forall i :: 0 <= i < |ps| && ps[i].id != p.id ==> ps[i] in WithProvider(ps, p)
  {
    if ps != [] && ps[0].id != p.id {
      WithProviderDistinct(ps[1..], p);
    }
  }

  /** A provider's fields are what the state says. */
  ghost predicate Shown(p: Provider, st: State)
    reads p
  {
    p.id in st.until && st.until[p.id] == p.isRateLimitedUntil && (p.id in st.keys <==> p.hasKey)
  }

  lemma RegisteredOnce(ps: seq<Provider>, p: Provider)
    requires DistinctProviders(ps)
    ensures var after := SortDescending(WithProvider(ps, p), Urgency);
            && DistinctProviders(after) && p in after
            && (forall i :: 0 <= i < |after| ==> (after[i].id == p.id <==> after[i] == p))
            && (forall i :: 0 <= i < |after| && after[i] != p ==> after[i] in ps)
            && (forall i :: 0 <= i < |ps| && ps[i].id != p.id ==> ps[i] in after)
            && (forall i, j :: 0 <= i < j < |after| ==> after[i].priority <= after[j].priority)
  {
    hide SortDescending, WithProvider;
    var replaced := WithProvider(ps, p);
    var after := SortDescending(replaced, Urgency);
    WithProviderDistinct(ps, p);
    SortIsStable(replaced, Urgency);
    DistinctWhenRearranged(replaced, after);
    SameProviders(replaced, after);
    var k :| 0 <= k < |after| && after[k] == p;
    forall i, j | 0 <= i < j < |after| ensures after[i].priority <= after[j].priority {
      assert Urgency(after[i]) >= Urgency(after[j]);
    }
  }

  lemma SameProviders(a: seq<Provider>, b: seq<Provider>)
    requires multiset(a) == multiset(b)
    ensures forall i :: 0 <= i < |a| ==> a[i] in b
    ensures forall i :: 0 <= i < |b| ==> b[i] in a
    ensures forall i :: 0 <= i < |a| ==> a[i] in multiset(a)
  {
    forall i | 0 <= i < |a| ensures a[i] in b {
      assert a[i] in multiset(a) && a[i] in multiset(b);
    }
    forall i | 0 <= i < |b| ensures b[i] in a {
      assert b[i] in multiset(b) && b[i] in multiset(a);
    }
  }

  /** The default registration: the four chain providers and two more, in order of priority. */
  const DEFAULT_IDS := ["groq", "openai", "claude", "gemini", "huggingface", "ollama"]

  class Gateway {
    var providers: seq<Provider>
    var attempts: seq<Attempt>

    ghost predicate Valid()
      reads this
    {
      DistinctProviders(providers)
    }

    ghost predicate Shows(st: State)
      reads this, providers
    {
      st.log == attempts && forall i :: 0 <= i < |providers| ==> Shown(providers[i], st)
    }

    /** `keys` are the ids whose key variable is set when the gateway is made. */
    constructor (keys: set<string>)
      ensures Valid() && attempts == []
      ensures IdsOf(providers) == ["groq", "openai", "claude", "gemini", "huggingface", "ollama"]
      ensures forall i :: 0 <= i < |providers| ==> fresh(providers[i]) && providers[i].isRateLimitedUntil == 0
      ensures forall i :: 0 <= i < |providers| ==> providers[i].priority == i + 1
      ensures forall i :: 0 <= i < |providers| ==>
          (providers[i].hasKey <==> providers[i].id in keys && providers[i].id != "ollama")
    {
      providers, attempts := [], [];
      new;
      for k := 0 to |DEFAULT_IDS|
        invariant |providers| == k && attempts == []
        invariant forall i :: 0 <= i < k ==> fresh(providers[i]) && providers[i].isRateLimitedUntil == 0
        invariant forall i :: 0 <= i < k ==> providers[i].id == DEFAULT_IDS[i] && providers[i].priority == i + 1
        invariant forall i :: 0 <= i < k ==>
            (providers[i].hasKey <==> providers[i].id in keys && providers[i].id != "ollama")
      {
        var p := new Provider(DEFAULT_IDS[k], k + 1, DEFAULT_IDS[k] in keys && DEFAULT_IDS[k] != "ollama");
        providers := providers + [p];
      }
      assert DEFAULT_IDS[0][1] == 'r' && DEFAULT_IDS[1][0] == 'o' && DEFAULT_IDS[2][0] == 'c';
      assert DEFAULT_IDS[3][1] == 'e' && DEFAULT_IDS[4][0] == 'h' && DEFAULT_IDS[5][1] == 'l'
          && DEFAULT_IDS[1][1] == 'p';
      assert DEFAULT_IDS[0][0] == DEFAULT_IDS[3][0] == 'g';
    }

    /** Replaces the provider with that id, or adds it, and orders by priority. */
    method RegisterProvider(p: Provider)
      requires Valid()
      modifies this`providers
      ensures Valid() && providers == SortDescending(WithProvider(old(providers), p), Urgency)
      ensures forall i :: 0 <= i < |providers| ==> (providers[i].id == p.id <==> providers[i] == p)
      ensures p in providers
      ensures forall i :: 0 <= i < |old(providers)| && old(providers)[i].id != p.id ==> old(providers)[i] in providers
      ensures forall i :: 0 <= i < |providers| && providers[i] != p ==> providers[i] in old(providers)
      ensures forall i, j :: 0 <= i < j < |providers| ==> providers[i].priority <= providers[j].priority
    {
      hide SortDescending, WithProvider;
      RegisteredOnce(providers, p);
      var replaced := WithProvider(providers, p);
      providers := SortDescending(replaced, Urgency);
    }

    /** The provider of a turn: skips, calls and cooldowns, as `VisitOne` says. */
    method VisitProvider(env: Env, p: Provider, v: Visit, now: int, failed: seq<Failure>, ghost st: State)
      returns (done: Option<Completion>, why: Reason)
      requires Valid() && Shows(st) && p in providers
      modifies this`attempts, p`hasKey, p`isRateLimitedUntil
      ensures Shows(VisitOne(st, env, p.id, v, now, failed).st)
      ensures match VisitOne(st, env, p.id, v, now, failed)
              case Over(_, completion) => done == Some(completion)
              case Next(_, reason) => done == None && why == reason
    {
      why := NoKey;
      if v.aborted {
        return Some(Aborted), why;
      }
      p.hasKey := p.hasKey || p.id in env.keys;
      if p.isRateLimitedUntil > now {
        return None, CoolingDown;
      }
      if v.mock == 429 {
        p.isRateLimitedUntil := now + COOLDOWN_MS;
        return None, MockLimit;
      } else if v.mock >= 500 {
        return None, MockUnavailable;
      }
      if p.hasKey || p.id == "ollama" {
        var id := |attempts|;
        attempts := attempts + [Attempt(id, p.id, Started, None)];
        match v.call {
          case Replies(reply) =>
            attempts := attempts + [Attempt(id, p.id, Completed, UsageOf(reply))];
            return Some(Answered(p.id, reply, failed)), why;
          case Aborts =>
            attempts := attempts + [Attempt(id, p.id, Cancelled, None)];
            return Some(Aborted), why;
          case Limits(retryAt) =>
            p.isRateLimitedUntil := CooldownEnd(v.at, retryAt);
            attempts := attempts + [Attempt(id, p.id, Failed, None)];
            return None, RateLimit;
          case Breaks =>
            attempts := attempts + [Attempt(id, p.id, Failed, None)];
            return None, CallFailed;
        }
      }
      return None, NoKey;
    }

    /** All selected providers cooling down, as of a clock read for each: the earliest end. */
    method ThrowIfQuotaLimited(selected: seq<Provider>, clocks: seq<int>, ghost st: State)
      returns (retryAt: Option<int>)
      requires Shows(st) && |clocks| == |selected| && forall i :: 0 <= i < |selected| ==> selected[i] in providers
      ensures retryAt == QuotaError(st, IdsOf(selected), clocks)
    {
      ghost var ids := IdsOf(selected);
      if |selected| == 0 {
        return None;
      }
      for k := 0 to |selected|
        invariant forall j :: 0 <= j < k ==> Cooling(st, ids[j], clocks[j])
      {
        assert Shown(selected[k], st);
        if selected[k].isRateLimitedUntil <= clocks[k] {
          assert !Cooling(st, ids[k], clocks[k]);
          return None;
        }
      }
      assert Shown(selected[0], st);
      var earliest := selected[0].isRateLimitedUntil;
      for k := 1 to |selected|
        invariant earliest == EarliestTo(st, ids, k)
      {
        assert Shown(selected[k], st);
        if selected[k].isRateLimitedUntil < earliest {
          earliest := selected[k].isRateLimitedUntil;
        }
      }
      return Some(earliest);
    }

    /** One `complete` call; `visits` and `clocks` have an entry for each provider selected. */
    method CompleteRequest(env: Env, visits: seq<Visit>, now: int, clocks: seq<int>, ghost st: State)
      returns (r: Completion)
      requires Valid() && Shows(st)
      requires Select(env, providers).Chosen? ==> |visits| == |clocks| == |Select(env, providers).ps|
      modifies this`attempts, providers
      ensures Valid() && providers == old(providers)
      ensures Select(env, providers).Rejected? ==> r == Misconfigured && Shows(st)
      ensures Select(env, providers).Chosen? ==>
                var (after, result) := Complete(st, env, IdsOf(Select(env, providers).ps), visits, now, clocks);
                r == result && Shows(after)
    {
      hide Select, DistinctProviders, VisitOne;
      var selection := Select(env, providers);
      if selection.Rejected? {
        return Misconfigured;
      }
      var selected := selection.ps;
      ghost var ids := IdsOf(selected);
      SelectedAreRegistered(env);
      var failed: seq<Failure> := [];
      ghost var now' := st;
      for k := 0 to |selected|
        invariant Valid() && providers == old(providers) && Shows(now')
        invariant Visits(st, env, ids, visits, now, 0, []) == Visits(now', env, ids, visits, now, k, failed)
      {
        ghost var turn := VisitOne(now', env, ids[k], visits[k], now, failed);
        var done, why := VisitProvider(env, selected[k], visits[k], now, failed, now');
        now' := turn.st;
        if done.Some? {
          return done.value;
        }
        failed := failed + [Failure(selected[k].id, why)];
      }
      var quota := ThrowIfQuotaLimited(selected, clocks, now');
      if quota.Some? {
        return QuotaLimited(quota.value);
      }
      if ProviderRequired(env) {
        return Unavailable(failed);
      }
      return LocalAnswer(failed);
    }

    lemma SelectedAreRegistered(env: Env)
      requires Valid() && Select(env, providers).Chosen?
      ensures forall i :: 0 <= i < |Select(env, providers).ps| ==> Select(env, providers).ps[i] in providers
    {
      SelectionIsOrdered(env, providers);
    }

    /** The provider of a turn in a stream, as `TurnOne` says; the chunks go to the consumer. */
    method StreamProvider(env: Env, p: Provider, t: Turn, ghost st: State)
      returns (chunks: seq<Chunk>, done: Option<Streaming>)
      requires Valid() && Shows(st) && p in providers
      modifies this`attempts, p`isRateLimitedUntil
      ensures Shows(TurnOne(st, env, p.id, t).st)
      ensures match TurnOne(st, env, p.id, t)
              case Pass(_) => chunks == [] && done == None
              case Last(_, given, result) => chunks == given && done == Some(result)
    {
      chunks, done := [], None;
      if NotChatProvider(env, p.id) {
        return [], None;
      }
      if t.aborted {
        return [], Some(StreamCancelled);
      }
      if p.isRateLimitedUntil > t.clock {
        return [], None;
      }
      if !p.hasKey && p.id !in env.keys && p.id != "ollama" {
        return [], None;
      }
      var id := |attempts|;
      attempts := attempts + [Attempt(id, p.id, Started, None)];
      var emitted := false;
      for k := 0 to |t.chunks|
        invariant chunks == Label(p.id, t.chunks)[..k] && (emitted <==> k > 0)
      {
        emitted := true;
        chunks := chunks + [Chunk(p.id, t.chunks[k])];
      }
      var outcome := Failed;
      match t.ending {
        case Ends(usage) =>
          if emitted {
            outcome, done := Completed, Some(StreamDone(p.id, usage));
          }
        case ConsumerStops =>
          if emitted {
            outcome, done := Cancelled, Some(Stopped);
          }
        case StreamAborts =>
          outcome, done := Cancelled, Some(Interrupted);
        case StreamLimits(retryAt) =>
          if emitted {
            done := Some(Interrupted);
          } else {
            p.isRateLimitedUntil := CooldownEnd(t.at, retryAt);
          }
        case StreamBreaks =>
          if emitted {
            done := Some(Interrupted);
          }
      }
      attempts := attempts + [Attempt(id, p.id, outcome, t.observed)];
    }

    /** One `stream` call. */
    method StreamRequest(env: Env, turns: seq<Turn>, clocks: seq<int>, ghost st: State)
      returns (chunks: seq<Chunk>, r: Option<Streaming>)
      requires Valid() && Shows(st)
      requires Select(env, providers).Chosen? ==> |turns| == |clocks| == |Select(env, providers).ps|
      modifies this`attempts, providers
      ensures Valid() && providers == old(providers)
      ensures Select(env, providers).Rejected? ==> r == None && chunks == [] && Shows(st)
      ensures Select(env, providers).Chosen? ==>
                var (after, given, result) := Stream(st, env, IdsOf(Select(env, providers).ps), turns, clocks);
                r == Some(result) && chunks == given && Shows(after)
    {
      hide Select, DistinctProviders, TurnOne;
      var selection := Select(env, providers);
      if selection.Rejected? {
        return [], None;
      }
      var selected := selection.ps;
      ghost var ids := IdsOf(selected);
      SelectedAreRegistered(env);
      ghost var now' := st;
      for k := 0 to |selected|
        invariant Valid() && providers == old(providers) && Shows(now')
        invariant Turns(st, env, ids, turns, 0) == Turns(now', env, ids, turns, k)
      {
        ghost var turn := TurnOne(now', env, ids[k], turns[k]);
        var given, done := StreamProvider(env, selected[k], turns[k], now');
        now' := turn.st;
        if done.Some? {
          return given, done;
        }
      }
      var quota := ThrowIfQuotaLimited(selected, clocks, now');
      if quota.Some? {
        return [], Some(StreamQuota(quota.value));
      }
      return [], Some(NoProvider);
    }
  }
}
