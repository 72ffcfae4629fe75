/** Correlating security signals over a sliding window into a kill-chain progression. */
module KillChainCorrelator {
  import opened Numbers
  import opened Selections

  datatype Stage =
    | Reconnaissance
    | InitialFoothold
    | PrivilegeEscalation
    | PersistenceEstablished
    | LateralMovement
    | DataExfiltration

  const DEFAULT_WINDOW_MS := 30 * 60 * 1000
  const ORDERED_STAGES := [Reconnaissance, InitialFoothold, PrivilegeEscalation, PersistenceEstablished,
                           LateralMovement, DataExfiltration]

  datatype Signal = Signal(timestamp: int, sourceIp: string, hostId: string, threatType: string, stage: Stage,
                           raw: string)

  datatype Progression = Progression(
    sourceIp: string,
    hostId: string,
    activeStages: seq<Stage>,
    currentStage: Stage,
    score: int,
    eventCount: nat,
    isPreempted: bool)

  // ----- the window -----

  /** `history.filter(e => e.timestamp >= cutoff)`. */
  function Since(history: seq<Signal>, cutoff: int): seq<Signal> {
    if history == [] then []
    else
      var last := history[|history| - 1];
      Since(history[..|history| - 1], cutoff) + (if last.timestamp >= cutoff then [last] else [])
  }

  /** Exactly the signals from the cutoff on are left. */
  lemma {:induction false} SinceMembers(history: seq<Signal>, cutoff: int, e: Signal)
    ensures e in Since(history, cutoff) <==> e in history && e.timestamp >= cutoff
  {
    if history != [] {
      var short, last := history[..|history| - 1], history[|history| - 1];
      SinceMembers(short, cutoff, e);
      assert history == short + [last];
    }
  }

  /** Pruning never lengthens the history, and keeps its length only where it keeps everything. */
  lemma {:induction false} SinceAll(history: seq<Signal>, cutoff: int)
    ensures |Since(history, cutoff)| <= |history|
    ensures |Since(history, cutoff)| == |history| <==> AllSince(history, cutoff)
    ensures AllSince(history, cutoff) ==> Since(history, cutoff) == history
  {
    if history != [] {
      var short, last := history[..|history| - 1], history[|history| - 1];
      SinceAll(short, cutoff);
      AllSinceMore(short, last, cutoff);
      assert history == short + [last];
      hide AllSince;
    }
  }

  ghost predicate AllSince(events: seq<Signal>, cutoff: int) {
    forall i :: 0 <= i < |events| ==> events[i].timestamp >= cutoff
  }

  lemma AllSinceMore(events: seq<Signal>, e: Signal, cutoff: int)
    ensures AllSince(events + [e], cutoff) <==> AllSince(events, cutoff) && e.timestamp >= cutoff
  {
    var more := events + [e];
    assert more[|events|] == e && forall i :: 0 <= i < |events| ==> more[i] == events[i];
  }

  /** The stored history after recording signals one by one, pruning after each. */
  function Streamed(signals: seq<Signal>, window: int): seq<Signal> {
    if signals == [] then []
    else
      var last := signals[|signals| - 1];
      Since(Streamed(signals[..|signals| - 1], window) + [last], last.timestamp - window)
  }

  lemma StreamedStep(signals: seq<Signal>, signal: Signal, window: int)
    ensures Streamed(signals + [signal], window) ==
            Since(Streamed(signals, window) + [signal], signal.timestamp - window)
  {
    assert (signals + [signal])[..|signals|] == signals;
  }

  /** Signal `i` has been in the window of its own recording and of every later one. */
  ghost predicate Survives(signals: seq<Signal>, window: int, i: nat)
    requires i < |signals|
  {
    forall j :: i <= j < |signals| ==> signals[i].timestamp >= signals[j].timestamp - window
  }

  /** The surviving signals among the first `n`, in order: the window stated all at once. */
  ghost function Surviving(signals: seq<Signal>, window: int, n: nat): seq<Signal>
    requires n <= |signals|
  {
    if n == 0 then []
    else Surviving(signals, window, n - 1) + (if Survives(signals, window, n - 1) then [signals[n - 1]] else [])
  }

  lemma {:induction false} SinceConcat(a: seq<Signal>, b: seq<Signal>, cutoff: int)
    ensures Since(a + b, cutoff) == Since(a, cutoff) + Since(b, cutoff)
  {
    if b == [] {
      assert a + b == a;
    } else {
      assert (a + b)[..|a + b| - 1] == a + b[..|b| - 1];
      SinceConcat(a, b[..|b| - 1], cutoff);
    }
  }

  /** Pruning by the newest timestamp turns the survivors of a prefix into those of the whole. */
  lemma {:induction false} PruneSurvivors(signals: seq<Signal>, window: int, n: nat)
    requires n < |signals|
    ensures var last := signals[|signals| - 1];
            Since(Surviving(signals[..|signals| - 1], window, n), last.timestamp - window) ==
            Surviving(signals, window, n)
  {
    var before, last := signals[..|signals| - 1], signals[|signals| - 1];
    var cutoff := last.timestamp - window;
    SurvivingNone(before, window);
    SurvivingNone(signals, window);
    hide *;
    if n == 0 {
      SinceNothing(cutoff);
    } else {
      var e, rest := signals[n - 1], Surviving(before, window, n - 1);
      PruneSurvivors(signals, window, n - 1);
      OneMoreLater(signals, window, n - 1);
      SurvivingStep(before, window, n);
      SurvivingStep(signals, window, n);
      if Survives(before, window, n - 1) {
        SinceMore(rest, e, cutoff);
      }
    }
  }

  lemma SurvivingNone(signals: seq<Signal>, window: int)
    ensures Surviving(signals, window, 0) == []
  {
  }

  lemma SurvivingStep(signals: seq<Signal>, window: int, n: nat)
    requires 0 < n <= |signals|
    ensures Surviving(signals, window, n) ==
            if Survives(signals, window, n - 1) then Surviving(signals, window, n - 1) + [signals[n - 1]]
            else Surviving(signals, window, n - 1)
  {
    hide Survives;
    var before := Surviving(signals, window, n - 1);
    assert before + [] == before;
  }

  /** Surviving one more signal is surviving the earlier ones and that one. */
  lemma OneMoreLater(signals: seq<Signal>, window: int, i: nat)
    requires i + 1 < |signals|
    ensures var n := |signals| - 1;
            Survives(signals, window, i) <==>
            Survives(signals[..n], window, i) && signals[i].timestamp >= signals[n].timestamp - window
  {
    assert forall j :: 0 <= j < |signals| - 1 ==> signals[..|signals| - 1][j] == signals[j];
  }

  lemma SinceNothing(cutoff: int)
    ensures Since([], cutoff) == []
  {
  }

  lemma SinceMore(history: seq<Signal>, e: Signal, cutoff: int)
    ensures Since(history + [e], cutoff) ==
            if e.timestamp >= cutoff then Since(history, cutoff) + [e] else Since(history, cutoff)
  {
    assert (history + [e])[..|history|] == history;
    assert Since(history, cutoff) + [] == Since(history, cutoff);
  }

  /** Whatever the timestamps and the window, the stored history is exactly the surviving signals. */
  lemma {:induction false} HistoryIsWindow(signals: seq<Signal>, window: int)
    ensures Streamed(signals, window) == Surviving(signals, window, |signals|)
  {
    if signals != [] {
      var n := |signals| - 1;
      var before, last := signals[..n], signals[n];
      HistoryIsWindow(before, window);
      SinceConcat(Streamed(before, window), [last], last.timestamp - window);
      PruneSurvivors(signals, window, n);
      assert Since([last], last.timestamp - window) == if Survives(signals, window, n) then [last] else [];
    }
  }

  // ----- the evaluation -----

  predicate Relevant(e: Signal, sourceIp: string, hostId: string) {
    e.sourceIp == sourceIp && (hostId == "*" || e.hostId == hostId)
  }

  function RelevantEvents(history: seq<Signal>, sourceIp: string, hostId: string): seq<Signal> {
    if history == [] then []
    else
      var last := history[|history| - 1];
      RelevantEvents(history[..|history| - 1], sourceIp, hostId) +
      (if Relevant(last, sourceIp, hostId) then [last] else [])
  }

  /** Counted are exactly the signals of the address on the host, or on any host for "*", in their order. */
  lemma RelevantOnFields(history: seq<Signal>, sourceIp: string, hostId: string)
    ensures Selects(history, (e: Signal) => e.sourceIp == sourceIp && (hostId == "*" || e.hostId == hostId),
                    RelevantEvents(history, sourceIp, hostId))
    ensures forall e :: e in RelevantEvents(history, sourceIp, hostId) <==>
                        e in history && e.sourceIp == sourceIp && (hostId == "*" || e.hostId == hostId)
  {
    var wanted := (e: Signal) => e.sourceIp == sourceIp && (hostId == "*" || e.hostId == hostId);
    SelectsRelevant(history, sourceIp, hostId, wanted);
    SelectsMembers(history, wanted, RelevantEvents(history, sourceIp, hostId));
  }

  lemma {:induction false} SelectsRelevant(history: seq<Signal>, sourceIp: string, hostId: string,
                                           wanted: Signal -> bool)
    requires forall e :: wanted(e) <==> e.sourceIp == sourceIp && (hostId == "*" || e.hostId == hostId)
    ensures Selects(history, wanted, RelevantEvents(history, sourceIp, hostId))
  {
    hide Selects;
    if history == [] {
      SelectsNone(wanted);
    } else {
      var short, last := history[..|history| - 1], history[|history| - 1];
      SelectsRelevant(short, sourceIp, hostId, wanted);
      var kept := RelevantEvents(short, sourceIp, hostId);
      SelectsMore(short, last, wanted, kept);
      assert kept + [] == kept;
      assert history == short + [last];
    }
  }

  /** A signal of another address or host changes nothing, wherever in the history it stands. */
  lemma OthersDoNotCount(before: seq<Signal>, e: Signal, after: seq<Signal>, sourceIp: string, hostId: string)
    requires e.sourceIp != sourceIp || (hostId != "*" && e.hostId != hostId)
    ensures Evaluate(before + [e] + after, sourceIp, hostId) == Evaluate(before + after, sourceIp, hostId)
  {
    RelevantConcat(before + [e], after, sourceIp, hostId);
    RelevantConcat(before, [e], sourceIp, hostId);
    RelevantConcat(before, after, sourceIp, hostId);
    var matching := RelevantEvents(before, sourceIp, hostId);
    OneSignal(e, 0, sourceIp, hostId);
    assert matching + [] == matching;
    hide RelevantEvents, ActiveTo, Score, StageIndex, StagesOf;
  }

  function StagesOf(events: seq<Signal>): set<Stage> {
    set e | e in events :: e.stage
  }

  /** The first `n` stages that are in the set, in canonical order. */
  function ActiveTo(stages: set<Stage>, n: nat): seq<Stage>
    requires n <= |ORDERED_STAGES|
  {
    if n == 0 then []
    else ActiveTo(stages, n - 1) + (if ORDERED_STAGES[n - 1] in stages then [ORDERED_STAGES[n - 1]] else [])
  }

  function StageIndex(s: Stage): nat {
    match s
    case Reconnaissance => 0
    case InitialFoothold => 1
    case PrivilegeEscalation => 2
    case PersistenceEstablished => 3
    case LateralMovement => 4
    case DataExfiltration => 5
  }

  /** Seventy points for the stage, six for each event up to thirty. */
  function Score(stageIndex: nat, count: nat): int {
    var stageWeight := (stageIndex + 1) as real / 6.0 * 70.0;
    var countWeight := Min(30.0, count as real * 6.0);
    var rounded := Round(stageWeight + countWeight);
    if rounded < 100 then rounded else 100
  }

  function Evaluate(history: seq<Signal>, sourceIp: string, hostId: string): Progression {
    var events := RelevantEvents(history, sourceIp, hostId);
    var active := ActiveTo(StagesOf(events), |ORDERED_STAGES|);
    var current := if |active| > 0 then active[|active| - 1] else Reconnaissance;
    var score := Score(StageIndex(current), |events|);
    Progression(sourceIp, hostId, active, current, score, |events|, score >= 60)
  }

  /** The active stages are the matching ones, each once, in canonical order. */
  lemma {:induction false} ActiveStages(stages: set<Stage>, n: nat)
    requires n <= |ORDERED_STAGES|
    ensures var active := ActiveTo(stages, n);
            && (forall s :: s in active <==> s in stages && StageIndex(s) < n)
            && (forall i, j :: 0 <= i < j < |active| ==> StageIndex(active[i]) < StageIndex(active[j]))
  {
    if n > 0 {
      ActiveStages(stages, n - 1);
      assert StageIndex(ORDERED_STAGES[n - 1]) == n - 1;
      assert forall s: Stage :: StageIndex(s) == n - 1 ==> s == ORDERED_STAGES[n - 1];
    }
  }

  /** The current stage is the furthest one matched. */
  lemma CurrentIsFurthest(history: seq<Signal>, sourceIp: string, hostId: string)
    ensures var p, stages := Evaluate(history, sourceIp, hostId), StagesOf(RelevantEvents(history, sourceIp, hostId));
            && (forall s :: s in p.activeStages <==> s in stages)
            && (forall s :: s in stages ==> StageIndex(s) <= StageIndex(p.currentStage))
            && (p.currentStage in stages || (stages == {} && p.currentStage == Reconnaissance))
  {
    var stages := StagesOf(RelevantEvents(history, sourceIp, hostId));
    var active := ActiveTo(stages, 6);
    ActiveStages(stages, 6);
    assert forall s: Stage :: StageIndex(s) < 6;
    if active == [] {
      assert forall s :: s in stages ==> s in active;
    } else {
      assert active[|active| - 1] in active;
      forall s | s in stages ensures StageIndex(s) <= StageIndex(active[|active| - 1]) {
        var i :| 0 <= i < |active| && active[i] == s;
      }
    }
  }

  /** The score by stage and number of events: six points for each of the first five events, none after. */
  lemma ScoreTable(stageIndex: nat, count: nat)
    requires stageIndex < 6
    ensures var total := [12, 23, 35, 47, 58, 70][stageIndex] + 6 * (if count < 5 then count else 5);
            Score(stageIndex, count) == if total < 100 then total else 100
  {
    var n := if count < 5 then count else 5;
    assert Min(30.0, count as real * 6.0) == (6 * n) as real;
    var weight := (stageIndex + 1) as real / 6.0 * 70.0;
    RoundShift(weight, 6 * n);
    assert Round(weight) == [12, 23, 35, 47, 58, 70][stageIndex];
  }

  lemma RoundShift(x: real, n: int)
    ensures Round(x + n as real) == Round(x) + n
  {
  }

  /** Scores stay between 12 and 100. */
  lemma ScoreRange(stageIndex: nat, count: nat)
    requires stageIndex < 6
    ensures 12 <= Score(stageIndex, count) <= 100
  {
    RoundMonotone(11.5, (stageIndex + 1) as real / 6.0 * 70.0 + Min(30.0, count as real * 6.0));
  }

  lemma ScoreMonotone(s: nat, t: nat, m: nat, n: nat)
    requires s <= t && m <= n
    ensures Score(s, m) <= Score(t, n)
  {
    RoundMonotone((s + 1) as real / 6.0 * 70.0 + Min(30.0, m as real * 6.0),
                  (t + 1) as real / 6.0 * 70.0 + Min(30.0, n as real * 6.0));
  }

  /** Preemption in terms of the stage reached and the number of events. */
  lemma PreemptionIff(stageIndex: nat, count: nat)
    requires stageIndex < 6 && (stageIndex > 0 ==> count > 0)
    ensures Score(stageIndex, count) >= 60 <==>
            stageIndex >= 4 || (stageIndex == 3 && count >= 3) || (stageIndex == 2 && count >= 5)
  {
    var total := (stageIndex + 1) as real / 6.0 * 70.0 + Min(30.0, count as real * 6.0);
    assert Score(stageIndex, count) >= 60 <==> total >= 59.5;
  }

  /** The same for an evaluation of any history. */
  lemma PreemptedExactlyWhen(history: seq<Signal>, sourceIp: string, hostId: string)
    ensures var p := Evaluate(history, sourceIp, hostId);
            var index := StageIndex(p.currentStage);
            && 12 <= p.score <= 100
            && (p.isPreempted <==>
                index >= 4 || (index == 3 && p.eventCount >= 3) || (index == 2 && p.eventCount >= 5))
  {
    var events := RelevantEvents(history, sourceIp, hostId);
    CurrentIsFurthest(history, sourceIp, hostId);
    var p := Evaluate(history, sourceIp, hostId);
    assert p.currentStage in StagesOf(events) ==> |events| > 0;
    ScoreRange(StageIndex(p.currentStage), |events|);
    PreemptionIff(StageIndex(p.currentStage), |events|);
  }

  lemma {:induction false} RelevantConcat(a: seq<Signal>, b: seq<Signal>, sourceIp: string, hostId: string)
    ensures RelevantEvents(a + b, sourceIp, hostId) ==
            RelevantEvents(a, sourceIp, hostId) + RelevantEvents(b, sourceIp, hostId)
  {
    if b == [] {
      assert a + b == a;
    } else {
      assert (a + b)[..|a + b| - 1] == a + b[..|b| - 1];
      RelevantConcat(a, b[..|b| - 1], sourceIp, hostId);
    }
  }

  // ----- scores over time -----

  /** With more matching events the score does not fall, no stage is dropped, no preemption lifted. */
  lemma MoreEventsScoreMore(history: seq<Signal>, later: seq<Signal>, sourceIp: string, hostId: string)
    requires RelevantEvents(history, sourceIp, hostId) <= RelevantEvents(later, sourceIp, hostId)
    ensures NoLower(Evaluate(history, sourceIp, hostId), Evaluate(later, sourceIp, hostId))
  {
    CurrentIsFurthest(history, sourceIp, hostId);
    CurrentIsFurthest(later, sourceIp, hostId);
    var p, q := Evaluate(history, sourceIp, hostId), Evaluate(later, sourceIp, hostId);
    var small, large := RelevantEvents(history, sourceIp, hostId), RelevantEvents(later, sourceIp, hostId);
    assert forall e :: e in small ==> e in large;
    assert StagesOf(small) <= StagesOf(large);
    ScoreMonotone(StageIndex(p.currentStage), StageIndex(q.currentStage), |small|, |large|);
  }

  ghost predicate NoLower(p: Progression, q: Progression) {
    && p.score <= q.score && p.eventCount <= q.eventCount && (p.isPreempted ==> q.isPreempted)
    && (forall s :: s in p.activeStages ==> s in q.activeStages)
  }

  lemma {:induction false} SinceRelevant(history: seq<Signal>, cutoff: int, sourceIp: string, hostId: string)
    ensures RelevantEvents(Since(history, cutoff), sourceIp, hostId) ==
            Since(RelevantEvents(history, sourceIp, hostId), cutoff)
  {
    if history != [] {
      var short, last := history[..|history| - 1], history[|history| - 1];
      SinceRelevant(short, cutoff, sourceIp, hostId);
      var kept, matching := Since(short, cutoff), RelevantEvents(short, sourceIp, hostId);
      RelevantConcat(kept, if last.timestamp >= cutoff then [last] else [], sourceIp, hostId);
      SinceConcat(matching, if Relevant(last, sourceIp, hostId) then [last] else [], cutoff);
      OneSignal(last, cutoff, sourceIp, hostId);
    }
  }

  lemma OneSignal(e: Signal, cutoff: int, sourceIp: string, hostId: string)
    ensures Since([e], cutoff) == if e.timestamp >= cutoff then [e] else []
    ensures RelevantEvents([e], sourceIp, hostId) == if Relevant(e, sourceIp, hostId) then [e] else []
    ensures Since([], cutoff) == [] && RelevantEvents([], sourceIp, hostId) == []
  {
    assert [e][..0] == [];
  }

  /** None of these signals falls behind a later one by more than the window. */
  ghost predicate StaysInWindow(events: seq<Signal>, more: seq<Signal>, window: int) {
    forall j :: 0 <= j < |more| ==> AllSince(events, more[j].timestamp - window)
  }

  lemma StaysMore(events: seq<Signal>, more: seq<Signal>, m: Signal, window: int)
    ensures StaysInWindow(events, more + [m], window) <==>
            StaysInWindow(events, more, window) && AllSince(events, m.timestamp - window)
  {
    hide AllSince;
    var longer := more + [m];
    assert longer[|more|] == m && forall j :: 0 <= j < |more| ==> longer[j] == more[j];
  }

  /** Matching signals that stay in the window stay in front of the stored matching signals. */
  lemma {:induction false} MatchesStay(signals: seq<Signal>, more: seq<Signal>, window: int, sourceIp: string,
                                       hostId: string)
    requires StaysInWindow(RelevantEvents(Streamed(signals, window), sourceIp, hostId), more, window)
    ensures RelevantEvents(Streamed(signals, window), sourceIp, hostId)
         <= RelevantEvents(Streamed(signals + more, window), sourceIp, hostId)
  {
    if more == [] {
      assert signals + more == signals;
    } else {
      var short, m := more[..|more| - 1], more[|more| - 1];
      assert more == short + [m] && signals + more == signals + short + [m];
      var kept := RelevantEvents(Streamed(signals, window), sourceIp, hostId);
      hide *;
      StaysMore(kept, short, m, window);
      MatchesStay(signals, short, window, sourceIp, hostId);
      OneMoreStays(signals + short, m, window, sourceIp, hostId, kept);
    }
  }

  lemma OneMoreStays(signals: seq<Signal>, m: Signal, window: int, sourceIp: string, hostId: string, kept: seq<Signal>)
    requires kept <= RelevantEvents(Streamed(signals, window), sourceIp, hostId)
    requires AllSince(kept, m.timestamp - window)
    ensures kept <= RelevantEvents(Streamed(signals + [m], window), sourceIp, hostId)
  {
    var cutoff, was := m.timestamp - window, RelevantEvents(Streamed(signals, window), sourceIp, hostId);
    hide *;
    StreamedStep(signals, m, window);
    SinceRelevant(Streamed(signals, window) + [m], cutoff, sourceIp, hostId);
    RelevantConcat(Streamed(signals, window), [m], sourceIp, hostId);
    SinceKeepsFront(kept, was, RelevantEvents([m], sourceIp, hostId), cutoff);
  }

  lemma SinceKeepsFront(kept: seq<Signal>, was: seq<Signal>, added: seq<Signal>, cutoff: int)
    requires kept <= was && AllSince(kept, cutoff)
    ensures kept <= Since(was + added, cutoff)
  {
    hide Since;
    var rest := was[|kept|..] + added;
    assert was + added == kept + rest;
    SinceConcat(kept, rest, cutoff);
    SinceAll(kept, cutoff);
  }

  /** While no matching signal leaves the window, recording further signals never lowers the score,
      drops a stage or lifts a preemption, whatever else is pruned. */
  lemma ScoreNeverFalls(signals: seq<Signal>, more: seq<Signal>, window: int, sourceIp: string, hostId: string)
    requires StaysInWindow(RelevantEvents(Streamed(signals, window), sourceIp, hostId), more, window)
    ensures NoLower(Evaluate(Streamed(signals, window), sourceIp, hostId),
                    Evaluate(Streamed(signals + more, window), sourceIp, hostId))
  {
    MatchesStay(signals, more, window, sourceIp, hostId);
    MoreEventsScoreMore(Streamed(signals, window), Streamed(signals + more, window), sourceIp, hostId);
  }

  /** No stored signal, and none of those recorded next, falls behind a later one by more than the window. */
  ghost predicate AllStay(stored: seq<Signal>, more: seq<Signal>, window: int) {
    forall j :: 0 <= j < |more| ==> AllSince(stored + more[..j + 1], more[j].timestamp - window)
  }

  lemma AllStayStep(stored: seq<Signal>, short: seq<Signal>, m: Signal, window: int)
    ensures AllStay(stored, short + [m], window) <==>
            AllStay(stored, short, window) && AllSince(stored + (short + [m]), m.timestamp - window)
  {
    hide AllSince;
    var more, n := short + [m], |short|;
    assert more[n] == m && more[..n + 1] == more;
    assert forall j :: 0 <= j < n ==> more[j] == short[j] && more[..j + 1] == short[..j + 1];
    if AllStay(stored, more, window) {
      assert AllSince(stored + more[..n + 1], more[n].timestamp - window);
      forall j | 0 <= j < n ensures AllSince(stored + short[..j + 1], short[j].timestamp - window) {
        assert AllSince(stored + more[..j + 1], more[j].timestamp - window);
      }
    }
    if AllStay(stored, short, window) && AllSince(stored + more, m.timestamp - window) {
      forall j | 0 <= j < |more| ensures AllSince(stored + more[..j + 1], more[j].timestamp - window) {
        assert j < n ==> AllSince(stored + short[..j + 1], short[j].timestamp - window);
      }
    }
  }

  lemma PruneStep(before: seq<Signal>, stored: seq<Signal>, short: seq<Signal>, m: Signal, cutoff: int)
    requires |before| <= |stored| + |short|
    ensures Since(before + [m], cutoff) == stored + (short + [m]) <==>
            before == stored + short && AllSince(stored + (short + [m]), cutoff)
    ensures |Since(before + [m], cutoff)| <= |stored| + |short + [m]|
  {
    hide Since, AllSince;
    SinceAll(before + [m], cutoff);
    var all := stored + (short + [m]);
    assert all == stored + short + [m];
    if before + [m] == all {
      assert before == (before + [m])[..|before|] == all[..|before|] == stored + short;
    }
  }

  lemma OneAfter(signals: seq<Signal>, more: seq<Signal>)
    requires more != []
    ensures var short, m := more[..|more| - 1], more[|more| - 1];
            more == short + [m] && signals + more == signals + short + [m]
  {
  }

  /** Nothing at all is pruned while further signals are recorded exactly when all of them stay. */
  lemma {:induction false} NothingPrunedIff(signals: seq<Signal>, more: seq<Signal>, window: int)
    ensures Streamed(signals + more, window) == Streamed(signals, window) + more <==>
            AllStay(Streamed(signals, window), more, window)
    ensures |Streamed(signals + more, window)| <= |Streamed(signals, window)| + |more|
  {
    hide *;
    var stored := Streamed(signals, window);
    if more == [] {
      NothingAfter(signals, stored, window);
    } else {
      var short, m := more[..|more| - 1], more[|more| - 1];
      NothingPrunedIff(signals, short, window);
      var before := Streamed(signals + short, window);
      OneAfter(signals, more);
      StreamedStep(signals + short, m, window);
      AllStayStep(stored, short, m, window);
      PruneStep(before, stored, short, m, m.timestamp - window);
      assert Streamed(signals + more, window) == Since(before + [m], m.timestamp - window);
    }
  }

  lemma NothingAfter(signals: seq<Signal>, stored: seq<Signal>, window: int)
    ensures signals + [] == signals && stored + [] == stored && AllStay(stored, [], window)
  {
  }

  // ----- the correlator -----

  class Correlator {
    var eventHistory: seq<Signal>
    var windowDurationMs: int

    /** `None` and zero leave the default window. */
    constructor (window: int)
      ensures eventHistory == []
      ensures windowDurationMs == if window != 0 then window else 1800000
    {
      eventHistory := [];
      windowDurationMs := if window != 0 then window else DEFAULT_WINDOW_MS;
    }

    method PruneOldEvents(now: int)
      modifies this`eventHistory
      ensures eventHistory == Since(old(eventHistory), now - windowDurationMs)
      ensures forall e :: e in eventHistory <==> e in old(eventHistory) && e.timestamp >= now - windowDurationMs
    {
      var cutoff := now - windowDurationMs;
      forall e {
        SinceMembers(eventHistory, cutoff, e);
      }
      eventHistory := Since(eventHistory, cutoff);
    }

    /** `signals` are all the signals recorded since the last clear. */
    method RecordSignal(signal: Signal, ghost signals: seq<Signal>) returns (p: Progression)
      requires eventHistory == Streamed(signals, windowDurationMs)
      modifies this`eventHistory
      ensures eventHistory == Streamed(signals + [signal], windowDurationMs)
      ensures p == Evaluate(eventHistory, signal.sourceIp, signal.hostId)
    {
      hide *;
      StreamedStep(signals, signal, windowDurationMs);
      eventHistory := eventHistory + [signal];
      PruneOldEvents(signal.timestamp);
      p := EvaluateChain(signal.sourceIp, signal.hostId);
    }

    method EvaluateChain(sourceIp: string, hostId: string) returns (p: Progression)
      ensures p == Evaluate(eventHistory, sourceIp, hostId)
    {
      var relevantEvents := RelevantEvents(eventHistory, sourceIp, hostId);
      var stagesSet: set<Stage> := {};
      for k := 0 to |relevantEvents|
        invariant stagesSet == StagesOf(relevantEvents[..k])
      {
        stagesSet := stagesSet + {relevantEvents[k].stage};
        assert relevantEvents[..k + 1] == relevantEvents[..k] + [relevantEvents[k]];
      }
      assert relevantEvents[..|relevantEvents|] == relevantEvents;
      var activeStages := ActiveTo(stagesSet, |ORDERED_STAGES|);
      var currentStage := if |activeStages| > 0 then activeStages[|activeStages| - 1] else Reconnaissance;
      var score := Score(StageIndex(currentStage), |relevantEvents|);
      p := Progression(sourceIp, hostId, activeStages, currentStage, score, |relevantEvents|, score >= 60);
    }

    method Clear()
      modifies this`eventHistory
      ensures eventHistory == Streamed([], windowDurationMs)
    {
      eventHistory := [];
    }
  }
}
