/** The ledger of remedy trials, and the weights it derives from them. */
module ExperienceLedger {
  import opened Numbers
  import opened Sorting
  import opened Sums
  import opened Selections

  datatype Trial = Trial(
    fingerprint: string,
    archetype: string,
    action: string,
    command: string,
    success: bool,
    durationMs: real,
    timestamp: int)

  datatype Scoring = Scoring(action: string, successRate: real, totalTrials: nat, averageLatencyMs: int, weight: real)

  predicate Matches(t: Trial, fingerprint: string, archetype: string) {
    t.fingerprint == fingerprint && (archetype == "*" || t.archetype == archetype)
  }

  function Relevant(trials: seq<Trial>, fingerprint: string, archetype: string): seq<Trial> {
    if trials == [] then []
    else
      var last := trials[|trials| - 1];
      Relevant(trials[..|trials| - 1], fingerprint, archetype) +
      (if Matches(last, fingerprint, archetype) then [last] else [])
  }

  /** The actions tried, each once, in the order first tried. */
  function Actions(ts: seq<Trial>): seq<string> {
    if ts == [] then []
    else
      var before, action := Actions(ts[..|ts| - 1]), ts[|ts| - 1].action;
      if action in before then before else before + [action]
  }

  function Of(ts: seq<Trial>, action: string): seq<Trial> {
    if ts == [] then []
    else
      var last := ts[|ts| - 1];
      Of(ts[..|ts| - 1], action) + (if last.action == action then [last] else [])
  }

  function Successes(ts: seq<Trial>): nat {
    if ts == [] then 0 else Successes(ts[..|ts| - 1]) + (if ts[|ts| - 1].success then 1 else 0)
  }

  function Latency(ts: seq<Trial>): real {
    if ts == [] then 0.0 else Latency(ts[..|ts| - 1]) + ts[|ts| - 1].durationMs
  }

  /** Seven tenths for the success rate, three tenths for up to five trials, in hundredths. */
  function Weight(successes: nat, n: nat): real
    requires n > 0
  {
    Round2(successes as real / n as real * 0.7 + Min(1.0, n as real / 5.0) * 0.3)
  }

  function ScoreOf(action: string, ts: seq<Trial>): Scoring
    requires ts != []
  {
    var n := |ts|;
    Scoring(action, Successes(ts) as real / n as real, n, Round(Latency(ts) / n as real), Weight(Successes(ts), n))
  }

  /** The scores of the first `n` actions. */
  function ScoresTo(ts: seq<Trial>, actions: seq<string>): seq<Scoring>
    requires forall k :: 0 <= k < |actions| ==> Of(ts, actions[k]) != []
  {
    seq(|actions|, k requires 0 <= k < |actions| => ScoreOf(actions[k], Of(ts, actions[k])))
  }

  function WeightOf(s: Scoring): real {
    s.weight
  }

  lemma {:induction false} ActionsAreTried(ts: seq<Trial>)
    ensures forall a :: a in Actions(ts) <==> Of(ts, a) != []
    ensures forall i, j :: 0 <= i < j < |Actions(ts)| ==> Actions(ts)[i] != Actions(ts)[j]
  {
    if ts != [] {
      ActionsAreTried(ts[..|ts| - 1]);
    }
  }

  /** The actions are listed in the order in which the trials first name them. */
  lemma {:induction false} ActionsInOrder(ts: seq<Trial>)
    ensures FirstOccurrences(Named(ts), Actions(ts))
  {
    hide FirstOccurrences;
    if ts == [] {
      FirstsNone(Named(ts));
    } else {
      var n := |ts| - 1;
      ActionsInOrder(ts[..n]);
      ActionsAreTried(ts[..n]);
      NamedMembers(ts[..n], ts[n].action);
      FirstsMore(Named(ts[..n]), ts[n].action, Actions(ts[..n]));
      assert Named(ts) == Named(ts[..n]) + [ts[n].action];
    }
  }

  function Named(ts: seq<Trial>): seq<string> {
    seq(|ts|, i requires 0 <= i < |ts| => ts[i].action)
  }

  lemma {:induction false} NamedMembers(ts: seq<Trial>, action: string)
    ensures action in Named(ts) <==> action in Actions(ts)
  {
    if ts != [] {
      var n := |ts| - 1;
      NamedMembers(ts[..n], action);
      assert Named(ts) == Named(ts[..n]) + [ts[n].action];
    }
  }

  /** All remedies scored for a fingerprint and archetype, best weight first. */
  function RemedyWeights(trials: seq<Trial>, fingerprint: string, archetype: string): seq<Scoring> {
    var ts := Relevant(trials, fingerprint, archetype);
    ActionsAreTried(ts);
    SortDescending(ScoresTo(ts, Actions(ts)), WeightOf)
  }

  lemma NoGroups(ts: seq<Trial>)
    ensures Actions(ts[..0]) == [] && forall a :: Of(ts[..0], a) == []
  {
  }

  lemma GroupStep(ts: seq<Trial>, k: nat)
    requires k < |ts|
    ensures var t := ts[k];
            && Actions(ts[..k + 1]) == (if t.action in Actions(ts[..k]) then Actions(ts[..k])
                                        else Actions(ts[..k]) + [t.action])
            && Of(ts[..k + 1], t.action) == Of(ts[..k], t.action) + [t]
            && forall a :: a != t.action ==> Of(ts[..k + 1], a) == Of(ts[..k], a)
  {
    assert ts[..k + 1][..k] == ts[..k];
    forall a | a != ts[k].action ensures Of(ts[..k + 1], a) == Of(ts[..k], a) {
      assert Of(ts[..k], a) + [] == Of(ts[..k], a);
    }
  }

  class ExperienceReplayLedger {
    var trials: seq<Trial>

    constructor ()
      ensures trials == []
    {
      trials := [];
    }

    method RecordTrial(trial: Trial, now: int)
      modifies this
      ensures trials == old(trials) + [trial.(timestamp := now)]
    {
      trials := trials + [trial.(timestamp := now)];
    }

    method EvaluateRemedyWeights(fingerprint: string, archetype: string) returns (scores: seq<Scoring>)
      ensures scores == RemedyWeights(trials, fingerprint, archetype)
    {
      var relevant := Relevant(trials, fingerprint, archetype);
      ActionsAreTried(relevant);
      if |relevant| == 0 {
        return [];
      }
      hide Of, Actions, SortDescending, ScoreOf;
      var order, groups := GroupByAction(relevant);
      scores := [];
      ghost var expected := ScoresTo(relevant, order);
      for k := 0 to |order|
        invariant |scores| == k && forall i :: 0 <= i < k ==> scores[i] == expected[i]
      {
        var list := groups[order[k]];
        var score := EvaluateAction(order[k], list);
        scores := scores + [score];
      }
      assert scores == expected;
      scores := SortDescending(scores, WeightOf);
    }

    /** The trials of each action, and the actions in the order first met. */
    method GroupByAction(relevant: seq<Trial>) returns (order: seq<string>, groups: map<string, seq<Trial>>)
      ensures order == Actions(relevant)
      ensures forall a :: a in groups <==> a in order
      ensures forall a :: a in groups ==> groups[a] == Of(relevant, a)
    {
      hide Of, Actions;
      order, groups := [], map[];
      NoGroups(relevant);
      for k := 0 to |relevant|
        invariant order == Actions(relevant[..k])
        invariant forall a :: a in groups <==> a in order
        invariant forall a :: Of(relevant[..k], a) == if a in groups then groups[a] else []
      {
        var t := relevant[k];
        GroupStep(relevant, k);
        var list := if t.action in groups then groups[t.action] else [];
        if t.action !in groups {
          order := order + [t.action];
        }
        groups := groups[t.action := list + [t]];
      }
      assert relevant[..|relevant|] == relevant;
    }

    method EvaluateAction(action: string, list: seq<Trial>) returns (s: Scoring)
      requires list != []
      ensures s == ScoreOf(action, list)
    {
      var successes, totalLatency := 0, 0.0;
      for k := 0 to |list|
        invariant successes == Successes(list[..k]) && totalLatency == Latency(list[..k])
      {
        assert list[..k + 1][..k] == list[..k];
        if list[k].success {
          successes := successes + 1;
        }
        totalLatency := totalLatency + list[k].durationMs;
      }
      assert list[..|list|] == list;
      var rate := successes as real / |list| as real;
      var avgLatency := Round(totalLatency / |list| as real);
      var sampleConfidence := Min(1.0, |list| as real / 5.0);
      var weight := Round2(rate * 0.7 + sampleConfidence * 0.3);
      s := Scoring(action, rate, |list|, avgLatency, weight);
    }

    method Clear()
      modifies this
      ensures trials == []
    {
      trials := [];
    }
  }

  // ----- what the scores mean -----

  function TrialsOf(s: Scoring): real {
    s.totalTrials as real
  }

  lemma {:induction false} OfFits(ts: seq<Trial>, action: string)
    ensures |Of(ts, action)| <= |ts| && Successes(Of(ts, action)) <= |Of(ts, action)|
  {
    if ts != [] {
      OfFits(ts[..|ts| - 1], action);
      var rest := Of(ts[..|ts| - 1], action);
      assert (rest + [ts[|ts| - 1]])[..|rest|] == rest;
      assert rest + [] == rest;
    }
  }

  function GroupSizes(ts: seq<Trial>, actions: seq<string>): nat {
    if actions == [] then 0
    else GroupSizes(ts, actions[..|actions| - 1]) + |Of(ts, actions[|actions| - 1])|
  }

  lemma GroupSizeStep(ts: seq<Trial>, actions: seq<string>, action: string)
    ensures GroupSizes(ts, actions + [action]) == GroupSizes(ts, actions) + |Of(ts, action)|
  {
    assert (actions + [action])[..|actions|] == actions;
  }

  /** One more trial lengthens the group of its action, wherever that is listed, by one. */
  lemma {:induction false} OneMoreTrial(ts: seq<Trial>, t: Trial, actions: seq<string>)
    requires forall i, j :: 0 <= i < j < |actions| ==> actions[i] != actions[j]
    ensures GroupSizes(ts + [t], actions) == GroupSizes(ts, actions) + (if t.action in actions then 1 else 0)
  {
    if actions != [] {
      var short, last := actions[..|actions| - 1], actions[|actions| - 1];
      OneMoreTrial(ts, t, short);
      assert (ts + [t])[..|ts|] == ts;
      assert actions == short + [last];
      assert t.action in actions <==> t.action in short || t.action == last;
    }
  }

  lemma {:induction false} GroupsPartition(ts: seq<Trial>)
    ensures GroupSizes(ts, Actions(ts)) == |ts|
  {
    if ts != [] {
      var short, t := ts[..|ts| - 1], ts[|ts| - 1];
      hide *;
      GroupsPartition(short);
      ActionsAreTried(short);
      OneMoreTrial(short, t, Actions(short));
      assert short + [t] == ts && ts[..|short| + 1] == ts;
      GroupStep(ts, |short|);
      if t.action !in Actions(short) {
        assert Of(short, t.action) == [];
        GroupSizeStep(ts, Actions(short), t.action);
      }
    }
  }

  lemma {:induction false} TotalIsGroupSizes(ts: seq<Trial>, actions: seq<string>)
    requires forall k :: 0 <= k < |actions| ==> Of(ts, actions[k]) != []
    ensures Total(ScoresTo(ts, actions), TrialsOf) == GroupSizes(ts, actions) as real
  {
    if actions != [] {
      var short := actions[..|actions| - 1];
      TotalIsGroupSizes(ts, short);
      assert ScoresTo(ts, actions)[..|actions| - 1] == ScoresTo(ts, short);
    }
  }

  lemma WeightRange(successes: nat, n: nat)
    requires 0 < n && successes <= n
    ensures 0.06 <= Weight(successes, n) <= 1.0
  {
    RateRange(successes, n);
    Round2Within(6, successes as real / n as real * 0.7 + Min(1.0, n as real / 5.0) * 0.3, 100);
  }

  /** A score of the list is the score of one of the actions, and each action has one. */
  lemma ScoreRow(ts: seq<Trial>, s: Scoring)
    requires forall a :: a in Actions(ts) <==> Of(ts, a) != []
    requires s in ScoresTo(ts, Actions(ts))
    ensures s.action in Actions(ts) && s == ScoreOf(s.action, Of(ts, s.action)) && 0.06 <= s.weight <= 1.0
  {
    var j :| 0 <= j < |ScoresTo(ts, Actions(ts))| && ScoresTo(ts, Actions(ts))[j] == s;
    var group := Of(ts, Actions(ts)[j]);
    OfFits(ts, Actions(ts)[j]);
    WeightRange(Successes(group), |group|);
  }

  /** One score for each action tried, accounting for every matching trial, weights between 0.06 and
      1, best first. */
  lemma ScoresAccountForAllTrials(trials: seq<Trial>, fingerprint: string, archetype: string)
    ensures var ts, scores := Relevant(trials, fingerprint, archetype), RemedyWeights(trials, fingerprint, archetype);
            && |scores| == |Actions(ts)| && Total(scores, TrialsOf) == |ts| as real
            && (forall a :: a in Actions(ts) ==> exists k :: 0 <= k < |scores| && scores[k].action == a)
            && (forall i, j :: 0 <= i < j < |scores| ==> scores[i].weight >= scores[j].weight)
            && (forall k :: 0 <= k < |scores| ==>
                              && 0.06 <= scores[k].weight <= 1.0 && Of(ts, scores[k].action) != []
                              && scores[k] == ScoreOf(scores[k].action, Of(ts, scores[k].action)))
  {
    hide Of, Actions, ScoreOf, Total, SortDescending, Relevant;
    var ts := Relevant(trials, fingerprint, archetype);
    ActionsAreTried(ts);
    var actions := Actions(ts);
    var unsorted, scores := ScoresTo(ts, actions), RemedyWeights(trials, fingerprint, archetype);
    SortIsStable(unsorted, WeightOf);
    hide Descending, RemedyWeights, ScoresTo, WeightOf;
    TotalPermutes(scores, unsorted, TrialsOf);
    TotalIsGroupSizes(ts, actions);
    GroupsPartition(ts);
    SameMembers(scores, unsorted);
    forall k | 0 <= k < |scores|
      ensures && 0.06 <= scores[k].weight <= 1.0 && Of(ts, scores[k].action) != []
              && scores[k] == ScoreOf(scores[k].action, Of(ts, scores[k].action))
    {
      ScoreRow(ts, scores[k]);
    }
    ScoresByAction(ts, actions, scores);
    ByWeight(scores);
  }

  lemma ByWeight(scores: seq<Scoring>)
    requires Descending(scores, WeightOf)
    ensures forall i, j :: 0 <= i < j < |scores| ==> scores[i].weight >= scores[j].weight
  {
    forall i, j | 0 <= i < j < |scores| ensures scores[i].weight >= scores[j].weight {
      assert WeightOf(scores[i]) >= WeightOf(scores[j]);
    }
  }

  lemma ScoresByAction(ts: seq<Trial>, actions: seq<string>, scores: seq<Scoring>)
    requires forall k :: 0 <= k < |actions| ==> Of(ts, actions[k]) != []
    requires forall k :: 0 <= k < |actions| ==> ScoresTo(ts, actions)[k] in scores
    ensures forall a :: a in actions ==> exists k :: 0 <= k < |scores| && scores[k].action == a
  {
    hide Of, ScoreOf;
    forall a | a in actions ensures exists k :: 0 <= k < |scores| && scores[k].action == a {
      var j :| 0 <= j < |actions| && actions[j] == a;
      ScoreNames(a, Of(ts, a));
      assert ScoresTo(ts, actions)[j] in scores;
      var k :| 0 <= k < |scores| && scores[k] == ScoresTo(ts, actions)[j];
    }
  }

  lemma ScoreNames(action: string, ts: seq<Trial>)
    requires ts != []
    ensures ScoreOf(action, ts).action == action
  {
  }

  // ----- the scores in terms of the trials -----

  /** The trials scored for an action: those of the fingerprint and of the archetype, or of any archetype
      for "*", in their order. */
  ghost predicate IsGroup(trials: seq<Trial>, fingerprint: string, archetype: string, action: string,
                          group: seq<Trial>)
  {
    Selects(trials, (t: Trial) => t.fingerprint == fingerprint && (archetype == "*" || t.archetype == archetype)
                                  && t.action == action, group)
  }

  lemma {:induction false} GroupOnFields(trials: seq<Trial>, fingerprint: string, archetype: string, action: string,
                                         wanted: Trial -> bool)
    requires forall t :: wanted(t) <==> t.fingerprint == fingerprint && (archetype == "*" || t.archetype == archetype)
                                        && t.action == action
    ensures Selects(trials, wanted, Of(Relevant(trials, fingerprint, archetype), action))
  {
    hide Selects;
    if trials == [] {
      SelectsNone(wanted);
    } else {
      var short, last := trials[..|trials| - 1], trials[|trials| - 1];
      GroupOnFields(short, fingerprint, archetype, action, wanted);
      var matching := Relevant(short, fingerprint, archetype);
      var kept := Of(matching, action);
      SelectsMore(short, last, wanted, kept);
      assert trials == short + [last] && kept + [] == kept && matching + [] == matching;
      assert (matching + [last])[..|matching|] == matching;
    }
  }

  lemma {:induction false} SuccessesAreNumbered(ts: seq<Trial>, succeeded: Trial -> bool, duration: Trial -> real)
    requires forall t :: succeeded(t) <==> t.success
    requires forall t :: duration(t) == t.durationMs
    ensures Successes(ts) == Number(ts, succeeded) && Latency(ts) == Total(ts, duration)
  {
    hide Number;
    if ts == [] {
      NumberNone(ts, succeeded);
    } else {
      var short, last := ts[..|ts| - 1], ts[|ts| - 1];
      SuccessesAreNumbered(short, succeeded, duration);
      assert ts == short + [last];
      NumberMore(short, last, succeeded);
    }
  }

  /** The score of a group of trials: its share of successes, its mean duration to the millisecond, and to
      the hundredth seven tenths of that share plus six hundredths for each of up to five trials. */
  ghost predicate IsScore(s: Scoring, group: seq<Trial>) {
    var n := |group|;
    && n > 0 && s.totalTrials == n
    && s.successRate * n as real == Number(group, (t: Trial) => t.success) as real
    && Nearest(s.averageLatencyMs, Total(group, (t: Trial) => t.durationMs) / n as real)
    && Hundredths(s.weight, 70.0 * s.successRate + 6.0 * (if n < 5 then n else 5) as real)
  }

  /** `weight` is the number of hundredths nearest to `exact` hundredths. */
  ghost predicate Hundredths(weight: real, exact: real) {
    exists h :: Nearest(h, exact) && weight * 100.0 == h as real
  }

  predicate Nearest(n: int, x: real) {
    n as real - 0.5 <= x < n as real + 0.5
  }

  lemma ScoreOnGroup(action: string, group: seq<Trial>)
    requires group != []
    ensures IsScore(ScoreOf(action, group), group)
  {
    SuccessesAreNumbered(group, (t: Trial) => t.success, (t: Trial) => t.durationMs);
    hide Number, Total, Successes, Latency;
    var s, n := ScoreOf(action, group), |group|;
    var exact := s.successRate * 0.7 + Min(1.0, n as real / 5.0) * 0.3;
    assert s.weight * 100.0 == Round(exact * 100.0) as real;
    assert exact * 100.0 == 70.0 * s.successRate + 6.0 * (if n < 5 then n else 5) as real;
    assert Nearest(Round(exact * 100.0), exact * 100.0);
  }

  /** What is returned are scores of groups of the recorded trials, told by their fields. */
  lemma ScoreOnTrials(trials: seq<Trial>, fingerprint: string, archetype: string, s: Scoring)
    requires s in RemedyWeights(trials, fingerprint, archetype)
    ensures exists group :: IsGroup(trials, fingerprint, archetype, s.action, group) && IsScore(s, group)
  {
    hide Of, ScoreOf, Relevant, Selects, IsScore, Total;
    var scores := RemedyWeights(trials, fingerprint, archetype);
    ScoresAccountForAllTrials(trials, fingerprint, archetype);
    var k :| 0 <= k < |scores| && scores[k] == s;
    var group := Of(Relevant(trials, fingerprint, archetype), s.action);
    ScoreOnGroup(s.action, group);
    GroupOnFields(trials, fingerprint, archetype, s.action,
                  (t: Trial) => t.fingerprint == fingerprint && (archetype == "*" || t.archetype == archetype)
                                && t.action == s.action);
  }

  // ----- what a new trial does -----

  /** A further success never lowers the weight. */
  lemma SuccessNeverLowers(s: nat, n: nat)
    requires 0 < n && s <= n
    ensures Weight(s, n) <= Weight(s + 1, n + 1)
  {
    Fractions(s, n, s + 1, n + 1);
    Round2Monotone(s as real / n as real * 0.7 + Min(1.0, n as real / 5.0) * 0.3,
                   (s + 1) as real / (n + 1) as real * 0.7 + Min(1.0, (n + 1) as real / 5.0) * 0.3);
  }

  lemma FailureAfterFew(s: nat, n: nat)
    requires 0 < n < 5 && s <= n
    ensures Weight(s, n + 1) <= Weight(s, n) <==> s >= 2 || (s == 1 && n <= 2)
  {
    if n == 1 {
      FailureAfterOne(s);
    } else if n == 2 {
      FailureAfterTwo(s);
    } else if n == 3 {
      FailureAfterThree(s);
    } else {
      FailureAfterFour(s);
    }
  }

  lemma FailureAfterOne(s: nat)
    requires s <= 1
    ensures Weight(s, 1 + 1) <= Weight(s, 1) <==> s == 1
  {
    assert Weight(s, 1) == if s == 0 then 0.06 else 0.76;
    assert Weight(s, 2) == if s == 0 then 0.12 else 0.47;
  }

  lemma FailureAfterTwo(s: nat)
    requires s <= 2
    ensures Weight(s, 2 + 1) <= Weight(s, 2) <==> s >= 1
  {
    assert Weight(s, 2) == if s == 0 then 0.12 else if s == 1 then 0.47 else 0.82;
    assert Weight(s, 3) == if s == 0 then 0.18 else if s == 1 then 0.41 else 0.65;
  }

  lemma FailureAfterThree(s: nat)
    requires s <= 3
    ensures Weight(s, 3 + 1) <= Weight(s, 3) <==> s >= 2
  {
    assert Weight(s, 3) == if s == 0 then 0.18 else if s == 1 then 0.41 else if s == 2 then 0.65 else 0.88;
    assert Weight(s, 4) == if s == 0 then 0.24 else if s == 1 then 0.42 else if s == 2 then 0.59 else 0.77;
  }

  lemma FailureAfterFour(s: nat)
    requires s <= 4
    ensures Weight(s, 4 + 1) <= Weight(s, 4) <==> s >= 2
  {
    FourTrials(s);
    FiveTrials(s);
    hide Weight;
    assert s == 0 || s == 1 || s == 2 || s == 3 || s == 4;
  }

  lemma FourTrials(s: nat)
    requires s <= 4
    ensures Weight(s, 4) == [0.24, 0.42, 0.59, 0.77, 0.94][s]
  {
  }

  lemma FiveTrials(s: nat)
    requires s <= 4
    ensures Weight(s, 5) == [0.3, 0.44, 0.58, 0.72, 0.86][s]
  {
  }

  /** A further failure leaves the weight where it is or lowers it exactly when there are five trials
      already, or enough successes for the lower rate to outweigh the larger sample. */
  lemma FailureNeverRaisesIff(s: nat, n: nat)
    requires 0 < n && s <= n
    ensures Weight(s, n + 1) <= Weight(s, n) <==> n >= 5 || s >= 2 || (s == 1 && n <= 2)
  {
    if n >= 5 {
      assert s * n <= s * (n + 1);
      Fractions(s, n + 1, s, n);
      Round2Monotone(s as real / (n + 1) as real * 0.7 + Min(1.0, (n + 1) as real / 5.0) * 0.3,
                     s as real / n as real * 0.7 + Min(1.0, n as real / 5.0) * 0.3);
    } else {
      FailureAfterFew(s, n);
    }
  }

  lemma {:induction false} SuccessesFit(ts: seq<Trial>)
    ensures Successes(ts) <= |ts|
  {
    if ts != [] {
      SuccessesFit(ts[..|ts| - 1]);
    }
  }

  lemma NewTrialJoinsGroup(trials: seq<Trial>, t: Trial, fingerprint: string, archetype: string)
    requires Matches(t, fingerprint, archetype)
    ensures var before := Relevant(trials, fingerprint, archetype);
            var after := Relevant(trials + [t], fingerprint, archetype);
            && Of(after, t.action) == Of(before, t.action) + [t]
            && forall a :: a != t.action ==> Of(after, a) == Of(before, a)
  {
    hide Of;
    var before := Relevant(trials, fingerprint, archetype);
    assert (trials + [t])[..|trials|] == trials;
    var after := before + [t];
    assert after[..|before|] == before && after[..|before| + 1] == after;
    GroupStep(after, |before|);
  }

  lemma OneMoreSuccess(ts: seq<Trial>, t: Trial)
    ensures Successes(ts + [t]) == Successes(ts) + (if t.success then 1 else 0)
  {
    assert (ts + [t])[..|ts|] == ts;
  }

  /** Recording a matching trial moves the score of its action only: a success never lowers its weight,
      a failure raises it only while there are few trials and few successes. */
  lemma NewTrialMovesOneWeight(trials: seq<Trial>, t: Trial, fingerprint: string, archetype: string)
    requires Matches(t, fingerprint, archetype)
    requires Of(Relevant(trials, fingerprint, archetype), t.action) != []
    ensures var before := Relevant(trials, fingerprint, archetype);
            var after := Relevant(trials + [t], fingerprint, archetype);
            var group := Of(before, t.action);
            var s, n, now := Successes(group), |group|, Of(after, t.action);
            && now == group + [t]
            && (forall a :: a != t.action ==> Of(after, a) == Of(before, a))
            && (t.success ==> ScoreOf(t.action, group).weight <= ScoreOf(t.action, now).weight)
            && (!t.success ==>
                  (ScoreOf(t.action, now).weight <= ScoreOf(t.action, group).weight <==>
                   n >= 5 || s >= 2 || (s == 1 && n <= 2)))
  {
    hide Weight, Of, Relevant, Successes, Latency, Round;
    var before := Relevant(trials, fingerprint, archetype);
    NewTrialJoinsGroup(trials, t, fingerprint, archetype);
    var group := Of(before, t.action);
    OneMoreSuccess(group, t);
    SuccessesFit(group);
    if t.success {
      SuccessNeverLowers(Successes(group), |group|);
    } else {
      FailureNeverRaisesIff(Successes(group), |group|);
    }
  }
}
