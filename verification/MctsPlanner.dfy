/**
 The tree-search planner: a root with one child per candidate action, simulations that select a
 child, draw a reward and add it along the path to the root, and a ranking of the children.
 `State` is what the statistics of the tree amount to; the class-based search refines it.
 */
module MctsPlanner {
  import opened Text
  import opened Numbers
  import opened Sorting
  import opened Sums

  const ROOT_ID := "node_root"

  datatype Candidate = Candidate(action: string, description: string, inherentRisk: real)

  /** A child's statistics. */
  datatype Arm = Arm(candidate: Candidate, visits: nat, reward: real)

  datatype State = State(rootVisits: nat, rootReward: real, arms: seq<Arm>)

  datatype PlanStep = PlanStep(step: nat, action: string, description: string, confidence: real)

  datatype Plan = Plan(
    goal: string,
    trajectory: seq<PlanStep>,
    nodesExplored: nat,
    maxTreeDepth: nat,
    confidence: real,
    risk: real)

  /** The exploration bonus for a child's visits under its parent's; its formula plays no part. */
  type Bonus = (nat, nat) -> real

  /** The rollout's reward for a node, given the random draw. */
  function Rollout(risk: real, depth: nat, draw: real): real {
    Max(0.1, Min(1.0, 0.85 - risk * 0.5 - depth as real * 0.05 + (draw - 0.5) * 0.1))
  }

  function Mean(visits: nat, reward: real): real {
    if visits > 0 then reward / visits as real else 0.0
  }

  function Ucb(a: Arm, rootVisits: nat, bonus: Bonus): real {
    Mean(a.visits, a.reward) + bonus(rootVisits, a.visits) - a.candidate.inherentRisk * 0.4
  }

  /** The child selected from the children before `n`: an unvisited one at once, else the best so far. */
  function SelectTo(arms: seq<Arm>, rootVisits: nat, bonus: Bonus, n: nat): (i: int)
    requires n <= |arms|
    ensures -1 <= i < n && (n > 0 ==> i >= 0)
  {
    if n == 0 then -1
    else
      var before := SelectTo(arms, rootVisits, bonus, n - 1);
      if before >= 0 && arms[before].visits == 0 then before
      else if arms[n - 1].visits == 0 then n - 1
      else if before < 0 || Ucb(arms[n - 1], rootVisits, bonus) > Ucb(arms[before], rootVisits, bonus) then n - 1
      else before
  }

  function Select(s: State, bonus: Bonus): int {
    SelectTo(s.arms, s.rootVisits, bonus, |s.arms|)
  }

  function Visit(a: Arm, reward: real): Arm {
    a.(visits := a.visits + 1, reward := a.reward + reward)
  }

  /** One simulation. Without children the root itself is rolled out. */
  function Simulate(s: State, bonus: Bonus, draw: real): State {
    var i := Select(s, bonus);
    var reward := if i < 0 then Rollout(0.0, 0, draw) else Rollout(s.arms[i].candidate.inherentRisk, 1, draw);
    State(s.rootVisits + 1, s.rootReward + reward,
          if i < 0 then s.arms else s.arms[i := Visit(s.arms[i], reward)])
  }

  function Initial(candidates: seq<Candidate>): State {
    State(1, 0.0, seq(|candidates|, i requires 0 <= i < |candidates| => Arm(candidates[i], 0, 0.0)))
  }

  /** The statistics after one simulation per draw. */
  function Simulations(candidates: seq<Candidate>, bonus: Bonus, draws: seq<real>): State {
    if draws == [] then Initial(candidates)
    else Simulate(Simulations(candidates, bonus, draws[..|draws| - 1]), bonus, draws[|draws| - 1])
  }

  // ----- conservation and coverage -----

  function TotalVisits(arms: seq<Arm>): nat {
    if arms == [] then 0 else TotalVisits(arms[..|arms| - 1]) + arms[|arms| - 1].visits
  }

  function TotalReward(arms: seq<Arm>): real {
    if arms == [] then 0.0 else TotalReward(arms[..|arms| - 1]) + arms[|arms| - 1].reward
  }

  lemma {:induction false} VisitOneAdds(arms: seq<Arm>, i: nat, reward: real)
    requires i < |arms|
    ensures var after := arms[i := Visit(arms[i], reward)];
            TotalVisits(after) == TotalVisits(arms) + 1 && TotalReward(after) == TotalReward(arms) + reward
  {
    var n := |arms| - 1;
    var after := arms[i := Visit(arms[i], reward)];
    if i == n {
      assert after[..n] == arms[..n];
    } else {
      VisitOneAdds(arms[..n], i, reward);
      assert after[..n] == arms[..n][i := Visit(arms[i], reward)];
    }
  }

  lemma {:induction false} NothingYet(arms: seq<Arm>)
    requires forall i :: 0 <= i < |arms| ==> arms[i].visits == 0 && arms[i].reward == 0.0
    ensures TotalVisits(arms) == 0 && TotalReward(arms) == 0.0
  {
    if arms != [] {
      NothingYet(arms[..|arms| - 1]);
    }
  }

  predicate RewardInRange(a: Arm) {
    0.1 * a.visits as real <= a.reward <= a.visits as real
  }

  /** Every simulation counts once at the root and once at a child, with the same reward. */
  lemma {:induction false} VisitsAndRewardsAreConserved(candidates: seq<Candidate>, bonus: Bonus, draws: seq<real>)
    requires candidates != []
    ensures var s := Simulations(candidates, bonus, draws);
            && |s.arms| == |candidates|
            && (forall i :: 0 <= i < |s.arms| ==> s.arms[i].candidate == candidates[i] && RewardInRange(s.arms[i]))
            && s.rootVisits == |draws| + 1 && TotalVisits(s.arms) == |draws|
            && s.rootReward == TotalReward(s.arms)
  {
    if draws == [] {
      NothingYet(Initial(candidates).arms);
    } else {
      var before := draws[..|draws| - 1];
      VisitsAndRewardsAreConserved(candidates, bonus, before);
      var s, draw := Simulations(candidates, bonus, before), draws[|draws| - 1];
      var i := Select(s, bonus);
      VisitOneAdds(s.arms, i, Rollout(s.arms[i].candidate.inherentRisk, 1, draw));
    }
  }

  /** As long as a child is unvisited, the first such child is selected. */
  lemma {:induction false} UnvisitedFirst(arms: seq<Arm>, rootVisits: nat, bonus: Bonus, n: nat, k: nat)
    requires k < n <= |arms| && arms[k].visits == 0
    requires forall i :: 0 <= i < k ==> arms[i].visits > 0
    ensures SelectTo(arms, rootVisits, bonus, n) == k
  {
    if n > k + 1 {
      UnvisitedFirst(arms, rootVisits, bonus, n - 1, k);
    }
  }

  /** With at most as many simulations as candidates, exactly the first ones are visited, once each. */
  lemma {:induction false} FirstOnesVisitedOnce(candidates: seq<Candidate>, bonus: Bonus, draws: seq<real>)
    requires |draws| <= |candidates|
    ensures var s := Simulations(candidates, bonus, draws);
            && |s.arms| == |candidates|
            && forall i :: 0 <= i < |candidates| ==>
                             && s.arms[i].candidate == candidates[i]
                             && s.arms[i].visits == (if i < |draws| then 1 else 0)
                             && s.arms[i].reward == (if i < |draws|
                                                     then Rollout(candidates[i].inherentRisk, 1, draws[i]) else 0.0)
  {
    if draws != [] {
      var k := |draws| - 1;
      FirstOnesVisitedOnce(candidates, bonus, draws[..k]);
      var s := Simulations(candidates, bonus, draws[..k]);
      UnvisitedFirst(s.arms, s.rootVisits, bonus, |s.arms|, k);
    }
  }

  /** From as many simulations as candidates on, every candidate has been tried. */
  lemma {:induction false} AllVisited(candidates: seq<Candidate>, bonus: Bonus, draws: seq<real>)
    requires |draws| >= |candidates|
    ensures var s := Simulations(candidates, bonus, draws);
            |s.arms| == |candidates| && forall i :: 0 <= i < |s.arms| ==> s.arms[i].visits >= 1
  {
    if |draws| == |candidates| {
      FirstOnesVisitedOnce(candidates, bonus, draws);
    } else {
      AllVisited(candidates, bonus, draws[..|draws| - 1]);
    }
  }

  /** Once every child has been tried, the one selected has the highest score, the first on equality. */
  lemma {:induction false} SelectsHighestScore(arms: seq<Arm>, rootVisits: nat, bonus: Bonus, n: nat)
    requires 0 < n <= |arms| && forall i :: 0 <= i < |arms| ==> arms[i].visits > 0
    ensures var b := SelectTo(arms, rootVisits, bonus, n);
            && (forall j :: 0 <= j < n ==> Ucb(arms[j], rootVisits, bonus) <= Ucb(arms[b], rootVisits, bonus))
            && (forall j :: 0 <= j < b ==> Ucb(arms[j], rootVisits, bonus) < Ucb(arms[b], rootVisits, bonus))
    ensures forall j :: 0 <= j < n ==>
                          Ucb(arms[j], rootVisits, bonus) ==
                          arms[j].reward / arms[j].visits as real + bonus(rootVisits, arms[j].visits)
                          - 0.4 * arms[j].candidate.inherentRisk
  {
    if n > 1 {
      SelectsHighestScore(arms, rootVisits, bonus, n - 1);
    }
  }

  // ----- the trajectory -----

  function ArmMean(a: Arm): real {
    Mean(a.visits, a.reward)
  }

  function Confidence(a: Arm): real {
    Max(0.2, Min(0.99, if a.visits > 0 then Round2(ArmMean(a)) else 0.75))
  }

  function Ranked(arms: seq<Arm>): seq<Arm> {
    SortDescending(arms, ArmMean)
  }

  function Trajectory(ranked: seq<Arm>): seq<PlanStep> {
    seq(|ranked|, i requires 0 <= i < |ranked| =>
      PlanStep(i + 1, ranked[i].candidate.action, ranked[i].candidate.description, Confidence(ranked[i])))
  }

  /** The trajectory lists every child once, in order of mean reward, children of equal mean in the
      order of the candidates, numbered from 1, with confidences between 0.2 and 0.99. */
  lemma TrajectoryRanksAll(arms: seq<Arm>)
    ensures var ranked, t := Ranked(arms), Trajectory(Ranked(arms));
            && multiset(ranked) == multiset(arms) && |t| == |arms| == |ranked|
            && Descending(ranked, ArmMean)
            && (forall v :: Ties(ranked, ArmMean, v) == Ties(arms, ArmMean, v))
            && (forall i :: 0 <= i < |t| ==> t[i].step == i + 1 && 0.2 <= t[i].confidence <= 0.99)
  {
    SortIsStable(arms, ArmMean);
  }

  /** A step repeats its candidate; its confidence is 0.75 for a candidate not tried, else the mean of the
      rewards to the hundredth, kept between 0.2 and 0.99. */
  lemma TrajectoryOnArms(ranked: seq<Arm>, i: nat)
    requires i < |ranked|
    ensures var t, a := Trajectory(ranked)[i], ranked[i];
            && t.action == a.candidate.action && t.description == a.candidate.description
            && (a.visits == 0 ==> t.confidence == 0.75)
            && (a.visits > 0 ==>
                  var mean := a.reward / a.visits as real;
                  && (mean <= 0.2 ==> t.confidence == 0.2) && (mean >= 0.99 ==> t.confidence == 0.99)
                  && (0.2 <= mean <= 0.99 ==> t.confidence - 0.005 <= mean < t.confidence + 0.005))
  {
    var a := ranked[i];
    if a.visits > 0 {
      var mean := a.reward / a.visits as real;
      assert Round2(mean) - 0.005 <= mean < Round2(mean) + 0.005;
      if mean <= 0.2 {
        Round2Monotone(mean, 0.2);
      } else if mean >= 0.99 {
        Round2Monotone(0.99, mean);
      } else {
        Round2Within(20, mean, 99);
      }
    }
  }

  /** A rollout: 0.85 less half the risk and a twentieth for each level, up to a twentieth more or less by
      the draw, and kept between 0.1 and 1. */
  lemma RolloutOnInputs(risk: real, depth: nat, draw: real)
    ensures var x := 0.8 - risk / 2.0 - depth as real / 20.0 + draw / 10.0;
            Rollout(risk, depth, draw) == if x < 0.1 then 0.1 else if x > 1.0 then 1.0 else x
  {
  }

  lemma ConfidenceMonotone(a: Arm, b: Arm)
    requires a.visits > 0 && b.visits > 0 && ArmMean(a) <= ArmMean(b)
    ensures Confidence(a) <= Confidence(b)
  {
    Round2Monotone(ArmMean(a), ArmMean(b));
  }

  ghost predicate ConfidencesDescend(t: seq<PlanStep>) {
    forall i, j :: 0 <= i < j < |t| ==> t[i].confidence >= t[j].confidence
  }

  lemma MeanPositive(a: Arm)
    requires RewardInRange(a)
    ensures ArmMean(a) >= 0.0 && (a.visits > 0 <==> ArmMean(a) > 0.0)
  {
    if a.visits > 0 {
      PositiveQuotient(a.reward, a.visits as real);
    }
  }

  lemma PositiveQuotient(x: real, y: real)
    requires x > 0.0 && y > 0.0
    ensures x / y > 0.0
  {
  }

  /** Tried children come before untried ones, and their confidences fall. */
  lemma TriedComeFirst(ranked: seq<Arm>, i: nat, j: nat)
    requires i < j < |ranked| && Descending(ranked, ArmMean)
    requires RewardInRange(ranked[i]) && RewardInRange(ranked[j]) && ranked[j].visits > 0
    ensures ranked[i].visits > 0 && Confidence(ranked[i]) >= Confidence(ranked[j])
  {
    MeanPositive(ranked[i]);
    MeanPositive(ranked[j]);
    ConfidenceMonotone(ranked[j], ranked[i]);
  }

  // ----- risk -----

  /** Risks and random draws as the code documents them: between 0 and 1. */
  ghost predicate RisksAndDraws(candidates: seq<Candidate>, draws: seq<real>) {
    && (forall i :: 0 <= i < |candidates| ==> 0.0 <= candidates[i].inherentRisk <= 1.0)
    && (forall i :: 0 <= i < |draws| ==> 0.0 <= draws[i] <= 1.0)
  }

  /** The rewards of a child average to within 0.05 of what its risk alone gives. */
  predicate NearRisk(a: Arm) {
    var n := a.visits as real;
    (0.75 - a.candidate.inherentRisk * 0.5) * n <= a.reward <= (0.85 - a.candidate.inherentRisk * 0.5) * n
  }

  lemma RolloutNearRisk(a: Arm, draw: real)
    requires NearRisk(a) && 0.0 <= a.candidate.inherentRisk <= 1.0 && 0.0 <= draw <= 1.0
    ensures NearRisk(Visit(a, Rollout(a.candidate.inherentRisk, 1, draw)))
  {
    var mid, reward := 0.8 - a.candidate.inherentRisk * 0.5, Rollout(a.candidate.inherentRisk, 1, draw);
    assert mid - 0.05 <= reward <= mid + 0.05;
    OneMore(mid - 0.05, a.visits);
    OneMore(mid + 0.05, a.visits);
  }

  lemma OneMore(x: real, n: nat)
    ensures x * (n + 1) as real == x * n as real + x
  {
  }

  lemma {:induction false} RewardsFollowRisk(candidates: seq<Candidate>, bonus: Bonus, draws: seq<real>)
    requires RisksAndDraws(candidates, draws)
    ensures var s := Simulations(candidates, bonus, draws);
            && |s.arms| == |candidates|
            && forall i :: 0 <= i < |s.arms| ==> s.arms[i].candidate == candidates[i] && NearRisk(s.arms[i])
  {
    if draws != [] {
      var before, draw := draws[..|draws| - 1], draws[|draws| - 1];
      RewardsFollowRisk(candidates, bonus, before);
      var s := Simulations(candidates, bonus, before);
      var i := Select(s, bonus);
      hide NearRisk, SelectTo, Rollout;
      if i >= 0 {
        RolloutNearRisk(s.arms[i], draw);
      }
    }
  }

  lemma MeanNearRisk(a: Arm)
    requires NearRisk(a) && a.visits > 0
    ensures 0.75 - a.candidate.inherentRisk * 0.5 <= ArmMean(a) <= 0.85 - a.candidate.inherentRisk * 0.5
  {
    Quotient(0.75 - a.candidate.inherentRisk * 0.5, a.reward, 0.85 - a.candidate.inherentRisk * 0.5, a.visits as real);
  }

  /** However the draws fall, a candidate that was tried is never ranked behind one riskier than it by
      more than 0.2. */
  lemma SaferRanksFirst(candidates: seq<Candidate>, bonus: Bonus, draws: seq<real>)
    requires RisksAndDraws(candidates, draws)
    ensures var ranked := Ranked(Simulations(candidates, bonus, draws).arms);
            forall i, j :: 0 <= i < j < |ranked| && ranked[i].visits > 0 && ranked[j].visits > 0 ==>
                             ranked[i].candidate.inherentRisk <= ranked[j].candidate.inherentRisk + 0.2
  {
    var arms := Simulations(candidates, bonus, draws).arms;
    var ranked := Ranked(arms);
    RewardsFollowRisk(candidates, bonus, draws);
    TrajectoryRanksAll(arms);
    SameMembers(arms, ranked);
    hide NearRisk, ArmMean, Ranked, Simulations;
    forall i, j | 0 <= i < j < |ranked| && ranked[i].visits > 0 && ranked[j].visits > 0
      ensures ranked[i].candidate.inherentRisk <= ranked[j].candidate.inherentRisk + 0.2
    {
      assert ranked[i] in arms && ranked[j] in arms;
      MeanNearRisk(ranked[i]);
      MeanNearRisk(ranked[j]);
      assert ArmMean(ranked[i]) >= ArmMean(ranked[j]);
    }
  }

  /** Confidences fall along the trajectory exactly when every candidate was tried, or every candidate
      tried shows at least the 0.75 that stands for an untried one. */
  lemma ConfidencesDescendIff(arms: seq<Arm>)
    requires forall a :: a in arms ==> RewardInRange(a)
    ensures ConfidencesDescend(Trajectory(Ranked(arms))) <==>
            || (forall a :: a in arms ==> a.visits > 0)
            || (forall a :: a in arms && a.visits > 0 ==> Confidence(a) >= 0.75)
  {
    hide RewardInRange, Confidence, SortDescending, ArmMean;
    var ranked := Ranked(arms);
    var t := Trajectory(ranked);
    TrajectoryRanksAll(arms);
    SameMembers(arms, ranked);
    UntriedConfidence();
    forall i, j | 0 <= i < j < |ranked| && ranked[j].visits > 0
      ensures ranked[i].visits > 0 && t[i].confidence >= t[j].confidence
    {
      TriedComeFirst(ranked, i, j);
    }
    if u :| u in arms && u.visits == 0 && ConfidencesDescend(t) {
      var j :| 0 <= j < |ranked| && ranked[j] == u;
      forall a | a in arms && a.visits > 0 ensures Confidence(a) >= 0.75 {
        var k :| 0 <= k < |ranked| && ranked[k] == a;
        assert k < j;
        assert t[k].confidence >= t[j].confidence;
      }
    }
  }

  lemma UntriedConfidence()
    ensures forall a: Arm :: a.visits == 0 ==> Confidence(a) == 0.75
  {
  }

  /** Before every candidate has been tried, confidences fall exactly when each first rollout shows at
      least 0.75. */
  lemma FewSimulationsDescendIff(candidates: seq<Candidate>, bonus: Bonus, draws: seq<real>)
    requires |draws| < |candidates|
    ensures ConfidencesDescend(Trajectory(Ranked(Simulations(candidates, bonus, draws).arms))) <==>
            forall i :: 0 <= i < |draws| ==> Round2(Rollout(candidates[i].inherentRisk, 1, draws[i])) >= 0.75
  {
    var arms := Simulations(candidates, bonus, draws).arms;
    FirstOnesVisitedOnce(candidates, bonus, draws);
    VisitsAndRewardsAreConserved(candidates, bonus, draws);
    ConfidencesDescendIff(arms);
    hide RewardInRange, Rollout, Round2, Simulations, ConfidencesDescend, Ranked;
    assert arms[|draws|] in arms && arms[|draws|].visits == 0;
    forall i | 0 <= i < |draws|
      ensures Confidence(arms[i]) >= 0.75 <==> Round2(Rollout(candidates[i].inherentRisk, 1, draws[i])) >= 0.75
    {
      assert ArmMean(arms[i]) == Rollout(candidates[i].inherentRisk, 1, draws[i]);
    }
    if forall a :: a in arms && a.visits > 0 ==> Confidence(a) >= 0.75 {
      forall i | 0 <= i < |draws| ensures Round2(Rollout(candidates[i].inherentRisk, 1, draws[i])) >= 0.75 {
        assert arms[i] in arms;
      }
    }
  }

  lemma RolloutShows(risk: real, draw: real)
    requires 0.0 <= risk <= 1.0 && 0.0 <= draw <= 1.0
    ensures risk <= 0.01 ==> Round2(Rollout(risk, 1, draw)) >= 0.75
    ensures draw == 0.0 ==> (Round2(Rollout(risk, 1, draw)) >= 0.75 <==> risk <= 0.01)
  {
    assert Rollout(risk, 1, draw) == 0.75 - risk * 0.5 + draw * 0.1;
  }

  /** What a caller can know beforehand: `k` simulations of more than `k` candidates leave the
      confidences falling whatever is drawn exactly when the first `k` candidates are all but riskless. */
  lemma AlwaysDescendIff(candidates: seq<Candidate>, bonus: Bonus, k: nat)
    requires k < |candidates| && forall i :: 0 <= i < |candidates| ==> 0.0 <= candidates[i].inherentRisk <= 1.0
    ensures (forall draws: seq<real> | |draws| == k && RisksAndDraws(candidates, draws) ::
               ConfidencesDescend(Trajectory(Ranked(Simulations(candidates, bonus, draws).arms))))
            <==> forall i :: 0 <= i < k ==> candidates[i].inherentRisk <= 0.01
  {
    hide ConfidencesDescend, Ranked, Simulations, Rollout, Round2;
    var lowest := seq(k, i => 0.0);
    FewSimulationsDescendIff(candidates, bonus, lowest);
    assert RisksAndDraws(candidates, lowest);
    forall i | 0 <= i < k
      ensures Round2(Rollout(candidates[i].inherentRisk, 1, lowest[i])) >= 0.75 <==> candidates[i].inherentRisk <= 0.01
    {
      RolloutShows(candidates[i].inherentRisk, 0.0);
    }
    if forall i :: 0 <= i < k ==> candidates[i].inherentRisk <= 0.01 {
      forall draws: seq<real> | |draws| == k && RisksAndDraws(candidates, draws)
        ensures ConfidencesDescend(Trajectory(Ranked(Simulations(candidates, bonus, draws).arms)))
      {
        FewSimulationsDescendIff(candidates, bonus, draws);
        forall i | 0 <= i < k ensures Round2(Rollout(candidates[i].inherentRisk, 1, draws[i])) >= 0.75 {
          RolloutShows(candidates[i].inherentRisk, draws[i]);
        }
      }
    }
  }

  /** One simulation of two candidates: the one tried comes first and shows less than the other. */
  lemma ConfidencesCanRise(bonus: Bonus)
    ensures var candidates := [Candidate("restart", "", 0.5), Candidate("failover", "", 0.5)];
            var t := Trajectory(Ranked(Simulations(candidates, bonus, [0.5]).arms));
            |t| == 2 && t[0].action == "restart" && t[0].confidence == 0.55 && t[1].confidence == 0.75
  {
    var candidates := [Candidate("restart", "", 0.5), Candidate("failover", "", 0.5)];
    var arms := Simulations(candidates, bonus, [0.5]).arms;
    FirstOnesVisitedOnce(candidates, bonus, [0.5]);
    assert arms == [Arm(candidates[0], 1, 0.55), Arm(candidates[1], 0, 0.0)];
    hide Simulations;
    TwoRanked(arms[0], arms[1]);
  }

  lemma TwoRanked(a: Arm, b: Arm)
    requires ArmMean(a) >= ArmMean(b)
    ensures Ranked([a, b]) == [a, b]
  {
    hide ArmMean;
    assert [a, b][..1] == [a] && [a][..0] == [];
    assert SortDescending([a], ArmMean) == [a];
  }

  /** With at least one simulation per candidate the confidences fall along the trajectory. */
  lemma EnoughSimulationsOrderConfidences(candidates: seq<Candidate>, bonus: Bonus, draws: seq<real>)
    requires |draws| >= |candidates|
    ensures ConfidencesDescend(Trajectory(Ranked(Simulations(candidates, bonus, draws).arms)))
  {
    AllVisited(candidates, bonus, draws);
    if candidates != [] {
      VisitsAndRewardsAreConserved(candidates, bonus, draws);
    }
    ConfidencesDescendIff(Simulations(candidates, bonus, draws).arms);
  }

  // ----- the plan -----

  /** The sum of `1 - confidence` over the first `n` steps. */
  function Doubt(t: seq<PlanStep>, n: nat): real
    requires n <= |t|
  {
    if n == 0 then 0.0 else Doubt(t, n - 1) + (1.0 - t[n - 1].confidence)
  }

  function PlanOf(goal: string, s: State): Plan {
    var t := Trajectory(Ranked(s.arms));
    var risk := Doubt(t, |t|) / (if |t| == 0 then 1 else |t|) as real;
    Plan(goal, t, |s.arms| + 1, if s.arms == [] then 0 else 1, Round2(1.0 - risk), Round2(risk))
  }

  lemma {:induction false} DoubtRange(t: seq<PlanStep>, n: nat)
    requires n <= |t| && forall i :: 0 <= i < |t| ==> 0.2 <= t[i].confidence <= 0.99
    ensures 0.01 * n as real <= Doubt(t, n) <= 0.8 * n as real
  {
    if n > 0 {
      DoubtRange(t, n - 1);
    }
  }

  lemma Quotient(lo: real, x: real, hi: real, n: real)
    requires n > 0.0 && lo * n <= x <= hi * n
    ensures lo <= x / n <= hi
  {
    DivideBoth(lo * n, x, n);
    DivideBoth(x, hi * n, n);
    DivideBack(lo, n);
    DivideBack(hi, n);
  }

  /** A plan for at least one candidate is confident between 0.2 and 0.99, and risky accordingly. */
  lemma PlanConfidenceRange(goal: string, s: State)
    requires s.arms != []
    ensures var p := PlanOf(goal, s);
            0.2 <= p.confidence <= 0.99 && 0.01 <= p.risk <= 0.8
  {
    TrajectoryRanksAll(s.arms);
    var t := Trajectory(Ranked(s.arms));
    DoubtRange(t, |t|);
    Quotient(0.01, Doubt(t, |t|), 0.8, |t| as real);
    var risk := Doubt(t, |t|) / |t| as real;
    Round2Within(1, risk, 80);
    Round2Within(20, 1.0 - risk, 99);
  }

  lemma {:induction false} DoubtIsTotal(t: seq<PlanStep>, confidence: PlanStep -> real)
    requires forall s :: confidence(s) == s.confidence
    ensures Doubt(t, |t|) == |t| as real - Total(t, confidence)
  {
    if t != [] {
      var n := |t| - 1;
      DoubtIsTotal(t[..n], confidence);
      DoubtOfPrefix(t, n, n);
    }
  }

  lemma {:induction false} DoubtOfPrefix(t: seq<PlanStep>, n: nat, k: nat)
    requires k <= n <= |t|
    ensures Doubt(t[..n], k) == Doubt(t, k)
  {
    if k > 0 {
      DoubtOfPrefix(t, n, k - 1);
    }
  }

  /** The confidence of a plan is the mean confidence of its steps and its risk what that leaves to one,
      both to the hundredth; a plan without steps is sure. */
  lemma PlanConfidenceIsMean(goal: string, s: State)
    ensures var p := PlanOf(goal, s);
            && p.goal == goal && |p.trajectory| == |s.arms| && p.nodesExplored == |s.arms| + 1
            && (s.arms == [] ==> p.confidence == 1.0 && p.risk == 0.0 && p.maxTreeDepth == 0)
            && (s.arms != [] ==>
                  var mean := Total(p.trajectory, (t: PlanStep) => t.confidence) / |s.arms| as real;
                  && p.maxTreeDepth == 1
                  && p.confidence - 0.005 <= mean < p.confidence + 0.005
                  && p.risk - 0.005 <= 1.0 - mean < p.risk + 0.005)
  {
    TrajectoryRanksAll(s.arms);
    var t := Trajectory(Ranked(s.arms));
    DoubtIsTotal(t, (t: PlanStep) => t.confidence);
    hide Ranked, Trajectory, Descending, Ties;
    if s.arms != [] {
      hide Doubt, Total;
      MeanDoubt(|t| as real, Total(t, (t: PlanStep) => t.confidence));
    }
  }

  lemma MeanDoubt(n: real, total: real)
    requires n > 0.0
    ensures (n - total) / n == 1.0 - total / n
  {
    var mean := total / n;
    assert mean * n == total;
    Divided(n - total, 1.0 - mean, n);
  }

  lemma Divided(x: real, y: real, n: real)
    requires n > 0.0 && x == y * n
    ensures x / n == y
  {
  }

  // ----- the tree of nodes -----

  class MctsNode {
    const id: string
    const parentId: Option<string>
    const candidate: Candidate
    const depth: nat
    var visits: nat
    var cumulativeReward: real
    var children: seq<string>

    constructor (id: string, parentId: Option<string>, candidate: Candidate, depth: nat, visits: nat)
      ensures this.id == id && this.parentId == parentId && this.candidate == candidate && this.depth == depth
      ensures this.visits == visits && cumulativeReward == 0.0 && children == []
    {
      this.id, this.parentId, this.candidate, this.depth := id, parentId, candidate, depth;
      this.visits, cumulativeReward, children := visits, 0.0, [];
    }
  }

  lemma SelectNothing(arms: seq<Arm>, rootVisits: nat, bonus: Bonus)
    ensures SelectTo(arms, rootVisits, bonus, 0) == -1
  {
  }

  lemma SelectStep(arms: seq<Arm>, rootVisits: nat, bonus: Bonus, k: nat)
    requires k < |arms| && forall j :: 0 <= j <= k ==> arms[j].visits > 0
    ensures var b := SelectTo(arms, rootVisits, bonus, k);
            SelectTo(arms, rootVisits, bonus, k + 1) ==
            if b < 0 || Ucb(arms[k], rootVisits, bonus) > Ucb(arms[b], rootVisits, bonus) then k else b
  {
    hide Ucb;
  }

  lemma UcbOfTried(a: Arm, rootVisits: nat, bonus: Bonus)
    requires a.visits > 0
    ensures Ucb(a, rootVisits, bonus) ==
            a.reward / a.visits as real + bonus(rootVisits, a.visits) - a.candidate.inherentRisk * 0.4
  {
  }

  type Tree = map<string, MctsNode>

  /** Child ids are distinct, and none is the root's. */
  ghost predicate GoodIds(ids: seq<string>) {
    ROOT_ID !in ids && forall i, j :: 0 <= i < j < |ids| ==> ids[i] != ids[j]
  }

  ghost predicate IsChild(node: MctsNode, id: string, a: Arm)
    reads node
  {
    && node.id == id && node.parentId == Some(ROOT_ID) && node.depth == 1 && node.children == []
    && node.candidate == a.candidate && node.visits == a.visits && node.cumulativeReward == a.reward
  }

  /** The tree holds the statistics `s`: the root, and one child per arm under the ids given. */
  ghost predicate Holds(tree: Tree, ids: seq<string>, s: State)
    reads tree.Values
  {
    && GoodIds(ids) && |ids| == |s.arms| && tree.Keys == {ROOT_ID} + (set id | id in ids)
    && (var root := tree[ROOT_ID];
        && root.id == ROOT_ID && root.parentId == None && root.depth == 0 && root.candidate.inherentRisk == 0.0
        && root.visits == s.rootVisits && root.cumulativeReward == s.rootReward && root.children == ids)
    && forall i :: 0 <= i < |ids| ==> IsChild(tree[ids[i]], ids[i], s.arms[i])
  }

  method SelectNode(nodeId: string, tree: Tree, bonus: Bonus, ghost ids: seq<string>, ghost s: State)
    returns (node: MctsNode)
    requires Holds(tree, ids, s) && nodeId in tree
    ensures node in tree.Values
    ensures nodeId == ROOT_ID ==> node == tree[if Select(s, bonus) < 0 then ROOT_ID else ids[Select(s, bonus)]]
    ensures nodeId != ROOT_ID ==> node == tree[nodeId]
    decreases nodeId == ROOT_ID
  {
    hide Mean, Ucb, SelectTo;
    SelectNothing(s.arms, s.rootVisits, bonus);
    node := tree[nodeId];
    if |node.children| == 0 {
      return;
    }
    var best, bestScore := -1, 0.0;
    for k := 0 to |node.children|
      invariant node.children == ids && nodeId == ROOT_ID
      invariant best == SelectTo(s.arms, s.rootVisits, bonus, k)
      invariant forall j :: 0 <= j < k ==> s.arms[j].visits > 0
      invariant best >= 0 ==> bestScore == Ucb(s.arms[best], s.rootVisits, bonus)
    {
      var child := tree[node.children[k]];
      assert IsChild(child, ids[k], s.arms[k]);
      if child.visits == 0 {
        UnvisitedFirst(s.arms, s.rootVisits, bonus, |s.arms|, k);
        return child;
      }
      SelectStep(s.arms, s.rootVisits, bonus, k);
      UcbOfTried(s.arms[k], s.rootVisits, bonus);
      var exploitation := child.cumulativeReward / child.visits as real;
      var score := exploitation + bonus(node.visits, child.visits) - child.candidate.inherentRisk * 0.4;
      if best < 0 || score > bestScore {
        best, bestScore := k, score;
      }
    }
    node := SelectNode(node.children[best], tree, bonus, ids, s);
  }

  /** Adds a visit and the reward to the node and its ancestors. */
  method Backpropagate(nodeId: string, reward: real, tree: Tree, ghost ids: seq<string>, ghost s: State, ghost i: int)
    requires Holds(tree, ids, s) && -1 <= i < |ids|
    requires nodeId == if i < 0 then ROOT_ID else ids[i]
    modifies tree.Values
    ensures Holds(tree, ids, State(s.rootVisits + 1, s.rootReward + reward,
                                   if i < 0 then s.arms else s.arms[i := Visit(s.arms[i], reward)]))
  {
    hide IsChild, Mean, Ucb, SelectTo;
    var curr := Some(nodeId);
    ghost var now, at := s, i;
    while curr.Some?
      invariant Holds(tree, ids, now) && -1 <= at < |ids|
      invariant curr.Some? ==> curr.value == if at < 0 then ROOT_ID else ids[at]
      invariant if curr.Some? then now == (if at < i then AfterVisit(s, i, reward) else s) && (at == i || at < 0)
                else now == AfterVisit(if i < 0 then s else AfterVisit(s, i, reward), -1, reward)
      decreases if curr.None? then 0 else at + 2
    {
      if curr.value !in tree {
        break;
      }
      curr := VisitNode(curr.value, reward, tree, ids, now, at);
      now := AfterVisit(now, at, reward);
      at := -1;
    }
  }

  /** One visit more at the root (-1) or at a child. */
  ghost function AfterVisit(s: State, i: int, reward: real): State {
    if 0 <= i < |s.arms| then s.(arms := s.arms[i := Visit(s.arms[i], reward)])
    else State(s.rootVisits + 1, s.rootReward + reward, s.arms)
  }

  method VisitNode(id: string, reward: real, tree: Tree, ghost ids: seq<string>, ghost s: State, ghost i: int)
    returns (parent: Option<string>)
    requires Holds(tree, ids, s) && -1 <= i < |ids| && id == (if i < 0 then ROOT_ID else ids[i])
    modifies tree.Values
    ensures Holds(tree, ids, AfterVisit(s, i, reward))
    ensures parent == if i < 0 then None else Some(ROOT_ID)
  {
    hide Mean, Ucb, SelectTo;
    var node := tree[id];
    assert i >= 0 ==> IsChild(tree[ids[i]], ids[i], s.arms[i]);
    assert forall other :: other in tree && other != id ==> tree[other] != node;
    node.visits := node.visits + 1;
    node.cumulativeReward := node.cumulativeReward + reward;
    parent := node.parentId;
  }

  /** The tree before any simulation: the root, and the children added so far. */
  method Populate(goal: string, candidates: seq<Candidate>, ids: seq<string>) returns (tree: Tree)
    requires GoodIds(ids) && |ids| == |candidates|
    ensures Holds(tree, ids, Initial(candidates)) && forall id :: id in tree ==> fresh(tree[id])
  {
    var root := new MctsNode(ROOT_ID, None, Candidate("INITIATE_GOAL", goal, 0.0), 0, 1);
    tree := map[ROOT_ID := root];
    for k := 0 to |candidates|
      invariant tree.Keys == {ROOT_ID} + (set id | id in ids[..k]) && forall id :: id in tree ==> fresh(tree[id])
      invariant tree[ROOT_ID] == root && root.visits == 1 && root.cumulativeReward == 0.0 && root.children == ids[..k]
      invariant forall i :: 0 <= i < k ==> ids[i] in tree && IsChild(tree[ids[i]], ids[i], Arm(candidates[i], 0, 0.0))
    {
      var child := new MctsNode(ids[k], Some(ROOT_ID), candidates[k], 1, 0);
      tree := tree[ids[k] := child];
      root.children := root.children + [ids[k]];
      assert ids[..k + 1] == ids[..k] + [ids[k]];
    }
    assert ids[..|ids|] == ids;
  }

  /** The arms as the children record them. */
  method ReadChildren(tree: Tree, ghost ids: seq<string>, ghost s: State) returns (arms: seq<Arm>)
    requires Holds(tree, ids, s)
    ensures arms == s.arms
  {
    arms := [];
    var root := tree[ROOT_ID];
    for k := 0 to |root.children|
      invariant arms == s.arms[..k]
    {
      var node := tree[root.children[k]];
      assert IsChild(node, ids[k], s.arms[k]);
      arms := arms + [Arm(node.candidate, node.visits, node.cumulativeReward)];
    }
  }

  method ExtractBestTrajectory(tree: Tree, ghost ids: seq<string>, ghost s: State) returns (t: seq<PlanStep>)
    requires Holds(tree, ids, s)
    ensures t == Trajectory(Ranked(s.arms))
  {
    var children := ReadChildren(tree, ids, s);
    var ranked := SortDescending(children, ArmMean);
    t := [];
    var stepNum := 1;
    for k := 0 to |ranked|
      invariant stepNum == k + 1 && t == Trajectory(ranked)[..k]
    {
      var child := ranked[k];
      var confidence := if child.visits > 0 then Round2(child.reward / child.visits as real) else 0.75;
      t := t + [PlanStep(stepNum, child.candidate.action, child.candidate.description,
                         Max(0.2, Min(0.99, confidence)))];
      stepNum := stepNum + 1;
    }
  }

  /** One simulation per draw: select, roll out, propagate back. */
  method RunSimulations(tree: Tree, candidates: seq<Candidate>, ids: seq<string>, draws: seq<real>, bonus: Bonus)
    requires Holds(tree, ids, Initial(candidates))
    modifies tree.Values
    ensures Holds(tree, ids, Simulations(candidates, bonus, draws))
  {
    hide Initial, Simulate, Holds;
    ghost var s := Initial(candidates);
    assert draws[..0] == [];
    for sim := 0 to |draws|
      invariant Holds(tree, ids, s) && s == Simulations(candidates, bonus, draws[..sim])
    {
      SimulateOnce(tree, draws[sim], bonus, ids, s);
      s := Simulate(s, bonus, draws[sim]);
      assert draws[..sim + 1][..sim] == draws[..sim];
    }
    assert draws[..|draws|] == draws;
  }

  /** Select a node, roll it out, propagate the reward back. */
  method SimulateOnce(tree: Tree, draw: real, bonus: Bonus, ghost ids: seq<string>, ghost s: State)
    requires Holds(tree, ids, s)
    modifies tree.Values
    ensures Holds(tree, ids, Simulate(s, bonus, draw))
  {
    hide SelectTo, Rollout;
    var selected := SelectNode(ROOT_ID, tree, bonus, ids, s);
    ghost var i := Select(s, bonus);
    assert i >= 0 ==> IsChild(selected, ids[i], s.arms[i]);
    var reward := Rollout(selected.candidate.inherentRisk, selected.depth, draw);
    Backpropagate(selected.id, reward, tree, ids, s, i);
  }

  method MaxDepth(tree: Tree, ghost ids: seq<string>, ghost s: State) returns (maxDepth: nat)
    requires Holds(tree, ids, s)
    ensures maxDepth == if s.arms == [] then 0 else 1
  {
    maxDepth := 0;
    var rest := tree.Keys;
    while rest != {}
      invariant rest <= tree.Keys && maxDepth == if tree.Keys - rest <= {ROOT_ID} then 0 else 1
      decreases rest
    {
      var id :| id in rest;
      if id != ROOT_ID {
        ghost var i :| 0 <= i < |ids| && ids[i] == id;
        assert IsChild(tree[ids[i]], ids[i], s.arms[i]);
      }
      rest := rest - {id};
      maxDepth := if maxDepth < tree[id].depth then tree[id].depth else maxDepth;
    }
    if s.arms != [] {
      assert ids[0] in tree.Keys - rest;
    }
  }

  /** `1 - confidence` averaged over the steps. */
  method AverageRisk(t: seq<PlanStep>) returns (r: real)
    ensures r == Doubt(t, |t|) / (if |t| == 0 then 1 else |t|) as real
  {
    var doubt := 0.0;
    for k := 0 to |t|
      invariant doubt == Doubt(t, k)
    {
      doubt := doubt + (1.0 - t[k].confidence);
    }
    r := doubt / (if |t| == 0 then 1 else |t|) as real;
  }

  /** `ids` are the ids made for the children, `draws` the random numbers of the simulations. */
  method SearchOptimalPlan(goal: string, candidates: seq<Candidate>, ids: seq<string>, draws: seq<real>, bonus: Bonus)
    returns (plan: Plan)
    requires GoodIds(ids) && |ids| == |candidates|
    ensures plan == PlanOf(goal, Simulations(candidates, bonus, draws))
  {
    hide *;
    var tree := Populate(goal, candidates, ids);
    RunSimulations(tree, candidates, ids, draws, bonus);
    ghost var s := Simulations(candidates, bonus, draws);
    var trajectory := ExtractBestTrajectory(tree, ids, s);
    var maxDepth := MaxDepth(tree, ids, s);
    var avgRisk := AverageRisk(trajectory);
    TreeShape(tree, ids, s);
    SizeOfTree(tree, ids);
    PlanParts(goal, s, trajectory, avgRisk);
    plan := Plan(goal, trajectory, |tree|, maxDepth, Round2(1.0 - avgRisk), Round2(avgRisk));
  }

  lemma TreeShape(tree: Tree, ids: seq<string>, s: State)
    requires Holds(tree, ids, s)
    ensures |s.arms| == |ids| && tree.Keys == {ROOT_ID} + (set id | id in ids)
  {
  }

  lemma PlanParts(goal: string, s: State, t: seq<PlanStep>, risk: real)
    requires t == Trajectory(Ranked(s.arms)) && risk == Doubt(t, |t|) / (if |t| == 0 then 1 else |t|) as real
    ensures PlanOf(goal, s) ==
            Plan(goal, t, |s.arms| + 1, if s.arms == [] then 0 else 1, Round2(1.0 - risk), Round2(risk))
  {
  }

  lemma SizeOfTree(tree: Tree, ids: seq<string>)
    requires GoodIds(ids) && tree.Keys == {ROOT_ID} + (set id | id in ids)
    ensures |tree| == |ids| + 1
  {
    DistinctSize(ids);
    assert |tree.Keys| == |tree|;
  }

  lemma {:induction false} DistinctSize(ids: seq<string>)
    requires forall i, j :: 0 <= i < j < |ids| ==> ids[i] != ids[j]
    ensures |set id | id in ids| == |ids|
  {
    if ids != [] {
      var short, last := ids[..|ids| - 1], ids[|ids| - 1];
      DistinctSize(short);
      assert ids == short + [last];
      assert (set id | id in ids) == (set id | id in short) + {last};
    }
  }
}
