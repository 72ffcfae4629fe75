/**
 When the planner ranks candidates by risk: exactly which sets of candidates are ranked by rising risk
 whatever is drawn in the simulations.
 */
module RiskOrder {
  import opened Numbers
  import opened Sorting
  import opened MctsPlanner

  /** Risks in [0,1]; draws in [0,1), or in [0,1] where `one` says that 1 can be drawn too. */
  ghost predicate Fits(candidates: seq<Candidate>, draws: seq<real>, one: bool) {
    RisksAndDraws(candidates, draws) && (one || forall i :: 0 <= i < |draws| ==> draws[i] < 1.0)
  }

  /** The candidates in ranked order, safest first. */
  ghost predicate ByRisk(ranked: seq<Arm>) {
    forall p, q :: 0 <= p < q < |ranked| ==> ranked[p].candidate.inherentRisk <= ranked[q].candidate.inherentRisk
  }

  function Tried(candidates: seq<Candidate>, k: nat): nat {
    if k < |candidates| then k else |candidates|
  }

  /** Whether `k` simulations can put candidate `j` before the safer candidate `i`. The first candidates
      are tried first. Two tried ones change places when their risks are less than 0.2 apart; at exactly
      0.2 they can tie, and then the earlier one comes first. Untried ones come last, in their own order. */
  ghost predicate CanPrecede(candidates: seq<Candidate>, k: nat, one: bool, j: nat, i: nat)
    requires i < |candidates| && j < |candidates|
  {
    var m, apart := Tried(candidates, k), candidates[j].inherentRisk - candidates[i].inherentRisk;
    if j < m && i < m then apart < 0.2 || (apart == 0.2 && one && j < i)
    else if j < m then true
    else m <= i && j < i
  }

  predicate Safer(c: Candidate, d: Candidate) {
    c.inherentRisk < d.inherentRisk
  }

  /** No candidate can come before a safer one. */
  ghost predicate SafeOrder(candidates: seq<Candidate>, k: nat, one: bool) {
    forall i, j :: 0 <= i < |candidates| && 0 <= j < |candidates| && Safer(candidates[i], candidates[j]) ==>
                     !CanPrecede(candidates, k, one, j, i)
  }

  // ----- what the simulations leave -----

  lemma TriedFirst(candidates: seq<Candidate>, bonus: Bonus, draws: seq<real>)
    ensures var arms := Simulations(candidates, bonus, draws).arms;
            && |arms| == |candidates|
            && forall i :: 0 <= i < |arms| ==> (arms[i].visits > 0 <==> i < Tried(candidates, |draws|))
  {
    if |draws| <= |candidates| {
      FirstOnesVisitedOnce(candidates, bonus, draws);
    } else {
      AllVisited(candidates, bonus, draws);
    }
  }

  /** Below the greatest reward its risk allows, where 1 is never drawn. */
  predicate BelowBest(a: Arm) {
    a.visits > 0 ==> a.reward < (0.85 - a.candidate.inherentRisk * 0.5) * a.visits as real
  }

  lemma RolloutBelowBest(a: Arm, draw: real)
    requires NearRisk(a) && 0.0 <= a.candidate.inherentRisk <= 1.0 && 0.0 <= draw < 1.0
    ensures BelowBest(Visit(a, Rollout(a.candidate.inherentRisk, 1, draw)))
  {
    var best, reward := 0.85 - a.candidate.inherentRisk * 0.5, Rollout(a.candidate.inherentRisk, 1, draw);
    ExactRollout(a.candidate.inherentRisk, draw);
    hide Rollout;
    OneMore(best, a.visits);
    assert a.reward <= best * a.visits as real && reward < best;
    assert a.reward + reward < best * (a.visits + 1) as real;
  }

  lemma ExactRollout(risk: real, draw: real)
    requires 0.0 <= risk <= 1.0 && 0.0 <= draw <= 1.0
    ensures Rollout(risk, 1, draw) == 0.75 - risk * 0.5 + draw * 0.1
  {
  }

  lemma {:induction false} NeverBest(candidates: seq<Candidate>, bonus: Bonus, draws: seq<real>)
    requires Fits(candidates, draws, false)
    ensures var arms := Simulations(candidates, bonus, draws).arms;
            |arms| == |candidates| && forall i :: 0 <= i < |arms| ==> BelowBest(arms[i])
  {
    if draws != [] {
      var before, draw := draws[..|draws| - 1], draws[|draws| - 1];
      NeverBest(candidates, bonus, before);
      RewardsFollowRisk(candidates, bonus, before);
      var s := Simulations(candidates, bonus, before);
      var i := Select(s, bonus);
      hide NearRisk, BelowBest, Rollout;
      if i >= 0 {
        RolloutBelowBest(s.arms[i], draw);
      }
    }
  }

  lemma MeanBelowBest(a: Arm)
    requires BelowBest(a) && a.visits > 0
    ensures ArmMean(a) < 0.85 - a.candidate.inherentRisk * 0.5
  {
    var n, best := a.visits as real, 0.85 - a.candidate.inherentRisk * 0.5;
    PositiveQuotient(best * n - a.reward, n);
    assert (best * n - a.reward) / n == best - a.reward / n;
  }

  // ----- safe orders are kept -----

  /** Mean rewards as far as risks and visits determine them. */
  ghost predicate MeanFits(a: Arm, one: bool) {
    var mean, low := ArmMean(a), 0.75 - a.candidate.inherentRisk * 0.5;
    && (a.visits == 0 ==> mean == 0.0)
    && (a.visits > 0 ==> 0.0 < low <= mean <= low + 0.1 && (one || mean < low + 0.1))
  }

  lemma MeansFit(candidates: seq<Candidate>, bonus: Bonus, draws: seq<real>, one: bool)
    requires Fits(candidates, draws, one)
    ensures var arms := Simulations(candidates, bonus, draws).arms;
            && |arms| == |candidates|
            && forall i :: 0 <= i < |arms| ==> arms[i].candidate == candidates[i] && MeanFits(arms[i], one)
  {
    var arms := Simulations(candidates, bonus, draws).arms;
    RewardsFollowRisk(candidates, bonus, draws);
    if !one {
      NeverBest(candidates, bonus, draws);
    }
    hide Simulations, NearRisk, BelowBest;
    forall i | 0 <= i < |arms| ensures MeanFits(arms[i], one) {
      if arms[i].visits > 0 {
        MeanNearRisk(arms[i]);
        if !one {
          MeanBelowBest(arms[i]);
        }
      }
    }
  }

  lemma IndexKept(candidates: seq<Candidate>, arms: seq<Arm>, k: nat, one: bool, a: nat, b: nat)
    requires |arms| == |candidates| && a < |arms| && b < |arms| && SafeOrder(candidates, k, one)
    requires forall i :: 0 <= i < |arms| ==> arms[i].candidate == candidates[i] && MeanFits(arms[i], one)
    requires forall i :: 0 <= i < |arms| ==> (arms[i].visits > 0 <==> i < Tried(candidates, k))
    requires ArmMean(arms[a]) > ArmMean(arms[b]) || (ArmMean(arms[a]) == ArmMean(arms[b]) && a < b)
    ensures candidates[a].inherentRisk <= candidates[b].inherentRisk
  {
    hide ArmMean;
    assert Safer(candidates[b], candidates[a]) ==> !CanPrecede(candidates, k, one, a, b);
    assert MeanFits(arms[a], one) && MeanFits(arms[b], one);
  }

  lemma PairKept(candidates: seq<Candidate>, bonus: Bonus, draws: seq<real>, one: bool, x: Arm, y: Arm)
    requires Fits(candidates, draws, one) && SafeOrder(candidates, |draws|, one)
    requires var arms := Simulations(candidates, bonus, draws).arms;
             x in arms && y in arms && Before(SortDescending(arms, ArmMean), x, y)
    ensures x.candidate.inherentRisk <= y.candidate.inherentRisk
  {
    var arms := Simulations(candidates, bonus, draws).arms;
    MeansFit(candidates, bonus, draws, one);
    TriedFirst(candidates, bonus, draws);
    SortedBefore(arms, ArmMean, x, y);
    hide Simulations, Fits, SafeOrder, SortDescending, ArmMean, MeanFits;
    var a, b: nat;
    if ArmMean(x) == ArmMean(y) {
      a, b :| 0 <= a < b < |arms| && arms[a] == x && arms[b] == y;
    } else {
      a :| 0 <= a < |arms| && arms[a] == x;
      b :| 0 <= b < |arms| && arms[b] == y;
    }
    IndexKept(candidates, arms, |draws|, one, a, b);
  }

  lemma SafeOrderKept(candidates: seq<Candidate>, bonus: Bonus, draws: seq<real>, one: bool)
    requires Fits(candidates, draws, one) && SafeOrder(candidates, |draws|, one)
    ensures ByRisk(Ranked(Simulations(candidates, bonus, draws).arms))
  {
    var arms := Simulations(candidates, bonus, draws).arms;
    var ranked := SortDescending(arms, ArmMean);
    SortIsStable(arms, ArmMean);
    SameMembers(arms, ranked);
    hide Simulations, Fits, SafeOrder, SortDescending;
    forall p, q | 0 <= p < q < |ranked| ensures ranked[p].candidate.inherentRisk <= ranked[q].candidate.inherentRisk {
      assert ranked[p] in arms && ranked[q] in arms;
      assert Before(ranked, ranked[p], ranked[q]);
      PairKept(candidates, bonus, draws, one, ranked[p], ranked[q]);
    }
  }

  // ----- unsafe orders are broken by some draws -----

  /** Draws that favour candidate `j`: `top` whenever it is selected, 0 for any other. */
  function Favouring(candidates: seq<Candidate>, bonus: Bonus, k: nat, j: nat, top: real): (draws: seq<real>)
    ensures |draws| == k
  {
    if k == 0 then []
    else
      var before := Favouring(candidates, bonus, k - 1, j, top);
      before + [if Select(Simulations(candidates, bonus, before), bonus) == j then top else 0.0]
  }

  lemma {:induction false} FavouringFits(candidates: seq<Candidate>, bonus: Bonus, k: nat, j: nat, top: real, one: bool)
    requires forall i :: 0 <= i < |candidates| ==> 0.0 <= candidates[i].inherentRisk <= 1.0
    requires 0.0 <= top <= 1.0 && (one || top < 1.0)
    ensures Fits(candidates, Favouring(candidates, bonus, k, j, top), one)
  {
    if k > 0 {
      FavouringFits(candidates, bonus, k - 1, j, top, one);
    }
  }

  /** The mean reward of candidate `i` when `j` is favoured, if it is tried. */
  function MeanWhen(c: Candidate, favoured: bool, top: real): real {
    0.75 - c.inherentRisk * 0.5 + (if favoured then 0.1 * top else 0.0)
  }

  predicate Exact(a: Arm, favoured: bool, top: real) {
    a.reward == MeanWhen(a.candidate, favoured, top) * a.visits as real
  }

  lemma {:induction false} FavouredRewards(candidates: seq<Candidate>, bonus: Bonus, k: nat, j: nat, top: real)
    requires forall i :: 0 <= i < |candidates| ==> 0.0 <= candidates[i].inherentRisk <= 1.0
    requires 0.0 <= top <= 1.0
    ensures var arms := Simulations(candidates, bonus, Favouring(candidates, bonus, k, j, top)).arms;
            && |arms| == |candidates|
            && forall i :: 0 <= i < |arms| ==> arms[i].candidate == candidates[i] && Exact(arms[i], i == j, top)
  {
    if k > 0 {
      FavouredRewards(candidates, bonus, k - 1, j, top);
      var before := Favouring(candidates, bonus, k - 1, j, top);
      var draws := Favouring(candidates, bonus, k, j, top);
      assert draws[..|draws| - 1] == before;
      var s := Simulations(candidates, bonus, before);
      var i := Select(s, bonus);
      hide Exact, SelectTo, Rollout;
      if i >= 0 {
        ExactStep(s.arms[i], i == j, top, draws[|draws| - 1]);
      }
    }
  }

  lemma ExactStep(a: Arm, favoured: bool, top: real, draw: real)
    requires Exact(a, favoured, top) && 0.0 <= a.candidate.inherentRisk <= 1.0
    requires 0.0 <= top <= 1.0 && draw == if favoured then top else 0.0
    ensures Exact(Visit(a, Rollout(a.candidate.inherentRisk, 1, draw)), favoured, top)
  {
    ExactRollout(a.candidate.inherentRisk, draw);
    OneMore(MeanWhen(a.candidate, favoured, top), a.visits);
  }

  lemma ExactMean(a: Arm, favoured: bool, top: real)
    requires Exact(a, favoured, top)
    ensures ArmMean(a) == if a.visits > 0 then MeanWhen(a.candidate, favoured, top) else 0.0
  {
    if a.visits > 0 {
      DivideBack(MeanWhen(a.candidate, favoured, top), a.visits as real);
    }
  }

  /** The draw that lifts `j` above `i`, or level with it where they are 0.2 apart. */
  function Lift(c: Candidate, d: Candidate): real {
    var apart := d.inherentRisk - c.inherentRisk;
    if apart > 0.2 then 0.0 else apart / 0.4 + 0.5
  }

  lemma UnsafeOrderBroken(candidates: seq<Candidate>, bonus: Bonus, k: nat, one: bool, j: nat, i: nat)
    returns (draws: seq<real>)
    requires i < |candidates| && j < |candidates| && Safer(candidates[i], candidates[j])
    requires forall c :: 0 <= c < |candidates| ==> 0.0 <= candidates[c].inherentRisk <= 1.0
    requires CanPrecede(candidates, k, one, j, i)
    ensures |draws| == k && Fits(candidates, draws, one)
    ensures !ByRisk(Ranked(Simulations(candidates, bonus, draws).arms))
  {
    var m := Tried(candidates, k);
    var top := if j < m && i < m then Lift(candidates[i], candidates[j]) else 0.0;
    draws := Favouring(candidates, bonus, k, j, top);
    FavouringFits(candidates, bonus, k, j, top, one);
    var arms := Simulations(candidates, bonus, draws).arms;
    FavouredRewards(candidates, bonus, k, j, top);
    TriedFirst(candidates, bonus, draws);
    hide Simulations, Fits, Exact, Favouring, SortDescending, ArmMean;
    ExactMean(arms[i], false, top);
    ExactMean(arms[j], true, top);
    SortedBefore(arms, ArmMean, arms[j], arms[i]);
    assert j < i ==> Before(arms, arms[j], arms[i]);
    assert ArmMean(arms[j]) > ArmMean(arms[i]) || (ArmMean(arms[j]) == ArmMean(arms[i]) && j < i);
    var ranked := SortDescending(arms, ArmMean);
    var p, q :| 0 <= p < q < |ranked| && ranked[p] == arms[j] && ranked[q] == arms[i];
  }

  /** However the draws of `k` simulations fall, the trajectory lists the candidates by rising risk, if
      and only if no candidate can come before a safer one. */
  lemma RanksByRiskIff(candidates: seq<Candidate>, bonus: Bonus, k: nat, one: bool)
    requires forall i :: 0 <= i < |candidates| ==> 0.0 <= candidates[i].inherentRisk <= 1.0
    ensures (forall draws | |draws| == k && Fits(candidates, draws, one) ::
               ByRisk(Ranked(Simulations(candidates, bonus, draws).arms)))
            <==> SafeOrder(candidates, k, one)
  {
    hide Fits, ByRisk, Ranked, Simulations, CanPrecede;
    if SafeOrder(candidates, k, one) {
      forall draws | |draws| == k && Fits(candidates, draws, one)
        ensures ByRisk(Ranked(Simulations(candidates, bonus, draws).arms))
      {
        SafeOrderKept(candidates, bonus, draws, one);
      }
    } else {
      var i, j :| 0 <= i < |candidates| && 0 <= j < |candidates| && Safer(candidates[i], candidates[j])
                  && CanPrecede(candidates, k, one, j, i);
      var draws := UnsafeOrderBroken(candidates, bonus, k, one, j, i);
    }
  }

  /** Any two different risks are at least 0.2 apart. */
  ghost predicate RisksApart(candidates: seq<Candidate>) {
    forall i, j :: 0 <= i < |candidates| && 0 <= j < |candidates| && Safer(candidates[i], candidates[j]) ==>
                     candidates[j].inherentRisk - candidates[i].inherentRisk >= 0.2
  }

  lemma SafeWhenAllTried(candidates: seq<Candidate>, k: nat)
    requires k >= |candidates|
    ensures SafeOrder(candidates, k, false) <==> RisksApart(candidates)
  {
    forall i, j | 0 <= i < |candidates| && 0 <= j < |candidates|
      ensures CanPrecede(candidates, k, false, j, i) <==> candidates[j].inherentRisk - candidates[i].inherentRisk < 0.2
    {
    }
    hide CanPrecede;
  }

  /** With every candidate tried and draws as `Math.random` gives them, below 1, that means: if and only
      if any two different risks are at least 0.2 apart. */
  lemma EnoughSimulationsRankByRiskIff(candidates: seq<Candidate>, bonus: Bonus, k: nat)
    requires k >= |candidates| && forall i :: 0 <= i < |candidates| ==> 0.0 <= candidates[i].inherentRisk <= 1.0
    ensures (forall draws | |draws| == k && Fits(candidates, draws, false) ::
               ByRisk(Ranked(Simulations(candidates, bonus, draws).arms)))
            <==> RisksApart(candidates)
  {
    hide *;
    RanksByRiskIff(candidates, bonus, k, false);
    SafeWhenAllTried(candidates, k);
  }

  /** One simulation of a risky and a riskless candidate ranks the risky one first; so do two simulations
      of candidates of risk 0.1 and 0, although both are tried. */
  lemma RiskierCanRankFirst(bonus: Bonus)
    ensures var few := [Candidate("restart", "", 0.9), Candidate("wait", "", 0.0)];
            var all := [Candidate("restart", "", 0.1), Candidate("wait", "", 0.0)];
            && Ranked(Simulations(few, bonus, [0.5]).arms)[..1] == [Arm(few[0], 1, 0.35)]
            && Ranked(Simulations(all, bonus, [0.9, 0.0]).arms) == [Arm(all[0], 1, 0.79), Arm(all[1], 1, 0.75)]
  {
    var few := [Candidate("restart", "", 0.9), Candidate("wait", "", 0.0)];
    var all := [Candidate("restart", "", 0.1), Candidate("wait", "", 0.0)];
    FirstOnesVisitedOnce(few, bonus, [0.5]);
    FirstOnesVisitedOnce(all, bonus, [0.9, 0.0]);
    var some, both := Simulations(few, bonus, [0.5]).arms, Simulations(all, bonus, [0.9, 0.0]).arms;
    hide Simulations;
    assert some == [Arm(few[0], 1, 0.35), Arm(few[1], 0, 0.0)];
    assert both == [Arm(all[0], 1, 0.79), Arm(all[1], 1, 0.75)];
    TwoRanked(some[0], some[1]);
    TwoRanked(both[0], both[1]);
  }
}
