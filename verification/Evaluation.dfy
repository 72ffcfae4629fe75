/**
 The two evaluations of the threat classifier: the one that decides whether retrained weights may be
 used, and the script for saved weights. Both count outcomes: the label of a sample and the class
 predicted for it.
 */
module Evaluation {
  import opened Text
  import opened Numbers
  import opened Sums
  import opened Selections
  import NeuralClassifier

  datatype Outcome = Outcome(actual: string, predicted: string)

  // ----- counting -----

  function CountBoth(os: seq<Outcome>, a: string, p: string): nat {
    if os == [] then 0
    else CountBoth(os[..|os| - 1], a, p) + (if os[|os| - 1] == Outcome(a, p) then 1 else 0)
  }

  function CountActual(os: seq<Outcome>, a: string): nat {
    if os == [] then 0 else CountActual(os[..|os| - 1], a) + (if os[|os| - 1].actual == a then 1 else 0)
  }

  function CountPredicted(os: seq<Outcome>, p: string): nat {
    if os == [] then 0 else CountPredicted(os[..|os| - 1], p) + (if os[|os| - 1].predicted == p then 1 else 0)
  }

  function CountCorrect(os: seq<Outcome>): nat {
    if os == [] then 0
    else CountCorrect(os[..|os| - 1]) + (if os[|os| - 1].actual == os[|os| - 1].predicted then 1 else 0)
  }

  function Actuals(os: seq<Outcome>): set<string> {
    set o | o in os :: o.actual
  }

  function Seen(os: seq<Outcome>): set<string> {
    (set o | o in os :: o.actual) + (set o | o in os :: o.predicted)
  }

  /** The counters are the numbers of outcomes with these labels. */
  lemma {:induction false} CountsAreNumbers(os: seq<Outcome>, a: string, p: string)
    ensures CountBoth(os, a, p) == Number(os, (o: Outcome) => o.actual == a && o.predicted == p)
    ensures CountActual(os, a) == Number(os, (o: Outcome) => o.actual == a)
    ensures CountPredicted(os, p) == Number(os, (o: Outcome) => o.predicted == p)
    ensures CountCorrect(os) == Number(os, (o: Outcome) => o.actual == o.predicted)
  {
    CountsNumbered(os, a, p, (o: Outcome) => o.actual == a && o.predicted == p, (o: Outcome) => o.actual == a,
                   (o: Outcome) => o.predicted == p, (o: Outcome) => o.actual == o.predicted);
  }

  lemma {:induction false} CountsNumbered(os: seq<Outcome>, a: string, p: string, both: Outcome -> bool,
                                          actual: Outcome -> bool, predicted: Outcome -> bool,
                                          correct: Outcome -> bool)
    requires forall o :: both(o) <==> o.actual == a && o.predicted == p
    requires forall o :: actual(o) <==> o.actual == a
    requires forall o :: predicted(o) <==> o.predicted == p
    requires forall o :: correct(o) <==> o.actual == o.predicted
    ensures CountBoth(os, a, p) == Number(os, both) && CountActual(os, a) == Number(os, actual)
    ensures CountPredicted(os, p) == Number(os, predicted) && CountCorrect(os) == Number(os, correct)
  {
    hide Number;
    if os == [] {
      NumberNone(os, both);
      NumberNone(os, actual);
      NumberNone(os, predicted);
      NumberNone(os, correct);
    } else {
      var short, o := os[..|os| - 1], os[|os| - 1];
      CountsNumbered(short, a, p, both, actual, predicted, correct);
      assert os == short + [o];
      NumberMore(short, o, both);
      NumberMore(short, o, actual);
      NumberMore(short, o, predicted);
      NumberMore(short, o, correct);
    }
  }

  type Confusion = map<string, map<string, nat>>

  /** An absent entry counts as zero. */
  function Entry(c: Confusion, a: string, p: string): nat {
    if a in c && p in c[a] then c[a][p] else 0
  }

  /** The confusion table holds the counts, with a row for each actual label and an entry for each
      prediction made for it. */
  ghost predicate Tabulates(c: Confusion, os: seq<Outcome>) {
    && c.Keys == Actuals(os)
    && (forall a, p :: Entry(c, a, p) == CountBoth(os, a, p))
    && (forall a, p :: a in c && p in c[a] ==> c[a][p] > 0)
  }

  lemma {:induction false} CountsAreBounded(os: seq<Outcome>, l: string)
    ensures CountBoth(os, l, l) <= CountActual(os, l) <= |os|
    ensures CountBoth(os, l, l) <= CountPredicted(os, l) <= |os|
    ensures CountCorrect(os) <= |os|
  {
    if os != [] {
      CountsAreBounded(os[..|os| - 1], l);
    }
  }

  lemma {:induction false} CountedIffSeen(os: seq<Outcome>, l: string)
    ensures CountActual(os, l) > 0 <==> l in Actuals(os)
    ensures CountActual(os, l) + CountPredicted(os, l) > 0 <==> l in Seen(os)
  {
    if os != [] {
      var short, last := os[..|os| - 1], os[|os| - 1];
      CountedIffSeen(short, l);
      assert os == short + [last];
      assert l in Actuals(os) <==> l in Actuals(short) || l == last.actual;
      assert l in Seen(os) <==> l in Seen(short) || l == last.actual || l == last.predicted;
    }
  }

  // ----- what the table adds up to -----

  /** The row of a label sums to the samples with that label. */
  lemma {:induction false} RowSum(os: seq<Outcome>, a: string, keys: set<string>)
    requires Seen(os) <= keys
    ensures Sum(keys, p => CountBoth(os, a, p) as real) == CountActual(os, a) as real
  {
    if os == [] {
      SumZero(keys, p => CountBoth(os, a, p) as real);
    } else {
      var short, last := os[..|os| - 1], os[|os| - 1];
      RowSum(short, a, keys);
      assert os == short + [last];
      if last.actual == a {
        SumBump(keys, p => CountBoth(short, a, p) as real, p => CountBoth(os, a, p) as real, last.predicted, 1.0);
      } else {
        SumSame(keys, p => CountBoth(short, a, p) as real, p => CountBoth(os, a, p) as real);
      }
    }
  }

  /** The column of a label sums to the samples predicted as that label. */
  lemma {:induction false} ColumnSum(os: seq<Outcome>, p: string, keys: set<string>)
    requires Seen(os) <= keys
    ensures Sum(keys, a => CountBoth(os, a, p) as real) == CountPredicted(os, p) as real
  {
    if os == [] {
      SumZero(keys, a => CountBoth(os, a, p) as real);
    } else {
      var short, last := os[..|os| - 1], os[|os| - 1];
      ColumnSum(short, p, keys);
      assert os == short + [last];
      if last.predicted == p {
        SumBump(keys, a => CountBoth(short, a, p) as real, a => CountBoth(os, a, p) as real, last.actual, 1.0);
      } else {
        SumSame(keys, a => CountBoth(short, a, p) as real, a => CountBoth(os, a, p) as real);
      }
    }
  }

  /** The diagonal sums to the correct predictions, and both margins to all samples. */
  lemma {:induction false} TotalSums(os: seq<Outcome>, keys: set<string>)
    requires Seen(os) <= keys
    ensures Sum(keys, l => CountBoth(os, l, l) as real) == CountCorrect(os) as real
    ensures Sum(keys, l => CountActual(os, l) as real) == |os| as real
    ensures Sum(keys, l => CountPredicted(os, l) as real) == |os| as real
  {
    if os == [] {
      SumZero(keys, l => CountBoth(os, l, l) as real);
      SumZero(keys, l => CountActual(os, l) as real);
      SumZero(keys, l => CountPredicted(os, l) as real);
    } else {
      var short, last := os[..|os| - 1], os[|os| - 1];
      TotalSums(short, keys);
      assert os == short + [last];
      if last.actual == last.predicted {
        SumBump(keys, l => CountBoth(short, l, l) as real, l => CountBoth(os, l, l) as real, last.actual, 1.0);
      } else {
        SumSame(keys, l => CountBoth(short, l, l) as real, l => CountBoth(os, l, l) as real);
      }
      SumBump(keys, l => CountActual(short, l) as real, l => CountActual(os, l) as real, last.actual, 1.0);
      SumBump(keys, l => CountPredicted(short, l) as real, l => CountPredicted(os, l) as real, last.predicted, 1.0);
    }
  }

  /** The confusion table loses and invents nothing: rows sum to the labels, columns to the
      predictions, the diagonal to the correct ones, and each margin to all samples. */
  lemma ConfusionIsConserved(c: Confusion, os: seq<Outcome>)
    requires Tabulates(c, os)
    ensures var keys := Seen(os);
            && (forall a :: Sum(keys, p => Entry(c, a, p) as real) == CountActual(os, a) as real)
            && (forall p :: Sum(keys, a => Entry(c, a, p) as real) == CountPredicted(os, p) as real)
            && Sum(keys, l => Entry(c, l, l) as real) == CountCorrect(os) as real
            && Sum(keys, l => CountActual(os, l) as real) == |os| as real
            && Sum(keys, l => CountPredicted(os, l) as real) == |os| as real
  {
    hide Sum, CountBoth, CountActual, CountPredicted, CountCorrect, Entry, Seen;
    var keys := Seen(os);
    TotalSums(os, keys);
    SumSame(keys, l => Entry(c, l, l) as real, l => CountBoth(os, l, l) as real);
    forall a ensures Sum(keys, p => Entry(c, a, p) as real) == CountActual(os, a) as real {
      RowSum(os, a, keys);
      SumSame(keys, p => Entry(c, a, p) as real, p => CountBoth(os, a, p) as real);
    }
    forall p ensures Sum(keys, a => Entry(c, a, p) as real) == CountPredicted(os, p) as real {
      ColumnSum(os, p, keys);
      SumSame(keys, a => Entry(c, a, p) as real, a => CountBoth(os, a, p) as real);
    }
  }

  // ----- scores -----

  function Ratio(part: nat, whole: nat): real {
    if whole > 0 then part as real / whole as real else 0.0
  }

  /** The harmonic mean as the retraining computes it, zero where precision and recall are. */
  function HarmonicF1(precision: real, recall: real): real {
    if precision + recall != 0.0 then 2.0 * precision * recall / (precision + recall) else 0.0
  }

  /** The same from the counts, as the script computes it; nothing for a label never seen. */
  function CountF1(tp: nat, predicted: nat, actual: nat): Option<real> {
    if predicted + actual > 0 then Some(2.0 * tp as real / (predicted + actual) as real) else None
  }

  lemma {:induction false} RatioTimes(part: nat, whole: nat)
    requires part <= whole
    ensures Ratio(part, whole) * whole as real == part as real
    ensures 0.0 <= Ratio(part, whole) <= 1.0
    ensures part > 0 ==> Ratio(part, whole) > 0.0
  {
  }

  lemma CrossDivide(x: real, y: real, m: real, n: real)
    requires m > 0.0 && n > 0.0 && x * n == y * m
    ensures x / m == y / n
  {
    DivideBack(x / m, n);
    DivideBack(y / n, m);
    assert (x / m) * m == x && (y / n) * n == y;
    assert ((x / m) * n) * m == x * n;
    assert (x / m) * n * m == y * m;
    DivideBack((x / m) * n, m);
    DivideBack(y, m);
  }

  /** Both F1 formulas agree for every label that was seen. */
  lemma F1FormulasAgree(tp: nat, predicted: nat, actual: nat)
    requires tp <= predicted && tp <= actual && predicted + actual > 0
    ensures CountF1(tp, predicted, actual) == Some(HarmonicF1(Ratio(tp, predicted), Ratio(tp, actual)))
  {
    var p, r, t := Ratio(tp, predicted), Ratio(tp, actual), tp as real;
    RatioTimes(tp, predicted);
    RatioTimes(tp, actual);
    if tp == 0 {
      assert p == 0.0 && r == 0.0;
    } else {
      hide Ratio;
      var n := (predicted + actual) as real;
      assert n == predicted as real + actual as real;
      CrossTerms(p, r, predicted as real, actual as real, t);
      CrossDivide(2.0 * p * r, 2.0 * t, p + r, n);
      assert HarmonicF1(p, r) == 2.0 * p * r / (p + r);
      assert CountF1(tp, predicted, actual) == Some(2.0 * t / n);
    }
  }

  lemma NonNegativeProduct(x: real, y: real)
    requires x >= 0.0 && y >= 0.0
    ensures x * y >= 0.0
  {
  }

  lemma CrossTerms(p: real, r: real, m: real, n: real, t: real)
    requires p * m == t && r * n == t
    ensures (2.0 * p * r) * (m + n) == (2.0 * t) * (p + r)
  {
    assert (2.0 * p * r) * (m + n) == 2.0 * r * (p * m) + 2.0 * p * (r * n);
    assert (2.0 * t) * (p + r) == 2.0 * r * t + 2.0 * p * t;
  }

  lemma F1Range(p: real, r: real)
    requires 0.0 <= p <= 1.0 && 0.0 <= r <= 1.0
    ensures 0.0 <= HarmonicF1(p, r) <= 1.0
  {
    if p + r != 0.0 {
      NonNegativeProduct(p, r);
      NonNegativeProduct(p, 1.0 - r);
      NonNegativeProduct(r, 1.0 - p);
      assert p * (1.0 - r) == p - p * r && r * (1.0 - p) == r - p * r;
      assert 2.0 * p * r == p * r + p * r;
      DivideBoth(0.0, 2.0 * p * r, p + r);
      DivideBoth(2.0 * p * r, p + r, p + r);
      DivideBack(1.0, p + r);
    }
  }

  // ----- the evaluation used by the retraining -----

  datatype ClassReport = ClassReport(precision: real, recall: real, f1: real, support: nat)

  datatype Report = Report(
    accuracy: real,
    macroRecall: real,
    macroF1: real,
    perClass: map<string, ClassReport>,
    confusion: Confusion,
    samples: nat)

  function ReportFor(os: seq<Outcome>, l: string): ClassReport {
    var tp := CountBoth(os, l, l);
    var precision, recall := Ratio(tp, CountPredicted(os, l)), Ratio(tp, CountActual(os, l));
    ClassReport(precision, recall, HarmonicF1(precision, recall), CountActual(os, l))
  }

  /** The scores of a label, cleared of fractions: precision is the share of the correct among those
      predicted so, recall among those labelled so, either zero where there are none; F1 is two correct
      ones for every one predicted or labelled so. */
  lemma ScoresOnOutcomes(os: seq<Outcome>, l: string)
    ensures var tp := Number(os, (o: Outcome) => o.actual == l && o.predicted == l);
            var predicted := Number(os, (o: Outcome) => o.predicted == l);
            var labelled := Number(os, (o: Outcome) => o.actual == l);
            var r := ReportFor(os, l);
            && r.support == labelled
            && r.precision * predicted as real == tp as real && (predicted == 0 ==> r.precision == 0.0)
            && r.recall * labelled as real == tp as real && (labelled == 0 ==> r.recall == 0.0)
            && r.f1 * (predicted + labelled) as real == 2.0 * tp as real
  {
    CountsAreNumbers(os, l, l);
    CountsAreBounded(os, l);
    hide Number, CountBoth, CountPredicted, CountActual;
    var tp, predicted, labelled := CountBoth(os, l, l), CountPredicted(os, l), CountActual(os, l);
    ScoresCleared(tp, predicted, labelled);
  }

  lemma ScoresCleared(tp: nat, predicted: nat, labelled: nat)
    requires tp <= predicted && tp <= labelled
    ensures Ratio(tp, predicted) * predicted as real == tp as real && (predicted == 0 ==> Ratio(tp, predicted) == 0.0)
    ensures Ratio(tp, labelled) * labelled as real == tp as real && (labelled == 0 ==> Ratio(tp, labelled) == 0.0)
    ensures HarmonicF1(Ratio(tp, predicted), Ratio(tp, labelled)) * (predicted + labelled) as real == 2.0 * tp as real
  {
    RatioTimes(tp, predicted);
    RatioTimes(tp, labelled);
    RatioOfNone(tp);
    ClearedF1(tp, predicted, labelled);
    hide *;
  }

  lemma RatioOfNone(part: nat)
    ensures Ratio(part, 0) == 0.0
  {
  }

  lemma ClearedF1(tp: nat, predicted: nat, labelled: nat)
    requires tp <= predicted && tp <= labelled
    ensures HarmonicF1(Ratio(tp, predicted), Ratio(tp, labelled)) * (predicted + labelled) as real == 2.0 * tp as real
  {
    if predicted + labelled > 0 {
      F1FormulasAgree(tp, predicted, labelled);
      var n := (predicted + labelled) as real;
      assert 2.0 * tp as real / n * n == 2.0 * tp as real;
    }
  }

  datatype Counts = Counts(correct: nat, total: nat, predicted: nat)

  function CountsFor(os: seq<Outcome>, l: string): Counts {
    Counts(CountBoth(os, l, l), CountActual(os, l), CountPredicted(os, l))
  }

  lemma SomeActual(os: seq<Outcome>)
    requires os != []
    ensures |Actuals(os)| > 0
  {
    assert os[0].actual in Actuals(os);
  }

  /** What an evaluation has to say about the outcomes. */
  ghost predicate IsReport(r: Report, os: seq<Outcome>)
    requires os != []
  {
    SomeActual(os);
    && r.samples == |os|
    && r.accuracy == CountCorrect(os) as real / |os| as real
    && r.perClass.Keys == Seen(os)
    && (forall l :: l in r.perClass ==> r.perClass[l] == ReportFor(os, l))
    && Tabulates(r.confusion, os)
    && r.macroRecall == Sum(Actuals(os), l => ReportFor(os, l).recall) / |Actuals(os)| as real
    && r.macroF1 == Sum(Actuals(os), l => ReportFor(os, l).f1) / |Actuals(os)| as real
  }

  function Bump(c: Confusion, a: string, p: string): Confusion {
    var row := if a in c then c[a] else map[];
    c[a := row[p := (if p in row then row[p] else 0) + 1]]
  }

  lemma BumpTabulates(c: Confusion, os: seq<Outcome>, o: Outcome)
    requires Tabulates(c, os)
    ensures Tabulates(Bump(c, o.actual, o.predicted), os + [o])
  {
    assert (os + [o])[..|os|] == os;
    var after := Bump(c, o.actual, o.predicted);
    assert Actuals(os + [o]) == Actuals(os) + {o.actual};
    forall a, p ensures Entry(after, a, p) == CountBoth(os + [o], a, p) {
      assert Entry(c, a, p) == CountBoth(os, a, p);
    }
  }

  /** The counters of all labels seen so far. */
  ghost predicate Counting(recall: map<string, Counts>, os: seq<Outcome>) {
    recall.Keys == Seen(os) && forall l :: l in recall ==> recall[l] == CountsFor(os, l)
  }

  function GetCounts(recall: map<string, Counts>, l: string): Counts {
    if l in recall then recall[l] else Counts(0, 0, 0)
  }

  /** One sample more: the counters of its two labels, which may be the same. */
  ghost predicate Counted(recall: map<string, Counts>, o: Outcome, after: map<string, Counts>) {
    && after.Keys == recall.Keys + {o.actual, o.predicted}
    && forall l :: l in after ==> after[l] == WithOutcome(GetCounts(recall, l), o, l)
  }

  function WithOutcome(c: Counts, o: Outcome, l: string): Counts {
    Counts(c.correct + (if l == o.actual == o.predicted then 1 else 0),
           c.total + (if l == o.actual then 1 else 0),
           c.predicted + (if l == o.predicted then 1 else 0))
  }

  function CountOne(recall: map<string, Counts>, o: Outcome): (after: map<string, Counts>)
    ensures Counted(recall, o, after)
  {
    var hit := if o.predicted == o.actual then 1 else 0;
    var actual := GetCounts(recall, o.actual);
    var first := recall[o.actual := actual.(correct := actual.correct + hit, total := actual.total + 1)];
    var predicted := GetCounts(first, o.predicted);
    first[o.predicted := predicted.(predicted := predicted.predicted + 1)]
  }

  lemma CountsForMore(os: seq<Outcome>, o: Outcome, l: string)
    ensures CountsFor(os + [o], l) == WithOutcome(CountsFor(os, l), o, l)
    ensures l !in Seen(os) ==> CountsFor(os, l) == Counts(0, 0, 0)
  {
    assert (os + [o])[..|os|] == os;
    CountedIffSeen(os, l);
    CountsAreBounded(os, l);
  }

  lemma CountingMore(recall: map<string, Counts>, os: seq<Outcome>, o: Outcome, after: map<string, Counts>)
    requires Counting(recall, os) && Counted(recall, o, after)
    ensures Counting(after, os + [o])
  {
    hide CountsFor, WithOutcome;
    assert Seen(os + [o]) == Seen(os) + {o.actual, o.predicted};
    forall l | l in after ensures after[l] == CountsFor(os + [o], l) {
      CountsForMore(os, o, l);
    }
  }

  lemma NothingCounted()
    ensures Tabulates(map[], []) && Counting(map[], []) && CountCorrect([]) == 0
  {
  }

  lemma CorrectStep(os: seq<Outcome>, k: nat)
    requires k < |os|
    ensures os[..k + 1] == os[..k] + [os[k]]
    ensures CountCorrect(os[..k + 1]) == CountCorrect(os[..k]) + (if os[k].actual == os[k].predicted then 1 else 0)
  {
    assert os[..k + 1][..k] == os[..k];
  }

  /** The loop over the samples of a partition. */
  method CountOutcomes(os: seq<Outcome>) returns (correct: nat, recall: map<string, Counts>, confusion: Confusion)
    ensures correct == CountCorrect(os) && Counting(recall, os) && Tabulates(confusion, os)
  {
    correct, recall, confusion := 0, map[], map[];
    hide Counting, Tabulates, Bump, CountCorrect, CountOne, Counted;
    NothingCounted();
    assert os[..0] == [];
    for k := 0 to |os|
      invariant correct == CountCorrect(os[..k]) && Counting(recall, os[..k]) && Tabulates(confusion, os[..k])
    {
      var o := os[k];
      var hit := if o.predicted == o.actual then 1 else 0;
      correct := correct + hit;
      ghost var before, table := recall, confusion;
      recall := CountOne(recall, o);
      confusion := Bump(confusion, o.actual, o.predicted);
      CorrectStep(os, k);
      CountingMore(before, os[..k], o, recall);
      BumpTabulates(table, os[..k], o);
    }
    assert os[..|os|] == os;
  }

  /** The mean of a score over the labels with support. */
  method MeanOver(labels: set<string>, score: string -> real) returns (mean: real)
    requires labels != {}
    ensures mean == Sum(labels, score) / |labels| as real
  {
    var sum, rest := 0.0, labels;
    while rest != {}
      invariant rest <= labels && sum + Sum(rest, score) == Sum(labels, score)
      decreases rest
    {
      var l :| l in rest;
      SumTake(rest, score, l);
      sum := sum + score(l);
      rest := rest - {l};
    }
    mean := sum / |labels| as real;
  }

  /** The evaluation of one partition; partitions are never empty. */
  method Evaluate(os: seq<Outcome>) returns (r: Report)
    requires os != []
    ensures IsReport(r, os)
  {
    var correct, recall, confusion := CountOutcomes(os);
    var perClass := map l | l in recall ::
      var c := recall[l];
      var precision, rate := Ratio(c.correct, c.predicted), Ratio(c.correct, c.total);
      ClassReport(precision, rate, HarmonicF1(precision, rate), c.total);
    var supported := set l | l in perClass && perClass[l].support > 0;
    SupportedAreActual(os, recall, perClass, supported);
    var recallOf := l => if l in perClass then perClass[l].recall else 0.0;
    var f1Of := l => if l in perClass then perClass[l].f1 else 0.0;
    var macroRecall := MeanOver(supported, recallOf);
    var macroF1 := MeanOver(supported, f1Of);
    SumSame(supported, recallOf, l => ReportFor(os, l).recall);
    SumSame(supported, f1Of, l => ReportFor(os, l).f1);
    r := Report(correct as real / |os| as real, macroRecall, macroF1, perClass, confusion, |os|);
  }

  lemma SupportedAreActual(os: seq<Outcome>, recall: map<string, Counts>, perClass: map<string, ClassReport>,
                           supported: set<string>)
    requires os != [] && Counting(recall, os)
    requires perClass.Keys == recall.Keys
    requires forall l :: l in perClass ==>
                           var c := recall[l];
                           perClass[l] == ClassReport(Ratio(c.correct, c.predicted), Ratio(c.correct, c.total),
                                                      HarmonicF1(Ratio(c.correct, c.predicted),
                                                                 Ratio(c.correct, c.total)), c.total)
    requires supported == set l | l in perClass && perClass[l].support > 0
    ensures supported == Actuals(os) && supported != {}
    ensures perClass.Keys == Seen(os) && forall l :: l in perClass ==> perClass[l] == ReportFor(os, l)
  {
    forall l ensures l in supported <==> l in Actuals(os) {
      CountedIffSeen(os, l);
    }
    assert os[0].actual in Actuals(os);
  }

  /** The share of the correct predictions a label accounts for: its support times its recall. */
  function WeightedRecall(os: seq<Outcome>, l: string): real {
    ReportFor(os, l).recall * ReportFor(os, l).support as real
  }

  lemma WeightedRecallsSum(os: seq<Outcome>)
    ensures Sum(Seen(os), l => WeightedRecall(os, l)) == CountCorrect(os) as real
  {
    hide WeightedRecall, Sum, CountBoth, CountCorrect;
    forall l ensures WeightedRecall(os, l) == CountBoth(os, l, l) as real {
      SupportTimesRecall(os, l);
    }
    SumSame(Seen(os), l => WeightedRecall(os, l), l => CountBoth(os, l, l) as real);
    TotalSums(os, Seen(os));
  }

  /** Accuracy is the mean recall weighted by support. */
  lemma AccuracyIsWeightedRecall(r: Report, os: seq<Outcome>)
    requires os != [] && IsReport(r, os)
    ensures r.accuracy == Sum(Seen(os), l => WeightedRecall(os, l)) / |os| as real
  {
    hide WeightedRecall, Sum, Tabulates;
    WeightedRecallsSum(os);
  }

  lemma SupportTimesRecall(os: seq<Outcome>, l: string)
    ensures WeightedRecall(os, l) == CountBoth(os, l, l) as real
  {
    hide ReportFor, Ratio, HarmonicF1, CountBoth, CountActual, CountPredicted;
    CountsAreBounded(os, l);
    RatioTimes(CountBoth(os, l, l), CountActual(os, l));
    RecallAndSupport(os, l);
  }

  lemma RecallAndSupport(os: seq<Outcome>, l: string)
    ensures ReportFor(os, l).recall == Ratio(CountBoth(os, l, l), CountActual(os, l))
    ensures ReportFor(os, l).support == CountActual(os, l)
  {
    hide Ratio, HarmonicF1, CountBoth, CountActual, CountPredicted;
  }

  lemma ScoresAreProportions(os: seq<Outcome>, l: string)
    ensures 0.0 <= ReportFor(os, l).precision <= 1.0 && 0.0 <= ReportFor(os, l).recall <= 1.0
    ensures 0.0 <= ReportFor(os, l).f1 <= 1.0
  {
    CountsAreBounded(os, l);
    RatioTimes(CountBoth(os, l, l), CountActual(os, l));
    RatioTimes(CountBoth(os, l, l), CountPredicted(os, l));
    F1Range(ReportFor(os, l).precision, ReportFor(os, l).recall);
  }

  /** All scores of an evaluation are proportions. */
  lemma AveragesAreProportions(r: Report, os: seq<Outcome>)
    requires os != [] && IsReport(r, os)
    ensures 0.0 <= r.accuracy <= 1.0 && 0.0 <= r.macroRecall <= 1.0 && 0.0 <= r.macroF1 <= 1.0
  {
    hide ReportFor;
    CountsAreBounded(os, os[0].actual);
    RateRange(CountCorrect(os), |os|);
    var labels, recalls, f1s := Actuals(os), l => ReportFor(os, l).recall, l => ReportFor(os, l).f1;
    forall l ensures 0.0 <= recalls(l) <= 1.0 && 0.0 <= f1s(l) <= 1.0 {
      ScoresAreProportions(os, l);
    }
    SomeActual(os);
    SumOfProportions(labels, recalls);
    SumOfProportions(labels, f1s);
    MeanRange(Sum(labels, recalls), |labels|);
    MeanRange(Sum(labels, f1s), |labels|);
  }

  lemma MeanRange(sum: real, n: nat)
    requires n > 0 && 0.0 <= sum <= n as real
    ensures 0.0 <= sum / n as real <= 1.0
  {
    DivideBoth(0.0, sum, n as real);
    DivideBoth(sum, n as real, n as real);
  }

  // ----- the script's evaluation -----

  datatype ScriptClass = ScriptClass(precision: Option<real>, recall: Option<real>, f1: Option<real>, support: nat)

  datatype ScriptReport =
    ScriptReport(samples: nat, correct: nat, accuracy: real, confusion: Confusion, perClass: map<string, ScriptClass>)

  function Defined(part: nat, whole: nat): Option<real> {
    if whole > 0 then Some(part as real / whole as real) else None
  }

  function ScriptClassFor(os: seq<Outcome>, l: string): ScriptClass {
    var tp, predicted, actual := CountBoth(os, l, l), CountPredicted(os, l), CountActual(os, l);
    ScriptClass(Defined(tp, predicted), Defined(tp, actual), CountF1(tp, predicted, actual), actual)
  }

  /** The sum of a row of the table, entry by entry. */
  method RowTotal(c: Confusion, a: string, ghost os: seq<Outcome>) returns (n: nat)
    requires Tabulates(c, os)
    ensures n == CountActual(os, a)
  {
    var row := if a in c then c[a] else map[];
    ghost var f := (p: string) => Entry(c, a, p) as real;
    ghost var counts := (p: string) => CountBoth(os, a, p) as real;
    var rest := row.Keys;
    n := 0;
    while rest != {}
      invariant rest <= row.Keys && n as real + Sum(rest, f) == Sum(row.Keys, f)
      decreases rest
    {
      var p :| p in rest;
      SumTake(rest, f, p);
      n := n + row[p];
      rest := rest - {p};
    }
    var keys := Seen(os) + row.Keys;
    RowSum(os, a, keys);
    SumSubset(row.Keys, keys, f);
    SumSame(keys, f, counts);
  }

  /** The sum of a column, row by row. */
  method ColumnTotal(c: Confusion, p: string, ghost os: seq<Outcome>) returns (n: nat)
    requires Tabulates(c, os)
    ensures n == CountPredicted(os, p)
  {
    ghost var f := (a: string) => Entry(c, a, p) as real;
    ghost var counts := (a: string) => CountBoth(os, a, p) as real;
    var rest := c.Keys;
    n := 0;
    while rest != {}
      invariant rest <= c.Keys && n as real + Sum(rest, f) == Sum(c.Keys, f)
      decreases rest
    {
      var a :| a in rest;
      SumTake(rest, f, a);
      n := n + Entry(c, a, p);
      rest := rest - {a};
    }
    var keys := Seen(os);
    ColumnSum(os, p, keys);
    SumSubset(c.Keys, keys, f);
    SumSame(keys, f, counts);
  }

  /** The labels of the table: its rows and their entries. */
  function Labels(c: Confusion): set<string> {
    c.Keys + set a, p | a in c && p in c[a] :: p
  }

  lemma LabelsAreSeen(c: Confusion, os: seq<Outcome>)
    requires Tabulates(c, os)
    ensures Labels(c) == Seen(os)
  {
    forall p ensures p in Labels(c) <==> p in Seen(os) {
      if p in Labels(c) && p !in c.Keys {
        var a :| a in c && p in c[a];
        assert Entry(c, a, p) > 0;
        CountsBothSeen(os, a, p);
      }
      if o :| o in os && o.predicted == p {
        OccurringIsCounted(os, o);
        assert Entry(c, o.actual, p) > 0;
      }
    }
  }

  lemma {:induction false} CountsBothSeen(os: seq<Outcome>, a: string, p: string)
    ensures CountBoth(os, a, p) > 0 ==> a in Seen(os) && p in Seen(os)
  {
    if os != [] {
      var short, last := os[..|os| - 1], os[|os| - 1];
      CountsBothSeen(short, a, p);
      assert os == short + [last];
      assert last in os && forall o :: o in short ==> o in os;
    }
  }

  lemma {:induction false} OccurringIsCounted(os: seq<Outcome>, o: Outcome)
    requires o in os
    ensures CountBoth(os, o.actual, o.predicted) > 0
  {
    var short, last := os[..|os| - 1], os[|os| - 1];
    if last != o {
      assert os == short + [last];
      OccurringIsCounted(short, o);
    }
  }

  method EvaluateSaved(os: seq<Outcome>) returns (r: ScriptReport)
    requires os != []
    ensures r.samples == |os| && r.correct == CountCorrect(os) && Tabulates(r.confusion, os)
    ensures r.accuracy == CountCorrect(os) as real / |os| as real
    ensures r.perClass.Keys == Seen(os) && forall l :: l in r.perClass ==> r.perClass[l] == ScriptClassFor(os, l)
  {
    var correct, confusion: Confusion := 0, map[];
    NothingCounted();
    hide Tabulates;
    assert os[..0] == [];
    for k := 0 to |os|
      invariant correct == CountCorrect(os[..k]) && Tabulates(confusion, os[..k])
    {
      assert os[..k + 1] == os[..k] + [os[k]] && os[..k + 1][..k] == os[..k];
      if os[k].predicted == os[k].actual {
        correct := correct + 1;
      }
      BumpTabulates(confusion, os[..k], os[k]);
      confusion := Bump(confusion, os[k].actual, os[k].predicted);
    }
    assert os[..|os|] == os;
    LabelsAreSeen(confusion, os);
    var labels, perClass := Labels(confusion), map[];
    var rest := labels;
    while rest != {}
      invariant rest <= labels && perClass.Keys == labels - rest
      invariant forall l :: l in perClass ==> perClass[l] == ScriptClassFor(os, l)
      decreases rest
    {
      var l :| l in rest;
      var predicted := ColumnTotal(confusion, l, os);
      var actual := RowTotal(confusion, l, os);
      var tp := Entry(confusion, l, l);
      EntryIsCount(confusion, os, l);
      perClass := perClass[l := ScriptClass(Defined(tp, predicted), Defined(tp, actual),
                                            CountF1(tp, predicted, actual), actual)];
      rest := rest - {l};
    }
    r := ScriptReport(|os|, correct, correct as real / |os| as real, confusion, perClass);
  }

  /** A sample as read from a file; its event may be no object. */
  datatype Labelled<Event> = Labelled(actual: string, event: Option<Event>)

  predicate GoodSample<E>(s: Labelled<E>, classes: set<string>) {
    s.actual in classes && s.event.Some?
  }

  predicate Acceptable<E>(samples: seq<Labelled<E>>, classes: set<string>) {
    0 < |samples| <= 10000 && forall i :: 0 <= i < |samples| ==> GoodSample(samples[i], classes)
  }

  /** The outcomes of a held-out file. */
  function Predicted<E>(samples: seq<Labelled<E>>, predict: E -> string): seq<Outcome>
    requires forall i :: 0 <= i < |samples| ==> samples[i].event.Some?
  {
    seq(|samples|, i requires 0 <= i < |samples| => Outcome(samples[i].actual, predict(samples[i].event.value)))
  }

  /** Nothing is reported without validated weights, or for a dataset that is empty, too large, or has an
      unknown label or an event that is no object. */
  method EvaluateFile<E>(loaded: bool, samples: seq<Labelled<E>>, classes: set<string>, predict: E -> string)
    returns (r: Option<ScriptReport>)
    ensures r.Some? <==> loaded && Acceptable(samples, classes)
    ensures r.Some? ==>
              var os := Predicted(samples, predict);
              && os != [] && r.value.samples == |samples| && r.value.correct == CountCorrect(os)
              && r.value.accuracy == CountCorrect(os) as real / |os| as real
              && Tabulates(r.value.confusion, os) && r.value.perClass.Keys == Seen(os)
              && forall l :: l in r.value.perClass ==> r.value.perClass[l] == ScriptClassFor(os, l)
  {
    if !loaded || |samples| == 0 || |samples| > 10000 {
      return None;
    }
    var os: seq<Outcome> := [];
    for i := 0 to |samples|
      invariant forall j :: 0 <= j < i ==> GoodSample(samples[j], classes)
      invariant |os| == i && forall j :: 0 <= j < i ==>
          os[j] == Outcome(samples[j].actual, predict(samples[j].event.value))
    {
      if !GoodSample(samples[i], classes) {
        return None;
      }
      os := os + [Outcome(samples[i].actual, predict(samples[i].event.value))];
    }
    assert os == Predicted(samples, predict);
    hide Tabulates, Seen, ScriptClassFor, CountCorrect;
    var report := EvaluateSaved(os);
    r := Some(report);
  }

  lemma EntryIsCount(c: Confusion, os: seq<Outcome>, l: string)
    requires Tabulates(c, os)
    ensures Entry(c, l, l) == CountBoth(os, l, l)
  {
  }

  /** On the same outcomes both evaluations give every label they have seen the same F1. */
  lemma EvaluationsAgree(r: Report, s: ScriptReport, os: seq<Outcome>)
    requires os != [] && IsReport(r, os)
    requires s.perClass.Keys == Seen(os) && forall l :: l in s.perClass ==> s.perClass[l] == ScriptClassFor(os, l)
    ensures r.perClass.Keys == s.perClass.Keys
    ensures s.accuracy == CountCorrect(os) as real / |os| as real ==> r.accuracy == s.accuracy
    ensures forall l :: l in r.perClass ==>
                          && s.perClass[l].f1 == Some(r.perClass[l].f1)
                          && s.perClass[l].support == r.perClass[l].support
                          && (s.perClass[l].recall.Some? ==> s.perClass[l].recall.value == r.perClass[l].recall)
                          && (s.perClass[l].precision.Some? ==>
                              s.perClass[l].precision.value == r.perClass[l].precision)
  {
    forall l | l in r.perClass
      ensures s.perClass[l].f1 == Some(r.perClass[l].f1)
    {
      CountedIffSeen(os, l);
      CountsAreBounded(os, l);
      F1FormulasAgree(CountBoth(os, l, l), CountPredicted(os, l), CountActual(os, l));
    }
  }

  // ----- retraining on reviewed examples -----

  datatype Partition = Train | Validation | Test

  datatype Sample<Event> = Sample(actual: string, partition: Partition, event: Event, hash: string, approved: bool,
                                  reviewed: bool)

  datatype GateError = NotReviewed | Leakage | TooFew | Unrepresented | IncompatibleBaseline

  function Part<E>(samples: seq<Sample<E>>, part: Partition): seq<Sample<E>> {
    if samples == [] then []
    else
      var last := samples[|samples| - 1];
      Part(samples[..|samples| - 1], part) + (if last.partition == part then [last] else [])
  }

  function LabelsIn<E>(samples: seq<Sample<E>>): set<string> {
    set i | 0 <= i < |samples| :: samples[i].actual
  }

  /** The gates a dataset must pass, in the order they are tried. */
  function Gate<E>(samples: seq<Sample<E>>, classes: set<string>): Option<GateError> {
    if |samples| > 2000 || exists i :: 0 <= i < |samples| &&
                                        (!samples[i].approved || !samples[i].reviewed || samples[i].actual !in classes)
    then Some(NotReviewed)
    else if exists i, j :: 0 <= i < j < |samples| && samples[i].hash == samples[j].hash then Some(Leakage)
    else if |Part(samples, Train)| < 20 || |Part(samples, Validation)| < 10 || |Part(samples, Test)| < 10
    then Some(TooFew)
    else if exists l :: l in LabelsIn(samples) && (l !in LabelsIn(Part(samples, Train)) ||
                                                   l !in LabelsIn(Part(samples, Validation)) ||
                                                   l !in LabelsIn(Part(samples, Test)))
    then Some(Unrepresented)
    else None
  }

  function Outcomes<E>(samples: seq<Sample<E>>, predict: E -> string): seq<Outcome> {
    seq(|samples|, i requires 0 <= i < |samples| => Outcome(samples[i].actual, predict(samples[i].event)))
  }

  lemma LabelsOfMore<E>(samples: seq<Sample<E>>, s: Sample<E>)
    ensures LabelsIn(samples + [s]) == LabelsIn(samples) + {s.actual}
    ensures LabelsIn(samples + []) == LabelsIn(samples)
  {
    var more := samples + [s];
    assert samples + [] == samples && more[|samples|] == s;
    assert forall i :: 0 <= i < |samples| ==> more[i] == samples[i];
  }

  lemma {:induction false} PartLabels<E>(samples: seq<Sample<E>>, part: Partition)
    ensures LabelsIn(Part(samples, part)) <= LabelsIn(samples)
  {
    if samples != [] {
      var short, last := samples[..|samples| - 1], samples[|samples| - 1];
      PartLabels(short, part);
      LabelsOfMore(short, last);
      assert samples == short + [last];
      LabelsOfMore(Part(short, part), last);
    }
  }

  lemma ActualsAreLabels<E>(samples: seq<Sample<E>>, predict: E -> string)
    ensures Actuals(Outcomes(samples, predict)) == LabelsIn(samples)
  {
    var os := Outcomes(samples, predict);
    forall l ensures l in Actuals(os) <==> l in LabelsIn(samples) {
      if l in LabelsIn(samples) {
        var i :| 0 <= i < |samples| && samples[i].actual == l;
        assert os[i] in os && os[i].actual == l;
      }
    }
  }

  /** Past the gates every partition has samples of exactly the labels of the dataset, whatever the
      model predicts: all averages compared are over the same labels. */
  lemma GatesMakeAveragesComparable<E>(samples: seq<Sample<E>>, classes: set<string>, part: Partition,
                                       predict: E -> string)
    requires Gate(samples, classes) == None
    ensures Outcomes(Part(samples, part), predict) != []
    ensures Actuals(Outcomes(Part(samples, part), predict)) == LabelsIn(samples)
  {
    PartLabels(samples, part);
    ActualsAreLabels(Part(samples, part), predict);
  }

  lemma {:induction false} PartMembers<E>(samples: seq<Sample<E>>, part: Partition, s: Sample<E>)
    ensures s in Part(samples, part) <==> s in samples && s.partition == part
  {
    if samples != [] {
      var short, last := samples[..|samples| - 1], samples[|samples| - 1];
      PartMembers(short, part, s);
      assert samples == short + [last];
    }
  }

  /** A partition holds the samples marked with it, in their order. */
  lemma {:induction false} PartOnFields<E(!new)>(samples: seq<Sample<E>>, part: Partition, wanted: Sample<E> -> bool)
    requires forall s :: wanted(s) <==> s.partition == part
    ensures Selects(samples, wanted, Part(samples, part))
  {
    hide Selects;
    if samples == [] {
      SelectsNone(wanted);
    } else {
      var short, last := samples[..|samples| - 1], samples[|samples| - 1];
      PartOnFields(short, part, wanted);
      var kept := Part(short, part);
      SelectsMore(short, last, wanted, kept);
      assert samples == short + [last] && kept + [] == kept;
    }
  }

  ghost predicate AllReviewed<E>(samples: seq<Sample<E>>, classes: set<string>) {
    && |samples| <= 2000
    && forall i :: 0 <= i < |samples| ==> samples[i].approved && samples[i].reviewed && samples[i].actual in classes
  }

  ghost predicate AllDifferent<E>(samples: seq<Sample<E>>) {
    forall i, j :: 0 <= i < |samples| && 0 <= j < |samples| && samples[i].hash == samples[j].hash ==> i == j
  }

  ghost predicate LargeEnough<E(!new)>(samples: seq<Sample<E>>) {
    && Number(samples, (s: Sample<E>) => s.partition == Train) >= 20
    && Number(samples, (s: Sample<E>) => s.partition == Validation) >= 10
    && Number(samples, (s: Sample<E>) => s.partition == Test) >= 10
  }

  /** Every label occurs in every partition. */
  ghost predicate Represented<E>(samples: seq<Sample<E>>) {
    forall i, part :: 0 <= i < |samples| ==> OccursIn(samples, samples[i].actual, part)
  }

  ghost predicate OccursIn<E>(samples: seq<Sample<E>>, l: string, part: Partition) {
    exists j :: 0 <= j < |samples| && samples[j].partition == part && samples[j].actual == l
  }

  lemma PartSize<E(!new)>(samples: seq<Sample<E>>, part: Partition)
    ensures |Part(samples, part)| == Number(samples, (s: Sample<E>) => s.partition == part)
  {
    var wanted := (s: Sample<E>) => s.partition == part;
    PartOnFields(samples, part, wanted);
    SelectsNumber(samples, wanted, Part(samples, part));
  }

  lemma InPartIff<E>(samples: seq<Sample<E>>, l: string, part: Partition)
    ensures l in LabelsIn(Part(samples, part)) <==> OccursIn(samples, l, part)
  {
    hide Part;
    var kept := Part(samples, part);
    if l in LabelsIn(kept) {
      var i :| 0 <= i < |kept| && kept[i].actual == l;
      PartMembers(samples, part, kept[i]);
      var j :| 0 <= j < |samples| && samples[j] == kept[i];
    }
    if OccursIn(samples, l, part) {
      var j :| 0 <= j < |samples| && samples[j].partition == part && samples[j].actual == l;
      PartMembers(samples, part, samples[j]);
      var i :| 0 <= i < |kept| && kept[i] == samples[j];
    }
  }

  /** What a dataset must be: at most 2000 samples, all approved, reviewed and of a known class; no event
      twice; 20 samples to train on and 10 in either held-out partition; every label in every partition.
      The first of these that fails is the reason given. */
  lemma GateIff<E(!new)>(samples: seq<Sample<E>>, classes: set<string>)
    ensures var gate := Gate(samples, classes);
            && (gate == None <==> AllReviewed(samples, classes) && AllDifferent(samples) && LargeEnough(samples)
                                  && Represented(samples))
            && (gate == Some(NotReviewed) <==> !AllReviewed(samples, classes))
            && (gate == Some(Leakage) <==> AllReviewed(samples, classes) && !AllDifferent(samples))
            && (gate == Some(TooFew) <==>
                AllReviewed(samples, classes) && AllDifferent(samples) && !LargeEnough(samples))
            && gate != Some(IncompatibleBaseline)
  {
    PartSize(samples, Train);
    PartSize(samples, Validation);
    PartSize(samples, Test);
    hide Part, Number;
    assert LargeEnough(samples) <==>
      |Part(samples, Train)| >= 20 && |Part(samples, Validation)| >= 10 && |Part(samples, Test)| >= 10;
    RepresentedIff(samples);
    hide LargeEnough, Represented, LabelsIn;
  }

  lemma RepresentedIff<E>(samples: seq<Sample<E>>)
    ensures Represented(samples) <==>
            !exists l :: l in LabelsIn(samples) && (l !in LabelsIn(Part(samples, Train)) ||
                                                    l !in LabelsIn(Part(samples, Validation)) ||
                                                    l !in LabelsIn(Part(samples, Test)))
  {
    hide Part, OccursIn;
    forall l, part ensures l in LabelsIn(Part(samples, part)) <==> OccursIn(samples, l, part) {
      InPartIff(samples, l, part);
    }
    if Represented(samples) {
      forall l | l in LabelsIn(samples)
        ensures forall part :: l in LabelsIn(Part(samples, part))
      {
        var i :| 0 <= i < |samples| && samples[i].actual == l;
      }
    } else {
      var i, part :| 0 <= i < |samples| && !OccursIn(samples, samples[i].actual, part);
      assert samples[i].actual in LabelsIn(samples);
      assert samples[i].actual !in LabelsIn(Part(samples, part));
      assert part == Train || part == Validation || part == Test;
    }
  }

  lemma {:induction false} PartsAddUp<E>(samples: seq<Sample<E>>)
    ensures |Part(samples, Train)| + |Part(samples, Validation)| + |Part(samples, Test)| == |samples|
  {
    if samples != [] {
      PartsAddUp(samples[..|samples| - 1]);
    }
  }

  /** Past the gates every sample is in exactly one partition, and no event occurs in two of them: what
      is measured was not trained on. */
  lemma GatesPreventLeakage<E>(samples: seq<Sample<E>>, classes: set<string>)
    requires Gate(samples, classes) == None
    ensures |Part(samples, Train)| + |Part(samples, Validation)| + |Part(samples, Test)| == |samples|
    ensures forall p, q, a, b :: p != q && a in Part(samples, p) && b in Part(samples, q) ==> a.hash != b.hash
  {
    PartsAddUp(samples);
    assert forall i, j :: 0 <= i < j < |samples| ==> samples[i].hash != samples[j].hash;
    hide Gate, Part;
    forall p, q, a, b | p != q && a in Part(samples, p) && b in Part(samples, q) ensures a.hash != b.hash {
      PartMembers(samples, p, a);
      PartMembers(samples, q, b);
      var i :| 0 <= i < |samples| && samples[i] == a;
      var j :| 0 <= j < |samples| && samples[j] == b;
      assert i != j;
    }
  }

  datatype Metrics = Metrics(validation: Report, test: Report)

  datatype Training = Refused(why: GateError) | Trained(before: Metrics, after: Metrics, eligible: bool)

  predicate GoodEnough(r: Report) {
    r.accuracy >= 0.8 && r.macroRecall >= 0.8
  }

  ghost predicate IsMetrics<E>(m: Metrics, samples: seq<Sample<E>>, predict: E -> string) {
    var validation, test := Outcomes(Part(samples, Validation), predict), Outcomes(Part(samples, Test), predict);
    validation != [] && test != [] && IsReport(m.validation, validation) && IsReport(m.test, test)
  }

  method EvaluateBoth<E>(samples: seq<Sample<E>>, classes: set<string>, predict: E -> string) returns (m: Metrics)
    requires Gate(samples, classes) == None
    ensures IsMetrics(m, samples, predict)
  {
    hide IsReport, Gate;
    GatesMakeAveragesComparable(samples, classes, Validation, predict);
    GatesMakeAveragesComparable(samples, classes, Test, predict);
    var validation := Evaluate(Outcomes(Part(samples, Validation), predict));
    var test := Evaluate(Outcomes(Part(samples, Test), predict));
    m := Metrics(validation, test);
  }

  /** Why a retraining is refused: the first gate the dataset does not pass, then a baseline that the
      classifier does not accept. */
  function Refusal<E>(samples: seq<Sample<E>>, classes: seq<string>, baseline: Option<NeuralClassifier.WeightFile>)
    : Option<GateError>
  {
    var gate := Gate(samples, set c | c in classes);
    if gate.Some? then gate
    else if baseline.Some? && !NeuralClassifier.Accepts(baseline, classes) then Some(IncompatibleBaseline)
    else None
  }

  /** `before` and `after` stand for the model's predictions before and after training. Weights are
      eligible only if they are good on both held-out partitions and on neither less accurate. */
  method TrainReviewedExamples<E>(samples: seq<Sample<E>>, classes: seq<string>,
                                  baseline: Option<NeuralClassifier.WeightFile>,
                                  before: E -> string, after: E -> string)
    returns (t: Training)
    ensures t.Refused? <==> Refusal(samples, classes, baseline).Some?
    ensures t.Refused? ==> Refusal(samples, classes, baseline) == Some(t.why)
    ensures t.Trained? ==> IsMetrics(t.before, samples, before) && IsMetrics(t.after, samples, after)
    ensures t.Trained? ==>
              (t.eligible <==>
               && t.after.validation.accuracy >= 0.8 && t.after.validation.macroRecall >= 0.8
               && t.after.test.accuracy >= 0.8 && t.after.test.macroRecall >= 0.8
               && t.after.validation.accuracy >= t.before.validation.accuracy
               && t.after.test.accuracy >= t.before.test.accuracy)
  {
    hide Gate, IsMetrics, NeuralClassifier.Accepts;
    var labels := set c | c in classes;
    var gate := Gate(samples, labels);
    if gate.Some? {
      return Refused(gate.value);
    }
    if baseline.Some? && !NeuralClassifier.Accepts(baseline, classes) {
      return Refused(IncompatibleBaseline);
    }
    var was := EvaluateBoth(samples, labels, before);
    var now := EvaluateBoth(samples, labels, after);
    var eligible := GoodEnough(now.validation) && GoodEnough(now.test)
      && now.validation.accuracy >= was.validation.accuracy && now.test.accuracy >= was.test.accuracy;
    t := Trained(was, now, eligible);
  }
}
