/**
 The result section component: `calculateResult` turns the questionnaire and
 the user's answers into per-category scores, the aggregate score and the
 normaliser, and derives the three mapped arrays of the radar chart from them.
 The component's fields are modelled as an immutable state value.
 */
module ResultSection {
  import opened Types
  import opened Scoring
  import opened Selection
  import opened Colors

  /** The fields `calculateResult` writes: `total`, `score` and `categoriesScores`. */
  datatype Section = Section(total: int, score: int, categoriesScores: seq<int>)

  /** The field values of a freshly constructed component. */
  const Initial := Section(0, 0, [])

  /** One plotted radar value: `score / 10`, or NaN when the score is `undefined`. */
  datatype Plotted = Value(v: real) | NaN

  /** The data-dependent parts of the chart: axis labels, plotted values and point colours. */
  datatype Chart = Chart(labels: seq<string>, data: seq<Plotted>, pointBackgroundColor: seq<string>)

  /**
   The end of a `calculateResult` call: it returns normally and builds the
   chart, or it throws a `TypeError` while scoring answer category `ci`.
   */
  datatype Outcome =
    | Calculated(section: Section, chart: Chart)
    | Threw(section: Section, ci: nat)

  /**
   Scoring answer category `ci` reads `categories[ci].questions` inside the
   `forEach` callback, which throws when there is no category `ci` and the
   callback runs at all, that is, when the answer list is non-empty.
   */
  predicate Missing(categories: seq<Category>, answers: seq<seq<Answer>>, ci: nat)
    requires ci < |answers|
  {
    |answers[ci]| > 0 && |categories| <= ci
  }

  /** The first answer category from `from` on whose scoring throws, if any. */
  function FirstMissing(categories: seq<Category>, answers: seq<seq<Answer>>, from: nat): (r: Option<nat>)
    requires from <= |answers|
    ensures r.None? <==> forall ci :: from <= ci < |answers| ==> !Missing(categories, answers, ci)
    ensures r.Some? ==> from <= r.value < |answers| && Missing(categories, answers, r.value)
    ensures r.Some? ==> forall ci :: from <= ci < r.value ==> !Missing(categories, answers, ci)
    decreases |answers| - from
  {
    if from == |answers| then None
    else if Missing(categories, answers, from) then Some(from)
    else FirstMissing(categories, answers, from + 1)
  }

  /** The questions answer category `ci` is matched against; empty when no category `ci` exists. */
  function QuestionsOf(categories: seq<Category>, ci: nat): seq<Question>
  {
    if ci < |categories| then categories[ci].questions else []
  }

  /** `categoriesScores`: one score per answer category, in order. */
  function CategoriesScores(categories: seq<Category>, answers: seq<seq<Answer>>): (s: seq<int>)
    ensures |s| == |answers|
  {
    seq(|answers|, ci requires 0 <= ci < |answers| => CategoryScore(QuestionsOf(categories, ci), answers[ci]))
  }

  /** `categoriesScores[i]`, `undefined` past the end. */
  function ScoreAt(scores: seq<int>, i: nat): Option<int>
  {
    if i < |scores| then Some(scores[i]) else None
  }

  /** `x.score / 10`; NaN for an `undefined` score. */
  function Plot(score: Option<int>): Plotted
  {
    match score
    case Some(s) => Value(s as real / 10.0)
    case None => NaN
  }

  /** `getScoreColor(x.score)`; every comparison with `undefined` is false, so that case is red. */
  function PointColor(score: Option<int>): string
  {
    match score
    case Some(s) => GetScoreColor(s)
    case None => Red
  }

  /** `buildChart` over the categories extended with `score: categoriesScores[i]`. */
  function BuildChart(categories: seq<Category>, scores: seq<int>): (c: Chart)
    ensures |c.labels| == |c.data| == |c.pointBackgroundColor| == |categories|
  {
    Chart(
      seq(|categories|, i requires 0 <= i < |categories| => categories[i].title),
      seq(|categories|, i requires 0 <= i < |categories| => Plot(ScoreAt(scores, i))),
      seq(|categories|, i requires 0 <= i < |categories| => PointColor(ScoreAt(scores, i))))
  }

  /** `calculateResult(categories, testAnswers)` run on a component whose fields are `section`. */
  function CalculateResult(section: Section, categories: seq<Category>, testAnswers: TestAnswers): (r: Outcome)
    ensures r.section.total == Total(categories)
    ensures r.Threw? <==> exists ci :: 0 <= ci < |testAnswers.answers| && Missing(categories, testAnswers.answers, ci)
    ensures r.Threw? ==> r.ci < |testAnswers.answers| && Missing(categories, testAnswers.answers, r.ci)
    ensures r.Threw? ==> forall ci :: 0 <= ci < r.ci ==> !Missing(categories, testAnswers.answers, ci)
    ensures r.Threw? ==> r.section.score == section.score && r.section.categoriesScores == section.categoriesScores
    ensures r.Calculated? ==> |r.section.categoriesScores| == |testAnswers.answers|
    ensures r.Calculated? ==> r.section.score == Sum(r.section.categoriesScores)
    ensures r.Calculated? ==> r.chart == BuildChart(categories, r.section.categoriesScores)
  {
    var total := Total(categories);
    var answers := testAnswers.answers;
    match FirstMissing(categories, answers, 0)
    case Some(ci) => Threw(section.(total := total), ci)
    case None =>
      var scores := CategoriesScores(categories, answers);
      Calculated(Section(total, Sum(scores), scores), BuildChart(categories, scores))
  }

  /** The number of matched answers with flag 1 in answer category `ci`. */
  function TrueCount(categories: seq<Category>, answers: seq<seq<Answer>>, ci: nat): nat
    requires ci < |answers|
  {
    CountTrue(Matched(QuestionsOf(categories, ci), answers[ci]))
  }

  /**
   When `calculateResult` returns normally, every category score is 250 per
   matched answer with flag 1 (so between 0 and 250 per matched answer), every
   non-empty answer list has its category, and the aggregate is not negative.
   */
  lemma CalculatedScores(section: Section, categories: seq<Category>, testAnswers: TestAnswers)
    requires CalculateResult(section, categories, testAnswers).Calculated?
    ensures var s := CalculateResult(section, categories, testAnswers).section;
      && (forall ci :: 0 <= ci < |testAnswers.answers| ==> ci < |categories| || |testAnswers.answers[ci]| == 0)
      && (forall ci :: 0 <= ci < |testAnswers.answers| ==>
            s.categoriesScores[ci] == 250 * TrueCount(categories, testAnswers.answers, ci))
      && (forall ci :: 0 <= ci < |testAnswers.answers| ==>
            0 <= s.categoriesScores[ci] <= 250 * Min(|testAnswers.answers[ci]|, |QuestionsOf(categories, ci)|))
      && 0 <= s.score
  {
    var answers := testAnswers.answers;
    var s := CalculateResult(section, categories, testAnswers).section;
    forall ci | 0 <= ci < |answers|
      ensures ci < |categories| || |answers[ci]| == 0
    {
      assert !Missing(categories, answers, ci);
    }
    forall ci | 0 <= ci < |answers|
      ensures s.categoriesScores[ci] == 250 * TrueCount(categories, answers, ci)
      ensures 0 <= s.categoriesScores[ci] <= 250 * Min(|answers[ci]|, |QuestionsOf(categories, ci)|)
    {
      CategoryScoreCountsTrue(QuestionsOf(categories, ci), answers[ci]);
      CategoryScoreBounds(QuestionsOf(categories, ci), answers[ci]);
    }
    SumNonNegative(s.categoriesScores);
  }

  /**
   The chart keeps category order: axis `i` is labelled with category `i`'s
   title, plots 25 per matched answer with flag 1 (the score divided by 10), and is coloured by that score's band. Past the
   score list the value is NaN and the point red.
   */
  lemma ChartFollowsScores(section: Section, categories: seq<Category>, testAnswers: TestAnswers)
    requires CalculateResult(section, categories, testAnswers).Calculated?
    ensures var r := CalculateResult(section, categories, testAnswers);
      && |r.chart.labels| == |categories|
      && (forall i :: 0 <= i < |categories| ==> r.chart.labels[i] == categories[i].title)
      && (forall i :: 0 <= i < |categories| && i < |testAnswers.answers| ==>
            && r.chart.data[i] == Value(25.0 * TrueCount(categories, testAnswers.answers, i) as real)
            && r.chart.pointBackgroundColor[i] == GetScoreColor(250 * TrueCount(categories, testAnswers.answers, i)))
      && (forall i :: |testAnswers.answers| <= i < |categories| ==>
            r.chart.data[i] == NaN && r.chart.pointBackgroundColor[i] == Red)
  {
    CalculatedScores(section, categories, testAnswers);
  }

  /**
   The result record shown is that of the first category with the fewest
   matched answers with flag 1; with no answer categories none is shown.
   */
  lemma SelectedCategoryHasFewestTrueAnswers<R>(section: Section, categories: seq<Category>, testAnswers: TestAnswers, results: seq<R>)
    requires CalculateResult(section, categories, testAnswers).Calculated?
    ensures var scores := CalculateResult(section, categories, testAnswers).section.categoriesScores;
      var answers := testAnswers.answers;
      var k := MinIndex(scores);
      && (|answers| == 0 <==> k == -1)
      && (|answers| == 0 ==> SelectResult(scores, results) == None)
      && (|answers| > 0 ==>
            && 0 <= k < |answers|
            && (forall j :: 0 <= j < |answers| ==> TrueCount(categories, answers, k) <= TrueCount(categories, answers, j))
            && (forall j :: 0 <= j < k ==> TrueCount(categories, answers, k) < TrueCount(categories, answers, j))
            && SelectResult(scores, results) == if k < |results| then Some(results[k]) else None)
  {
    CalculatedScores(section, categories, testAnswers);
  }

  /**
   A single category "A" of two questions answered [1, 0] scores 250: the
   aggregate is 250, the normaliser 1000, and the chart plots 25 in green.
   */
  lemma SingleCategoryExample(q1: Question, q2: Question)
    ensures var r := CalculateResult(Initial, [Category("A", [q1, q2])], TestAnswers([[Answer(1), Answer(0)]]));
      && r.Calculated?
      && r.section == Section(1000, 250, [250])
      && r.chart == Chart(["A"], [Value(25.0)], [Green])
  {
    var categories := [Category("A", [q1, q2])];
    var answers := [[Answer(1), Answer(0)]];
    assert Total(categories) == 1000 by {
      assert categories[1..] == [];
      SumCons(1000, []);
    }
    assert Accumulated([q1, q2], answers[0], 1) == 5;
    assert Accumulated([q1, q2], answers[0], 2) == 5;
    var scores := CategoriesScores(categories, answers);
    assert scores == [250];
    assert Sum(scores) == 250 by {
      SumCons(250, []);
    }
    var chart := BuildChart(categories, scores);
    assert chart.labels == ["A"];
    assert chart.data == [Value(25.0)];
    assert chart.pointBackgroundColor == [Green];
  }
}
