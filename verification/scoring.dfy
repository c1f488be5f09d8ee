/**
 The scoring arithmetic of the result section: the running per-category
 score, the normaliser `total`, the unused per-category totals, and the
 summation that yields the aggregate score.
 */
module Scoring {
  import opened Types

  /** Left fold of `+` from 0, the shape of `xs.reduce((acc, x) => acc + x, 0)`. */
  function Sum(xs: seq<int>): int
  {
    if |xs| == 0 then 0 else Sum(xs[..|xs| - 1]) + xs[|xs| - 1]
  }

  lemma {:induction false} SumAppend(xs: seq<int>, ys: seq<int>)
    ensures Sum(xs + ys) == Sum(xs) + Sum(ys)
  {
    if |ys| == 0 {
      assert xs + ys == xs;
    } else {
      var init := ys[..|ys| - 1];
      assert (xs + ys)[..|xs + ys| - 1] == xs + init;
      SumAppend(xs, init);
    }
  }

  lemma SumCons(x: int, xs: seq<int>)
    ensures Sum([x] + xs) == x + Sum(xs)
  {
    SumAppend([x], xs);
    assert [x][..0] == [];
  }

  /** A sum of non-negative terms is non-negative. */
  lemma {:induction false} SumNonNegative(xs: seq<int>)
    requires forall i :: 0 <= i < |xs| ==> 0 <= xs[i]
    ensures 0 <= Sum(xs)
  {
    if |xs| > 0 {
      SumNonNegative(xs[..|xs| - 1]);
    }
  }

  // ---------------------------------------------------------------------
  // Per-category score

  /** Whether answer `i` earns points: a question exists at that index and the flag is exactly 1. */
  predicate Credited(questions: seq<Question>, answers: seq<Answer>, i: nat)
    requires i < |answers|
  {
    i < |questions| && answers[i].Bool == 1
  }

  /**
   The running `categoryScore` once the `forEach` callback has visited the
   first `n` answers: each credited answer adds 5, every other answer adds 0.
   */
  function Accumulated(questions: seq<Question>, answers: seq<Answer>, n: nat): int
    requires n <= |answers|
  {
    if n == 0 then 0
    else Accumulated(questions, answers, n - 1) + (if Credited(questions, answers, n - 1) then 5 else 0)
  }

  /**
   The score of one answer category: the running score times 50. `Math.round`
   is the identity here, since the running score is an integer.
   */
  function CategoryScore(questions: seq<Question>, answers: seq<Answer>): int
  {
    Accumulated(questions, answers, |answers|) * 50
  }

  /** The number of answers whose flag is exactly 1. */
  function CountTrue(answers: seq<Answer>): (n: nat)
    ensures n <= |answers|
  {
    if |answers| == 0 then 0
    else (if answers[0].Bool == 1 then 1 else 0) + CountTrue(answers[1..])
  }

  /** The answers that have a matching question: those before index `|questions|`. */
  function Matched(questions: seq<Question>, answers: seq<Answer>): (m: seq<Answer>)
    ensures |m| == Min(|answers|, |questions|)
    ensures m <= answers
  {
    answers[..Min(|answers|, |questions|)]
  }

  lemma {:induction false} CountTrueSnoc(answers: seq<Answer>, a: Answer)
    ensures CountTrue(answers + [a]) == CountTrue(answers) + (if a.Bool == 1 then 1 else 0)
  {
    if |answers| == 0 {
      assert answers + [a] == [a];
      assert [a][1..] == [];
    } else {
      assert (answers + [a])[1..] == answers[1..] + [a];
      CountTrueSnoc(answers[1..], a);
    }
  }

  lemma {:induction false} AccumulatedCountsTrue(questions: seq<Question>, answers: seq<Answer>, n: nat)
    requires n <= |answers|
    ensures Accumulated(questions, answers, n) == 5 * CountTrue(answers[..Min(n, |questions|)])
  {
    if n > 0 {
      AccumulatedCountsTrue(questions, answers, n - 1);
      var i := n - 1;
      if i < |questions| {
        assert answers[..n] == answers[..i] + [answers[i]];
        CountTrueSnoc(answers[..i], answers[i]);
      }
    }
  }

  /** Each category score is 250 times the number of matched answers whose flag is 1. */
  lemma CategoryScoreCountsTrue(questions: seq<Question>, answers: seq<Answer>)
    ensures CategoryScore(questions, answers) == 250 * CountTrue(Matched(questions, answers))
  {
    AccumulatedCountsTrue(questions, answers, |answers|);
  }

  /** A category score lies between 0 and 250 times the number of answers that have a question. */
  lemma CategoryScoreBounds(questions: seq<Question>, answers: seq<Answer>)
    ensures 0 <= CategoryScore(questions, answers) <= 250 * Min(|answers|, |questions|)
    ensures CategoryScore(questions, answers) % 250 == 0
  {
    CategoryScoreCountsTrue(questions, answers);
  }

  /** Answers past the end of the question list are skipped: dropping them changes nothing. */
  lemma UnmatchedAnswersIgnored(questions: seq<Question>, answers: seq<Answer>)
    ensures CategoryScore(questions, Matched(questions, answers)) == CategoryScore(questions, answers)
  {
    var m := Matched(questions, answers);
    CategoryScoreCountsTrue(questions, answers);
    CategoryScoreCountsTrue(questions, m);
    assert Matched(questions, m) == m;
  }

  lemma {:induction false} AccumulatedUpdate(questions: seq<Question>, answers: seq<Answer>, j: nat, a: Answer, n: nat)
    requires j < |answers| && n <= |answers|
    ensures var answers' := answers[j := a];
      Accumulated(questions, answers', n) - Accumulated(questions, answers, n)
      == if j < n then
           (if Credited(questions, answers', j) then 5 else 0) - (if Credited(questions, answers, j) then 5 else 0)
         else 0
  {
    if n > 0 {
      AccumulatedUpdate(questions, answers, j, a, n - 1);
    }
  }

  /**
   Replacing one answer changes the category score only by that answer's own
   contribution: 250 if it is credited, 0 if it is not. In particular an
   answer without a question, or whose flag is not 1, contributes nothing.
   */
  lemma AnswerContribution(questions: seq<Question>, answers: seq<Answer>, j: nat, a: Answer)
    requires j < |answers|
    ensures CategoryScore(questions, answers[j := a])
         == CategoryScore(questions, answers)
          - (if Credited(questions, answers, j) then 250 else 0)
          + (if j < |questions| && a.Bool == 1 then 250 else 0)
  {
    AccumulatedUpdate(questions, answers, j, a, |answers|);
  }

  lemma {:induction false} CountTrueAllTrue(answers: seq<Answer>)
    requires forall i :: 0 <= i < |answers| ==> answers[i].Bool == 1
    ensures CountTrue(answers) == |answers|
  {
    if |answers| > 0 {
      CountTrueAllTrue(answers[1..]);
    }
  }

  /**
   A category whose every question is answered with flag 1 scores
   `questionCount * 5 * 50`; further answers past the questions are skipped.
   */
  lemma AllTrueScoresFull(questions: seq<Question>, answers: seq<Answer>)
    requires |answers| >= |questions|
    requires forall i :: 0 <= i < |questions| ==> answers[i].Bool == 1
    ensures CategoryScore(questions, answers) == |questions| * 5 * 50
  {
    CategoryScoreCountsTrue(questions, answers);
    CountTrueAllTrue(Matched(questions, answers));
  }

  lemma {:induction false} CountTrueZero(answers: seq<Answer>)
    ensures CountTrue(answers) == 0 <==> forall i :: 0 <= i < |answers| ==> answers[i].Bool != 1
  {
    if |answers| > 0 {
      CountTrueZero(answers[1..]);
      assert forall i :: 1 <= i < |answers| ==> answers[i] == answers[1..][i - 1];
    }
  }

  /**
   A category scores 0 exactly when none of its answers is credited: every
   answer either has no question or a flag other than 1. In particular a
   category without answers, or answered only with 0, scores 0.
   */
  lemma NoCreditedAnswersScoresZero(questions: seq<Question>, answers: seq<Answer>)
    ensures CategoryScore(questions, answers) == 0
        <==> forall i :: 0 <= i < |answers| ==> !Credited(questions, answers, i)
  {
    var m := Matched(questions, answers);
    CategoryScoreCountsTrue(questions, answers);
    CountTrueZero(m);
    assert (forall i :: 0 <= i < |answers| ==> !Credited(questions, answers, i))
       <==> (forall i :: 0 <= i < |m| ==> m[i].Bool != 1) by {
      forall i | 0 <= i < |answers|
        ensures Credited(questions, answers, i) <==> i < |m| && m[i].Bool == 1
      {
      }
    }
  }

  // ---------------------------------------------------------------------
  // The normaliser `total`

  /** The per-category weights `questions.length * 500`, in category order. */
  function QuestionWeights(categories: seq<Category>): (w: seq<int>)
    ensures |w| == |categories|
  {
    if |categories| == 0 then []
    else [|categories[0].questions| * 500] + QuestionWeights(categories[1..])
  }

  /** The normaliser: the weights summed from 0 in category order. It reads no answers. */
  function Total(categories: seq<Category>): int
  {
    Sum(QuestionWeights(categories))
  }

  /** The number of questions over all categories. */
  function QuestionCount(categories: seq<Category>): nat
  {
    if |categories| == 0 then 0
    else |categories[0].questions| + QuestionCount(categories[1..])
  }

  /** `total` is 500 points for every question of the questionnaire. */
  lemma {:induction false} TotalIsFiveHundredPerQuestion(categories: seq<Category>)
    ensures Total(categories) == 500 * QuestionCount(categories)
  {
    if |categories| > 0 {
      SumCons(|categories[0].questions| * 500, QuestionWeights(categories[1..]));
      TotalIsFiveHundredPerQuestion(categories[1..]);
    }
  }

  // ---------------------------------------------------------------------
  // The unused per-category totals

  /** The number of questions of type `Agree`. */
  function AgreeCount(questions: seq<Question>): (n: nat)
    ensures n <= |questions|
    ensures n == |questions| <==> forall i :: 0 <= i < |questions| ==> questions[i].questionType == Agree
    ensures n == 0 <==> forall i :: 0 <= i < |questions| ==> questions[i].questionType != Agree
  {
    if |questions| == 0 then 0
    else
      assert forall i :: 1 <= i < |questions| ==> questions[i] == questions[1..][i - 1];
      (if questions[0].questionType == Agree then 1 else 0) + AgreeCount(questions[1..])
  }

  /** Appending a question adds one to the count exactly when it is of type `Agree`. */
  lemma {:induction false} AgreeCountSnoc(questions: seq<Question>, q: Question)
    ensures AgreeCount(questions + [q]) == AgreeCount(questions) + (if q.questionType == Agree then 1 else 0)
  {
    if |questions| == 0 {
      assert questions + [q] == [q];
      assert [q][1..] == [];
    } else {
      assert (questions + [q])[1..] == questions[1..] + [q];
      AgreeCountSnoc(questions[1..], q);
    }
  }

  lemma {:induction false} AgreeCountUpdate(questions: seq<Question>, j: nat, q: Question)
    requires j < |questions|
    ensures AgreeCount(questions[j := q])
         == AgreeCount(questions)
          - (if questions[j].questionType == Agree then 1 else 0)
          + (if q.questionType == Agree then 1 else 0)
  {
    if j > 0 {
      assert questions[j := q][1..] == questions[1..][j - 1 := q];
      AgreeCountUpdate(questions[1..], j - 1, q);
    } else {
      assert questions[j := q][1..] == questions[1..];
    }
  }

  /**
   `categoriesTotals`: five points per `Agree` question of each category. The
   active scoring formula computes it but never reads it.
   */
  function CategoriesTotals(categories: seq<Category>): (t: seq<int>)
    ensures |t| == |categories|
    ensures forall i :: 0 <= i < |categories| ==> 0 <= t[i] <= 5 * |categories[i].questions|
    ensures forall i :: 0 <= i < |categories| ==>
      (t[i] == 5 * |categories[i].questions| <==>
         forall k :: 0 <= k < |categories[i].questions| ==> categories[i].questions[k].questionType == Agree)
    ensures forall i :: 0 <= i < |categories| ==>
      (t[i] == 0 <==>
         forall k :: 0 <= k < |categories[i].questions| ==> categories[i].questions[k].questionType != Agree)
  {
    seq(|categories|, i requires 0 <= i < |categories| => AgreeCount(categories[i].questions) * 5)
  }

  /**
   Changing the type of one question of category `ci` moves that category's
   entry by 5 for each `Agree` gained or lost and leaves the other entries alone.
   */
  lemma CategoriesTotalsQuestionContribution(categories: seq<Category>, ci: nat, j: nat, q: Question)
    requires ci < |categories| && j < |categories[ci].questions|
    ensures var c := categories[ci];
      var categories' := categories[ci := c.(questions := c.questions[j := q])];
      && (forall i :: 0 <= i < |categories| && i != ci ==> CategoriesTotals(categories')[i] == CategoriesTotals(categories)[i])
      && CategoriesTotals(categories')[ci]
           == CategoriesTotals(categories)[ci]
            - (if c.questions[j].questionType == Agree then 5 else 0)
            + (if q.questionType == Agree then 5 else 0)
  {
    AgreeCountUpdate(categories[ci].questions, j, q);
  }
}
