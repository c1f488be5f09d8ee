/**
 The score-to-colour step function of the result chart: five colour bands
 separated by the thresholds 20, 40, 60 and 100.
 */
module Colors {

  const Green := "#22AF49"
  const YellowGreen := "#A8BF19"
  const Yellow := "#FFF500"
  const Orange := "#FF9D47"
  const Red := "#FF4740"

  /** The band colours from the lowest band to the highest. */
  const Palette: seq<string> := [Red, Orange, Yellow, YellowGreen, Green]

  /** The lower bounds of the bands above the lowest one, in increasing order. */
  const Thresholds: seq<int> := [20, 40, 60, 100]

  /** The colour of a chart point with the given score. */
  function GetScoreColor(score: int): (c: string)
    ensures c == Green <==> 100 <= score
    ensures c == YellowGreen <==> 60 <= score < 100
    ensures c == Yellow <==> 40 <= score < 60
    ensures c == Orange <==> 20 <= score < 40
    ensures c == Red <==> score < 20
  {
    if score >= 100 then Green
    else if score >= 60 then YellowGreen
    else if score >= 40 then Yellow
    else if score >= 20 then Orange
    else Red
  }

  /** The number of thresholds in `ts` that `score` reaches. */
  function Reached(ts: seq<int>, score: int): (n: nat)
    ensures n <= |ts|
  {
    if |ts| == 0 then 0
    else (if ts[0] <= score then 1 else 0) + Reached(ts[1..], score)
  }

  /** A higher score never reaches fewer thresholds. */
  lemma {:induction false} ReachedMonotone(ts: seq<int>, s: int, t: int)
    requires s <= t
    ensures Reached(ts, s) <= Reached(ts, t)
  {
    if |ts| > 0 {
      ReachedMonotone(ts[1..], s, t);
    }
  }

  /** The step function picks the palette entry indexed by the number of thresholds the score reaches. */
  lemma ScoreColorIsBandOfPalette(score: int)
    ensures GetScoreColor(score) == Palette[Reached(Thresholds, score)]
  {
    var b := (x: int) => if x <= score then 1 else 0;
    assert Reached([100], score) == b(100) by {
      assert [100][1..] == [];
    }
    assert Reached([60, 100], score) == b(60) + b(100) by {
      assert [60, 100][1..] == [100];
    }
    assert Reached([40, 60, 100], score) == b(40) + b(60) + b(100) by {
      assert [40, 60, 100][1..] == [60, 100];
    }
    assert Thresholds[1..] == [40, 60, 100];
  }

  /** Raising a score never moves its point to a lower colour band. */
  lemma ScoreColorMonotone(s: int, t: int)
    requires s <= t
    ensures Reached(Thresholds, s) <= Reached(Thresholds, t)
    ensures GetScoreColor(s) == Palette[Reached(Thresholds, s)]
    ensures GetScoreColor(t) == Palette[Reached(Thresholds, t)]
  {
    ReachedMonotone(Thresholds, s, t);
    ScoreColorIsBandOfPalette(s);
    ScoreColorIsBandOfPalette(t);
  }

  /** The boundary cases: 100, 60 and 59, and 0. */
  lemma ScoreColorExamples()
    ensures GetScoreColor(100) == "#22AF49"
    ensures GetScoreColor(60) == "#A8BF19"
    ensures GetScoreColor(59) == "#FFF500"
    ensures GetScoreColor(0) == "#FF4740"
  {
  }
}
