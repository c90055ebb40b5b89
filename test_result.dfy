/**
 * Scoring of a finished self-test: the score is a left fold over the
 * questions counting exact string matches between each correct answer and the
 * user's answer at the same index; the percentage is the score over the
 * number of questions, rounded; each question gets a verdict line.
 */
module TestResult {
  import opened Js
  import opened GenerateTest

  /**
   * `question.correctAnswer === userAnswers[index]`: exact, case- and
   * space-sensitive equality; an index past the end of the answers reads
   * `undefined`, which equals no string.
   */
  predicate Matches(q: Mcq, answers: seq<string>, i: nat): (b: bool)
    ensures i >= |answers| ==> !b
    ensures b ==> answers[i] == q.correctAnswer
  {
    i < |answers| && q.correctAnswer == answers[i]
  }

  /** `questions.reduce((acc, q, i) => acc + (matches ? 1 : 0), 0)` */
  function Score(questions: seq<Mcq>, answers: seq<string>): (score: nat)
    ensures score <= |questions|
    ensures score == |questions| <==> forall i | 0 <= i < |questions| :: Matches(questions[i], answers, i)
    ensures score == 0 <==> forall i | 0 <= i < |questions| :: !Matches(questions[i], answers, i)
  {
    if questions == [] then 0
    else
      var n := |questions| - 1;
      Score(questions[..n], answers) + (if Matches(questions[n], answers, n) then 1 else 0)
  }

  /** The indices of the questions answered correctly: the reference the fold is checked against. */
  function CorrectIndices(questions: seq<Mcq>, answers: seq<string>): set<nat> {
    set i: nat | i < |questions| && Matches(questions[i], answers, i)
  }

  /** Adding a question adds its index to the correct ones exactly when its answer matches. */
  lemma CorrectIndicesSnoc(questions: seq<Mcq>, answers: seq<string>)
    requires questions != []
    ensures var n := |questions| - 1;
      CorrectIndices(questions, answers)
      == CorrectIndices(questions[..n], answers) + (if Matches(questions[n], answers, n) then {n} else {})
  {
    var n := |questions| - 1;
    forall i: nat | i < n
      ensures Matches(questions[i], answers, i) == Matches(questions[..n][i], answers, i)
    {
    }
  }

  /** The score is the number of indices whose answer matches. */
  lemma {:induction false} ScoreCountsMatches(questions: seq<Mcq>, answers: seq<string>)
    ensures Score(questions, answers) == |CorrectIndices(questions, answers)|
  {
    if questions != [] {
      var n := |questions| - 1;
      ScoreCountsMatches(questions[..n], answers);
      CorrectIndicesSnoc(questions, answers);
      assert n !in CorrectIndices(questions[..n], answers);
    }
  }

  /** Questions and answers differing only past the end of the questions give the same score. */
  lemma {:induction false} ScoreIgnoresExtraAnswers(questions: seq<Mcq>, answers: seq<string>, extra: seq<string>)
    requires |answers| >= |questions|
    ensures Score(questions, answers + extra) == Score(questions, answers)
  {
    if questions != [] {
      var n := |questions| - 1;
      ScoreIgnoresExtraAnswers(questions[..n], answers, extra);
      assert (answers + extra)[n] == answers[n];
    }
  }

  /**
   * Answers picked from the offered options can never match a question whose
   * correct answer is not among its options and is not empty: the schema lets
   * such questions through, and they cost a point whatever the user does.
   */
  lemma {:induction false} UnreachableAnswerNeverScores(questions: seq<Mcq>, answers: seq<string>, i: nat)
    requires i < |questions|
    requires i < |answers| ==> answers[i] in questions[i].options || answers[i] == ""
    requires questions[i].correctAnswer !in questions[i].options && questions[i].correctAnswer != ""
    ensures i !in CorrectIndices(questions, answers)
    ensures Score(questions, answers) < |questions|
  {
  }

  /** What is shown for one question. */
  datatype Verdict = Verdict(correct: bool, yourAnswer: string, correctAnswerLine: Option<string>)

  /**
   * The mark uses the same test as the score; a falsy answer (missing or
   * empty) is shown as "Not answered"; the correct answer is shown only under
   * a wrong one.
   */
  function VerdictOf(q: Mcq, answers: seq<string>, i: nat): (v: Verdict)
    ensures v.correct <==> Matches(q, answers, i)
    ensures v.correctAnswerLine.Some? <==> !v.correct
    ensures v.correctAnswerLine.Some? ==> v.correctAnswerLine.value == q.correctAnswer
    ensures v.yourAnswer == (if i < |answers| && Truthy(answers[i]) then answers[i] else "Not answered")
  {
    var correct := Matches(q, answers, i);
    Verdict(
      correct,
      if i < |answers| && Truthy(answers[i]) then answers[i] else "Not answered",
      if correct then None else Some(q.correctAnswer))
  }

  /** `questions.map(...)`: one verdict per question, in order. */
  function Verdicts(questions: seq<Mcq>, answers: seq<string>): (vs: seq<Verdict>)
    ensures |vs| == |questions|
    ensures forall i | 0 <= i < |vs| :: vs[i] == VerdictOf(questions[i], answers, i)
  {
    seq(|questions|, i requires 0 <= i < |questions| => VerdictOf(questions[i], answers, i))
  }

  /** The number of verdicts marked correct. */
  function CountCorrect(vs: seq<Verdict>): nat {
    if vs == [] then 0 else CountCorrect(vs[..|vs| - 1]) + (if vs[|vs| - 1].correct then 1 else 0)
  }

  /** The score equals the number of questions displayed as correct. */
  lemma {:induction false} ScoreMatchesVerdicts(questions: seq<Mcq>, answers: seq<string>)
    ensures Score(questions, answers) == CountCorrect(Verdicts(questions, answers))
  {
    if questions != [] {
      var n := |questions| - 1;
      ScoreMatchesVerdicts(questions[..n], answers);
      assert Verdicts(questions, answers)[..n] == Verdicts(questions[..n], answers);
    }
  }

  /** `Math.round(score / total * 100)`, with `NaN` when there are no questions. */
  datatype Percent = NaN | Pct(value: int)

  /**
   * The percentage rounded half up, computed exactly: the result is the
   * integer nearest to `100 * score / total`, ties going up, as `Math.round`
   * does for non-negative values.
   */
  function Percentage(score: nat, total: nat): (p: Percent)
    ensures p.NaN? <==> total == 0
    ensures p.Pct? ==> 2 * total * p.value <= 200 * score + total < 2 * total * (p.value + 1)
  {
    if total == 0 then NaN else Pct((200 * score + total) / (2 * total))
  }

  /** A product of non-negative factors is non-negative. */
  lemma MulNonNegative(a: int, b: int)
    requires 0 <= a && 0 <= b
    ensures 0 <= a * b
  {
  }

  /** When `d * k <= x < d * (k + 1)`, the quotient `x / d` is `k`. */
  lemma QuotientBetween(x: int, d: int, k: int)
    requires 0 < d && d * k <= x < d * (k + 1)
    ensures x / d == k
  {
    var q := x / d;
    assert d * q <= x < d * (q + 1);
    if q > k {
      MulNonNegative(d, q - (k + 1));
    } else if q < k {
      MulNonNegative(d, k - (q + 1));
    }
  }

  /** With at least one question, the percentage lies in [0, 100]; it is 100 when all match and 0 when none do. */
  lemma PercentageBounds(score: nat, total: nat)
    requires 0 < total && score <= total
    ensures 0 <= Percentage(score, total).value <= 100
    ensures score == total ==> Percentage(score, total) == Pct(100)
    ensures score == 0 ==> Percentage(score, total) == Pct(0)
  {
    var d := 2 * total;
    var x := 200 * score + total;
    var p := Percentage(score, total).value;
    assert d * p <= x < d * (p + 1);
    if p > 100 {
      MulNonNegative(d, p - 101);
    }
    if p < 0 {
      MulNonNegative(d, -(p + 1));
    }
    if score == total {
      QuotientBetween(x, d, 100);
    }
    if score == 0 {
      QuotientBetween(x, d, 0);
    }
  }

  /** A test whose every answer matches scores 100%; one where none matches scores 0%. */
  lemma EndpointPercentages(questions: seq<Mcq>, answers: seq<string>)
    requires questions != []
    ensures (forall i | 0 <= i < |questions| :: Matches(questions[i], answers, i))
      ==> Percentage(Score(questions, answers), |questions|) == Pct(100)
    ensures (forall i | 0 <= i < |questions| :: !Matches(questions[i], answers, i))
      ==> Percentage(Score(questions, answers), |questions|) == Pct(0)
  {
    PercentageBounds(Score(questions, answers), |questions|);
  }

  /** Five questions with only the first answered correctly: a score of 1 and 20%. */
  lemma OneOfFive(q: seq<Mcq>)
    requires |q| == 5 && forall i | 0 <= i < 5 :: q[i].correctAnswer != ""
    ensures Score(q, [q[0].correctAnswer, "", "", "", ""]) == 1
    ensures Percentage(Score(q, [q[0].correctAnswer, "", "", "", ""]), 5) == Pct(20)
  {
    var a := [q[0].correctAnswer, "", "", "", ""];
    ScoreCountsMatches(q, a);
    assert CorrectIndices(q, a) == {0};
  }
}
