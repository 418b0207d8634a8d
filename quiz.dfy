/** The `Quiz` object of public/js/quiz.js: a session over the questions
    `generateQuiz` returned, walked one question at a time. Each question can
    be answered once, a right answer adds one to the score, and after the last
    question the result screen shows the percentage and its band. Which screen
    is showing is kept as `phase`; the rest of the page is left out. */
module QuizFlow {
  import opened Builtins
  import opened Generators
  import opened AppShell

  /** Which of the quiz's three screens is showing. */
  datatype Phase = Setup | Asking | Results

  // ---------------------------------------------------------------- results

  /** `Math.round((score / total) * 100)`, computed exactly; `None` is the
      `NaN` of a quiz without questions. */
  function Percentage(score: int, total: int): Option<int> {
    if total <= 0 then None else Some(RoundQuotient(100 * score, total))
  }

  /** The percentage is the integer nearest to `100 * score / total` and lies
      between 0 and 100. */
  lemma PercentageBounds(score: int, total: int)
    requires 0 <= score <= total && total > 0
    ensures var p := Percentage(score, total).value;
            && total * (2 * p - 1) <= 200 * score < total * (2 * p + 1)
            && 0 <= p <= 100
  {
    var p := Percentage(score, total).value;
    RoundQuotientIsNearest(100 * score, total);
    if p > 100 {
      MulMonotone(total, 201, 2 * p - 1);
      MulMonotone(total, score, total);
    }
    if p < 0 {
      MulMonotone(total, 2 * p + 1, -1);
    }
  }

  /** With fewer than 200 questions the percentage is 100 only for a full
      score and 0 only for no right answer. */
  lemma PercentageEnds(score: int, total: int)
    requires 0 <= score <= total && 0 < total < 200
    ensures Percentage(score, total).value == 100 <==> score == total
    ensures Percentage(score, total).value == 0 <==> score == 0
  {
    var p := Percentage(score, total).value;
    PercentageBounds(score, total);
    MulMonotone(200, score, total - 1);
    MulMonotone(total, 2 * p + 1, 199);
    MulMonotone(total, 1, 2 * p - 1);
  }

  /** The title `showResults` picks for a percentage, and whether confetti
      falls. */
  datatype Band = Band(icon: string, title: string, confetti: nat)

  function BandOf(percentage: Option<int>): Band {
    if percentage.Some? && percentage.value >= 80 then Band("🏆", "Excellent Work!", 40)
    else if percentage.Some? && percentage.value >= 60 then Band("👏", "Good Job!", 0)
    else if percentage.Some? && percentage.value >= 40 then Band("💪", "Keep Practicing!", 0)
    else Band("📚", "Time to Review!", 0)
  }

  /** The rank of a band, from `Time to Review!` (0) to `Excellent Work!` (3). */
  function BandRank(b: Band): nat {
    if b.title == "Excellent Work!" then 3
    else if b.title == "Good Job!" then 2
    else if b.title == "Keep Practicing!" then 1
    else 0
  }

  /** The bands cut the percentage at 80, 60 and 40; a higher percentage never
      gets a lower band; only the top band brings confetti; a quiz without
      questions gets the bottom band. */
  lemma BandThresholds(p: int, q: int)
    ensures BandRank(BandOf(Some(p))) == (if p >= 80 then 3 else if p >= 60 then 2 else if p >= 40 then 1 else 0)
    ensures p <= q ==> BandRank(BandOf(Some(p))) <= BandRank(BandOf(Some(q)))
    ensures BandOf(Some(p)).confetti > 0 <==> p >= 80
    ensures BandRank(BandOf(None)) == 0
  {
  }

  /** What the result screen shows. */
  datatype QuizResult = QuizResult(percentage: Option<int>, band: Band, correct: int, incorrect: int, total: int)

  function ResultOf(score: int, total: int): QuizResult {
    var p := Percentage(score, total);
    QuizResult(p, BandOf(p), score, total - score, total)
  }

  // ---------------------------------------------------------------- the session

  class Quiz {
    var questions: seq<Question>
    var currentIndex: int
    var score: int
    var answered: bool
    /** The count chosen with the count buttons. */
    var questionCount: int
    var phase: Phase
    /** The indices of the questions answered right; it explains the score. */
    ghost var credited: set<int>

    /** The score counts the questions answered right, each at most once: a
        credited question is one already reached, and the current one only
        once it is answered. */
    ghost predicate Valid()
      reads this
    {
      && score == |credited|
      && (forall i :: i in credited ==> 0 <= i < |questions| && i <= currentIndex)
      && (currentIndex in credited ==> answered)
    }

    /** The score never exceeds the number of questions, so the incorrect count
        `total - score` on the result screen is never negative. */
    lemma ScoreBounded()
      requires Valid()
      ensures 0 <= score <= |questions|
    {
      var all := Indices(|questions|);
      assert credited <= all;
      SubsetSize(credited, all);
    }

    /** The object literal: no questions, five to ask for, the setup screen. */
    constructor ()
      ensures Valid()
      ensures questions == [] && currentIndex == 0 && score == 0 && !answered
      ensures questionCount == 5 && phase == Setup
    {
      questions := [];
      currentIndex := 0;
      score := 0;
      answered := false;
      questionCount := 5;
      phase := Setup;
      credited := {};
    }

    /** A count button: the number of questions to ask for next. */
    method ChooseCount(count: int)
      requires Valid()
      modifies this
      ensures Valid()
      ensures questionCount == count
      ensures questions == old(questions) && currentIndex == old(currentIndex) && score == old(score)
      ensures answered == old(answered) && phase == old(phase)
    {
      questionCount := count;
    }

    /** `start()` for the topic typed in: nothing happens for a blank topic or
        when the request fails (`reachable` false); otherwise the session
        restarts on the questions `generateQuiz` returns. */
    method Start(topic: string, reachable: bool)
      requires Valid()
      modifies this
      ensures Valid()
      ensures Trim(topic) == [] || !reachable ==>
                questions == old(questions) && currentIndex == old(currentIndex) && score == old(score)
                && answered == old(answered) && phase == old(phase) && credited == old(credited)
      ensures Trim(topic) != [] && reachable ==>
                && questions == GenerateQuiz(Trim(topic), Some(questionCount)).questions
                && currentIndex == 0 && score == 0 && !answered && phase == Asking
      ensures questionCount == old(questionCount)
    {
      var t := Trim(topic);
      if t == [] || !reachable {
        return;
      }
      var quiz := GenerateQuiz(t, Some(questionCount));
      questions := quiz.questions;
      currentIndex := 0;
      score := 0;
      answered := false;
      credited := {};
      phase := Asking;
      RenderQuestion();
    }

    /** `renderQuestion()`: the current question is shown unanswered. It is
        only called for a question that has not been scored yet. */
    method RenderQuestion()
      requires Valid() && currentIndex !in credited
      modifies this
      ensures Valid()
      ensures !answered
      ensures questions == old(questions) && currentIndex == old(currentIndex) && score == old(score)
      ensures questionCount == old(questionCount) && phase == old(phase)
    {
      answered := false;
    }

    /** `answer(index)`: ignored once the question is answered; otherwise the
        question becomes answered and the score goes up by one exactly when
        `index` is its right option. Past the last question there is no
        question to check against, and the score stays. */
    method Answer(index: int)
      requires Valid()
      modifies this
      ensures Valid()
      ensures answered
      ensures old(answered) ==> score == old(score)
      ensures !old(answered) ==>
                score == old(score) + (if 0 <= currentIndex < |questions| && index == questions[currentIndex].correct then 1 else 0)
      ensures questions == old(questions) && currentIndex == old(currentIndex)
      ensures questionCount == old(questionCount) && phase == old(phase)
    {
      if answered {
        return;
      }
      answered := true;
      if 0 <= currentIndex < |questions| && index == questions[currentIndex].correct {
        assert currentIndex !in credited;
        score := score + 1;
        credited := credited + {currentIndex};
      }
    }

    /** `next()`: one question further; past the last question the result
        screen shows and the app's streak goes up, otherwise the next question
        is shown unanswered. */
    method Next(app: App) returns (result: Option<QuizResult>)
      requires Valid() && app.Valid()
      modifies this, app
      ensures Valid() && app.Valid()
      ensures currentIndex == old(currentIndex) + 1
      ensures questions == old(questions) && score == old(score) && questionCount == old(questionCount)
      ensures app.SameButStreak()
      ensures currentIndex >= |questions| ==>
                && phase == Results && answered == old(answered) && result == Some(ResultOf(score, |questions|))
                && app.streak == old(app.streak) + 1 && app.storedStreak == Some(app.streak)
      ensures currentIndex < |questions| ==>
                && !answered && phase == old(phase) && result == None
                && app.streak == old(app.streak) && app.storedStreak == old(app.storedStreak)
    {
      currentIndex := currentIndex + 1;
      if currentIndex >= |questions| {
        var r := ShowResults(app);
        result := Some(r);
      } else {
        RenderQuestion();
        result := None;
      }
    }

    /** `showResults()`: the result screen with the percentage, its band and
        the right and wrong counts; the app's streak goes up. */
    method ShowResults(app: App) returns (result: QuizResult)
      requires Valid() && app.Valid()
      modifies this, app
      ensures Valid() && app.Valid()
      ensures phase == Results
      ensures result == ResultOf(score, |questions|)
      ensures 0 <= result.correct && 0 <= result.incorrect
      ensures app.streak == old(app.streak) + 1 && app.storedStreak == Some(app.streak)
      ensures app.SameButStreak()
      ensures questions == old(questions) && currentIndex == old(currentIndex) && score == old(score)
      ensures answered == old(answered) && questionCount == old(questionCount)
    {
      phase := Results;
      ScoreBounded();
      result := ResultOf(score, |questions|);
      var _ := app.IncrementStreak();
    }

    /** `reset()`: back to the setup screen. */
    method Reset()
      requires Valid()
      modifies this
      ensures Valid()
      ensures phase == Setup
      ensures questions == old(questions) && currentIndex == old(currentIndex) && score == old(score)
      ensures answered == old(answered) && questionCount == old(questionCount)
    {
      phase := Setup;
    }
  }

  // ---------------------------------------------------------------- set sizes

  /** The indices `0..n-1`. */
  function Indices(n: nat): (r: set<int>)
    ensures |r| == n
    ensures forall i :: i in r <==> 0 <= i < n
  {
    if n == 0 then {} else Indices(n - 1) + {n - 1}
  }

  lemma SubsetSize(a: set<int>, b: set<int>)
    requires a <= b
    ensures |a| <= |b|
  {
    assert b == a + (b - a);
  }
}
