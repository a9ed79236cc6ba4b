/**
 * The quiz session that both React front ends keep in component state.
 *
 * The two App components (frontend/src/App.jsx, backed by the Django API, and
 * src/App.jsx, over a static question list) hold the same five state cells:
 * started, finished, currentQuestionIndex, selectedOption and score. Their
 * answer and next-question handlers are the same code; their start and restart
 * handlers, progress percentage and panel choice differ and live in BackendApp
 * and StaticApp. This module holds what they share: the state as a value, the
 * two shared transitions, the invariant every handler keeps and the rounding
 * used for the progress percentage.
 */
module QuizSession {

  /** A question as the front ends receive it: text, options in order, answer text. */
  datatype Question = Question(question: string, options: seq<string>, answer: string)

  /** Every option of every question is a non-empty string, so choosing it is recorded. */
  predicate NonBlankOptions(questions: seq<Question>) {
    forall qu :: qu in questions ==> NoSelection !in qu.options
  }

  /** The five quiz state cells of an App component, as one value. */
  datatype Quiz = Quiz(started: bool, finished: bool, index: nat, selected: string, score: nat)

  /** The front ends use the empty string in selectedOption for "nothing selected". */
  const NoSelection: string := ""

  /** The initial values of the five useState cells. */
  const Initial: Quiz := Quiz(false, false, 0, NoSelection, 0)

  /** showAnswer: an option has been chosen for the current question. */
  predicate ShowAnswer(q: Quiz)
    ensures ShowAnswer(q) <==> |q.selected| > 0
  {
    q.selected != NoSelection
  }

  /** How many questions have been answered: the ones before the current one, plus the current one once it is. */
  function Answered(q: Quiz): nat {
    q.index + if ShowAnswer(q) then 1 else 0
  }

  /**
   * The invariant every handler keeps over a list of `total` questions:
   * a quiz not yet started is pristine, finished implies started, the index
   * stays in range while started, a finished quiz has answered its last
   * question, and the score never exceeds the number of answered questions.
   */
  predicate Consistent(q: Quiz, total: nat) {
    && (!q.started ==> q == Initial)
    && (q.finished ==> q.started)
    && (q.started ==> q.index < total)
    && (q.finished ==> ShowAnswer(q) && q.index == total - 1)
    && q.score <= Answered(q)
  }

  lemma ConsistentScoreBounded(q: Quiz, total: nat)
    requires Consistent(q, total)
    ensures q.score <= Answered(q) <= total
    ensures q.finished ==> Answered(q) == total
  {
  }

  /**
   * handleAnswer: ignored once an option is selected; otherwise records the
   * option and adds one to the score when it equals the current question's
   * answer. The current question is read only when no option is selected;
   * in App.jsx, `currentQuestion.answer` would throw on an out-of-range index.
   */
  function Answer(q: Quiz, questions: seq<Question>, option: string): (r: Quiz)
    requires ShowAnswer(q) || q.index < |questions|
    ensures ShowAnswer(q) ==> r == q
    ensures !ShowAnswer(q) ==> r.selected == option
    ensures r.score == q.score + 1 <==> !ShowAnswer(q) && option == questions[q.index].answer
    ensures r.score == q.score || r.score == q.score + 1
    ensures r.started == q.started && r.finished == q.finished && r.index == q.index
    ensures Consistent(q, |questions|) && q.started && option != NoSelection ==> Consistent(r, |questions|)
  {
    if ShowAnswer(q) then q
    else
      var credit := if option == questions[q.index].answer then 1 else 0;
      q.(selected := option, score := q.score + credit)
  }

  /**
   * goToNextQuestion: with questions left after the current one, moves to the
   * next and clears the selection; on the last question, marks the quiz finished.
   */
  function Next(q: Quiz, total: nat): (r: Quiz)
    ensures q.index < total - 1 ==> r.index == q.index + 1 && !ShowAnswer(r) && r.finished == q.finished
    ensures q.index >= total - 1 ==> r.finished && r.index == q.index && r.selected == q.selected
    ensures r.started == q.started && r.score == q.score
    ensures Consistent(q, total) && q.started && ShowAnswer(q) ==> Consistent(r, total) && Answered(r) == Answered(q)
  {
    if q.index < total - 1 then q.(index := q.index + 1, selected := NoSelection)
    else q.(finished := true)
  }

  /** Answering is once per question: a second answer, whatever it is, changes nothing. */
  lemma AnswerOnce(q: Quiz, questions: seq<Question>, first: string, second: string)
    requires ShowAnswer(q) || q.index < |questions|
    requires first != NoSelection
    ensures Answer(Answer(q, questions, first), questions, second) == Answer(q, questions, first)
  {
  }

  /**
   * Why options must not be the empty string: an empty option that is also the
   * answer is scored but not recorded, so the same question can be scored twice.
   */
  lemma BlankOptionScoredTwice()
    ensures var qs := [Question("?", ["", "x"], "")];
            var once := Answer(Quiz(true, false, 0, NoSelection, 0), qs, "");
            !ShowAnswer(once) && Answer(once, qs, "").score == 2
  {
  }

  /** completedQuestions: every question once finished, otherwise the current index. */
  function Completed(q: Quiz, total: nat): (c: nat)
    ensures Consistent(q, total) ==> c <= total
    ensures Consistent(q, total) && q.finished ==> c == total
  {
    if q.finished then total else q.index
  }

  /**
   * Math.round((completed / total) * 100) on exact rationals: the nearest
   * integer to 100 * completed / total, halves rounded up.
   */
  function RoundedPercent(completed: nat, total: nat): (p: nat)
    requires total > 0
    ensures 2 * p * total <= 200 * completed + total < 2 * p * total + 2 * total
  {
    (200 * completed + total) / (2 * total)
  }

  /** Rounding never leaves [0, 100] when at most all questions are completed, and is exact at both ends. */
  lemma RoundedPercentBounds(completed: nat, total: nat)
    requires 0 < total && completed <= total
    ensures RoundedPercent(completed, total) <= 100
    ensures completed == 0 ==> RoundedPercent(completed, total) == 0
    ensures completed == total ==> RoundedPercent(completed, total) == 100
  {
    var p := RoundedPercent(completed, total);
    assert p * (2 * total) == 2 * p * total;
    assert p * (2 * total) < 101 * (2 * total);
    MulCancel(p, 101, 2 * total);
    if completed == total {
      assert 99 * (2 * total) < p * (2 * total);
      MulCancel(99, p, 2 * total);
    }
    if completed == 0 {
      assert p * (2 * total) < 1 * (2 * total);
      MulCancel(p, 1, 2 * total);
    }
  }

  /** More questions completed never shows a smaller percentage. */
  lemma RoundedPercentMonotone(c1: nat, c2: nat, total: nat)
    requires total > 0 && c1 <= c2
    ensures RoundedPercent(c1, total) <= RoundedPercent(c2, total)
  {
    var p1, p2 := RoundedPercent(c1, total), RoundedPercent(c2, total);
    assert p1 * (2 * total) < (p2 + 1) * (2 * total);
    MulCancel(p1, p2 + 1, 2 * total);
  }

  /** Cancelling a positive factor from a strict inequality between products. */
  lemma MulCancel(a: nat, b: nat, k: nat)
    requires k > 0 && a * k < b * k
    ensures a < b
  {
  }

  /** A click on one of the four kinds of button the quiz panels render. */
  datatype Click = StartClick | OptionClick(option: string) | NextClick | RestartClick
}
