/**
 * The App component of the stand-alone front end (src/App.jsx): the same quiz
 * over a fixed question list bundled with the page. Unlike the API-backed
 * App, startQuiz has no guard, restartQuiz always starts the quiz again, and
 * the percentage divides by the list length unguarded, so the list must not
 * be empty.
 */
module StaticApp {
  import opened QuizSession
  import QuestionCard

  /** startQuiz: marks the quiz started and changes nothing else. */
  function Start(q: Quiz): (r: Quiz)
    ensures r.started
    ensures r.(started := q.started) == q
  {
    q.(started := true)
  }

  /** Starting keeps the invariant whenever the list is non-empty. */
  lemma StartKeepsConsistent(q: Quiz, total: nat)
    requires total > 0 && Consistent(q, total)
    ensures Consistent(Start(q), total)
  {
  }

  /** restartQuiz: back to the first question with no selection and no score, not finished, and started again. */
  function Restart(q: Quiz): (r: Quiz)
    ensures r == Start(Initial)
    ensures r.started && !r.finished && r.index == 0 && r.score == 0 && !ShowAnswer(r)
    ensures forall total: nat :: total > 0 ==> Consistent(r, total)
  {
    Quiz(true, false, 0, NoSelection, 0)
  }

  /** completedPercent: 0 before the start, otherwise the rounded share of the list completed. */
  function CompletedPercent(q: Quiz, total: nat): (p: nat)
    requires total > 0
    ensures !q.started ==> p == 0
  {
    if q.started then RoundedPercent(Completed(q, total), total) else 0
  }

  /** The percentage shown lies in [0, 100], and is 100 once the quiz is finished. */
  lemma ProgressBounds(q: Quiz, total: nat)
    requires total > 0 && Consistent(q, total)
    ensures CompletedPercent(q, total) <= 100
    ensures q.finished ==> CompletedPercent(q, total) == 100
  {
    if q.started {
      RoundedPercentBounds(Completed(q, total), total);
    }
  }

  /** Moving on never makes the progress bar go back. */
  lemma NextNeverLowersProgress(q: Quiz, total: nat)
    requires total > 0 && Consistent(q, total) && q.started && ShowAnswer(q)
    ensures CompletedPercent(q, total) <= CompletedPercent(Next(q, total), total)
  {
    RoundedPercentMonotone(Completed(q, total), Completed(Next(q, total), total), total);
  }

  /** The three panels of the page. */
  datatype Panel = WelcomePanel | QuestionPanel | FinishedPanel

  /** The panels rendered for a state, in page order. */
  function VisiblePanels(q: Quiz): (ps: seq<Panel>)
    ensures |ps| >= 1
    ensures |ps| == 1 <==> (q.finished ==> q.started)
    ensures WelcomePanel in ps <==> !q.started
    ensures QuestionPanel in ps <==> q.started && !q.finished
    ensures FinishedPanel in ps <==> q.finished
  {
    (if !q.started then [WelcomePanel] else [])
    + (if q.started && !q.finished then [QuestionPanel] else [])
    + (if q.finished then [FinishedPanel] else [])
  }

  /**
   * One click, applied only if the button clicked is on screen (see the
   * API-backed App for the same rule). Options must be non-empty strings.
   */
  function Step(q: Quiz, questions: seq<Question>, click: Click): (r: Quiz)
    requires |questions| > 0 && NonBlankOptions(questions) && Consistent(q, |questions|)
    ensures Consistent(r, |questions|)
  {
    var onQuestion := q.started && !q.finished;
    match click
    case StartClick => if !q.started then Start(q) else q
    case OptionClick(o) =>
      if onQuestion && o in questions[q.index].options then Answer(q, questions, o) else q
    case NextClick => if onQuestion && ShowAnswer(q) then Next(q, |questions|) else q
    case RestartClick => if q.finished then Restart(q) else q
  }

  /** The state after a sequence of clicks. */
  function Run(q: Quiz, questions: seq<Question>, clicks: seq<Click>): (r: Quiz)
    requires |questions| > 0 && NonBlankOptions(questions) && Consistent(q, |questions|)
    ensures Consistent(r, |questions|)
    decreases |clicks|
  {
    if clicks == [] then q else Run(Step(q, questions, clicks[0]), questions, clicks[1..])
  }

  /** After any clicks, exactly one panel is shown and the final score is at most the number of questions. */
  lemma ReachableStatesAreWellFormed(questions: seq<Question>, clicks: seq<Click>)
    requires |questions| > 0 && NonBlankOptions(questions)
    ensures var q := Run(Initial, questions, clicks);
            |VisiblePanels(q)| == 1 && q.score <= |questions|
  {
    var q := Run(Initial, questions, clicks);
    ConsistentScoreBounded(q, |questions|);
  }

  /** The card of the question panel: the current question, with the answer shown once an option is chosen. */
  function CurrentCard(q: Quiz, questions: seq<Question>): (card: QuestionCard.Card)
    requires q.index < |questions|
    ensures card.heading == questions[q.index].question
  {
    QuestionCard.Render(questions[q.index], ShowAnswer(q), q.selected)
  }

  /**
   * The colours agree with the score: after answering with option i, that
   * button is marked correct exactly when the answer scored, and wrong exactly when it did not.
   */
  lemma CardAgreesWithScore(q: Quiz, questions: seq<Question>, i: nat)
    requires q.index < |questions| && !ShowAnswer(q)
    requires i < |questions[q.index].options| && questions[q.index].options[i] != NoSelection
    ensures var r := Answer(q, questions, questions[q.index].options[i]);
            var b := CurrentCard(r, questions).buttons[i];
            (b.className == QuestionCard.CorrectClass <==> r.score == q.score + 1)
            && (b.className == QuestionCard.WrongClass <==> r.score == q.score)
  {
  }

  /** The App component's state cells over its fixed question list. */
  class StaticQuizApp {
    const questions: seq<Question>
    var started: bool
    var finished: bool
    var currentQuestionIndex: nat
    var selectedOption: string
    var score: nat

    function Snapshot(): Quiz
      reads this
    {
      Quiz(started, finished, currentQuestionIndex, selectedOption, score)
    }

    ghost predicate Valid()
      reads this
    {
      |questions| > 0 && Consistent(Snapshot(), |questions|)
    }

    constructor (questions: seq<Question>)
      requires |questions| > 0
      ensures Valid() && Snapshot() == Initial && this.questions == questions
    {
      this.questions := questions;
      started := false;
      finished := false;
      currentQuestionIndex := 0;
      selectedOption := NoSelection;
      score := 0;
    }

    method StartQuiz()
      requires Valid()
      modifies this
      ensures Valid() && Snapshot() == Start(old(Snapshot()))
    {
      started := true;
    }

    /** handleAnswer, called from an option button while the quiz is running. */
    method HandleAnswer(option: string)
      requires Valid() && started && option != NoSelection
      modifies this
      ensures Valid() && Snapshot() == Answer(old(Snapshot()), questions, option)
    {
      if selectedOption != NoSelection {
        return;
      }
      selectedOption := option;
      if option == questions[currentQuestionIndex].answer {
        score := score + 1;
      }
    }

    /** goToNextQuestion, called from the button shown once an option is chosen. */
    method GoToNextQuestion()
      requires Valid() && started && ShowAnswer(Snapshot())
      modifies this
      ensures Valid() && Snapshot() == Next(old(Snapshot()), |questions|)
    {
      if currentQuestionIndex < |questions| - 1 {
        currentQuestionIndex := currentQuestionIndex + 1;
        selectedOption := NoSelection;
        return;
      }
      finished := true;
    }

    method RestartQuiz()
      requires Valid()
      modifies this
      ensures Valid() && Snapshot() == Restart(old(Snapshot()))
    {
      currentQuestionIndex := 0;
      selectedOption := NoSelection;
      score := 0;
      finished := false;
      started := true;
    }
  }
}
