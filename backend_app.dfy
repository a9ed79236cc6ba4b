/**
 * The App component of the API-backed front end (frontend/src/App.jsx).
 *
 * It loads the question list from the back end, then runs the quiz: a welcome
 * panel with a start button, one question at a time, and a finished panel with
 * the final score and a restart button. The network exchange is not modelled:
 * its outcome is the parameter of FinishFetch.
 */
module BackendApp {
  import opened QuizSession
  import QuizModels

  datatype Option<T> = None | Some(value: T)

  /** How a fetch of /api/questions/ ends: a JSON body (whose `questions` key may be absent), or any failure. */
  datatype FetchOutcome = Fetched(questions: Option<seq<Question>>) | FetchFailed

  const LoadErrorMessage: string := "Failed to load questions from backend."

  /** startQuiz: does nothing when there are no questions, otherwise marks the quiz started. */
  function Start(q: Quiz, total: nat): (r: Quiz)
    ensures total == 0 ==> r == q
    ensures r.started <==> q.started || total > 0
    ensures r.(started := q.started) == q
    ensures Consistent(q, total) ==> Consistent(r, total)
  {
    if total == 0 then q else q.(started := true)
  }

  /**
   * restartQuiz: back to the first question with no selection, no score and
   * not finished, which is exactly starting afresh; started only if there are questions.
   */
  function Restart(q: Quiz, total: nat): (r: Quiz)
    ensures r == Start(Initial, total)
    ensures r.index == 0 && r.score == 0 && !ShowAnswer(r) && !r.finished
    ensures r.started <==> total > 0
    ensures Consistent(r, total)
  {
    Quiz(total > 0, false, 0, NoSelection, 0)
  }

  /** An empty quiz can never be started, whatever is clicked. */
  lemma EmptyQuizNeverStarts(q: Quiz)
    requires Consistent(q, 0)
    ensures !Start(q, 0).started && !Restart(q, 0).started
  {
  }

  /** completedPercent: 0 unless started with at least one question, else the rounded share completed. */
  function CompletedPercent(q: Quiz, total: nat): (p: nat)
    ensures !(q.started && total > 0) ==> p == 0
  {
    if q.started && total > 0 then RoundedPercent(Completed(q, total), total) else 0
  }

  /** The percentage shown always lies in [0, 100], and is 100 once the quiz is finished. */
  lemma ProgressBounds(q: Quiz, total: nat)
    requires Consistent(q, total)
    ensures CompletedPercent(q, total) <= 100
    ensures q.finished ==> CompletedPercent(q, total) == 100
  {
    if q.started && total > 0 {
      RoundedPercentBounds(Completed(q, total), total);
    }
  }

  /** Moving on never makes the progress bar go back. */
  lemma NextNeverLowersProgress(q: Quiz, total: nat)
    requires Consistent(q, total) && q.started && ShowAnswer(q)
    ensures CompletedPercent(q, total) <= CompletedPercent(Next(q, total), total)
  {
    RoundedPercentMonotone(Completed(q, total), Completed(Next(q, total), total), total);
  }

  /** The panels the component can render. */
  datatype Panel = LoadingPanel | ErrorPanel | EmptyPanel | WelcomePanel | QuestionPanel | FinishedPanel

  /** The panels rendered for a state, in page order: each is shown when its own condition holds. */
  function VisiblePanels(loading: bool, error: string, total: nat, q: Quiz): (ps: seq<Panel>)
    ensures |ps| >= 1
    ensures |ps| == 1 <==> loading || error != "" || total == 0 || (q.finished ==> q.started)
    ensures LoadingPanel in ps <==> loading
    ensures ErrorPanel in ps <==> !loading && error != ""
    ensures EmptyPanel in ps <==> !loading && error == "" && total == 0
    ensures WelcomePanel in ps <==> !loading && error == "" && total > 0 && !q.started
    ensures QuestionPanel in ps <==> !loading && error == "" && total > 0 && q.started && !q.finished
    ensures FinishedPanel in ps <==> !loading && error == "" && total > 0 && q.finished
  {
    var ready := !loading && error == "";
    (if loading then [LoadingPanel] else [])
    + (if !loading && error != "" then [ErrorPanel] else [])
    + (if ready && total == 0 then [EmptyPanel] else [])
    + (if ready && total > 0 && !q.started then [WelcomePanel] else [])
    + (if ready && total > 0 && q.started && !q.finished then [QuestionPanel] else [])
    + (if ready && total > 0 && q.finished then [FinishedPanel] else [])
  }

  /**
   * The label of the button that appears once an option is chosen. On the
   * question panel it says "Finish Quiz" exactly when clicking it finishes the quiz.
   */
  function NextButtonLabel(q: Quiz, total: nat): (caption: string)
    ensures caption == "Finish Quiz" || caption == "Next Question"
    ensures Consistent(q, total) && q.started && !q.finished ==>
              (caption == "Finish Quiz" <==> Next(q, total).finished)
  {
    if q.index == total - 1 then "Finish Quiz" else "Next Question"
  }

  /**
   * One click, applied only if the button clicked is on screen: Start on the
   * welcome panel, an option of the current question or the next button on
   * the question panel (the latter once an option is chosen), Restart on the
   * finished panel. Options must be non-empty strings (see BlankOptionScoredTwice).
   */
  function Step(q: Quiz, questions: seq<Question>, click: Click): (r: Quiz)
    requires NonBlankOptions(questions) && Consistent(q, |questions|)
    ensures Consistent(r, |questions|)
  {
    var onQuestion := q.started && !q.finished;
    match click
    case StartClick => if !q.started then Start(q, |questions|) else q
    case OptionClick(o) =>
      if onQuestion && o in questions[q.index].options then Answer(q, questions, o) else q
    case NextClick => if onQuestion && ShowAnswer(q) then Next(q, |questions|) else q
    case RestartClick => if q.finished then Restart(q, |questions|) else q
  }

  /** The state after a sequence of clicks on a loaded question list. */
  function Run(q: Quiz, questions: seq<Question>, clicks: seq<Click>): (r: Quiz)
    requires NonBlankOptions(questions) && Consistent(q, |questions|)
    ensures Consistent(r, |questions|)
    decreases |clicks|
  {
    if clicks == [] then q else Run(Step(q, questions, clicks[0]), questions, clicks[1..])
  }

  /** After any clicks on a loaded list, exactly one panel is shown and the score is at most the number of questions. */
  lemma ReachableStatesAreWellFormed(questions: seq<Question>, clicks: seq<Click>)
    requires NonBlankOptions(questions)
    ensures var q := Run(Initial, questions, clicks);
            |VisiblePanels(false, "", |questions|, q)| == 1 && q.score <= |questions|
  {
    var q := Run(Initial, questions, clicks);
    ConsistentScoreBounded(q, |questions|);
  }

  /** What the browser reads from one entry of the questions endpoint's JSON. */
  function Served(d: QuizModels.ApiQuestion): (q: Question)
    ensures q.options == d.options && q.answer == d.answer
  {
    Question(d.question, d.options, d.answer)
  }

  /**
   * A question served by the back end can always be scored: its answer is one
   * of its options, so clicking that option adds one to the score.
   */
  lemma ServedQuestionCanBeScored(row: QuizModels.QuizQuestion, questions: seq<Question>, q: Quiz)
    requires QuizModels.ToApiDict(row).Found?
    requires q.index < |questions| && questions[q.index] == Served(QuizModels.ToApiDict(row).value)
    requires !ShowAnswer(q)
    ensures exists o :: o in questions[q.index].options && Answer(q, questions, o).score == q.score + 1
  {
    var o := QuizModels.ToApiDict(row).value.answer;
    assert o in questions[q.index].options;
    assert Answer(q, questions, o).score == q.score + 1;
  }

  /** The App component's state cells. */
  class QuizApp {
    var questions: seq<Question>
    var loading: bool
    var error: string
    var started: bool
    var finished: bool
    var currentQuestionIndex: nat
    var selectedOption: string
    var score: nat

    /** The five quiz cells as a value. */
    function Snapshot(): Quiz
      reads this
    {
      Quiz(started, finished, currentQuestionIndex, selectedOption, score)
    }

    /** The quiz is consistent with the loaded list; no questions are held while loading or after an error. */
    ghost predicate Valid()
      reads this
    {
      && Consistent(Snapshot(), |questions|)
      && (loading ==> error == "")
      && (loading || error != "" ==> questions == [])
    }

    /** The initial state of the cells, before the fetch on mount. */
    constructor ()
      ensures Valid() && Snapshot() == Initial
      ensures questions == [] && loading && error == ""
    {
      questions := [];
      loading := true;
      error := "";
      started := false;
      finished := false;
      currentQuestionIndex := 0;
      selectedOption := NoSelection;
      score := 0;
    }

    /** fetchQuestions until its request is sent: on mount, or from the Retry button of the error panel. */
    method BeginFetch()
      requires Valid() && (loading || error != "")
      modifies this
      ensures Valid() && loading && error == ""
      ensures questions == old(questions) && Snapshot() == old(Snapshot())
    {
      loading := true;
      error := "";
    }

    /** fetchQuestions once the request has ended: stores the list (or [] if absent), or the error message. */
    method FinishFetch(outcome: FetchOutcome)
      requires Valid() && loading
      modifies this
      ensures Valid() && !loading && Snapshot() == old(Snapshot())
      ensures outcome.Fetched? ==> error == "" && questions == (if outcome.questions.Some? then outcome.questions.value else [])
      ensures outcome.FetchFailed? ==> error == LoadErrorMessage && questions == old(questions)
    {
      match outcome {
        case Fetched(body) =>
          questions := if body.Some? then body.value else [];
        case FetchFailed =>
          error := LoadErrorMessage;
      }
      loading := false;
    }

    method StartQuiz()
      requires Valid()
      modifies this
      ensures Valid() && Snapshot() == Start(old(Snapshot()), |questions|)
      ensures questions == old(questions) && loading == old(loading) && error == old(error)
    {
      if |questions| == 0 {
        return;
      }
      started := true;
    }

    /** handleAnswer, called from an option button while the quiz is running. */
    method HandleAnswer(option: string)
      requires Valid() && started && option != NoSelection
      modifies this
      ensures Valid() && Snapshot() == Answer(old(Snapshot()), old(questions), option)
      ensures questions == old(questions) && loading == old(loading) && error == old(error)
    {
      if selectedOption != NoSelection {
        return;
      }
      selectedOption := option;
      if option == questions[currentQuestionIndex].answer {
        score := score + 1;
      }
    }

    /** goToNextQuestion, called from the button shown once an option is chosen. */
    method GoToNextQuestion()
      requires Valid() && started && ShowAnswer(Snapshot())
      modifies this
      ensures Valid() && Snapshot() == Next(old(Snapshot()), |questions|)
      ensures questions == old(questions) && loading == old(loading) && error == old(error)
    {
      if currentQuestionIndex < |questions| - 1 {
        currentQuestionIndex := currentQuestionIndex + 1;
        selectedOption := NoSelection;
        return;
      }
      finished := true;
    }

    method RestartQuiz()
      requires Valid()
      modifies this
      ensures Valid() && Snapshot() == Restart(old(Snapshot()), |questions|)
      ensures questions == old(questions) && loading == old(loading) && error == old(error)
    {
      currentQuestionIndex := 0;
      selectedOption := NoSelection;
      score := 0;
      finished := false;
      started := |questions| > 0;
    }
  }
}
