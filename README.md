# Quiz App: a Dafny model of the quiz session

This project models the core of a browser multiple-choice quiz. A Django back end stores questions. Each question has four option texts and the letter of the correct one, and the back end serialises each question into the JSON the front end reads. Two React front ends run the quiz as a small state machine:

- `frontend/src/App.jsx` loads the questions from the back end.
- `src/App.jsx` uses a fixed, bundled list.

The quiz has three phases. A welcome panel shows a start button. Questions then come one at a time: the player picks an option, the answer is revealed, and a button moves on. A finished panel shows the final score and a restart button. A question card colours each option button once the answer is shown.

Modules, one per source file, plus one shared module:

- `QuizSession` (quiz_session.dfy) holds what both front ends share. This is the five state cells as a `Quiz` value, the answer and next-question transitions (the same code in both App components), the invariant `Consistent` that every handler keeps when called while its button is on screen, and the integer form of the rounded progress percentage.
- `BackendApp` (backend_app.dfy) models `frontend/src/App.jsx`. It has the guarded start, the restart (started only if there are questions), the percentage with its zero guard, the six panels, and the click-sequence model `Run`. It also has class `QuizApp`, whose fields are the component's state cells and whose methods are its handlers. Each method's postcondition ties the new state to the pure transition.
- `StaticApp` (static_app.dfy) models `src/App.jsx`. It has the unguarded start, the restart that always starts, the percentage without a zero guard (so the list must be non-empty), the three panels, and class `StaticQuizApp`.
- `QuizModels` (quiz_models.dfy) models `backend/quizapp/models.py`. It covers `OPTION_CHOICES`, `get_correct_answer_text` (a dictionary lookup that raises `KeyError` on a letter outside A to D) and `to_api_dict`.
- `QuestionCard` (question_card.dfy) models `src/components/questioncard.jsx`. It covers `getOptionClass` and the list of option buttons.

The main results:

- Every handler keeps `Consistent` when called while its button is on screen, in both the class methods and the pure transitions. Under `Consistent`:
  - a quiz that has not started is pristine;
  - finished implies started;
  - while started, the index is in range;
  - a finished quiz has answered its last question;
  - the score is at most the number of questions answered.
- For questions whose options are non-empty strings, any sequence of clicks on buttons that are on screen reaches a state where exactly one panel is rendered and the score is at most the number of questions.
- In both front ends the percentage always lies in [0, 100], is 100 once finished and never goes down when moving on.
- Answering is once per question.
- The answer the back end serves is always one of the options, so the front end's exact-match scoring can award a point.
- The card's colours agree with the score.

## Model

| member | source | states |
|---|---|---|
| QuizSession.Answer | frontend/src/App.jsx:62-70 | ignored once an option is selected; otherwise records the option, and the score goes up by exactly one iff the option equals the current question's answer, else stays; phase and index unchanged; keeps `Consistent` for a started quiz and a non-empty option (src/App.jsx:35-43 is the same code) |
| QuizSession.Next | frontend/src/App.jsx:72-80 | with questions left, index + 1 and selection cleared; on the last question, finished with index and selection kept; score and started unchanged; from a started quiz with an option chosen, keeps `Consistent` and the number answered (src/App.jsx:45-53 is the same code) |
| QuizSession.AnswerOnce | frontend/src/App.jsx:62-63 | after a non-empty answer, any second answer leaves the state as the first left it |
| QuizSession.BlankOptionScoredTwice | frontend/src/App.jsx:39 | with the empty-string "no selection" sentinel, an empty option equal to the answer is scored but not recorded, so it can be scored twice; this is why options must be non-empty |
| QuizSession.ShowAnswer | frontend/src/App.jsx:39 | true exactly when the selection is a non-empty string, i.e. an option has been chosen for the current question |
| QuizSession.ConsistentScoreBounded | frontend/src/App.jsx:173 | in every consistent state, score ≤ answered ≤ total, and a finished quiz has answered all questions, so the final score shown is at most the total |
| QuizSession.Completed | frontend/src/App.jsx:40 | in every consistent state, completedQuestions is at most the total, and equals it once finished |
| QuizSession.RoundedPercent | frontend/src/App.jsx:42 | the integer percentage is 100·completed/total rounded to the nearest integer, halves up, as Math.round does |
| QuizSession.RoundedPercentBounds | frontend/src/App.jsx:41-43 | for completed ≤ total the rounded percentage is in [0, 100], 0 when nothing is completed, 100 when all are |
| QuizSession.RoundedPercentMonotone | frontend/src/App.jsx:41-43 | more completed questions never give a smaller percentage |
| BackendApp.Start | frontend/src/App.jsx:57-60 | no questions: nothing changes; otherwise started, and nothing else changes; keeps `Consistent` |
| BackendApp.Restart | frontend/src/App.jsx:82-88 | index 0, no selection, score 0, not finished, started iff there are questions; equal to starting afresh from the initial state; always consistent |
| BackendApp.EmptyQuizNeverStarts | frontend/src/App.jsx:57-60 | with no questions neither start nor restart sets started |
| BackendApp.CompletedPercent | frontend/src/App.jsx:40-43 | 0 unless started with at least one question |
| BackendApp.ProgressBounds | frontend/src/App.jsx:40-43 | in every consistent state the percentage is in [0, 100], and 100 once finished |
| BackendApp.NextNeverLowersProgress | frontend/src/App.jsx:72-80 | moving on from an answered question never lowers the percentage |
| BackendApp.VisiblePanels | frontend/src/App.jsx:104-179 | at least one panel is always rendered; exactly one unless a finished quiz was never started; loading iff loading; error iff loaded with an error; empty iff loaded, no error, no questions; welcome iff loaded, no error, questions, not started; question iff loaded, no error, questions, started, not finished; finished (final score) iff loaded, no error, questions, finished |
| BackendApp.NextButtonLabel | frontend/src/App.jsx:150 | one of "Finish Quiz" and "Next Question"; on the question panel of a consistent quiz it reads "Finish Quiz" exactly when clicking it finishes the quiz |
| BackendApp.Step | frontend/src/App.jsx:126-177 | for questions with non-empty options, a click on any button that is on screen keeps `Consistent` |
| BackendApp.Run | frontend/src/App.jsx:57-88 | for questions with non-empty options, any sequence of such clicks keeps `Consistent` |
| BackendApp.ReachableStatesAreWellFormed | frontend/src/App.jsx:104-179 | for questions with non-empty options, every state reached from the start by clicks renders exactly one panel and has score at most the number of questions |
| BackendApp.Served | frontend/src/App.jsx:28-29 | the front end's question carries the served options and answer unchanged |
| BackendApp.ServedQuestionCanBeScored | frontend/src/App.jsx:67 | for a question served by the back end, some option of it scores a point under exact-match scoring |
| BackendApp.QuizApp.constructor | frontend/src/App.jsx:5-12 | initial cells: no questions, loading, no error, quiz in its initial state |
| BackendApp.QuizApp.BeginFetch | frontend/src/App.jsx:18-20 | loading set, error cleared, quiz and questions unchanged; invariant kept |
| BackendApp.QuizApp.FinishFetch | frontend/src/App.jsx:22-34 | on a body, the questions become its list or [] and there is no error; on failure, the fixed error message is set and the questions kept; loading cleared; quiz unchanged |
| BackendApp.QuizApp.StartQuiz | frontend/src/App.jsx:57-60 | new quiz state is `Start` of the old; questions, loading and error unchanged; invariant kept |
| BackendApp.QuizApp.HandleAnswer | frontend/src/App.jsx:62-70 | new quiz state is `Answer` of the old; rest unchanged; invariant kept |
| BackendApp.QuizApp.GoToNextQuestion | frontend/src/App.jsx:72-80 | new quiz state is `Next` of the old; rest unchanged; invariant kept |
| BackendApp.QuizApp.RestartQuiz | frontend/src/App.jsx:82-88 | new quiz state is `Restart` of the old; rest unchanged; invariant kept |
| StaticApp.Start | src/App.jsx:31-33 | started, and nothing else changes, with no guard |
| StaticApp.StartKeepsConsistent | src/App.jsx:31-33 | with a non-empty list, starting keeps `Consistent` |
| StaticApp.Restart | src/App.jsx:55-61 | always started, not finished, index 0, score 0, no selection; equal to starting afresh; consistent for any non-empty list |
| StaticApp.NextNeverLowersProgress | src/App.jsx:45-53 | with a non-empty list, moving on from an answered question never lowers the percentage |
| StaticApp.CompletedPercent | src/App.jsx:14-17 | 0 before the start |
| StaticApp.ProgressBounds | src/App.jsx:14-17 | with a non-empty list, in every consistent state the percentage is in [0, 100], and 100 once finished |
| StaticApp.VisiblePanels | src/App.jsx:77-130 | at least one panel always; exactly one iff finished implies started; welcome iff not started; question iff started and not finished; finished (final score) iff finished |
| StaticApp.Step | src/App.jsx:31-61 | for a non-empty list with non-empty options, a click on any button that is on screen keeps `Consistent` |
| StaticApp.Run | src/App.jsx:31-61 | for a non-empty list with non-empty options, any sequence of such clicks keeps `Consistent` |
| StaticApp.ReachableStatesAreWellFormed | src/App.jsx:77-130 | for a non-empty list with non-empty options, every state reached by clicks renders exactly one panel and has score at most the number of questions |
| StaticApp.CurrentCard | src/App.jsx:92-97 | the card shows the current question's text |
| StaticApp.CardAgreesWithScore | src/App.jsx:38-42 | after answering option i, its button is marked correct iff the answer scored and wrong iff it did not |
| StaticApp.StaticQuizApp.constructor | src/App.jsx:6-10 | initial quiz state over the given non-empty list |
| StaticApp.StaticQuizApp.StartQuiz | src/App.jsx:31-33 | new quiz state is `Start` of the old; invariant kept |
| StaticApp.StaticQuizApp.HandleAnswer | src/App.jsx:35-43 | new quiz state is `Answer` of the old; invariant kept |
| StaticApp.StaticQuizApp.GoToNextQuestion | src/App.jsx:45-53 | new quiz state is `Next` of the old; invariant kept |
| StaticApp.StaticQuizApp.RestartQuiz | src/App.jsx:55-61 | new quiz state is `Restart` of the old; invariant kept |
| QuizModels.ChoiceLetters | backend/quizapp/models.py:5-10 | the letters of OPTION_CHOICES, in order |
| QuizModels.OptionTexts | backend/quizapp/models.py:40 | exactly four options, in the order a, b, c, d |
| QuizModels.GetCorrectAnswerText | backend/quizapp/models.py:27-34 | succeeds iff the stored letter is one of OPTION_CHOICES; the text is the option at that letter's position; otherwise a KeyError for that letter |
| QuizModels.ToApiDict | backend/quizapp/models.py:36-42 | succeeds iff the letter is valid (else the same KeyError); id and question text copied; options are the four texts in order; the answer is one of the options |
| QuizModels.LetterPicksOption | backend/quizapp/models.py:28-34 | A, B, C, D pick the first, second, third and fourth option respectively |
| QuestionCard.OptionClass | src/components/questioncard.jsx:4-9 | "correct" iff the answer is shown and the option is the answer (even when selected); "wrong" iff shown, not the answer and selected; plain otherwise, so always plain before the answer is shown |
| QuestionCard.OptionButtons | src/components/questioncard.jsx:15-25 | one button per option in order; its key, text and click argument are the option; its class is the option's class; it is disabled iff the answer is shown |
| QuestionCard.Render | src/components/questioncard.jsx:1-29 | the heading is the question text and there is one button per option |
| QuestionCard.UnansweredCardIsPlain | src/components/questioncard.jsx:15-25 | before the answer is shown every button is plain and enabled |
| QuestionCard.AnsweredCardMarksAnswer | src/components/questioncard.jsx:4-21 | once shown, every button is disabled and a button is marked correct iff it carries the answer |
| QuestionCard.RightAnswerHasNoWrongButton | src/components/questioncard.jsx:6-7 | when the selection is the answer, no button is marked wrong |
| QuestionCard.AtMostOneHighlight | src/components/questioncard.jsx:15-17 | with distinct options (React keys), no two buttons are both correct or both wrong |

## Left out

- The network exchange of `fetchQuestions` (frontend/src/App.jsx:23-28) is not modelled. Its outcome is the parameter of `FinishFetch`: a JSON body whose `questions` key may be absent, or a failure. A `questions` value that is present but falsy, or not a list, is not distinguished.
- React's `useState`, `useEffect` and `useMemo` and the JSX rendering are not modelled. Each handler is one atomic transition. Rendering is modelled as the list of visible panels and the attributes of the option buttons. Display strings ("Question n of m", the score line, "Correct answer: …") are not modelled.
- The confetti pieces (frontend/src/App.jsx:46-55, src/App.jsx:20-29) are not modelled. They are cosmetic.
- `Math.round((c / t) * 100)` is computed on exact rationals as `(200c + t) / (2t)`. Floating-point error in `c / t * 100` can move a value that is exactly half-way, and that is not modelled.
- The static question list (`src/data/questions`) is not part of this model. It is the parameter of the `StaticQuizApp` constructor, which requires it to be non-empty. With an empty list, the percentage would be `NaN`, and once the unguarded start is clicked the question panel would render `QuestionCard` with `data` undefined, which throws at src/components/questioncard.jsx:2. Neither is modelled.
- frontend/src/components/questioncard.jsx is not part of this model. The card model follows src/components/questioncard.jsx.
- backend/quizapp/views.py (the query that serves only questions with `is_active` set, and the JSON response), urls.py and admin.py are not modelled. They are framework routing and configuration.
- Django field metadata (`max_length`, `auto_now_add`, `Meta.ordering`, `created_at`) and `QuizQuestion.__str__` are not modelled. They are storage and display only.
- BackendApp.QuizApp.HandleAnswer: requires the option to be a non-empty string. The front end uses `""` for "no selection", so an empty option would be scored without being recorded (see `QuizSession.BlankOptionScoredTwice`).
- StaticApp.StaticQuizApp.HandleAnswer: requires a non-empty option, for the same reason.
- BackendApp.QuizApp.GoToNextQuestion: requires an option to be selected. The button that calls it is only rendered then (frontend/src/App.jsx:148).
- StaticApp.StaticQuizApp.GoToNextQuestion: requires an option to be selected, for the same reason (src/App.jsx:99).
- BackendApp.Step: requires every option of every question to be a non-empty string. A click on a blank option is scored but not recorded, so further clicks on it keep scoring; the click-sequence results (`Run`, `ReachableStatesAreWellFormed`) hold only for non-blank options.
- StaticApp.Step: requires non-blank options, for the same reason; the same holds for `StaticApp.Run` and `StaticApp.ReachableStatesAreWellFormed`.
- BackendApp.QuizApp.BeginFetch: requires the loading or error state. It is called only on mount and from the error panel's Retry button.
- `goToNextQuestion` keeps the selection when it finishes the quiz (frontend/src/App.jsx:79), and `selectedOption` uses `""` for "nothing selected" (frontend/src/App.jsx:10, :39). The model follows this.
