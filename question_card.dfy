/**
 * The QuestionCard component (src/components/questioncard.jsx): the question
 * heading and one button per option, each coloured by getOptionClass and
 * disabled once the answer is shown. Rendering is modelled as the value of
 * the attributes each button gets.
 */
module QuestionCard {
  import opened QuizSession

  const PlainClass: string := "option-button"
  const CorrectClass: string := "option-button correct"
  const WrongClass: string := "option-button wrong"

  /**
   * getOptionClass: before the answer is shown every option is plain; after
   * it, the answer is marked correct (also when it was the one selected), a
   * selected option that is not the answer is marked wrong, and the rest stay plain.
   */
  function OptionClass(option: string, answer: string, selected: string, showAnswer: bool): (c: string)
    ensures c == CorrectClass <==> showAnswer && option == answer
    ensures c == WrongClass <==> showAnswer && option != answer && option == selected
    ensures c == PlainClass <==> !showAnswer || (option != answer && option != selected)
  {
    if !showAnswer then PlainClass
    else if option == answer then CorrectClass
    else if option == selected then WrongClass
    else PlainClass
  }

  /** The attributes of one rendered option button; `onAnswer` is the argument its click passes to onAnswer. */
  datatype OptionButton = OptionButton(key: string, className: string, onAnswer: string, disabled: bool, text: string)

  /** options.map(...): one button per option, in the order of the options. */
  function OptionButtons(options: seq<string>, answer: string, selected: string, showAnswer: bool): (bs: seq<OptionButton>)
    ensures |bs| == |options|
    ensures forall i :: 0 <= i < |bs| ==>
              && bs[i].key == bs[i].text == bs[i].onAnswer == options[i]
              && bs[i].className == OptionClass(options[i], answer, selected, showAnswer)
              && bs[i].disabled == showAnswer
  {
    if options == [] then []
    else
      var o := options[0];
      [OptionButton(o, OptionClass(o, answer, selected, showAnswer), o, showAnswer, o)]
        + OptionButtons(options[1..], answer, selected, showAnswer)
  }

  /** What the component renders: the question text and the option buttons. */
  datatype Card = Card(heading: string, buttons: seq<OptionButton>)

  function Render(data: Question, showAnswer: bool, selected: string): (card: Card)
    ensures card.heading == data.question
    ensures |card.buttons| == |data.options|
  {
    Card(data.question, OptionButtons(data.options, data.answer, selected, showAnswer))
  }

  /** Before an answer is shown, every button is plain and can be clicked. */
  lemma UnansweredCardIsPlain(data: Question, selected: string, i: nat)
    requires i < |data.options|
    ensures var b := Render(data, false, selected).buttons[i];
            b.className == PlainClass && !b.disabled
  {
  }

  /**
   * Once the answer is shown, every button is disabled, and each button that
   * carries the answer is marked correct.
   */
  lemma AnsweredCardMarksAnswer(data: Question, selected: string, i: nat)
    requires i < |data.options|
    ensures var b := Render(data, true, selected).buttons[i];
            b.disabled && (data.options[i] == data.answer <==> b.className == CorrectClass)
  {
  }

  /** A right answer is never shown as wrong: if the selection is the answer, no button is marked wrong. */
  lemma RightAnswerHasNoWrongButton(data: Question, showAnswer: bool, i: nat)
    requires i < |data.options|
    ensures Render(data, showAnswer, data.answer).buttons[i].className != WrongClass
  {
  }

  /** With distinct options (React's keys), at most one button is marked correct and at most one wrong. */
  lemma AtMostOneHighlight(data: Question, showAnswer: bool, selected: string, i: nat, j: nat)
    requires forall k, l :: 0 <= k < l < |data.options| ==> data.options[k] != data.options[l]
    requires i < j < |data.options|
    ensures var bs := Render(data, showAnswer, selected).buttons;
            !(bs[i].className == CorrectClass && bs[j].className == CorrectClass)
            && !(bs[i].className == WrongClass && bs[j].className == WrongClass)
  {
  }
}
