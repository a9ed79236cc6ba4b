/**
 * The QuizQuestion model of the Django back end (backend/quizapp/models.py):
 * a question with four option texts and the letter of the correct one, and
 * its serialisation into the dictionary the questions endpoint returns.
 */
module QuizModels {

  /** A stored question row. `correctOption` is a one-character field whose choices are A to D. */
  datatype QuizQuestion = QuizQuestion(
    id: int,
    questionText: string,
    optionA: string,
    optionB: string,
    optionC: string,
    optionD: string,
    correctOption: string)

  /** OPTION_CHOICES: the stored letter and its human-readable label, in order. */
  const OptionChoices: seq<(string, string)> :=
    [("A", "Option A"), ("B", "Option B"), ("C", "Option C"), ("D", "Option D")]

  /** The letters OPTION_CHOICES allows, in order. */
  function ChoiceLetters(): (letters: seq<string>)
    ensures |letters| == |OptionChoices|
    ensures forall i :: 0 <= i < |letters| ==> letters[i] == OptionChoices[i].0
  {
    seq(|OptionChoices|, i requires 0 <= i < |OptionChoices| => OptionChoices[i].0)
  }

  /** Position of `x` in `xs`, if it occurs. */
  function IndexOf(xs: seq<string>, x: string): (r: int)
    ensures -1 <= r < |xs|
    ensures r == -1 <==> x !in xs
    ensures 0 <= r ==> xs[r] == x && x !in xs[..r]
  {
    if xs == [] then -1
    else if xs[0] == x then 0
    else
      var k := IndexOf(xs[1..], x);
      if k == -1 then
        assert xs == [xs[0]] + xs[1..];
        -1
      else
        assert xs[k + 1] == xs[1..][k] && xs[..k + 1] == [xs[0]] + xs[1..][..k];
        k + 1
  }

  /** The text returned when the lookup succeeds, or the KeyError a Python dict raises. */
  datatype Lookup<T> = Found(value: T) | KeyError(key: string)

  /** The four option texts in the order a, b, c, d. */
  function OptionTexts(q: QuizQuestion): (options: seq<string>)
    ensures |options| == |OptionChoices|
    ensures options[0] == q.optionA && options[1] == q.optionB
    ensures options[2] == q.optionC && options[3] == q.optionD
  {
    [q.optionA, q.optionB, q.optionC, q.optionD]
  }

  /**
   * get_correct_answer_text: looks the stored letter up in a dictionary from
   * "A".."D" to the option texts; any other letter raises KeyError.
   */
  function GetCorrectAnswerText(q: QuizQuestion): (r: Lookup<string>)
    ensures r.Found? <==> q.correctOption in ChoiceLetters()
    ensures r.KeyError? ==> r.key == q.correctOption
    ensures r.Found? ==> r.value == OptionTexts(q)[IndexOf(ChoiceLetters(), q.correctOption)]
  {
    var optionMap := map["A" := q.optionA, "B" := q.optionB, "C" := q.optionC, "D" := q.optionD];
    assert ChoiceLetters() == ["A", "B", "C", "D"];
    if q.correctOption in optionMap then Found(optionMap[q.correctOption])
    else KeyError(q.correctOption)
  }

  /** The dictionary to_api_dict returns. */
  datatype ApiQuestion = ApiQuestion(id: int, question: string, options: seq<string>, answer: string)

  /**
   * to_api_dict: copies id and question text, lists the four options in
   * order a, b, c, d, and gives the correct option's text as the answer, so
   * the answer is always one of the options. A bad letter makes it raise.
   */
  function ToApiDict(q: QuizQuestion): (r: Lookup<ApiQuestion>)
    ensures r.Found? <==> q.correctOption in ChoiceLetters()
    ensures r.KeyError? ==> r.key == q.correctOption
    ensures r.Found? ==> r.value.id == q.id && r.value.question == q.questionText
    ensures r.Found? ==> r.value.options == OptionTexts(q)
    ensures r.Found? ==> r.value.answer in r.value.options
  {
    match GetCorrectAnswerText(q)
    case Found(answer) => Found(ApiQuestion(q.id, q.questionText, OptionTexts(q), answer))
    case KeyError(key) => KeyError(key)
  }

  /** Each letter picks the option in its own position: A the first, B the second, C the third, D the fourth. */
  lemma LetterPicksOption(q: QuizQuestion, k: nat)
    requires k < |OptionChoices|
    requires q.correctOption == OptionChoices[k].0
    ensures ToApiDict(q).Found?
    ensures ToApiDict(q).value.answer == ToApiDict(q).value.options[k]
  {
    assert ChoiceLetters() == ["A", "B", "C", "D"];
  }
}
