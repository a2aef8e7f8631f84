/**
 * The picture multiple-choice slide (`MultipleChoiceGame`): a picture of the
 * correct word and a button per option. The first answer locks the slide;
 * a right answer moves on after 1.5 s. Buttons are coloured by the answer
 * given: the correct word green, a wrongly chosen word red, the rest grey.
 */
module MultipleChoice {
  import opened Wrappers
  import Shuffle

  datatype VocabItem = VocabItem(word: string, image: string, vietnameseMeaning: string)

  /** `selectedAnswer` and `isCorrect`; `None` is the source's `null`. */
  datatype Answer = Answer(selected: Option<string>, isCorrect: Option<bool>)

  const NoAnswer := Answer(None, None)

  /** `if (selectedAnswer) return`: only a non-empty chosen word locks the
      handler, as JavaScript treats `""` as false. */
  predicate Locked(a: Answer) {
    a.selected.Some? && a.selected.value != ""
  }

  /** `handleAnswerClick(word)` */
  function Answered(a: Answer, correctWord: string, word: string): (r: Answer)
    ensures Locked(a) ==> r == a
    ensures !Locked(a) ==> r.selected == Some(word) && r.isCorrect == Some(word == correctWord)
  {
    if Locked(a) then a else Answer(Some(word), Some(word == correctWord))
  }

  /** The move to the next slide is scheduled exactly for a right answer
      given while unlocked. */
  predicate SchedulesComplete(a: Answer, correctWord: string, word: string) {
    !Locked(a) && word == correctWord
  }

  /** Once a non-empty word is chosen, every later click leaves the answer
      as it is and schedules nothing. */
  lemma FirstAnswerLocks(a: Answer, correctWord: string, word: string, later: string)
    requires !Locked(a) && word != ""
    ensures Locked(Answered(a, correctWord, word))
    ensures Answered(Answered(a, correctWord, word), correctWord, later) == Answered(a, correctWord, word)
    ensures !SchedulesComplete(Answered(a, correctWord, word), correctWord, later)
  {
  }

  /** The stored verdict is true exactly when the chosen word is the
      correct one. */
  lemma VerdictMatchesChoice(a: Answer, correctWord: string, word: string)
    requires !Locked(a)
    ensures Answered(a, correctWord, word).isCorrect == Some(true) <==> word == correctWord
    ensures Answered(a, correctWord, word).isCorrect == Some(true) <==> SchedulesComplete(a, correctWord, word)
  {
  }

  datatype Colour = Plain | Green | Red | Grey

  /** The class names of each colour. */
  function ClassText(c: Colour): string {
    match c
    case Plain => "bg-white hover:bg-indigo-100"
    case Green => "bg-green-500 text-white"
    case Red => "bg-red-500 text-white"
    case Grey => "bg-gray-200 text-gray-500 opacity-70"
  }

  /** Each colour has its own class names. */
  lemma ClassTextDistinct(c: Colour, d: Colour)
    ensures ClassText(c) == ClassText(d) ==> c == d
  {
    if c != d {
      assert ClassText(c)[3] != ClassText(d)[3] || ClassText(c)[9] != ClassText(d)[9];
    }
  }

  /** `disabled={selectedAnswer !== null}` */
  predicate ButtonsDisabled(a: Answer) {
    a.selected.Some?
  }

  /** Any answer, the empty word included, disables the buttons; the handler
      lock implies the buttons are disabled. */
  lemma AnswerDisablesButtons(a: Answer, correctWord: string, word: string)
    ensures !Locked(a) ==> ButtonsDisabled(Answered(a, correctWord, word))
    ensures Locked(a) ==> ButtonsDisabled(a)
  {
  }

  /** `getButtonClass(optionWord)` */
  function ButtonColour(a: Answer, correctWord: string, optionWord: string): Colour {
    if a.selected == None then Plain
    else if optionWord == correctWord then Green
    else if Some(optionWord) == a.selected && a.isCorrect != Some(true) then Red
    else Grey
  }

  /** After an answer: the correct word's button is green, the chosen word's
      button is red exactly when it was wrong, every other button is grey, and
      no button is plain. */
  lemma ColoursAfterAnswer(a: Answer, correctWord: string, word: string, optionWord: string)
    requires !Locked(a)
    ensures var colour := ButtonColour(Answered(a, correctWord, word), correctWord, optionWord);
      (colour == Green <==> optionWord == correctWord)
      && (colour == Red <==> optionWord == word && word != correctWord)
      && (colour == Grey <==> optionWord != correctWord && optionWord != word)
      && colour != Plain
  {
  }

  /** Before any answer every button is plain. */
  lemma PlainBeforeAnswer(correctWord: string, optionWord: string)
    ensures ButtonColour(NoAnswer, correctWord, optionWord) == Plain
  {
  }

  class MultipleChoiceSlide {
    const correctVocab: VocabItem
    const options: seq<VocabItem>
    var shuffledOptions: seq<VocabItem>
    var answer: Answer

    /** The buttons show the given options in some order. */
    ghost predicate Valid()
      reads this
    {
      shuffledOptions == [] || multiset(shuffledOptions) == multiset(options)
    }

    constructor(correct: VocabItem, choices: seq<VocabItem>)
      ensures Valid() && correctVocab == correct && options == choices
      ensures shuffledOptions == [] && answer == NoAnswer
    {
      correctVocab := correct;
      options := choices;
      shuffledOptions := [];
      answer := NoAnswer;
    }

    /** The effect run when the slide becomes active: the options in a new
        order, no answer. The order is left open. */
    method Activate()
      modifies this
      ensures Valid() && multiset(shuffledOptions) == multiset(options) && answer == NoAnswer
    {
      shuffledOptions := Shuffle.Shuffle(options);
      answer := NoAnswer;
    }

    /** `handleAnswerClick(word)`: the answer, and whether `onComplete` is
        scheduled. */
    method AnswerClick(word: string) returns (scheduleComplete: bool)
      requires Valid()
      modifies this
      ensures Valid() && shuffledOptions == old(shuffledOptions)
      ensures answer == Answered(old(answer), correctVocab.word, word)
      ensures scheduleComplete <==> SchedulesComplete(old(answer), correctVocab.word, word)
    {
      scheduleComplete := !Locked(answer) && word == correctVocab.word;
      answer := Answered(answer, correctVocab.word, word);
    }

    /** The class of the button for `optionWord`. */
    method ButtonClass(optionWord: string) returns (cls: string)
      ensures cls == ClassText(ButtonColour(answer, correctVocab.word, optionWord))
    {
      cls := ClassText(ButtonColour(answer, correctVocab.word, optionWord));
    }
  }
}
