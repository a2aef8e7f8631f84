/**
 * The unit-1 presentation deck: sixteen slides whose position is kept in the
 * `slide` URL parameter, an outline, and fifteen exercises (twelve typed
 * answers and three multiple-choice questions) kept in one record per id.
 */
module UnitOnePresentation {
  import opened Wrappers
  import opened Text
  import opened Answers
  import opened JsNumber
  import opened SlideDeck

  const TotalSlides := 16

  /** `{inputValue, checked, correct}` of one exercise. */
  datatype ExerciseState = ExerciseState(inputValue: string, checked: bool, correct: bool)

  const Blank := ExerciseState("", false, false)

  const ExerciseIds: seq<string> := [
    "write", "run", "lie", "neg1", "neg2", "neg3", "yn1", "yn2", "yn3",
    "wh1", "wh2", "wh3", "mcq1", "mcq2", "mcq3"
  ]

  /** The answers the typed exercises are checked against. */
  const InputAnswers: map<string, string> := map[
    "write" := "writing", "run" := "running", "lie" := "lying",
    "neg1" := "am not studying English", "neg2" := "isn't cooking dinner",
    "neg3" := "aren't playing football",
    "yn1" := "Are they playing soccer", "yn2" := "Is he working in a hospital",
    "yn3" := "Are you reading a book",
    "wh1" := "What are they playing", "wh2" := "Where is she going",
    "wh3" := "Why is he crying"
  ]

  /** The right option of each multiple-choice question. */
  const ChoiceAnswers: map<string, string> := map[
    "mcq1" := "are playing", "mcq2" := "goes", "mcq3" := "study"
  ]

  /** Every exercise starts blank. */
  function InitialExercises(): (states: map<string, ExerciseState>)
    ensures forall id :: id in states <==> id in ExerciseIds
    ensures forall id :: id in states ==> states[id] == Blank
  {
    map id | id in ExerciseIds :: Blank
  }

  /** The slide the deck opens on: the 1-based `slide` parameter read with
      `parseInt`, when it names one of the sixteen slides; otherwise the first. */
  function InitialSlide(slideParam: Option<string>): (r: int)
    ensures 0 <= r < TotalSlides
    ensures slideParam.None? || slideParam == Some("") ==> r == 0
    ensures slideParam.Some? && ParseInt(slideParam.value).None? ==> r == 0
    ensures slideParam.Some? && slideParam.value != "" && ParseInt(slideParam.value).Some? ==>
      r == (var v := ParseInt(slideParam.value).value; if 1 <= v <= TotalSlides then v - 1 else 0)
  {
    if slideParam.None? || slideParam.value == "" then 0
    else match ParseInt(slideParam.value)
      case None => 0
      case Some(v) => if 0 <= v - 1 < TotalSlides then v - 1 else 0
  }

  /** Reloading the page on the URL the deck writes reopens the same slide. */
  lemma InitialSlideRoundTrip(k: int)
    requires 0 <= k < TotalSlides
    ensures InitialSlide(Some(NatToString(k + 1))) == k
  {
    ParseIntOfNatToString(k + 1, []);
    assert NatToString(k + 1) + [] == NatToString(k + 1);
  }

  /** Typing into an exercise stores the text and clears its verdict; an id
      without a record gets one, and every other record stays. */
  function Edited(states: map<string, ExerciseState>, id: string, value: string): (r: map<string, ExerciseState>)
    ensures id in r && r[id].inputValue == value && !r[id].checked && !r[id].correct
    ensures r.Keys == states.Keys + {id}
    ensures forall other :: other in states && other != id ==> r[other] == states[other]
  {
    states[id := ExerciseState(value, false, false)]
  }

  /** `checkInput`: a known id gets `checked` and the verdict of the slide
      answer rule, its text kept; an unknown id is ignored. */
  function InputChecked(states: map<string, ExerciseState>, id: string, correctAnswer: string): (r: map<string, ExerciseState>)
    ensures r.Keys == states.Keys
    ensures id in states ==>
      r[id].checked && r[id].inputValue == states[id].inputValue
      && (r[id].correct <==> SlideUserForm(states[id].inputValue) == SlideExpectedForm(correctAnswer))
    ensures forall other :: other in states && other != id ==> r[other] == states[other]
  {
    if id !in states then states
    else states[id := states[id].(checked := true,
                                  correct := SlideAnswerMatches(states[id].inputValue, correctAnswer))]
  }

  /** `checkMCQ`: case-insensitive comparison; the record is replaced by the
      chosen option, checked. */
  function ChoiceChecked(states: map<string, ExerciseState>, id: string, correctAnswer: string,
                         selected: string): (r: map<string, ExerciseState>)
    ensures r.Keys == states.Keys + {id}
    ensures r[id].checked && r[id].inputValue == selected
    ensures r[id].correct <==> ToLower(selected) == ToLower(correctAnswer)
    ensures forall other :: other in states && other != id ==> r[other] == states[other]
  {
    states[id := ExerciseState(selected, true, ToLower(selected) == ToLower(correctAnswer))]
  }

  /** The choice rule ignores letter case. */
  lemma ChoiceIgnoresCase(states: map<string, ExerciseState>, id: string, correctAnswer: string)
    ensures ChoiceChecked(states, id, correctAnswer, ToUpper(correctAnswer))[id].correct
  {
    UpperThenLower(correctAnswer);
  }

  /** None of the expected answers starts or ends with white space. */
  lemma InputAnswersUnpadded()
    ensures forall id :: id in InputAnswers ==> Unpadded(InputAnswers[id])
  {
  }

  /** Typing an exercise's answer, padded, lowered or followed by '.' or '?',
      and checking it, marks the exercise correct. */
  lemma TypedAnswerAccepted(states: map<string, ExerciseState>, id: string, pad: string, punct: string)
    requires id in states && id in InputAnswers
    requires forall i :: 0 <= i < |pad| ==> IsSpace(pad[i])
    requires forall i :: 0 <= i < |punct| ==> IsDotOrQuestion(punct[i])
    ensures var e := InputAnswers[id];
      InputChecked(Edited(states, id, pad + e + punct + pad), id, e)[id].correct
      && InputChecked(Edited(states, id, pad + ToLower(e) + punct + pad), id, e)[id].correct
  {
    InputAnswersUnpadded();
    SlideAnswerVariants(InputAnswers[id], pad, punct);
  }

  /** What the keyboard handler registered at mount sees: the slide and the
      outline state of the first render. */
  const MountSlide := 0
  const MountOutlineOpen := false

  /** With the mount-time snapshot, the arrow keys always lead to index 1 or
      index 15, and Escape never closes the outline, wherever the deck is;
      reading the current state moves one slide from where the deck is. */
  lemma StaleKeyboardCounterexample()
    ensures Step(MountSlide, KeyNav("ArrowRight", MountOutlineOpen), TotalSlides) == 1
    ensures Step(5, KeyNav("ArrowRight", false), TotalSlides) == 6
    ensures Step(MountSlide, KeyNav("ArrowLeft", MountOutlineOpen), TotalSlides) == 15
    ensures Step(5, KeyNav("ArrowLeft", false), TotalSlides) == 4
    ensures KeyNav("Escape", MountOutlineOpen) == Stay && KeyNav("Escape", true) == CloseOutline
  {
  }

  class Presentation {
    var currentSlide: int
    var outlineModalOpen: bool
    var exerciseStates: map<string, ExerciseState>
    /** The number last written to the `slide` URL parameter. */
    var urlSlide: Option<int>
    var touchStartX: int

    predicate Valid()
      reads this
    {
      0 <= currentSlide < TotalSlides
    }

    /** The mount: the deck opens on the slide the URL names, without
        rewriting the URL. */
    constructor(slideParam: Option<string>)
      ensures currentSlide == InitialSlide(slideParam) && Valid()
      ensures !outlineModalOpen && touchStartX == 0
      ensures exerciseStates == InitialExercises()
      ensures urlSlide == None
    {
      currentSlide := InitialSlide(slideParam);
      outlineModalOpen := false;
      exerciseStates := InitialExercises();
      urlSlide := None;
      touchStartX := 0;
    }

    /** Moves to `(n + 16) % 16` and writes that slide's 1-based number to the URL. */
    method ShowSlide(n: int)
      modifies this
      ensures currentSlide == Wrap(n, TotalSlides)
      ensures urlSlide == Some(currentSlide + 1)
      ensures -TotalSlides <= n ==> Valid()
      ensures outlineModalOpen == old(outlineModalOpen)
      ensures exerciseStates == old(exerciseStates) && touchStartX == old(touchStartX)
    {
      currentSlide := Wrap(n, TotalSlides);
      urlSlide := Some(currentSlide + 1);
    }

    method ToggleOutline()
      modifies this
      ensures outlineModalOpen == !old(outlineModalOpen)
      ensures currentSlide == old(currentSlide) && urlSlide == old(urlSlide)
      ensures exerciseStates == old(exerciseStates) && touchStartX == old(touchStartX)
    {
      outlineModalOpen := !outlineModalOpen;
    }

    /** An outline entry: shows the slide and closes the outline. */
    method GoToSlide(n: int)
      modifies this
      ensures currentSlide == Wrap(n, TotalSlides) && !outlineModalOpen
      ensures urlSlide == Some(currentSlide + 1)
      ensures 0 <= n < TotalSlides ==> currentSlide == n
      ensures exerciseStates == old(exerciseStates) && touchStartX == old(touchStartX)
    {
      ShowSlide(n);
      outlineModalOpen := false;
    }

    method HandleExerciseInputChange(id: string, value: string)
      modifies this
      ensures exerciseStates == Edited(old(exerciseStates), id, value)
      ensures currentSlide == old(currentSlide) && outlineModalOpen == old(outlineModalOpen)
      ensures urlSlide == old(urlSlide) && touchStartX == old(touchStartX)
    {
      exerciseStates := exerciseStates[id := ExerciseState(value, false, false)];
    }

    method CheckInput(id: string, correctAnswer: string)
      modifies this
      ensures exerciseStates == InputChecked(old(exerciseStates), id, correctAnswer)
      ensures currentSlide == old(currentSlide) && outlineModalOpen == old(outlineModalOpen)
      ensures urlSlide == old(urlSlide) && touchStartX == old(touchStartX)
    {
      if id !in exerciseStates {
        return;
      }
      var state := exerciseStates[id];
      var userAnswer := StripDotAndQuestion(TrimLower(state.inputValue));
      var expectedAnswer := StripDotAndQuestion(ToLower(correctAnswer));
      var isCorrect := userAnswer == expectedAnswer;
      exerciseStates := exerciseStates[id := state.(checked := true, correct := isCorrect)];
    }

    method CheckMCQ(id: string, correctAnswer: string, selectedAnswer: string)
      modifies this
      ensures exerciseStates == ChoiceChecked(old(exerciseStates), id, correctAnswer, selectedAnswer)
      ensures currentSlide == old(currentSlide) && outlineModalOpen == old(outlineModalOpen)
      ensures urlSlide == old(urlSlide) && touchStartX == old(touchStartX)
    {
      var isCorrect := ToLower(selectedAnswer) == ToLower(correctAnswer);
      exerciseStates := exerciseStates[id := ExerciseState(selectedAnswer, true, isCorrect)];
    }

    /** The key handler as registered: it reads the mount-time snapshot, not
        the current slide or outline. */
    method KeyDownAsWritten(key: string)
      modifies this
      ensures var nav := KeyNav(key, MountOutlineOpen);
        (nav == Next || nav == Previous ==>
           currentSlide == Step(MountSlide, nav, TotalSlides) && urlSlide == Some(currentSlide + 1))
        && (nav == Stay ==> currentSlide == old(currentSlide) && urlSlide == old(urlSlide))
      ensures old(Valid()) ==> Valid()
      ensures outlineModalOpen == old(outlineModalOpen)
      ensures exerciseStates == old(exerciseStates) && touchStartX == old(touchStartX)
    {
      var nav := KeyNav(key, MountOutlineOpen);
      if nav == Next {
        ShowSlide(MountSlide + 1);
      } else if nav == Previous {
        ShowSlide(MountSlide - 1);
      }
    }

    /** The key handler reading the current state: Right/Down next,
        Left/Up previous, Escape closes an open outline. */
    method KeyDown(key: string)
      requires Valid()
      modifies this
      ensures Valid()
      ensures currentSlide == Step(old(currentSlide), KeyNav(key, old(outlineModalOpen)), TotalSlides)
      ensures outlineModalOpen == (old(outlineModalOpen) && KeyNav(key, old(outlineModalOpen)) != CloseOutline)
      ensures exerciseStates == old(exerciseStates) && touchStartX == old(touchStartX)
    {
      var nav := KeyNav(key, outlineModalOpen);
      if nav == Next {
        ShowSlide(currentSlide + 1);
      } else if nav == Previous {
        ShowSlide(currentSlide - 1);
      } else if nav == CloseOutline {
        outlineModalOpen := false;
      }
    }

    method TouchStart(x: int)
      modifies this
      ensures touchStartX == x
      ensures currentSlide == old(currentSlide) && outlineModalOpen == old(outlineModalOpen)
      ensures exerciseStates == old(exerciseStates) && urlSlide == old(urlSlide)
    {
      touchStartX := x;
    }

    /** The swipe reads the end position of this very touch. */
    method TouchEnd(x: int)
      requires Valid()
      modifies this
      ensures Valid()
      ensures currentSlide == Step(old(currentSlide), SwipeNav(old(touchStartX), x), TotalSlides)
      ensures SwipeNav(old(touchStartX), x) != Stay ==> urlSlide == Some(currentSlide + 1)
      ensures SwipeNav(old(touchStartX), x) == Stay ==> urlSlide == old(urlSlide)
      ensures outlineModalOpen == old(outlineModalOpen)
      ensures exerciseStates == old(exerciseStates) && touchStartX == old(touchStartX)
    {
      var nav := SwipeNav(touchStartX, x);
      if nav == Next {
        ShowSlide(currentSlide + 1);
      } else if nav == Previous {
        ShowSlide(currentSlide - 1);
      }
    }
  }
}
