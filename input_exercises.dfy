/**
 * The exercise slides of unit 1, lesson 1: typed-answer slides (5, 8, 10 and
 * 12) with one check/reset button per item, and the tense-choice slide (14)
 * whose options lock once an answer is recorded.  The same components appear in
 * the lesson's slide deck, in its exercise activity and as stand-alone slides.
 */
module InputExercises {
  import opened Text
  import opened Answers
  import opened SlideDeck

  const Correct := "correct"
  const Incorrect := "incorrect"

  /** `m[id] || ''` */
  function Lookup(m: map<string, string>, id: string): string {
    if id in m then m[id] else ""
  }

  /** `!!m[id]`: a stored, non-empty value. */
  predicate Truthy(m: map<string, string>, id: string) {
    Lookup(m, id) != ""
  }

  /** The `answers` and `feedback` records of a typed-answer slide. */
  datatype InputState = InputState(answers: map<string, string>, feedback: map<string, string>)

  /** `checkInput`: the verdict of the slide answer rule, for that id only. */
  function Checked(s: InputState, id: string, correctAnswer: string): (r: InputState)
    ensures r.answers == s.answers
    ensures r.feedback.Keys == s.feedback.Keys + {id}
    ensures r.feedback[id] == Correct <==> SlideAnswerMatches(Lookup(s.answers, id), correctAnswer)
    ensures r.feedback[id] == Correct || r.feedback[id] == Incorrect
    ensures forall other :: other in s.feedback && other != id ==> r.feedback[other] == s.feedback[other]
  {
    var verdict := if SlideAnswerMatches(Lookup(s.answers, id), correctAnswer) then Correct else Incorrect;
    s.(feedback := s.feedback[id := verdict])
  }

  /** `resetExercise`: the answer and the feedback of that id become ''. */
  function Reset(s: InputState, id: string): (r: InputState)
    ensures Lookup(r.answers, id) == "" && !Truthy(r.feedback, id)
    ensures forall other :: other != id ==> Lookup(r.answers, other) == Lookup(s.answers, other)
    ensures forall other :: other != id ==> Lookup(r.feedback, other) == Lookup(s.feedback, other)
  {
    InputState(s.answers[id := ""], s.feedback[id := ""])
  }

  /** The item's button: it resets while there is feedback and checks otherwise. */
  function Pressed(s: InputState, id: string, correctAnswer: string): (r: InputState)
    ensures Truthy(r.feedback, id) <==> !Truthy(s.feedback, id)
  {
    if Truthy(s.feedback, id) then Reset(s, id) else Checked(s, id, correctAnswer)
  }

  /** Pressing twice from a clean item checks and then clears it again. */
  lemma PressTwiceClears(s: InputState, id: string, correctAnswer: string)
    requires !Truthy(s.feedback, id)
    ensures var r := Pressed(Pressed(s, id, correctAnswer), id, correctAnswer);
      !Truthy(r.feedback, id) && Lookup(r.answers, id) == ""
  {
  }

  /** Without '.' or '?' on either side, an unpadded answer is accepted
      exactly when it equals the expected one ignoring letter case; so every
      other character, the apostrophe included, must match. */
  lemma PlainAnswerRule(answer: string, expected: string)
    requires '.' !in answer && '?' !in answer && '.' !in expected && '?' !in expected
    requires Unpadded(answer)
    ensures SlideAnswerMatches(answer, expected) <==> ToLower(answer) == ToLower(expected)
  {
    TrimOfUnpadded(answer);
    assert forall i :: 0 <= i < |ToLower(answer)| ==> NotDotOrQuestion(ToLower(answer)[i]);
    KeepAll(ToLower(answer), NotDotOrQuestion);
    assert forall i :: 0 <= i < |ToLower(expected)| ==> NotDotOrQuestion(ToLower(expected)[i]);
    KeepAll(ToLower(expected), NotDotOrQuestion);
  }

  /** "isnt cooking dinner" does not match "isn't cooking dinner". */
  lemma ApostropheKept()
    ensures !SlideAnswerMatches("isnt cooking dinner", "isn't cooking dinner")
  {
    PlainAnswerRule("isnt cooking dinner", "isn't cooking dinner");
  }

  /** A typed-answer slide: its answer table and its two records. */
  class InputSlide {
    const table: map<string, string>
    var state: InputState

    constructor(answerTable: map<string, string>)
      ensures table == answerTable
      ensures state == InputState(map[], map[])
    {
      table := answerTable;
      state := InputState(map[], map[]);
    }

    /** The input's `onChange`. */
    method Type(id: string, value: string)
      modifies this
      ensures state == old(state).(answers := old(state).answers[id := value])
    {
      state := state.(answers := state.answers[id := value]);
    }

    method CheckInput(id: string, correctAnswer: string)
      modifies this
      ensures state == Checked(old(state), id, correctAnswer)
    {
      var userAnswer := StripDotAndQuestion(TrimLower(Lookup(state.answers, id)));
      var correct := StripDotAndQuestion(ToLower(correctAnswer));
      if userAnswer == correct {
        state := state.(feedback := state.feedback[id := Correct]);
      } else {
        state := state.(feedback := state.feedback[id := Incorrect]);
      }
    }

    method ResetExercise(id: string)
      modifies this
      ensures state == Reset(old(state), id)
    {
      state := state.(answers := state.answers[id := ""]);
      state := state.(feedback := state.feedback[id := ""]);
    }

    /** The check/reset button of an item of the table. */
    method Press(id: string)
      requires id in table
      modifies this
      ensures state == Pressed(old(state), id, table[id])
    {
      if Truthy(state.feedback, id) {
        ResetExercise(id);
      } else {
        CheckInput(id, table[id]);
      }
    }
  }

  const Slide5Answers: map<string, string> := map[
    "write" := "writing", "run" := "running", "lie" := "lying"
  ]
  const Slide8Answers: map<string, string> := map[
    "study" := "am not studying English", "cook" := "isn't cooking dinner",
    "play" := "aren't playing football"
  ]
  const Slide10Answers: map<string, string> := map[
    "soccer" := "Are they playing soccer", "hospital" := "Is he working in a hospital",
    "book" := "Are you reading a book"
  ]
  const Slide12Answers: map<string, string> := map[
    "football" := "What are they playing", "school" := "Where is she going",
    "sad" := "Why is he crying"
  ]

  /** No expected answer of the table starts or ends with white space. */
  predicate TableUnpadded(m: map<string, string>) {
    forall id :: id in m ==> Unpadded(m[id])
  }

  lemma Slide5Unpadded() ensures TableUnpadded(Slide5Answers) {
    assert Unpadded("writing") && Unpadded("running") && Unpadded("lying");
  }

  lemma Slide8Unpadded() ensures TableUnpadded(Slide8Answers) {
    assert Unpadded("am not studying English") && Unpadded("isn't cooking dinner");
    assert Unpadded("aren't playing football");
  }

  lemma Slide10Unpadded() ensures TableUnpadded(Slide10Answers) {
    assert Unpadded("Are they playing soccer") && Unpadded("Is he working in a hospital");
    assert Unpadded("Are you reading a book");
  }

  lemma Slide12Unpadded() ensures TableUnpadded(Slide12Answers) {
    assert Unpadded("What are they playing") && Unpadded("Where is she going");
    assert Unpadded("Why is he crying");
  }

  /** The four typed-answer tables, in slide order. */
  function InputTables(): (r: seq<map<string, string>>)
    ensures |r| == 4
    ensures forall k :: 0 <= k < |r| ==> TableUnpadded(r[k])
  {
    Slide5Unpadded();
    Slide8Unpadded();
    Slide10Unpadded();
    Slide12Unpadded();
    [Slide5Answers, Slide8Answers, Slide10Answers, Slide12Answers]
  }

  /** On every typed-answer slide, the item's own answer, padded, lowered or
      with a trailing '.' or '?', is marked correct. */
  lemma OwnAnswerAccepted(k: int, s: InputState, id: string, pad: string, punct: string)
    requires 0 <= k < |InputTables()| && id in InputTables()[k]
    requires forall i :: 0 <= i < |pad| ==> IsSpace(pad[i])
    requires forall i :: 0 <= i < |punct| ==> IsDotOrQuestion(punct[i])
    ensures var e := InputTables()[k][id];
      Checked(s.(answers := s.answers[id := pad + e + punct + pad]), id, e).feedback[id] == Correct
      && Checked(s.(answers := s.answers[id := pad + ToLower(e) + punct + pad]), id, e).feedback[id] == Correct
  {
    SlideAnswerVariants(InputTables()[k][id], pad, punct);
  }

  /** The `selected` and `feedback` records of the tense-choice slide. */
  datatype ChoiceState = ChoiceState(selected: map<string, string>, feedback: map<string, string>)

  /** A click on an option: ignored while the item has feedback (its buttons
      are disabled); otherwise the option is recorded and compared with the
      answer exactly, letter case included. */
  function Clicked(s: ChoiceState, id: string, option: string, answer: string): (r: ChoiceState)
    ensures Truthy(s.feedback, id) ==> r == s
    ensures !Truthy(s.feedback, id) ==>
      Lookup(r.selected, id) == option
      && (Lookup(r.feedback, id) == Correct <==> option == answer)
      && Truthy(r.feedback, id)
    ensures forall other :: other != id ==>
      Lookup(r.selected, other) == Lookup(s.selected, other) && Lookup(r.feedback, other) == Lookup(s.feedback, other)
  {
    if Truthy(s.feedback, id) then s
    else ChoiceState(s.selected[id := option],
                     s.feedback[id := if option == answer then Correct else Incorrect])
  }

  /** `resetMCQ`: clears the selection and the feedback of that item only. */
  function ChoiceReset(s: ChoiceState, id: string): (r: ChoiceState)
    ensures Lookup(r.selected, id) == "" && !Truthy(r.feedback, id)
    ensures forall other :: other != id ==>
      Lookup(r.selected, other) == Lookup(s.selected, other) && Lookup(r.feedback, other) == Lookup(s.feedback, other)
  {
    ChoiceState(s.selected[id := ""], s.feedback[id := ""])
  }

  /** At most one answer is recorded per round: after a click, further
      clicks change nothing until the item is reset. */
  lemma OneAnswerPerRound(s: ChoiceState, id: string, first: string, second: string, answer: string)
    ensures var once := Clicked(s, id, first, answer);
      Clicked(once, id, second, answer) == once
  {
  }

  /** After a reset the item takes a new answer. */
  lemma ResetUnlocks(s: ChoiceState, id: string, option: string, answer: string)
    ensures Lookup(Clicked(ChoiceReset(s, id), id, option, answer).selected, id) == option
  {
  }

  class ChoiceSlide {
    var state: ChoiceState

    constructor()
      ensures state == ChoiceState(map[], map[])
    {
      state := ChoiceState(map[], map[]);
    }

    /** An enabled option records itself as selected and then checks. */
    method Click(id: string, option: string, answer: string)
      modifies this
      ensures state == Clicked(old(state), id, option, answer)
    {
      if Truthy(state.feedback, id) {
        return;
      }
      state := state.(selected := state.selected[id := option]);
      if option == answer {
        state := state.(feedback := state.feedback[id := Correct]);
      } else {
        state := state.(feedback := state.feedback[id := Incorrect]);
      }
    }

    method ResetMCQ(id: string)
      modifies this
      ensures state == ChoiceReset(old(state), id)
    {
      state := state.(selected := state.selected[id := ""]);
      state := state.(feedback := state.feedback[id := ""]);
    }
  }

  /** The right option of each tense-choice item. */
  const Slide14Answers: map<string, string> := map[
    "garden" := "are playing", "bus" := "goes", "english" := "study"
  ]

  /** The exercise activity: slides 5, 8, 10, 12 and 14 in a presentation shell. */
  datatype ExerciseSlide = Slide5 | Slide8 | Slide10 | Slide12 | Slide14

  const ExerciseSlides: seq<ExerciseSlide> := [Slide5, Slide8, Slide10, Slide12, Slide14]

  method ExercisesActivity() returns (deck: PresentationShell)
    ensures fresh(deck) && deck.total == |ExerciseSlides| == 5 && deck.Valid()
    ensures deck.currentSlide == 0 && ExerciseSlides[deck.currentSlide] == Slide5
  {
    deck := new PresentationShell(|ExerciseSlides|);
  }
}
