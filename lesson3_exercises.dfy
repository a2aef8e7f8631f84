/**
 * The reading exercises of Everybody Up unit 1, lesson 3: four character
 * tasks (pick the supplies a character has), two picture questions and
 * three story questions, graded together out of 100.
 */
module Lesson3Exercises {
  import opened Wrappers
  import opened Grading

  const CharacterTasks: seq<Question> := [
    Question("tom", MultiSelect(["paper", "glue"])),
    Question("jenny", MultiSelect(["paint", "scissors"])),
    Question("lisa", MultiSelect(["pen", "pencil"])),
    Question("teacher", MultiSelect(["marker", "crayon"]))]

  const PictureQuestions: seq<Question> := [
    Question("q1", Exact("glue")), Question("q2", Exact("pencil"))]

  const StoryQuestions: seq<Question> := [
    Question("end", Exact("They have fun together")),
    Question("ask", Exact("What do you have today?")),
    Question("need", Exact("Markers and crayons"))]

  datatype Tasks = Tasks(characters: seq<Question>, pictures: seq<Question>, stories: seq<Question>)

  const Lesson3 := Tasks(CharacterTasks, PictureQuestions, StoryQuestions)

  function Total(t: Tasks): nat { |t.characters| + |t.pictures| + |t.stories| }

  predicate Shape(t: Tasks) { |t.characters| == 4 && |t.pictures| == 2 && |t.stories| == 3 }

  lemma TotalIsNine()
    ensures Shape(Lesson3) && Total(Lesson3) == 9
  {
  }

  /** `Math.round(correct / 9 * 100)`: in [0, 100], and 100 only when all
      nine are correct. */
  lemma ScoreOutOfNine(correct: nat)
    requires correct <= 9
    ensures 0 <= RoundPercent(correct, 9) <= 100
    ensures RoundPercent(correct, 9) == 100 <==> correct == 9
  {
    RoundPercentNearest(correct, 9);
  }

  /** The three feedback records and the score a grading writes. */
  datatype Graded = Graded(characters: map<string, Option<bool>>, pictures: map<string, Option<bool>>,
                           stories: map<string, Option<bool>>, score: Option<int>)

  /** Every list is graded into a fresh record of `null`s under its own ids,
      and the score is the rounded percentage of the nine. */
  function GradedOf(t: Tasks, selections: map<string, seq<string>>, pictureAnswers: map<string, string>,
                    storyAnswers: map<string, string>): Graded
  {
    var correct := CountCorrect(t.characters, map[], selections)
                   + CountCorrect(t.pictures, pictureAnswers, map[])
                   + CountCorrect(t.stories, storyAnswers, map[]);
    Graded(Written(Record(Ids(t.characters), None), t.characters, map[], selections),
           Written(Record(Ids(t.pictures), None), t.pictures, pictureAnswers, map[]),
           Written(Record(Ids(t.stories), None), t.stories, storyAnswers, map[]),
           Some(RoundPercent(correct, 9)))
  }

  /** The three grading passes of `gradeExercises`, and the score out of the
      number of tasks, which the shape makes nine. */
  method Grade(t: Tasks, selections: map<string, seq<string>>, pictureAnswers: map<string, string>,
               storyAnswers: map<string, string>) returns (g: Graded)
    requires Shape(t)
    ensures g == GradedOf(t, selections, pictureAnswers, storyAnswers)
  {
    var c1, f1 := GradeList(t.characters, map[], selections, Record(Ids(t.characters), None));
    var c2, f2 := GradeList(t.pictures, pictureAnswers, map[], Record(Ids(t.pictures), None));
    var c3, f3 := GradeList(t.stories, storyAnswers, map[], Record(Ids(t.stories), None));
    var total := |t.characters| + |t.pictures| + |t.stories|;
    g := Graded(f1, f2, f3, Some(RoundPercent(c1 + c2 + c3, total)));
    GradedParts(t, selections, pictureAnswers, storyAnswers, g);
  }

  /** The parts a grading computes make up `GradedOf`. */
  lemma GradedParts(t: Tasks, selections: map<string, seq<string>>, pictureAnswers: map<string, string>,
                    storyAnswers: map<string, string>, g: Graded)
    requires Shape(t)
    requires g.characters == Written(Record(Ids(t.characters), None), t.characters, map[], selections)
    requires g.pictures == Written(Record(Ids(t.pictures), None), t.pictures, pictureAnswers, map[])
    requires g.stories == Written(Record(Ids(t.stories), None), t.stories, storyAnswers, map[])
    requires g.score == Some(RoundPercent(CountCorrect(t.characters, map[], selections)
                                          + CountCorrect(t.pictures, pictureAnswers, map[])
                                          + CountCorrect(t.stories, storyAnswers, map[]), Total(t)))
    ensures g == GradedOf(t, selections, pictureAnswers, storyAnswers)
  {
  }

  class ReadingExercises {
    const tasks: Tasks
    var characterSelections: map<string, seq<string>>
    var characterFeedback: map<string, Option<bool>>
    var pictureAnswers: map<string, string>
    var pictureFeedback: map<string, Option<bool>>
    var storyAnswers: map<string, string>
    var storyFeedback: map<string, Option<bool>>
    var score: Option<int>

    /** The initial records: no supply selected, every answer '', every
        feedback entry `null`, no score. */
    predicate Initial()
      reads this
    {
      characterSelections == Record(Ids(tasks.characters), [])
      && characterFeedback == Record(Ids(tasks.characters), None)
      && pictureAnswers == Record(Ids(tasks.pictures), "")
      && pictureFeedback == Record(Ids(tasks.pictures), None)
      && storyAnswers == Record(Ids(tasks.stories), "")
      && storyFeedback == Record(Ids(tasks.stories), None)
      && score == None
    }

    constructor()
      ensures tasks == Lesson3 && Initial()
    {
      tasks := Lesson3;
      var t := Lesson3;
      characterSelections := Record(Ids(t.characters), []);
      characterFeedback := Record(Ids(t.characters), None);
      pictureAnswers := Record(Ids(t.pictures), "");
      pictureFeedback := Record(Ids(t.pictures), None);
      storyAnswers := Record(Ids(t.stories), "");
      storyFeedback := Record(Ids(t.stories), None);
      score := None;
    }

    /** `toggleSupplySelection(taskId, supplyKey)`: only that task's
        selection changes. */
    method ToggleSupplySelection(taskId: string, supplyKey: string)
      modifies this
      ensures characterSelections == ToggleIn(old(characterSelections), taskId, supplyKey)
      ensures characterFeedback == old(characterFeedback) && pictureAnswers == old(pictureAnswers)
      ensures storyAnswers == old(storyAnswers) && score == old(score)
      ensures pictureFeedback == old(pictureFeedback) && storyFeedback == old(storyFeedback)
    {
      characterSelections := ToggleIn(characterSelections, taskId, supplyKey);
    }

    function CorrectCount(): (n: nat)
      reads this
      ensures n <= Total(tasks)
    {
      CountCorrect(tasks.characters, map[], characterSelections)
      + CountCorrect(tasks.pictures, pictureAnswers, map[])
      + CountCorrect(tasks.stories, storyAnswers, map[])
    }

    /** `gradeExercises()` */
    method GradeExercises()
      requires Shape(tasks)
      modifies this
      ensures Graded(characterFeedback, pictureFeedback, storyFeedback, score)
        == GradedOf(tasks, characterSelections, pictureAnswers, storyAnswers)
      ensures characterSelections == old(characterSelections) && pictureAnswers == old(pictureAnswers)
      ensures storyAnswers == old(storyAnswers)
    {
      var g := Grade(tasks, characterSelections, pictureAnswers, storyAnswers);
      characterFeedback, pictureFeedback, storyFeedback, score := g.characters, g.pictures, g.stories, g.score;
    }

    /** `resetExercises()` */
    method ResetExercises()
      modifies this
      ensures Initial()
    {
      var t := tasks;
      characterSelections := Record(Ids(t.characters), []);
      characterFeedback := Record(Ids(t.characters), None);
      pictureAnswers := Record(Ids(t.pictures), "");
      pictureFeedback := Record(Ids(t.pictures), None);
      storyAnswers := Record(Ids(t.stories), "");
      storyFeedback := Record(Ids(t.stories), None);
      score := None;
    }
  }

  /** A character task is correct exactly when the selection holds every
      expected supply and nothing more in number, so picking the right
      supplies in either order is accepted and adding a third is not. */
  lemma CharacterTaskExamples()
    ensures MultiSelectCorrect(["glue", "paper"], ["paper", "glue"])
    ensures !MultiSelectCorrect(["glue", "paper", "paint"], ["paper", "glue"])
    ensures !MultiSelectCorrect(["paper"], ["paper", "glue"])
  {
    assert "paper" == ["glue", "paper"][1];
    assert "glue" == ["glue", "paper"][0];
  }
}
