/**
 * Lesson access (`lesson-helpers`): which lessons a signed-in user may open
 * and see listed. Admins and teachers see everything; a student sees the
 * lessons of their own configuration file. The stored user and the loaded
 * configuration are parameters: `None` is a missing user or a missing file.
 */
module LessonHelpers {
  import opened Wrappers
  import opened Users
  import Sublists

  datatype Lesson = Lesson(course: string, unit: string, lesson: string, bg: string)

  datatype AllowedLesson = AllowedLesson(course: string, unit: string, lesson: string)

  datatype StudentLessons = StudentLessons(username: string, allowedLessons: seq<AllowedLesson>)

  /** Some allowed entry names this course, unit and lesson. */
  function Permits(allowed: seq<AllowedLesson>, course: string, unit: string, lesson: string): (r: bool)
    ensures r <==> exists k :: 0 <= k < |allowed| && allowed[k] == AllowedLesson(course, unit, lesson)
    decreases |allowed|
  {
    if allowed == [] then false
    else
      var a := allowed[0];
      if a.course == course && a.unit == unit && a.lesson == lesson then
        assert allowed[0] == AllowedLesson(course, unit, lesson);
        true
      else
        var rest := Permits(allowed[1..], course, unit, lesson);
        assert forall k :: 1 <= k < |allowed| ==> allowed[k] == allowed[1..][k - 1];
        rest
  }

  /** `isLessonAllowed` */
  predicate IsLessonAllowed(l: Lesson, allowed: seq<AllowedLesson>) {
    Permits(allowed, l.course, l.unit, l.lesson)
  }

  predicate IsStaff(u: User) {
    u.role == Some("Admin") || u.role == Some("Teacher")
  }

  /** `user.role === 'Student' && user.username`: an empty name is false. */
  predicate IsNamedStudent(u: User) {
    u.role == Some("Student") && u.username != ""
  }

  /** `hasLessonAccess(course, unit, lesson)`; `config` is what
      `loadStudentLessons(user.username)` returns. */
  function HasLessonAccess(user: Option<User>, config: Option<StudentLessons>,
                           course: string, unit: string, lesson: string): (r: bool)
    ensures user == None ==> !r
    ensures user.Some? && IsStaff(user.value) ==> r
    ensures user.Some? && IsNamedStudent(user.value) ==>
      (r <==> config.Some? && exists k :: 0 <= k < |config.value.allowedLessons|
                                 && config.value.allowedLessons[k] == AllowedLesson(course, unit, lesson))
    ensures user.Some? && !IsStaff(user.value) && !IsNamedStudent(user.value) ==> !r
  {
    match user
    case None => false
    case Some(u) =>
      if IsStaff(u) then true
      else if IsNamedStudent(u) then
        config.Some? && Permits(config.value.allowedLessons, course, unit, lesson)
      else false
  }

  /** `filterLessonsByUser(lessons)` */
  function FilterLessonsByUser(user: Option<User>, config: Option<StudentLessons>,
                               lessons: seq<Lesson>): (r: seq<Lesson>)
    ensures user == None ==> r == []
    ensures user.Some? && IsStaff(user.value) ==> r == lessons
    ensures user.Some? && IsNamedStudent(user.value) && config == None ==> r == []
    ensures user.Some? && IsNamedStudent(user.value) && config.Some? ==>
      Sublists.Subsequence(r, lessons)
      && (forall k :: 0 <= k < |r| ==> r[k] in lessons && IsLessonAllowed(r[k], config.value.allowedLessons))
      && (forall k :: 0 <= k < |lessons| && IsLessonAllowed(lessons[k], config.value.allowedLessons) ==> lessons[k] in r)
      && (forall l :: multiset(r)[l] == if IsLessonAllowed(l, config.value.allowedLessons) then multiset(lessons)[l] else 0)
    ensures user.Some? && !IsStaff(user.value) && !IsNamedStudent(user.value) ==> r == lessons
  {
    match user
    case None => []
    case Some(u) =>
      if IsStaff(u) then lessons
      else if IsNamedStudent(u) then
        match config
        case None => []
        case Some(c) =>
          Sublists.FilterMultiset((l: Lesson) => IsLessonAllowed(l, c.allowedLessons), lessons);
          Sublists.Filter((l: Lesson) => IsLessonAllowed(l, c.allowedLessons), lessons)
      else lessons
  }

  /** For a named student with a configuration, a lesson is listed exactly
      when it may be opened. */
  lemma ListedIffAccessible(u: User, c: StudentLessons, lessons: seq<Lesson>, k: nat)
    requires IsNamedStudent(u) && k < |lessons|
    ensures lessons[k] in FilterLessonsByUser(Some(u), Some(c), lessons)
      <==> HasLessonAccess(Some(u), Some(c), lessons[k].course, lessons[k].unit, lessons[k].lesson)
  {
  }

  /** Any other role, and a student without a name, sees every lesson listed
      yet may open none of them. */
  lemma ListedButLocked(u: User, config: Option<StudentLessons>, lessons: seq<Lesson>, k: nat)
    requires !IsStaff(u) && !IsNamedStudent(u) && k < |lessons|
    ensures lessons[k] in FilterLessonsByUser(Some(u), config, lessons)
    ensures !HasLessonAccess(Some(u), config, lessons[k].course, lessons[k].unit, lessons[k].lesson)
  {
  }
}
