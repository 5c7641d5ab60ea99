/** The two handlers of app.py that compute something: `duration()` (beginner
    path, cyclic plan) and `quiz_result()` (quiz path, scored roadmap).
    Form parsing and template rendering are left to the caller; the catalogs
    are passed in. */
module App {
  import opened Catalog
  import opened Plans
  import opened Quiz

  /** What `duration()` hands to roadmap.html (its level label is always "Beginner"). */
  datatype BeginnerRoadmap = BeginnerRoadmap(days: int, plan: seq<Entry>)

  /** What `quiz_result()` hands to roadmap.html, with the score and the number
      of questions it logs. */
  datatype QuizRoadmap = QuizRoadmap(score: nat, total: nat, level: Level, days: nat, plan: seq<Entry>)

  /** `duration()`: one entry per day for `range(days)`, cycling through the
      course's beginner topics. An unknown course has no topics, so any positive
      day count divides by zero on the first day. */
  method Duration(courses: CourseCatalog, course: string, days: int) returns (r: Result<BeginnerRoadmap>)
    ensures r.Err? <==> days > 0 && BeginnerTopics(courses, course) == []
    ensures r.Err? ==> r.error == ZeroDivisionError
    ensures (course !in courses || "beginner" !in courses[course]) ==> (r.Err? <==> days > 0)
    ensures r.Ok? ==> r.value.days == days
    ensures r.Ok? ==> |r.value.plan| == if days <= 0 then 0 else days
    ensures r.Ok? ==> forall i :: 0 <= i < |r.value.plan| ==>
              r.value.plan[i].day == i + 1 &&
              r.value.plan[i].topic == BeginnerTopics(courses, course)[i % |BeginnerTopics(courses, course)|]
    ensures r.Ok? ==> (days > 0 ==> BeginnerTopics(courses, course) != []) &&
                      r.value.plan == CyclicPlan(BeginnerTopics(courses, course), days)
  {
    var topics := BeginnerTopics(courses, course);
    var plan: seq<Entry> := [];
    var i := 0;
    while i < days
      invariant 0 <= i && (i <= days || i == 0)
      invariant i > 0 ==> |topics| > 0
      invariant plan == CyclicPlan(topics, i)
    {
      if |topics| == 0 {
        return Err(ZeroDivisionError);
      }
      plan := plan + [Entry(i + 1, topics[i % |topics|])];
      i := i + 1;
    }
    CyclicPlanEntries(topics, days);
    return Ok(BeginnerRoadmap(days, plan));
  }

  /** `quiz_result()`: count the correctly answered questions of the course,
      pass with strictly more than half of them, and enumerate the upper half
      of the beginner topics on a pass or the lower half otherwise. Unknown
      courses and unanswered questions are not errors. */
  method QuizResult(courses: CourseCatalog, bank: QuestionBank, course: string, form: Form)
    returns (r: QuizRoadmap)
    ensures r.total == |QuizFor(bank, course)|
    ensures r.score == Score(QuizFor(bank, course), form) && r.score <= r.total
    ensures r.score == |CorrectPositions(QuizFor(bank, course), form)|
    ensures r.level == Intermediate <==> 2 * r.score > r.total
    ensures r.total == 0 ==> r.level == NeedsRevision
    ensures r.plan == Roadmap(SelectHalf(BeginnerTopics(courses, course), r.level))
    ensures r.days == |r.plan|
    ensures r.days == if r.level == Intermediate then (|BeginnerTopics(courses, course)| + 1) / 2
                      else |BeginnerTopics(courses, course)| / 2
    ensures (course !in courses || "beginner" !in courses[course]) ==> r.days == 0 && r.plan == []
    ensures course !in bank ==> r.total == 0 && r.score == 0 && r.level == NeedsRevision
  {
    var quiz := QuizFor(bank, course);
    var score := 0;
    for i := 0 to |quiz|
      invariant score == Score(quiz[..i], form)
    {
      assert quiz[..i + 1][..i] == quiz[..i];
      var selected := Get(form, quiz[i].id);
      if selected == Some(quiz[i].answer) {
        score := score + 1;
      }
    }
    assert quiz[..|quiz|] == quiz;
    var total := |quiz|;
    var topics := BeginnerTopics(courses, course);
    var level := QuizLevel(score, total);
    var slice := SelectHalf(topics, level);
    var plan := Roadmap(slice);
    ScoreCountsCorrect(quiz, form);
    r := QuizRoadmap(score, total, level, |slice|, plan);
  }
}
