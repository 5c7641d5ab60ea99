/** app.py and api/recommender.py implement the plan and the score twice;
    these members state that the two versions agree. */
module Agreement {
  import opened Catalog
  import opened Plans
  import App
  import Recommender

  /** The "Day k" dictionary of `generate_plan` and the record list of
      `duration()` assign the same topic to every day, and neither has a day
      the other lacks. */
  lemma DayPlanMatchesCyclicPlan(topics: seq<Topic>, days: int)
    requires days > 0 ==> |topics| > 0
    ensures |Recommender.DayPlan(topics, days)| == |CyclicPlan(topics, days)|
    ensures forall i :: 0 <= i < |CyclicPlan(topics, days)| ==>
              Recommender.DayKey(CyclicPlan(topics, days)[i].day) in Recommender.DayPlan(topics, days) &&
              Recommender.DayPlan(topics, days)[Recommender.DayKey(CyclicPlan(topics, days)[i].day)]
                == CyclicPlan(topics, days)[i].topic
  {
    CyclicPlanEntries(topics, days);
    Recommender.DayPlanKeys(topics, days);
    Recommender.DayPlanSize(topics, days);
  }

  /** Asking both plan builders for the same course and day count: where the
      course has a beginner list, both fail (division by zero) or both succeed
      with the same day-to-topic assignment. */
  method PlansAgree(courses: CourseCatalog, course: string, days: int)
    returns (inline: Result<App.BeginnerRoadmap>, helper: Result<map<string, Topic>>)
    ensures course in courses && "beginner" in courses[course] ==> (inline.Err? <==> helper.Err?)
    ensures inline.Ok? && helper.Ok? ==>
              |helper.value| == |inline.value.plan| &&
              forall i :: 0 <= i < |inline.value.plan| ==>
                Recommender.DayKey(inline.value.plan[i].day) in helper.value &&
                helper.value[Recommender.DayKey(inline.value.plan[i].day)] == inline.value.plan[i].topic
  {
    inline := App.Duration(courses, course, days);
    helper := Recommender.GeneratePlan(courses, course, days);
    if inline.Ok? && helper.Ok? {
      DayPlanMatchesCyclicPlan(courses[course]["beginner"], days);
    }
  }

  /** The scoring loop of `quiz_result()` and `evaluate_quiz` give the same
      score for the same questions and submission. */
  method ScoresAgree(courses: CourseCatalog, bank: QuestionBank, course: string, form: Form)
    returns (inline: nat, helper: nat)
    ensures inline == helper
  {
    var page := App.QuizResult(courses, bank, course, form);
    inline := page.score;
    helper := Recommender.EvaluateQuiz(form, QuizFor(bank, course));
  }
}
