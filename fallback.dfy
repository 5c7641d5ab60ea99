/** The catalogs app.py falls back to when its data files cannot be read, and
    what the handlers compute from them. */
module Fallback {
  import opened Catalog
  import opened Plans
  import opened Quiz

  const FallbackCourses: CourseCatalog := map[
    "Python" := map["beginner" := ["Variables", "Data Types", "Conditionals", "Loops", "Functions", "Lists", "Dictionaries", "File I/O"]],
    "C" := map["beginner" := ["Introduction", "Variables", "Data Types", "Control Statements", "Functions", "Arrays", "Pointers", "Strings"]],
    "AI" := map["beginner" := ["Introduction", "Machine Learning", "Neural Networks", "Data Preprocessing", "Models", "Training", "Evaluation"]]
  ]

  const FallbackQuestions: QuestionBank := map[
    "C" := [
      Question("q1", "int a=5; printf('%d', a++ + ++a);", ["11", "12", "13", "Undefined"], "Undefined"),
      Question("q2", "Correct pointer declaration?", ["int *p;", "int* p;", "int * p;", "All"], "All")
    ],
    "Python" := [
      Question("q1", "print(2**3)?", ["6", "8", "9", "Error"], "8"),
      Question("q2", "NOT Python keyword?", ["def", "class", "function", "if"], "function")
    ],
    "AI" := [
      Question("q1", "AI stands for?", ["Artificial Intelligence", "Advanced Intelligence", "Automated Intelligence", "Artificial Integration"], "Artificial Intelligence"),
      Question("q2", "Machine Learning type?", ["Supervised", "Cloud", "Web", "Mobile"], "Supervised")
    ]
  ]

  /** Five days over three topics wrap around after the third day. */
  lemma FiveDaysOverThreeTopics()
    ensures CyclicPlan(["A", "B", "C"], 5) ==
              [Entry(1, "A"), Entry(2, "B"), Entry(3, "C"), Entry(4, "A"), Entry(5, "B")]
  {
  }

  /** Ten days of the fallback AI course repeat its seven topics from day eight on. */
  lemma AiTenDaysRepeat()
    ensures |CyclicPlan(FallbackCourses["AI"]["beginner"], 10)| == 10
    ensures CyclicPlan(FallbackCourses["AI"]["beginner"], 10)[7] == Entry(8, "Introduction")
    ensures CyclicPlan(FallbackCourses["AI"]["beginner"], 10)[9] == Entry(10, "Neural Networks")
  {
  }

  /** Both Python answers right: 2 of 2 passes, and the roadmap covers the
      last four of the eight Python topics. */
  lemma PythonAllCorrect()
    ensures Score(FallbackQuestions["Python"], map["q1" := "8", "q2" := "function"]) == 2
    ensures QuizLevel(2, 2) == Intermediate
    ensures Roadmap(SelectHalf(BeginnerTopics(FallbackCourses, "Python"), Intermediate)) ==
              [Entry(1, "Functions"), Entry(2, "Lists"), Entry(3, "Dictionaries"), Entry(4, "File I/O")]
  {
  }

  /** One Python answer right and the other left blank: exactly half is not
      enough, and the roadmap covers the first four Python topics. */
  lemma PythonHalfCorrect()
    ensures Score(FallbackQuestions["Python"], map["q1" := "8"]) == 1
    ensures QuizLevel(1, 2) == NeedsRevision
    ensures Roadmap(SelectHalf(BeginnerTopics(FallbackCourses, "Python"), NeedsRevision)) ==
              [Entry(1, "Variables"), Entry(2, "Data Types"), Entry(3, "Conditionals"), Entry(4, "Loops")]
  {
  }

  /** The AI course has seven topics: the upper half starts at index 3 and has four. */
  lemma AiUpperHalf()
    ensures SelectHalf(BeginnerTopics(FallbackCourses, "AI"), Intermediate) ==
              ["Data Preprocessing", "Models", "Training", "Evaluation"]
    ensures SelectHalf(BeginnerTopics(FallbackCourses, "AI"), NeedsRevision) ==
              ["Introduction", "Machine Learning", "Neural Networks"]
  {
  }

  /** A course in neither catalog has no questions and no topics: the quiz path
      gives a zero-day Needs Revision roadmap. */
  lemma UnknownCourseQuiz(form: Form)
    ensures QuizLevel(Score(QuizFor(FallbackQuestions, "Java"), form), 0) == NeedsRevision
    ensures Roadmap(SelectHalf(BeginnerTopics(FallbackCourses, "Java"), NeedsRevision)) == []
  {
  }
}
