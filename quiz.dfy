/** Scoring a submitted quiz, deciding the level from the score, and choosing
    which half of the beginner topics the roadmap covers. */
module Quiz {
  import opened Catalog

  /** Result of the quiz: "Intermediate" or "Needs Revision". */
  datatype Level = Intermediate | NeedsRevision

  /** `form.get(q["id"]) == q["answer"]`: an unanswered question (`None`) never
      equals the stored answer. */
  predicate Correct(form: Form, q: Question): (ok: bool)
    ensures ok <==> q.id in form && form[q.id] == q.answer
  {
    Get(form, q.id) == Some(q.answer)
  }

  /** The accumulator of the scoring loop after it has seen all of `quiz`:
      the score of a prefix plus one if the next question is answered correctly. */
  function Score(quiz: seq<Question>, form: Form): (score: nat)
    ensures score <= |quiz|
    decreases |quiz|
  {
    if quiz == [] then 0
    else Score(quiz[..|quiz| - 1], form) + (if Correct(form, quiz[|quiz| - 1]) then 1 else 0)
  }

  /** Positions of the correctly answered questions. */
  ghost function CorrectPositions(quiz: seq<Question>, form: Form): set<nat>
  {
    set i: nat | i < |quiz| && Correct(form, quiz[i])
  }

  /** The score is the number of questions whose submitted answer equals the
      stored one. */
  lemma {:induction false} ScoreCountsCorrect(quiz: seq<Question>, form: Form)
    ensures Score(quiz, form) == |CorrectPositions(quiz, form)|
    decreases |quiz|
  {
    if quiz != [] {
      var n := |quiz| - 1;
      var prefix := quiz[..n];
      ScoreCountsCorrect(prefix, form);
      var before := CorrectPositions(prefix, form);
      if Correct(form, quiz[n]) {
        assert CorrectPositions(quiz, form) == before + {n};
        assert n !in before;
      } else {
        assert CorrectPositions(quiz, form) == before;
      }
    }
  }

  /** The score depends on the form only through the answers given to the quiz's
      own question ids: other fields of the form never matter. */
  lemma {:induction false} ScoreReadsOnlyQuestionIds(quiz: seq<Question>, f1: Form, f2: Form)
    requires forall i :: 0 <= i < |quiz| ==> Get(f1, quiz[i].id) == Get(f2, quiz[i].id)
    ensures Score(quiz, f1) == Score(quiz, f2)
    decreases |quiz|
  {
    if quiz != [] {
      ScoreReadsOnlyQuestionIds(quiz[..|quiz| - 1], f1, f2);
    }
  }

  /** A form that answers none of the questions scores zero. */
  lemma {:induction false} UnansweredScoresZero(quiz: seq<Question>, form: Form)
    requires forall i :: 0 <= i < |quiz| ==> quiz[i].id !in form
    ensures Score(quiz, form) == 0
    decreases |quiz|
  {
    if quiz != [] {
      UnansweredScoresZero(quiz[..|quiz| - 1], form);
    }
  }

  /** A form that answers every question correctly scores full marks. */
  lemma {:induction false} AllCorrectScoresTotal(quiz: seq<Question>, form: Form)
    requires forall i :: 0 <= i < |quiz| ==> Correct(form, quiz[i])
    ensures Score(quiz, form) == |quiz|
    decreases |quiz|
  {
    if quiz != [] {
      AllCorrectScoresTotal(quiz[..|quiz| - 1], form);
    }
  }

  /** `total_questions // 2 + 1`: the smallest passing score. */
  function PassMark(total: nat): (mark: nat)
    ensures 2 * mark > total
    ensures 2 * (mark - 1) <= total
  {
    total / 2 + 1
  }

  /** `score >= total // 2 + 1` passes, i.e. strictly more than half of the
      questions answered correctly; with no questions nobody passes. */
  function QuizLevel(score: nat, total: nat): (level: Level)
    ensures level == Intermediate <==> 2 * score > total
    ensures total == 0 && score == 0 ==> level == NeedsRevision
  {
    if score >= PassMark(total) then Intermediate else NeedsRevision
  }

  /** `topics[len(topics)//2:]` for Intermediate, `topics[:len(topics)//2]` for
      Needs Revision. */
  function SelectHalf(topics: seq<Topic>, level: Level): (slice: seq<Topic>)
    ensures level == Intermediate ==> |slice| == (|topics| + 1) / 2 && slice == topics[|topics| - |slice|..]
    ensures level == NeedsRevision ==> |slice| == |topics| / 2 && slice == topics[..|slice|]
  {
    match level
    case Intermediate => topics[|topics| / 2..]
    case NeedsRevision => topics[..|topics| / 2]
  }

  /** The two halves split the topic list at `len // 2` without overlap; for an
      odd length the middle topic belongs to the upper (Intermediate) half only. */
  lemma HalvesPartition(topics: seq<Topic>)
    ensures SelectHalf(topics, NeedsRevision) + SelectHalf(topics, Intermediate) == topics
    ensures |SelectHalf(topics, NeedsRevision)| + |SelectHalf(topics, Intermediate)| == |topics|
    ensures |topics| % 2 == 1 ==>
              |SelectHalf(topics, Intermediate)| == |SelectHalf(topics, NeedsRevision)| + 1 &&
              SelectHalf(topics, Intermediate)[0] == topics[|topics| / 2]
    ensures |topics| % 2 == 0 ==> |SelectHalf(topics, Intermediate)| == |SelectHalf(topics, NeedsRevision)|
  {
  }
}
