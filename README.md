# Learning path recommender: plan and quiz logic in Dafny

This project models the decision logic of a small Flask web application. The application recommends a
study plan for a course.

- **Beginner path** (`duration()` in `app.py`, `generate_plan` in `api/recommender.py`): given the
  course's beginner topic list and a day count, one entry is produced per day. Days are numbered from 1,
  and day `i + 1` studies `topics[i % len(topics)]`, so the plan wraps around when there are more days
  than topics. `app.py` builds a list of `{day, topic}` records. `api/recommender.py` builds a
  dictionary keyed `"Day 1"`, `"Day 2"`, and so on.
- **Quiz path** (`quiz_result()` in `app.py`, `evaluate_quiz` in `api/recommender.py`): the score is the
  number of questions whose submitted answer equals the stored answer. An unanswered question counts as
  wrong. A score of at least `total // 2 + 1` earns "Intermediate", which is exactly a strict majority.
  Anything less gives "Needs Revision". The roadmap enumerates the upper half `topics[n//2:]` of the
  beginner topics for Intermediate, or the lower half `topics[:n//2]` otherwise, as days 1..len.

Modules, leaf first:

- `Catalog` (catalog.dfy): the immutable catalogs (course → level → topics, course → questions), the
  submitted form as `map<string, string>`, Python's `dict.get`, and the two exceptions the core can
  raise (`KeyError`, `ZeroDivisionError`) as a `Result`.
- `Decimal` (decimal.dfy): `str(n)` for natural numbers, with a parser proving that it is injective. The
  `"Day k"` keys use it.
- `Plans` (plans.dfy): the plan entry. `CyclicPlan` is the reference for the appending loop. `Roadmap`
  is the `enumerate` comprehension.
- `Quiz` (quiz.dfy): the score reference `Score`, the level decision and the half selection.
- `App` (app.dfy, for app.py): the two handlers. Each is a method holding the source's loop, proved against the
  reference functions.
- `Recommender` (recommender.dfy, for api/recommender.py): `GeneratePlan` and `EvaluateQuiz` as loop methods. `DayPlan` is
  the reference for the dictionary.
- `Agreement` (agreement.dfy): the two files build the same plan and compute the same score.
- `Fallback` (fallback.dfy): the literal catalogs of `app.py`, with worked examples computed from them.

In these edge cases the model does what the code does:

- A non-positive day count is not rejected. `range(days)` is empty, so the plan is empty.
- An empty topic list with a positive day count fails with `ZeroDivisionError`. An unknown course
  reaches this failure in `duration()`.
- `generate_plan` raises `KeyError` for an unknown course. It does not treat the course as having
  empty topics.

## Model

| member | source | states |
|---|---|---|
| Decimal.NatToString | api/recommender.py:11 | the printed day number is a non-empty string of decimal digits with no leading zero (only 0 begins with '0'), as `str(n)` prints it |
| Decimal.ParseNatToString | api/recommender.py:11 | reading the printed number back gives the number |
| Decimal.NatToStringInjective | api/recommender.py:11 | distinct day numbers print as distinct strings |
| Plans.CycleAt | app.py:89 | `topics[i % len(topics)]` is always one of the course's topics |
| Plans.CyclicPlan | app.py:86-90 | the appended plan has one entry per iteration of `range(days)`, none for `days <= 0`, and every entry's topic comes from the topic list |
| Plans.CyclicPlanEntries | app.py:86-90 | the plan has `days` entries (none when `days <= 0`), numbered 1..days in order, and entry `i` studies `topics[i % len(topics)]` |
| Plans.CyclicPlanRepeats | app.py:89 | once the topics run out the plan starts over: entry `i + len(topics)` studies the same topic as entry `i` |
| Plans.CyclicPlanWithinTopics | app.py:88-90 | with no more days than topics, the plan's topics are the first `days` topics in order, without wrapping around |
| Plans.CyclicPlanExtends | app.py:88-90 | a plan for more days begins with the plan for fewer days |
| Plans.Roadmap | app.py:129 | the enumerated roadmap lists exactly the slice's topics, in order, on days 1, 2, … |
| Plans.RoadmapIsUncycledPlan | app.py:128-129 | the enumerated roadmap equals the cyclic plan over its own slice for exactly `len(slice)` days, so it never wraps; its topics are the slice itself, and an empty slice gives an empty roadmap |
| Quiz.Correct | app.py:108-110 | an answer counts exactly when the question's id is in the form and the submitted value equals the stored answer: a missing or wrong answer never counts |
| Quiz.Score | app.py:105-111 | the score never exceeds the number of questions |
| Quiz.ScoreCountsCorrect | app.py:105-111 | the score equals the number of positions whose submitted answer equals the stored answer |
| Quiz.ScoreReadsOnlyQuestionIds | app.py:107-110 | two forms that agree on the quiz's question ids (present or absent, same value) give the same score |
| Quiz.UnansweredScoresZero | app.py:108-110 | a form answering none of the questions scores 0: a missing answer never counts |
| Quiz.AllCorrectScoresTotal | app.py:107-111 | a form answering every question correctly scores the number of questions |
| Quiz.PassMark | app.py:119 | `total // 2 + 1` is the smallest score that is more than half of `total` |
| Quiz.QuizLevel | app.py:119-126 | the level is Intermediate iff `2 * score > total`, which is the same as `score >= total // 2 + 1`; with no questions the result is Needs Revision |
| Quiz.SelectHalf | app.py:122-126 | Intermediate takes the suffix of length `(n + 1) / 2`; Needs Revision takes the prefix of length `n / 2` |
| Quiz.HalvesPartition | app.py:122-126 | lower half followed by upper half is the whole list; for odd `n` the middle topic opens the upper half and the upper half is one longer |
| App.Duration | app.py:85-92 | `ZeroDivisionError` exactly when the day count is positive and the course has no topics, so for an unknown course or one without a beginner list exactly when `days > 0`; otherwise the days count is passed through, the plan has `max(days, 0)` entries `(i + 1, topics[i % len(topics)])`, and it equals `CyclicPlan` |
| App.QuizResult | app.py:104-131 | score = number of correct answers (≤ total); Intermediate iff strict majority, Needs Revision with no questions; plan = enumeration of the chosen half; days = plan length = `(n+1)/2` or `n/2`; a course unknown to the topic catalog, or without a beginner list, gives 0 days and an empty plan; a course unknown to the question bank gives total 0, score 0 and Needs Revision |
| Recommender.DayKey | api/recommender.py:11 | the key is `"Day "` followed by decimal digits, with no leading zero unless the day is 0, that read back as the day number |
| Recommender.DayKeyInjective | api/recommender.py:11 | `"Day " + str(a) == "Day " + str(b)` only when `a == b`, so no day overwrites another's entry |
| Recommender.DayPlan | api/recommender.py:8-11 | every value stored in the dictionary is one of the course's topics |
| Recommender.DayPlanStores | api/recommender.py:10-11 | day `k` of the first `days` is stored under `"Day k"` with topic `topics[(k - 1) % len(topics)]`, and later days do not overwrite it |
| Recommender.DayPlanKeyHasDay | api/recommender.py:10-11 | every key of the dictionary is `"Day k"` for some day `1 <= k <= days` |
| Recommender.DayKeyNotYetStored | api/recommender.py:10-11 | after `days` iterations no key of a later day is present |
| Recommender.DayPlanKeys | api/recommender.py:10-11 | the keys are exactly `"Day 1"`..`"Day days"` (none for `days <= 0`), and `"Day k"` holds `topics[(k - 1) % len(topics)]` |
| Recommender.DayPlanSize | api/recommender.py:10-11 | the dictionary has exactly `max(days, 0)` keys |
| Recommender.GeneratePlan | api/recommender.py:6-13 | `KeyError(course)` for an unknown course; `KeyError("beginner")` when there is no beginner list; `ZeroDivisionError` exactly when that list is empty and `days > 0`; otherwise the result is `DayPlan` |
| Recommender.EvaluateQuiz | api/recommender.py:15-20 | the result is the number of questions answered correctly, between 0 and `len(quiz)`, and equals `Score` |
| Agreement.DayPlanMatchesCyclicPlan | api/recommender.py:10-11 | the `"Day k"` dictionary has as many keys as the `app.py` plan has entries, and maps each entry's day key to that entry's topic |
| Agreement.PlansAgree | app.py:85-90 | for a course with a beginner list, `duration()` and `generate_plan` both fail or both succeed; when both succeed they assign the same topic to every day |
| Agreement.ScoresAgree | api/recommender.py:15-20 | the scoring loop of `quiz_result()` and `evaluate_quiz` give the same score for the same quiz and form |
| Fallback.FiveDaysOverThreeTopics | app.py:88-90 | five days over `[A, B, C]` give `(1,A) (2,B) (3,C) (4,A) (5,B)` |
| Fallback.AiTenDaysRepeat | app.py:17 | ten days of the seven AI topics start over at day 8 with "Introduction" |
| Fallback.PythonAllCorrect | app.py:31-32 | both Python answers right: score 2 of 2 is Intermediate, and the roadmap covers the last four Python topics |
| Fallback.PythonHalfCorrect | app.py:119 | one of two Python answers right and the other blank: score 1 of 2 is Needs Revision, and the roadmap covers the first four Python topics |
| Fallback.AiUpperHalf | app.py:122 | seven AI topics split at index 3: the upper half has four topics and the lower half three |
| Fallback.UnknownCourseQuiz | app.py:117 | a course in neither fallback catalog gives Needs Revision and an empty roadmap |

## Left out

- Flask routing, `render_template`, reading `request.form` and parsing `int(request.form["days"])`
  (`app.py:1-4`, `46-72`, `136-139`). These are web I/O. The form is a map and `days` is an integer
  parameter, so `ValueError` on a non-numeric day count is not modelled.
- Loading `data/courses.json` and `data/questions.json` in `app.py`, with its bare `except` fallback
  (`app.py:9-38`). This is file I/O. The catalogs are parameters. The fallback literals are
  `Fallback.FallbackCourses` and `Fallback.FallbackQuestions`.
- The unguarded load of `data/courses.json` at module import in `api/recommender.py` (`3-4`). It has no
  fallback, so a missing file fails at import. The catalog `courses` is a parameter of `GeneratePlan`.
- The insertion order of `generate_plan`'s dictionary ("Day 1" first, up to "Day days"). The model's
  `map` is unordered. Nothing is lost: the number in each key gives the order.
- `print` logging throughout `app.py`. It has no effect on results. `App.QuizRoadmap` still carries the
  logged score and total, so that contracts can mention them.
- test_scaledown.py is not part of this model. It is a single HTTP request to an external service.
- The emoji level labels. The quiz level is the two-case datatype `Quiz.Level`. The beginner page's
  constant "Beginner" label is not represented.
- Purity of `generate_plan` and `evaluate_quiz`. Every argument is a Dafny value, so nothing can be
  modified. Each method's result is fixed by its postcondition as a function of its inputs. No separate
  member states this.
- Python's `==` between values of different types. Form values and answers are strings, so equality is
  string equality. `None` is `Option.None`, which never equals `Some(answer)`.
