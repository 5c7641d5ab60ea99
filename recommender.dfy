/** api/recommender.py: `generate_plan`, whose plan is a dictionary keyed
    "Day 1", "Day 2", ..., and `evaluate_quiz`, the bare answer counter. */
module Recommender {
  import opened Catalog
  import opened Decimal
  import opened Plans
  import opened Quiz

  /** `f"Day {day+1}"` for the 1-based day number `k`. */
  function DayKey(k: nat): (key: string)
    ensures |key| > 4 && key[..4] == "Day "
    ensures forall i :: 4 <= i < |key| ==> '0' <= key[i] <= '9'
    ensures key[4] == '0' ==> k == 0
    ensures ParseDecimal(key[4..]) == k
  {
    ParseNatToString(k);
    assert ("Day " + NatToString(k))[4..] == NatToString(k);
    assert ("Day " + NatToString(k))[4] == NatToString(k)[0];
    "Day " + NatToString(k)
  }

  /** Different day numbers give different keys, so no day overwrites another. */
  lemma DayKeyInjective(a: nat, b: nat)
    ensures DayKey(a) == DayKey(b) ==> a == b
  {
    // both keys parse back to their day numbers (the contract of DayKey)
  }

  /** The dictionary after `for day in range(days)` has stored
      `plan["Day " + str(day + 1)] = topics[day % len(topics)]` for each day. */
  function DayPlan(topics: seq<Topic>, days: int): (plan: map<string, Topic>)
    requires days > 0 ==> |topics| > 0
    ensures forall key :: key in plan ==> plan[key] in topics
    decreases days
  {
    if days <= 0 then map[] else DayPlan(topics, days - 1)[DayKey(days) := CycleAt(topics, days - 1)]
  }

  /** The keys of the day plan are exactly "Day 1" .. "Day days", and "Day k"
      holds `topics[(k - 1) % |topics|]`. */
  lemma DayPlanKeys(topics: seq<Topic>, days: int)
    requires days > 0 ==> |topics| > 0
    ensures forall k: nat :: DayKey(k) in DayPlan(topics, days) <==> 1 <= k <= days
    ensures forall key :: key in DayPlan(topics, days) ==> exists k: nat :: 1 <= k <= days && key == DayKey(k)
    ensures forall k: nat :: 1 <= k <= days ==> DayPlan(topics, days)[DayKey(k)] == CycleAt(topics, k - 1)
  {
    forall k: nat
      ensures DayKey(k) in DayPlan(topics, days) <==> 1 <= k <= days
      ensures 1 <= k <= days ==> DayPlan(topics, days)[DayKey(k)] == CycleAt(topics, k - 1)
    {
      if 1 <= k <= days {
        DayPlanStores(topics, days, k);
      } else if k > days {
        DayKeyNotYetStored(topics, days, k);
      } else if DayKey(k) in DayPlan(topics, days) {
        var j := DayPlanKeyHasDay(topics, days, DayKey(k));
        DayKeyInjective(k, j);
      }
    }
    forall key | key in DayPlan(topics, days)
      ensures exists k: nat :: 1 <= k <= days && key == DayKey(k)
    {
      var j := DayPlanKeyHasDay(topics, days, key);
    }
  }

  /** Day `k` of the first `days` is stored under "Day k" with its cyclic topic,
      and no later day overwrites it. */
  lemma {:induction false} DayPlanStores(topics: seq<Topic>, days: int, k: nat)
    requires days > 0 ==> |topics| > 0
    requires 1 <= k <= days
    ensures DayKey(k) in DayPlan(topics, days)
    ensures DayPlan(topics, days)[DayKey(k)] == CycleAt(topics, k - 1)
    decreases days
  {
    if k < days {
      DayPlanStores(topics, days - 1, k);
      DayKeyInjective(k, days);
    }
  }

  /** Every key of the day plan is the key of one of its days. */
  lemma {:induction false} DayPlanKeyHasDay(topics: seq<Topic>, days: int, key: string) returns (k: nat)
    requires days > 0 ==> |topics| > 0
    requires key in DayPlan(topics, days)
    ensures 1 <= k <= days && key == DayKey(k)
    decreases days
  {
    if key == DayKey(days) {
      k := days;
    } else {
      k := DayPlanKeyHasDay(topics, days - 1, key);
    }
  }

  /** The day plan has exactly one key per requested day. */
  lemma {:induction false} DayPlanSize(topics: seq<Topic>, days: int)
    requires days > 0 ==> |topics| > 0
    ensures |DayPlan(topics, days)| == if days <= 0 then 0 else days
    decreases days
  {
    if days > 0 {
      var previous := DayPlan(topics, days - 1);
      DayPlanSize(topics, days - 1);
      DayKeyNotYetStored(topics, days - 1, days);
      assert |previous[DayKey(days) := CycleAt(topics, days - 1)]| == |previous| + 1;
    }
  }

  /** After `days` iterations the key of any later day has not been stored yet. */
  lemma {:induction false} DayKeyNotYetStored(topics: seq<Topic>, days: int, later: nat)
    requires days > 0 ==> |topics| > 0
    requires days < later
    ensures DayKey(later) !in DayPlan(topics, days)
    decreases days
  {
    if days > 0 {
      DayKeyNotYetStored(topics, days - 1, later);
      DayKeyInjective(later, days);
    }
  }

  /** `generate_plan(course, days)`: `courses[course]["beginner"]` raises
      KeyError for an unknown course or one without a beginner list; the loop
      then divides by zero on the first day if that list is empty. */
  method GeneratePlan(courses: CourseCatalog, course: string, days: int) returns (r: Result<map<string, Topic>>)
    ensures course !in courses ==> r == Err(KeyError(course))
    ensures course in courses && "beginner" !in courses[course] ==> r == Err(KeyError("beginner"))
    ensures course in courses && "beginner" in courses[course] ==>
              (r.Err? <==> days > 0 && courses[course]["beginner"] == []) &&
              (r.Err? ==> r.error == ZeroDivisionError)
    ensures r.Ok? ==> course in courses && "beginner" in courses[course] &&
                      (days > 0 ==> courses[course]["beginner"] != []) &&
                      r.value == DayPlan(courses[course]["beginner"], days)
  {
    if course !in courses {
      return Err(KeyError(course));
    }
    if "beginner" !in courses[course] {
      return Err(KeyError("beginner"));
    }
    var topics := courses[course]["beginner"];
    var plan: map<string, Topic> := map[];
    var day := 0;
    while day < days
      invariant 0 <= day && (day <= days || day == 0)
      invariant day > 0 ==> |topics| > 0
      invariant plan == DayPlan(topics, day)
    {
      if |topics| == 0 {
        return Err(ZeroDivisionError);
      }
      plan := plan[DayKey(day + 1) := topics[day % |topics|]];
      day := day + 1;
    }
    return Ok(plan);
  }

  /** `evaluate_quiz(form_data, quiz)`: the number of questions answered correctly. */
  method EvaluateQuiz(formData: Form, quiz: seq<Question>) returns (score: nat)
    ensures score == Score(quiz, formData)
    ensures score == |CorrectPositions(quiz, formData)|
    ensures score <= |quiz|
  {
    score := 0;
    for i := 0 to |quiz|
      invariant score == Score(quiz[..i], formData)
    {
      assert quiz[..i + 1][..i] == quiz[..i];
      if Get(formData, quiz[i].id) == Some(quiz[i].answer) {
        score := score + 1;
      }
    }
    assert quiz[..|quiz|] == quiz;
    ScoreCountsCorrect(quiz, formData);
  }
}
