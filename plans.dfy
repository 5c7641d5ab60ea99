/** The day-by-topic plans both handlers render: the cyclic plan of the
    beginner path and the straight enumeration of the quiz roadmap. */
module Plans {
  import opened Catalog

  /** One `{"day": d, "topic": t}` record of a plan; days are 1-based. */
  datatype Entry = Entry(day: nat, topic: Topic)

  /** `topics[i % len(topics)]`: the topic studied on the day with 0-based index `i`. */
  function CycleAt(topics: seq<Topic>, i: nat): (t: Topic)
    requires |topics| > 0
    ensures t in topics
  {
    topics[i % |topics|]
  }

  /** The plan built by appending one entry per iteration of `for i in range(days)`:
      the plan for `days` is the plan for `days - 1` followed by day `days`.
      `range` of a non-positive count is empty. */
  function CyclicPlan(topics: seq<Topic>, days: int): (plan: seq<Entry>)
    requires days > 0 ==> |topics| > 0
    ensures |plan| == if days <= 0 then 0 else days
    ensures forall i :: 0 <= i < |plan| ==> plan[i].topic in topics
    decreases days
  {
    if days <= 0 then [] else CyclicPlan(topics, days - 1) + [Entry(days, CycleAt(topics, days - 1))]
  }

  /** The topics of a plan, in day order. */
  function TopicsOf(plan: seq<Entry>): seq<Topic>
  {
    seq(|plan|, i requires 0 <= i < |plan| => plan[i].topic)
  }

  /** The cyclic plan has one entry per requested day, numbered 1..days in
      order, and day `i + 1` studies `topics[i % |topics|]`. */
  lemma {:induction false} CyclicPlanEntries(topics: seq<Topic>, days: int)
    requires days > 0 ==> |topics| > 0
    ensures |CyclicPlan(topics, days)| == if days <= 0 then 0 else days
    ensures forall i :: 0 <= i < |CyclicPlan(topics, days)| ==>
              CyclicPlan(topics, days)[i] == Entry(i + 1, CycleAt(topics, i))
    decreases days
  {
    if days > 0 {
      CyclicPlanEntries(topics, days - 1);
    }
  }

  /** Once the topic list is exhausted the plan starts over: day `i + 1 + |topics|`
      studies the same topic as day `i + 1`. */
  lemma {:induction false} CyclicPlanRepeats(topics: seq<Topic>, days: int, i: nat)
    requires days > 0 ==> |topics| > 0
    requires i + |topics| < |CyclicPlan(topics, days)|
    ensures CyclicPlan(topics, days)[i + |topics|].topic == CyclicPlan(topics, days)[i].topic
  {
    CyclicPlanEntries(topics, days);
    ModAddPeriod(i, |topics|);
  }

  /** Adding one period does not change a remainder. */
  lemma ModAddPeriod(i: nat, n: nat)
    requires n > 0
    ensures (i + n) % n == i % n
  {
    var q, r := i / n, i % n;
    assert i == q * n + r;
    assert i + n == (q + 1) * n + r;
    ModOfQuotientForm(i + n, n, q + 1, r);
  }

  /** The remainder is the `r` of any decomposition `a == q * n + r` with `0 <= r < n`. */
  lemma ModOfQuotientForm(a: int, n: int, q: int, r: int)
    requires n > 0 && 0 <= r < n && a == q * n + r
    ensures a % n == r
  {
    var q', r' := a / n, a % n;
    assert (q - q') * n == r' - r;
    if q > q' {
      MulAtLeastFactor(q - q', n);
    } else if q < q' {
      MulAtLeastFactor(q' - q, n);
    }
  }

  lemma MulAtLeastFactor(k: int, n: int)
    requires k >= 1 && n > 0
    ensures k * n >= n
  {
  }

  /** With no more days than topics, the plan walks the topic list in order
      without wrapping around. */
  lemma {:induction false} CyclicPlanWithinTopics(topics: seq<Topic>, days: int)
    requires 0 <= days <= |topics|
    ensures TopicsOf(CyclicPlan(topics, days)) == topics[..days]
  {
    CyclicPlanEntries(topics, days);
    var plan := CyclicPlan(topics, days);
    forall i | 0 <= i < days
      ensures TopicsOf(plan)[i] == topics[i]
    {
      ModOfQuotientForm(i, |topics|, 0, i);
    }
  }

  /** A longer plan extends a shorter one: asking for more days never changes
      the earlier days. */
  lemma {:induction false} CyclicPlanExtends(topics: seq<Topic>, shorter: int, longer: int)
    requires shorter <= longer
    requires longer > 0 ==> |topics| > 0
    ensures CyclicPlan(topics, shorter) <= CyclicPlan(topics, longer)
    decreases longer - shorter
  {
    if shorter < longer {
      CyclicPlanExtends(topics, shorter, longer - 1);
    }
  }

  /** `[{"day": i + 1, "topic": t} for i, t in enumerate(slice)]`. */
  function Roadmap(slice: seq<Topic>): (plan: seq<Entry>)
    ensures TopicsOf(plan) == slice
    ensures forall i :: 0 <= i < |plan| ==> plan[i].day == i + 1
  {
    seq(|slice|, i requires 0 <= i < |slice| => Entry(i + 1, slice[i]))
  }

  /** The enumerated roadmap is the cyclic plan over its own slice for exactly
      `|slice|` days: it never wraps around, and an empty slice gives an empty
      roadmap. */
  lemma {:induction false} RoadmapIsUncycledPlan(slice: seq<Topic>)
    ensures Roadmap(slice) == CyclicPlan(slice, |slice|)
    ensures TopicsOf(Roadmap(slice)) == slice
  {
    var plan := CyclicPlan(slice, |slice|);
    CyclicPlanEntries(slice, |slice|);
    assert |Roadmap(slice)| == |plan|;
    forall i | 0 <= i < |slice|
      ensures Roadmap(slice)[i] == plan[i]
    {
      ModOfQuotientForm(i, |slice|, 0, i);
      assert plan[i] == Entry(i + 1, CycleAt(slice, i));
    }
  }
}
