/**
 * The in-memory study plan: a sequence of days, each holding an ordered
 * sequence of topic records.
 */
module StudyData {

  /** One study task. Every field but `completed` is free text as delivered by the server. */
  datatype Topic = Topic(
    id: string,
    subject: string,
    topic: string,
    duration: string,
    timeSlot: string,
    completed: bool,
    difficulty: string,
    examType: string)

  /** One calendar day of the plan; `date` is an ISO `YYYY-MM-DD` string. */
  datatype Day = Day(date: string, subjects: seq<Topic>)

  type Plan = seq<Day>

  /** No two topic records of the plan, wherever they sit, share an id. */
  predicate UniqueIds(plan: Plan)
  {
    forall i, k, j, l ::
      && 0 <= i < |plan| && 0 <= k < |plan[i].subjects|
      && 0 <= j < |plan| && 0 <= l < |plan[j].subjects|
      && plan[i].subjects[k].id == plan[j].subjects[l].id
      ==> i == j && k == l
  }

  /** Every topic record of the plan, day after day, in the order the views visit them. */
  function AllTopics(plan: Plan): (r: seq<Topic>)
  {
    if |plan| == 0 then [] else AllTopics(plan[..|plan| - 1]) + plan[|plan| - 1].subjects
  }

  /** The topic list of a plan splits at any boundary between days. */
  lemma {:induction false} AllTopicsAppend(a: Plan, b: Plan)
    ensures AllTopics(a + b) == AllTopics(a) + AllTopics(b)
    decreases |b|
  {
    if |b| == 0 {
      assert a + b == a;
    } else {
      var b' := b[..|b| - 1];
      assert (a + b)[..|a + b| - 1] == a + b';
      AllTopicsAppend(a, b');
    }
  }

  /** A topic record belongs to the plan exactly when some day holds it. */
  lemma {:induction false} InAllTopics(plan: Plan, t: Topic)
    ensures t in AllTopics(plan) <==> exists i :: 0 <= i < |plan| && t in plan[i].subjects
  {
    if |plan| > 0 {
      var p := plan[..|plan| - 1];
      InAllTopics(p, t);
      if t in AllTopics(p) {
        var i :| 0 <= i < |p| && t in p[i].subjects;
        assert plan[i] == p[i];
      }
      if i :| 0 <= i < |plan| && t in plan[i].subjects {
        if i < |plan| - 1 {
          assert p[i] == plan[i];
        }
      }
    }
  }

  /** Every topic of a day of the plan is one of the plan's topics. */
  lemma DayInPlan(plan: Plan, i: nat)
    requires i < |plan|
    ensures forall t :: t in plan[i].subjects ==> t in AllTopics(plan)
  {
    forall t | t in plan[i].subjects ensures t in AllTopics(plan) {
      InAllTopics(plan, t);
    }
  }

  /** Growing a prefix by one element. */
  lemma TakeNext<T>(s: seq<T>, j: nat)
    requires j < |s|
    ensures s[..j + 1] == s[..j] + [s[j]]
  {
  }

  lemma TakeAll<T>(s: seq<T>)
    ensures s[..|s|] == s
  {
  }

  /** Dropping the last element of a prefix. */
  lemma TakeTake<T>(s: seq<T>, n: nat)
    requires 0 < n <= |s|
    ensures s[..n][..n - 1] == s[..n - 1]
  {
  }
}
