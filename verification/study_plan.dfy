/**
 * The study-plan store: the state the page keeps, how a load replaces the plan,
 * and how marking a topic done rewrites it after the progress update settles.
 */
module StudyPlan {

  import opened Wrappers
  import opened StudyData
  import opened Aggregate
  import opened Api

  /** The page state this model keeps: the plan, the loading flag and the error text. */
  datatype State = State(studyData: Plan, loading: bool, error: Option<string>)

  /** Before the first load: no plan, loading, no error. */
  const Initial := State([], true, None)

  const LoadError := "Failed to load study plan"

  /**
   * The end of `loadStudyPlan` once the client has answered. A `null` body makes
   * reading its `studyPlan` field throw, which keeps the plan and sets the error;
   * any object replaces the plan with its `studyPlan` field, or with no days when
   * the field is absent, and clears the error. Loading ends either way.
   */
  function LoadStudyPlan(s: State, data: PlanPayload): (r: State)
    ensures !r.loading
    ensures data.NullBody? ==> r.studyData == s.studyData && r.error == Some(LoadError)
    ensures data.PlanPayload? ==> r.error.None?
    ensures data.PlanPayload? && data.studyPlan.Some? ==> r.studyData == data.studyPlan.value
    ensures data.PlanPayload? && data.studyPlan.None? ==> r.studyData == []
  {
    match data
    case NullBody => State(s.studyData, false, Some(LoadError))
    case PlanPayload(_, plan) => State(plan.GetOr([]), false, None)
  }

  /**
   * A whole load: the client's read, then the state update. A usable object body
   * loads its plan (none when absent), a failed read loads the fallback plan, and
   * only a usable `null` body sets the error.
   */
  function Load(s: State, reply: Reply<PlanPayload>, dateOf: nat -> string): (r: State)
    ensures !r.loading
    ensures Usable(reply) && reply.json.value.PlanPayload? ==>
              r.studyData == reply.json.value.studyPlan.GetOr([]) && r.error.None?
    ensures !Usable(reply) ==> r.studyData == MockPlan(dateOf) && r.error.None?
    ensures Usable(reply) && reply.json.value.NullBody? ==>
              r.studyData == s.studyData && r.error == Some(LoadError)
  {
    LoadStudyPlan(s, GetStudyPlan(reply, dateOf))
  }

  /**
   * The load on mounting, from the initial state: it always ends with loading off;
   * a failed read shows the fallback plan, and an error can only appear with the
   * plan still empty.
   */
  lemma FirstLoad(reply: Reply<PlanPayload>, dateOf: nat -> string)
    ensures !Load(Initial, reply, dateOf).loading
    ensures Load(Initial, reply, dateOf).error.Some? ==> Load(Initial, reply, dateOf).studyData == []
    ensures !Usable(reply) ==> Load(Initial, reply, dateOf) == State(MockPlan(dateOf), false, None)
  {
  }

  /** A failed read still loads: seven days of four open topics, and no error. */
  lemma FailedLoadShowsFallback(s: State, reply: Reply<PlanPayload>, dateOf: nat -> string)
    requires !Usable(reply)
    ensures Load(s, reply, dateOf).studyData == MockPlan(dateOf)
    ensures Load(s, reply, dateOf).error.None? && !Load(s, reply, dateOf).loading
  {
  }

  /** Only a server answering `null` leaves the error set. */
  lemma LoadErrorOnlyOnNull(s: State, reply: Reply<PlanPayload>, dateOf: nat -> string)
    ensures Load(s, reply, dateOf).error.Some? <==> reply == Response(true, Some(NullBody))
  {
  }

  /** One day's topics with every topic whose id is `id` set to `completed`. */
  function UpdateTopics(ts: seq<Topic>, id: string, completed: bool): (r: seq<Topic>)
    ensures |r| == |ts|
    ensures forall k :: 0 <= k < |ts| ==>
              r[k].completed == (if ts[k].id == id then completed else ts[k].completed)
    ensures forall k :: 0 <= k < |ts| ==> r[k].(completed := ts[k].completed) == ts[k]
  {
    seq(|ts|, k requires 0 <= k < |ts| => if ts[k].id == id then ts[k].(completed := completed) else ts[k])
  }

  /**
   * The local update of `handleMarkDone`: every day keeps its date and its topics
   * in order; each topic with the given id takes the new `completed` value and
   * keeps every other field; all other topics are left as they were.
   */
  function SetCompletion(plan: Plan, id: string, completed: bool): (r: Plan)
    ensures |r| == |plan|
    ensures forall i :: 0 <= i < |plan| ==>
              r[i].date == plan[i].date && |r[i].subjects| == |plan[i].subjects|
    ensures forall i, k :: 0 <= i < |plan| && 0 <= k < |plan[i].subjects| ==>
              r[i].subjects[k].completed
                == (if plan[i].subjects[k].id == id then completed else plan[i].subjects[k].completed)
    ensures forall i, k :: 0 <= i < |plan| && 0 <= k < |plan[i].subjects| ==>
              r[i].subjects[k].(completed := plan[i].subjects[k].completed) == plan[i].subjects[k]
  {
    seq(|plan|, i requires 0 <= i < |plan| =>
      plan[i].(subjects := UpdateTopics(plan[i].subjects, id, completed)))
  }

  /** Two plans that agree day by day and topic by topic are the same plan. */
  lemma SamePlan(a: Plan, b: Plan)
    requires |a| == |b|
    requires forall i :: 0 <= i < |a| ==> a[i].date == b[i].date && |a[i].subjects| == |b[i].subjects|
    requires forall i, k :: 0 <= i < |a| && 0 <= k < |a[i].subjects| ==> a[i].subjects[k] == b[i].subjects[k]
    ensures a == b
  {
    forall i | 0 <= i < |a| ensures a[i] == b[i] {
      assert a[i].subjects == b[i].subjects;
    }
  }

  /** An id that no topic carries leaves the plan exactly as it was. */
  lemma SetCompletionUnknownId(plan: Plan, id: string, completed: bool)
    requires forall t :: t in AllTopics(plan) ==> t.id != id
    ensures SetCompletion(plan, id, completed) == plan
  {
    var r := SetCompletion(plan, id, completed);
    forall i, k | 0 <= i < |plan| && 0 <= k < |plan[i].subjects|
      ensures r[i].subjects[k] == plan[i].subjects[k]
    {
      DayInPlan(plan, i);
      assert plan[i].subjects[k] in plan[i].subjects;
    }
    SamePlan(r, plan);
  }

  /** Setting the same value twice is setting it once. */
  lemma SetCompletionIdempotent(plan: Plan, id: string, completed: bool)
    ensures SetCompletion(SetCompletion(plan, id, completed), id, completed)
         == SetCompletion(plan, id, completed)
  {
    var once := SetCompletion(plan, id, completed);
    SamePlan(SetCompletion(once, id, completed), once);
  }

  /** Of two updates of the same id, the later one decides. */
  lemma SetCompletionLastWins(plan: Plan, id: string, first: bool, second: bool)
    ensures SetCompletion(SetCompletion(plan, id, first), id, second) == SetCompletion(plan, id, second)
  {
    SamePlan(SetCompletion(SetCompletion(plan, id, first), id, second), SetCompletion(plan, id, second));
  }

  /** Updates of two different ids touch different topics, so their order does not matter. */
  lemma SetCompletionCommutes(plan: Plan, a: string, ca: bool, b: string, cb: bool)
    requires a != b
    ensures SetCompletion(SetCompletion(plan, a, ca), b, cb) == SetCompletion(SetCompletion(plan, b, cb), a, ca)
  {
    SamePlan(SetCompletion(SetCompletion(plan, a, ca), b, cb), SetCompletion(SetCompletion(plan, b, cb), a, ca));
  }

  lemma UpdateTopicsAppend(a: seq<Topic>, b: seq<Topic>, id: string, completed: bool)
    ensures UpdateTopics(a + b, id, completed) == UpdateTopics(a, id, completed) + UpdateTopics(b, id, completed)
  {
    var l, r := UpdateTopics(a + b, id, completed), UpdateTopics(a, id, completed) + UpdateTopics(b, id, completed);
    forall k | 0 <= k < |l| ensures l[k] == r[k] {
      if k < |a| {
        assert (a + b)[k] == a[k];
      } else {
        assert (a + b)[k] == b[k - |a|];
      }
    }
  }

  /** The update, read as one list of topics, is the same update of the plan's topic list. */
  lemma {:induction false} AllTopicsSetCompletion(plan: Plan, id: string, completed: bool)
    ensures AllTopics(SetCompletion(plan, id, completed)) == UpdateTopics(AllTopics(plan), id, completed)
  {
    if |plan| > 0 {
      var p := plan[..|plan| - 1];
      var r := SetCompletion(plan, id, completed);
      assert r[..|r| - 1] == SetCompletion(p, id, completed) by {
        SamePlan(r[..|r| - 1], SetCompletion(p, id, completed));
      }
      AllTopicsSetCompletion(p, id, completed);
      UpdateTopicsAppend(AllTopics(p), plan[|plan| - 1].subjects, id, completed);
    }
  }

  /** How many topics carry `id`, and how many of those are done. */
  function Carrying(ts: seq<Topic>, id: string): (n: nat)
    ensures n <= |ts|
  {
    if |ts| == 0 then 0 else Carrying(ts[..|ts| - 1], id) + (if ts[|ts| - 1].id == id then 1 else 0)
  }

  function CarryingDone(ts: seq<Topic>, id: string): (n: nat)
    ensures n <= Carrying(ts, id)
  {
    if |ts| == 0 then 0
    else CarryingDone(ts[..|ts| - 1], id) + (if ts[|ts| - 1].id == id && ts[|ts| - 1].completed then 1 else 0)
  }

  lemma UpdateTopicsTake(ts: seq<Topic>, id: string, completed: bool)
    requires |ts| > 0
    ensures UpdateTopics(ts, id, completed)[..|ts| - 1] == UpdateTopics(ts[..|ts| - 1], id, completed)
  {
  }

  /**
   * The completed count after the update: the topics carrying the id lose their
   * old state and all take the new one; no other topic's state moves.
   */
  lemma {:induction false} UpdateTopicsCount(ts: seq<Topic>, id: string, completed: bool)
    ensures CountCompleted(UpdateTopics(ts, id, completed)) + CarryingDone(ts, id)
         == CountCompleted(ts) + (if completed then Carrying(ts, id) else 0)
  {
    if |ts| > 0 {
      var p := ts[..|ts| - 1];
      UpdateTopicsTake(ts, id, completed);
      UpdateTopicsCount(p, id, completed);
    }
  }

  /** The update leaves every duration alone, so it preserves readability and both hour sums' total. */
  lemma {:induction false} UpdateTopicsHours(ts: seq<Topic>, id: string, completed: bool)
    requires AllHaveHours(ts)
    ensures AllHaveHours(UpdateTopics(ts, id, completed))
    ensures TotalStudyTime(UpdateTopics(ts, id, completed)) == TotalStudyTime(ts)
  {
    var u := UpdateTopics(ts, id, completed);
    assert AllHaveHours(u) by {
      forall t | t in u ensures HasHours(t) {
        var k :| 0 <= k < |u| && u[k] == t;
        assert ts[k] in ts;
      }
    }
    if |ts| > 0 {
      var p := ts[..|ts| - 1];
      assert AllHaveHours(p) by {
        forall t | t in p ensures HasHours(t) {
          assert t in ts;
        }
      }
      UpdateTopicsTake(ts, id, completed);
      UpdateTopicsHours(p, id, completed);
    }
  }

  /**
   * Marking the topic with a unique id done in a plan: the number of topics and
   * the study hours stay, and the completed count grows by one exactly when that
   * topic was open.
   */
  lemma MarkOneDone(plan: Plan, id: string)
    requires AllHaveHours(AllTopics(plan))
    requires Carrying(AllTopics(plan), id) == 1
    ensures var after := AllTopics(SetCompletion(plan, id, true));
            && |after| == |AllTopics(plan)|
            && AllHaveHours(after)
            && TotalStudyTime(after) == TotalStudyTime(AllTopics(plan))
            && CountCompleted(after) == CountCompleted(AllTopics(plan)) + 1 - CarryingDone(AllTopics(plan), id)
  {
    AllTopicsSetCompletion(plan, id, true);
    UpdateTopicsCount(AllTopics(plan), id, true);
    UpdateTopicsHours(AllTopics(plan), id, true);
  }

  /** The page's fixed user id, written independently of the mock client's. */
  const UserId := "user123"

  /**
   * `handleMarkDone`: the progress update is sent first, dated today; only once
   * it has resolved is the plan rewritten. A rejection would skip the rewrite.
   */
  function HandleMarkDone(s: State, topicId: string, completed: bool, today: string, now: string,
                          reply: Reply<Ack>): (r: State)
    ensures r.loading == s.loading && r.error == s.error
  {
    var x := MarkProgress(UserId, topicId, today, Some(completed), now, reply);
    match x.outcome
    case Resolved(_) => s.(studyData := SetCompletion(s.studyData, topicId, completed))
    case Rejected => s
  }

  /** The sent body names the user, the topic, today's date, the new value and the clock. */
  lemma MarkDoneRequest(topicId: string, completed: bool, today: string, now: string, reply: Reply<Ack>)
    ensures MarkProgress(UserId, topicId, today, Some(completed), now, reply).request
         == ProgressRequest(UserId, topicId, today, completed, now)
  {
  }

  /**
   * Because the progress update never rejects, the local rewrite always happens,
   * whatever the server answered or failed to answer.
   */
  lemma MarkDoneAlwaysApplies(s: State, topicId: string, completed: bool, today: string, now: string,
                              reply: Reply<Ack>)
    ensures HandleMarkDone(s, topicId, completed, today, now, reply).studyData
         == SetCompletion(s.studyData, topicId, completed)
  {
  }

  /** A two-topic day with one topic open: marking it done completes the day. */
  lemma MarkDoneCompletesDay(today: string, now: string, reply: Reply<Ack>)
    ensures var a := Topic("a", "Physics", "", "2 hours", "", false, "", "");
            var b := Topic("b", "Physics", "", "2 hours", "", true, "", "");
            var s := State([Day("2024-01-01", [a, b])], false, None);
            var r := HandleMarkDone(s, "a", true, today, now, reply);
            CompletionStats(r.studyData[0].subjects) == DayProgress(2, 2, Some(100))
  {
    var a := Topic("a", "Physics", "", "2 hours", "", false, "", "");
    var b := Topic("b", "Physics", "", "2 hours", "", true, "", "");
    var s := State([Day("2024-01-01", [a, b])], false, None);
    var r := HandleMarkDone(s, "a", true, today, now, reply);
    var ts := r.studyData[0].subjects;
    assert |ts| == 2 && ts[0].completed && ts[1].completed;
    assert CompletionStats(ts).percentage == Some(100);
  }
}
