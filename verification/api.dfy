/**
 * The API client as the views see it: the payloads it returns, the fallback
 * plan it generates when a read fails, the synthetic acknowledgement it returns
 * when a write fails, and the body it sends with a progress update. Transport,
 * the base address and logging are not modelled: a reply is given as a value.
 */
module Api {

  import opened Wrappers
  import opened StudyData

  /** What the network layer delivers: no response at all, or a status and a body that may not be JSON. */
  datatype Reply<T> = TransportError | Response(ok: bool, json: Option<T>)

  /** The reply carries a usable payload: a success status and a body that decodes. */
  predicate Usable<T>(reply: Reply<T>)
  {
    reply.Response? && reply.ok && reply.json.Some?
  }

  /** A decoded study-plan body: the JSON value `null`, or an object whose fields may be absent. */
  datatype PlanPayload = NullBody | PlanPayload(userId: Option<string>, studyPlan: Option<Plan>)

  /** A decoded acknowledgement of a progress update. */
  datatype Ack = Ack(success: bool, message: string)

  const MockUserId := "user123"

  const FallbackAck := Ack(true, "Progress updated successfully")

  /** The id prefix of the generated topic in slot `k` of a day: the subject in lower case and `_`. */
  function IdTag(k: nat): (r: string)
    requires k < 4
  {
    ["physics_", "chemistry_", "biology_", "mathematics_"][k]
  }

  /** The subject of slot `k`: every generated day lists the same four subjects in this order. */
  function SlotSubject(k: nat): (r: string)
    requires k < 4
  {
    ["Physics", "Chemistry", "Biology", "Mathematics"][k]
  }

  /** The topic text of slot `k` on an even or an odd day. */
  function TopicText(k: nat, even: bool): (r: string)
    requires k < 4
  {
    if even then
      ["Mechanics - Motion in Straight Line", "Organic Chemistry - Hydrocarbons",
       "Human Physiology - Circulatory System", "Calculus - Differentiation"][k]
    else
      ["Thermodynamics - Laws of Thermodynamics", "Physical Chemistry - Atomic Structure",
       "Plant Physiology - Photosynthesis", "Algebra - Quadratic Equations"][k]
  }

  /** Physics and Biology take two hours, Chemistry and Mathematics one and a half. */
  function SlotDuration(k: nat): (r: string)
    requires k < 4
  {
    if k % 2 == 0 then "2 hours" else "1.5 hours"
  }

  function SlotTime(k: nat): (r: string)
    requires k < 4
  {
    ["09:00 - 11:00", "11:30 - 13:00", "14:00 - 16:00", "16:30 - 18:00"][k]
  }

  /** The difficulty of slot `k` on day `index`. */
  function SlotDifficulty(k: nat, index: nat): (r: string)
    requires k < 4
  {
    if k == 0 then (if index % 3 == 0 then "Hard" else if index % 2 == 0 then "Medium" else "Easy")
    else if k == 1 then (if index % 3 == 0 then "Medium" else "Hard")
    else if k == 2 then "Medium"
    else (if index % 3 == 0 then "Hard" else "Medium")
  }

  function SlotExam(k: nat): (r: string)
    requires k < 4
  {
    if k == 2 then "NEET" else "JEE"
  }

  /** ASCII upper-case letters to lower case: each mock id starts with its subject's name in lower case. */
  function LowerChar(c: char): (r: char)
  {
    if 'A' <= c <= 'Z' then (c as int + 32) as char else c
  }

  function Lower(s: string): (r: string)
    ensures |r| == |s| && forall i :: 0 <= i < |s| ==> r[i] == LowerChar(s[i])
  {
    seq(|s|, i requires 0 <= i < |s| => LowerChar(s[i]))
  }

  /** The generated topic in slot `k` of day `index`, dated `date`. */
  function MockTopic(k: nat, index: nat, date: string): (t: Topic)
    requires k < 4
  {
    Topic(IdTag(k) + date, SlotSubject(k), TopicText(k, index % 2 == 0), SlotDuration(k),
          SlotTime(k), false, SlotDifficulty(k, index), SlotExam(k))
  }

  /** Day `index` of the fallback plan. */
  function MockDay(index: nat, date: string): (d: Day)
    ensures d.date == date && |d.subjects| == 4
    ensures forall k :: 0 <= k < 4 ==> d.subjects[k] == MockTopic(k, index, date)
  {
    Day(date, seq(4, k requires 0 <= k < 4 => MockTopic(k, index, date)))
  }

  /**
   * The fallback plan for the seven dates `dateOf(0)` … `dateOf(6)`, which the
   * source derives from the clock as today and the six days after it.
   */
  function MockPlan(dateOf: nat -> string): (plan: Plan)
    ensures |plan| == 7
    ensures forall i :: 0 <= i < 7 ==> plan[i] == MockDay(i, dateOf(i))
  {
    seq(7, i requires 0 <= i < 7 => MockDay(i, dateOf(i)))
  }

  /** Each id prefix is the slot's subject in lower case followed by `_`. */
  lemma IdTagIsLowerSubject(k: nat)
    requires k < 4
    ensures IdTag(k) == Lower(SlotSubject(k)) + "_"
  {
    if k == 0 {
      assert Lower("Physics") == "physics";
    } else if k == 1 {
      assert Lower("Chemistry") == "chemistry";
    } else if k == 2 {
      assert Lower("Biology") == "biology";
    } else {
      assert Lower("Mathematics") == "mathematics";
    }
  }

  /** A generated topic's id is its subject in lower case, `_` and its date, and it starts open. */
  lemma MockTopicId(k: nat, index: nat, date: string)
    requires k < 4
    ensures MockTopic(k, index, date).id == Lower(MockTopic(k, index, date).subject) + "_" + date
    ensures !MockTopic(k, index, date).completed
  {
    IdTagIsLowerSubject(k);
  }

  /** The generated topic in slot `k` of day `i` of the fallback plan. */
  lemma MockTopicAt(dateOf: nat -> string, i: nat, k: nat)
    requires i < 7 && k < 4
    ensures |MockPlan(dateOf)[i].subjects| == 4
    ensures MockPlan(dateOf)[i].subjects[k] == MockTopic(k, i, dateOf(i))
  {
  }

  /** One generated day: its date, then Physics, Chemistry, Biology, Mathematics, all open, with tagged ids. */
  lemma MockDayShape(index: nat, date: string)
    ensures var d := MockDay(index, date);
            && d.date == date && |d.subjects| == 4
            && d.subjects[0].subject == "Physics" && d.subjects[1].subject == "Chemistry"
            && d.subjects[2].subject == "Biology" && d.subjects[3].subject == "Mathematics"
    ensures forall k :: 0 <= k < 4 ==>
              && !MockDay(index, date).subjects[k].completed
              && MockDay(index, date).subjects[k].id == IdTag(k) + date
  {
  }

  /**
   * The fallback plan has seven days in generation order, each with the four
   * subjects in a fixed order, every topic open and its id tagged with the date.
   */
  lemma MockPlanShape(dateOf: nat -> string)
    ensures var plan := MockPlan(dateOf);
            && |plan| == 7
            && forall i :: 0 <= i < 7 ==> plan[i].date == dateOf(i) && |plan[i].subjects| == 4
    ensures var plan := MockPlan(dateOf);
            forall i :: 0 <= i < 7 ==>
              && plan[i].subjects[0].subject == "Physics"
              && plan[i].subjects[1].subject == "Chemistry"
              && plan[i].subjects[2].subject == "Biology"
              && plan[i].subjects[3].subject == "Mathematics"
    ensures var plan := MockPlan(dateOf);
            forall i, k :: 0 <= i < 7 && 0 <= k < 4 ==>
              && !plan[i].subjects[k].completed
              && plan[i].subjects[k].id == IdTag(k) + dateOf(i)
  {
    forall i | 0 <= i < 7 {
      MockDayShape(i, dateOf(i));
    }
  }

  /** `getMockStudyPlan`: the fallback payload, for the fixed user, with one day per date. */
  function MockStudyPlan(dateOf: nat -> string): (p: PlanPayload)
    ensures p.PlanPayload? && p.userId == Some(MockUserId) && p.studyPlan.Some?
    ensures |p.studyPlan.value| == 7
    ensures forall i :: 0 <= i < 7 ==> p.studyPlan.value[i].date == dateOf(i)
  {
    PlanPayload(Some(MockUserId), Some(MockPlan(dateOf)))
  }

  /**
   * The difficulty table: Physics is Hard on every third day, else Medium on even
   * days and Easy on odd ones; Chemistry is Medium on every third day and Hard
   * otherwise; Biology is always Medium; Mathematics is Hard on every third day
   * and Medium otherwise.
   */
  lemma MockDifficulty(dateOf: nat -> string, i: nat)
    requires i < 7
    ensures var s := MockPlan(dateOf)[i].subjects;
            && s[0].difficulty == (if i % 3 == 0 then "Hard" else if i % 2 == 0 then "Medium" else "Easy")
            && s[1].difficulty == (if i % 3 == 0 then "Medium" else "Hard")
            && s[2].difficulty == "Medium"
            && s[3].difficulty == (if i % 3 == 0 then "Hard" else "Medium")
  {
  }

  /** The even-day and odd-day texts of a slot differ already in their first letter. */
  lemma TopicTextsDiffer(k: nat)
    requires k < 4
    ensures TopicText(k, true) != TopicText(k, false)
  {
    var x, y := TopicText(k, true), TopicText(k, false);
    if k == 0 {
      assert x[0] == 'M' && y[0] == 'T';
    } else if k == 1 {
      assert x[0] == 'O' && y[0] == 'P';
    } else if k == 2 {
      assert x[0] == 'H' && y[0] == 'P';
    } else {
      assert x[0] == 'C' && y[0] == 'A';
    }
  }

  /** Each subject's topic text depends only on whether the day index is even, and differs between the two. */
  lemma MockTopicsAlternate(dateOf: nat -> string, i: nat, j: nat, k: nat)
    requires i < 7 && j < 7 && k < 4
    ensures MockPlan(dateOf)[i].subjects[k].topic == MockPlan(dateOf)[j].subjects[k].topic
        <==> i % 2 == j % 2
  {
    MockTopicAt(dateOf, i, k);
    MockTopicAt(dateOf, j, k);
    TopicTextsDiffer(k);
  }

  /** Two generated ids agree only for the same slot and the same date. */
  lemma TaggedIds(k: nat, l: nat, a: string, b: string)
    requires k < 4 && l < 4
    requires IdTag(k) + a == IdTag(l) + b
    ensures k == l && a == b
  {
    var x := IdTag(k) + a;
    assert x[0] == IdTag(k)[0];
    assert x[0] == IdTag(l)[0];
    assert k == l;
    assert a == x[|IdTag(k)|..];
  }

  /** With seven distinct dates, no two generated topics share an id. */
  lemma MockIdsUnique(dateOf: nat -> string)
    requires forall i, j :: 0 <= i < j < 7 ==> dateOf(i) != dateOf(j)
    ensures UniqueIds(MockPlan(dateOf))
  {
    var plan := MockPlan(dateOf);
    forall i, k, j, l |
      && 0 <= i < |plan| && 0 <= k < |plan[i].subjects|
      && 0 <= j < |plan| && 0 <= l < |plan[j].subjects|
      && plan[i].subjects[k].id == plan[j].subjects[l].id
      ensures i == j && k == l
    {
      MockTopicAt(dateOf, i, k);
      MockTopicAt(dateOf, j, l);
      TaggedIds(k, l, dateOf(i), dateOf(j));
    }
  }

  /** The generated ids repeat as soon as two dates coincide. */
  lemma MockIdsClashOnEqualDates(dateOf: nat -> string, i: nat, j: nat)
    requires i < j < 7 && dateOf(i) == dateOf(j)
    ensures !UniqueIds(MockPlan(dateOf))
  {
    var plan := MockPlan(dateOf);
    MockTopicAt(dateOf, i, 0);
    MockTopicAt(dateOf, j, 0);
    assert plan[i].subjects[0].id == plan[j].subjects[0].id;
  }

  /** `getStudyPlan`: the decoded body of a successful reply, the fallback plan on any failure. */
  function GetStudyPlan(reply: Reply<PlanPayload>, dateOf: nat -> string): (r: PlanPayload)
    ensures Usable(reply) ==> r == reply.json.value
    ensures !Usable(reply) ==> r == MockStudyPlan(dateOf)
  {
    match reply
    case Response(true, Some(body)) => body
    case _ => MockStudyPlan(dateOf)
  }

  /**
   * A failed read is indistinguishable from a server that happens to send the
   * fallback payload, and it always yields seven days of four open topics.
   */
  lemma FailedReadLooksServed(reply: Reply<PlanPayload>, dateOf: nat -> string)
    requires !Usable(reply)
    ensures GetStudyPlan(reply, dateOf) == GetStudyPlan(Response(true, Some(MockStudyPlan(dateOf))), dateOf)
    ensures var p := GetStudyPlan(reply, dateOf).studyPlan.value;
            |p| == 7 && forall i :: 0 <= i < 7 ==> |p[i].subjects| == 4 && forall k :: 0 <= k < 4 ==> !p[i].subjects[k].completed
  {
  }

  /** The JSON body of a progress update. */
  datatype ProgressRequest = ProgressRequest(
    userId: string,
    topicId: string,
    date: string,
    completed: bool,
    timestamp: string)

  /** The body sent; an omitted `completed` argument defaults to true. */
  function ProgressBody(userId: string, topicId: string, date: string,
                        completed: Option<bool>, now: string): (b: ProgressRequest)
    ensures b.completed <==> completed != Some(false)
    ensures b.userId == userId && b.topicId == topicId && b.date == date && b.timestamp == now
  {
    ProgressRequest(userId, topicId, date, completed.GetOr(true), now)
  }

  /** How the awaited promise of `markProgress` settles. */
  datatype Settled = Resolved(ack: Ack) | Rejected

  /** A progress update: the body it sends and how it settles. */
  datatype Exchange = Exchange(request: ProgressRequest, outcome: Settled)

  /**
   * `markProgress`: it always resolves, to the server's acknowledgement when the
   * reply is usable and to a synthetic success otherwise.
   */
  function MarkProgress(userId: string, topicId: string, date: string, completed: Option<bool>,
                        now: string, reply: Reply<Ack>): (x: Exchange)
    ensures x.request == ProgressBody(userId, topicId, date, completed, now)
    ensures x.outcome.Resolved?
    ensures !Usable(reply) ==> x.outcome.ack.success
    ensures Usable(reply) ==> x.outcome.ack == reply.json.value
  {
    var ack := match reply
      case Response(true, Some(a)) => a
      case _ => FallbackAck;
    Exchange(ProgressBody(userId, topicId, date, completed, now), Resolved(ack))
  }

  /** A lost write cannot be told apart from a server that accepted it with the same words. */
  lemma LostWriteLooksAccepted(userId: string, topicId: string, date: string, completed: Option<bool>,
                               now: string, reply: Reply<Ack>)
    requires !Usable(reply)
    ensures MarkProgress(userId, topicId, date, completed, now, reply)
         == MarkProgress(userId, topicId, date, completed, now, Response(true, Some(FallbackAck)))
  {
  }
}
