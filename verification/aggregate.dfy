/**
 * The counting and summing folds behind every statistic the views show:
 * per-day completion (identical in the list and the calendar view), per-day
 * study time, and the four-part tally the progress view accumulates.
 */
module Aggregate {

  import opened Wrappers
  import opened StudyData
  import opened Duration
  import opened Rounding

  /** `topics.filter(s => s.completed).length`. */
  function CountCompleted(ts: seq<Topic>): (n: nat)
    ensures n <= |ts|
    ensures n == |ts| <==> forall i :: 0 <= i < |ts| ==> ts[i].completed
    ensures n == 0 <==> forall i :: 0 <= i < |ts| ==> !ts[i].completed
  {
    if |ts| == 0 then 0
    else CountCompleted(ts[..|ts| - 1]) + (if ts[|ts| - 1].completed then 1 else 0)
  }

  lemma {:induction false} CountCompletedAppend(a: seq<Topic>, b: seq<Topic>)
    ensures CountCompleted(a + b) == CountCompleted(a) + CountCompleted(b)
    decreases |b|
  {
    if |b| == 0 {
      assert a + b == a;
    } else {
      assert (a + b)[..|a + b| - 1] == a + b[..|b| - 1];
      CountCompletedAppend(a, b[..|b| - 1]);
    }
  }

  /** What a day card shows: topics done, topics in all, and the rounded percentage. */
  datatype DayProgress = DayProgress(completed: nat, total: nat, percentage: Option<int>)

  /**
   * The day statistics. An empty day has no percentage: the source divides 0 by 0
   * and shows `NaN`.
   */
  function CompletionStats(subjects: seq<Topic>): (s: DayProgress)
    ensures s.total == |subjects|
    ensures s.completed == CountCompleted(subjects)
    ensures s.completed <= s.total
    ensures s.completed == s.total <==> forall i :: 0 <= i < |subjects| ==> subjects[i].completed
    ensures s.completed == 0 <==> forall i :: 0 <= i < |subjects| ==> !subjects[i].completed
    ensures s.percentage.Some? <==> |subjects| > 0
    ensures s.percentage.Some? ==> 0 <= s.percentage.value <= 100
    ensures s.percentage == Some(100) <==> |subjects| > 0 && 200 * s.completed >= 199 * s.total
    ensures s.percentage == Some(0) <==> |subjects| > 0 && 200 * s.completed < s.total
    ensures |subjects| > 0 ==> s.percentage == Some((200 * s.completed + s.total) / (2 * s.total))
  {
    var c := CountCompleted(subjects);
    var p := CountPercentage(c, |subjects|);
    assert |subjects| > 0 ==> p == Some((200 * c + |subjects|) / (2 * |subjects|)) by {
      if |subjects| > 0 {
        CountPercentageFormula(c, |subjects|);
      }
    }
    assert |subjects| > 0 ==>
      (&& 0 <= p.value <= 100
       && (p.value == 100 <==> 200 * c >= 199 * |subjects|)
       && (p.value == 0 <==> 200 * c < |subjects|)) by {
      if |subjects| > 0 {
        CountPercentageExtremes(c, |subjects|);
      }
    }
    DayProgress(c, |subjects|, p)
  }

  /** Below 200 topics a day shows 100 % exactly when all are done and 0 % exactly when none is. */
  lemma SmallDayPercentage(subjects: seq<Topic>)
    requires 0 < |subjects| < 200
    ensures CompletionStats(subjects).percentage == Some(100)
        <==> forall i :: 0 <= i < |subjects| ==> subjects[i].completed
    ensures CompletionStats(subjects).percentage == Some(0)
        <==> forall i :: 0 <= i < |subjects| ==> !subjects[i].completed
  {
    var s := CompletionStats(subjects);
    SmallCountPercentage(s.completed, s.total);
  }

  /** The duration text of the topic reads as a number of hours. */
  predicate HasHours(t: Topic)
  {
    ParseDuration(t.duration).Hours?
  }

  predicate AllHaveHours(ts: seq<Topic>)
  {
    forall t :: t in ts ==> HasHours(t)
  }

  function HoursOf(t: Topic): (h: real)
    requires HasHours(t)
    ensures h >= 0.0
  {
    ParseDuration(t.duration).value
  }

  /** `topics.reduce((total, s) => total + hours(s), 0)`. */
  function TotalStudyTime(ts: seq<Topic>): (h: real)
    requires AllHaveHours(ts)
    ensures h >= 0.0
    ensures |ts| == 0 ==> h == 0.0
  {
    if |ts| == 0 then 0.0 else TotalStudyTime(ts[..|ts| - 1]) + HoursOf(ts[|ts| - 1])
  }

  /** The hours of the completed topics only. */
  function CompletedHours(ts: seq<Topic>): (h: real)
    requires AllHaveHours(ts)
    ensures 0.0 <= h <= TotalStudyTime(ts)
    ensures (forall i :: 0 <= i < |ts| ==> ts[i].completed) ==> h == TotalStudyTime(ts)
    ensures (forall i :: 0 <= i < |ts| ==> !ts[i].completed) ==> h == 0.0
  {
    if |ts| == 0 then 0.0
    else CompletedHours(ts[..|ts| - 1]) + (if ts[|ts| - 1].completed then HoursOf(ts[|ts| - 1]) else 0.0)
  }

  /** Study time adds up over consecutive stretches of topics. */
  lemma {:induction false} HoursAppend(a: seq<Topic>, b: seq<Topic>)
    requires AllHaveHours(a) && AllHaveHours(b)
    ensures AllHaveHours(a + b)
    ensures TotalStudyTime(a + b) == TotalStudyTime(a) + TotalStudyTime(b)
    ensures CompletedHours(a + b) == CompletedHours(a) + CompletedHours(b)
    decreases |b|
  {
    if |b| == 0 {
      assert a + b == a;
    } else {
      assert (a + b)[..|a + b| - 1] == a + b[..|b| - 1];
      HoursAppend(a, b[..|b| - 1]);
    }
  }

  /** Some topic's duration has no digit or dot, so indexing its failed match throws. */
  predicate SomeUnmatched(ts: seq<Topic>)
  {
    exists t :: t in ts && ParseDuration(t.duration).NoMatch?
  }

  /** How summing a day's durations ends. */
  datatype StudyTime = Aborts | NotANumberHours | TotalHours(hours: real)

  /**
   * `getTotalStudyTime` on any day: a duration without digits aborts the sum, a
   * number-like run that `parseFloat` rejects (such as ".") turns it into `NaN`,
   * and otherwise it is the sum of the parsed hours.
   */
  function DayStudyTime(ts: seq<Topic>): (r: StudyTime)
    ensures r.Aborts? <==> SomeUnmatched(ts)
    ensures r.TotalHours? <==> AllHaveHours(ts)
    ensures r.TotalHours? ==> r.hours >= 0.0
    ensures r.TotalHours? ==> r.hours == TotalStudyTime(ts)
    ensures |ts| == 0 ==> r == TotalHours(0.0)
  {
    if SomeUnmatched(ts) then Aborts
    else if AllHaveHours(ts) then TotalHours(TotalStudyTime(ts))
    else NotANumberHours
  }

  /** The four quantities the progress view accumulates, for the whole plan or one subject. */
  datatype Tally = Tally(total: nat, completed: nat, hours: real, completedHours: real)
  {
    function Plus(other: Tally): (r: Tally)
    {
      Tally(total + other.total, completed + other.completed,
            hours + other.hours, completedHours + other.completedHours)
    }
  }

  const Zero := Tally(0, 0, 0.0, 0.0)

  /** A tally that agrees with `x + y` on every quantity is `x.Plus(y)`. */
  lemma SumOfParts(s: Tally, x: Tally, y: Tally)
    requires s.total == x.total + y.total && s.completed == x.completed + y.completed
    requires s.hours == x.hours + y.hours && s.completedHours == x.completedHours + y.completedHours
    ensures s == x.Plus(y)
  {
  }

  /** The tally of a stretch of topics. */
  function Summary(ts: seq<Topic>): (s: Tally)
    requires AllHaveHours(ts)
    ensures s.completed <= s.total
    ensures 0.0 <= s.completedHours <= s.hours
  {
    Tally(|ts|, CountCompleted(ts), TotalStudyTime(ts), CompletedHours(ts))
  }

  /** Tallies add up over consecutive stretches of topics. */
  lemma SummaryAppend(a: seq<Topic>, b: seq<Topic>)
    requires AllHaveHours(a) && AllHaveHours(b)
    ensures AllHaveHours(a + b)
    ensures Summary(a + b) == Summary(a).Plus(Summary(b))
  {
    HoursAppend(a, b);
    CountCompletedAppend(a, b);
    SumOfParts(Summary(a + b), Summary(a), Summary(b));
  }

  /** The tally of a single topic: one topic, its hours, and both again if it is done. */
  lemma SummaryOne(t: Topic)
    requires HasHours(t)
    ensures AllHaveHours([t])
    ensures Summary([t]) == Tally(1, if t.completed then 1 else 0,
                                  HoursOf(t), if t.completed then HoursOf(t) else 0.0)
  {
    assert [t][..0] == [];
  }
}
