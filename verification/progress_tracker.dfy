/**
 * The progress view: whole-plan totals, the per-subject breakdown in the order
 * subjects are first met, the per-subject rates, the colour and icon lookups,
 * and the figures the view shows for the API client's fallback plan.
 */
module ProgressTracker {

  import opened Wrappers
  import opened StudyData
  import opened Duration
  import opened Aggregate
  import opened Rounding
  import opened Api

  /** One key of the per-subject object and the tally accumulated under it. */
  datatype SubjectEntry = SubjectEntry(subject: string, tally: Tally)

  /** The entry already kept for `name`, if there is one. */
  function Find(entries: seq<SubjectEntry>, name: string): (k: Option<nat>)
    ensures k.Some? ==> k.value < |entries| && entries[k.value].subject == name
    ensures k.None? <==> forall i :: 0 <= i < |entries| ==> entries[i].subject != name
  {
    if |entries| == 0 then None
    else if entries[0].subject == name then Some(0)
    else match Find(entries[1..], name)
      case None => None
      case Some(k) => Some(k + 1)
  }

  /**
   * One topic's contribution to the per-subject object: a new key with a tally of
   * that topic alone, or the existing key's tally grown by it.
   */
  function Record(entries: seq<SubjectEntry>, t: Topic): (r: seq<SubjectEntry>)
    requires HasHours(t)
  {
    match Find(entries, t.subject)
    case None => entries + [SubjectEntry(t.subject, Summary([t]))]
    case Some(k) => entries[k := SubjectEntry(t.subject, entries[k].tally.Plus(Summary([t])))]
  }

  /** The per-subject object after visiting `ts` in order. */
  function SubjectStats(ts: seq<Topic>): (r: seq<SubjectEntry>)
    requires AllHaveHours(ts)
  {
    if |ts| == 0 then [] else Record(SubjectStats(ts[..|ts| - 1]), ts[|ts| - 1])
  }

  /** The topics of one subject, in order. */
  function OfSubject(ts: seq<Topic>, name: string): (r: seq<Topic>)
    ensures forall t :: t in r ==> t in ts && t.subject == name
    ensures |r| == 0 <==> forall t :: t in ts ==> t.subject != name
  {
    if |ts| == 0 then []
    else
      var last := ts[|ts| - 1];
      assert ts == ts[..|ts| - 1] + [last];
      OfSubject(ts[..|ts| - 1], name) + (if last.subject == name then [last] else [])
  }

  /** A topic is among its subject's topics exactly when it is in the list and has that name. */
  lemma {:induction false} OfSubjectMembers(ts: seq<Topic>, name: string)
    ensures forall t :: t in OfSubject(ts, name) <==> t in ts && t.subject == name
  {
    if |ts| > 0 {
      var front := ts[..|ts| - 1];
      OfSubjectMembers(front, name);
      assert ts == front + [ts[|ts| - 1]];
    }
  }

  predicate DistinctSubjects(entries: seq<SubjectEntry>)
  {
    forall i, j :: 0 <= i < j < |entries| ==> entries[i].subject != entries[j].subject
  }

  function Keys(entries: seq<SubjectEntry>): (r: set<string>)
  {
    set e | e in entries :: e.subject
  }

  function SubjectNames(ts: seq<Topic>): (r: set<string>)
  {
    set t | t in ts :: t.subject
  }

  /** The entries' tallies added up. */
  function SumTallies(entries: seq<SubjectEntry>): (r: Tally)
  {
    if |entries| == 0 then Zero
    else SumTallies(entries[..|entries| - 1]).Plus(entries[|entries| - 1].tally)
  }

  /** Every entry holds exactly the tally of its subject's topics. */
  ghost predicate EntriesMatch(ts: seq<Topic>, entries: seq<SubjectEntry>)
  {
    forall i :: 0 <= i < |entries| ==>
      AllHaveHours(OfSubject(ts, entries[i].subject))
      && entries[i].tally == Summary(OfSubject(ts, entries[i].subject))
  }

  /** The invariant the per-subject object keeps, stated for one visited sequence. */
  ghost predicate Faithful(ts: seq<Topic>, entries: seq<SubjectEntry>)
    requires AllHaveHours(ts)
  {
    && DistinctSubjects(entries)
    && Keys(entries) == SubjectNames(ts)
    && EntriesMatch(ts, entries)
    && SumTallies(entries) == Summary(ts)
  }

  lemma {:induction false} SumTalliesBump(entries: seq<SubjectEntry>, k: nat, e: SubjectEntry, d: Tally)
    requires k < |entries|
    requires e.tally == entries[k].tally.Plus(d)
    ensures SumTallies(entries[k := e]) == SumTallies(entries).Plus(d)
    decreases |entries|
  {
    var n := |entries|;
    var front, front' := entries[..n - 1], entries[k := e][..n - 1];
    if k == n - 1 {
      assert front' == front;
      var s := SumTallies(front);
      SumOfParts(SumTallies(entries[k := e]), s.Plus(entries[k].tally), d);
    } else {
      assert front' == front[k := e];
      SumTalliesBump(front, k, e, d);
      SumOfParts(SumTallies(entries[k := e]), SumTallies(entries), d);
    }
  }

  /** Visiting one more topic adds at most that topic's subject to the names. */
  lemma NamesSnoc(ts: seq<Topic>, t: Topic)
    ensures SubjectNames(ts + [t]) == SubjectNames(ts) + {t.subject}
  {
  }

  /** Visiting one more topic adds it to its own subject's topics only. */
  lemma OfSubjectSnoc(ts: seq<Topic>, t: Topic, n: string)
    ensures t.subject == n ==> OfSubject(ts + [t], n) == OfSubject(ts, n) + [t]
    ensures t.subject != n ==> OfSubject(ts + [t], n) == OfSubject(ts, n)
  {
    assert (ts + [t])[..|ts|] == ts;
    assert OfSubject(ts, n) + [] == OfSubject(ts, n);
  }

  lemma SummarySnoc(ts: seq<Topic>, t: Topic)
    requires AllHaveHours(ts) && HasHours(t)
    ensures AllHaveHours(ts + [t])
    ensures Summary(ts + [t]) == Summary(ts).Plus(Summary([t]))
  {
    SummaryAppend(ts, [t]);
  }

  lemma {:induction false} EntriesMatchNew(ts: seq<Topic>, t: Topic, entries: seq<SubjectEntry>)
    requires HasHours(t) && EntriesMatch(ts, entries)
    requires forall i :: 0 <= i < |entries| ==> entries[i].subject != t.subject
    requires OfSubject(ts, t.subject) == []
    ensures EntriesMatch(ts + [t], entries + [SubjectEntry(t.subject, Summary([t]))])
  {
    var r := entries + [SubjectEntry(t.subject, Summary([t]))];
    forall i | 0 <= i < |r|
      ensures AllHaveHours(OfSubject(ts + [t], r[i].subject))
      ensures r[i].tally == Summary(OfSubject(ts + [t], r[i].subject))
    {
      if i < |entries| {
        assert r[i] == entries[i];
        OfSubjectSnoc(ts, t, entries[i].subject);
      } else {
        assert r[i].subject == t.subject;
        OfSubjectSnoc(ts, t, t.subject);
        assert OfSubject(ts + [t], t.subject) == [t];
      }
    }
  }

  lemma {:induction false} EntriesMatchSeen(ts: seq<Topic>, t: Topic, entries: seq<SubjectEntry>, k: nat)
    requires HasHours(t) && EntriesMatch(ts, entries) && DistinctSubjects(entries)
    requires k < |entries| && entries[k].subject == t.subject
    ensures EntriesMatch(ts + [t], entries[k := SubjectEntry(t.subject, entries[k].tally.Plus(Summary([t])))])
  {
    var r := entries[k := SubjectEntry(t.subject, entries[k].tally.Plus(Summary([t])))];
    forall i | 0 <= i < |r|
      ensures AllHaveHours(OfSubject(ts + [t], r[i].subject))
      ensures r[i].tally == Summary(OfSubject(ts + [t], r[i].subject))
    {
      OfSubjectSnoc(ts, t, r[i].subject);
      if i == k {
        SummarySnoc(OfSubject(ts, t.subject), t);
      } else {
        assert r[i] == entries[i];
      }
    }
  }

  lemma KeysAppend(entries: seq<SubjectEntry>, e: SubjectEntry)
    ensures Keys(entries + [e]) == Keys(entries) + {e.subject}
  {
  }

  lemma KeysReplace(entries: seq<SubjectEntry>, k: nat, e: SubjectEntry)
    requires k < |entries| && e.subject == entries[k].subject
    ensures Keys(entries[k := e]) == Keys(entries)
    ensures DistinctSubjects(entries) ==> DistinctSubjects(entries[k := e])
  {
    var r := entries[k := e];
    assert forall i :: 0 <= i < |r| ==> r[i].subject == entries[i].subject;
    forall n | n in Keys(entries) ensures n in Keys(r) {
      var i :| 0 <= i < |entries| && entries[i].subject == n;
      assert r[i].subject == n;
    }
  }

  lemma SumTalliesAppend(entries: seq<SubjectEntry>, e: SubjectEntry)
    ensures SumTallies(entries + [e]) == SumTallies(entries).Plus(e.tally)
  {
    assert (entries + [e])[..|entries|] == entries;
  }

  lemma DistinctAppend(entries: seq<SubjectEntry>, e: SubjectEntry)
    requires e.subject !in Keys(entries)
    ensures DistinctSubjects(entries) ==> DistinctSubjects(entries + [e])
  {
    var r := entries + [e];
    if DistinctSubjects(entries) {
      forall i, j | 0 <= i < j < |r| ensures r[i].subject != r[j].subject {
        assert r[i] == entries[i];
        if j < |entries| {
          assert r[j] == entries[j];
        } else {
          assert entries[i].subject in Keys(entries);
        }
      }
    }
  }

  /** A topic of a subject not seen before opens a new entry at the end. */
  lemma {:induction false} RecordNew(ts: seq<Topic>, t: Topic, entries: seq<SubjectEntry>)
    requires AllHaveHours(ts) && HasHours(t) && Faithful(ts, entries)
    requires Find(entries, t.subject).None?
    ensures |Record(entries, t)| == |entries| + 1 && Record(entries, t)[..|entries|] == entries
    ensures Record(entries, t)[|entries|] == SubjectEntry(t.subject, Summary([t]))
    ensures AllHaveHours(ts + [t]) && Faithful(ts + [t], Record(entries, t))
  {
    var added := SubjectEntry(t.subject, Summary([t]));
    var r := entries + [added];
    assert Record(entries, t) == r;
    assert t.subject !in Keys(entries);
    SummarySnoc(ts, t);
    assert DistinctSubjects(r) && Keys(r) == SubjectNames(ts + [t]) by {
      NamesSnoc(ts, t);
      KeysAppend(entries, added);
      DistinctAppend(entries, added);
    }
    assert EntriesMatch(ts + [t], r) by {
      assert t.subject !in SubjectNames(ts);
      assert OfSubject(ts, t.subject) == [];
      EntriesMatchNew(ts, t, entries);
    }
    assert SumTallies(r) == Summary(ts + [t]) by {
      SumTalliesAppend(entries, added);
    }
  }

  lemma {:induction false} GrowFaithful(ts: seq<Topic>, t: Topic, entries: seq<SubjectEntry>, k: nat)
    requires AllHaveHours(ts) && HasHours(t) && Faithful(ts, entries)
    requires k < |entries| && entries[k].subject == t.subject
    ensures AllHaveHours(ts + [t])
    ensures Faithful(ts + [t], entries[k := SubjectEntry(t.subject, entries[k].tally.Plus(Summary([t])))])
  {
    var grown := SubjectEntry(t.subject, entries[k].tally.Plus(Summary([t])));
    SummarySnoc(ts, t);
    GrowKeys(ts, t, entries, k, grown);
    EntriesMatchSeen(ts, t, entries, k);
    SumTalliesBump(entries, k, grown, Summary([t]));
  }

  lemma GrowKeys(ts: seq<Topic>, t: Topic, entries: seq<SubjectEntry>, k: nat, grown: SubjectEntry)
    requires DistinctSubjects(entries) && Keys(entries) == SubjectNames(ts)
    requires k < |entries| && entries[k].subject == t.subject && grown.subject == t.subject
    ensures DistinctSubjects(entries[k := grown]) && Keys(entries[k := grown]) == SubjectNames(ts + [t])
  {
    assert t.subject in Keys(entries);
    NamesSnoc(ts, t);
    KeysReplace(entries, k, grown);
  }

  /** A topic of a subject already seen grows that subject's entry in place. */
  lemma RecordSeen(ts: seq<Topic>, t: Topic, entries: seq<SubjectEntry>, k: nat)
    requires AllHaveHours(ts) && HasHours(t) && Faithful(ts, entries)
    requires Find(entries, t.subject) == Some(k)
    ensures |Record(entries, t)| == |entries| && k < |entries|
    ensures forall i :: 0 <= i < |entries| && i != k ==> Record(entries, t)[i] == entries[i]
    ensures Record(entries, t)[k] == SubjectEntry(t.subject, entries[k].tally.Plus(Summary([t])))
    ensures AllHaveHours(ts + [t]) && Faithful(ts + [t], Record(entries, t))
  {
    GrowFaithful(ts, t, entries, k);
  }

  /**
   * The per-subject object has one key per subject name occurring in the topics,
   * each holding exactly the tally of that subject's topics, and the entries add up
   * to the whole tally.
   */
  lemma {:induction false} SubjectStatsFaithful(ts: seq<Topic>)
    requires AllHaveHours(ts)
    ensures Faithful(ts, SubjectStats(ts))
  {
    if |ts| == 0 {
      assert Keys([]) == {};
      assert SubjectNames(ts) == {};
    } else {
      var front, t := ts[..|ts| - 1], ts[|ts| - 1];
      assert ts == front + [t];
      SubjectStatsFaithful(front);
      var entries := SubjectStats(front);
      match Find(entries, t.subject)
      case None => RecordNew(front, t, entries);
      case Some(k) => RecordSeen(front, t, entries, k);
    }
  }

  /** The whole-plan figures of the progress view. */
  datatype Overall = Overall(
    totalSubjects: nat,
    completedSubjects: nat,
    totalHours: real,
    completedHours: real,
    completionPercentage: Option<int>,
    hoursPercentage: Option<int>)

  /** Everything the progress view derives from the plan. */
  datatype Report = Report(overall: Overall, subjects: seq<SubjectEntry>)

  /** The overall figures of a tally, with both percentages as the view rounds them. */
  function OverallOf(s: Tally): (o: Overall)
    requires s.completed <= s.total && 0.0 <= s.completedHours <= s.hours
    ensures o.totalSubjects == s.total && o.completedSubjects == s.completed
    ensures o.totalHours == s.hours && o.completedHours == s.completedHours
    ensures o.completionPercentage == CountPercentage(s.completed, s.total)
    ensures o.hoursPercentage == Percentage(s.completedHours, s.hours)
    ensures o.completionPercentage.Some? <==> s.total > 0
    ensures o.completionPercentage.Some? ==> 0 <= o.completionPercentage.value <= 100
    ensures o.hoursPercentage.Some? <==> s.hours > 0.0
    ensures o.hoursPercentage.Some? ==> 0 <= o.hoursPercentage.value <= 100
  {
    var o := Overall(s.total, s.completed, s.hours, s.completedHours,
                     CountPercentage(s.completed, s.total), Percentage(s.completedHours, s.hours));
    assert o.completionPercentage.Some? ==> 0 <= o.completionPercentage.value <= 100 by {
      if s.total > 0 {
        CountPercentageExtremes(s.completed, s.total);
      }
    }
    assert o.hoursPercentage.Some? ==> 0 <= o.hoursPercentage.value <= 100 by {
      if s.hours > 0.0 {
        PercentageBounds(s.completedHours, s.hours);
      }
    }
    o
  }

  /** Every per-subject entry counts at least one topic, and no more done topics than topics. */
  lemma EntriesBounded(ts: seq<Topic>)
    requires AllHaveHours(ts)
    ensures forall i :: 0 <= i < |SubjectStats(ts)| ==>
              1 <= SubjectStats(ts)[i].tally.total
              && SubjectStats(ts)[i].tally.completed <= SubjectStats(ts)[i].tally.total
  {
    SubjectStatsFaithful(ts);
    var entries := SubjectStats(ts);
    forall i | 0 <= i < |entries|
      ensures 1 <= entries[i].tally.total && entries[i].tally.completed <= entries[i].tally.total
    {
      var n := entries[i].subject;
      assert n in Keys(entries);
      assert n in SubjectNames(ts);
    }
  }

  /**
   * The progress report: totals over every topic of every day, the rounded
   * percentages (none when their divisor is zero), and the per-subject entries,
   * which partition the totals by subject name.
   */
  function OverallStats(plan: Plan): (r: Report)
    requires AllHaveHours(AllTopics(plan))
    ensures r.overall.totalSubjects == |AllTopics(plan)|
    ensures r.overall.completedSubjects == CountCompleted(AllTopics(plan))
    ensures r.overall.completedSubjects <= r.overall.totalSubjects
    ensures 0.0 <= r.overall.completedHours <= r.overall.totalHours
    ensures r.overall.completionPercentage == CountPercentage(r.overall.completedSubjects, r.overall.totalSubjects)
    ensures r.overall.hoursPercentage == Percentage(r.overall.completedHours, r.overall.totalHours)
    ensures r.overall.completionPercentage.Some? <==> r.overall.totalSubjects > 0
    ensures r.overall.completionPercentage.Some? ==> 0 <= r.overall.completionPercentage.value <= 100
    ensures r.overall.hoursPercentage.Some? <==> r.overall.totalHours > 0.0
    ensures r.overall.hoursPercentage.Some? ==> 0 <= r.overall.hoursPercentage.value <= 100
    ensures DistinctSubjects(r.subjects)
    ensures Keys(r.subjects) == SubjectNames(AllTopics(plan))
    ensures SumTallies(r.subjects) == Tally(r.overall.totalSubjects, r.overall.completedSubjects,
                                            r.overall.totalHours, r.overall.completedHours)
    ensures forall i :: 0 <= i < |r.subjects| ==>
              1 <= r.subjects[i].tally.total && r.subjects[i].tally.completed <= r.subjects[i].tally.total
  {
    var ts := AllTopics(plan);
    SubjectStatsFaithful(ts);
    EntriesBounded(ts);
    Report(OverallOf(Summary(ts)), SubjectStats(ts))
  }

  /**
   * The per-subject half of the loop body: create the subject's entry with zero
   * counters if it has none, then bump that entry by the topic.
   */
  method RecordTopic(subjectStats: seq<SubjectEntry>, subject: Topic) returns (r: seq<SubjectEntry>)
    requires HasHours(subject)
    ensures r == Record(subjectStats, subject)
  {
    var hours := HoursOf(subject);
    var entries := subjectStats;
    var found := Find(entries, subject.subject);
    var idx: nat;
    if found.None? {
      entries := entries + [SubjectEntry(subject.subject, Zero)];
      idx := |entries| - 1;
    } else {
      idx := found.value;
    }
    var entry := entries[idx].tally;
    ghost var before := entry;
    entry := entry.(total := entry.total + 1, hours := entry.hours + hours);
    if subject.completed {
      entry := entry.(completed := entry.completed + 1, completedHours := entry.completedHours + hours);
    }
    r := entries[idx := SubjectEntry(subject.subject, entry)];
    SummaryOne(subject);
    SumOfParts(entry, before, Summary([subject]));
    if found.None? {
      SumOfParts(Summary([subject]), Zero, Summary([subject]));
      assert r == subjectStats + [SubjectEntry(subject.subject, Summary([subject]))];
    }
  }

  /** The five accumulators of `calculateOverallStats`. */
  datatype Counters = Counters(
    totalSubjects: nat,
    completedSubjects: nat,
    totalHours: real,
    completedHours: real,
    subjectStats: seq<SubjectEntry>)

  /** The accumulators hold what the folds give for the topics `seen` so far. */
  predicate Tracks(c: Counters, seen: seq<Topic>)
    requires AllHaveHours(seen)
  {
    && c.totalSubjects == |seen|
    && c.completedSubjects == CountCompleted(seen)
    && c.totalHours == TotalStudyTime(seen)
    && c.completedHours == CompletedHours(seen)
    && c.subjectStats == SubjectStats(seen)
  }

  /** Visiting one more topic, for every fold the progress view keeps. */
  lemma Visit(seen: seq<Topic>, t: Topic)
    requires AllHaveHours(seen) && HasHours(t)
    ensures AllHaveHours(seen + [t])
    ensures CountCompleted(seen + [t]) == CountCompleted(seen) + (if t.completed then 1 else 0)
    ensures TotalStudyTime(seen + [t]) == TotalStudyTime(seen) + HoursOf(t)
    ensures CompletedHours(seen + [t]) == CompletedHours(seen) + (if t.completed then HoursOf(t) else 0.0)
    ensures SubjectStats(seen + [t]) == Record(SubjectStats(seen), t)
  {
    assert (seen + [t])[..|seen|] == seen;
  }

  /** The loop body: bump the four counters, then the entry of the topic's subject. */
  method VisitTopic(c: Counters, ghost visited: seq<Topic>, subject: Topic) returns (c': Counters)
    requires AllHaveHours(visited) && HasHours(subject) && Tracks(c, visited)
    ensures AllHaveHours(visited + [subject]) && Tracks(c', visited + [subject])
  {
    var totalSubjects, completedSubjects := c.totalSubjects, c.completedSubjects;
    var totalHours, completedHours := c.totalHours, c.completedHours;
    var hours := HoursOf(subject);
    totalSubjects := totalSubjects + 1;
    totalHours := totalHours + hours;
    if subject.completed {
      completedSubjects := completedSubjects + 1;
      completedHours := completedHours + hours;
    }
    var subjectStats := RecordTopic(c.subjectStats, subject);
    Visit(visited, subject);
    c' := Counters(totalSubjects, completedSubjects, totalHours, completedHours, subjectStats);
  }

  /** The inner loop: one day's topics, in order. */
  method VisitDay(c: Counters, ghost seen: seq<Topic>, subjects: seq<Topic>) returns (c': Counters)
    requires AllHaveHours(seen) && AllHaveHours(subjects) && Tracks(c, seen)
    ensures AllHaveHours(seen + subjects) && Tracks(c', seen + subjects)
  {
    c' := c;
    ghost var visited := seen;
    for j := 0 to |subjects|
      invariant visited == seen + subjects[..j]
      invariant AllHaveHours(visited)
      invariant Tracks(c', visited)
    {
      assert HasHours(subjects[j]) by {
        assert subjects[j] in subjects;
      }
      c' := VisitTopic(c', visited, subjects[j]);
      visited := visited + [subjects[j]];
      AppendNext(seen, subjects, j);
    }
    AppendNext(seen, subjects, |subjects|);
  }

  lemma AppendNext<T>(a: seq<T>, b: seq<T>, j: nat)
    requires j <= |b|
    ensures j < |b| ==> a + b[..j] + [b[j]] == a + b[..j + 1]
    ensures j == |b| ==> a + b[..j] == a + b
  {
    if j < |b| {
      TakeNext(b, j);
    } else {
      TakeAll(b);
    }
  }

  /**
   * `calculateOverallStats`: one pass over the days and, inside each, over its
   * topics, bumping the four counters and the entry of the topic's subject.
   */
  method CalculateOverallStats(plan: Plan) returns (r: Report)
    requires AllHaveHours(AllTopics(plan))
    ensures r == OverallStats(plan)
  {
    var c := Counters(0, 0, 0.0, 0.0, []);
    for i := 0 to |plan|
      invariant AllHaveHours(AllTopics(plan[..i]))
      invariant Tracks(c, AllTopics(plan[..i]))
    {
      DayInPlan(plan, i);
      c := VisitDay(c, AllTopics(plan[..i]), plan[i].subjects);
      TakeNext(plan, i);
      assert plan[..i + 1][..i] == plan[..i];
    }
    TakeAll(plan);
    var overall := Overall(c.totalSubjects, c.completedSubjects, c.totalHours, c.completedHours,
                           CountPercentage(c.completedSubjects, c.totalSubjects),
                           Percentage(c.completedHours, c.totalHours));
    r := Report(overall, c.subjectStats);
  }

  /**
   * How the computation ends. Indexing a failed duration match throws, so one
   * duration without any digit or dot aborts the whole view. A run such as "."
   * reads as `NaN` hours, which makes the total hours and the hours of that
   * topic's subject `NaN` (and the done hours too when the topic is done); the
   * topic counts stay intact, and those are what this outcome keeps.
   */
  datatype Outcome =
    | Throws
    | HoursUnreadable(totalSubjects: nat, completedSubjects: nat, completionPercentage: Option<int>)
    | Computed(report: Report)

  /** `calculateOverallStats` on any plan, including those whose durations do not read as hours. */
  function Calculate(plan: Plan): (r: Outcome)
    ensures r.Throws? <==> SomeUnmatched(AllTopics(plan))
    ensures r.Computed? <==> AllHaveHours(AllTopics(plan))
    ensures r.Computed? ==> r.report.overall.totalSubjects == |AllTopics(plan)|
    ensures r.Computed? ==> AllHaveHours(AllTopics(plan)) && r.report == OverallStats(plan)
    ensures r.HoursUnreadable? ==>
              && r.totalSubjects == |AllTopics(plan)|
              && r.completedSubjects == CountCompleted(AllTopics(plan))
              && r.completionPercentage.Some?
              && r.completionPercentage == CountPercentage(r.completedSubjects, r.totalSubjects)
  {
    var ts := AllTopics(plan);
    if SomeUnmatched(ts) then Throws
    else if AllHaveHours(ts) then Computed(OverallStats(plan))
    else
      assert |ts| > 0;
      HoursUnreadable(|ts|, CountCompleted(ts), CountPercentage(CountCompleted(ts), |ts|))
  }

  /** The two bars of one subject card. */
  datatype Rates = Rates(completionRate: Option<int>, hoursRate: Option<int>)

  /** Each bar is the rounded share, or `NaN` (none) when its divisor is zero. */
  function SubjectRates(t: Tally): (r: Rates)
    ensures r.completionRate.Some? <==> t.total > 0
    ensures r.hoursRate.Some? <==> t.hours != 0.0
    ensures r.completionRate.Some? && t.completed <= t.total ==> 0 <= r.completionRate.value <= 100
    ensures r.hoursRate.Some? && 0.0 <= t.completedHours <= t.hours ==> 0 <= r.hoursRate.value <= 100
    ensures t.total > 0 ==> r.completionRate == Some((200 * t.completed + t.total) / (2 * t.total))
    ensures r.hoursRate.Some? ==>
              r.hoursRate.value as real - 0.5 <= 100.0 * t.completedHours / t.hours < r.hoursRate.value as real + 0.5
  {
    var r := Rates(CountPercentage(t.completed, t.total), Percentage(t.completedHours, t.hours));
    assert t.total > 0 ==> r.completionRate == Some((200 * t.completed + t.total) / (2 * t.total)) by {
      if t.total > 0 {
        CountPercentageFormula(t.completed, t.total);
      }
    }
    assert r.completionRate.Some? && t.completed <= t.total ==> 0 <= r.completionRate.value <= 100 by {
      if t.total > 0 && t.completed <= t.total {
        CountPercentageExtremes(t.completed, t.total);
      }
    }
    assert r.hoursRate.Some? && 0.0 <= t.completedHours <= t.hours ==> 0 <= r.hoursRate.value <= 100 by {
      if t.hours != 0.0 && 0.0 <= t.completedHours <= t.hours {
        PercentageBounds(t.completedHours, t.hours);
      }
    }
    r
  }

  /**
   * Every card of the report shows a task rate between 0 and 100, and an hours
   * rate exactly when its subject has hours; a subject whose topics are all done
   * shows 100 on both bars, one with none done shows 0 on both.
   */
  lemma {:induction false} ReportRates(plan: Plan, i: nat)
    requires AllHaveHours(AllTopics(plan))
    requires i < |OverallStats(plan).subjects|
    ensures var e := OverallStats(plan).subjects[i];
            var r := SubjectRates(e.tally);
            && r.completionRate.Some? && 0 <= r.completionRate.value <= 100
            && (r.hoursRate.Some? <==> e.tally.hours > 0.0)
            && (r.hoursRate.Some? ==> 0 <= r.hoursRate.value <= 100)
    ensures var e := OverallStats(plan).subjects[i];
            (forall t :: t in AllTopics(plan) && t.subject == e.subject ==> t.completed) ==>
              && SubjectRates(e.tally).completionRate == Some(100)
              && (e.tally.hours > 0.0 ==> SubjectRates(e.tally).hoursRate == Some(100))
    ensures var e := OverallStats(plan).subjects[i];
            (forall t :: t in AllTopics(plan) && t.subject == e.subject ==> !t.completed) ==>
              && SubjectRates(e.tally).completionRate == Some(0)
              && (e.tally.hours > 0.0 ==> SubjectRates(e.tally).hoursRate == Some(0))
  {
    var ts := AllTopics(plan);
    SubjectStatsFaithful(ts);
    var entries := SubjectStats(ts);
    assert OverallStats(plan).subjects == entries;
    var e := entries[i];
    var mine := OfSubject(ts, e.subject);
    assert AllHaveHours(mine) && e.tally == Summary(mine);
    assert e.subject in SubjectNames(ts) by {
      assert e.subject in Keys(entries);
    }
    assert |mine| > 0;
    if forall t :: t in ts && t.subject == e.subject ==> t.completed {
      forall k | 0 <= k < |mine| ensures mine[k].completed {
        assert mine[k] in mine;
      }
      AllDoneRates(mine);
    }
    if forall t :: t in ts && t.subject == e.subject ==> !t.completed {
      forall k | 0 <= k < |mine| ensures !mine[k].completed {
        assert mine[k] in mine;
      }
      NoneDoneRates(mine);
    }
  }

  /** Topics that are all done show 100 on both bars. */
  lemma AllDoneRates(mine: seq<Topic>)
    requires AllHaveHours(mine) && |mine| > 0
    requires forall k :: 0 <= k < |mine| ==> mine[k].completed
    ensures SubjectRates(Summary(mine)).completionRate == Some(100)
    ensures Summary(mine).hours > 0.0 ==> SubjectRates(Summary(mine)).hoursRate == Some(100)
  {
    var s := Summary(mine);
    assert s.completed == s.total && s.completedHours == s.hours;
    CountPercentageExtremes(s.completed, s.total);
    if s.hours > 0.0 {
      PercentageEnds(s.hours);
    }
  }

  /** Topics none of which is done show 0 on both bars. */
  lemma NoneDoneRates(mine: seq<Topic>)
    requires AllHaveHours(mine) && |mine| > 0
    requires forall k :: 0 <= k < |mine| ==> !mine[k].completed
    ensures SubjectRates(Summary(mine)).completionRate == Some(0)
    ensures Summary(mine).hours > 0.0 ==> SubjectRates(Summary(mine)).hoursRate == Some(0)
  {
    var s := Summary(mine);
    assert s.completed == 0 && s.completedHours == 0.0;
    CountPercentageNone(s.completed, s.total);
    if s.hours > 0.0 {
      PercentageEnds(s.hours);
    }
  }

  /** The subjects with their own colour and icon. */
  const KnownSubjects: set<string> := {"Physics", "Chemistry", "Biology", "Mathematics"}

  const FallbackColor := "from-gray-500 to-gray-600"

  /** The gradient classes of a subject's badge and bars. */
  function SubjectColor(subject: string): (c: string)
    ensures c == FallbackColor <==> subject !in KnownSubjects
  {
    if subject == "Physics" then "from-blue-500 to-blue-600"
    else if subject == "Chemistry" then "from-green-500 to-green-600"
    else if subject == "Biology" then "from-purple-500 to-purple-600"
    else if subject == "Mathematics" then "from-red-500 to-red-600"
    else FallbackColor
  }

  /** The four known subjects are told apart by colour. */
  lemma ColorsDistinct(a: string, b: string)
    requires a in KnownSubjects && b in KnownSubjects && a != b
    ensures SubjectColor(a) != SubjectColor(b)
  {
  }

  /** The four badge pictures. */
  datatype Icon = Bolt | Flask | Heart | Calculator

  /** A subject's badge picture; an unknown subject borrows the Mathematics one. */
  function SubjectIcon(subject: string): (i: Icon)
    ensures i == Calculator <==> subject == "Mathematics" || subject !in KnownSubjects
  {
    if subject == "Physics" then Bolt
    else if subject == "Chemistry" then Flask
    else if subject == "Biology" then Heart
    else Calculator
  }

  /** The four known subjects are told apart by icon; every other subject looks like Mathematics. */
  lemma IconsDistinct(a: string, b: string)
    requires a in KnownSubjects && b in KnownSubjects && a != b
    ensures SubjectIcon(a) != SubjectIcon(b)
  {
  }

  /** Every day's durations read as hours. */
  predicate DaysHaveHours(plan: Plan)
  {
    forall i :: 0 <= i < |plan| ==> AllHaveHours(plan[i].subjects)
  }

  lemma DaysHaveHoursIff(plan: Plan)
    ensures DaysHaveHours(plan) <==> AllHaveHours(AllTopics(plan))
  {
    forall t | t in AllTopics(plan) && DaysHaveHours(plan) ensures HasHours(t) {
      InAllTopics(plan, t);
    }
    forall i | 0 <= i < |plan| && AllHaveHours(AllTopics(plan)) ensures AllHaveHours(plan[i].subjects) {
      DayInPlan(plan, i);
    }
  }

  lemma PrefixHasHours(plan: Plan, n: nat)
    requires DaysHaveHours(plan) && n <= |plan|
    ensures DaysHaveHours(plan[..n])
  {
    forall i | 0 <= i < n ensures AllHaveHours(plan[..n][i].subjects) {
      assert plan[..n][i] == plan[i];
    }
  }

  /** What the list and calendar views show for one day, as a tally. */
  function DayCard(d: Day): (s: Tally)
    requires AllHaveHours(d.subjects)
  {
    var cs := CompletionStats(d.subjects);
    Tally(cs.total, cs.completed, TotalStudyTime(d.subjects), CompletedHours(d.subjects))
  }

  /** The day cards added up, day after day. */
  function DayCards(plan: Plan): (r: Tally)
    requires DaysHaveHours(plan)
  {
    if |plan| == 0 then Zero else DayCards(plan[..|plan| - 1]).Plus(DayCard(plan[|plan| - 1]))
  }

  /**
   * The whole-plan totals of the progress view are the sums of the per-day
   * figures the list and calendar views show.
   */
  lemma {:induction false} OverallByDay(plan: Plan)
    requires DaysHaveHours(plan)
    ensures AllHaveHours(AllTopics(plan))
    ensures Summary(AllTopics(plan)) == DayCards(plan)
  {
    DaysHaveHoursIff(plan);
    if |plan| > 0 {
      var p := plan[..|plan| - 1];
      var d := plan[|plan| - 1];
      assert DaysHaveHours(p) by {
        forall i | 0 <= i < |p| ensures AllHaveHours(p[i].subjects) {
          assert p[i] == plan[i];
        }
      }
      OverallByDay(p);
      SummaryAppend(AllTopics(p), d.subjects);
      assert DayCard(d) == Summary(d.subjects);
    }
  }

  /** The report's overall figures, read off the day cards. */
  lemma ReportByDay(plan: Plan)
    requires DaysHaveHours(plan)
    ensures AllHaveHours(AllTopics(plan))
    ensures var o := OverallStats(plan).overall;
            var d := DayCards(plan);
            o.totalSubjects == d.total && o.completedSubjects == d.completed
            && o.totalHours == d.hours && o.completedHours == d.completedHours
  {
    OverallByDay(plan);
  }

  /** The day cards of a prefix grow by the card of the next day. */
  lemma DayCardsStep(plan: Plan, n: nat)
    requires DaysHaveHours(plan) && 0 < n <= |plan|
    ensures DaysHaveHours(plan[..n]) && DaysHaveHours(plan[..n - 1])
    ensures DayCards(plan[..n]) == DayCards(plan[..n - 1]).Plus(DayCard(plan[n - 1]))
  {
    PrefixHasHours(plan, n);
    PrefixHasHours(plan, n - 1);
    TakeTake(plan, n);
    assert plan[..n][n - 1] == plan[n - 1];
  }

  // The progress view over the fallback plan of the API client.

  /** Physics and Biology slots read as 2 hours, Chemistry and Mathematics as 1.5. */
  lemma SlotHours(k: nat, index: nat, date: string)
    requires k < 4
    ensures HasHours(MockTopic(k, index, date))
    ensures HoursOf(MockTopic(k, index, date)) == if k % 2 == 0 then 2.0 else 1.5
  {
    if k % 2 == 0 {
      ParseTwoHours();
    } else {
      ParseOneAndAHalfHours();
    }
  }

  /** The tally of four open topics is four topics and the sum of their hours. */
  lemma {:induction false} FourOpen(s: seq<Topic>)
    requires |s| == 4 && AllHaveHours(s)
    requires forall k :: 0 <= k < 4 ==> !s[k].completed
    ensures Summary(s) == Tally(4, 0, HoursOf(s[0]) + HoursOf(s[1]) + HoursOf(s[2]) + HoursOf(s[3]), 0.0)
  {
    assert s == [s[0]] + [s[1]] + [s[2]] + [s[3]];
    SummaryOne(s[0]);
    SummaryOne(s[1]);
    SummaryOne(s[2]);
    SummaryOne(s[3]);
    SummaryAppend([s[0]], [s[1]]);
    SummaryAppend([s[0]] + [s[1]], [s[2]]);
    SummaryAppend([s[0]] + [s[1]] + [s[2]], [s[3]]);
  }

  /** One generated day: four topics, none done, 2 + 1.5 + 2 + 1.5 hours. */
  lemma MockDayCard(index: nat, date: string)
    ensures AllHaveHours(MockDay(index, date).subjects)
    ensures DayCard(MockDay(index, date)) == Tally(4, 0, 7.0, 0.0)
  {
    var s := MockDay(index, date).subjects;
    forall k | 0 <= k < 4 ensures HasHours(s[k]) && HoursOf(s[k]) == if k % 2 == 0 then 2.0 else 1.5 {
      SlotHours(k, index, date);
    }
    assert AllHaveHours(s);
    FourOpen(s);
    assert DayCard(MockDay(index, date)) == Summary(s);
  }

  lemma MockDaysHaveHours(dateOf: nat -> string)
    ensures DaysHaveHours(MockPlan(dateOf))
  {
    forall i | 0 <= i < 7 ensures AllHaveHours(MockPlan(dateOf)[i].subjects) {
      MockDayCard(i, dateOf(i));
    }
  }

  /** `n` copies of one day's tally added up. */
  function Repeat(card: Tally, n: nat): (r: Tally)
  {
    if n == 0 then Zero else Repeat(card, n - 1).Plus(card)
  }

  /** Days that all show the same card add up to that card repeated. */
  lemma {:induction false} UniformCards(plan: Plan, n: nat, card: Tally)
    requires n <= |plan| && DaysHaveHours(plan)
    requires forall i :: 0 <= i < |plan| ==> DayCard(plan[i]) == card
    ensures DaysHaveHours(plan[..n])
    ensures DayCards(plan[..n]) == Repeat(card, n)
  {
    PrefixHasHours(plan, n);
    if n > 0 {
      UniformCards(plan, n - 1, card);
      DayCardsStep(plan, n);
    }
  }

  lemma MockDayCards(dateOf: nat -> string)
    ensures DaysHaveHours(MockPlan(dateOf))
    ensures DayCards(MockPlan(dateOf)) == Tally(28, 0, 49.0, 0.0)
  {
    var plan := MockPlan(dateOf);
    MockDaysHaveHours(dateOf);
    forall i | 0 <= i < |plan| ensures DayCard(plan[i]) == Tally(4, 0, 7.0, 0.0) {
      MockDayCard(i, dateOf(i));
    }
    UniformCards(plan, 7, Tally(4, 0, 7.0, 0.0));
    assert Repeat(Tally(4, 0, 7.0, 0.0), 7) == Tally(28, 0, 49.0, 0.0);
    TakeAll(plan);
  }

  lemma MockTotals(dateOf: nat -> string)
    ensures AllHaveHours(AllTopics(MockPlan(dateOf)))
    ensures var o := OverallStats(MockPlan(dateOf)).overall;
            o.totalSubjects == 28 && o.completedSubjects == 0 && o.totalHours == 49.0 && o.completedHours == 0.0
  {
    var plan := MockPlan(dateOf);
    MockDayCards(dateOf);
    ReportByDay(plan);
  }

  /**
   * The progress view over the fallback plan: 28 topics, none done, 49 hours,
   * and both percentages at 0.
   */
  lemma MockPlanStats(dateOf: nat -> string)
    ensures AllHaveHours(AllTopics(MockPlan(dateOf)))
    ensures OverallStats(MockPlan(dateOf)).overall == Overall(28, 0, 49.0, 0.0, Some(0), Some(0))
  {
    MockTotals(dateOf);
    PercentageEnds(28.0);
    PercentageEnds(49.0);
  }
}
