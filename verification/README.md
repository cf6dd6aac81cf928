# Study-plan dashboard core, in Dafny

This project models the logic layer of a React study-plan dashboard. A plan is a
sequence of days. Each day has an ISO date and an ordered list of topic records:
id, subject, topic text, duration text, time slot, `completed` flag, difficulty
and exam type. On top of that plan the model covers:

- **Duration reading** (`Duration`). A duration text is read by taking the first
  maximal run of digits and dots, then reading a decimal from it as `parseFloat`
  does. Text with no such run makes the source throw. A run such as `"."` reads
  as `NaN`.
- **Rounded percentages** (`Rounding`). `Math.round` is `floor(x + 1/2)` over
  exact reals. A zero divisor gives no percentage: the source shows `NaN`.
- **Folds over topics** (`Aggregate`). These are the per-day
  `{completed, total, percentage}` card that the list and calendar views compute
  identically, the per-day study time, and the four-part tally (topics, done,
  hours, done hours) that the progress view accumulates.
- **The progress view** (`ProgressTracker`). This covers `calculateOverallStats`:
  the overall totals and the per-subject entries, kept in the order subjects are
  first met, both as a function and as the source's nested loop. It also covers
  the per-subject rates and the colour and icon lookups with their fallbacks.
- **The calendar view's selection** (`CalendarView`). Finding the first day with
  the selected date, and the click toggle.
- **The API client** (`Api`). The fallback seven-day plan, the read and write
  fallbacks, and the body of a progress update.
- **The page store** (`StudyPlan`). Loading a plan, and the local rewrite that
  follows marking a topic done.

The clock and the network are parameters. The seven fallback dates come from
`dateOf(0..6)`. "Today" and the timestamp are strings. A server reply is a
`Reply` value.

Three behaviours of the code are worth stating plainly. A day or a plan with no
topics has no completion percentage (`None`): the code divides 0 by 0 and shows
`NaN`. Two clicks on one date restore the selection only when nothing or that
date was selected (`ClickTwice`). Rounding shows 100 % once 99.5 % of the topics
are done, so "100 % iff all done" holds only below 200 topics
(`SmallDayPercentage`, `LargeCountPercentage`).

## Model

| member | source | states |
|---|---|---|
| Duration.FirstMatch | src/components/ListView.jsx:28 | There is no match exactly when the text holds no digit or dot. Otherwise the match is a leftmost, longest run of digits and dots. |
| Duration.LeftmostLongestUnique | src/components/ProgressTracker.jsx:14 | A text has at most one leftmost-longest digit-and-dot run, so the regex match is determined. |
| Duration.ParseDecimal | src/components/ListView.jsx:28 | Reading a digit-and-dot run gives `NaN` exactly when the run has no digit before or right after its first dot. Otherwise it gives a non-negative number of hours. |
| Duration.ParseDuration | src/components/ProgressTracker.jsx:14 | The duration read throws exactly when the text has no digit or dot. Otherwise it gives `NaN` or a non-negative number of hours. |
| Duration.Numeral | src/components/ListView.jsx:28 | The decimal numeral of n consists of digits only and reads back as n. |
| Duration.ParseRendered | src/components/ListView.jsx:28 | Round trip: the text `<lead><whole>[.<frac>]<unit>` reads as `whole + frac/10^len(frac)` hours. This holds whenever the lead has no digit or dot and the unit does not start with one. |
| Duration.ParseTwoHours | src/components/ListView.jsx:28 | "2 hours" reads as 2 hours. |
| Duration.ParseOneAndAHalfHours | src/components/ListView.jsx:28 | "1.5 hours" reads as 1.5 hours. |
| Rounding.Round | src/components/ProgressTracker.jsx:41-42 | The rounded value lies within one half of x: at most half below, strictly less than half above. |
| Rounding.RoundUnique | src/components/ProgressTracker.jsx:41-42 | Only one integer lies within that distance of x. |
| Rounding.Percentage | src/components/ProgressTracker.jsx:41-42 | A percentage exists exactly when the divisor is non-zero, and it is within one half of 100·part/whole. |
| Rounding.PercentageBounds | src/components/ProgressTracker.jsx:162-163 | A share of a positive whole rounds to a value between 0 and 100. |
| Rounding.PercentageEnds | src/components/ProgressTracker.jsx:163 | All of a positive whole is 100 %; none of it is 0 %. |
| Rounding.CountPercentageFormula | src/components/ListView.jsx:23 | For counts with total t > 0, the rounded percentage equals the integer formula (200·c + t) div (2·t). |
| Rounding.CountPercentageExtremes | src/components/CalendarView.jsx:25 | For 0 < t and c ≤ t the count percentage lies between 0 and 100. It is 100 iff 200·c ≥ 199·t, and 0 iff 200·c < t. |
| Rounding.SmallCountPercentage | src/components/ListView.jsx:23 | Below 200 topics, the percentage is 100 iff all topics are done and 0 iff none is. |
| Rounding.LargeCountPercentage | src/components/ListView.jsx:23 | From 200 topics up, 199 of 200 already shows 100 and 1 of 201 still shows 0. |
| Aggregate.CountCompleted | src/components/ListView.jsx:21 | The done count is at most the length. It equals the length iff every topic is done, and is 0 iff none is. |
| Aggregate.CountCompletedAppend | src/components/CalendarView.jsx:23 | The done count adds up over concatenated topic lists. |
| Aggregate.CompletionStats | src/components/CalendarView.jsx:22-26 | A day card has total = number of topics and completed = the number of done topics ≤ total, with both all-done and none-done iffs. Its percentage exists iff the day is non-empty, lies in 0..100, and equals the rounded share (200·completed + total) div (2·total), with the exact conditions for 100 and for 0. |
| Aggregate.SmallDayPercentage | src/components/ListView.jsx:20-24 | A day with 1 to 199 topics shows 100 % iff all are done and 0 % iff none is. |
| Aggregate.TotalStudyTime | src/components/ListView.jsx:26-31 | A day's study time is non-negative and 0 for a day without topics. |
| Aggregate.CompletedHours | src/components/ProgressTracker.jsx:17-20 | The done hours lie between 0 and the total hours. They equal the total when all topics are done and are 0 when none is. |
| Aggregate.HoursAppend | src/components/ListView.jsx:26-31 | Study time and done hours are additive over concatenated topic lists. |
| Aggregate.DayStudyTime | src/components/ListView.jsx:26-31 | A day's sum throws iff some duration has no digit or dot. It is a number iff every duration reads as hours, and that number is the sum of the read hours (`TotalStudyTime`), so it is non-negative. It is 0 for an empty day. |
| Aggregate.Summary | src/components/ProgressTracker.jsx:11-20 | The tally of a topic list has done ≤ total and 0 ≤ done hours ≤ hours. |
| Aggregate.SummaryAppend | src/components/ProgressTracker.jsx:11-20 | Tallies add up over concatenated topic lists. |
| ProgressTracker.Find | src/components/ProgressTracker.jsx:23 | The lookup finds an entry with the subject's name iff one exists, and the index it returns holds that name. |
| ProgressTracker.OfSubject | src/components/ProgressTracker.jsx:22-31 | A subject's topics come from the list and carry the name. The list is empty iff no topic has that name. |
| ProgressTracker.OfSubjectMembers | src/components/ProgressTracker.jsx:22-31 | A topic is among a subject's topics iff it is in the list and carries that name. |
| ProgressTracker.RecordNew | src/components/ProgressTracker.jsx:23-31 | A topic whose subject has no key yet leaves the existing entries as they are and adds one entry at the end, holding that topic's tally. The per-subject invariant holds for the topics seen so far plus this one. |
| ProgressTracker.RecordSeen | src/components/ProgressTracker.jsx:23-31 | A topic whose subject already has the key at position k keeps the length and every other entry, and replaces entry k with the same key and its tally grown by that topic. The per-subject invariant holds for the topics seen so far plus this one. |
| ProgressTracker.OverallOf | src/components/ProgressTracker.jsx:35-43 | The overall object repeats the tally's four figures. Each percentage is the rounded share, exists iff its divisor is non-zero, and lies in 0..100. |
| ProgressTracker.SubjectStatsFaithful | src/components/ProgressTracker.jsx:22-31 | The per-subject entries have distinct names, and the names are exactly the subjects that occur. Each entry is the tally of its subject's topics, and the entries sum to the overall tally. |
| ProgressTracker.OverallStats | src/components/ProgressTracker.jsx:4-46 | Total = all topic records, completed = done records ≤ total, and 0 ≤ done hours ≤ hours. Both percentages exist iff their divisor is non-zero, are then the rounded shares of done topics and done hours, and lie in 0..100. The subject keys are the occurring names, their tallies sum to the overall figures, and each entry has 1 ≤ total and completed ≤ total. |
| ProgressTracker.RecordTopic | src/components/ProgressTracker.jsx:23-31 | The loop's per-subject step creates a zeroed entry for a new name and bumps it. This equals growing the subject's tally by the topic. |
| ProgressTracker.VisitTopic | src/components/ProgressTracker.jsx:12-31 | One loop step keeps the counters equal to the folds over the topics seen so far. |
| ProgressTracker.VisitDay | src/components/ProgressTracker.jsx:12-32 | The inner loop over a day keeps the counters equal to the folds over the topics seen so far. |
| ProgressTracker.CalculateOverallStats | src/components/ProgressTracker.jsx:4-46 | The nested loop computes exactly the report the folds define. |
| ProgressTracker.Calculate | src/components/ProgressTracker.jsx:4-46 | The view throws iff some duration has no digit or dot. It gives a report iff every duration reads as hours, and that report is the whole-plan report `OverallStats`. When hours are `NaN`, the topic counts are still the plan's and the completion percentage is their rounded share. |
| ProgressTracker.SubjectRates | src/components/ProgressTracker.jsx:162-163 | A subject's task rate exists iff it has topics. Its hours rate exists iff its hours are non-zero. The task rate is the rounded share (200·completed + total) div (2·total). The hours rate is within one half of 100·done hours/hours. Both lie in 0..100 for a consistent tally. |
| ProgressTracker.ReportRates | src/components/ProgressTracker.jsx:161-163 | Every card of the report has a task rate in 0..100, and an hours rate exactly when its subject has hours. A subject with all topics done shows 100 on both bars; one with none done shows 0. |
| ProgressTracker.SubjectColor | src/components/ProgressTracker.jsx:76-84 | A subject gets the gray classes iff it is not one of the four known subjects. |
| ProgressTracker.SubjectIcon | src/components/ProgressTracker.jsx:50-74 | A subject gets the Mathematics icon iff it is Mathematics or not one of the known subjects. |
| ProgressTracker.OverallByDay | src/components/ProgressTracker.jsx:11-20 | The whole-plan tally is the sum over days of the day cards and day study times of the list and calendar views. |
| ProgressTracker.ReportByDay | src/components/ProgressTracker.jsx:35-40 | The report's four overall figures are the sums of the day cards. |
| Api.MockStudyPlan | src/services/api.js:55-114 | The fallback payload is for user `user123` and holds 7 days, day i dated `dateOf(i)`. |
| Api.MockPlan | src/services/api.js:66-113 | The plan has exactly 7 days, and day i is the day generated for index i and date `dateOf(i)`. |
| Api.MockDay | src/services/api.js:68-111 | A generated day carries its date and exactly 4 topics; slot k holds the slot-k topic for that index and date. |
| Api.MockTopicId | src/services/api.js:72-107 | A generated topic's id is its subject in lower case, `_` and the date, and the topic starts open. |
| Api.MockPlanShape | src/services/api.js:55-114 | The fallback plan has 7 days, dated in generation order. Each day has 4 topics: Physics, Chemistry, Biology, Mathematics. All are open, and each id is `<subject in lower case>_<date>`. |
| Api.MockDifficulty | src/services/api.js:78-108 | Physics is Hard on every third day, else Medium on even days and Easy on odd ones. Chemistry is Medium on every third day, else Hard. Biology is always Medium. Mathematics is Hard on every third day, else Medium. |
| Api.MockTopicsAlternate | src/services/api.js:74-104 | Two days have the same topic text in a slot iff their indexes have the same parity. |
| Api.MockIdsUnique | src/services/api.js:72-102 | With seven distinct dates, no two generated topics share an id. |
| Api.MockIdsClashOnEqualDates | src/services/api.js:72-102 | With two equal dates, ids repeat. |
| ProgressTracker.MockPlanStats | src/services/api.js:66-113 | The progress view over the fallback plan shows 28 topics, none done, 49 hours, and 0 % on both percentages. |
| Api.GetStudyPlan | src/services/api.js:6-25 | A read returns the decoded body of a successful reply. It returns the fallback payload on a transport error, a failure status or an undecodable body. |
| Api.FailedReadLooksServed | src/services/api.js:20-24 | A failed read cannot be told apart from a server that sends the fallback payload, and it yields 7 days of 4 open topics. |
| Api.ProgressBody | src/services/api.js:27-40 | The update body carries the user, topic, date and clock. Its `completed` is true unless false was passed. |
| Api.MarkProgress | src/services/api.js:27-53 | An update always resolves. It resolves to the server's acknowledgement when the reply is usable, and to a success otherwise. |
| Api.LostWriteLooksAccepted | src/services/api.js:48-52 | A failed write cannot be told apart from a server that accepted it with the fallback message. |
| CalendarView.FirstDay | src/components/CalendarView.jsx:29 | The search returns the first index whose day has the date, and nothing iff no day has it. |
| CalendarView.SelectedDayData | src/components/CalendarView.jsx:28-30 | No details are shown iff nothing is selected, the selection is the falsy empty string, or no day has the date. Otherwise the details are of the first day with that date. |
| CalendarView.SelectedIsFirstOfDaysOn | src/components/CalendarView.jsx:28-30 | For a non-empty date, the shown day is the head of the plan's days on that date, filtered independently. |
| CalendarView.Highlighted | src/components/CalendarView.jsx:47 | A day card is drawn as selected exactly when its date equals the current selection, so no card is drawn as selected when nothing is selected. |
| CalendarView.Click | src/components/CalendarView.jsx:53 | A click leaves nothing selected iff the clicked date was the selection. Otherwise it selects the clicked date. |
| CalendarView.ClickFlips | src/components/CalendarView.jsx:47-53 | A click flips the clicked day's highlight and leaves every other day unhighlighted. |
| CalendarView.ClickTwice | src/components/CalendarView.jsx:53 | Two clicks on one date restore the selection iff it was empty or that date. Otherwise they end with nothing selected. |
| CalendarView.ClickTwiceFromOtherDate | src/components/CalendarView.jsx:53 | A concrete case: with 2024-01-01 selected, two clicks on 2024-01-02 end with nothing selected rather than with 2024-01-01. |
| CalendarView.EmptyDateHighlightedButHidden | src/components/CalendarView.jsx:28-53 | A day dated with the empty string can be highlighted, but its details are never shown. |
| StudyPlan.LoadStudyPlan | src/components/StudyPlan.jsx:18-30 | After a load, loading is off. A `null` body keeps the plan and sets the error. Any object sets the plan to its `studyPlan`, or to no days when that is absent, and clears the error. |
| StudyPlan.Load | src/components/StudyPlan.jsx:18-25 | A whole load always ends with loading off. A usable object body loads its plan, or no days when it has none. A failed read loads the fallback plan. Each of these clears the error. Only a usable `null` body keeps the old plan and sets the error. |
| StudyPlan.FirstLoad | src/components/StudyPlan.jsx:9-25 | Starting from an empty plan, loading on and no error, the mount-time load always ends with loading off. A failed read shows the fallback plan with no error. An error can only appear while the plan is still empty. |
| StudyPlan.FailedLoadShowsFallback | src/components/StudyPlan.jsx:21-23 | A failed read still loads the fallback plan without an error. |
| StudyPlan.LoadErrorOnlyOnNull | src/components/StudyPlan.jsx:21-25 | The load error is set iff the server successfully answered `null`. |
| StudyPlan.UpdateTopics | src/components/StudyPlan.jsx:41-45 | Within a day, topics carrying the id take the new flag and change nothing else. All other topics are untouched. |
| StudyPlan.SetCompletion | src/components/StudyPlan.jsx:38-47 | The rewrite keeps the number of days, each date, and each day's topic count and order. Every matching topic, not only the first, takes the new flag and keeps its other fields. |
| StudyPlan.SetCompletionUnknownId | src/components/StudyPlan.jsx:38-47 | An id that no topic carries leaves the plan unchanged. |
| StudyPlan.SetCompletionIdempotent | src/components/StudyPlan.jsx:38-47 | Applying the same rewrite twice is applying it once. |
| StudyPlan.SetCompletionLastWins | src/components/StudyPlan.jsx:38-47 | Of two rewrites of one id, the later one decides. |
| StudyPlan.SetCompletionCommutes | src/components/StudyPlan.jsx:38-47 | Rewrites of two different ids commute. |
| StudyPlan.AllTopicsSetCompletion | src/components/StudyPlan.jsx:38-47 | Rewriting day by day is the same as rewriting the flattened topic list. |
| StudyPlan.UpdateTopicsCount | src/components/StudyPlan.jsx:41-45 | Exact done count after a rewrite: the topics carrying the id lose their old flag and take the new one. |
| StudyPlan.UpdateTopicsHours | src/components/StudyPlan.jsx:41-45 | A rewrite keeps every duration readable and keeps the study time. |
| StudyPlan.MarkOneDone | src/components/StudyPlan.jsx:38-47 | Marking a uniquely-held id done keeps the topic count and the hours. The done count grows by one iff that topic was open. |
| StudyPlan.HandleMarkDone | src/components/StudyPlan.jsx:32-52 | Marking done touches neither the loading flag nor the error. |
| StudyPlan.MarkDoneRequest | src/components/StudyPlan.jsx:34-35 | The update sent carries the user, the topic, today's date (not the topic's day), the new flag and the clock. |
| StudyPlan.MarkDoneAlwaysApplies | src/components/StudyPlan.jsx:35-47 | The rewrite happens only after the update resolves, and since the update never rejects, it always happens. |
| StudyPlan.MarkDoneCompletesDay | src/components/StudyPlan.jsx:38-47 | A day of one open and one done topic shows 2 of 2 and 100 % after the open one is marked done. |

## Left out

- ProgressTracker.OverallStats: requires every duration to read as hours. Plans where one does not are covered by `ProgressTracker.Calculate`, which keeps only the topic counts and the completion percentage in the `NaN` case.
- ProgressTracker.Calculate: when a duration reads as `NaN`, the outcome keeps only the topic counts and the completion percentage. In the source, the done-hours sum stays a number unless a done topic has the `NaN` duration, and the entries of the other subjects stay numeric. The model does not keep either.
- ProgressTracker.CalculateOverallStats: the loop is modelled for plans whose durations all read as hours, as in `OverallStats`.
- Aggregate.TotalStudyTime: requires readable durations. `Aggregate.DayStudyTime` covers the throwing and the `NaN` cases.
- Floating point: hours and percentages are exact reals, not IEEE doubles. `NaN` is modelled as an absent value, and `toFixed(1)` display formatting is not modelled.
- JavaScript objects as maps: property names inherited from the object prototype, such as `constructor`, are not modelled. In the source they make a colour, icon or subject lookup see an existing value. Object key order is modelled as insertion order; JavaScript lists integer-like keys first.
- A day without a topic list is not modelled: every `Day` has one. The code throws on such a day in every view.
- Durations that are not strings, topic fields of other types, and bodies that are neither `null` nor an object with an optional plan are not modelled.
- A `completed` argument other than a boolean or an omitted one is not modelled.
- Network, `fetch`, headers, the base address and `console.error` are I/O. A reply is a parameter.
- The clock is a parameter: the seven fallback dates, "today" and the timestamp are given as strings. Date arithmetic and date formatting are not modelled.
- React state, effects, overlapping loads and the loading flag while a request is in flight are not modelled. Only the state after an operation completes is modelled.
- The presentational study card component, and all markup and class tables other than the subject colour and icon lookups, are not part of this model.
