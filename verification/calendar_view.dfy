/**
 * The calendar view's selection: which date is highlighted, how a click on a
 * day changes it, and which day's details are shown below the grid.
 */
module CalendarView {

  import opened Wrappers
  import opened StudyData

  /** The index of the first day dated `date`, as `Array.prototype.find` scans. */
  function FirstDay(plan: Plan, date: string): (k: Option<nat>)
    ensures k.Some? ==> k.value < |plan| && plan[k.value].date == date
    ensures k.Some? ==> forall j :: 0 <= j < k.value ==> plan[j].date != date
    ensures k.None? <==> forall j :: 0 <= j < |plan| ==> plan[j].date != date
  {
    if |plan| == 0 then None
    else if plan[0].date == date then Some(0)
    else match FirstDay(plan[1..], date)
      case None => None
      case Some(k) => Some(k + 1)
  }

  /**
   * The day whose details are shown. No selection, and the empty string, which
   * is falsy, show nothing; otherwise the first day with that date, if any.
   */
  function SelectedDayData(plan: Plan, selected: Option<string>): (r: Option<Day>)
    ensures r.None? <==>
              || selected.None? || selected == Some("")
              || forall j :: 0 <= j < |plan| ==> plan[j].date != selected.value
    ensures r.Some? ==>
              && selected.Some? && r.value.date == selected.value
              && exists k :: 0 <= k < |plan| && plan[k] == r.value
                             && forall j :: 0 <= j < k ==> plan[j].date != selected.value
  {
    if selected.None? || selected.value == "" then None
    else match FirstDay(plan, selected.value)
      case None => None
      case Some(k) => Some(plan[k])
  }

  /** The days dated `date`, in plan order: an independent account of the lookup. */
  function DaysOn(plan: Plan, date: string): (r: seq<Day>)
    ensures forall d :: d in r ==> d in plan && d.date == date
  {
    if |plan| == 0 then []
    else DaysOn(plan[..|plan| - 1], date) + (if plan[|plan| - 1].date == date then [plan[|plan| - 1]] else [])
  }

  lemma {:induction false} DaysOnEmpty(plan: Plan, date: string)
    ensures |DaysOn(plan, date)| == 0 <==> forall j :: 0 <= j < |plan| ==> plan[j].date != date
  {
    if |plan| > 0 {
      var p := plan[..|plan| - 1];
      DaysOnEmpty(p, date);
      assert forall j :: 0 <= j < |p| ==> p[j] == plan[j];
    }
  }

  lemma {:induction false} DaysOnHead(plan: Plan, date: string, k: nat)
    requires k < |plan| && plan[k].date == date
    requires forall j :: 0 <= j < k ==> plan[j].date != date
    ensures |DaysOn(plan, date)| > 0 && DaysOn(plan, date)[0] == plan[k]
  {
    var p := plan[..|plan| - 1];
    if k < |plan| - 1 {
      DaysOnHead(p, date, k);
    } else {
      DaysOnEmpty(p, date);
    }
  }

  /** The details shown for a non-empty selected date are the first of the days on that date. */
  lemma SelectedIsFirstOfDaysOn(plan: Plan, date: string)
    requires date != ""
    ensures SelectedDayData(plan, Some(date)) ==
              if |DaysOn(plan, date)| == 0 then None else Some(DaysOn(plan, date)[0])
  {
    DaysOnEmpty(plan, date);
    var k := FirstDay(plan, date);
    if k.Some? {
      DaysOnHead(plan, date, k.value);
    }
  }

  /** Clicking a day: the selected date deselects, any other date becomes the selection. */
  function Click(selected: Option<string>, date: string): (r: Option<string>)
    ensures r.Some? <==> selected != Some(date)
    ensures r.Some? ==> r.value == date
  {
    if selected == Some(date) then None else Some(date)
  }

  /** Whether a day card is drawn as selected. */
  predicate Highlighted(selected: Option<string>, date: string)
  {
    selected == Some(date)
  }

  /** A click flips the clicked date's highlight and leaves every other date unhighlighted. */
  lemma ClickFlips(selected: Option<string>, date: string, other: string)
    requires other != date
    ensures Highlighted(Click(selected, date), date) <==> !Highlighted(selected, date)
    ensures !Highlighted(Click(selected, date), other)
  {
  }

  /**
   * Clicking the same date twice restores the selection exactly when nothing
   * or that very date was selected; from another date it ends with none.
   */
  lemma ClickTwice(selected: Option<string>, date: string)
    ensures Click(Click(selected, date), date) == selected <==> selected.None? || selected == Some(date)
    ensures Click(Click(selected, date), date).None? <==> selected != Some(date)
  {
  }

  /** From "2024-01-01" selected, two clicks on "2024-01-02" leave nothing selected. */
  lemma ClickTwiceFromOtherDate()
    ensures Click(Click(Some("2024-01-01"), "2024-01-02"), "2024-01-02") == None
  {
  }

  /** A day dated "" can be highlighted, yet its details are never shown. */
  lemma EmptyDateHighlightedButHidden(plan: Plan)
    requires exists j :: 0 <= j < |plan| && plan[j].date == ""
    ensures Highlighted(Click(None, ""), "")
    ensures SelectedDayData(plan, Click(None, "")) == None
  {
  }
}
