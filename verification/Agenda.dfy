/** The weekly agenda view: a selected date and category, week navigation,
    and the meetings of the displayed week grouped by day. Dates are day
    numbers counted from 1970-01-01 (a Thursday); `today` is the current
    day number, supplied by the caller. */
module AgendaView {
  import opened Common

  const DaysPerWeek := 7

  /** 0 for Monday … 6 for Sunday. */
  function Weekday(d: int): (r: int)
    ensures 0 <= r < DaysPerWeek
  {
    (d + 3) % DaysPerWeek
  }

  /** `startOfWeek(MONDAY)`. */
  function StartOfWeek(d: int): (r: int)
    ensures Weekday(r) == 0
    ensures r <= d < r + DaysPerWeek
  {
    d - Weekday(d)
  }

  /** `range(0, 6)` mapped onto the days from the Monday of `d`'s week. */
  function WeekOf(d: int): (r: seq<int>)
    ensures |r| == DaysPerWeek
    ensures r[0] == StartOfWeek(d) && Weekday(r[0]) == 0
    ensures forall i :: 0 <= i < DaysPerWeek - 1 ==> r[i + 1] == r[i] + 1
    ensures d in r
  {
    var monday := StartOfWeek(d);
    var r := seq(DaysPerWeek, i requires 0 <= i < DaysPerWeek => monday + i);
    assert r[d - monday] == d;
    r
  }

  /** The displayed week is exactly the days from its Monday to its Sunday. */
  lemma InWeekIffInRange(d: int, day: int)
    ensures day in WeekOf(d) <==> WeekOf(d)[0] <= day <= WeekOf(d)[DaysPerWeek - 1]
  {
    var w := WeekOf(d);
    assert forall i :: 0 <= i < DaysPerWeek ==> w[i] == w[0] + i;
    if w[0] <= day <= w[DaysPerWeek - 1] {
      assert w[day - w[0]] == day;
    }
  }

  /** Every day of a displayed week has that same week. */
  lemma {:induction false} WeekOfIsStable(d: int, i: int)
    requires 0 <= i < DaysPerWeek
    ensures WeekOf(WeekOf(d)[i]) == WeekOf(d)
  {
    var monday := StartOfWeek(d);
    assert WeekOf(d)[i] == monday + i;
    assert StartOfWeek(monday + i) == monday;
  }

  /** Moving the anchor by a week moves every displayed day by seven. */
  lemma WeekShift(d: int)
    ensures forall i :: 0 <= i < DaysPerWeek ==> WeekOf(d + DaysPerWeek)[i] == WeekOf(d)[i] + DaysPerWeek
  {
    assert StartOfWeek(d + DaysPerWeek) == StartOfWeek(d) + DaysPerWeek;
  }

  /** The component's public properties. */
  datatype AgendaState = AgendaState(selectedDate: Option<int>, selectedCategory: Option<string>)

  /** `currentDate`: the selected day, else today. */
  function CurrentDate(s: AgendaState, today: int): int {
    s.selectedDate.GetOr(today)
  }

  /** `normalizeDate`: today for an empty or unparsable value, else the date
      part of the parsed value. `parse` gives that day, or None when the
      value does not parse. */
  function NormalizeDate(value: Option<string>, today: int, parse: string -> Option<int>): (r: int)
    ensures Falsy(value) ==> r == today
    ensures !Falsy(value) && parse(value.value).None? ==> r == today
    ensures !Falsy(value) && parse(value.value).Some? ==> r == parse(value.value).value
  {
    if Falsy(value) then today
    else match parse(value.value)
      case None => today
      case Some(day) => day
  }

  function WeekBefore(s: AgendaState, today: int): (r: AgendaState)
    ensures r.selectedDate == Some(CurrentDate(s, today) - DaysPerWeek)
    ensures r.selectedCategory == s.selectedCategory
  {
    s.(selectedDate := Some(CurrentDate(s, today) - DaysPerWeek))
  }

  function WeekAfter(s: AgendaState, today: int): (r: AgendaState)
    ensures r.selectedDate == Some(CurrentDate(s, today) + DaysPerWeek)
    ensures r.selectedCategory == s.selectedCategory
  {
    s.(selectedDate := Some(CurrentDate(s, today) + DaysPerWeek))
  }

  /** `nextWeek` undoes `previousWeek` (and vice versa); an unset date comes
      back as today. */
  lemma NextUndoesPrevious(s: AgendaState, today: int)
    ensures WeekAfter(WeekBefore(s, today), today) == s.(selectedDate := Some(CurrentDate(s, today)))
    ensures WeekBefore(WeekAfter(s, today), today) == s.(selectedDate := Some(CurrentDate(s, today)))
  {
  }

  /** Navigation shifts the whole displayed week. */
  lemma NavigationShiftsDisplayedWeek(s: AgendaState, today: int)
    ensures forall i :: 0 <= i < DaysPerWeek ==>
      WeekOf(CurrentDate(WeekAfter(s, today), today))[i] == WeekOf(CurrentDate(s, today))[i] + DaysPerWeek
    ensures forall i :: 0 <= i < DaysPerWeek ==>
      WeekOf(CurrentDate(WeekBefore(s, today), today))[i] == WeekOf(CurrentDate(s, today))[i] - DaysPerWeek
  {
    WeekShift(CurrentDate(s, today));
    WeekShift(CurrentDate(s, today) - DaysPerWeek);
  }

  /** `updatedSelectedCategory`: `$value ?: null`. */
  function CategoryFilter(value: Option<string>): (r: Option<string>)
    ensures r.None? <==> Falsy(value)
    ensures r.Some? ==> r == value
  {
    if Falsy(value) then None else value
  }

  /** `isFiltered`: a filled category, or a selected date other than today. */
  predicate IsFiltered(s: AgendaState, today: int) {
    !BlankOpt(s.selectedCategory) || s.selectedDate != Some(today)
  }

  lemma GoToTodayClearsDateFilter(s: AgendaState, today: int)
    ensures IsFiltered(s.(selectedDate := Some(today)), today) <==> !BlankOpt(s.selectedCategory)
  {
  }

  /** A meeting as the agenda query sees it. */
  datatype Entry = Entry(date: Option<int>, category: Option<string>, startTime: int)

  /** The query's filter: dated within [first, last] and, when a category
      is selected (truthy), in that category. */
  predicate Shown(e: Entry, first: int, last: int, category: Option<string>) {
    e.date.Some? && first <= e.date.value <= last
    && (Falsy(category) || e.category == category)
  }

  function ShownEntries(entries: seq<Entry>, first: int, last: int, category: Option<string>): (r: seq<Entry>)
    ensures forall e :: e in r <==> e in entries && Shown(e, first, last, category)
    ensures forall e :: multiset(r)[e] == if Shown(e, first, last, category) then multiset(entries)[e] else 0
  {
    if entries == [] then []
    else
      var rest := ShownEntries(entries[1..], first, last, category);
      assert entries == [entries[0]] + entries[1..];
      assert multiset(entries) == multiset{entries[0]} + multiset(entries[1..]);
      assert forall e :: e in entries <==> e == entries[0] || e in entries[1..];
      if Shown(entries[0], first, last, category) then
        assert multiset([entries[0]] + rest) == multiset{entries[0]} + multiset(rest);
        [entries[0]] + rest
      else rest
  }

  /** The entries dated `day`, in order. */
  function OnDay(entries: seq<Entry>, day: int): (r: seq<Entry>)
    ensures forall e :: e in r <==> e in entries && e.date == Some(day)
    ensures forall e :: multiset(r)[e] == if e.date == Some(day) then multiset(entries)[e] else 0
  {
    if entries == [] then []
    else
      var rest := OnDay(entries[1..], day);
      assert entries == [entries[0]] + entries[1..];
      assert multiset(entries) == multiset{entries[0]} + multiset(entries[1..]);
      assert forall e :: e in entries <==> e == entries[0] || e in entries[1..];
      if entries[0].date == Some(day) then
        assert multiset([entries[0]] + rest) == multiset{entries[0]} + multiset(rest);
        [entries[0]] + rest
      else rest
  }

  /** `calendar`: the shown entries of the displayed week, grouped by day. */
  function Calendar(s: AgendaState, today: int, entries: seq<Entry>): (r: map<int, seq<Entry>>)
    ensures var days := WeekOf(CurrentDate(s, today));
      forall d :: d in r ==> days[0] <= d <= days[DaysPerWeek - 1] && r[d] != []
    ensures forall d, e :: d in r && e in r[d] ==>
      e in entries && e.date == Some(d) && (Falsy(s.selectedCategory) || e.category == s.selectedCategory)
    ensures var days := WeekOf(CurrentDate(s, today));
      forall e :: e in entries && Shown(e, days[0], days[DaysPerWeek - 1], s.selectedCategory) ==>
        e.date.value in r && e in r[e.date.value]
    ensures var days := WeekOf(CurrentDate(s, today));
      forall d, e :: d in r ==>
        multiset(r[d])[e] ==
          if e.date == Some(d) && Shown(e, days[0], days[DaysPerWeek - 1], s.selectedCategory)
          then multiset(entries)[e] else 0
  {
    var days := WeekOf(CurrentDate(s, today));
    var shown := ShownEntries(entries, days[0], days[DaysPerWeek - 1], s.selectedCategory);
    var r := map e | e in shown :: e.date.value := OnDay(shown, e.date.value);
    assert forall d :: d in r ==> exists e :: e in shown && e.date == Some(d);
    r
  }

  /** `meetingsFor`: a day's group, or nothing. */
  function MeetingsFor(calendar: map<int, seq<Entry>>, day: int): (r: seq<Entry>)
    ensures day !in calendar ==> r == []
    ensures day in calendar ==> r == calendar[day]
  {
    if day in calendar then calendar[day] else []
  }

  /** A day outside the displayed week has no meetings. */
  lemma NoMeetingsOutsideWeek(s: AgendaState, today: int, entries: seq<Entry>, day: int)
    requires day !in WeekOf(CurrentDate(s, today))
    ensures MeetingsFor(Calendar(s, today, entries), day) == []
  {
    InWeekIffInRange(CurrentDate(s, today), day);
  }

  // ---------------------------------------------------------------------
  // The component

  class Agenda {
    var selectedDate: Option<int>
    var selectedCategory: Option<string>

    function AsState(): AgendaState
      reads this
    {
      AgendaState(selectedDate, selectedCategory)
    }

    constructor ()
      ensures AsState() == AgendaState(None, None)
    {
      selectedDate := None;
      selectedCategory := None;
    }

    /** `mount`: `selectedDate ??= today`. */
    method Mount(today: int)
      modifies this
      ensures AsState() == old(AsState()).(selectedDate := Some(CurrentDate(old(AsState()), today)))
    {
      if selectedDate.None? {
        selectedDate := Some(today);
      }
    }

    method UpdatedSelectedDate(value: Option<string>, today: int, parse: string -> Option<int>)
      modifies this
      ensures AsState() == old(AsState()).(selectedDate := Some(NormalizeDate(value, today, parse)))
    {
      selectedDate := Some(NormalizeDate(value, today, parse));
    }

    method UpdatedSelectedCategory(value: Option<string>)
      modifies this
      ensures AsState() == old(AsState()).(selectedCategory := CategoryFilter(value))
    {
      selectedCategory := CategoryFilter(value);
    }

    method PreviousWeek(today: int)
      modifies this
      ensures AsState() == WeekBefore(old(AsState()), today)
    {
      selectedDate := Some(CurrentDate(AsState(), today) - DaysPerWeek);
    }

    method NextWeek(today: int)
      modifies this
      ensures AsState() == WeekAfter(old(AsState()), today)
    {
      selectedDate := Some(CurrentDate(AsState(), today) + DaysPerWeek);
    }

    method GoToToday(today: int)
      modifies this
      ensures AsState() == old(AsState()).(selectedDate := Some(today))
    {
      selectedDate := Some(today);
    }

    /** `displayedDays`, read from the component. */
    method DisplayedDays(today: int) returns (days: seq<int>)
      ensures |days| == DaysPerWeek && Weekday(days[0]) == 0
      ensures CurrentDate(AsState(), today) in days
      ensures forall i :: 0 <= i < DaysPerWeek - 1 ==> days[i + 1] == days[i] + 1
    {
      days := WeekOf(CurrentDate(AsState(), today));
    }
  }
}
