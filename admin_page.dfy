/** The admin week calendar page: the bounds of the current week, its seven
    days, and the grouping of the fetched appointments into per-day lists. */
module AdminPage {
  import opened Ordering
  import opened Appointments

  const MsPerDay := 86400000

  /** `getDay()` of a local calendar day, counting days from Thursday
      1 January 1970 (0 = Sunday, 1 = Monday, ...). */
  function Weekday(day: int): (w: int)
    ensures 0 <= w <= 6
  {
    (day + 4) % 7
  }

  /** `(day + 6) % 7`: how many days lie between the last Monday and a day
      with weekday `day`. */
  function DiffToMonday(day: int): (d: int)
    requires 0 <= day <= 6
    ensures 0 <= d <= 6
    ensures d == 0 <==> day == 1
    ensures d == 6 <==> day == 0
    ensures (day - d) % 7 == 1
  {
    (day + 6) % 7
  }

  /** The Monday on or before a local day. */
  function MondayOf(day: int): (m: int)
    ensures m <= day <= m + 6
    ensures Weekday(m) == 1
  {
    var d := DiffToMonday(Weekday(day));
    assert (day + 4 - d) % 7 == 1 by {
      assert (day + 4) % 7 - d == (day + 4) - 7 * ((day + 4) / 7) - d;
    }
    day - d
  }

  /** A JavaScript `Date` seen in local time: a day number counted as in
      `Weekday` and the milliseconds since local midnight. */
  class LocalDate {
    var day: int
    var msOfDay: int

    ghost predicate Valid()
      reads this
    {
      0 <= msOfDay < MsPerDay
    }

    /** `new Date(other)`. */
    constructor Copy(other: LocalDate)
      requires other.Valid()
      ensures Valid()
      ensures day == other.day && msOfDay == other.msOfDay
    {
      day, msOfDay := other.day, other.msOfDay;
    }

    /** `getDay()`. */
    function GetDay(): (w: int)
      reads this
      ensures 0 <= w <= 6
    {
      Weekday(day)
    }

    /** `setHours(h, m, s, ms)`: keeps the day and sets the time of day;
        values past the end of the day roll over into the following days. */
    method SetHours(h: int, m: int, s: int, ms: int)
      modifies this
      ensures Valid()
      ensures var total := ((h * 60 + m) * 60 + s) * 1000 + ms;
        day == old(day) + total / MsPerDay && msOfDay == total % MsPerDay
    {
      var total := ((h * 60 + m) * 60 + s) * 1000 + ms;
      day := day + total / MsPerDay;
      msOfDay := total % MsPerDay;
    }

    /** `setDate(d)`, with the day of the month taken as the absolute day
        number, so that moving past a month's end needs no extra case. */
    method SetDate(d: int)
      requires Valid()
      modifies this
      ensures Valid()
      ensures day == d && msOfDay == old(msOfDay)
    {
      day := d;
    }
  }

  /** `getCurrentWeekBounds`: Monday of the current week at 00:00:00.000 and
      the Sunday six days later at 23:59:59.999. */
  method GetCurrentWeekBounds(today: LocalDate) returns (monday: LocalDate, sunday: LocalDate)
    requires today.Valid()
    ensures fresh(monday) && fresh(sunday)
    ensures monday.Valid() && sunday.Valid()
    ensures monday.day == MondayOf(today.day) && monday.msOfDay == 0
    ensures sunday.day == monday.day + 6 && sunday.msOfDay == MsPerDay - 1
    ensures monday.GetDay() == 1 && sunday.GetDay() == 0
    ensures monday.day <= today.day <= sunday.day
    ensures today.day == old(today.day) && today.msOfDay == old(today.msOfDay)
  {
    var weekday := today.GetDay();
    var diffToMonday := DiffToMonday(weekday);

    monday := new LocalDate.Copy(today);
    monday.SetHours(0, 0, 0, 0);
    monday.SetDate(today.day - diffToMonday);

    sunday := new LocalDate.Copy(monday);
    sunday.SetDate(monday.day + 6);
    sunday.SetHours(23, 59, 59, 999);
  }

  /** Local milliseconds of a day and time of day, with no daylight-saving shift. */
  function LocalMs(day: int, msOfDay: int): int {
    day * MsPerDay + msOfDay
  }

  /** The week bounds enclose the current instant. */
  lemma WeekEnclosesToday(day: int, msOfDay: int)
    requires 0 <= msOfDay < MsPerDay
    ensures LocalMs(MondayOf(day), 0) <= LocalMs(day, msOfDay) <= LocalMs(MondayOf(day) + 6, MsPerDay - 1)
    ensures LocalMs(MondayOf(day) + 6, MsPerDay - 1) - LocalMs(MondayOf(day), 0) == 7 * MsPerDay - 1
  {
    var m := MondayOf(day);
    assert LocalMs(day, msOfDay) - LocalMs(m, 0) == (day - m) * MsPerDay + msOfDay;
    assert LocalMs(m + 6, MsPerDay - 1) - LocalMs(day, msOfDay) == (m + 6 - day) * MsPerDay + MsPerDay - 1 - msOfDay;
  }

  /** `weekDays`: the seven local days from `monday` on, each at midnight,
      given by their day numbers. */
  function WeekDays(monday: int): (days: seq<int>)
    ensures |days| == 7
    ensures forall i :: 0 <= i < 7 ==> days[i] == monday + i
  {
    seq(7, i => monday + i)
  }

  /** Starting at a Monday the days run Monday to Sunday, and no day repeats. */
  lemma WeekDaysRunMondayToSunday(monday: int)
    requires Weekday(monday) == 1
    ensures forall i :: 0 <= i < 7 ==> Weekday(WeekDays(monday)[i]) == (i + 1) % 7
    ensures forall i, j :: 0 <= i < j < 7 ==> WeekDays(monday)[i] != WeekDays(monday)[j]
  {
    var days := WeekDays(monday);
    forall i | 0 <= i < 7 ensures Weekday(days[i]) == (i + 1) % 7 {
      assert (monday + 4) % 7 == 1;
      assert days[i] + 4 == 7 * ((monday + 4) / 7) + 1 + i;
    }
  }

  /** Whether an appointment starts on a given local day; `dayOf` maps an
      instant to its local day (`new Date(y, m, d)` of the start). */
  function IsOn(dayOf: int -> int, day: int): Appointment -> bool {
    (a: Appointment) => dayOf(a.startsAt) == day
  }

  /** What `appointmentsByDay` computes: one entry per week day, holding
      that day's appointments sorted by start. */
  function ByDay(appts: seq<Appointment>, dayOf: int -> int, days: seq<int>): map<int, seq<Appointment>> {
    map k | k in days :: SortBy(Filter(appts, IsOn(dayOf, k)), StartOf)
  }

  /** `appointmentsByDay`: an empty list per week day, then every appointment
      pushed onto its day's list if there is one, then every list sorted. */
  method AppointmentsByDay(weekDays: seq<int>, appts: seq<Appointment>, dayOf: int -> int)
    returns (buckets: map<int, seq<Appointment>>)
    ensures buckets == ByDay(appts, dayOf, weekDays)
  {
    buckets := EmptyBuckets(weekDays);
    buckets := PushAll(buckets, appts, dayOf);
    buckets := SortAll(buckets, weekDays);
  }

  /** The first `forEach`: `map.set(key, [])` for every week day. */
  method EmptyBuckets(weekDays: seq<int>) returns (buckets: map<int, seq<Appointment>>)
    ensures buckets.Keys == set k | k in weekDays
    ensures forall k :: k in buckets ==> buckets[k] == []
  {
    buckets := map[];
    for i := 0 to |weekDays|
      invariant buckets.Keys == set j | 0 <= j < i :: weekDays[j]
      invariant forall k :: k in buckets ==> buckets[k] == []
    {
      buckets := buckets[weekDays[i] := []];
    }
    assert (set j | 0 <= j < |weekDays| :: weekDays[j]) == set k | k in weekDays;
  }

  /** The second `forEach`: each appointment pushed onto the list of its day
      when that day is a key, and otherwise dropped. */
  method PushAll(empty: map<int, seq<Appointment>>, appts: seq<Appointment>, dayOf: int -> int)
    returns (buckets: map<int, seq<Appointment>>)
    requires forall k :: k in empty ==> empty[k] == []
    ensures buckets.Keys == empty.Keys
    ensures forall k :: k in buckets ==> buckets[k] == Filter(appts, IsOn(dayOf, k))
  {
    buckets := empty;
    for i := 0 to |appts|
      invariant buckets.Keys == empty.Keys
      invariant forall k :: k in buckets ==> buckets[k] == Filter(appts[..i], IsOn(dayOf, k))
    {
      var appt := appts[i];
      var key := dayOf(appt.startsAt);
      assert appts[..i + 1] == appts[..i] + [appt];
      forall k | k in buckets
        ensures Filter(appts[..i + 1], IsOn(dayOf, k)) ==
          Filter(appts[..i], IsOn(dayOf, k)) + (if key == k then [appt] else [])
      {
        FilterSnoc(appts[..i], appt, IsOn(dayOf, k));
      }
      if key in buckets {
        buckets := buckets[key := buckets[key] + [appt]];
      }
    }
    assert appts[..|appts|] == appts;
  }

  /** The last `forEach`: every list sorted by start time, visiting the
      keys in the order they were set. */
  method SortAll(pushed: map<int, seq<Appointment>>, keys: seq<int>) returns (buckets: map<int, seq<Appointment>>)
    requires pushed.Keys == set k | k in keys
    ensures buckets.Keys == pushed.Keys
    ensures forall k :: k in buckets ==> buckets[k] == SortBy(pushed[k], StartOf)
  {
    buckets := pushed;
    ghost var done: set<int> := {};
    for i := 0 to |keys|
      invariant buckets.Keys == pushed.Keys
      invariant done == set j | 0 <= j < i :: keys[j]
      invariant forall k :: k in buckets && k !in done ==> buckets[k] == pushed[k]
      invariant forall k :: k in buckets && k in done ==> buckets[k] == SortBy(pushed[k], StartOf)
    {
      var key := keys[i];
      var sorted := SortBy(buckets[key], StartOf);
      assert sorted == SortBy(pushed[key], StartOf) by {
        if key in done {
          SortSorted(buckets[key], StartOf);
        }
      }
      buckets := buckets[key := sorted];
      done := done + {key};
    }
    assert done == pushed.Keys;
  }

  /** Every list is in ascending start order, and an appointment is in a
      day's list exactly when it starts on that day; one whose day is not a
      week day is in no list. */
  lemma ByDayContents(appts: seq<Appointment>, dayOf: int -> int, days: seq<int>, a: Appointment)
    ensures ByDay(appts, dayOf, days).Keys == set k | k in days
    ensures forall k :: k in days ==> SortedBy(ByDay(appts, dayOf, days)[k], StartOf)
    ensures forall k :: k in days ==> (a in ByDay(appts, dayOf, days)[k] <==> a in appts && dayOf(a.startsAt) == k)
    ensures dayOf(a.startsAt) !in days ==> forall k :: k in days ==> a !in ByDay(appts, dayOf, days)[k]
  {
    forall k | k in days
      ensures a in ByDay(appts, dayOf, days)[k] <==> a in appts && dayOf(a.startsAt) == k
    {
      SortedFilterContents(appts, IsOn(dayOf, k), StartOf);
    }
  }

  /** The total length of the lists of `keys` in `buckets`. */
  function Total(buckets: map<int, seq<Appointment>>, keys: seq<int>): nat
    requires forall i :: 0 <= i < |keys| ==> keys[i] in buckets
  {
    if keys == [] then 0 else |buckets[keys[0]]| + Total(buckets, keys[1..])
  }

  /** The number of positions of `keys` holding `d`. */
  function Hits(keys: seq<int>, d: int): nat {
    if keys == [] then 0 else (if keys[0] == d then 1 else 0) + Hits(keys[1..], d)
  }

  predicate Distinct(keys: seq<int>) {
    forall i, j :: 0 <= i < j < |keys| ==> keys[i] != keys[j]
  }

  lemma {:induction false} HitsDistinct(keys: seq<int>, d: int)
    requires Distinct(keys)
    ensures Hits(keys, d) <= 1
    ensures d !in keys ==> Hits(keys, d) == 0
  {
    if keys != [] {
      HitsDistinct(keys[1..], d);
      if keys[0] == d {
        assert d !in keys[1..] by {
          forall j | 0 <= j < |keys[1..]| ensures keys[1..][j] != d {
            assert keys[1..][j] == keys[j + 1];
          }
        }
      }
    }
  }

  /** The summed lengths of the per-day filters of `s`. */
  function FilterTotal(s: seq<Appointment>, dayOf: int -> int, keys: seq<int>): nat {
    if keys == [] then 0 else |Filter(s, IsOn(dayOf, keys[0]))| + FilterTotal(s, dayOf, keys[1..])
  }

  lemma {:induction false} FilterTotalStep(s: seq<Appointment>, dayOf: int -> int, keys: seq<int>)
    requires s != []
    ensures FilterTotal(s, dayOf, keys) == FilterTotal(s[1..], dayOf, keys) + Hits(keys, dayOf(s[0].startsAt))
  {
    if keys != [] {
      FilterTotalStep(s, dayOf, keys[1..]);
    }
  }

  lemma {:induction false} FilterTotalEmpty(dayOf: int -> int, keys: seq<int>)
    ensures FilterTotal([], dayOf, keys) == 0
  {
    if keys != [] {
      FilterTotalEmpty(dayOf, keys[1..]);
    }
  }

  lemma {:induction false} FilterTotalBound(s: seq<Appointment>, dayOf: int -> int, keys: seq<int>)
    requires Distinct(keys)
    ensures FilterTotal(s, dayOf, keys) <= |s|
  {
    if s != [] {
      FilterTotalStep(s, dayOf, keys);
      HitsDistinct(keys, dayOf(s[0].startsAt));
      FilterTotalBound(s[1..], dayOf, keys);
      assert |s[1..]| == |s| - 1;
    } else {
      FilterTotalEmpty(dayOf, keys);
    }
  }

  lemma {:induction false} TotalOfByDay(appts: seq<Appointment>, dayOf: int -> int, days: seq<int>, keys: seq<int>)
    requires forall i :: 0 <= i < |keys| ==> keys[i] in days
    ensures Total(ByDay(appts, dayOf, days), keys) == FilterTotal(appts, dayOf, keys)
  {
    if keys != [] {
      TotalOfByDay(appts, dayOf, days, keys[1..]);
    }
  }

  /** For distinct week days the list lengths sum to at most the number of
      appointments: none is counted twice. */
  lemma BucketsTotalAtMostInput(appts: seq<Appointment>, dayOf: int -> int, days: seq<int>)
    requires Distinct(days)
    ensures Total(ByDay(appts, dayOf, days), days) <= |appts|
  {
    TotalOfByDay(appts, dayOf, days, days);
    FilterTotalBound(appts, dayOf, days);
  }
}
