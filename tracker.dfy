/** The application state the achievement rules run against: the date input
    widget, whose day range follows the month shown, and the sleep log, which
    grows by one record for each night added. */
module Tracker {
  import opened Wrappers
  import opened Calendar
  import opened Achievements

  /** What a spin box does with a value outside its range. */
  function Clamp(v: int, lo: int, hi: int): (r: int)
    requires lo <= hi
    ensures lo <= r <= hi
    ensures lo <= v <= hi ==> r == v
    ensures v < lo ==> r == lo
    ensures v > hi ==> r == hi
  {
    if v < lo then lo else if v > hi then hi else v
  }

  /** A count kept in a dictionary, zero for a missing key. */
  function CountOf(counts: map<Achievement, nat>, a: Achievement): nat {
    if a in counts then counts[a] else 0
  }

  /** The inner loop of the count: one more for each name, a missing name
      starting from zero. */
  method CountNames(counts: map<Achievement, nat>, names: seq<Achievement>) returns (result: map<Achievement, nat>)
    ensures forall a :: a in result <==> a in counts || a in names
    ensures forall a :: CountOf(result, a) == CountOf(counts, a) + multiset(names)[a]
  {
    result := counts;
    var j := 0;
    while j < |names|
      invariant 0 <= j <= |names|
      invariant forall a :: a in result <==> a in counts || a in names[..j]
      invariant forall a :: CountOf(result, a) == CountOf(counts, a) + multiset(names[..j])[a]
    {
      var name := names[j];
      assert names[..j + 1] == names[..j] + [name];
      result := result[name := CountOf(result, name) + 1];
      j := j + 1;
    }
    assert names[..j] == names;
  }

  /** The date input: a year spin box (2000–2100), a month spin box (1–12) and
      a day spin box whose range is 1–maxDay. */
  class DateInput {
    var year: int
    var month: int
    var day: int
    var maxDay: int

    ghost predicate Valid()
      reads this
    {
      FirstYear <= year <= LastYear && 1 <= month <= 12 && 28 <= maxDay <= 31 && 1 <= day <= maxDay
    }

    /** The day range is the length of the month shown. */
    ghost predicate InStep()
      reads this
    {
      Valid() && maxDay == DaysInMonth(year, month)
    }

    /** The date the three spin boxes show. */
    function SelectedDate(): (d: Date)
      reads this
      ensures InStep() ==> IsCalendarDate(d)
    {
      Date(year, month, day)
    }

    /** The widget as the source builds it: the day range starts at 1–31
        whatever the month, and nothing fits it until the year or the month
        changes. */
    constructor AsWritten(today: Date)
      ensures Valid() && maxDay == 31
      ensures year == Clamp(today.year, FirstYear, LastYear) && month == Clamp(today.month, 1, 12)
      ensures day == Clamp(today.day, 1, 31)
    {
      year := Clamp(today.year, FirstYear, LastYear);
      month := Clamp(today.month, 1, 12);
      maxDay := 31;
      day := Clamp(today.day, 1, 31);
    }

    /** The widget with its day range fitted to the starting month at once. */
    constructor (today: Date)
      ensures InStep()
      ensures year == Clamp(today.year, FirstYear, LastYear) && month == Clamp(today.month, 1, 12)
      ensures day == Clamp(today.day, 1, maxDay)
    {
      year := Clamp(today.year, FirstYear, LastYear);
      month := Clamp(today.month, 1, 12);
      maxDay := 31;
      day := Clamp(today.day, 1, 31);
      new;
      UpdateDays();
    }

    /** Fits the day range to the month shown; a day past the month's end
        becomes its last day, any other day is kept. */
    method UpdateDays()
      requires Valid()
      modifies this`day, this`maxDay
      ensures InStep()
      ensures 1 <= day <= DaysInMonth(year, month)
      ensures old(day) <= maxDay ==> day == old(day)
      ensures old(day) > maxDay ==> day == maxDay
    {
      var daysInMonth := DaysInMonth(year, month);
      maxDay := daysInMonth;
      if day > daysInMonth {
        day := daysInMonth;
      }
    }

    /** The year spin box takes a value; a change of value refits the day range. */
    method SetYear(v: int)
      requires Valid()
      modifies this`year, this`day, this`maxDay
      ensures Valid() && year == Clamp(v, FirstYear, LastYear)
      ensures year != old(year) ==> InStep() && day == Clamp(old(day), 1, maxDay)
      ensures year == old(year) ==> day == old(day) && maxDay == old(maxDay)
      ensures old(InStep()) ==> InStep()
    {
      var previous := year;
      year := Clamp(v, FirstYear, LastYear);
      if year != previous {
        UpdateDays();
      }
    }

    /** The month spin box takes a value; a change of value refits the day range. */
    method SetMonth(v: int)
      requires Valid()
      modifies this`month, this`day, this`maxDay
      ensures Valid() && month == Clamp(v, 1, 12)
      ensures month != old(month) ==> InStep() && day == Clamp(old(day), 1, maxDay)
      ensures month == old(month) ==> day == old(day) && maxDay == old(maxDay)
      ensures old(InStep()) ==> InStep()
    {
      var previous := month;
      month := Clamp(v, 1, 12);
      if month != previous {
        UpdateDays();
      }
    }

    /** The day spin box takes a value, within its current range. */
    method SetDay(v: int)
      requires Valid()
      modifies this`day
      ensures Valid() && day == Clamp(v, 1, maxDay)
      ensures old(InStep()) ==> InStep()
    {
      day := Clamp(v, 1, maxDay);
    }

    /** Year, then month, then day, each through its spin box. */
    method SetDate(d: Date)
      requires Valid()
      modifies this
      ensures Valid()
      ensures year == Clamp(d.year, FirstYear, LastYear) && month == Clamp(d.month, 1, 12)
      ensures day == Clamp(d.day, 1, maxDay)
      ensures year == old(year) && month == old(month) ==> maxDay == old(maxDay)
      ensures year != old(year) || month != old(month) ==> InStep()
      ensures old(InStep()) ==> InStep()
    {
      SetYear(d.year);
      SetMonth(d.month);
      SetDay(d.day);
    }
  }

  /** As the source builds the widget, one opened on 2025-02-10 offers day 30
      of February. */
  method StaleDayRange() returns (w: DateInput)
    ensures w.Valid() && w.SelectedDate() == Date(2025, 2, 30)
    ensures !IsCalendarDate(w.SelectedDate())
  {
    var today := Date(2025, 2, 10);
    w := new DateInput.AsWritten(today);
    w.SetDate(today);
    w.SetDay(30);
  }

  /** As the source opens the window, a night entered on 2025-02-10 with the
      day box moved to 30 fails at the conversion of 2025-02-30 and is not
      logged. */
  method StaleDateLogsNothing(loaded: seq<Record>) returns (r: Result<seq<Achievement>, Error>, logged: seq<Record>)
    ensures r == Failure(InvalidDate(Date(2025, 2, 30)))
    ensures logged == loaded
  {
    var tracker := new SleepTracker(loaded, Date(2025, 2, 10));
    tracker.dateEdit.SetDay(30);
    r := tracker.AddRecord(OneAm, EightAm, "");
    logged := tracker.sleepData;
  }

  /** The regular-schedule loop: walks i from `start` over the pairs
      (h[i], h[i+1]) and stops with `false` at the first pair more than an hour
      apart; at i = |h| - 1 the read of h[|h|] fails. The loop form of
      `RegularScan`. */
  method ScanRegular(h: seq<Record>, start: nat) returns (r: Result<bool, Error>)
    requires start <= |h|
    ensures r == RegularScan(h, start)
  {
    var regular := true;
    var i := start;
    while i < |h|
      invariant start <= i <= |h|
      invariant i > start ==> i < |h|
      invariant regular
      invariant forall k :: start <= k < i ==> Gap(h[k].sleep, h[k + 1].sleep) <= RegularWindow
    {
      if i + 1 == |h| {
        return Failure(IndexOutOfRange(i + 1));
      }
      if Gap(h[i].sleep, h[i + 1].sleep) > RegularWindow {
        regular := false;
        break;
      }
      i := i + 1;
    }
    if !regular {
      assert i + 1 < |h| && Gap(h[i].sleep, h[i + 1].sleep) > RegularWindow;
    }
    return Success(regular);
  }

  /** The rules on today alone, from the bedtime tiers to the weekend rule;
      the method form of `TodayRules`. */
  method CheckTodayRules(today: Night, weekday: Weekday) returns (r: Result<seq<Achievement>, Error>)
    ensures r == TodayRules(today, weekday)
  {
    var achieved: seq<Achievement> := [];
    if today.sleep < Midnight {
      if SuperEarlySleep !in Table { return Failure(MissingKey(SuperEarlySleep)); }
      achieved := achieved + [SuperEarlySleep];
    } else if today.sleep < OneAm {
      if EarlySleep !in Table { return Failure(MissingKey(EarlySleep)); }
      achieved := achieved + [EarlySleep];
    }
    if today.wake < SevenAm {
      if SuperEarlyWake !in Table { return Failure(MissingKey(SuperEarlyWake)); }
      achieved := achieved + [SuperEarlyWake];
    } else if today.wake < EightAm {
      if EarlyWake !in Table { return Failure(MissingKey(EarlyWake)); }
      achieved := achieved + [EarlyWake];
    }
    if today.duration >= SevenHours {
      if EnoughSleep !in Table { return Failure(MissingKey(EnoughSleep)); }
      achieved := achieved + [EnoughSleep];
    }
    if today.duration >= NineHours {
      if LongSleep !in Table { return Failure(MissingKey(LongSleep)); }
      achieved := achieved + [LongSleep];
    }
    if TenPm <= today.sleep <= ElevenPm {
      if GoldenSleep !in Table { return Failure(MissingKey(GoldenSleep)); }
      achieved := achieved + [GoldenSleep];
    }
    if weekday >= Saturday {
      if today.wake < NineAm {
        if WeekendEarlyRise !in Table { return Failure(MissingKey(WeekendEarlyRise)); }
        achieved := achieved + [WeekendEarlyRise];
      }
    }
    r := Success(achieved);
  }

  /** The seven-day rules, on a log of at least six nights; the method form of
      `WeekStreaks`. */
  method CheckWeekStreaks(acc: seq<Achievement>, today: Night, timeDiff: nat, h: seq<Record>)
    returns (r: Result<seq<Achievement>, Error>)
    requires |h| >= 6
    ensures r == WeekStreaks(acc, today, timeDiff, h)
  {
    var achieved := acc;
    if LastSleepBefore(h, 6, OneAm) && today.sleep < OneAm {
      if EarlySleepWeek !in Table { return Failure(MissingKey(EarlySleepWeek)); }
      achieved := achieved + [EarlySleepWeek];
    }
    if LastWakeBefore(h, 6, SevenAm) && today.wake < SevenAm {
      if EarlyWakeWeek !in Table { return Failure(MissingKey(EarlyWakeWeek)); }
      achieved := achieved + [EarlyWakeWeek];
    }
    var regular :- ScanRegular(h, |h| - 6);
    if regular && timeDiff <= RegularWindow {
      if ScheduleMaster !in Table { return Failure(MissingKey(ScheduleMaster)); }
      achieved := achieved + [ScheduleMaster];
    }
    r := Success(achieved);
  }

  /** The three-day rules, on a log of at least two nights; the method form of
      `TripleStreaks`. */
  method CheckTripleStreaks(acc: seq<Achievement>, today: Night, timeDiff: nat, h: seq<Record>)
    returns (r: Result<seq<Achievement>, Error>)
    requires |h| >= 2
    ensures r == TripleStreaks(acc, today, timeDiff, h)
  {
    var achieved := acc;
    if LastSleepBefore(h, 2, OneAm) && today.sleep < OneAm {
      if EarlySleepTriple !in Table { return Failure(MissingKey(EarlySleepTriple)); }
      achieved := achieved + [EarlySleepTriple];
    }
    if LastWakeBefore(h, 2, EightAm) && today.wake < EightAm {
      if EarlyWakeTriple !in Table { return Failure(MissingKey(EarlyWakeTriple)); }
      achieved := achieved + [EarlyWakeTriple];
    }
    var regular :- ScanRegular(h, |h| - 2);
    if regular && timeDiff <= RegularWindow {
      if RegularTriple !in Table { return Failure(MissingKey(RegularTriple)); }
      achieved := achieved + [RegularTriple];
    }
    if LastSleptAtLeast(h, 2, SevenHours) && today.duration >= SevenHours {
      if EnoughSleepTriple !in Table { return Failure(MissingKey(EnoughSleepTriple)); }
      achieved := achieved + [EnoughSleepTriple];
    }
    r := Success(achieved);
  }

  /** The seven-day rules from six logged nights on, then the three-day rules
      from two on; the method form of `Streaks`. */
  method CheckStreaks(acc: seq<Achievement>, today: Night, timeDiff: nat, h: seq<Record>)
    returns (r: Result<seq<Achievement>, Error>)
    ensures r == Streaks(acc, today, timeDiff, h)
  {
    var achieved := acc;
    if |h| >= 6 {
      achieved :- CheckWeekStreaks(achieved, today, timeDiff, h);
    }
    if |h| >= 2 {
      achieved :- CheckTripleStreaks(achieved, today, timeDiff, h);
    }
    r := Success(achieved);
  }

  class SleepTracker {
    /** The log, oldest night first. */
    var sleepData: seq<Record>
    const dateEdit: DateInput

    ghost predicate Valid()
      reads this, dateEdit
    {
      dateEdit.Valid()
    }

    /** The window as the source opens it: the date input is built with a day
        range of 1–31 and then set to today, which changes neither year nor
        month and so fits nothing. `loaded` is the log read from storage. */
    constructor (loaded: seq<Record>, today: Date)
      ensures Valid() && fresh(dateEdit) && sleepData == loaded
      ensures dateEdit.year == Clamp(today.year, FirstYear, LastYear)
      ensures dateEdit.month == Clamp(today.month, 1, 12)
      ensures dateEdit.maxDay == 31 && dateEdit.day == Clamp(today.day, 1, 31)
    {
      sleepData := loaded;
      dateEdit := new DateInput.AsWritten(today);
      new;
      dateEdit.SetDate(today);
    }

    /** The window with the corrected date input, whose day range fits the
        starting month. */
    constructor Fitted(loaded: seq<Record>, today: Date)
      ensures Valid() && fresh(dateEdit) && sleepData == loaded
      ensures dateEdit.InStep()
      ensures dateEdit.year == Clamp(today.year, FirstYear, LastYear)
      ensures dateEdit.month == Clamp(today.month, 1, 12)
      ensures dateEdit.day == Clamp(today.day, 1, dateEdit.maxDay)
    {
      sleepData := loaded;
      dateEdit := new DateInput(today);
      new;
      dateEdit.SetDate(today);
    }

    /** The achievements of a night, appended in rule order, checked against
        the log and the weekday of the selected date; a selected date that does
        not exist fails at its conversion, before any rule. Proved equal to
        `DailyAchievements`. */
    method CheckDailyAchievements(sleep: Clock, wake: Clock, duration: nat) returns (r: Result<seq<Achievement>, Error>)
      requires Valid()
      ensures !IsCalendarDate(dateEdit.SelectedDate()) ==> r == Failure(InvalidDate(dateEdit.SelectedDate()))
      ensures IsCalendarDate(dateEdit.SelectedDate()) ==>
        r == DailyAchievements(Night(sleep, wake, duration), WeekdayOf(dateEdit.SelectedDate()), sleepData)
    {
      var date := dateEdit.SelectedDate();
      if !IsCalendarDate(date) {
        return Failure(InvalidDate(date));
      }
      var today := Night(sleep, wake, duration);
      var achieved :- CheckTodayRules(today, WeekdayOf(date));
      var n := |sleepData|;
      if n > 0 {
        var timeDiff := Gap(sleep, sleepData[n - 1].sleep);
        if timeDiff <= RegularWindow {
          if RegularSchedule !in Table { return Failure(MissingKey(RegularSchedule)); }
          achieved := achieved + [RegularSchedule];
        }
        achieved :- CheckStreaks(achieved, today, timeDiff, sleepData);
      }
      r := Success(achieved);
    }

    /** Logs a night: its length, its achievements and the record appended to
        the log. A date that does not exist, or a failed evaluation, leaves
        the log as it was. */
    method AddRecord(sleep: Clock, wake: Clock, note: string) returns (r: Result<seq<Achievement>, Error>)
      requires Valid()
      modifies this`sleepData
      ensures Valid()
      ensures !IsCalendarDate(dateEdit.SelectedDate()) ==> r == Failure(InvalidDate(dateEdit.SelectedDate()))
      ensures IsCalendarDate(dateEdit.SelectedDate()) ==>
        r == DailyAchievements(Night(sleep, wake, SleepDuration(sleep, wake)),
                               WeekdayOf(dateEdit.SelectedDate()), old(sleepData))
      ensures r.Success? ==>
        sleepData == old(sleepData) + [Record(dateEdit.SelectedDate(), sleep, wake, SleepDuration(sleep, wake), r.value, note)]
      ensures r.Failure? ==> sleepData == old(sleepData)
      ensures old(LastPairRegular(sleepData)) ==> r.Failure? && sleepData == old(sleepData)
      ensures old(HistoryShape(sleepData)) ==> HistoryShape(sleepData)
      ensures old(FreeOfUnattainable(sleepData)) ==> FreeOfUnattainable(sleepData)
    {
      var date := dateEdit.SelectedDate();
      if !IsCalendarDate(date) {
        return Failure(InvalidDate(date));
      }
      var duration := SleepDuration(sleep, wake);
      var achieved :- CheckDailyAchievements(sleep, wake, duration);
      ghost var today := Night(sleep, wake, duration);
      ghost var weekday := WeekdayOf(date);
      var record := Record(date, sleep, wake, duration, achieved, note);
      if HistoryShape(sleepData) {
        AppendKeepsShape(today, weekday, sleepData, record);
      }
      DailyAchievementsOutcome(today, weekday, sleepData);
      UnattainableRule(today, weekday, sleepData);
      sleepData := sleepData + [record];
      r := Success(achieved);
    }

    /** How many times each achievement appears in the log. */
    method ViewAchievements() returns (counts: map<Achievement, nat>)
      ensures forall a :: a in counts <==> a in AllAwarded(sleepData)
      ensures forall a :: CountOf(counts, a) == multiset(AllAwarded(sleepData))[a]
      ensures FreeOfUnattainable(sleepData) ==> forall a :: Unattainable(a) ==> a !in counts
    {
      counts := map[];
      var i := 0;
      while i < |sleepData|
        invariant 0 <= i <= |sleepData|
        invariant forall a :: a in counts <==> a in AllAwarded(sleepData[..i])
        invariant forall a :: CountOf(counts, a) == multiset(AllAwarded(sleepData[..i]))[a]
      {
        assert sleepData[..i + 1][..i] == sleepData[..i];
        assert AllAwarded(sleepData[..i + 1]) == AllAwarded(sleepData[..i]) + sleepData[i].achievements;
        counts := CountNames(counts, sleepData[i].achievements);
        i := i + 1;
      }
      assert sleepData[..i] == sleepData;
      if FreeOfUnattainable(sleepData) {
        forall a | Unattainable(a)
          ensures a !in counts
        {
          UnattainableNeverCounted(sleepData, a);
        }
      }
    }
  }
}
