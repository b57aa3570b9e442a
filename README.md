# Sleep log achievement rules

A model of the rule engine inside `Life/sleepRecord.py`, a desktop sleep log.
For each night the user enters a date, a bedtime and a wake time. The
application then does four things:

- it works out how long the night lasted;
- it evaluates the daily achievements against the nights already logged;
- it appends the night to its log;
- on request, it counts how often each achievement appears in the log.

The date is entered through three spin boxes. The day box's range follows the
month shown after every change of year or month, but not on opening: the window
opens with a day range of 1–31 whatever the month (see Findings).

Three modules hold the model:

- `Calendar` (`calendar.dfy`): Gregorian month lengths and a day count from
  2000-01-01. The weekday rule reads the weekday from that count, numbered
  from Monday = 0 to Sunday = 6.
- `Achievements` (`achievements.dfy`): the achievements and their table, the
  night length, and the evaluation as a function (`DailyAchievements`).
  The evaluation does a table lookup for every append, and its history scans
  read one past the end, so it returns `Result` with two errors:
  `MissingKey` (a failed lookup) and `IndexOutOfRange` (the read past the end).
  Beside it is a reference description of the outcome (`TodayBadges`,
  `HistoryBadges`), plus one lemma per rule.
- `Tracker` (`tracker.dfy`): the state that changes in place.
  - The class `DateInput` models the three spin boxes: `AsWritten` builds them
    as the source does, the unnamed constructor builds the corrected widget.
  - The class `SleepTracker` holds the log (`sleepData`) and the date input.
    Its unnamed constructor opens the window as the source does; `Fitted`
    opens it with the corrected widget. A selected date that does not exist
    (2025-02-30) makes `AddRecord` fail with `InvalidDate` and log nothing.
  - Methods build the achievement list by appending, and scan for a regular
    schedule with a loop that breaks out on a flag. Each method is proved
    equal to the function it implements.
  - `AddRecord` appends to the log and `ViewAchievements` counts into a map.

Clock times are minutes since midnight (`Clock`, 0–1439). Durations are
minutes. The source compares `datetime.time` values, timedeltas and, at lines
418 and 421, float hours (`total_seconds() / 3600`). Every time it handles is a
whole minute, so each of those comparisons agrees with the comparison of minute
counts the model makes.

What the code as written does, all proved below:

- A bedtime from 22:00 to 23:00 inclusive always fails. The rule for 黄金睡眠
  looks up a name the achievement table does not contain. The form's default
  bedtime of 23:00 falls in that window.
- The regular-schedule loops walk the pairs of consecutive logged nights up to
  index |h| - 1 and then read `sleep_data[len]`. They stop early only at a pair
  of bedtimes more than an hour apart. So a history of two or more nights whose
  last two bedtimes are within an hour always fails.
- 作息达人, 规律三连 and 超级早睡 are never awarded. Neither is 黄金睡眠.
- 早起周 uses 07:00 for all seven days, although its table description says 8:00.

## Model

| member | source | states |
|---|---|---|
| Achievements.SleepDuration | Life/sleepRecord.py:376-380 | The night length is under a day, takes the bedtime to the wake time modulo a day, and crosses midnight exactly when the wake time is earlier than the bedtime. |
| Achievements.SleepDurationUnique | Life/sleepRecord.py:376-380 | Any length under a day that leads from bedtime to wake time is the computed one; the length is zero exactly when the two times are equal. |
| Achievements.TableKeys | Life/sleepRecord.py:217-233 | The achievement table knows every achievement except 黄金睡眠. |
| Achievements.RegularScanNeverCompletes | Life/sleepRecord.py:464-470 | A regular-schedule scan that starts inside the history either breaks at a pair more than an hour apart or reads past the end; it never finishes with the flag still set. |
| Achievements.WeekScanWhenLastPairApart | Life/sleepRecord.py:464-470 | When the last two logged bedtimes are more than an hour apart, the seven-day scan ends with the flag cleared. |
| Achievements.TripleScan | Life/sleepRecord.py:498-504 | The three-day scan fails on the read past the end exactly when the last two logged bedtimes are within an hour, and otherwise ends with the flag cleared. |
| Achievements.TodayRulesOutcome | Life/sleepRecord.py:407-431 | The rules on today alone fail with the missing 黄金睡眠 key exactly for a bedtime in 22:00–23:00, and otherwise return today's achievements in rule order. |
| Achievements.WeekStreaksOutcome | Life/sleepRecord.py:442-473 | The seven-day rules append 早睡周 and 早起周 by their conditions, or fail on the read past the end; they never fail when the last pair is more than an hour apart. |
| Achievements.TripleStreaksOutcome | Life/sleepRecord.py:476-516 | The three-day rules fail exactly when the last two logged bedtimes are within an hour, and otherwise append 早睡三连, 早起三连 and 充足睡眠三连 by their conditions. |
| Achievements.StreaksOutcome | Life/sleepRecord.py:442-516 | The seven-day then the three-day rules fail exactly when the last logged pair is within an hour, and otherwise append the streak achievements. |
| Achievements.HistoryRulesOutcome | Life/sleepRecord.py:434-516 | The rules that compare with the log add nothing for an empty log, fail exactly when the last logged pair is within an hour, and otherwise append 作息规律 and the streak achievements. |
| Achievements.DailyAchievementsOutcome | Life/sleepRecord.py:401-518 | The whole evaluation fails on the 黄金睡眠 key for a bedtime in 22:00–23:00, else on the read past the end when the last logged pair is within an hour, and otherwise returns today's achievements followed by the history's. |
| Achievements.SleepTierRule | Life/sleepRecord.py:408-411 | 超级早睡 is never earned; 早睡 is earned exactly for a bedtime before 01:00. |
| Achievements.WakeTierRule | Life/sleepRecord.py:413-416 | 超级早起 is earned exactly for a wake time before 07:00, 早起 exactly for one from 07:00 to before 08:00. |
| Achievements.LongSleepFollowsEnoughSleep | Life/sleepRecord.py:418-422 | From nine hours on, 超长睡眠 sits immediately after 充足睡眠 among today's achievements. |
| Achievements.DurationTierRule | Life/sleepRecord.py:418-422 | 充足睡眠 is earned exactly from seven hours, 超长睡眠 exactly from nine, and 超长睡眠 always comes right after 充足睡眠. |
| Achievements.GoldenWindowRule | Life/sleepRecord.py:424-426 | A bedtime in 22:00–23:00 inclusive fails on the missing 黄金睡眠 key, and no other evaluation fails on a table lookup. |
| Achievements.WeekendRule | Life/sleepRecord.py:429-431 | 周末不赖床 is earned exactly on a Saturday or Sunday with a wake time before 09:00. |
| Achievements.EmptyHistoryRule | Life/sleepRecord.py:434 | With an empty log no achievement that compares with the log is earned. |
| Achievements.RegularScheduleRule | Life/sleepRecord.py:434-439 | 作息规律 is earned exactly when the bedtime is within 60 minutes of the last logged one, on the plain clock with no wrap at midnight. |
| Achievements.WeekStreakRule | Life/sleepRecord.py:442-461 | 早睡周 is earned exactly when six nights are logged and they and today are all before 01:00; 早起周 likewise with 07:00 wake times. |
| Achievements.IndexErrorRule | Life/sleepRecord.py:464-507 | Outside the 22:00–23:00 window, the evaluation fails on the read of index \|h\| exactly when the last two logged bedtimes are within an hour, and succeeds otherwise. |
| Achievements.TripleStreakRule | Life/sleepRecord.py:476-516 | 早睡三连, 早起三连 and 充足睡眠三连 are earned exactly when today and the last two logged nights are all before 01:00, all woke before 08:00, or all lasted at least seven hours. |
| Achievements.UnattainableRule | Life/sleepRecord.py:464-507 | No successful evaluation returns 超级早睡, 黄金睡眠, 作息达人 or 规律三连. |
| Achievements.AppendKeepsShape | Life/sleepRecord.py:394 | A log grown only by successful evaluations keeps every adjacent pair but the last more than an hour apart. |
| Achievements.UnattainableNeverCounted | Life/sleepRecord.py:549-554 | A log that holds none of the unattainable achievements counts each of them zero times. |
| Achievements.AwardIf | Life/sleepRecord.py:408-431 | Each award, looked up in the achievement table, only appends to the list, and only names the table knows. |
| Achievements.RegularScan | Life/sleepRecord.py:464-470 | The scan fails only when it starts inside the history, and then on the read of index \|h\|. |
| Achievements.TodayRules | Life/sleepRecord.py:407-431 | The rules on today alone, in the source's order and with its lookups, produce only achievements the table knows. |
| Achievements.WeekStreaks | Life/sleepRecord.py:442-473 | The seven-day block only appends, and only achievements the table knows. |
| Achievements.TripleStreaks | Life/sleepRecord.py:476-516 | The three-day block only appends, and only achievements the table knows. |
| Achievements.Streaks | Life/sleepRecord.py:442-516 | The two streak blocks in turn only append, and only achievements the table knows. |
| Achievements.HistoryRules | Life/sleepRecord.py:434-516 | The rules that compare with the log only append, and only achievements the table knows. |
| Achievements.DailyAchievements | Life/sleepRecord.py:401-518 | `check_daily_achievements`: every achievement of a successful evaluation has a table entry, so its emoji is found. |
| Calendar.WeekdayOf | Life/sleepRecord.py:429 | The weekday of a date as `date.weekday()` numbers it, anchored at 2000-01-01, a Saturday (5). |
| Calendar.DaysInMonth | Life/sleepRecord.py:135 | A month has 28 to 31 days; February has 29 exactly in a leap year and 28 otherwise. |
| Calendar.DaysBeforeYearClosedForm | Life/sleepRecord.py:429 | The days before 1 January of a year from 2000 to 2100 are 365 per year plus one for each leap year passed. |
| Calendar.DayNumberOfSuccessor | Life/sleepRecord.py:429 | The next calendar day has the next day number, across month and year ends. |
| Calendar.WeekdayOfSuccessor | Life/sleepRecord.py:429 | The weekday of the next day is the next weekday, Sunday wrapping to Monday. |
| Calendar.NewYear2024IsMonday | Life/sleepRecord.py:429 | The weekday count puts 2024-01-01 on Monday (0), so Saturday and Sunday are 5 and 6. |
| Tracker.Clamp | Life/sleepRecord.py:84-95 | What a spin box does with a value: kept inside its range, the nearest bound outside it. |
| Tracker.CountNames | Life/sleepRecord.py:553-554 | Counting one record's names adds each name's number of occurrences to its count, starting from zero for a new name. |
| Tracker.DateInput.SelectedDate | Life/sleepRecord.py:144-147 | The three boxes show a real calendar date whenever the day range fits the month. |
| Tracker.DateInput.AsWritten | Life/sleepRecord.py:83-96 | The widget as built: year and month clamped to their ranges, day range 1–31 whatever the month. |
| Tracker.DateInput.constructor | Life/sleepRecord.py:129-142 | The corrected half of the Finding: the widget of lines 83-96 followed at once by the fit that `update_days` performs, so the day range is the starting month's length. |
| Tracker.DateInput.UpdateDays | Life/sleepRecord.py:129-142 | The day range becomes the month's length; the day is kept when in range and otherwise becomes the month's last day. |
| Tracker.DateInput.SetYear | Life/sleepRecord.py:127 | A new year refits the day range; the same year changes nothing else. |
| Tracker.DateInput.SetMonth | Life/sleepRecord.py:126 | A new month refits the day range; the same month changes nothing else. |
| Tracker.DateInput.SetDay | Life/sleepRecord.py:152 | The day box takes the value clamped to its current range and nothing else changes. |
| Tracker.DateInput.SetDate | Life/sleepRecord.py:149-152 | Year, month and day are set in that order, each clamped to its box; a change of year or month fits the day range to the new month, and otherwise the range stays as it was. |
| Tracker.SleepTracker.constructor | Life/sleepRecord.py:271-272 | The window as the source opens it: the loaded log and a fresh date input set to today, whose day range stays 1–31 whatever the month. |
| Tracker.SleepTracker.Fitted | Life/sleepRecord.py:271-272 | The corrected half of the Finding: the same window with the corrected date input, whose day range is the starting month's length. |
| Tracker.StaleDateLogsNothing | Life/sleepRecord.py:370-371 | A window opened on 2025-02-10 with the day box moved to 30 fails at the conversion of 2025-02-30 and logs nothing. |
| Tracker.StaleDayRange | Life/sleepRecord.py:93-96 | A widget opened on 2025-02-10 offers 2025-02-30, which is not a date. |
| Tracker.ScanRegular | Life/sleepRecord.py:464-470 | The loop with its flag and break returns what the scan specification says: false at a pair more than an hour apart, the read past the end otherwise. |
| Tracker.CheckTodayRules | Life/sleepRecord.py:407-431 | Appending today's achievements one rule at a time gives exactly the rules' result, errors included. |
| Tracker.CheckWeekStreaks | Life/sleepRecord.py:442-473 | The seven-day block gives exactly the seven-day rules' result. |
| Tracker.CheckTripleStreaks | Life/sleepRecord.py:476-516 | The three-day block gives exactly the three-day rules' result. |
| Tracker.CheckStreaks | Life/sleepRecord.py:442-516 | The two streak blocks in turn give exactly the streak rules' result. |
| Tracker.SleepTracker.CheckDailyAchievements | Life/sleepRecord.py:401-518 | A selected date that does not exist fails at its conversion (line 405); otherwise the method returns exactly the evaluation of the night against the log and the date's weekday. |
| Tracker.SleepTracker.AddRecord | Life/sleepRecord.py:370-396 | A selected date that does not exist fails at its conversion (line 371) and logs nothing; otherwise a successful evaluation appends one record (date, times, length, achievements, note) and nothing else; a failed one leaves the log as it was, always when the last logged pair is within an hour; the log's pair shape and its freedom from unattainable achievements are kept. |
| Tracker.SleepTracker.ViewAchievements | Life/sleepRecord.py:549-554 | The counts hold exactly the achievements in the log, each with its number of occurrences, and none of the unattainable ones for a log built by successful evaluations. |

## Left out

- The incremental backup engine that the repository also describes is not part of this model. None of its files is among those modelled.
- PyQt widgets, layouts, stylesheets, `QMessageBox` dialogs, `update_table` and the text of `view_achievements`' message are user interface only.
- Loading and saving `sleep_data.json` is file I/O. `SleepTracker.constructor` takes the loaded log as a parameter.
- `generate_report` is left out. It is pandas and matplotlib plotting with floating-point averages, writing files.
- `strptime`, `strftime` and `pd.to_timedelta` string handling are left out. Times are minute counts and a record stores its length in minutes. A stored log whose strings do not parse is not represented.
- The clock is left out. Today's date is a parameter of the constructors.
- A record stores achievements by name. The emoji stored beside each name is the table's, so it is not kept twice.
- The note is free text and is carried through unchanged.
- An exception in `add_record` escapes before the append (line 394) and the save (line 395), so the saved log is unchanged. What Qt then does with an exception escaping a slot is not part of this model. The model returns the error instead and leaves the log unchanged.
- `Tracker.DateInput.SetYear`, `SetMonth` and `SetDay` clamp out-of-range values as a Qt spin box does. Qt's own behaviour is not part of this model.
- The achievement table keeps each entry's name, description and emoji as the source lists them. The rules only ask whether a name has an entry, so the other fields are never read.

## Findings

| source | as written | input that shows it | evidently intended | confidence | as-written member | corrected member |
|---|---|---|---|---|---|---|
| Life/sleepRecord.py:93-96 | `__init__` sets the day range to 1–31 and connects `update_days` only to later changes of year or month. The date set at line 272 repeats the values already shown, so no change happens and the range is never fitted to the starting month. | Open the window on 2025-02-10 and choose day 30: the widget shows 2025-02-30, and adding the night then fails at the date conversion of line 371, logging nothing (`Tracker.StaleDateLogsNothing`). | The day range fits the month shown from the start, as `update_days` does after every change. | medium, not executed | Tracker.StaleDayRange | Tracker.DateInput.constructor |
