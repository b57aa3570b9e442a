/** The daily achievement rules of the sleep log: how long a night lasted, which
    achievements one night earns given the nights logged before it, and the two
    ways the evaluation breaks off with an error (a name missing from the
    achievement table, a read one past the end of the history). */
module Achievements {
  import opened Wrappers
  import opened Calendar

  const MinutesPerDay := 1440

  /** A time of day, in minutes since midnight. */
  type Clock = m: int | 0 <= m < MinutesPerDay

  // Clock thresholds of the rules.
  const Midnight: Clock := 0
  const OneAm: Clock := 60
  const SevenAm: Clock := 420
  const EightAm: Clock := 480
  const NineAm: Clock := 540
  const TenPm: Clock := 1320
  const ElevenPm: Clock := 1380

  // Duration thresholds, in minutes.
  const SevenHours := 420
  const NineHours := 540

  /** Largest difference, in minutes, between two bedtimes that still counts as regular. */
  const RegularWindow := 60

  datatype Achievement =
    | SuperEarlySleep    // 超级早睡
    | EarlySleep         // 早睡
    | SuperEarlyWake     // 超级早起
    | EarlyWake          // 早起
    | EnoughSleep        // 充足睡眠
    | RegularSchedule    // 作息规律
    | LongSleep          // 超长睡眠
    | WeekendEarlyRise   // 周末不赖床
    | ScheduleMaster     // 作息达人
    | EarlySleepWeek     // 早睡周
    | EarlyWakeWeek      // 早起周
    | EarlySleepTriple   // 早睡三连
    | EarlyWakeTriple    // 早起三连
    | RegularTriple      // 规律三连
    | EnoughSleepTriple  // 充足睡眠三连
    | GoldenSleep        // 黄金睡眠: named by a rule, absent from the table

  datatype Info = Info(name: string, description: string, emoji: string)

  /** The achievement table: display name, description and emoji of each
      achievement the application knows. */
  const Table: map<Achievement, Info> := map[
    SuperEarlySleep := Info("超级早睡", "0:00前睡觉", "🌌"),
    EarlySleep := Info("早睡", "1:00前睡觉", "😴"),
    SuperEarlyWake := Info("超级早起", "7:00前起床", "🌟"),
    EarlyWake := Info("早起", "8:00前起床", "🌅"),
    EnoughSleep := Info("充足睡眠", "睡眠时间超过7小时", "✨"),
    RegularSchedule := Info("作息规律", "与前一天睡眠时间相差不超过60分钟", "🎯"),
    LongSleep := Info("超长睡眠", "睡眠时间超过9小时", "🛌"),
    WeekendEarlyRise := Info("周末不赖床", "周末9:00前起床", "💪"),
    ScheduleMaster := Info("作息达人", "连续7天保持相似作息", "👑"),
    EarlySleepWeek := Info("早睡周", "连续7天1:00前睡觉", "🏆"),
    EarlyWakeWeek := Info("早起周", "连续7天8:00前起床", "🎖️"),
    EarlySleepTriple := Info("早睡三连", "连续3天1:00前睡觉", "🌠"),
    EarlyWakeTriple := Info("早起三连", "连续3天8:00前起床", "🌇"),
    RegularTriple := Info("规律三连", "连续3天保持相似作息", "📅"),
    EnoughSleepTriple := Info("充足睡眠三连", "连续3天睡眠超过7小时", "💫")
  ]

  datatype Error =
    | MissingKey(name: Achievement)  // a lookup in the table failed
    | IndexOutOfRange(index: int)    // a read of the history at this index
    | InvalidDate(date: Date)        // the selected date does not exist

  /** Today's input to the evaluation: bedtime, wake time and the night's length in minutes. */
  datatype Night = Night(sleep: Clock, wake: Clock, duration: nat)

  /** One logged night. The emoji shown beside each achievement is the table's. */
  datatype Record = Record(
    date: Date,
    sleep: Clock,
    wake: Clock,
    duration: nat,
    achievements: seq<Achievement>,
    note: string)

  /** Length of a night from bedtime to wake time: a wake time earlier than the
      bedtime is on the next day. */
  function SleepDuration(sleep: Clock, wake: Clock): (d: nat)
    ensures d < MinutesPerDay
    ensures (sleep + d) % MinutesPerDay == wake
    ensures wake < sleep <==> sleep + d >= MinutesPerDay
  {
    if wake < sleep then wake + MinutesPerDay - sleep else wake - sleep
  }

  /** The length is the only one under a day that leads from bedtime to wake
      time; in particular it is zero exactly when the two times are equal. */
  lemma SleepDurationUnique(sleep: Clock, wake: Clock, d: nat)
    requires d < MinutesPerDay && (sleep + d) % MinutesPerDay == wake
    ensures d == SleepDuration(sleep, wake)
    ensures SleepDuration(sleep, wake) == 0 <==> sleep == wake
  {
    if sleep + d >= MinutesPerDay {
      assert (sleep + d) % MinutesPerDay == sleep + d - MinutesPerDay;
    } else {
      assert (sleep + d) % MinutesPerDay == sleep + d;
    }
  }

  /** Difference of two bedtimes in minutes, on the plain clock (no wrap at midnight). */
  function Gap(x: Clock, y: Clock): nat {
    if x >= y then x - y else y - x
  }

  /** `r`, when it succeeds, extends `acc` by achievements the table knows. */
  predicate AppendsKnown(acc: seq<Achievement>, r: Result<seq<Achievement>, Error>) {
    r.Success? ==> acc <= r.value && forall a :: a in r.value ==> a in acc || a in Table
  }

  /** Appends an achievement, looking its emoji up in the table. */
  function Award(acc: seq<Achievement>, a: Achievement): Result<seq<Achievement>, Error> {
    if a in Table then Success(acc + [a]) else Failure(MissingKey(a))
  }

  function AwardIf(acc: seq<Achievement>, cond: bool, a: Achievement): (r: Result<seq<Achievement>, Error>)
    ensures AppendsKnown(acc, r)
  {
    if cond then Award(acc, a) else Success(acc)
  }

  // The last `n` logged nights all went to bed before `t`, all woke before
  // `t`, all lasted at least `d` minutes.

  predicate LastSleepBefore(h: seq<Record>, n: nat, t: Clock)
    requires n <= |h|
  {
    forall k :: |h| - n <= k < |h| ==> h[k].sleep < t
  }

  predicate LastWakeBefore(h: seq<Record>, n: nat, t: Clock)
    requires n <= |h|
  {
    forall k :: |h| - n <= k < |h| ==> h[k].wake < t
  }

  predicate LastSleptAtLeast(h: seq<Record>, n: nat, d: nat)
    requires n <= |h|
  {
    forall k :: |h| - n <= k < |h| ==> h[k].duration >= d
  }

  /** The outcome of the regular-schedule scan over the pairs (h[i], h[i+1]) for
      i from `start` to |h| - 1: it stops with `false` at the first pair more
      than an hour apart; a scan that reaches i = |h| - 1 reads h[|h|]. */
  function RegularScan(h: seq<Record>, start: nat): (r: Result<bool, Error>)
    ensures r.Failure? ==> start < |h| && r.error == IndexOutOfRange(|h|)
  {
    if start >= |h| then Success(true)
    else if exists i :: start <= i < |h| - 1 && Gap(h[i].sleep, h[i + 1].sleep) > RegularWindow then Success(false)
    else Failure(IndexOutOfRange(|h|))
  }

  /** The seven-day rules, for a history of at least six nights. */
  function WeekStreaks(acc: seq<Achievement>, today: Night, diff: nat, h: seq<Record>): (r: Result<seq<Achievement>, Error>)
    requires |h| >= 6
    ensures AppendsKnown(acc, r)
  {
    var a1 :- AwardIf(acc, LastSleepBefore(h, 6, OneAm) && today.sleep < OneAm, EarlySleepWeek);
    var a2 :- AwardIf(a1, LastWakeBefore(h, 6, SevenAm) && today.wake < SevenAm, EarlyWakeWeek);
    var regular :- RegularScan(h, |h| - 6);
    AwardIf(a2, regular && diff <= RegularWindow, ScheduleMaster)
  }

  /** The three-day rules, for a history of at least two nights. */
  function TripleStreaks(acc: seq<Achievement>, today: Night, diff: nat, h: seq<Record>): (r: Result<seq<Achievement>, Error>)
    requires |h| >= 2
    ensures AppendsKnown(acc, r)
  {
    var a1 :- AwardIf(acc, LastSleepBefore(h, 2, OneAm) && today.sleep < OneAm, EarlySleepTriple);
    var a2 :- AwardIf(a1, LastWakeBefore(h, 2, EightAm) && today.wake < EightAm, EarlyWakeTriple);
    var regular :- RegularScan(h, |h| - 2);
    var a3 :- AwardIf(a2, regular && diff <= RegularWindow, RegularTriple);
    AwardIf(a3, LastSleptAtLeast(h, 2, SevenHours) && today.duration >= SevenHours, EnoughSleepTriple)
  }

  /** The rules that look at today alone, up to and including the weekend rule. */
  function TodayRules(today: Night, weekday: Weekday): (r: Result<seq<Achievement>, Error>)
    ensures AppendsKnown([], r)
  {
    var a1 :- if today.sleep < Midnight then Award([], SuperEarlySleep)
              else AwardIf([], today.sleep < OneAm, EarlySleep);
    var a2 :- if today.wake < SevenAm then Award(a1, SuperEarlyWake)
              else AwardIf(a1, today.wake < EightAm, EarlyWake);
    var a3 :- AwardIf(a2, today.duration >= SevenHours, EnoughSleep);
    var a4 :- AwardIf(a3, today.duration >= NineHours, LongSleep);
    var a5 :- AwardIf(a4, TenPm <= today.sleep <= ElevenPm, GoldenSleep);
    AwardIf(a5, weekday >= Saturday && today.wake < NineAm, WeekendEarlyRise)
  }

  /** The rules that compare today with the nights logged before it, appended to `acc`. */
  function HistoryRules(acc: seq<Achievement>, today: Night, h: seq<Record>): (r: Result<seq<Achievement>, Error>)
    ensures AppendsKnown(acc, r)
  {
    if |h| == 0 then Success(acc)
    else
      var diff := Gap(today.sleep, h[|h| - 1].sleep);
      var a1 :- AwardIf(acc, diff <= RegularWindow, RegularSchedule);
      Streaks(a1, today, diff, h)
  }

  /** The seven-day rules from six logged nights on, then the three-day rules
      from two on; `diff` is today's distance from the last logged bedtime. */
  function Streaks(acc: seq<Achievement>, today: Night, diff: nat, h: seq<Record>): (r: Result<seq<Achievement>, Error>)
    ensures AppendsKnown(acc, r)
  {
    var a1 :- if |h| >= 6 then WeekStreaks(acc, today, diff, h) else Success(acc);
    if |h| >= 2 then TripleStreaks(a1, today, diff, h) else Success(a1)
  }

  /** The achievements of one night, in the order they are earned, given the
      weekday of the date being logged and the nights logged before it. */
  function DailyAchievements(today: Night, weekday: Weekday, h: seq<Record>): (r: Result<seq<Achievement>, Error>)
    ensures r.Success? ==> forall a :: a in r.value ==> a in Table
  {
    var acc :- TodayRules(today, weekday);
    HistoryRules(acc, today, h)
  }

  // ---------------------------------------------------------------------------
  // A reference description of the outcome, with the error paths separated out.

  function Tier(cond: bool, a: Achievement): seq<Achievement> {
    if cond then [a] else []
  }

  /** Achievements that depend on today alone. */
  function TodayBadges(today: Night, weekday: Weekday): seq<Achievement> {
    Tier(today.sleep < OneAm, EarlySleep)
    + (if today.wake < SevenAm then [SuperEarlyWake] else Tier(today.wake < EightAm, EarlyWake))
    + Tier(today.duration >= SevenHours, EnoughSleep)
    + Tier(today.duration >= NineHours, LongSleep)
    + Tier(weekday >= Saturday && today.wake < NineAm, WeekendEarlyRise)
  }

  /** Achievements that compare today with the history. */
  function HistoryBadges(today: Night, h: seq<Record>): seq<Achievement> {
    if |h| == 0 then []
    else
      Tier(Gap(today.sleep, h[|h| - 1].sleep) <= RegularWindow, RegularSchedule) + StreakTiers(today, h)
  }

  /** The seven-day achievements, then the three-day ones. */
  function StreakTiers(today: Night, h: seq<Record>): seq<Achievement> {
    WeekTiers(today, h) + TripleTiers(today, h)
  }

  predicate InGoldenWindow(sleep: Clock) {
    TenPm <= sleep <= ElevenPm
  }

  /** The last two logged bedtimes are within an hour of each other. */
  predicate LastPairRegular(h: seq<Record>) {
    |h| >= 2 && Gap(h[|h| - 2].sleep, h[|h| - 1].sleep) <= RegularWindow
  }

  /** The table knows every achievement but 黄金睡眠. */
  lemma TableKeys(a: Achievement)
    ensures a in Table <==> a != GoldenSleep
  {
  }

  /** Every award but 黄金睡眠 finds its table entry. */
  lemma AwardIfTier(acc: seq<Achievement>, cond: bool, a: Achievement)
    requires a != GoldenSleep
    ensures AwardIf(acc, cond, a) == Success(acc + Tier(cond, a))
  {
    TableKeys(a);
    if !cond {
      assert acc + [] == acc;
    }
  }

  /** A scan that starts inside the history never finishes: it either stops at
      a pair more than an hour apart or reads past the end. */
  lemma RegularScanNeverCompletes(h: seq<Record>, start: nat)
    requires start < |h|
    ensures RegularScan(h, start) != Success(true)
    ensures RegularScan(h, start) == Success(false) || RegularScan(h, start) == Failure(IndexOutOfRange(|h|))
  {
  }

  /** The seven-day scan ends like the three-day one whenever the last pair is
      more than an hour apart. */
  lemma WeekScanWhenLastPairApart(h: seq<Record>)
    requires |h| >= 6 && !LastPairRegular(h)
    ensures RegularScan(h, |h| - 6) == Success(false)
  {
    assert Gap(h[|h| - 2].sleep, h[|h| - 2 + 1].sleep) > RegularWindow;
  }

  lemma TripleScan(h: seq<Record>)
    requires |h| >= 2
    ensures RegularScan(h, |h| - 2) == if LastPairRegular(h) then Failure(IndexOutOfRange(|h|)) else Success(false)
  {
    if !LastPairRegular(h) {
      assert Gap(h[|h| - 2].sleep, h[|h| - 2 + 1].sleep) > RegularWindow;
    }
  }

  /** The seven-day achievements, none before six nights are logged. */
  function WeekTiers(today: Night, h: seq<Record>): seq<Achievement> {
    if |h| < 6 then []
    else
      Tier(LastSleepBefore(h, 6, OneAm) && today.sleep < OneAm, EarlySleepWeek)
      + Tier(LastWakeBefore(h, 6, SevenAm) && today.wake < SevenAm, EarlyWakeWeek)
  }

  /** The three-day achievements, none before two nights are logged. */
  function TripleTiers(today: Night, h: seq<Record>): seq<Achievement> {
    if |h| < 2 then []
    else
      Tier(LastSleepBefore(h, 2, OneAm) && today.sleep < OneAm, EarlySleepTriple)
      + Tier(LastWakeBefore(h, 2, EightAm) && today.wake < EightAm, EarlyWakeTriple)
      + Tier(LastSleptAtLeast(h, 2, SevenHours) && today.duration >= SevenHours, EnoughSleepTriple)
  }

  lemma WeekStreaksOutcome(acc: seq<Achievement>, today: Night, diff: nat, h: seq<Record>)
    requires |h| >= 6
    ensures WeekStreaks(acc, today, diff, h) ==
      if RegularScan(h, |h| - 6).Failure? then Failure(IndexOutOfRange(|h|))
      else Success(acc + WeekTiers(today, h))
    ensures !LastPairRegular(h) ==> WeekStreaks(acc, today, diff, h).Success?
  {
    RegularScanNeverCompletes(h, |h| - 6);
    if !LastPairRegular(h) {
      WeekScanWhenLastPairApart(h);
    }
    var c1 := LastSleepBefore(h, 6, OneAm) && today.sleep < OneAm;
    var c2 := LastWakeBefore(h, 6, SevenAm) && today.wake < SevenAm;
    AwardIfTier(acc, c1, EarlySleepWeek);
    AwardIfTier(acc + Tier(c1, EarlySleepWeek), c2, EarlyWakeWeek);
    assert acc + Tier(c1, EarlySleepWeek) + Tier(c2, EarlyWakeWeek) == acc + WeekTiers(today, h);
  }

  lemma TripleStreaksOutcome(acc: seq<Achievement>, today: Night, diff: nat, h: seq<Record>)
    requires |h| >= 2
    ensures TripleStreaks(acc, today, diff, h) ==
      if LastPairRegular(h) then Failure(IndexOutOfRange(|h|))
      else Success(acc + TripleTiers(today, h))
  {
    TripleScan(h);
    var c1 := LastSleepBefore(h, 2, OneAm) && today.sleep < OneAm;
    var c2 := LastWakeBefore(h, 2, EightAm) && today.wake < EightAm;
    var c3 := LastSleptAtLeast(h, 2, SevenHours) && today.duration >= SevenHours;
    AwardIfTier(acc, c1, EarlySleepTriple);
    AwardIfTier(acc + Tier(c1, EarlySleepTriple), c2, EarlyWakeTriple);
    AwardIfTier(acc + Tier(c1, EarlySleepTriple) + Tier(c2, EarlyWakeTriple), c3, EnoughSleepTriple);
    assert acc + Tier(c1, EarlySleepTriple) + Tier(c2, EarlyWakeTriple) + Tier(c3, EnoughSleepTriple)
      == acc + TripleTiers(today, h);
  }

  lemma TodayRulesOutcome(today: Night, weekday: Weekday)
    ensures TodayRules(today, weekday) ==
      if InGoldenWindow(today.sleep) then Failure(MissingKey(GoldenSleep))
      else Success(TodayBadges(today, weekday))
  {
    TableKeys(GoldenSleep);
    TableKeys(SuperEarlyWake);
    var a1 := Tier(today.sleep < OneAm, EarlySleep);
    AwardIfTier([], today.sleep < OneAm, EarlySleep);
    assert [] + a1 == a1;
    var a2 := a1 + (if today.wake < SevenAm then [SuperEarlyWake] else Tier(today.wake < EightAm, EarlyWake));
    AwardIfTier(a1, today.wake < EightAm, EarlyWake);
    var a3 := a2 + Tier(today.duration >= SevenHours, EnoughSleep);
    AwardIfTier(a2, today.duration >= SevenHours, EnoughSleep);
    var a4 := a3 + Tier(today.duration >= NineHours, LongSleep);
    AwardIfTier(a3, today.duration >= NineHours, LongSleep);
    AwardIfTier(a4, weekday >= Saturday && today.wake < NineAm, WeekendEarlyRise);
  }

  lemma HistoryRulesOutcome(acc: seq<Achievement>, today: Night, h: seq<Record>)
    ensures HistoryRules(acc, today, h) ==
      if LastPairRegular(h) then Failure(IndexOutOfRange(|h|))
      else Success(acc + HistoryBadges(today, h))
  {
    if |h| == 0 {
      assert acc + [] == acc;
    } else {
      NonEmptyHistoryOutcome(acc, today, h);
    }
  }

  lemma NonEmptyHistoryOutcome(acc: seq<Achievement>, today: Night, h: seq<Record>)
    requires |h| > 0
    ensures HistoryRules(acc, today, h) ==
      if LastPairRegular(h) then Failure(IndexOutOfRange(|h|))
      else Success(acc + HistoryBadges(today, h))
  {
    var diff := Gap(today.sleep, h[|h| - 1].sleep);
    var reg := Tier(diff <= RegularWindow, RegularSchedule);
    var streaks := StreakTiers(today, h);
    RegularScheduleStep(acc, today, h);
    StreaksOutcome(acc + reg, today, diff, h);
    AppendAssociative(acc, reg, streaks);
  }

  lemma AppendAssociative(x: seq<Achievement>, y: seq<Achievement>, z: seq<Achievement>)
    ensures x + y + z == x + (y + z)
  {
  }

  /** On a non-empty history, 作息规律 finds its table entry and the streak rules follow. */
  lemma RegularScheduleStep(acc: seq<Achievement>, today: Night, h: seq<Record>)
    requires |h| > 0
    ensures var diff := Gap(today.sleep, h[|h| - 1].sleep);
      HistoryRules(acc, today, h) == Streaks(acc + Tier(diff <= RegularWindow, RegularSchedule), today, diff, h)
  {
    AwardIfTier(acc, Gap(today.sleep, h[|h| - 1].sleep) <= RegularWindow, RegularSchedule);
  }

  lemma StreaksOutcome(acc: seq<Achievement>, today: Night, diff: nat, h: seq<Record>)
    ensures Streaks(acc, today, diff, h) ==
      if LastPairRegular(h) then Failure(IndexOutOfRange(|h|))
      else Success(acc + StreakTiers(today, h))
  {
    var week, triple := WeekTiers(today, h), TripleTiers(today, h);
    if |h| < 2 {
      assert acc + (week + triple) == acc;
    } else if |h| < 6 {
      TripleStreaksOutcome(acc, today, diff, h);
      assert acc + (week + triple) == acc + triple;
    } else {
      WeekStreaksOutcome(acc, today, diff, h);
      if !LastPairRegular(h) {
        TripleStreaksOutcome(acc + week, today, diff, h);
        assert acc + week + triple == acc + (week + triple);
      }
    }
  }

  /** The whole outcome of an evaluation: a bedtime from 22:00 to 23:00
      inclusive fails on the table lookup of 黄金睡眠; otherwise a history of two
      or more nights whose last two bedtimes are within an hour fails on the
      read past its end; otherwise today's and the history's achievements,
      in that order. */
  lemma DailyAchievementsOutcome(today: Night, weekday: Weekday, h: seq<Record>)
    ensures DailyAchievements(today, weekday, h) ==
      if InGoldenWindow(today.sleep) then Failure(MissingKey(GoldenSleep))
      else if LastPairRegular(h) then Failure(IndexOutOfRange(|h|))
      else Success(TodayBadges(today, weekday) + HistoryBadges(today, h))
  {
    TodayRulesOutcome(today, weekday);
    HistoryRulesOutcome(TodayBadges(today, weekday), today, h);
  }

  // ---------------------------------------------------------------------------
  // The rules, one by one, on a successful evaluation.

  /** A successful evaluation is today's achievements followed by the history's. */
  lemma SuccessfulOutcome(today: Night, weekday: Weekday, h: seq<Record>)
    returns (t: seq<Achievement>, b: seq<Achievement>)
    requires DailyAchievements(today, weekday, h).Success?
    ensures t == TodayBadges(today, weekday) && b == HistoryBadges(today, h)
    ensures DailyAchievements(today, weekday, h).value == t + b
  {
    DailyAchievementsOutcome(today, weekday, h);
    t, b := TodayBadges(today, weekday), HistoryBadges(today, h);
  }

  /** Achievements that compare today with the history. */
  predicate IsHistoryAchievement(a: Achievement) {
    a.RegularSchedule? || a.ScheduleMaster? || a.EarlySleepWeek? || a.EarlyWakeWeek?
    || a.EarlySleepTriple? || a.EarlyWakeTriple? || a.RegularTriple? || a.EnoughSleepTriple?
  }

  /** Achievements that no evaluation ever returns. */
  predicate Unattainable(a: Achievement) {
    a.SuperEarlySleep? || a.GoldenSleep? || a.ScheduleMaster? || a.RegularTriple?
  }

  lemma TodayBadgesKinds(today: Night, weekday: Weekday)
    ensures forall a :: a in TodayBadges(today, weekday) ==> !IsHistoryAchievement(a) && !Unattainable(a)
  {
  }

  lemma HistoryBadgesKinds(today: Night, h: seq<Record>)
    ensures forall a :: a in HistoryBadges(today, h) ==> IsHistoryAchievement(a) && !Unattainable(a)
  {
    if |h| > 0 {
      StreakTiersKinds(today, h);
    }
  }

  lemma StreakTiersKinds(today: Night, h: seq<Record>)
    ensures forall a :: a in StreakTiers(today, h) ==>
      a.EarlySleepWeek? || a.EarlyWakeWeek? || a.EarlySleepTriple? || a.EarlyWakeTriple? || a.EnoughSleepTriple?
  {
    WeekTiersKinds(today, h);
    TripleTiersKinds(today, h);
  }

  lemma WeekTiersKinds(today: Night, h: seq<Record>)
    ensures forall a :: a in WeekTiers(today, h) ==> a == EarlySleepWeek || a == EarlyWakeWeek
  {
    if |h| >= 6 {
      var c1 := LastSleepBefore(h, 6, OneAm) && today.sleep < OneAm;
      var c2 := LastWakeBefore(h, 6, SevenAm) && today.wake < SevenAm;
      assert WeekTiers(today, h) == Tier(c1, EarlySleepWeek) + Tier(c2, EarlyWakeWeek);
    }
  }

  lemma TripleTiersKinds(today: Night, h: seq<Record>)
    ensures forall a :: a in TripleTiers(today, h) ==> a == EarlySleepTriple || a == EarlyWakeTriple || a == EnoughSleepTriple
  {
    if |h| >= 2 {
      var c1 := LastSleepBefore(h, 2, OneAm) && today.sleep < OneAm;
      var c2 := LastWakeBefore(h, 2, EightAm) && today.wake < EightAm;
      var c3 := LastSleptAtLeast(h, 2, SevenHours) && today.duration >= SevenHours;
      assert TripleTiers(today, h) == Tier(c1, EarlySleepTriple) + Tier(c2, EarlyWakeTriple) + Tier(c3, EnoughSleepTriple);
    }
  }

  lemma TodayBadgesMembers(today: Night, weekday: Weekday)
    ensures var t := TodayBadges(today, weekday);
      (EarlySleep in t <==> today.sleep < OneAm)
      && (SuperEarlyWake in t <==> today.wake < SevenAm)
      && (EarlyWake in t <==> SevenAm <= today.wake < EightAm)
      && (EnoughSleep in t <==> today.duration >= SevenHours)
      && (LongSleep in t <==> today.duration >= NineHours)
      && (WeekendEarlyRise in t <==> weekday >= Saturday && today.wake < NineAm)
  {
  }

  lemma WeekTiersMembers(today: Night, h: seq<Record>)
    ensures var w := WeekTiers(today, h);
      (EarlySleepWeek in w <==> |h| >= 6 && LastSleepBefore(h, 6, OneAm) && today.sleep < OneAm)
      && (EarlyWakeWeek in w <==> |h| >= 6 && LastWakeBefore(h, 6, SevenAm) && today.wake < SevenAm)
  {
  }

  lemma TripleTiersMembers(today: Night, h: seq<Record>)
    ensures var t := TripleTiers(today, h);
      (EarlySleepTriple in t <==> |h| >= 2 && LastSleepBefore(h, 2, OneAm) && today.sleep < OneAm)
      && (EarlyWakeTriple in t <==> |h| >= 2 && LastWakeBefore(h, 2, EightAm) && today.wake < EightAm)
      && (EnoughSleepTriple in t <==>
            |h| >= 2 && LastSleptAtLeast(h, 2, SevenHours) && today.duration >= SevenHours)
  {
  }

  lemma HistoryRegularMember(today: Night, h: seq<Record>)
    ensures RegularSchedule in HistoryBadges(today, h) <==>
      |h| > 0 && Gap(today.sleep, h[|h| - 1].sleep) <= RegularWindow
  {
    StreakTiersKinds(today, h);
  }

  lemma HistoryWeekMembers(today: Night, h: seq<Record>)
    ensures var b := HistoryBadges(today, h);
      (EarlySleepWeek in b <==> |h| >= 6 && LastSleepBefore(h, 6, OneAm) && today.sleep < OneAm)
      && (EarlyWakeWeek in b <==> |h| >= 6 && LastWakeBefore(h, 6, SevenAm) && today.wake < SevenAm)
  {
    WeekTiersMembers(today, h);
    TripleTiersKinds(today, h);
  }

  lemma HistoryTripleMembers(today: Night, h: seq<Record>)
    ensures var b := HistoryBadges(today, h);
      (EarlySleepTriple in b <==> |h| >= 2 && LastSleepBefore(h, 2, OneAm) && today.sleep < OneAm)
      && (EarlyWakeTriple in b <==> |h| >= 2 && LastWakeBefore(h, 2, EightAm) && today.wake < EightAm)
      && (EnoughSleepTriple in b <==>
            |h| >= 2 && LastSleptAtLeast(h, 2, SevenHours) && today.duration >= SevenHours)
  {
    WeekTiersKinds(today, h);
    TripleTiersMembers(today, h);
  }

  /** Over the last two nights, each of the three checks is a check of both. */
  lemma LastTwo(h: seq<Record>, t: Clock, u: Clock, d: nat)
    requires |h| >= 2
    ensures LastSleepBefore(h, 2, t) <==> h[|h| - 2].sleep < t && h[|h| - 1].sleep < t
    ensures LastWakeBefore(h, 2, u) <==> h[|h| - 2].wake < u && h[|h| - 1].wake < u
    ensures LastSleptAtLeast(h, 2, d) <==> h[|h| - 2].duration >= d && h[|h| - 1].duration >= d
  {
  }

  /** 超级早睡 is never earned, since no clock time is before 00:00; 早睡 is
      earned exactly for a bedtime before 01:00. */
  lemma SleepTierRule(today: Night, weekday: Weekday, h: seq<Record>)
    requires DailyAchievements(today, weekday, h).Success?
    ensures var v := DailyAchievements(today, weekday, h).value;
      SuperEarlySleep !in v && (EarlySleep in v <==> today.sleep < OneAm)
  {
    var t, b := SuccessfulOutcome(today, weekday, h);
    HistoryBadgesKinds(today, h);
    TodayBadgesKinds(today, weekday);
    TodayBadgesMembers(today, weekday);
  }

  /** The wake tiers exclude each other: 超级早起 before 07:00, 早起 from 07:00 to before 08:00. */
  lemma WakeTierRule(today: Night, weekday: Weekday, h: seq<Record>)
    requires DailyAchievements(today, weekday, h).Success?
    ensures var v := DailyAchievements(today, weekday, h).value;
      (SuperEarlyWake in v <==> today.wake < SevenAm)
      && (EarlyWake in v <==> SevenAm <= today.wake < EightAm)
  {
    var t, b := SuccessfulOutcome(today, weekday, h);
    HistoryBadgesKinds(today, h);
    TodayBadgesMembers(today, weekday);
  }

  /** Where 超长睡眠 is earned, it sits right after 充足睡眠 among today's achievements. */
  lemma LongSleepFollowsEnoughSleep(today: Night, weekday: Weekday) returns (i: nat)
    requires today.duration >= NineHours
    ensures var t := TodayBadges(today, weekday);
      i + 1 < |t| && t[i] == EnoughSleep && t[i + 1] == LongSleep
  {
    var tiers := Tier(today.sleep < OneAm, EarlySleep)
      + (if today.wake < SevenAm then [SuperEarlyWake] else Tier(today.wake < EightAm, EarlyWake));
    i := |tiers|;
    assert TodayBadges(today, weekday)
      == tiers + [EnoughSleep, LongSleep] + Tier(weekday >= Saturday && today.wake < NineAm, WeekendEarlyRise);
  }

  /** 充足睡眠 from seven hours, 超长睡眠 from nine; 超长睡眠 always comes
      right after 充足睡眠. */
  lemma DurationTierRule(today: Night, weekday: Weekday, h: seq<Record>)
    requires DailyAchievements(today, weekday, h).Success?
    ensures var v := DailyAchievements(today, weekday, h).value;
      (EnoughSleep in v <==> today.duration >= SevenHours)
      && (LongSleep in v <==> today.duration >= NineHours)
      && (LongSleep in v ==> exists i :: 0 <= i < |v| - 1 && v[i] == EnoughSleep && v[i + 1] == LongSleep)
  {
    var t, b := SuccessfulOutcome(today, weekday, h);
    HistoryBadgesKinds(today, h);
    TodayBadgesMembers(today, weekday);
    if today.duration >= NineHours {
      var i := LongSleepFollowsEnoughSleep(today, weekday);
      assert (t + b)[i] == t[i] && (t + b)[i + 1] == t[i + 1];
    }
  }

  /** 周末不赖床: a Saturday or Sunday with a wake time before 09:00. */
  lemma WeekendRule(today: Night, weekday: Weekday, h: seq<Record>)
    requires DailyAchievements(today, weekday, h).Success?
    ensures var v := DailyAchievements(today, weekday, h).value;
      WeekendEarlyRise in v <==> weekday >= Saturday && today.wake < NineAm
  {
    var t, b := SuccessfulOutcome(today, weekday, h);
    HistoryBadgesKinds(today, h);
    TodayBadgesMembers(today, weekday);
  }

  /** A bedtime from 22:00 to 23:00 inclusive, the form's default 23:00 among
      them, fails on the lookup of 黄金睡眠, and no other evaluation fails on a
      lookup. */
  lemma GoldenWindowRule(today: Night, weekday: Weekday, h: seq<Record>)
    ensures var r := DailyAchievements(today, weekday, h);
      (InGoldenWindow(today.sleep) <==> r == Failure(MissingKey(GoldenSleep)))
      && (r.Failure? && r.error.MissingKey? ==> InGoldenWindow(today.sleep))
  {
    DailyAchievementsOutcome(today, weekday, h);
  }

  /** Outside the golden window, a history of two or more nights whose last two
      bedtimes are within an hour of each other fails on the read of
      h[|h|], and every other evaluation succeeds. */
  lemma IndexErrorRule(today: Night, weekday: Weekday, h: seq<Record>)
    requires !InGoldenWindow(today.sleep)
    ensures var r := DailyAchievements(today, weekday, h);
      (r == Failure(IndexOutOfRange(|h|)) <==> LastPairRegular(h))
      && (r.Success? <==> !LastPairRegular(h))
  {
    DailyAchievementsOutcome(today, weekday, h);
  }

  /** With no history, no history-based achievement is earned. */
  lemma EmptyHistoryRule(today: Night, weekday: Weekday)
    requires DailyAchievements(today, weekday, []).Success?
    ensures forall a :: a in DailyAchievements(today, weekday, []).value ==> !IsHistoryAchievement(a)
  {
    DailyAchievementsOutcome(today, weekday, []);
    TodayBadgesKinds(today, weekday);
  }

  /** 作息规律: the bedtime is within an hour of the last logged bedtime, on the
      plain clock. */
  lemma RegularScheduleRule(today: Night, weekday: Weekday, h: seq<Record>)
    requires |h| > 0 && DailyAchievements(today, weekday, h).Success?
    ensures var v := DailyAchievements(today, weekday, h).value;
      RegularSchedule in v <==> Gap(today.sleep, h[|h| - 1].sleep) <= RegularWindow
  {
    var t, b := SuccessfulOutcome(today, weekday, h);
    TodayBadgesKinds(today, weekday);
    HistoryRegularMember(today, h);
  }

  /** 早睡周 and 早起周: six logged nights and today all before 01:00 (bedtime)
      or before 07:00 (wake time). */
  lemma WeekStreakRule(today: Night, weekday: Weekday, h: seq<Record>)
    requires DailyAchievements(today, weekday, h).Success?
    ensures var v := DailyAchievements(today, weekday, h).value;
      (EarlySleepWeek in v <==>
        |h| >= 6 && today.sleep < OneAm && forall k :: |h| - 6 <= k < |h| ==> h[k].sleep < OneAm)
      && (EarlyWakeWeek in v <==>
        |h| >= 6 && today.wake < SevenAm && forall k :: |h| - 6 <= k < |h| ==> h[k].wake < SevenAm)
  {
    var t, b := SuccessfulOutcome(today, weekday, h);
    TodayBadgesKinds(today, weekday);
    HistoryWeekMembers(today, h);
  }

  /** 早睡三连, 早起三连 and 充足睡眠三连: two logged nights and today all
      before 01:00, all before 08:00, all at least seven hours long. */
  lemma TripleStreakRule(today: Night, weekday: Weekday, h: seq<Record>)
    requires DailyAchievements(today, weekday, h).Success?
    ensures var v := DailyAchievements(today, weekday, h).value;
      (EarlySleepTriple in v <==>
        |h| >= 2 && today.sleep < OneAm && h[|h| - 2].sleep < OneAm && h[|h| - 1].sleep < OneAm)
      && (EarlyWakeTriple in v <==>
        |h| >= 2 && today.wake < EightAm && h[|h| - 2].wake < EightAm && h[|h| - 1].wake < EightAm)
      && (EnoughSleepTriple in v <==>
        |h| >= 2 && today.duration >= SevenHours
        && h[|h| - 2].duration >= SevenHours && h[|h| - 1].duration >= SevenHours)
  {
    var t, b := SuccessfulOutcome(today, weekday, h);
    TodayBadgesKinds(today, weekday);
    HistoryTripleMembers(today, h);
    if |h| >= 2 {
      LastTwo(h, OneAm, EightAm, SevenHours);
    }
  }

  /** 超级早睡, 黄金睡眠, 作息达人 and 规律三连 are never in a successful result:
      each regular-schedule scan that would let 作息达人 or 规律三连 through reads
      past the end of the history instead. */
  lemma UnattainableRule(today: Night, weekday: Weekday, h: seq<Record>)
    requires DailyAchievements(today, weekday, h).Success?
    ensures forall a :: a in DailyAchievements(today, weekday, h).value ==> !Unattainable(a)
  {
    var t, b := SuccessfulOutcome(today, weekday, h);
    TodayBadgesKinds(today, weekday);
    HistoryBadgesKinds(today, h);
  }

  /** Every adjacent pair of logged nights but the last is more than an hour apart. */
  predicate HistoryShape(h: seq<Record>) {
    forall i :: 0 <= i < |h| - 2 ==> Gap(h[i].sleep, h[i + 1].sleep) > RegularWindow
  }

  /** A history grown only by successful evaluations keeps that shape: an
      append succeeds only when the last pair before it is more than an hour apart. */
  lemma AppendKeepsShape(today: Night, weekday: Weekday, h: seq<Record>, rec: Record)
    requires HistoryShape(h) && DailyAchievements(today, weekday, h).Success?
    ensures HistoryShape(h + [rec])
  {
    DailyAchievementsOutcome(today, weekday, h);
    var h' := h + [rec];
    forall i | 0 <= i < |h'| - 2
      ensures Gap(h'[i].sleep, h'[i + 1].sleep) > RegularWindow
    {
      assert h'[i] == h[i] && h'[i + 1] == h[i + 1];
    }
  }

  // ---------------------------------------------------------------------------
  // Counting what the log holds.

  /** Every achievement of every logged night, in log order. */
  function AllAwarded(data: seq<Record>): seq<Achievement> {
    if data == [] then [] else AllAwarded(data[..|data| - 1]) + data[|data| - 1].achievements
  }

  /** No logged night holds an achievement that no evaluation returns. */
  predicate FreeOfUnattainable(data: seq<Record>) {
    forall k, a :: 0 <= k < |data| && a in data[k].achievements ==> !Unattainable(a)
  }

  /** So a log built by successful evaluations counts none of them. */
  lemma {:induction false} UnattainableNeverCounted(data: seq<Record>, a: Achievement)
    requires FreeOfUnattainable(data) && Unattainable(a)
    ensures multiset(AllAwarded(data))[a] == 0
  {
    if data != [] {
      var init := data[..|data| - 1];
      assert forall k :: 0 <= k < |init| ==> init[k] == data[k];
      UnattainableNeverCounted(init, a);
      assert a !in data[|data| - 1].achievements;
    }
  }
}
