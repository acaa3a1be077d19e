/** The calendar-based limiter of mining rewards (blockchain.go), with the UTC calendar it reads. */
module Rewards {

  // ---------------------------------------------------------------------------------------------
  // The calendar from 1970 on, by whole months.

  predicate Leap(year: nat) { year % 4 == 0 && (year % 100 != 0 || year % 400 == 0) }

  /** Days of the k-th month since January 1970. */
  function DaysInMonth(k: nat): (d: nat)
    ensures 28 <= d <= 31
  {
    var m := k % 12;
    if m == 1 then (if Leap(1970 + k / 12) then 29 else 28)
    else if m in {3, 5, 8, 10} then 30
    else 31
  }

  /** The first second of the k-th month since January 1970. */
  function MonthStart(k: nat): nat {
    if k == 0 then 0 else MonthStart(k - 1) + 86_400 * DaysInMonth(k - 1)
  }

  function MonthFrom(ts: nat, k: nat): (r: nat)
    requires MonthStart(k) <= ts
    ensures r >= k && MonthStart(r) <= ts < MonthStart(r + 1)
    decreases ts - MonthStart(k)
  {
    if ts < MonthStart(k + 1) then k else MonthFrom(ts, k + 1)
  }

  /** The month a time falls in, counted from January 1970. */
  function MonthOf(ts: nat): (r: nat)
    ensures MonthStart(r) <= ts < MonthStart(r + 1)
  {
    MonthFrom(ts, 0)
  }

  function YearOf(ts: nat): nat { MonthOf(ts) / 12 }

  // The source's identifiers of a month and a year, and the first second of the next year.
  function YearIdentifier(ts: nat): nat { 1970 + YearOf(ts) }
  function MonthIdentifier(ts: nat): nat { YearIdentifier(ts) * 12 + (MonthOf(ts) % 12 + 1) }
  function YearEnd(ts: nat): nat { MonthStart(12 * (YearOf(ts) + 1)) }

  lemma {:induction false} MonthStartIncreases(j: nat, k: nat)
    requires j < k
    ensures MonthStart(j) < MonthStart(k)
  {
    if j < k - 1 {
      MonthStartIncreases(j, k - 1);
    }
  }

  lemma MonthMonotone(a: nat, b: nat)
    requires a <= b
    ensures MonthOf(a) <= MonthOf(b) && YearOf(a) <= YearOf(b)
  {
    if MonthOf(b) + 1 < MonthOf(a) {
      MonthStartIncreases(MonthOf(b) + 1, MonthOf(a));
    }
  }

  lemma IdentifiersByMonth(ts: nat)
    ensures MonthIdentifier(ts) == 23_641 + MonthOf(ts)
  {
  }

  lemma MonthsOfYears(m: nat, y: nat)
    ensures m < 12 * (y + 1) <==> m / 12 <= y
  {
  }

  /** A time is before a month's start exactly when its own month is earlier. */
  lemma BeforeMonth(ts: nat, k: nat)
    ensures ts < MonthStart(k) <==> MonthOf(ts) < k
  {
    var m := MonthOf(ts);
    if m + 1 < k {
      MonthStartIncreases(m + 1, k);
    } else if k < m {
      MonthStartIncreases(k, m);
    }
  }

  /** A time is before the year's end exactly when it is not in a later year. */
  lemma BeforeYearEnd(a: nat, b: nat)
    ensures b < YearEnd(a) <==> YearOf(b) <= YearOf(a)
  {
    BeforeMonth(b, 12 * (YearOf(a) + 1));
    MonthsOfYears(MonthOf(b), YearOf(a));
  }

  // ---------------------------------------------------------------------------------------------
  // One miner's statistics.

  const ONE_WEEK: int := 604_800
  const TWO_WEEKS: int := 1_209_600

  datatype MinerStats = MinerStats(
    lastSubmissionTime: nat, lastRewardBlock: nat, currentMonth: nat, currentYear: nat,
    monthlyRewards: nat, yearlyRewards: nat, yearlyPauseUntil: nat)

  const NO_STATS := MinerStats(0, 0, 0, 0, 0, 0, 0)

  /** The resets at the start of `MineRewardFor`. */
  function Turn(s: MinerStats, now: nat): MinerStats {
    var year, month := YearIdentifier(now), MonthIdentifier(now);
    var s := if s.currentYear == 0 then s.(currentYear := year) else s;
    var s := if s.currentMonth == 0 then s.(currentMonth := month) else s;
    var s := if s.currentYear != year
             then s.(currentYear := year, yearlyRewards := 0, yearlyPauseUntil := 0, monthlyRewards := 0) else s;
    if s.currentMonth != month then s.(currentMonth := month, monthlyRewards := 0) else s
  }

  function Grant(s: MinerStats, now: nat, monthly: nat): (MinerStats, nat) {
    var s := s.(monthlyRewards := monthly, yearlyRewards := s.yearlyRewards + 1);
    var s := if s.yearlyRewards >= 3 then s.(yearlyPauseUntil := YearEnd(now)) else s;
    if s.yearlyRewards > 3 then (s, 0)
    else (s.(lastSubmissionTime := now, lastRewardBlock := now), 1)
  }

  /** The rest of `MineRewardFor`, after the resets. */
  function Decide(s: MinerStats, now: nat): (MinerStats, nat) {
    var elapsed := if now - s.lastSubmissionTime < 0 then 0 else now - s.lastSubmissionTime;
    if s.yearlyPauseUntil > 0 && now < s.yearlyPauseUntil then (s, 0)
    else if s.lastRewardBlock == 0 then
      (s.(monthlyRewards := 1, yearlyRewards := 1, lastRewardBlock := now, lastSubmissionTime := now), 1)
    else if s.monthlyRewards == 0 then
      if elapsed < ONE_WEEK then (s, 0) else Grant(s, now, 1)
    else if s.monthlyRewards == 1 then
      if elapsed < TWO_WEEKS then (s, 0) else Grant(s, now, 2)
    else if s.monthlyRewards == 2 then
      if s.currentMonth == MonthIdentifier(s.lastSubmissionTime) then (s, 0)
      else if elapsed < ONE_WEEK then (s, 0)
      else Grant(s, now, 1)
    else (s, 0)
  }

  /** `MineRewardFor`: the new statistics and the reward, 0 or 1. */
  function RewardFor(s: MinerStats, now: nat): (MinerStats, nat) { Decide(Turn(s, now), now) }

  // The same, as the node does it: field by field.
  method TurnStats(initial: MinerStats, now: nat) returns (stats: MinerStats)
    ensures stats == Turn(initial, now)
  {
    stats := initial;
    var month, year := MonthIdentifier(now), YearIdentifier(now);
    if stats.currentYear == 0 {
      stats := stats.(currentYear := year);
    }
    if stats.currentMonth == 0 {
      stats := stats.(currentMonth := month);
    }
    if stats.currentYear != year {
      stats := stats.(currentYear := year);
      stats := stats.(yearlyRewards := 0, yearlyPauseUntil := 0, monthlyRewards := 0);
    }
    if stats.currentMonth != month {
      stats := stats.(currentMonth := month, monthlyRewards := 0);
    }
  }

  method GrantReward(initial: MinerStats, now: nat, monthly: nat) returns (stats: MinerStats, reward: nat)
    ensures (stats, reward) == Grant(initial, now, monthly)
  {
    stats, reward := initial.(monthlyRewards := monthly, yearlyRewards := initial.yearlyRewards + 1), 0;
    if stats.yearlyRewards >= 3 {
      stats := stats.(yearlyPauseUntil := YearEnd(now));
    }
    if stats.yearlyRewards > 3 {
      return;
    }
    stats := stats.(lastSubmissionTime := now, lastRewardBlock := now);
    reward := 1;
  }

  method MineReward(initial: MinerStats, now: nat) returns (stats: MinerStats, reward: nat)
    ensures (stats, reward) == RewardFor(initial, now)
  {
    stats := TurnStats(initial, now);
    reward := 0;
    if stats.yearlyPauseUntil > 0 && now < stats.yearlyPauseUntil {
      return;
    }
    if stats.lastRewardBlock == 0 {
      stats := stats.(monthlyRewards := 1, yearlyRewards := 1, lastRewardBlock := now, lastSubmissionTime := now);
      return stats, 1;
    }
    var elapsed := now - stats.lastSubmissionTime;
    if elapsed < 0 {
      elapsed := 0;
    }
    match stats.monthlyRewards {
      case 0 =>
        if elapsed < ONE_WEEK {
          return;
        }
        stats, reward := GrantReward(stats, now, 1);
      case 1 =>
        if elapsed < TWO_WEEKS {
          return;
        }
        stats, reward := GrantReward(stats, now, 2);
      case 2 =>
        if stats.currentMonth == MonthIdentifier(stats.lastSubmissionTime) || elapsed < ONE_WEEK {
          return;
        }
        stats, reward := GrantReward(stats, now, 1);
      case _ =>
    }
  }

  lemma AtMostOne(s: MinerStats, now: nat)
    ensures RewardFor(s, now).1 <= 1
  {
  }

  function Submit(s: MinerStats, now: nat): MinerStats { s.(lastSubmissionTime := now) }

  // ---------------------------------------------------------------------------------------------
  // Runs: rewards asked for and submissions recorded, in any order, with a nondecreasing clock.

  datatype Event = Ask(now: nat) | Record(now: nat)
  datatype History = Start | Then(past: History, event: Event)

  function Now(es: History): nat { if es.Start? then 0 else es.event.now }

  /** Positive, nondecreasing times. */
  predicate Clocked(es: History) {
    es.Start? || (Clocked(es.past) && Now(es.past) <= es.event.now && es.event.now > 0)
  }

  function Run(es: History): MinerStats {
    match es
    case Start => NO_STATS
    case Then(past, Ask(now)) => RewardFor(Run(past), now).0
    case Then(past, Record(now)) => Submit(Run(past), now)
  }

  /** The times at which a reward was granted. */
  function Rewarded(es: History): seq<nat> {
    match es
    case Start => []
    case Then(past, Ask(now)) => Rewarded(past) + if RewardFor(Run(past), now).1 == 1 then [now] else []
    case Then(past, Record(_)) => Rewarded(past)
  }

  function InMonth(ts: seq<nat>, month: nat): nat {
    if ts == [] then 0 else InMonth(ts[..|ts| - 1], month) + if MonthOf(ts[|ts| - 1]) == month then 1 else 0
  }

  function InYear(ts: seq<nat>, year: nat): nat {
    if ts == [] then 0 else InYear(ts[..|ts| - 1], year) + if YearOf(ts[|ts| - 1]) == year then 1 else 0
  }

  lemma InMonthAppend(ts: seq<nat>, x: nat, month: nat)
    ensures InMonth(ts + [x], month) == InMonth(ts, month) + if MonthOf(x) == month then 1 else 0
  {
    assert (ts + [x])[..|ts|] == ts;
  }

  lemma InYearAppend(ts: seq<nat>, x: nat, year: nat)
    ensures InYear(ts + [x], year) == InYear(ts, year) + if YearOf(x) == year then 1 else 0
  {
    assert (ts + [x])[..|ts|] == ts;
  }

  lemma {:induction false} NoneYet(ts: seq<nat>, month: nat)
    requires forall i :: 0 <= i < |ts| ==> MonthOf(ts[i]) <= month
    ensures forall m :: m > month ==> InMonth(ts, m) == 0
    ensures forall y :: y > month / 12 ==> InYear(ts, y) == 0
  {
    if ts != [] {
      NoneYet(ts[..|ts| - 1], month);
    }
  }

  lemma {:induction false} LastInMonth(ts: seq<nat>, month: nat)
    requires Spaced(ts) && InMonth(ts, month) > 0 && forall i :: 0 <= i < |ts| ==> MonthOf(ts[i]) <= month
    ensures ts != [] && MonthOf(ts[|ts| - 1]) == month
  {
    var last := |ts| - 1;
    if MonthOf(ts[last]) != month {
      LastInMonth(ts[..last], month);
      MonthMonotone(ts[last - 1], ts[last]);
    }
  }

  /** Successive rewards are at least a week apart. */
  predicate Spaced(ts: seq<nat>) {
    forall i :: 0 <= i < |ts| - 1 ==> ts[i] + ONE_WEEK <= ts[i + 1]
  }

  ghost predicate WithinLimits(ts: seq<nat>) {
    Spaced(ts) && (forall m :: InMonth(ts, m) <= 2) && (forall y :: InYear(ts, y) <= 3)
  }

  /** What the statistics say about the rewards granted so far; `month` is that of the last Ask. */
  ghost predicate Tallied(s: MinerStats, ts: seq<nat>, month: nat) {
    && s.currentMonth == 23_641 + month
    && s.currentYear == 1970 + month / 12
    && (forall i :: 0 <= i < |ts| ==> MonthOf(ts[i]) <= month)
    && s.monthlyRewards == InMonth(ts, month)
    && s.yearlyRewards == InYear(ts, month / 12)
    && s.yearlyPauseUntil == if s.yearlyRewards >= 3 then MonthStart(12 * (month / 12 + 1)) else 0
  }

  ghost predicate Untouched(s: MinerStats) { s.(lastSubmissionTime := 0) == NO_STATS }

  ghost predicate LastSeen(s: MinerStats, ts: seq<nat>, now: nat) {
    && s.lastSubmissionTime <= now
    && (ts == [] ==> s.lastRewardBlock == 0)
    && (ts != [] ==> 0 < ts[|ts| - 1] == s.lastRewardBlock <= s.lastSubmissionTime)
  }

  ghost predicate Consistent(s: MinerStats, ts: seq<nat>, now: nat) {
    && WithinLimits(ts) && LastSeen(s, ts, now)
    && ((ts == [] && Untouched(s)) || exists month: nat :: month <= MonthOf(now) && Tallied(s, ts, month))
  }

  lemma TurnKeepsTimes(s: MinerStats, now: nat)
    ensures Turn(s, now).lastSubmissionTime == s.lastSubmissionTime && Turn(s, now).lastRewardBlock == s.lastRewardBlock
  {
  }

  lemma TurnFirst(s: MinerStats, now: nat)
    requires Untouched(s)
    ensures Tallied(Turn(s, now), [], MonthOf(now))
  {
    IdentifiersByMonth(now);
  }

  lemma TurnTallies(s: MinerStats, ts: seq<nat>, month: nat, now: nat)
    requires Tallied(s, ts, month) && month <= MonthOf(now)
    ensures Tallied(Turn(s, now), ts, MonthOf(now))
  {
    IdentifiersByMonth(now);
    NoneYet(ts, month);
    var m := MonthOf(now);
    var turned := Turn(s, now);
    if m / 12 != month / 12 {
      assert turned.yearlyRewards == 0 && turned.monthlyRewards == 0 && turned.yearlyPauseUntil == 0;
    } else if m != month {
      assert turned.monthlyRewards == 0 && turned.yearlyRewards == s.yearlyRewards;
    } else {
      assert turned == s;
    }
  }

  lemma OneMoreSpaced(ts: seq<nat>, now: nat)
    requires Spaced(ts) && (ts != [] ==> ts[|ts| - 1] + ONE_WEEK <= now)
    ensures Spaced(ts + [now])
  {
  }

  lemma OneMoreWithinLimits(ts: seq<nat>, now: nat)
    requires WithinLimits(ts) && InMonth(ts, MonthOf(now)) <= 1 && InYear(ts, YearOf(now)) <= 2
    requires ts != [] ==> ts[|ts| - 1] + ONE_WEEK <= now
    ensures WithinLimits(ts + [now])
  {
    OneMoreSpaced(ts, now);
    forall m ensures InMonth(ts + [now], m) <= 2 {
      InMonthAppend(ts, now, m);
    }
    forall y ensures InYear(ts + [now], y) <= 3 {
      InYearAppend(ts, now, y);
    }
  }

  lemma OneMoreTallied(s: MinerStats, ts: seq<nat>, now: nat, month: nat)
    requires Tallied(s, ts, month) && month == MonthOf(now) && s.yearlyRewards <= 2
    ensures Tallied(Grant(s, now, s.monthlyRewards + 1).0, ts + [now], month)
  {
    InMonthAppend(ts, now, month);
    InYearAppend(ts, now, month / 12);
  }

  /** A granted reward, at least a week after the last and with room in its month and year. */
  lemma GrantTallies(s: MinerStats, ts: seq<nat>, now: nat)
    requires Tallied(s, ts, MonthOf(now)) && WithinLimits(ts) && LastSeen(s, ts, now)
    requires ts != [] ==> s.lastRewardBlock + ONE_WEEK <= now
    requires s.monthlyRewards <= 1 && s.yearlyRewards <= 2 && now > 0
    ensures WithinLimits(ts + [now])
    ensures var s' := Grant(s, now, s.monthlyRewards + 1);
            s'.1 == 1 && Tallied(s'.0, ts + [now], MonthOf(now)) && LastSeen(s'.0, ts + [now], now)
  {
    OneMoreWithinLimits(ts, now);
    OneMoreTallied(s, ts, now, MonthOf(now));
  }

  lemma FirstTallies(s: MinerStats, now: nat)
    requires Tallied(s, [], MonthOf(now)) && now > 0
    ensures WithinLimits([now])
    ensures Tallied(First(s, now), [now], MonthOf(now))
  {
    forall m
      ensures InMonth([now], m) == if MonthOf(now) == m then 1 else 0
      ensures InYear([now], m) == if YearOf(now) == m then 1 else 0
    {
      InMonthAppend([], now, m);
      InYearAppend([], now, m);
      assert [] + [now] == [now];
    }
  }

  /** With two rewards in the month the last submission is in it too, so a third is refused. */
  lemma FullMonth(s: MinerStats, ts: seq<nat>, now: nat)
    requires Tallied(s, ts, MonthOf(now)) && WithinLimits(ts) && LastSeen(s, ts, now) && s.monthlyRewards == 2
    ensures s.currentMonth == MonthIdentifier(s.lastSubmissionTime)
  {
    LastInMonth(ts, MonthOf(now));
    MonthMonotone(ts[|ts| - 1], s.lastSubmissionTime);
    MonthMonotone(s.lastSubmissionTime, now);
    IdentifiersByMonth(s.lastSubmissionTime);
  }

  function First(s: MinerStats, now: nat): MinerStats {
    s.(monthlyRewards := 1, yearlyRewards := 1, lastRewardBlock := now, lastSubmissionTime := now)
  }

  /** The pause is in force exactly when the year has its three rewards. */
  lemma PausedIff(s: MinerStats, ts: seq<nat>, now: nat)
    requires Tallied(s, ts, MonthOf(now))
    ensures s.yearlyPauseUntil > 0 && now < s.yearlyPauseUntil <==> s.yearlyRewards >= 3
  {
    BeforeYearEnd(now, now);
  }

  /** A tallied miner gets nothing, its first reward, or one with room for it a week after the last. */
  lemma Outcomes(s: MinerStats, ts: seq<nat>, now: nat)
    requires Tallied(s, ts, MonthOf(now)) && WithinLimits(ts) && LastSeen(s, ts, now)
    ensures || Decide(s, now) == (s, 0)
            || (s.lastRewardBlock == 0 && Decide(s, now) == (First(s, now), 1))
            || (s.lastRewardBlock > 0 && s.monthlyRewards <= 1 && s.yearlyRewards <= 2
                && s.lastRewardBlock + ONE_WEEK <= now && Decide(s, now) == Grant(s, now, s.monthlyRewards + 1))
  {
    PausedIff(s, ts, now);
    if s.monthlyRewards == 2 {
      FullMonth(s, ts, now);
    }
  }

  lemma TalliedIsConsistent(s: MinerStats, ts: seq<nat>, now: nat)
    requires WithinLimits(ts) && LastSeen(s, ts, now) && Tallied(s, ts, MonthOf(now))
    ensures Consistent(s, ts, now)
  {
  }

  lemma DecideTallied(s: MinerStats, ts: seq<nat>, now: nat)
    requires Tallied(s, ts, MonthOf(now)) && WithinLimits(ts) && LastSeen(s, ts, now) && now > 0
    ensures Decide(s, now).1 <= 1
    ensures Consistent(Decide(s, now).0, ts + if Decide(s, now).1 == 1 then [now] else [], now)
  {
    Outcomes(s, ts, now);
    var (s', r) := Decide(s, now);
    if r == 0 {
      assert ts + [] == ts && s' == s;
      TalliedIsConsistent(s, ts, now);
    } else if s.lastRewardBlock == 0 {
      assert ts == [] && ts + [now] == [now];
      FirstTallies(s, now);
      TalliedIsConsistent(s', [now], now);
    } else {
      GrantTallies(s, ts, now);
      TalliedIsConsistent(s', ts + [now], now);
    }
  }

  lemma {:induction false} AlwaysConsistent(es: History)
    requires Clocked(es)
    ensures Consistent(Run(es), Rewarded(es), Now(es))
  {
    match es
    case Start =>
    case Then(past, event) =>
      AlwaysConsistent(past);
      var s, ts := Run(past), Rewarded(past);
      MonthMonotone(Now(past), event.now);
      if event.Ask? {
        if ts == [] && Untouched(s) {
          TurnFirst(s, event.now);
        } else {
          var month: nat :| month <= MonthOf(Now(past)) && Tallied(s, ts, month);
          TurnTallies(s, ts, month, event.now);
        }
        TurnKeepsTimes(s, event.now);
        DecideTallied(Turn(s, event.now), ts, event.now);
      } else if !(ts == [] && Untouched(s)) {
        var month: nat :| month <= MonthOf(Now(past)) && Tallied(s, ts, month);
        assert Tallied(Run(es), ts, month);
      }
  }

  /** Over any clocked run, at most two rewards fall in any calendar month, at most three in any calendar
      year, and successive rewards are at least a week apart. */
  lemma RewardLimits(es: History)
    requires Clocked(es)
    ensures forall month :: InMonth(Rewarded(es), month) <= 2
    ensures forall year :: InYear(Rewarded(es), year) <= 3
    ensures forall i :: 0 <= i < |Rewarded(es)| - 1 ==> Rewarded(es)[i] + 604_800 <= Rewarded(es)[i + 1]
  {
    AlwaysConsistent(es);
  }

  // ---------------------------------------------------------------------------------------------
  // When exactly a reward is granted.

  /** The time of the last submission: recorded, or rewarded. */
  function LastTime(es: History): nat {
    match es
    case Start => 0
    case Then(past, Ask(now)) => if |Rewarded(es)| > |Rewarded(past)| then now else LastTime(past)
    case Then(past, Record(now)) => now
  }

  /** What a miner must have behind it: no reward yet; or fewer than three in this year, and in this month
      none and a week since the last submission, or one and two weeks. */
  predicate Due(ts: seq<nat>, last: nat, now: nat) {
    || ts == []
    || (InYear(ts, YearOf(now)) < 3 && InMonth(ts, MonthOf(now)) == 0 && now - last >= 604_800)
    || (InYear(ts, YearOf(now)) < 3 && InMonth(ts, MonthOf(now)) == 1 && now - last >= 1_209_600)
  }

  lemma TurnedIsTallied(es: History, now: nat)
    requires Clocked(Then(es, Ask(now)))
    ensures Tallied(Turn(Run(es), now), Rewarded(es), MonthOf(now))
    ensures WithinLimits(Rewarded(es)) && LastSeen(Turn(Run(es), now), Rewarded(es), now)
  {
    var s, ts := Run(es), Rewarded(es);
    AlwaysConsistent(es);
    MonthMonotone(Now(es), now);
    TurnKeepsTimes(s, now);
    if ts == [] && Untouched(s) {
      TurnFirst(s, now);
    } else {
      var month: nat :| month <= MonthOf(Now(es)) && Tallied(s, ts, month);
      TurnTallies(s, ts, month, now);
    }
  }

  lemma DecideIff(s: MinerStats, ts: seq<nat>, now: nat)
    requires Tallied(s, ts, MonthOf(now)) && WithinLimits(ts) && LastSeen(s, ts, now)
    ensures Decide(s, now).1 == 1 <==> Due(ts, s.lastSubmissionTime, now)
  {
    PausedIff(s, ts, now);
    if s.monthlyRewards == 2 {
      FullMonth(s, ts, now);
    }
  }

  lemma DecideTime(s: MinerStats, now: nat)
    ensures Decide(s, now).0.lastSubmissionTime == if Decide(s, now).1 == 1 then now else s.lastSubmissionTime
  {
  }

  lemma {:induction false} LastTimeIs(es: History)
    ensures Run(es).lastSubmissionTime == LastTime(es)
  {
    match es
    case Start =>
    case Then(past, event) =>
      LastTimeIs(past);
      if event.Ask? {
        TurnKeepsTimes(Run(past), event.now);
        DecideTime(Turn(Run(past), event.now), event.now);
      }
  }

  /** Over any clocked run, a request for a reward is granted if and only if it is due by the rewards granted
      so far and the time of the last submission. */
  lemma GrantedIff(es: History, now: nat)
    requires Clocked(Then(es, Ask(now)))
    ensures Rewarded(Then(es, Ask(now))) == Rewarded(es) + if Due(Rewarded(es), LastTime(es), now) then [now] else []
  {
    TurnedIsTallied(es, now);
    TurnKeepsTimes(Run(es), now);
    LastTimeIs(es);
    DecideIff(Turn(Run(es), now), Rewarded(es), now);
  }

  // ---------------------------------------------------------------------------------------------
  // The calendar agrees with the count of leap days.

  /** Days from 1970 to the start of the y-th year after it. */
  function DaysBefore(y: nat): int { 365 * y + (y + 1) / 4 - (y + 69) / 100 + (y + 369) / 400 }

  function DaysInYear(y: nat): nat { if Leap(1970 + y) then 366 else 365 }

  lemma FourthYears(y: nat)
    ensures (y + 2) / 4 == (y + 1) / 4 + if (1970 + y) % 4 == 0 then 1 else 0
  {
  }

  lemma Centuries(y: nat)
    ensures (y + 70) / 100 == (y + 69) / 100 + if (1970 + y) % 100 == 0 then 1 else 0
  {
  }

  lemma FourthCenturies(y: nat)
    ensures (y + 370) / 400 == (y + 369) / 400 + if (1970 + y) % 400 == 0 then 1 else 0
  {
  }

  lemma LeapDay(n: nat)
    ensures (if Leap(n) then 1 else 0) ==
            (if n % 4 == 0 then 1 else 0) - (if n % 100 == 0 then 1 else 0) + (if n % 400 == 0 then 1 else 0)
  {
    assert n % 100 == 0 ==> n % 4 == 0;
    assert n % 400 == 0 ==> n % 100 == 0;
  }

  lemma NextYear(y: nat)
    ensures DaysBefore(y + 1) == DaysBefore(y) + DaysInYear(y)
  {
    FourthYears(y);
    Centuries(y);
    FourthCenturies(y);
    LeapDay(1970 + y);
  }

  function DaysUpTo(y: nat, m: nat): nat {
    if m == 0 then 0 else DaysUpTo(y, m - 1) + DaysInMonth(12 * y + m - 1)
  }

  lemma {:induction false} MonthsOfYear(y: nat, m: nat)
    requires m <= 12
    ensures MonthStart(12 * y + m) == MonthStart(12 * y) + 86_400 * DaysUpTo(y, m)
  {
    if m > 0 {
      MonthsOfYear(y, m - 1);
    }
  }

  /** Days of an ordinary year before each month. */
  const BEFORE_MONTH: seq<nat> := [0, 31, 59, 90, 120, 151, 181, 212, 243, 273, 304, 334, 365]

  lemma MonthLength(y: nat, m: nat)
    requires m < 12
    ensures DaysInMonth(12 * y + m) ==
            BEFORE_MONTH[m + 1] - BEFORE_MONTH[m] + if m == 1 && Leap(1970 + y) then 1 else 0
  {
    assert (12 * y + m) % 12 == m && (12 * y + m) / 12 == y;
  }

  lemma {:induction false} DaysBeforeMonth(y: nat, m: nat)
    requires m <= 12
    ensures DaysUpTo(y, m) == BEFORE_MONTH[m] + if m >= 2 && Leap(1970 + y) then 1 else 0
  {
    if m > 0 {
      DaysBeforeMonth(y, m - 1);
      MonthLength(y, m - 1);
    }
  }

  lemma NextYearStart(y: nat)
    ensures MonthStart(12 * (y + 1)) == MonthStart(12 * y) + 86_400 * DaysInYear(y)
  {
    MonthsOfYear(y, 12);
    DaysBeforeMonth(y, 12);
    assert 12 * y + 12 == 12 * (y + 1);
  }

  /** Each year starts as many days after 1970 as the rule for leap years gives. */
  lemma {:induction false} YearStarts(y: nat)
    ensures MonthStart(12 * y) == 86_400 * DaysBefore(y)
  {
    if y > 0 {
      YearStarts(y - 1);
      NextYearStart(y - 1);
      NextYear(y - 1);
    }
  }
}
