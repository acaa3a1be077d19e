/** The reward limits over whole runs of the node: what mining grants to one miner. */
module MinerLimits {
  import opened Domain
  import opened Ledger
  import opened Mining
  import opened Node
  import Rewards

  ghost predicate MinedBy(s: State, rules: Rules, op: Op, miner: Str)
    requires Legal(s, op)
  {
    op.MineOp? && op.m.author == miner && Mine(s, rules, op.m).MineDone?
  }

  /** The times at which mining granted the miner a reward. */
  ghost function RewardTimes(es: History, rules: Rules, miner: Str): seq<nat>
    requires LegalRun(es, rules)
  {
    match es
    case Start(_) => []
    case Then(past, op) =>
      var s := Run(past, rules);
      RewardTimes(past, rules, miner) +
      if MinedBy(s, rules, op, miner) && Mine(s, rules, op.m).reward == 1 then [op.m.now] else []
  }

  /** What the miner's statistics went through. */
  ghost function Events(es: History, rules: Rules, miner: Str): Rewards.History
    requires LegalRun(es, rules)
  {
    match es
    case Start(_) => Rewards.Start
    case Then(past, op) =>
      var before := Events(past, rules, miner);
      if MinedBy(Run(past, rules), rules, op, miner)
      then Rewards.Then(Rewards.Then(before, Rewards.Ask(op.m.now)), Rewards.Record(op.m.later))
      else before
  }

  function Clock(es: History): nat {
    if es.Start? then 0 else if es.op.MineOp? then es.op.m.later else Clock(es.past)
  }

  /** The clock is positive and never goes back, within a mining call or from one to the next. */
  predicate Clocked(es: History) {
    es.Start? ||
    (Clocked(es.past) && (es.op.MineOp? ==> 0 < es.op.m.now && Clock(es.past) <= es.op.m.now <= es.op.m.later))
  }

  // ---------------------------------------------------------------------------------------------
  // One step.

  lemma FinishStats(c: Collected, fund: Str, m: MineInputs, block: Block, miner: Str)
    ensures var r := Finish(c, fund, m, block);
            && r.reward == Rewards.RewardFor(StatsOf(c.s, m.author), m.now).1
            && StatsOf(r.s, miner) ==
               if m.author == miner then Rewards.Submit(Rewards.RewardFor(StatsOf(c.s, miner), m.now).0, m.later)
               else StatsOf(c.s, miner)
  {
    var (asked, reward) := AskReward(c.s, m.author, m.now);
    ApplyBlockFrame(Credit(asked, m.author, reward), block);
  }

  lemma MineStats(s: State, rules: Rules, m: MineInputs, c: Collected, miner: Str)
    requires |m.order| == |m.required| && c == AfterFees(s, rules, m)
    ensures match Mine(s, rules, m)
            case MineFailed(t, _) => StatsOf(t, miner) == StatsOf(s, miner)
            case MineDone(t, _, _, reward, _) =>
              && reward == Rewards.RewardFor(StatsOf(s, m.author), m.now).1
              && StatsOf(t, miner) ==
                 if m.author == miner then Rewards.Submit(Rewards.RewardFor(StatsOf(s, miner), m.now).0, m.later)
                 else StatsOf(s, miner)
  {
    assert c.s.minerStats == s.minerStats;
    FinishStats(c, rules.fund, m, rules.build(c.s, m, c.txs), miner);
  }

  lemma OthersKeepStats(s: State, rules: Rules, op: Op)
    requires Legal(s, op) && !op.MineOp?
    ensures Step(s, rules, op).minerStats == s.minerStats
  {
    match op
    case SubmitOp(b) => ApplyBlockFrame(Credit(s, MinerOf(b), 100), b);
    case UniversalOp(from, name, amount, now) =>
      if CanTransfer(s, from, name, amount) {
        ApplyBlockFrame(DirectPart(s, from, s.wallets[name], amount), UniversalBlock(s, from, name, amount, now));
      }
    case ReplaceOp(_) =>
    case Plain(plain) => PlainKeepsStats(s, plain);
    case OtherOp(after) =>
  }

  lemma PlainKeepsStats(s: State, op: PlainOp)
    ensures PlainStep(s, op).minerStats == s.minerStats
  {
  }

  // ---------------------------------------------------------------------------------------------
  // Runs.

  lemma {:induction false} StatsFollowEvents(es: History, rules: Rules, miner: Str)
    requires LegalRun(es, rules) && Origin(es).minerStats == map[]
    ensures StatsOf(Run(es, rules), miner) == Rewards.Run(Events(es, rules, miner))
    ensures RewardTimes(es, rules, miner) == Rewards.Rewarded(Events(es, rules, miner))
  {
    if es.Then? {
      var s := Run(es.past, rules);
      StatsFollowEvents(es.past, rules, miner);
      if es.op.MineOp? {
        MineStats(s, rules, es.op.m, AfterFees(s, rules, es.op.m), miner);
      } else {
        OthersKeepStats(s, rules, es.op);
      }
    }
  }

  lemma {:induction false} EventsClocked(es: History, rules: Rules, miner: Str)
    requires LegalRun(es, rules) && Clocked(es)
    ensures Rewards.Clocked(Events(es, rules, miner)) && Rewards.Now(Events(es, rules, miner)) <= Clock(es)
  {
    if es.Then? {
      EventsClocked(es.past, rules, miner);
      if MinedBy(Run(es.past, rules), rules, es.op, miner) {
        AskAndRecordClocked(Events(es.past, rules, miner), es.op.m.now, es.op.m.later);
      }
    }
  }

  lemma AskAndRecordClocked(before: Rewards.History, now: nat, later: nat)
    requires Rewards.Clocked(before) && Rewards.Now(before) <= now <= later && now > 0
    ensures Rewards.Clocked(Rewards.Then(Rewards.Then(before, Rewards.Ask(now)), Rewards.Record(later)))
  {
  }

  /** Over any run of the node with a clock that never goes back, mining grants a miner at most two rewards
      in a calendar month and three in a calendar year, at least a week apart. */
  lemma MinerRewardLimits(es: History, rules: Rules, miner: Str)
    requires LegalRun(es, rules) && Clocked(es) && Origin(es).minerStats == map[]
    ensures var ts := RewardTimes(es, rules, miner);
            && (forall month :: Rewards.InMonth(ts, month) <= 2)
            && (forall year :: Rewards.InYear(ts, year) <= 3)
            && (forall i :: 0 <= i < |ts| - 1 ==> ts[i] + 604_800 <= ts[i + 1])
  {
    StatsFollowEvents(es, rules, miner);
    EventsClocked(es, rules, miner);
    Rewards.RewardLimits(Events(es, rules, miner));
  }

  /** When the miner last mined a block, 0 if it never did. */
  ghost function LastMined(es: History, rules: Rules, miner: Str): nat
    requires LegalRun(es, rules)
  {
    match es
    case Start(_) => 0
    case Then(past, op) =>
      if MinedBy(Run(past, rules), rules, op, miner) then op.m.later else LastMined(past, rules, miner)
  }

  lemma {:induction false} LastMinedIs(es: History, rules: Rules, miner: Str)
    requires LegalRun(es, rules)
    ensures Rewards.LastTime(Events(es, rules, miner)) == LastMined(es, rules, miner)
  {
    if es.Then? {
      LastMinedIs(es.past, rules, miner);
    }
  }

  /** Over any such run, a mining call that produces a block is rewarded if and only if a reward is due: by the
      author's rewards so far and the time it last mined. */
  lemma MinedIsRewardedIff(es: History, op: Op, rules: Rules, c: Collected)
    requires LegalRun(Then(es, op), rules) && Clocked(Then(es, op)) && Origin(es).minerStats == map[]
    requires op.MineOp? && c == AfterFees(Run(es, rules), rules, op.m) && Mine(Run(es, rules), rules, op.m).MineDone?
    ensures var ts, last := RewardTimes(es, rules, op.m.author), LastMined(es, rules, op.m.author);
            Mine(Run(es, rules), rules, op.m).reward == if Rewards.Due(ts, last, op.m.now) then 1 else 0
  {
    var miner, now := op.m.author, op.m.now;
    var events := Events(es, rules, miner);
    StatsFollowEvents(es, rules, miner);
    EventsClocked(es, rules, miner);
    LastMinedIs(es, rules, miner);
    MineStats(Run(es, rules), rules, op.m, c, miner);
    Rewards.AtMostOne(Rewards.Run(events), now);
    RewardIsDue(events, now);
  }

  lemma RewardIsDue(events: Rewards.History, now: nat)
    requires Rewards.Clocked(events) && Rewards.Now(events) <= now && now > 0
    ensures Rewards.RewardFor(Rewards.Run(events), now).1 == 1 <==>
            Rewards.Due(Rewards.Rewarded(events), Rewards.LastTime(events), now)
  {
    Rewards.GrantedIff(events, now);
  }
}
