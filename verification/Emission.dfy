/** The emission schedule: a fixed base plus a bonus that decays by 30% every cycle (main.go). */
module Emission {
  import opened Domain

  const BASE: nat := 20
  const BONUS_START: nat := 80
  const DECAY: nat := 70
  const CYCLE: nat := 78_914_000

  /** The bonus after n cycles. */
  function Bonus(n: nat): (b: nat)
    ensures 1 <= b <= BONUS_START
  {
    if n == 0 then BONUS_START
    else if Bonus(n - 1) > 1 then Bonus(n - 1) * DECAY / 100
    else Bonus(n - 1)
  }

  function Reward(height: nat): nat { BASE + Bonus(height / CYCLE) }

  lemma BonusTable()
    ensures Bonus(1) == 56 && Bonus(2) == 39 && Bonus(3) == 27 && Bonus(4) == 18 && Bonus(5) == 12
    ensures Bonus(6) == 8 && Bonus(7) == 5 && Bonus(8) == 3 && Bonus(9) == 2 && Bonus(10) == 1
  {
    assert Bonus(1) == 56;
    assert Bonus(3) == 27;
    assert Bonus(5) == 12;
    assert Bonus(7) == 5;
    assert Bonus(9) == 2;
  }

  lemma {:induction false} BonusNonIncreasing(m: nat, n: nat)
    requires m <= n
    ensures Bonus(n) <= Bonus(m)
    decreases n
  {
    if m < n {
      BonusNonIncreasing(m, n - 1);
    }
  }

  /** Whatever the height, the decay loop runs at most ten times. */
  method BlockReward(blockHeight: u64) returns (reward: u64, ghost rounds: nat)
    ensures reward == Reward(blockHeight)
    ensures rounds <= 10
  {
    rounds := 0;
    if blockHeight == 0 {
      return BASE + BONUS_START, 0;
    }
    var era := blockHeight / CYCLE;
    var bonus := BONUS_START;
    var i := 0;
    BonusTable();
    while i < era && bonus > 1
      invariant i <= era && bonus == Bonus(i) && rounds == i
      invariant i <= 10
    {
      bonus := bonus * DECAY / 100;
      i := i + 1;
      rounds := rounds + 1;
    }
    if i < era {
      BonusNonIncreasing(i, era);
    }
    reward := BASE + bonus;
  }

  /** Rewards never rise with height and stay between 21 and 100. */
  lemma RewardNonIncreasing(low: nat, high: nat)
    requires low <= high
    ensures 21 <= Reward(high) <= Reward(low) <= 100
  {
    BonusNonIncreasing(low / CYCLE, high / CYCLE);
  }

  // ---------------------------------------------------------------------------------------------
  // Total emission.

  /** The rewards of heights 0 to n - 1. */
  function TotalRewards(n: nat): nat {
    if n == 0 then 0 else TotalRewards(n - 1) + Reward(n - 1)
  }

  function Excess(era: nat): nat { Bonus(era) - 1 }

  function ExcessSum(eras: nat): nat {
    if eras == 0 then 0 else ExcessSum(eras - 1) + Excess(eras - 1)
  }

  /** What the heights of era `e` before its r-th one add up to over 21 each. */
  function ExcessTotal(e: nat, r: nat): nat { CYCLE * ExcessSum(e) + r * Excess(e) }

  lemma NextHeight(n: nat)
    requires n > 0
    ensures var e, r := (n - 1) / CYCLE, (n - 1) % CYCLE;
            if r + 1 < CYCLE then n / CYCLE == e && n % CYCLE == r + 1 else n / CYCLE == e + 1 && n % CYCLE == 0
  {
  }

  lemma NextExcess(e: nat, r: nat)
    ensures ExcessTotal(e, r + 1) == ExcessTotal(e, r) + Excess(e)
    ensures ExcessTotal(e + 1, 0) == ExcessTotal(e, CYCLE)
  {
    assert (r + 1) * Excess(e) == r * Excess(e) + Excess(e);
  }

  /** The exact total: whole cycles, and the begun one. */
  lemma {:induction false} TotalRewardsExact(n: nat)
    ensures TotalRewards(n) == 21 * n + ExcessTotal(n / CYCLE, n % CYCLE)
  {
    if n > 0 {
      TotalRewardsExact(n - 1);
      NextHeight(n);
      NextExcess((n - 1) / CYCLE, (n - 1) % CYCLE);
    }
  }

  lemma {:induction false} ExcessBounded(era: nat)
    ensures ExcessSum(era) + Excess(era) <= 240
    ensures era >= 10 ==> ExcessSum(era) == 240 && Excess(era) == 0
  {
    BonusTable();
    if era > 10 {
      ExcessBounded(era - 1);
      BonusNonIncreasing(10, era);
    } else {
      assert ExcessSum(1) == 79 && ExcessSum(2) == 134;
      assert ExcessSum(3) == 172 && ExcessSum(4) == 198;
      assert ExcessSum(5) == 215 && ExcessSum(6) == 226;
      assert ExcessSum(7) == 233 && ExcessSum(8) == 237;
      assert ExcessSum(9) == 239 && ExcessSum(10) == 240;
    }
  }

  /** The first n rewards sum to at most 21 n + 240 cycles' worth. */
  lemma TotalRewardsBounded(n: nat)
    ensures TotalRewards(n) <= 21 * n + 240 * CYCLE
  {
    TotalRewardsExact(n);
    var era, r := n / CYCLE, n % CYCLE;
    ExcessBounded(era);
    var x := Excess(era);
    assert r * x <= CYCLE * x by {
      MulMonotone(r, CYCLE, x);
    }
    assert CYCLE * ExcessSum(era) + CYCLE * x == CYCLE * (ExcessSum(era) + x);
  }

  lemma MulMonotone(a: nat, b: nat, x: nat)
    requires a <= b
    ensures a * x <= b * x
  {
  }
}
