/** What mining a block does to the ledger's total and to the token supply (blockchain.go). */
module Mining {
  import opened Domain
  import opened Ledger
  import opened Conservation

  // ---------------------------------------------------------------------------------------------
  // What applying a block cannot touch.

  predicate SameFrame(s: State, t: State) {
    && t.chain == s.chain && t.pending == s.pending && t.supply == s.supply && t.escrows == s.escrows
    && t.irreversible == s.irreversible && t.minerStats == s.minerStats && t.chainID == s.chainID
    && t.wallets == s.wallets && t.ledger.Keys == s.ledger.Keys
  }

  lemma {:induction false} ApplyTxsFrame(s: State, txs: seq<Transaction>)
    ensures SameFrame(s, ApplyTxs(s, txs)) && ApplyTxs(s, txs).reversals == s.reversals
  {
    if txs != [] {
      ApplyTxsFrame(s, txs[..|txs| - 1]);
      ApplyTxFrame(ApplyTxs(s, txs[..|txs| - 1]), txs[|txs| - 1]);
    }
  }

  lemma ApplyTxFrame(s: State, tx: Transaction)
    ensures SameFrame(s, ApplyTx(s, tx)) && ApplyTx(s, tx).reversals == s.reversals
  {
    PerformFrame(MarkUsed(s, tx), tx, KindOf(tx.txType));
  }

  lemma PerformFrame(s: State, tx: Transaction, kind: Kind)
    ensures SameFrame(s, Perform(s, tx, kind)) && Perform(s, tx, kind).reversals == s.reversals
  {
  }

  lemma {:induction false} ApplyReversalsFrame(s: State, txs: seq<Transaction>)
    ensures SameFrame(s, ApplyReversals(s, txs))
    ensures var t := ApplyReversals(s, txs); t.usedNonces == s.usedNonces && t.nextNonce == s.nextNonce
  {
    if txs != [] {
      var tx := txs[|txs| - 1];
      ApplyReversalsFrame(s, txs[..|txs| - 1]);
      ReverseFrame(ApplyReversals(s, txs[..|txs| - 1]), tx, KindOf(tx.txType));
    }
  }

  lemma CommitFrame(s: State, tx: Transaction)
    ensures SameFrame(s, Reverse(s, tx, CommitTx))
    ensures var t := Reverse(s, tx, CommitTx); t.usedNonces == s.usedNonces && t.nextNonce == s.nextNonce
  {
    if CanCommit(s, tx.payload) {
      var r := s.reversals[tx.payload];
      assert Move(s.ledger, r.to, r.from, r.amount).Keys == s.ledger.Keys;
    }
  }

  lemma OpenFrame(s: State, tx: Transaction, kind: Kind)
    requires !kind.CommitTx?
    ensures Reverse(s, tx, kind) == s.(reversals := Reverse(s, tx, kind).reversals)
  {
  }

  lemma ReverseFrame(s: State, tx: Transaction, kind: Kind)
    ensures SameFrame(s, Reverse(s, tx, kind))
    ensures var t := Reverse(s, tx, kind); t.usedNonces == s.usedNonces && t.nextNonce == s.nextNonce
  {
    if kind.CommitTx? {
      CommitFrame(s, tx);
    } else {
      OpenFrame(s, tx, kind);
    }
  }

  lemma ApplyBlockFrame(s: State, b: Block)
    ensures SameFrame(s, ApplyBlock(s, b))
  {
    ApplyTxsFrame(s, b.transactions);
    ApplyReversalsFrame(ApplyTxs(s, b.transactions), b.transactions);
  }

  // ---------------------------------------------------------------------------------------------
  // Fees.

  function Shares(cs: seq<Charge>): nat {
    if cs == [] then 0 else Shares(cs[..|cs| - 1]) + cs[|cs| - 1].share
  }

  function Burned(cs: seq<Charge>): nat {
    if cs == [] then 0 else Burned(cs[..|cs| - 1]) + cs[|cs| - 1].burned
  }

  function Totals(cs: seq<Charge>): nat {
    if cs == [] then 0 else Totals(cs[..|cs| - 1]) + cs[|cs| - 1].total
  }

  /** The transactions whose fees are charged, in block order. */
  function Paying(txs: seq<Transaction>): seq<Transaction> {
    if txs == [] then []
    else Paying(txs[..|txs| - 1]) + if txs[|txs| - 1].fee > 0 then [txs[|txs| - 1]] else []
  }

  /** 21 percent for an agent transaction once there have been agent transactions, while any supply is
      left; 1 percent for all others. */
  function RateFor(ai: bool, agents: nat, supply: int): u64 { if ai && agents > 0 && supply > 0 then 21 else 1 }

  /** One fee's division: a percentage of it, 70% of that burned as far as the supply goes, the rest shared. */
  predicate Divided(c: Charge, fee: u64, rate: u64, supply: int) {
    && c.fee == fee && c.rate == rate && c.total == Mul64(fee, rate) / 100
    && c.burned == Least(c.total * 70 / 100, supply) && c.share == c.total - c.total * 70 / 100
  }

  function Least(a: int, b: int): int { if a > b then b else a }

  predicate Capped(c: Charge) { c.burned < c.total * 70 / 100 }

  lemma PayFeeTotals(s: State, c: Charge, fund: Str)
    requires c.burned <= s.supply && Total(s.ledger) + c.share < TWO64
    ensures Total(PayFee(s, c, fund).ledger) == Total(s.ledger) + c.share
  {
    var account := if fund in s.ledger then s.ledger[fund] else Account(0, 0, false);
    if fund in s.ledger {
      SumAtLeast(s.ledger, Worth, fund);
    }
    SumUpdate(s.ledger, Worth, fund, account.(balance := Add64(account.balance, c.share)));
  }

  lemma SumsAppend(cs: seq<Charge>, c: Charge)
    ensures Shares(cs + [c]) == Shares(cs) + c.share && Burned(cs + [c]) == Burned(cs) + c.burned
    ensures Totals(cs + [c]) == Totals(cs) + c.total
  {
    assert (cs + [c])[..|cs|] == cs;
  }

  ghost predicate Accounted(s: State, c: Collected, fund: Str) {
    && Total(c.s.ledger) == Total(s.ledger) + Shares(c.charges)
    && c.s.supply == s.supply - Burned(c.charges)
    && c.s.ledger.Keys <= s.ledger.Keys + {fund} && s.ledger.Keys <= c.s.ledger.Keys
  }

  lemma AdmitAccounts(s: State, c: Collected, tx: Transaction, ai: bool, fund: Str)
    requires Accounted(s, c, fund) && Total(s.ledger) + Shares(Admit(c, tx, ai, fund).charges) < TWO64
    ensures Accounted(s, Admit(c, tx, ai, fund), fund)
  {
    if tx.fee > 0 {
      var charge := ChargeFor(c.s, tx.fee, ai);
      SumsAppend(c.charges, charge);
      PayFeeTotals(c.s, charge, fund);
    }
  }

  lemma AdmitGrows(c: Collected, tx: Transaction, ai: bool, fund: Str)
    ensures Shares(c.charges) <= Shares(Admit(c, tx, ai, fund).charges)
  {
    if tx.fee > 0 {
      SumsAppend(c.charges, ChargeFor(c.s, tx.fee, ai));
    }
  }

  lemma {:induction false} CollectAccounts(s: State, rules: Rules, order: seq<Transaction>, required: seq<u64>)
    requires |order| == |required|
    requires Total(s.ledger) + Shares(Collect(s, rules, order, required).charges) < TWO64
    ensures Accounted(s, Collect(s, rules, order, required), rules.fund)
  {
    if order != [] {
      var n := |order| - 1;
      var c := Collect(s, rules, order[..n], required[..n]);
      AdmitGrows(c, order[n], rules.isAI(order[n]), rules.fund);
      CollectAccounts(s, rules, order[..n], required[..n]);
      if rules.accepts(c.s, order[n]) && order[n].fee >= required[n] {
        AdmitAccounts(s, c, order[n], rules.isAI(order[n]), rules.fund);
      }
    }
  }

  /** What is left of the supply when the k-th fee is charged. */
  function Left(supply: int, cs: seq<Charge>, k: nat): int
    requires k <= |cs|
  {
    supply - Burned(cs[..k])
  }

  /** There is one charge for each fee above zero, in order, at the rate its transaction calls for. */
  ghost predicate ChargedFor(s: State, isAI: Transaction -> bool, txs: seq<Transaction>, cs: seq<Charge>) {
    && |Paying(txs)| == |cs|
    && forall k :: 0 <= k < |cs| ==> ChargedAt(s, isAI, Paying(txs)[k], cs, k)
  }

  predicate ChargedAt(s: State, isAI: Transaction -> bool, tx: Transaction, cs: seq<Charge>, k: nat)
    requires k < |cs|
  {
    Divided(cs[k], tx.fee, RateFor(isAI(tx), s.agentTxCount, Left(s.supply, cs, k)), Left(s.supply, cs, k))
  }

  lemma ChargeIsDivided(s: State, fee: u64, ai: bool)
    ensures Divided(ChargeFor(s, fee, ai), fee, RateFor(ai, s.agentTxCount, s.supply), s.supply)
  {
  }

  lemma OneMoreCharged(
      s: State, isAI: Transaction -> bool, txs: seq<Transaction>, cs: seq<Charge>, tx: Transaction, c: Charge)
    requires ChargedFor(s, isAI, txs, cs) && tx.fee > 0
    requires Divided(c, tx.fee, RateFor(isAI(tx), s.agentTxCount, s.supply - Burned(cs)), s.supply - Burned(cs))
    ensures ChargedFor(s, isAI, txs + [tx], cs + [c])
  {
    var cs' := cs + [c];
    assert (txs + [tx])[..|txs|] == txs;
    assert Paying(txs + [tx]) == Paying(txs) + [tx];
    forall k | 0 <= k < |cs'|
      ensures ChargedAt(s, isAI, Paying(txs + [tx])[k], cs', k)
    {
      if k < |cs| {
        assert ChargedAt(s, isAI, Paying(txs)[k], cs, k);
        assert cs'[..k] == cs[..k];
      } else {
        assert cs'[..k] == cs;
      }
    }
  }

  lemma AdmitCharges(s: State, isAI: Transaction -> bool, c: Collected, tx: Transaction, fund: Str)
    requires ChargedFor(s, isAI, c.txs, c.charges)
    requires c.s.agentTxCount == s.agentTxCount && c.s.supply == s.supply - Burned(c.charges)
    ensures ChargedFor(s, isAI, Admit(c, tx, isAI(tx), fund).txs, Admit(c, tx, isAI(tx), fund).charges)
  {
    if tx.fee > 0 {
      ChargeIsDivided(c.s, tx.fee, isAI(tx));
      OneMoreCharged(s, isAI, c.txs, c.charges, tx, ChargeFor(c.s, tx.fee, isAI(tx)));
    } else {
      assert (c.txs + [tx])[..|c.txs|] == c.txs;
      assert Paying(c.txs + [tx]) == Paying(c.txs);
    }
  }

  lemma AdmitSupply(s: State, c: Collected, tx: Transaction, ai: bool, fund: Str)
    requires c.s.agentTxCount == s.agentTxCount && c.s.supply == s.supply - Burned(c.charges)
    ensures var d := Admit(c, tx, ai, fund);
            d.s.agentTxCount == s.agentTxCount && d.s.supply == s.supply - Burned(d.charges)
  {
    if tx.fee > 0 {
      SumsAppend(c.charges, ChargeFor(c.s, tx.fee, ai));
    }
  }

  lemma {:induction false} CollectCharges(s: State, rules: Rules, order: seq<Transaction>, required: seq<u64>)
    requires |order| == |required|
    ensures var c := Collect(s, rules, order, required);
            && ChargedFor(s, rules.isAI, c.txs, c.charges)
            && c.s.agentTxCount == s.agentTxCount && c.s.supply == s.supply - Burned(c.charges)
  {
    if order != [] {
      var n := |order| - 1;
      var c := Collect(s, rules, order[..n], required[..n]);
      CollectCharges(s, rules, order[..n], required[..n]);
      AdmitCharges(s, rules.isAI, c, order[n], rules.fund);
      AdmitSupply(s, c, order[n], rules.isAI(order[n]), rules.fund);
    }
  }

  // ---------------------------------------------------------------------------------------------
  // Mining.

  lemma CreditTotals(s: State, a: Str, reward: u64)
    requires Total(s.ledger) + reward < TWO64 && s.supply + reward < TWO64
    ensures var r := if a in s.ledger then reward else 0;
            Total(Credit(s, a, reward).ledger) == Total(s.ledger) + r && Credit(s, a, reward).supply == s.supply + r
  {
    if a in s.ledger {
      AddConserves(s.ledger, a, reward);
    }
  }

  lemma BuybackBounds(s: State, fund: Str)
    ensures Buyback(s, fund) <= s.supply
    ensures Buyback(s, fund) > 0 ==> fund in s.ledger && Buyback(s, fund) <= s.ledger[fund].balance
  {
  }

  lemma BuybackTotals(s: State, fund: Str)
    ensures Total(TreasuryBuyback(s, fund).ledger) == Total(s.ledger) - Buyback(s, fund)
    ensures TreasuryBuyback(s, fund).supply == s.supply - Buyback(s, fund)
  {
    BuybackBounds(s, fund);
    var burn := Buyback(s, fund);
    if burn > 0 {
      SumUpdate(s.ledger, Worth, fund, s.ledger[fund].(balance := s.ledger[fund].balance - burn));
    }
  }

  lemma AfterBuybackTotals(s: State, fund: Str)
    ensures Total(AfterBuyback(s, fund).ledger) == Total(s.ledger) - DueBuyback(s, fund)
    ensures AfterBuyback(s, fund).supply == s.supply - DueBuyback(s, fund)
  {
    BuybackTotals(s, fund);
  }

  lemma FinishAccounts(c: Collected, fund: Str, m: MineInputs, block: Block)
    requires Total(c.s.ledger) + 1 < TWO64 && c.s.supply + 1 < TWO64
    ensures var r := Finish(c, fund, m, block);
            var credited := if m.author in c.s.ledger then r.reward else 0;
            && r.reward <= 1
            && Total(r.s.ledger) == Total(c.s.ledger) + credited - r.buyback
            && r.s.supply == c.s.supply + credited - r.buyback
  {
    Rewards.AtMostOne(StatsOf(c.s, m.author), m.now);
    var (asked, reward) := AskReward(c.s, m.author, m.now);
    CreditTotals(asked, m.author, reward);
    var rewarded := Rewarded(c.s, m);
    ApplyBlockConserves(rewarded, block);
    ApplyBlockFrame(rewarded, block);
    AfterBuybackTotals(ApplyBlock(rewarded, block).(chain := c.s.chain + [block]), fund);
  }

  ghost predicate NoWrap(s: State, charges: seq<Charge>) {
    Total(s.ledger) + Shares(charges) + 1 < TWO64 && s.supply + 1 < TWO64
  }

  /** A successful mining changes the ledger's total by the community shares, plus the reward if the author
      has an account, minus the buyback; and the supply by minus the burns, plus the same reward, minus
      the same buyback. One charge is made for each fee above zero in the block, at the rate its
      transaction calls for. */
  ghost predicate Balanced(s: State, r: Mined, isAI: Transaction -> bool, hasAccount: bool) {
    r.MineDone? &&
    var credited := if hasAccount then r.reward else 0;
    && Total(r.s.ledger) == Total(s.ledger) + Shares(r.charges) + credited - r.buyback
    && r.s.supply == s.supply - Burned(r.charges) + credited - r.buyback
    && r.reward <= 1
    && ChargedFor(s, isAI, r.block.transactions, r.charges)
  }

  lemma FinishBalanced(s: State, c: Collected, rules: Rules, m: MineInputs, block: Block)
    requires Accounted(s, c, rules.fund) && ChargedFor(s, rules.isAI, c.txs, c.charges)
    requires block.transactions == c.txs && NoWrap(s, c.charges)
    ensures Balanced(s, Finish(c, rules.fund, m, block), rules.isAI, m.author in c.s.ledger)
  {
    FinishAccounts(c, rules.fund, m, block);
  }

  /** The outcome of mining, whatever the verdict on the block. */
  ghost predicate Settled(s: State, r: Mined, isAI: Transaction -> bool, hasAccount: bool) {
    match r
    case MineDone(_, _, _, _, _) => Balanced(s, r, isAI, hasAccount)
    case MineFailed(t, charges) =>
      Total(t.ledger) == Total(s.ledger) + Shares(charges) && t.supply == s.supply - Burned(charges)
  }

  lemma ChargedIgnoresChain(s: State, t: State, isAI: Transaction -> bool, txs: seq<Transaction>, cs: seq<Charge>)
    requires ChargedFor(t, isAI, txs, cs) && t.agentTxCount == s.agentTxCount && t.supply == s.supply
    ensures ChargedFor(s, isAI, txs, cs)
  {
    forall k | 0 <= k < |cs|
      ensures ChargedAt(s, isAI, Paying(txs)[k], cs, k)
    {
      assert ChargedAt(t, isAI, Paying(txs)[k], cs, k);
    }
  }

  lemma GenesisKeepsFunds(s: State, genesis: Block)
    ensures var t := WithGenesis(s, genesis);
            t.ledger == s.ledger && t.supply == s.supply && t.agentTxCount == s.agentTxCount
  {
  }

  lemma FeesAccounted(s: State, t: State, rules: Rules, order: seq<Transaction>, required: seq<u64>, c: Collected)
    requires t.ledger == s.ledger && t.supply == s.supply
    requires |order| == |required| && c == Collect(t, rules, order, required) && NoWrap(s, c.charges)
    ensures Accounted(s, c, rules.fund)
  {
    CollectAccounts(t, rules, order, required);
  }

  lemma FeesCharged(s: State, t: State, rules: Rules, order: seq<Transaction>, required: seq<u64>, c: Collected)
    requires t.supply == s.supply && t.agentTxCount == s.agentTxCount
    requires |order| == |required| && c == Collect(t, rules, order, required)
    ensures ChargedFor(s, rules.isAI, c.txs, c.charges)
  {
    CollectCharges(t, rules, order, required);
    ChargedIgnoresChain(s, t, rules.isAI, c.txs, c.charges);
  }

  /** Mining balances, whatever the checks decide and whatever block they build from the admitted
      transactions; an attempt whose block is rejected has still charged the fees. */
  lemma MiningAccounts(s: State, rules: Rules, m: MineInputs, c: Collected)
    requires |m.order| == |m.required| && c == AfterFees(s, rules, m) && NoWrap(s, c.charges)
    requires rules.build(c.s, m, c.txs).transactions == c.txs
    ensures Settled(s, Mine(s, rules, m), rules.isAI, m.author in c.s.ledger)
  {
    GenesisKeepsFunds(s, m.genesis);
    FeesAccounted(s, WithGenesis(s, m.genesis), rules, m.order, m.required, c);
    FeesCharged(s, WithGenesis(s, m.genesis), rules, m.order, m.required, c);
    FinishBalanced(s, c, rules, m, rules.build(c.s, m, c.txs));
  }

  /** The node's own rules build the block from exactly the admitted transactions. */
  lemma NodeBuildsFromAdmitted(env: Env, s: State, m: MineInputs, txs: seq<Transaction>)
    ensures RulesOf(env).build(s, m, txs).transactions == txs
  {
  }

  /** The burn was not cut off by the supply. */
  predicate Whole(c: Charge) { c.burned == c.total * 70 / 100 && c.share == c.total - c.total * 70 / 100 }

  lemma {:induction false} WholeSplit(cs: seq<Charge>)
    requires forall c :: c in cs ==> Whole(c)
    ensures Shares(cs) + Burned(cs) == Totals(cs)
  {
    if cs != [] {
      var last := cs[|cs| - 1];
      WholeSplit(cs[..|cs| - 1]);
      assert last in cs && last.burned + last.share == last.total;
    }
  }

  lemma UncappedIsWhole(s: State, isAI: Transaction -> bool, txs: seq<Transaction>, cs: seq<Charge>)
    requires ChargedFor(s, isAI, txs, cs) && forall c :: c in cs ==> !Capped(c)
    ensures forall c :: c in cs ==> Whole(c)
  {
    forall c | c in cs
      ensures Whole(c)
    {
      var k :| 0 <= k < |cs| && cs[k] == c;
      assert ChargedAt(s, isAI, Paying(txs)[k], cs, k);
    }
  }

  /** While no burn is cut off by the supply, the gap between ledger and supply grows by exactly the sum of
      floor(fee * rate / 100) over the charged fees, the product taken in 64 bits and the rate the one each
      transaction calls for. */
  lemma GapGrowsByTotals(s: State, rules: Rules, m: MineInputs, c: Collected)
    requires |m.order| == |m.required| && c == AfterFees(s, rules, m) && NoWrap(s, c.charges)
    requires rules.build(c.s, m, c.txs).transactions == c.txs && Mine(s, rules, m).MineDone?
    requires forall charge :: charge in Mine(s, rules, m).charges ==> !Capped(charge)
    ensures var r := Mine(s, rules, m);
            && ChargedFor(s, rules.isAI, r.block.transactions, r.charges)
            && (Total(r.s.ledger) - r.s.supply) - (Total(s.ledger) - s.supply) == Totals(r.charges)
  {
    MiningAccounts(s, rules, m, c);
    var r := Mine(s, rules, m);
    UncappedIsWhole(s, rules.isAI, r.block.transactions, r.charges);
    WholeSplit(r.charges);
  }

  lemma WrapsIff(p: nat)
    ensures p % TWO64 == p <==> p < TWO64
  {
  }

  lemma RateAtMost21(fee: u64, rate: u64)
    requires rate in {1, 21}
    ensures fee * rate <= fee * 21
  {
  }

  /** The product is the true one exactly when it stays below 2^64, as it does for fees below 2^64 / 21. */
  lemma ProductExactIff(fee: u64, rate: u64)
    ensures Mul64(fee, rate) == fee * rate <==> fee * rate < TWO64
    ensures fee * 21 < TWO64 && rate in {1, 21} ==> Mul64(fee, rate) == fee * rate
  {
    WrapsIff(fee * rate);
    if rate in {1, 21} {
      RateAtMost21(fee, rate);
    }
  }

  /** Charging fees touches no account but the fund: no fee is taken from its sender. */
  lemma {:induction false} FeesLeaveOthers(s: State, rules: Rules, order: seq<Transaction>, required: seq<u64>, a: Str)
    requires |order| == |required| && a != rules.fund
    ensures var l := Collect(s, rules, order, required).s.ledger;
            (a in l <==> a in s.ledger) && (a in l ==> l[a] == s.ledger[a])
  {
    if order != [] {
      FeesLeaveOthers(s, rules, order[..|order| - 1], required[..|order| - 1], a);
    }
  }

  // ---------------------------------------------------------------------------------------------
  // Exactly which transactions are admitted, and how much is bought back.

  /** The transactions taken from the sorted pool: at its turn, each that is valid with the fees charged so far
      and pays what is required, and no other. */
  ghost predicate Picked(
      s: State, rules: Rules, order: seq<Transaction>, required: seq<u64>, txs: seq<Transaction>)
    requires |order| == |required|
  {
    if order == [] then txs == []
    else
      var n := |order| - 1;
      if rules.accepts(Collect(s, rules, order[..n], required[..n]).s, order[n]) && required[n] <= order[n].fee
      then txs != [] && txs[|txs| - 1] == order[n] && Picked(s, rules, order[..n], required[..n], txs[..|txs| - 1])
      else Picked(s, rules, order[..n], required[..n], txs)
  }

  lemma {:induction false} CollectPicks(s: State, rules: Rules, order: seq<Transaction>, required: seq<u64>)
    requires |order| == |required|
    ensures Picked(s, rules, order, required, Collect(s, rules, order, required).txs)
  {
    if order != [] {
      var n := |order| - 1;
      CollectPicks(s, rules, order[..n], required[..n]);
      var txs := Collect(s, rules, order[..n], required[..n]).txs;
      assert (txs + [order[n]])[..|txs|] == txs;
    }
  }

  /** The amount a buyback may burn: ten times it is within the fund, a hundred times it within the supply. */
  predicate MayBurn(l: map<Str, Account>, supply: u64, fund: Str, burn: nat) {
    burn == 0 || (fund in l && 10 * burn <= l[fund].balance && 100 * burn <= supply)
  }

  /** It burns the greatest such amount. */
  lemma BuybackIsGreatest(l: map<Str, Account>, supply: u64, fund: Str)
    ensures MayBurn(l, supply, fund, BuybackOf(l, supply, fund))
    ensures forall burn: nat :: MayBurn(l, supply, fund, burn) ==> burn <= BuybackOf(l, supply, fund)
  {
  }

  /** Mining buys back after the block is applied, once there has been an agent transaction. */
  lemma MinedBuyback(c: Collected, fund: Str, m: MineInputs, block: Block)
    ensures var s := ApplyBlock(Rewarded(c.s, m), block);
            Finish(c, fund, m, block).buyback == if s.agentTxCount == 0 then 0 else BuybackOf(s.ledger, s.supply, fund)
  {
    var s := ApplyBlock(Rewarded(c.s, m), block);
    var t := s.(chain := c.s.chain + [block]);
    assert t.ledger == s.ledger && t.supply == s.supply && t.agentTxCount == s.agentTxCount;
  }
}
