/** What each of the node's direct operations changes, and that nothing else does (blockchain.go). */
module Operations {
  import opened Domain
  import opened Ledger
  import opened Conservation
  import opened Mining
  import opened Node
  import Rewards
  import TxRoot

  // ---------------------------------------------------------------------------------------------
  // Accounts.

  /** Only this account differs, by what is added to its balance and its stake. */
  predicate OnlyAccount(l: map<Str, Account>, l': map<Str, Account>, a: Str, balance: int, staked: int) {
    && l'.Keys == l.Keys && a in l
    && (forall other :: other in l && other != a ==> l'[other] == l[other])
    && l'[a].balance == l[a].balance + balance && l'[a].staked == l[a].staked + staked
    && l'[a].isAgent == l[a].isAgent
  }

  lemma LockExact(l: map<Str, Account>, a: Str, amount: u64)
    requires a in l && l[a].balance >= amount && Total(l) < TWO64
    ensures OnlyAccount(l, Lock(l, a, amount), a, 0 - amount, amount)
  {
    LockConserves(l, a, amount);
  }

  predicate Affords(s: State, a: Str, amount: nat) { a in s.ledger && s.ledger[a].balance >= amount }

  /** Staking moves the amount from balance to stake of an account that can afford it. */
  lemma StakeExact(s: State, a: Str, amount: u64)
    requires Total(s.ledger) < TWO64
    ensures var t := Stake(s, a, amount);
            if Affords(s, a, amount)
            then t == s.(ledger := t.ledger) && OnlyAccount(s.ledger, t.ledger, a, 0 - amount, amount)
            else t == s
  {
    if Affords(s, a, amount) {
      LockExact(s.ledger, a, amount);
    }
  }

  /** A validator needs a stake of at least 100 tenders that it can afford; the stake is locked and recorded. */
  lemma RegisterValidatorExact(s: State, a: Str, stake: u64)
    requires Total(s.ledger) < TWO64
    ensures var t := RegisterValidator(s, a, stake);
            if Affords(s, a, stake) && stake >= 1_000_000_000
            then && t == s.(ledger := t.ledger, validators := s.validators[a := stake])
                 && OnlyAccount(s.ledger, t.ledger, a, 0 - stake, stake)
            else t == s
  {
    if Affords(s, a, stake) {
      LockExact(s.ledger, a, stake);
    }
  }

  /** Registering a model directly locks 50 tenders of its owner and records it as given. */
  lemma RegisterModelExact(s: State, owner: Str, id: Str, version: Str, price: u64, active: bool)
    requires Total(s.ledger) < TWO64
    ensures var t := RegisterModel(s, owner, id, version, price, active);
            if Affords(s, owner, 500_000_000)
            then var e := ModelRef(id, owner, Cid(id, owner, version), active, price);
                 && t.registry == s.registry[id := e] && t.agentTxCount == (s.agentTxCount + 1) % TWO64
                 && OnlyAccount(s.ledger, t.ledger, owner, 0 - 500_000_000, 500_000_000)
                 && t == s.(ledger := t.ledger, registry := t.registry, agentTxCount := t.agentTxCount)
            else t == s
  {
    if Affords(s, owner, 500_000_000) {
      LockExact(s.ledger, owner, 500_000_000);
    }
  }

  /** A direct purchase pays the model's owner, if model and accounts exist and the buyer can afford it. */
  lemma PurchaseExact(s: State, buyer: Str, model: Str, amount: u64)
    requires Total(s.ledger) < TWO64
    ensures var t := PurchaseApiKey(s, buyer, model, amount);
            if model in s.registry && s.registry[model].owner in s.ledger && Affords(s, buyer, amount)
            then var owner := s.registry[model].owner;
                 && t.agentTxCount == (s.agentTxCount + 1) % TWO64
                 && (if buyer == owner then t.ledger == s.ledger
                     else ShiftedBy(s.ledger, t.ledger, buyer, owner, amount))
                 && t == s.(ledger := t.ledger, agentTxCount := t.agentTxCount)
            else t == s
  {
    if model in s.registry && s.registry[model].owner in s.ledger && Affords(s, buyer, amount) {
      var owner := s.registry[model].owner;
      MoveConserves(s.ledger, buyer, owner, amount);
      if buyer != owner {
        MoveShifts(s.ledger, buyer, owner, amount);
      }
    }
  }

  /** An escrow takes the amount from the sender's balance, holds it for the receiver, and cannot be reversed. */
  lemma EscrowExact(s: State, from: Str, to: Str, amount: u64, service: Str, id: Str)
    ensures var t := CreateEscrow(s, from, to, amount, service, id);
            if Affords(s, from, amount)
            then && OnlyAccount(s.ledger, t.ledger, from, 0 - amount, 0)
                 && t.escrows == s.escrows[id := Escrow(id, from, to, amount, service)]
                 && t.irreversible == s.irreversible + {id}
                 && t == s.(ledger := t.ledger, escrows := t.escrows, irreversible := t.irreversible)
            else t == s
  {
  }

  /** A credited reward goes to the author's balance and the supply, if the author has an account. */
  lemma CreditExact(s: State, author: Str, reward: u64)
    requires Total(s.ledger) + reward < TWO64 && s.supply + reward < TWO64
    ensures var t := Credit(s, author, reward);
            if author in s.ledger
            then && OnlyAccount(s.ledger, t.ledger, author, reward, 0) && t.supply == s.supply + reward
                 && t == s.(ledger := t.ledger, supply := t.supply)
            else t == s
  {
    if author in s.ledger {
      SumAtLeast(s.ledger, Worth, author);
    }
  }

  /** Before a submitted block is applied, 100 go to its author or, if it names none, to its miner. */
  lemma SubmitRewards(s: State, rules: Rules, b: Block)
    requires Total(s.ledger) + 100 < TWO64 && s.supply + 100 < TWO64
    ensures var t, miner := Base(s, rules, SubmitOp(b)), if b.author == [] then b.minerAddress else b.author;
            if miner in s.ledger then OnlyAccount(s.ledger, t.ledger, miner, 100, 0) && t.supply == s.supply + 100
            else t == s
  {
    CreditExact(s, MinerOf(b), 100);
  }

  /** Before a mined block is applied, its author is credited what it is granted, if it has an account. */
  lemma MinedRewards(s: State, m: MineInputs)
    requires Total(s.ledger) + 1 < TWO64 && s.supply + 1 < TWO64
    ensures var t, reward := Rewarded(s, m), AskReward(s, m.author, m.now).1;
            && reward <= 1
            && (if m.author in s.ledger
                then OnlyAccount(s.ledger, t.ledger, m.author, reward, 0) && t.supply == s.supply + reward
                else t.ledger == s.ledger && t.supply == s.supply)
  {
    Rewards.AtMostOne(StatsOf(s, m.author), m.now);
    var (asked, reward) := AskReward(s, m.author, m.now);
    CreditExact(asked, m.author, reward);
  }

  /** A universal transfer takes place if and only if it is of something, to a known wallet, from an account that
      can afford it; otherwise nothing changes. */
  lemma UniversalIff(s: State, from: Str, name: Str, amount: u64, now: i64)
    ensures CanTransfer(s, from, name, amount) <==> amount > 0 && name in s.wallets && Affords(s, from, amount)
    ensures !CanTransfer(s, from, name, amount) ==> UniversalTransfer(s, from, name, amount, now) == s
  {
  }

  /** A submitted block is accepted if and only if it takes the next position of a chain that there is, is valid
      on its tip, and names a miner. */
  lemma SubmittedIff(s: State, env: Env, b: Block)
    ensures CanSubmit(s, RulesOf(env), b) <==>
            && |s.chain| > 0 && b.index == |s.chain| && ValidBlock(s, env, b, s.chain[|s.chain| - 1])
            && (b.author != [] || b.minerAddress != [])
  {
  }

  // ---------------------------------------------------------------------------------------------
  // Marks and pools.

  /** Once an id is marked irreversible, no reversal can be requested for it. */
  lemma MarkedIsNotReversible(s: State, tx: Transaction)
    requires tx.payload in s.irreversible
    ensures !ValidRequest(s, tx)
  {
  }

  lemma FinishEmpties(c: Collected, fund: Str, m: MineInputs, block: Block)
    ensures Finish(c, fund, m, block).s.pending == [] && Finish(c, fund, m, block).s.irreversible == c.s.irreversible
  {
    ApplyBlockFrame(Rewarded(c.s, m), block);
  }

  /** Whatever applies a block leaves an empty pool. */
  lemma AppliedEmptiesPool(s: State, rules: Rules, op: Op)
    requires Legal(s, op) && AppliedBlock(s, rules, op).Some?
    ensures Node.Step(s, rules, op).pending == []
  {
    if op.MineOp? {
      var c := AfterFees(s, rules, op.m);
      FinishEmpties(c, rules.fund, op.m, rules.build(c.s, op.m, c.txs));
    }
  }

  lemma PlainKeepsMarks(s: State, op: PlainOp)
    ensures s.irreversible <= PlainStep(s, op).irreversible
    ensures op.MarkIrreversibleOp? ==> op.id in PlainStep(s, op).irreversible
    ensures op.EscrowOp? && Affords(s, op.from, op.amount) ==> op.id in PlainStep(s, op).irreversible
  {
    match op
    case EnqueueOp(tx, freshId) =>
    case StakeOp(a, amount) =>
    case ValidatorOp(a, amount) =>
    case ModelOp(owner, id, version, price, active) =>
    case PurchaseOp(buyer, model, amount) =>
    case EscrowOp(from, to, amount, service, id) =>
    case MarkIrreversibleOp(id) =>
  }

  lemma MineKeepsMarks(s: State, rules: Rules, m: MineInputs, c: Collected)
    requires |m.order| == |m.required| && c == AfterFees(s, rules, m)
    ensures Mine(s, rules, m).s.irreversible == s.irreversible
  {
    FinishEmpties(c, rules.fund, m, rules.build(c.s, m, c.txs));
    GenesisKeepsMarks(s, m.genesis);
  }

  lemma GenesisKeepsMarks(s: State, genesis: Block)
    ensures WithGenesis(s, genesis).irreversible == s.irreversible
  {
  }

  /** What is irreversible stays so, through every modelled operation. */
  lemma MarksStay(s: State, rules: Rules, op: Op)
    requires Legal(s, op) && !op.OtherOp?
    ensures s.irreversible <= Node.Step(s, rules, op).irreversible
  {
    match op
    case MineOp(m) => MineKeepsMarks(s, rules, m, AfterFees(s, rules, m));
    case SubmitOp(b) => ApplyBlockFrame(Credit(s, MinerOf(b), 100), b);
    case UniversalOp(from, name, amount, now) =>
      if CanTransfer(s, from, name, amount) {
        ApplyBlockFrame(DirectPart(s, from, s.wallets[name], amount), UniversalBlock(s, from, name, amount, now));
      }
    case ReplaceOp(_) =>
    case Plain(plain) => PlainKeepsMarks(s, plain);
  }

  // ---------------------------------------------------------------------------------------------
  // The blocks the node makes.

  /** A mined block: at the end of the chain, by the given author as author and miner, at the given time, with the
      admitted transactions and their root, and a nonce only under proof of work. */
  lemma MinedBlockIs(s: State, env: Env, m: MineInputs, txs: seq<Transaction>)
    ensures var b := NewBlock(s, env, m, txs);
            && b.author == m.author && b.minerAddress == m.author && b.timestamp == m.timestamp
            && b.transactions == txs && b.txMerkleRoot == TxRoot.MerkleRoot(env.sha, txs)
            && (s.consensus == ProofOfWork || b.nonce == 0) && (s.consensus == ProofOfWork ==> b.nonce == m.powNonce)
  {
  }

  /** The block of a universal transfer holds that one transfer, unsigned, with a fee of 1. */
  lemma UniversalBlockIs(s: State, from: Str, name: Str, amount: u64, now: i64)
    requires name in s.wallets
    ensures var b := UniversalBlock(s, from, name, amount, now);
            && |b.transactions| == 1 && b.author == from && b.timestamp == now
            && var tx := b.transactions[0];
            && tx.from == from && tx.to == s.wallets[name] && tx.amount == amount && tx.fee == 1
            && tx.txType == "TRANSFER" && tx.chainID == s.chainID && tx.timestamp == now
            && tx.signature == [] && tx.id == []
  {
  }
}
