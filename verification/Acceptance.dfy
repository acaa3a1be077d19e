/** What is accepted (blockchain.go): which transactions, by their type, and which blocks; and that nothing else
    ever gets into the blocks that a run applies. */
module Acceptance {
  import opened Domain
  import opened Ledger
  import opened Node
  import TxRoot

  // ---------------------------------------------------------------------------------------------
  // Transactions.

  /** The names of the transaction types. */
  lemma KindNames(t: Str)
    ensures KindOf(t).Transfer? <==> t == "TRANSFER"
    ensures KindOf(t).RegisterModelTx? <==> t == "REGISTER_MODEL"
    ensures KindOf(t).UpdateModelTx? <==> t == "UPDATE_MODEL"
    ensures KindOf(t).PurchaseTx? <==> t == "PURCHASE_API_KEY"
    ensures KindOf(t).RequestTx? <==> t == "REQUEST_REVERSAL"
    ensures KindOf(t).ConfirmTx? <==> t == "CONFIRM_REVERSAL"
    ensures KindOf(t).CommitTx? <==> t == "COMMIT_REVERSAL"
  {
    var transfer: Str, register: Str, update: Str := "TRANSFER", "REGISTER_MODEL", "UPDATE_MODEL";
    var purchase: Str := "PURCHASE_API_KEY";
    var request: Str, confirm: Str, commit: Str := "REQUEST_REVERSAL", "CONFIRM_REVERSAL", "COMMIT_REVERSAL";
    assert |transfer| == 8 && |register| == 14 && |update| == 12 && |purchase| == 16 && |commit| == 15;
    assert |request| == 16 && |confirm| == 16 && purchase[0] == 'P' && request[0] == 'R' && confirm[0] == 'C';
  }

  /** Signed, for this chain, not used before, from an existing account, and moving something unless to oneself. */
  predicate Genuine(s: State, env: Env, tx: Transaction) {
    && env.verify(tx) && tx.chainID == s.chainID && s.chainID != []
    && !(tx.nonce > 0 && (tx.nonce in UsedBy(s, tx.from) || tx.nonce < NextOf(s, tx.from)))
    && tx.from in s.ledger && (tx.from == tx.to || tx.amount > 0)
  }

  predicate CanPay(s: State, a: Str, amount: nat) { a in s.ledger && s.ledger[a].balance >= amount }
  predicate HasStake(s: State, a: Str) { a in s.ledger && s.ledger[a].staked >= 500_000_000 }

  /** The transfer a reversal is requested for. */
  predicate Reversible(s: State, tx: Transaction) {
    match FindOriginal(s.chain, tx.payload)
    case None => false
    case Some(o) => o.from == tx.from && o.to == tx.to && o.amount == tx.amount && o.txType == "TRANSFER"
  }

  /** What the sender is entitled to, by the type of transaction. */
  predicate Entitled(s: State, tx: Transaction) {
    var t, p := tx.txType, tx.payload;
    || (t == "TRANSFER" && CanPay(s, tx.from, tx.amount) && tx.to in s.ledger)
    || (t == "REGISTER_MODEL" && tx.from in s.ledger && s.ledger[tx.from].isAgent && tx.to !in s.registry
        && HasStake(s, tx.from) && CanPay(s, tx.from, 100_000_000))
    || (t == "UPDATE_MODEL" && tx.to in s.registry && s.registry[tx.to].owner == tx.from
        && HasStake(s, tx.from) && CanPay(s, tx.from, 100_000_000))
    || (t == "PURCHASE_API_KEY" && tx.to in s.registry && s.registry[tx.to].active
        && CanPay(s, tx.from, tx.amount) && CanPay(s, tx.from, 100_000_000))
    || (t == "REQUEST_REVERSAL" && p != [] && tx.amount > 0 && p !in s.irreversible && p !in s.reversals
        && Reversible(s, tx) && CanPay(s, tx.to, tx.amount))
    || (t == "CONFIRM_REVERSAL" && p != [] && p in s.reversals && s.reversals[p].status == Requested
        && s.reversals[p].to == tx.from)
    || (t == "COMMIT_REVERSAL" && p != [] && p in s.reversals && s.reversals[p].status == Confirmed
        && (tx.from == s.reversals[p].from || tx.from == s.reversals[p].to))
  }

  lemma RequestIff(s: State, tx: Transaction)
    ensures ValidRequest(s, tx) <==>
            && tx.payload != [] && tx.amount > 0 && tx.payload !in s.irreversible && tx.payload !in s.reversals
            && Reversible(s, tx) && CanPay(s, tx.to, tx.amount)
  {
    if FindOriginal(s.chain, tx.payload).Some? {
      KindNames(FindOriginal(s.chain, tx.payload).value.txType);
    }
  }

  /** A transaction is valid if and only if it is genuine and its sender entitled. */
  lemma ValidIff(s: State, env: Env, tx: Transaction)
    ensures ValidTransaction(s, env, tx) <==> Genuine(s, env, tx) && Entitled(s, tx)
  {
    KindNames(tx.txType);
    RequestIff(s, tx);
  }

  // ---------------------------------------------------------------------------------------------
  // Blocks.

  /** The block follows its predecessor: next index, the predecessor's hash, its own hash over all the rest, and
      the root of its transactions if it has one. */
  predicate Follows(env: Env, b: Block, prev: Block) {
    && b.index == (prev.index + 1) % TWO64 && b.previousHash == prev.blockHash
    && b.blockHash == env.hashBlock(b.(blockHash := [])) && |b.blockHash| > 0
    && (b.txMerkleRoot == [] || b.txMerkleRoot == TxRoot.MerkleRoot(env.sha, b.transactions))
  }

  predicate KnownTo(s: State, author: Str) { author in s.validators || author in s.authorities || author in s.ledger }

  ghost predicate OwnIds(txs: seq<Transaction>) {
    && (forall tx :: tx in txs ==> tx.id != [])
    && (forall i, j :: 0 <= i < |txs| && 0 <= j < |txs| && txs[i].id == txs[j].id ==> i == j)
  }

  ghost predicate BlockOk(s: State, env: Env, b: Block, prev: Block) {
    && Follows(env, b, prev) && OwnIds(b.transactions)
    && (forall tx :: tx in b.transactions ==> Genuine(s, env, tx) && Entitled(s, tx))
    && (s.consensus == ProofOfStake && b.author != [] ==> KnownTo(s, b.author))
  }

  lemma FollowsIff(env: Env, b: Block, prev: Block)
    ensures Linked(env, b, prev) <==> Follows(env, b, prev)
  {
  }

  lemma TxsOkIff(s: State, env: Env, txs: seq<Transaction>)
    ensures ValidTxs(s, env, txs) <==>
            OwnIds(txs) && forall tx :: tx in txs ==> Genuine(s, env, tx) && Entitled(s, tx)
  {
    PassIff(txs, Acceptor(s, env));
    forall tx
      ensures Acceptor(s, env)(tx) <==> Genuine(s, env, tx) && Entitled(s, tx)
    {
      ValidIff(s, env, tx);
    }
  }

  lemma PassIff(txs: seq<Transaction>, accepts: Transaction -> bool)
    ensures AllPass(txs, accepts) <==> OwnIds(txs) && forall tx :: tx in txs ==> accepts(tx)
  {
  }

  /** A block is valid on its predecessor if and only if it follows it, its transactions have ids of their own and
      are all valid in the state before the block, and its author is known where it must be. */
  lemma BlockValidIff(s: State, env: Env, b: Block, prev: Block)
    ensures ValidBlock(s, env, b, prev) <==> BlockOk(s, env, b, prev)
  {
    FollowsIff(env, b, prev);
    TxsOkIff(s, env, b.transactions);
  }

  // ---------------------------------------------------------------------------------------------
  // Runs.

  ghost predicate ChecksBlocks(env: Env, rules: Rules) {
    forall s, b, prev :: rules.approves(s, b, prev) ==> BlockOk(s, env, b, prev)
  }

  lemma NodeChecksBlocks(env: Env)
    ensures ChecksBlocks(env, RulesOf(env))
  {
    forall s, b, prev | RulesOf(env).approves(s, b, prev)
      ensures BlockOk(s, env, b, prev)
    {
      BlockValidIff(s, env, b, prev);
    }
  }

  ghost predicate AppliedOk(env: Env, a: Applied) {
    a.direct || (a.chain != [] && a.judged.chain == a.chain && BlockOk(a.judged, env, a.block, a.chain[|a.chain| - 1]))
  }

  lemma StepAppliesOk(s: State, env: Env, rules: Rules, op: Op, b: Block)
    requires ChecksBlocks(env, rules) && Legal(s, op) && AppliedBlock(s, rules, op) == Some(b)
    ensures AppliedOk(env, Record(s, rules, op, b))
  {
    if !op.UniversalOp? {
      StepApplies(s, rules, op);
    }
  }

  /** In every run, every block applied other than by a universal transfer was valid in the state it was
      validated in, and on the tip of the chain it was added to: so each of its transactions was signed, for the
      node's chain, unused, and its sender entitled to it. */
  lemma {:induction false} AppliedIsValid(es: History, env: Env, rules: Rules, i: nat)
    requires ChecksBlocks(env, rules) && LegalRun(es, rules) && i < |Blocks(es, rules)|
    ensures AppliedOk(env, Blocks(es, rules)[i])
  {
    var s, earlier := Run(es.past, rules), Blocks(es.past, rules);
    if i < |earlier| {
      AppliedIsValid(es.past, env, rules, i);
    } else {
      StepAppliesOk(s, env, rules, es.op, AppliedBlock(s, rules, es.op).value);
    }
  }

  /** All that validation reads, other than chain and ledger. */
  predicate SameBasis(s: State, t: State) {
    && t.chainID == s.chainID && t.usedNonces == s.usedNonces && t.nextNonce == s.nextNonce
    && t.registry == s.registry && t.irreversible == s.irreversible && t.reversals == s.reversals
    && t.consensus == s.consensus && t.validators == s.validators && t.authorities == s.authorities
  }

  lemma ChainKeepsBasis(s: State, chain: seq<Block>)
    ensures SameBasis(s, s.(chain := chain))
  {
  }

  lemma GenesisKeepsBasis(s: State, genesis: Block)
    ensures SameBasis(s, WithGenesis(s, genesis))
  {
    var r, t := WithGenesis(s, genesis), s.(chain := [genesis]);
    ChainKeepsBasis(s, [genesis]);
    assert r == s || r == t;
  }

  lemma FeesKeepBasis(s: State, t: State)
    requires t == s.(supply := t.supply, ledger := t.ledger)
    ensures SameBasis(s, t)
  {
  }

  /** The state a block is validated in is the one before the step, with the fees of a mined block charged. */
  lemma JudgedIs(s: State, rules: Rules, op: Op)
    requires Legal(s, op)
    ensures SameBasis(s, Judging(s, rules, op)) && (!op.MineOp? ==> Judging(s, rules, op) == s)
  {
    if op.MineOp? {
      GenesisKeepsBasis(s, op.m.genesis);
      FeesKeepBasis(WithGenesis(s, op.m.genesis), AfterFees(s, rules, op.m).s);
    }
  }
}
