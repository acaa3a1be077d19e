/** The node's state and what each of its operations does to it (blockchain.go), as functions.
    The class in Blockchain.dfy performs them in place. */
module Ledger {
  import opened Domain
  import TxRoot
  import Rewards

  const HOGOHOGO: nat := 10_000_000
  const MIN_STAKE: u64 := 100 * HOGOHOGO
  const AI_MODEL_STAKE: u64 := 50 * HOGOHOGO
  const AGENT_MIN_BALANCE: u64 := 10 * HOGOHOGO
  const FUND_PREFIX: Str := "tdr-community-fund-"
  const TWELVE_ZEROS: Str := "000000000000"
  const COMMUNITY_FUND: Str := FUND_PREFIX + TWELVE_ZEROS + TWELVE_ZEROS + TWELVE_ZEROS

  // ---------------------------------------------------------------------------------------------
  // Entities.

  datatype Account = Account(balance: u64, staked: u64, isAgent: bool)
  datatype ModelRef = ModelRef(id: Str, owner: Str, cid: Str, active: bool, pricePerCall: u64)
  datatype Escrow = Escrow(id: Str, from: Str, to: Str, amount: u64, serviceID: Str)
  datatype Status = Requested | Confirmed
  datatype PendingReversal = PendingReversal(
    id: Str, originalTxID: Str, from: Str, to: Str, amount: u64, requester: Str, confirmer: Str, status: Status)
  datatype Consensus = ProofOfStake | ProofOfAuthority | ProofOfWork

  datatype State = State(
    chain: seq<Block>, pending: seq<Transaction>, ledger: map<Str, Account>, registry: map<Str, ModelRef>,
    consensus: Consensus, authorities: seq<Str>, supply: u64, escrows: map<Str, Escrow>,
    usedNonces: map<Str, set<u64>>, nextNonce: map<Str, u64>, validators: map<Str, u64>, chainID: Str,
    agentTxCount: u64, minerStats: map<Str, Rewards.MinerStats>, wallets: map<Str, Str>,
    reversals: map<Str, PendingReversal>, irreversible: set<Str>)

  /** A new node, before it loads anything. */
  function NewNode(consensus: Consensus, chainID: Str, genesis: Block): State {
    State([genesis], [], map[], map[], consensus, [], 1_000_000_000, map[], map[], map[], map[], chainID, 0, map[],
          map[], map[], {})
  }

  // Signature checking, block hashing and SHA-256 are given.
  datatype Env = Env(verify: Transaction -> bool, hashBlock: Block -> Str, sha: TxRoot.Digest)

  datatype Kind = Transfer | RegisterModelTx | UpdateModelTx | PurchaseTx | RequestTx | ConfirmTx | CommitTx | UnknownTx

  function KindOf(t: Str): Kind {
    if t == "TRANSFER" then Transfer
    else if t == "REGISTER_MODEL" then RegisterModelTx
    else if t == "UPDATE_MODEL" then UpdateModelTx
    else if t == "PURCHASE_API_KEY" then PurchaseTx
    else if t == "REQUEST_REVERSAL" then RequestTx
    else if t == "CONFIRM_REVERSAL" then ConfirmTx
    else if t == "COMMIT_REVERSAL" then CommitTx
    else UnknownTx
  }

  predicate IsAI(k: Kind) { k.RegisterModelTx? || k.UpdateModelTx? || k.PurchaseTx? }

  // ---------------------------------------------------------------------------------------------
  // Balances.

  /** Takes from one balance, then adds to the other; the two may be the same account. */
  function Move(l: map<Str, Account>, from: Str, to: Str, amount: u64): map<Str, Account>
    requires from in l && to in l && l[from].balance >= amount
  {
    var l := l[from := l[from].(balance := l[from].balance - amount)];
    l[to := l[to].(balance := Add64(l[to].balance, amount))]
  }

  predicate CanMove(l: map<Str, Account>, from: Str, to: Str, amount: u64) {
    from in l && to in l && l[from].balance >= amount
  }

  function MoveIfPossible(l: map<Str, Account>, from: Str, to: Str, amount: u64): map<Str, Account> {
    if CanMove(l, from, to, amount) then Move(l, from, to, amount) else l
  }

  /** Balance to stake, in the same account. */
  function Lock(l: map<Str, Account>, a: Str, amount: u64): map<Str, Account>
    requires a in l && l[a].balance >= amount
  {
    l[a := l[a].(balance := l[a].balance - amount, staked := Add64(l[a].staked, amount))]
  }

  // ---------------------------------------------------------------------------------------------
  // Nonces.

  function UsedBy(s: State, from: Str): set<u64> { if from in s.usedNonces then s.usedNonces[from] else {} }
  function NextOf(s: State, from: Str): u64 { if from in s.nextNonce then s.nextNonce[from] else 0 }

  predicate IsReplay(s: State, tx: Transaction) {
    tx.nonce != 0 && (tx.nonce in UsedBy(s, tx.from) || NextOf(s, tx.from) > tx.nonce)
  }

  function MarkUsed(s: State, tx: Transaction): State {
    if tx.nonce == 0 then s
    else
      s.(usedNonces := s.usedNonces[tx.from := UsedBy(s, tx.from) + {tx.nonce}],
         nextNonce := if NextOf(s, tx.from) <= tx.nonce then s.nextNonce[tx.from := Add64(tx.nonce, 1)]
                      else s.nextNonce)
  }

  // ---------------------------------------------------------------------------------------------
  // Validation.

  function FindInBlock(txs: seq<Transaction>, id: Str): Option<Transaction> {
    if txs == [] then None else if txs[0].id == id then Some(txs[0]) else FindInBlock(txs[1..], id)
  }

  /** The first transaction on the chain with this id. */
  function FindOriginal(chain: seq<Block>, id: Str): Option<Transaction> {
    if chain == [] then None
    else
      var found := FindInBlock(chain[0].transactions, id);
      if found.Some? then found else FindOriginal(chain[1..], id)
  }

  predicate ValidRequest(s: State, tx: Transaction) {
    && tx.amount != 0 && tx.payload != []
    && tx.payload !in s.irreversible
    && var original := FindOriginal(s.chain, tx.payload);
    && original.Some?
    && original.value.from == tx.from && original.value.to == tx.to && original.value.amount == tx.amount
    && KindOf(original.value.txType).Transfer?
    && tx.to in s.ledger && s.ledger[tx.to].balance >= tx.amount
    && tx.payload !in s.reversals
  }

  predicate ValidConfirm(s: State, tx: Transaction) {
    && tx.payload != [] && tx.payload in s.reversals
    && s.reversals[tx.payload].status.Requested? && s.reversals[tx.payload].to == tx.from
  }

  predicate ValidCommit(s: State, tx: Transaction) {
    && tx.payload != [] && tx.payload in s.reversals
    && s.reversals[tx.payload].status.Confirmed?
    && tx.from in {s.reversals[tx.payload].from, s.reversals[tx.payload].to}
  }

  predicate ValidTransaction(s: State, env: Env, tx: Transaction) {
    && tx.chainID == s.chainID && tx.chainID != [] && env.verify(tx)
    && !IsReplay(s, tx)
    && tx.from in s.ledger
    && !(tx.from != tx.to && tx.amount == 0)
    && var kind, sender := KindOf(tx.txType), s.ledger[tx.from];
    && !(IsAI(kind) && sender.balance < AGENT_MIN_BALANCE)
    && match kind
       case Transfer => tx.to in s.ledger && sender.balance >= tx.amount
       case RegisterModelTx => sender.isAgent && tx.to !in s.registry && sender.staked >= AI_MODEL_STAKE
       case UpdateModelTx =>
         tx.to in s.registry && s.registry[tx.to].owner == tx.from && sender.staked >= AI_MODEL_STAKE
       case PurchaseTx => tx.to in s.registry && sender.balance >= tx.amount && s.registry[tx.to].active
       case RequestTx => ValidRequest(s, tx)
       case ConfirmTx => ValidConfirm(s, tx)
       case CommitTx => ValidCommit(s, tx)
       case UnknownTx => false
  }

  function BlockHash(env: Env, b: Block): Str { env.hashBlock(b.(blockHash := [])) }

  /** The checks on a block against its predecessor. */
  predicate Linked(env: Env, b: Block, prev: Block) {
    && b.index == Add64(prev.index, 1) && b.previousHash == prev.blockHash && b.blockHash != []
    && (b.txMerkleRoot != [] ==> TxRoot.MerkleRoot(env.sha, b.transactions) == b.txMerkleRoot)
    && BlockHash(env, b) == b.blockHash
  }

  /** Every transaction has an id of its own and is accepted. */
  predicate AllPass(txs: seq<Transaction>, accepts: Transaction -> bool) {
    && (forall i :: 0 <= i < |txs| ==> txs[i].id != [] && accepts(txs[i]))
    && (forall i, j :: 0 <= i < j < |txs| ==> txs[i].id != txs[j].id)
  }

  function Acceptor(s: State, env: Env): Transaction -> bool { (tx: Transaction) => ValidTransaction(s, env, tx) }

  /** The checks on its transactions: all against the state before the block. */
  predicate ValidTxs(s: State, env: Env, txs: seq<Transaction>) { AllPass(txs, Acceptor(s, env)) }

  predicate KnownAuthor(s: State, b: Block) {
    s.consensus.ProofOfStake? && b.author != [] ==>
      b.author in s.validators || b.author in s.authorities || b.author in s.ledger
  }

  predicate ValidBlock(s: State, env: Env, b: Block, prev: Block) {
    Linked(env, b, prev) && ValidTxs(s, env, b.transactions) && KnownAuthor(s, b)
  }

  predicate ValidAt(s: State, env: Env, chain: seq<Block>, i: nat)
    requires 1 <= i < |chain|
  {
    ValidBlock(s, env, chain[i], chain[i - 1])
  }

  predicate ValidChain(s: State, env: Env, chain: seq<Block>) {
    && chain != [] && chain[0].index == 0
    && forall i {:trigger ValidAt(s, env, chain, i)} :: 1 <= i < |chain| ==> ValidAt(s, env, chain, i)
  }

  // ---------------------------------------------------------------------------------------------
  // What operations are given: inputs from outside, and the checks above.

  function TailHash(s: State): Str {
    var zero: Str := "0";
    if s.chain == [] then zero else s.chain[|s.chain| - 1].blockHash
  }

  /** What mining takes from outside: the chosen author, the clock, the sorted pool, the required fees,
      the nonce found by proof of work, and a genesis block in case there is none. */
  datatype MineInputs = MineInputs(
    paused: bool, author: Str, timestamp: i64, now: nat, later: nat, order: seq<Transaction>, required: seq<u64>,
    powNonce: u64, genesis: Block)

  predicate SortedByFee(txs: seq<Transaction>) {
    forall i, j :: 0 <= i < j < |txs| ==>
      txs[i].fee > txs[j].fee || (txs[i].fee == txs[j].fee && txs[i].timestamp <= txs[j].timestamp)
  }

  predicate Fair(s: State, m: MineInputs) {
    && |m.order| == |m.required| && SortedByFee(m.order) && multiset(m.order) == multiset(s.pending)
    && m.genesis.index == 0
  }

  function WithGenesis(s: State, genesis: Block): State { if s.chain == [] then s.(chain := [genesis]) else s }

  function NewBlock(s: State, env: Env, m: MineInputs, txs: seq<Transaction>): Block {
    var b := Block(|s.chain| % TWO64, m.author, m.author, TailHash(s), m.timestamp, txs,
                   if s.consensus.ProofOfWork? then m.powNonce else 0, [], TxRoot.MerkleRoot(env.sha, txs));
    b.(blockHash := BlockHash(env, b))
  }

  /** The checks and the block construction that mining, submitting and adopting a chain rely on. Kept
      as values so that what holds whatever they decide can be said without them. */
  datatype Rules = Rules(
    accepts: (State, Transaction) -> bool,
    isAI: Transaction -> bool,
    build: (State, MineInputs, seq<Transaction>) -> Block,
    approves: (State, Block, Block) -> bool,
    adopts: (State, seq<Block>) -> bool,
    fund: Str)

  function RulesOf(env: Env): Rules {
    Rules((s: State, tx: Transaction) => ValidTransaction(s, env, tx),
          (tx: Transaction) => IsAI(KindOf(tx.txType)),
          (s: State, m: MineInputs, txs: seq<Transaction>) => NewBlock(s, env, m, txs),
          (s: State, b: Block, prev: Block) => ValidBlock(s, env, b, prev),
          (s: State, chain: seq<Block>) => ValidChain(s, env, chain),
          COMMUNITY_FUND)
  }

  // ---------------------------------------------------------------------------------------------
  // Applying a block.

  const NO_MODEL := ModelRef([], [], [], false, 0)

  function ModelOf(s: State, id: Str): ModelRef { if id in s.registry then s.registry[id] else NO_MODEL }

  function Cid(id: Str, owner: Str, version: Str): Str {
    var colon: Str := ":";
    id + colon + owner + colon + version
  }

  function Perform(s: State, tx: Transaction, kind: Kind): State {
    match kind
    case Transfer => s.(ledger := MoveIfPossible(s.ledger, tx.from, tx.to, tx.amount))
    case RegisterModelTx =>
      s.(registry := s.registry[tx.to := ModelRef(tx.to, tx.from, Cid(tx.to, tx.from, tx.payload), true, tx.amount)],
         agentTxCount := Add64(s.agentTxCount, 1))
    case UpdateModelTx =>
      var cid := Cid(tx.to, tx.from, tx.payload);
      s.(registry := s.registry[tx.to := ModelOf(s, tx.to).(cid := cid, pricePerCall := tx.amount)],
         agentTxCount := Add64(s.agentTxCount, 1))
    case PurchaseTx =>
      s.(ledger := MoveIfPossible(s.ledger, tx.from, ModelOf(s, tx.to).owner, tx.amount),
         agentTxCount := Add64(s.agentTxCount, 1))
    case _ => s
  }

  function ApplyTx(s: State, tx: Transaction): State { Perform(MarkUsed(s, tx), tx, KindOf(tx.txType)) }

  /** A confirmed reversal whose receiver can still pay. */
  predicate CanCommit(s: State, p: Str) {
    && p in s.reversals && s.reversals[p].status.Confirmed?
    && CanMove(s.ledger, s.reversals[p].to, s.reversals[p].from, s.reversals[p].amount)
  }

  /** The reversal a request opens. */
  function Opened(tx: Transaction): PendingReversal {
    PendingReversal(tx.id, tx.payload, tx.from, tx.to, tx.amount, tx.from, [], Requested)
  }

  /** One transaction's part in the reversal protocol. */
  function Reverse(s: State, tx: Transaction, kind: Kind): State {
    var p := tx.payload;
    match kind
    case RequestTx =>
      if p in s.reversals then s
      else s.(reversals := s.reversals[p := Opened(tx)])
    case ConfirmTx =>
      if p in s.reversals && s.reversals[p].status.Requested?
      then s.(reversals := s.reversals[p := s.reversals[p].(status := Confirmed, confirmer := tx.from)])
      else s
    case CommitTx =>
      if CanCommit(s, p)
      then s.(ledger := Move(s.ledger, s.reversals[p].to, s.reversals[p].from, s.reversals[p].amount),
              reversals := s.reversals - {p})
      else s
    case _ => s
  }

  function ApplyReversal(s: State, tx: Transaction): State { Reverse(s, tx, KindOf(tx.txType)) }

  function ApplyTxs(s: State, txs: seq<Transaction>): State {
    if txs == [] then s else ApplyTx(ApplyTxs(s, txs[..|txs| - 1]), txs[|txs| - 1])
  }

  function ApplyReversals(s: State, txs: seq<Transaction>): State {
    if txs == [] then s else ApplyReversal(ApplyReversals(s, txs[..|txs| - 1]), txs[|txs| - 1])
  }

  function ApplyBlock(s: State, b: Block): State {
    ApplyReversals(ApplyTxs(s, b.transactions), b.transactions)
  }

  // ---------------------------------------------------------------------------------------------
  // Direct operations.

  function Stake(s: State, a: Str, amount: u64): State {
    if a in s.ledger && s.ledger[a].balance >= amount then s.(ledger := Lock(s.ledger, a, amount)) else s
  }

  function RegisterValidator(s: State, a: Str, stake: u64): State {
    if a in s.ledger && s.ledger[a].balance >= stake && stake >= MIN_STAKE
    then s.(ledger := Lock(s.ledger, a, stake), validators := s.validators[a := stake])
    else s
  }

  function RegisterModel(s: State, owner: Str, id: Str, version: Str, price: u64, active: bool): State {
    if owner in s.ledger && s.ledger[owner].balance >= AI_MODEL_STAKE
    then s.(ledger := Lock(s.ledger, owner, AI_MODEL_STAKE),
            registry := s.registry[id := ModelRef(id, owner, Cid(id, owner, version), active, price)],
            agentTxCount := Add64(s.agentTxCount, 1))
    else s
  }

  function PurchaseApiKey(s: State, buyer: Str, model: Str, amount: u64): State {
    if model in s.registry && CanMove(s.ledger, buyer, s.registry[model].owner, amount)
    then s.(ledger := Move(s.ledger, buyer, s.registry[model].owner, amount), agentTxCount := Add64(s.agentTxCount, 1))
    else s
  }

  predicate CanEscrow(s: State, from: Str, amount: u64) { from in s.ledger && s.ledger[from].balance >= amount }

  /** The id comes from the clock. */
  function CreateEscrow(s: State, from: Str, to: Str, amount: u64, service: Str, id: Str): State {
    if CanEscrow(s, from, amount)
    then s.(ledger := s.ledger[from := s.ledger[from].(balance := s.ledger[from].balance - amount)],
            escrows := s.escrows[id := Escrow(id, from, to, amount, service)],
            irreversible := s.irreversible + {id})
    else s
  }

  predicate CanTransfer(s: State, from: Str, name: Str, amount: u64) {
    amount != 0 && name in s.wallets && from in s.ledger && s.ledger[from].balance >= amount
  }

  function UniversalTx(s: State, from: Str, name: Str, amount: u64, now: i64): Transaction
    requires name in s.wallets
  {
    Transaction([], from, [], s.wallets[name], amount, 1, NextOf(s, from), "TRANSFER", [], [], now, s.chainID)
  }

  function UniversalBlock(s: State, from: Str, name: Str, amount: u64, now: i64): Block
    requires name in s.wallets
  {
    Block(|s.chain| % TWO64, from, [], TailHash(s), now, [UniversalTx(s, from, name, amount, now)], 0, [], [])
  }

  function WithAccount(l: map<Str, Account>, a: Str): map<Str, Account> {
    if a in l then l else l[a := Account(0, 0, false)]
  }

  /** The direct part of a universal transfer: the receiver's account is created if missing. */
  function DirectMove(l: map<Str, Account>, from: Str, to: Str, amount: u64): map<Str, Account>
    requires from in l && l[from].balance >= amount
  {
    var l := l[from := l[from].(balance := l[from].balance - amount)];
    var l := WithAccount(l, to);
    l[to := l[to].(balance := Add64(l[to].balance, amount))]
  }

  /** The state after the direct part, with the sender's next nonce taken. */
  function DirectPart(s: State, from: Str, to: Str, amount: u64): State
    requires from in s.ledger && s.ledger[from].balance >= amount
  {
    s.(ledger := DirectMove(s.ledger, from, to, amount), nextNonce := s.nextNonce[from := Add64(NextOf(s, from), 1)])
  }

  /** Moves the amount directly, then applies a block holding the same transfer. */
  function UniversalTransfer(s: State, from: Str, name: Str, amount: u64, now: i64): State {
    if !CanTransfer(s, from, name, amount) then s
    else
      var block := UniversalBlock(s, from, name, amount, now);
      ApplyBlock(DirectPart(s, from, s.wallets[name], amount), block).(chain := s.chain + [block], pending := [])
  }

  function ReplaceChain(s: State, rules: Rules, chain: seq<Block>): State {
    if rules.adopts(s, chain) && |chain| > |s.chain| then s.(chain := chain) else s
  }

  /** Credits a miner's reward if it has an account. */
  function Credit(s: State, author: Str, reward: u64): State {
    if author in s.ledger
    then s.(ledger := s.ledger[author := s.ledger[author].(balance := Add64(s.ledger[author].balance, reward))],
            supply := Add64(s.supply, reward))
    else s
  }

  function MinerOf(b: Block): Str { if b.author != [] then b.author else b.minerAddress }

  predicate CanSubmit(s: State, rules: Rules, b: Block) {
    && s.chain != [] && b.index == |s.chain|
    && rules.approves(s, b, s.chain[|s.chain| - 1]) && MinerOf(b) != []
  }

  function SubmitMinedBlock(s: State, rules: Rules, b: Block): State {
    if !CanSubmit(s, rules, b) then s
    else ApplyBlock(Credit(s, MinerOf(b), 100), b).(chain := s.chain + [b], pending := [])
  }

  // ---------------------------------------------------------------------------------------------
  // The mempool.

  const POOL_LIMIT: nat := 5000

  predicate SameKey(a: Transaction, b: Transaction) { a.id == b.id && a.nonce == b.nonce && a.from == b.from }

  /** The transaction as it is pooled: a missing id or nonce is filled in. */
  function Filled(s: State, tx: Transaction, freshId: Str): Transaction {
    var tx := if tx.id == [] then tx.(id := freshId) else tx;
    if tx.nonce == 0 then tx.(nonce := NextOf(s, tx.from)) else tx
  }

  /** The first pooled entry with this key, or the pool's length. */
  function IndexOfKey(pool: seq<Transaction>, tx: Transaction): (i: nat)
    ensures i <= |pool|
  {
    if pool == [] || SameKey(pool[0], tx) then 0 else 1 + IndexOfKey(pool[1..], tx)
  }

  /** The first pooled entry with the lowest fee. */
  function LowestFee(pool: seq<Transaction>): (i: nat)
    requires pool != []
    ensures i < |pool|
  {
    if |pool| == 1 then 0
    else
      var i := LowestFee(pool[..|pool| - 1]);
      if pool[|pool| - 1].fee < pool[i].fee then |pool| - 1 else i
  }

  lemma {:induction false} IndexOfKeyFirst(pool: seq<Transaction>, tx: Transaction)
    ensures var i := IndexOfKey(pool, tx);
            (i < |pool| ==> SameKey(pool[i], tx)) && forall j :: 0 <= j < i ==> !SameKey(pool[j], tx)
  {
    if pool != [] && !SameKey(pool[0], tx) {
      IndexOfKeyFirst(pool[1..], tx);
    }
  }

  lemma {:induction false} LowestFeeLowest(pool: seq<Transaction>)
    requires pool != []
    ensures var i := LowestFee(pool);
            && (forall j :: 0 <= j < |pool| ==> pool[i].fee <= pool[j].fee)
            && (forall j :: 0 <= j < i ==> pool[i].fee < pool[j].fee)
  {
    if |pool| > 1 {
      LowestFeeLowest(pool[..|pool| - 1]);
    }
  }

  datatype Verdict = Replaced(at: nat) | Ignored | Replay | Full | Evicted(at: nat, out: Transaction) | Queued

  /** What becomes of a transaction offered to the pool. */
  function Judge(s: State, tx: Transaction): (v: Verdict)
    ensures v.Replaced? || v.Evicted? ==> v.at < |s.pending|
  {
    var i := IndexOfKey(s.pending, tx);
    if i < |s.pending| then (if tx.fee > s.pending[i].fee then Replaced(i) else Ignored)
    else if IsReplay(s, tx) then Replay
    else if |s.pending| >= POOL_LIMIT then
      var low := LowestFee(s.pending);
      if tx.fee <= s.pending[low].fee then Full else Evicted(low, s.pending[low])
    else Queued
  }

  function Place(pool: seq<Transaction>, tx: Transaction, v: Verdict): seq<Transaction>
    requires v.Replaced? || v.Evicted? ==> v.at < |pool|
  {
    if v.Replaced? || v.Evicted? then pool[v.at := tx] else if v.Queued? then pool + [tx] else pool
  }

  function Enqueue(s: State, tx: Transaction, freshId: Str): State {
    var tx := Filled(s, tx, freshId);
    s.(pending := Place(s.pending, tx, Judge(s, tx)))
  }

  // ---------------------------------------------------------------------------------------------
  // Mining.

  /** What one fee did: `total` left the fee, `burned` the supply, `share` went to the community fund. */
  datatype Charge = Charge(fee: u64, rate: u64, total: u64, burned: u64, share: u64)

  function ChargeFor(s: State, fee: u64, ai: bool): Charge {
    var rate: u64 := if ai && s.agentTxCount > 0 && s.supply > 0 then 21 else 1;
    var total := Mul64(fee, rate) / 100;
    var permanent := total * 70 / 100;
    Charge(fee, rate, total, if permanent > s.supply then s.supply else permanent, total - permanent)
  }

  function PayFee(s: State, c: Charge, fund: Str): State
    requires c.burned <= s.supply
  {
    var account := if fund in s.ledger then s.ledger[fund] else Account(0, 0, false);
    s.(supply := s.supply - c.burned,
       ledger := s.ledger[fund := account.(balance := Add64(account.balance, c.share))])
  }

  datatype Collected = Collected(s: State, txs: seq<Transaction>, charges: seq<Charge>)

  function Admit(c: Collected, tx: Transaction, ai: bool, fund: Str): Collected {
    if tx.fee > 0 then
      var charge := ChargeFor(c.s, tx.fee, ai);
      Collected(PayFee(c.s, charge, fund), c.txs + [tx], c.charges + [charge])
    else Collected(c.s, c.txs + [tx], c.charges)
  }

  /** The loop over the sorted pool; `required` is the estimated fee of each transaction. */
  function Collect(s: State, rules: Rules, order: seq<Transaction>, required: seq<u64>): Collected
    requires |order| == |required|
  {
    if order == [] then Collected(s, [], [])
    else
      var n := |order| - 1;
      var c, tx := Collect(s, rules, order[..n], required[..n]), order[n];
      if rules.accepts(c.s, tx) && tx.fee >= required[n] then Admit(c, tx, rules.isAI(tx), rules.fund) else c
  }

  /** A tenth of the fund, but no more than a hundredth of the supply. */
  function BuybackOf(l: map<Str, Account>, supply: u64, fund: Str): u64 {
    if supply == 0 || fund !in l then 0
    else
      var tenth, cap := l[fund].balance / 10, supply / 100;
      if tenth > cap then cap else tenth
  }

  function Buyback(s: State, fund: Str): u64 { BuybackOf(s.ledger, s.supply, fund) }

  function BoughtBack(l: map<Str, Account>, supply: u64, fund: Str): map<Str, Account> {
    var burn := BuybackOf(l, supply, fund);
    if burn == 0 then l else l[fund := l[fund].(balance := l[fund].balance - burn)]
  }

  function TreasuryBuyback(s: State, fund: Str): State {
    s.(ledger := BoughtBack(s.ledger, s.supply, fund), supply := s.supply - Buyback(s, fund))
  }

  function StatsOf(s: State, miner: Str): Rewards.MinerStats {
    if miner in s.minerStats then s.minerStats[miner] else Rewards.NO_STATS
  }

  function AskReward(s: State, miner: Str, now: nat): (State, u64) {
    Rewards.AtMostOne(StatsOf(s, miner), now);
    var (stats, reward) := Rewards.RewardFor(StatsOf(s, miner), now);
    (s.(minerStats := s.minerStats[miner := stats]), reward)
  }

  function RecordSubmission(s: State, miner: Str, now: nat): State {
    s.(minerStats := s.minerStats[miner := Rewards.Submit(StatsOf(s, miner), now)])
  }

  datatype Mined =
    | MineFailed(s: State, charges: seq<Charge>)
    | MineDone(s: State, block: Block, charges: seq<Charge>, reward: u64, buyback: u64)

  /** The state a mined block is applied to: its author has asked for the reward and been credited. */
  function Rewarded(s: State, m: MineInputs): State {
    var (asked, reward) := AskReward(s, m.author, m.now);
    Credit(asked, m.author, reward)
  }

  /** The buyback is made once there has been an agent transaction. */
  function DueBuyback(s: State, fund: Str): u64 { if s.agentTxCount > 0 then Buyback(s, fund) else 0 }
  function AfterBuyback(s: State, fund: Str): State { if s.agentTxCount > 0 then TreasuryBuyback(s, fund) else s }

  /** Mining once the fees are collected and the block has passed validation. */
  function Finish(c: Collected, fund: Str, m: MineInputs, block: Block): Mined {
    var grown := ApplyBlock(Rewarded(c.s, m), block).(chain := c.s.chain + [block]);
    var done := RecordSubmission(AfterBuyback(grown, fund).(pending := []), m.author, m.later);
    MineDone(done, block, c.charges, AskReward(c.s, m.author, m.now).1, DueBuyback(grown, fund))
  }

  /** The state in which the fees of this attempt have been charged. */
  function AfterFees(s: State, rules: Rules, m: MineInputs): (c: Collected)
    requires |m.order| == |m.required|
    ensures c.s == WithGenesis(s, m.genesis).(supply := c.s.supply, ledger := c.s.ledger)
  {
    CollectKeepsRest(WithGenesis(s, m.genesis), rules, m.order, m.required);
    Collect(WithGenesis(s, m.genesis), rules, m.order, m.required)
  }

  /** `MineBlockFor`. A block that fails validation leaves the fees charged. */
  function Mine(s: State, rules: Rules, m: MineInputs): Mined
    requires |m.order| == |m.required|
  {
    if m.paused then MineFailed(s, [])
    else
      var c := AfterFees(s, rules, m);
      var block := rules.build(c.s, m, c.txs);
      if rules.approves(c.s, block, c.s.chain[|c.s.chain| - 1]) then Finish(c, rules.fund, m, block)
      else MineFailed(c.s, c.charges)
  }

  /** Collecting fees touches only the supply and the ledger. */
  lemma {:induction false} CollectKeepsRest(s: State, rules: Rules, order: seq<Transaction>, required: seq<u64>)
    requires |order| == |required|
    ensures var c := Collect(s, rules, order, required); c.s == s.(supply := c.s.supply, ledger := c.s.ledger)
  {
    if order != [] {
      CollectKeepsRest(s, rules, order[..|order| - 1], required[..|order| - 1]);
    }
  }
}
