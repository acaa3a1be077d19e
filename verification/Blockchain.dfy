/** The node itself (blockchain.go): the operations of Ledger performed in place. Every public method
    runs under the node's lock, so each is one atomic step. */
module Blockchain {
  import opened Domain
  import opened Ledger
  import Nonces
  import TxRoot
  import Rewards

  // ---------------------------------------------------------------------------------------------
  // How far a validation loop has come.

  ghost predicate AllBelow(ok: int -> bool, from: int, n: int)
    decreases n - from
  {
    n <= from || (AllBelow(ok, from, n - 1) && ok(n - 1))
  }

  lemma {:induction false} AllBelowIff(ok: int -> bool, from: int, n: int)
    ensures AllBelow(ok, from, n) <==> forall i :: from <= i < n ==> ok(i)
    decreases n - from
  {
    if n > from {
      AllBelowIff(ok, from, n - 1);
    }
  }

  ghost function LinkOk(s: State, env: Env, chain: seq<Block>): int -> bool {
    i => 1 <= i < |chain| && ValidAt(s, env, chain, i)
  }

  ghost function IdsOf(txs: seq<Transaction>, n: nat): set<Str>
    requires n <= |txs|
  {
    if n == 0 then {} else IdsOf(txs, n - 1) + {txs[n - 1].id}
  }

  predicate Passes(tx: Transaction, accepts: Transaction -> bool, seen: set<Str>) {
    tx.id != [] && tx.id !in seen && accepts(tx)
  }

  ghost predicate PassedUpTo(txs: seq<Transaction>, accepts: Transaction -> bool, n: nat)
    requires n <= |txs|
  {
    n == 0 || (PassedUpTo(txs, accepts, n - 1) && Passes(txs[n - 1], accepts, IdsOf(txs, n - 1)))
  }

  lemma {:induction false} PassedPrefix(txs: seq<Transaction>, accepts: Transaction -> bool, k: nat, n: nat)
    requires k <= n <= |txs|
    ensures PassedUpTo(txs, accepts, n) ==> PassedUpTo(txs, accepts, k)
  {
    if k < n {
      PassedPrefix(txs, accepts, k, n - 1);
    }
  }

  /** One turn of the loop over a block's transactions. */
  lemma PassedNext(txs: seq<Transaction>, accepts: Transaction -> bool, i: nat)
    requires i < |txs| && PassedUpTo(txs, accepts, i)
    ensures if Passes(txs[i], accepts, IdsOf(txs, i)) then PassedUpTo(txs, accepts, i + 1)
            else !PassedUpTo(txs, accepts, |txs|)
  {
    PassedPrefix(txs, accepts, i + 1, |txs|);
  }

  lemma {:induction false} IdsOfAre(txs: seq<Transaction>, n: nat, id: Str)
    requires n <= |txs|
    ensures id in IdsOf(txs, n) <==> exists i :: 0 <= i < n && txs[i].id == id
  {
    if n > 0 {
      IdsOfAre(txs, n - 1, id);
    }
  }

  /** What the loop has established after n transactions. */
  lemma {:induction false} PassedIff(txs: seq<Transaction>, accepts: Transaction -> bool, n: nat)
    requires n <= |txs|
    ensures PassedUpTo(txs, accepts, n) <==> AllPass(txs[..n], accepts)
    ensures n == |txs| ==> txs[..n] == txs
  {
    if n > 0 {
      PassedIff(txs, accepts, n - 1);
      IdsOfAre(txs, n - 1, txs[n - 1].id);
      assert txs[..n] == txs[..n - 1] + [txs[n - 1]];
    }
  }

  class Blockchain {
    var chain: seq<Block>
    var pending: seq<Transaction>
    var ledger: map<Str, Account>
    var registry: map<Str, ModelRef>
    var consensus: Consensus
    var authorities: seq<Str>
    var supply: u64
    var escrows: map<Str, Escrow>
    var usedNonces: map<Str, set<u64>>
    var nextNonce: map<Str, u64>
    var validators: map<Str, u64>
    var chainID: Str
    var agentTxCount: u64
    var minerStats: map<Str, Rewards.MinerStats>
    var wallets: map<Str, Str>
    var reversals: map<Str, PendingReversal>
    var irreversible: set<Str>

    ghost function View(): State
      reads this
    {
      State(chain, pending, ledger, registry, consensus, authorities, supply, escrows, usedNonces, nextNonce,
            validators, chainID, agentTxCount, minerStats, wallets, reversals, irreversible)
    }

    constructor (consensus: Consensus, chainID: Str, genesis: Block)
      ensures View() == NewNode(consensus, chainID, genesis)
    {
      this.consensus, this.chainID := consensus, chainID;
      chain, pending, authorities, supply, agentTxCount := [genesis], [], [], 1_000_000_000, 0;
      ledger, registry, escrows, validators, minerStats, wallets := map[], map[], map[], map[], map[], map[];
      usedNonces, nextNonce, reversals, irreversible := map[], map[], map[], {};
    }

    // -------------------------------------------------------------------------------------------
    // Balances and nonces.

    /** Takes from one account, then adds to the other, if both exist and the first can pay. */
    method Pay(from: Str, to: Str, amount: u64) returns (paid: bool)
      modifies this`ledger
      ensures paid == CanMove(old(ledger), from, to, amount)
      ensures View() == old(View()).(ledger := MoveIfPossible(old(ledger), from, to, amount))
    {
      paid := from in ledger && to in ledger && ledger[from].balance >= amount;
      if paid {
        ledger := ledger[from := ledger[from].(balance := ledger[from].balance - amount)];
        ledger := ledger[to := ledger[to].(balance := Add64(ledger[to].balance, amount))];
      }
    }

    method IsReplayed(tx: Transaction) returns (r: bool)
      ensures r == IsReplay(View(), tx)
    {
      if tx.nonce == 0 {
        return false;
      }
      if tx.from in usedNonces && tx.nonce in usedNonces[tx.from] {
        return true;
      }
      var next := if tx.from in nextNonce then nextNonce[tx.from] else 0;
      r := next > tx.nonce;
    }

    method MarkTransactionUsed(tx: Transaction)
      modifies this`usedNonces, this`nextNonce
      ensures View() == MarkUsed(old(View()), tx)
    {
      if tx.nonce > 0 {
        var used := if tx.from in usedNonces then usedNonces[tx.from] else {};
        usedNonces := usedNonces[tx.from := used + {tx.nonce}];
        var next := if tx.from in nextNonce then nextNonce[tx.from] else 0;
        if next <= tx.nonce {
          nextNonce := nextNonce[tx.from := Add64(tx.nonce, 1)];
        }
      }
    }

    // -------------------------------------------------------------------------------------------
    // Applying a block.

    method PerformTransaction(tx: Transaction, kind: Kind)
      modifies this`ledger, this`registry, this`agentTxCount
      ensures View() == Perform(old(View()), tx, kind)
    {
      match kind {
        case Transfer =>
          var _ := Pay(tx.from, tx.to, tx.amount);
        case RegisterModelTx =>
          registry := registry[tx.to := ModelRef(tx.to, tx.from, Cid(tx.to, tx.from, tx.payload), true, tx.amount)];
          agentTxCount := Add64(agentTxCount, 1);
        case UpdateModelTx =>
          var entry := if tx.to in registry then registry[tx.to] else NO_MODEL;
          entry := entry.(cid := Cid(tx.to, tx.from, tx.payload));
          entry := entry.(pricePerCall := tx.amount);
          registry := registry[tx.to := entry];
          agentTxCount := Add64(agentTxCount, 1);
        case PurchaseTx =>
          var entry := if tx.to in registry then registry[tx.to] else NO_MODEL;
          var _ := Pay(tx.from, entry.owner, tx.amount);
          agentTxCount := Add64(agentTxCount, 1);
        case _ =>
      }
    }

    method ApplyBlock(b: Block)
      modifies this`usedNonces, this`nextNonce, this`ledger, this`registry, this`agentTxCount, this`reversals
      ensures View() == Ledger.ApplyBlock(old(View()), b)
    {
      var txs := b.transactions;
      for i := 0 to |txs|
        invariant View() == ApplyTxs(old(View()), txs[..i])
      {
        assert txs[..i + 1][..i] == txs[..i];
        MarkTransactionUsed(txs[i]);
        PerformTransaction(txs[i], KindOf(txs[i].txType));
      }
      assert txs[..|txs|] == txs;
      ProcessReversals(b);
    }

    method ProcessReversal(tx: Transaction, kind: Kind)
      modifies this`ledger, this`reversals
      ensures View() == Reverse(old(View()), tx, kind)
    {
      var p := tx.payload;
      match kind {
        case RequestTx =>
          if p !in reversals {
            reversals := reversals[p := PendingReversal(tx.id, p, tx.from, tx.to, tx.amount, tx.from, [], Requested)];
          }
        case ConfirmTx =>
          if p in reversals && reversals[p].status.Requested? {
            var reversal := reversals[p].(status := Confirmed);
            reversal := reversal.(confirmer := tx.from);
            reversals := reversals[p := reversal];
          }
        case CommitTx =>
          if p in reversals && reversals[p].status.Confirmed? {
            var reversal := reversals[p];
            var paid := Pay(reversal.to, reversal.from, reversal.amount);
            if paid {
              reversals := reversals - {p};
            }
          }
        case _ =>
      }
    }

    method ProcessReversals(b: Block)
      modifies this`ledger, this`reversals
      ensures View() == ApplyReversals(old(View()), b.transactions)
    {
      var txs := b.transactions;
      for i := 0 to |txs|
        invariant View() == ApplyReversals(old(View()), txs[..i])
      {
        assert txs[..i + 1][..i] == txs[..i];
        ProcessReversal(txs[i], KindOf(txs[i].txType));
      }
      assert txs[..|txs|] == txs;
    }

    // -------------------------------------------------------------------------------------------
    // Validation.

    method FindOriginalTransaction(id: Str) returns (r: Option<Transaction>)
      ensures r == FindOriginal(chain, id)
    {
      for i := 0 to |chain|
        invariant FindOriginal(chain, id) == FindOriginal(chain[i..], id)
      {
        var txs := chain[i].transactions;
        for j := 0 to |txs|
          invariant FindInBlock(txs, id) == FindInBlock(txs[j..], id)
        {
          if txs[j].id == id {
            return Some(txs[j]);
          }
        }
      }
      r := None;
    }

    method ValidateRequestReversal(tx: Transaction) returns (ok: bool)
      ensures ok == ValidRequest(View(), tx)
    {
      if tx.amount == 0 || tx.payload == [] || tx.payload in irreversible {
        return false;
      }
      var original := FindOriginalTransaction(tx.payload);
      match original {
        case None => return false;
        case Some(o) =>
          ok := && o.from == tx.from && o.to == tx.to && o.amount == tx.amount
                && KindOf(o.txType).Transfer?
                && tx.to in ledger && ledger[tx.to].balance >= tx.amount
                && tx.payload !in reversals;
      }
    }

    method ValidateConfirmReversal(tx: Transaction) returns (ok: bool)
      ensures ok == ValidConfirm(View(), tx)
    {
      ok := && tx.payload != [] && tx.payload in reversals
            && reversals[tx.payload].status.Requested? && reversals[tx.payload].to == tx.from;
    }

    method ValidateCommitReversal(tx: Transaction) returns (ok: bool)
      ensures ok == ValidCommit(View(), tx)
    {
      if tx.payload == [] || tx.payload !in reversals {
        return false;
      }
      var reversal := reversals[tx.payload];
      ok := reversal.status.Confirmed? && (reversal.from == tx.from || reversal.to == tx.from);
    }

    method ValidateTransaction(env: Env, tx: Transaction) returns (ok: bool)
      ensures ok == ValidTransaction(View(), env, tx)
    {
      if tx.chainID != chainID || tx.chainID == [] || !env.verify(tx) {
        return false;
      }
      var replay := IsReplayed(tx);
      if replay || tx.from !in ledger || (tx.from != tx.to && tx.amount == 0) {
        return false;
      }
      var sender, kind := ledger[tx.from], KindOf(tx.txType);
      if IsAI(kind) && sender.balance < AGENT_MIN_BALANCE {
        return false;
      }
      match kind {
        case Transfer => ok := tx.to in ledger && sender.balance >= tx.amount;
        case RegisterModelTx => ok := sender.isAgent && tx.to !in registry && sender.staked >= AI_MODEL_STAKE;
        case UpdateModelTx =>
          ok := tx.to in registry && registry[tx.to].owner == tx.from && sender.staked >= AI_MODEL_STAKE;
        case PurchaseTx => ok := tx.to in registry && sender.balance >= tx.amount && registry[tx.to].active;
        case RequestTx => ok := ValidateRequestReversal(tx);
        case ConfirmTx => ok := ValidateConfirmReversal(tx);
        case CommitTx => ok := ValidateCommitReversal(tx);
        case UnknownTx => ok := false;
      }
    }

    method ValidateNext(env: Env, tx: Transaction, seen: set<Str>, ghost accepts: Transaction -> bool)
        returns (ok: bool)
      requires accepts == Acceptor(View(), env)
      ensures ok == Passes(tx, accepts, seen)
    {
      if tx.id == [] || tx.id in seen {
        return false;
      }
      ok := ValidateTransaction(env, tx);
    }

    method ValidateTransactions(env: Env, txs: seq<Transaction>, ghost accepts: Transaction -> bool) returns (ok: bool)
      requires accepts == Acceptor(View(), env)
      ensures ok == PassedUpTo(txs, accepts, |txs|)
    {
      var seen: set<Str> := {};
      for i := 0 to |txs|
        invariant seen == IdsOf(txs, i) && PassedUpTo(txs, accepts, i)
      {
        PassedNext(txs, accepts, i);
        var valid := ValidateNext(env, txs[i], seen, accepts);
        if !valid {
          return false;
        }
        seen := seen + {txs[i].id};
      }
      ok := true;
    }

    method ValidateBlock(env: Env, b: Block, prev: Block) returns (ok: bool)
      ensures ok == ValidBlock(View(), env, b, prev)
    {
      if b.index != Add64(prev.index, 1) || b.previousHash != prev.blockHash || b.blockHash == [] {
        return false;
      }
      if b.txMerkleRoot != [] {
        var root := TxRoot.CalculateMerkleRoot(env.sha, b.transactions);
        if root != b.txMerkleRoot {
          return false;
        }
      }
      if BlockHash(env, b) != b.blockHash {
        return false;
      }
      var valid := ValidateTransactions(env, b.transactions, Acceptor(View(), env));
      PassedIff(b.transactions, Acceptor(View(), env), |b.transactions|);
      ok := valid && !(consensus.ProofOfStake? && b.author != []
                       && b.author !in validators && b.author !in authorities && b.author !in ledger);
    }

    method ValidateChain(env: Env, candidate: seq<Block>) returns (ok: bool)
      ensures ok == ValidChain(View(), env, candidate)
    {
      if |candidate| == 0 || candidate[0].index != 0 {
        return false;
      }
      ghost var s := View();
      for i := 1 to |candidate|
        invariant AllBelow(LinkOk(s, env, candidate), 1, i)
      {
        var valid := ValidateBlock(env, candidate[i], candidate[i - 1]);
        if !valid {
          assert !ValidAt(s, env, candidate, i);
          return false;
        }
        assert LinkOk(s, env, candidate)(i);
      }
      AllBelowIff(LinkOk(s, env, candidate), 1, |candidate|);
      assert forall k {:trigger ValidAt(s, env, candidate, k)} :: 1 <= k < |candidate| ==> LinkOk(s, env, candidate)(k);
      ok := true;
    }

    method ReplaceChain(env: Env, candidate: seq<Block>) returns (replaced: bool)
      modifies this`chain
      ensures View() == Ledger.ReplaceChain(old(View()), RulesOf(env), candidate)
      ensures replaced == (ValidChain(old(View()), env, candidate) && |candidate| > |old(chain)|)
    {
      replaced := ValidateChain(env, candidate);
      if !replaced {
        return;
      }
      if |candidate| <= |chain| {
        return false;
      }
      chain := candidate;
    }

    // -------------------------------------------------------------------------------------------
    // Direct operations.

    method LockStake(a: Str, amount: u64)
      requires a in ledger && ledger[a].balance >= amount
      modifies this`ledger
      ensures View() == old(View()).(ledger := Lock(old(ledger), a, amount))
    {
      ledger := ledger[a := ledger[a].(balance := ledger[a].balance - amount)];
      ledger := ledger[a := ledger[a].(staked := Add64(ledger[a].staked, amount))];
    }

    method Stake(a: Str, amount: u64)
      modifies this`ledger
      ensures View() == Ledger.Stake(old(View()), a, amount)
    {
      if a !in ledger || ledger[a].balance < amount {
        return;
      }
      LockStake(a, amount);
    }

    method RegisterValidator(a: Str, stake: u64) returns (ok: bool)
      modifies this`ledger, this`validators
      ensures View() == Ledger.RegisterValidator(old(View()), a, stake)
      ensures ok == (CanEscrow(old(View()), a, stake) && stake >= MIN_STAKE)
    {
      if a !in ledger || ledger[a].balance < stake || stake < MIN_STAKE {
        return false;
      }
      LockStake(a, stake);
      validators := validators[a := stake];
      ok := true;
    }

    method RegisterModel(owner: Str, id: Str, version: Str, price: u64, active: bool)
      modifies this`ledger, this`registry, this`agentTxCount
      ensures View() == Ledger.RegisterModel(old(View()), owner, id, version, price, active)
    {
      if owner !in ledger || ledger[owner].balance < AI_MODEL_STAKE {
        return;
      }
      LockStake(owner, AI_MODEL_STAKE);
      registry := registry[id := ModelRef(id, owner, Cid(id, owner, version), active, price)];
      agentTxCount := Add64(agentTxCount, 1);
    }

    method PurchaseApiKey(buyer: Str, model: Str, amount: u64)
      modifies this`ledger, this`agentTxCount
      ensures View() == Ledger.PurchaseApiKey(old(View()), buyer, model, amount)
    {
      if model !in registry {
        return;
      }
      var paid := Pay(buyer, registry[model].owner, amount);
      if paid {
        agentTxCount := Add64(agentTxCount, 1);
      }
    }

    method CreateEscrow(from: Str, to: Str, amount: u64, service: Str, id: Str) returns (r: Option<Escrow>)
      modifies this`ledger, this`escrows, this`irreversible
      ensures View() == Ledger.CreateEscrow(old(View()), from, to, amount, service, id)
      ensures r == if CanEscrow(old(View()), from, amount) then Some(Escrow(id, from, to, amount, service)) else None
    {
      if from !in ledger || ledger[from].balance < amount {
        return None;
      }
      ledger := ledger[from := ledger[from].(balance := ledger[from].balance - amount)];
      var escrow := Escrow(id, from, to, amount, service);
      escrows := escrows[id := escrow];
      irreversible := irreversible + {id};
      r := Some(escrow);
    }

    method MarkIrreversible(id: Str)
      modifies this`irreversible
      ensures View() == old(View()).(irreversible := old(irreversible) + {id})
    {
      irreversible := irreversible + {id};
    }

    method GetTailHash() returns (r: Str)
      ensures r == TailHash(View())
    {
      if |chain| == 0 {
        return "0";
      }
      r := chain[|chain| - 1].blockHash;
    }

    method TransferDirectly(from: Str, to: Str, amount: u64)
      requires from in ledger && ledger[from].balance >= amount
      modifies this`ledger
      ensures View() == old(View()).(ledger := DirectMove(old(ledger), from, to, amount))
    {
      ledger := ledger[from := ledger[from].(balance := ledger[from].balance - amount)];
      if to !in ledger {
        ledger := ledger[to := Account(0, 0, false)];
      }
      ledger := ledger[to := ledger[to].(balance := Add64(ledger[to].balance, amount))];
    }

    /** The block of a universal transfer, with the sender's next nonce. */
    method TransferBlock(from: Str, name: Str, amount: u64, now: i64) returns (block: Block)
      requires name in wallets
      modifies this`nextNonce
      ensures block == UniversalBlock(old(View()), from, name, amount, now)
      ensures nextNonce == old(nextNonce)[from := Add64(NextOf(old(View()), from), 1)]
    {
      var nonce := if from in nextNonce then nextNonce[from] else 0;
      var tx := Transaction([], from, [], wallets[name], amount, 1, nonce, "TRANSFER", [], [], now, chainID);
      nextNonce := nextNonce[from := Add64(tx.nonce, 1)];
      var tail := GetTailHash();
      block := Block(|chain| % TWO64, from, [], tail, now, [tx], 0, [], []);
    }

    method UniversalTransfer(from: Str, name: Str, amount: u64, now: i64) returns (ok: bool)
      modifies this
      ensures View() == Ledger.UniversalTransfer(old(View()), from, name, amount, now)
      ensures ok == CanTransfer(old(View()), from, name, amount)
    {
      if amount == 0 || name !in wallets || from !in ledger || ledger[from].balance < amount {
        return false;
      }
      TransferDirectly(from, wallets[name], amount);
      var block := TransferBlock(from, name, amount, now);
      AppendBlock(block);
      ok := true;
    }

    method AppendBlock(b: Block)
      modifies this
      ensures View() == Ledger.ApplyBlock(old(View()), b).(chain := old(chain) + [b], pending := [])
    {
      ApplyBlock(b);
      chain := chain + [b];
      pending := [];
    }

    method CreditReward(author: Str, reward: u64)
      modifies this`ledger, this`supply
      ensures View() == Credit(old(View()), author, reward)
    {
      if author in ledger {
        ledger := ledger[author := ledger[author].(balance := Add64(ledger[author].balance, reward))];
        supply := Add64(supply, reward);
      }
    }

    method SubmitMinedBlock(env: Env, b: Block) returns (ok: bool)
      modifies this
      ensures View() == Ledger.SubmitMinedBlock(old(View()), RulesOf(env), b)
      ensures ok == CanSubmit(old(View()), RulesOf(env), b)
    {
      if |chain| == 0 || b.index != |chain| {
        return false;
      }
      var prev := chain[|chain| - 1];
      var valid := ValidateBlock(env, b, prev);
      if !valid {
        return false;
      }
      var author := if b.author != [] then b.author else b.minerAddress;
      if author == [] {
        return false;
      }
      CreditReward(author, 100);
      AppendBlock(b);
      ok := true;
    }

    // -------------------------------------------------------------------------------------------
    // The mempool.

    method FindLowestFee() returns (low: nat)
      requires pending != []
      ensures low == LowestFee(pending)
    {
      low := 0;
      for i := 1 to |pending|
        invariant low == LowestFee(pending[..i])
      {
        assert pending[..i + 1][..i] == pending[..i];
        if pending[i].fee < pending[low].fee {
          low := i;
        }
      }
      assert pending[..|pending|] == pending;
    }

    method PlaceTransaction(tx: Transaction)
      modifies this`pending
      ensures View() == old(View()).(pending := Place(old(pending), tx, Judge(old(View()), tx)))
    {
      for i := 0 to |pending|
        invariant pending == old(pending)
        invariant IndexOfKey(pending, tx) == i + IndexOfKey(pending[i..], tx)
      {
        assert pending[i..][1..] == pending[i + 1..];
        if SameKey(pending[i], tx) {
          if tx.fee > pending[i].fee {
            pending := pending[i := tx];
          }
          return;
        }
      }
      var replay := IsReplayed(tx);
      if replay {
        return;
      }
      if |pending| >= POOL_LIMIT {
        var low := FindLowestFee();
        if tx.fee <= pending[low].fee {
          return;
        }
        pending := pending[low := tx];
      } else {
        pending := pending + [tx];
      }
    }

    method EnqueueTransaction(offered: Transaction, freshId: Str)
      modifies this`pending
      ensures View() == Enqueue(old(View()), offered, freshId)
    {
      var tx := offered;
      if tx.id == [] {
        tx := tx.(id := freshId);
      }
      if tx.nonce == 0 {
        tx := tx.(nonce := if tx.from in nextNonce then nextNonce[tx.from] else 0);
      }
      PlaceTransaction(tx);
    }

    // -------------------------------------------------------------------------------------------
    // Mining.

    method CreditFund(fund: Str, amount: u64)
      modifies this`ledger
      ensures var account := if fund in old(ledger) then old(ledger)[fund] else Account(0, 0, false);
              ledger == old(ledger)[fund := account.(balance := Add64(account.balance, amount))]
    {
      if fund in ledger {
        ledger := ledger[fund := ledger[fund].(balance := Add64(ledger[fund].balance, amount))];
      } else {
        ledger := ledger[fund := Account(amount, 0, false)];
      }
    }

    method TotalBurn(fee: u64, ai: bool) returns (total: u64)
      ensures total == ChargeFor(View(), fee, ai).total
    {
      var rate: u64 := if ai && agentTxCount > 0 && supply > 0 then 1 + 20 else 1;
      total := Mul64(fee, rate) / 100;
    }

    method BurnAndShare(total: u64, fund: Str, ghost charge: Charge)
      requires charge.total == total && charge.share == total - total * 70 / 100
      requires charge.burned == if total * 70 / 100 > supply then supply else total * 70 / 100
      modifies this`supply, this`ledger
      ensures View() == PayFee(old(View()), charge, fund)
    {
      var permanent := total * 70 / 100;
      var community := total - permanent;
      if permanent > supply {
        permanent := supply;
      }
      supply := supply - permanent;
      CreditFund(fund, community);
    }

    /** Burns part of a fee and gives the rest of the charge to the community fund. */
    method ChargeFee(fee: u64, ai: bool, fund: Str) returns (ghost charge: Charge)
      modifies this`supply, this`ledger
      ensures charge == ChargeFor(old(View()), fee, ai)
      ensures View() == PayFee(old(View()), charge, fund)
    {
      charge := ChargeFor(View(), fee, ai);
      var total := TotalBurn(fee, ai);
      BurnAndShare(total, fund, charge);
    }

    method BuybackTreasury(fund: Str)
      modifies this`supply, this`ledger
      ensures View() == TreasuryBuyback(old(View()), fund)
    {
      if supply == 0 || fund !in ledger || ledger[fund].balance == 0 {
        return;
      }
      var burn := ledger[fund].balance / 10;
      if burn > supply / 100 {
        burn := supply / 100;
      }
      if burn > 0 {
        ledger := ledger[fund := ledger[fund].(balance := ledger[fund].balance - burn)];
        supply := supply - burn;
      }
    }

    method MineRewardFor(miner: Str, now: nat) returns (reward: u64)
      modifies this`minerStats
      ensures (View(), reward) == AskReward(old(View()), miner, now)
    {
      var stats := if miner in minerStats then minerStats[miner] else Rewards.NO_STATS;
      stats, reward := Rewards.MineReward(stats, now);
      minerStats := minerStats[miner := stats];
    }

    method RecordMinerSubmission(miner: Str, now: nat)
      modifies this`minerStats
      ensures View() == RecordSubmission(old(View()), miner, now)
    {
      var stats := if miner in minerStats then minerStats[miner] else Rewards.NO_STATS;
      minerStats := minerStats[miner := stats.(lastSubmissionTime := now)];
    }

    /** The loop over the sorted pool. */
    method CollectTransactions(env: Env, order: seq<Transaction>, required: seq<u64>, ghost rules: Rules)
        returns (txs: seq<Transaction>, ghost charges: seq<Charge>)
      requires |order| == |required| && rules == RulesOf(env)
      modifies this`supply, this`ledger
      ensures Collected(View(), txs, charges) == Collect(old(View()), rules, order, required)
    {
      txs, charges := [], [];
      for i := 0 to |order|
        invariant Collected(View(), txs, charges) == Collect(old(View()), rules, order[..i], required[..i])
      {
        assert order[..i + 1][..i] == order[..i] && required[..i + 1][..i] == required[..i];
        var valid := ValidateTransaction(env, order[i]);
        if valid {
          if order[i].fee < required[i] {
            continue;
          }
          if order[i].fee > 0 {
            ghost var charge := ChargeFee(order[i].fee, IsAI(KindOf(order[i].txType)), COMMUNITY_FUND);
            charges := charges + [charge];
          }
          txs := txs + [order[i]];
        }
      }
      assert order[..|order|] == order && required[..|order|] == required;
    }

    method BuildBlock(env: Env, m: MineInputs, txs: seq<Transaction>) returns (block: Block)
      ensures block == NewBlock(View(), env, m, txs)
    {
      var tail := GetTailHash();
      var root := TxRoot.CalculateMerkleRoot(env.sha, txs);
      var nonce := if consensus.ProofOfWork? then m.powNonce else 0;
      block := Block(|chain| % TWO64, m.author, m.author, tail, m.timestamp, txs, nonce, [], root);
      block := block.(blockHash := BlockHash(env, block));
    }

    /** Builds the block from the admitted transactions and validates it on the tip. */
    method BuildAndValidate(env: Env, m: MineInputs, txs: seq<Transaction>, ghost rules: Rules)
        returns (block: Block, valid: bool)
      requires chain != [] && rules == RulesOf(env)
      ensures block == rules.build(View(), m, txs)
      ensures valid == rules.approves(View(), block, chain[|chain| - 1])
    {
      block := BuildBlock(env, m, txs);
      valid := ValidateBlock(env, block, chain[|chain| - 1]);
    }

    method RewardAndApply(author: Str, now: nat, block: Block) returns (reward: u64)
      modifies this
      ensures var (asked, granted) := AskReward(old(View()), author, now);
              && reward == granted
              && View() == Ledger.ApplyBlock(Credit(asked, author, reward), block).(chain := old(chain) + [block])
    {
      reward := MineRewardFor(author, now);
      CreditReward(author, reward);
      ApplyBlock(block);
      chain := chain + [block];
    }

    /** Rewards the author, applies the block and buys back from the treasury. */
    method FinishBlock(m: MineInputs, block: Block, fund: Str, ghost c: Collected)
      requires c.s == View()
      modifies this
      ensures View() == Finish(c, fund, m, block).s
    {
      var _ := RewardAndApply(m.author, m.now, block);
      if agentTxCount > 0 {
        BuybackTreasury(fund);
      }
      pending := [];
      RecordMinerSubmission(m.author, m.later);
    }

    /** Starts a chain if there is none and charges the fees of the transactions it admits. */
    method ChargeFees(env: Env, m: MineInputs, ghost rules: Rules) returns (txs: seq<Transaction>, ghost c: Collected)
      requires |m.order| == |m.required| && rules == RulesOf(env)
      modifies this`chain, this`supply, this`ledger
      ensures c == AfterFees(old(View()), rules, m) && c.s == View() && c.txs == txs && chain != []
    {
      if |chain| == 0 {
        chain := [m.genesis];
      }
      ghost var charges;
      txs, charges := CollectTransactions(env, m.order, m.required, rules);
      c := Collected(View(), txs, charges);
    }

    method MineBlockFor(env: Env, m: MineInputs, ghost rules: Rules) returns (r: Option<Block>)
      requires Fair(View(), m) && rules == RulesOf(env)
      modifies this
      ensures View() == Mine(old(View()), rules, m).s
      ensures match Mine(old(View()), rules, m)
              case MineDone(_, block, _, _, _) => r == Some(block)
              case MineFailed(_, _) => r == None
    {
      if m.paused {
        return None;
      }
      var txs, c := ChargeFees(env, m, rules);
      var block, valid := BuildAndValidate(env, m, txs, rules);
      if !valid {
        return None;
      }
      FinishBlock(m, block, COMMUNITY_FUND, c);
      r := Some(block);
    }

    // -------------------------------------------------------------------------------------------
    // Loading.

    /** The next nonces, rebuilt from the used ones. */
    method RebuildNextNonces()
      modifies this`nextNonce
      ensures View() == old(View()).(nextNonce := nextNonce)
      ensures forall from :: NextOf(View(), from) == Nonces.Rebuilt(Nonces.TrackOf(old(View()), from))
    {
      var senders := usedNonces.Keys;
      while senders != {}
        invariant senders <= usedNonces.Keys
        invariant forall from :: NextOf(View(), from) ==
                    if from in senders then NextOf(old(View()), from)
                    else Nonces.Rebuilt(Nonces.TrackOf(old(View()), from))
        decreases |senders|
      {
        var from :| from in senders;
        var largest := LargestNonce(usedNonces[from]);
        if largest > 0 {
          nextNonce := nextNonce[from := Add64(largest, 1)];
        }
        senders := senders - {from};
      }
    }
  }

  method LargestNonce(nonces: set<u64>) returns (largest: u64)
    ensures largest == if nonces == {} then 0 else Nonces.Largest(nonces)
  {
    largest := 0;
    var rest := nonces;
    while rest != {}
      invariant rest <= nonces
      invariant forall n :: n in nonces && n !in rest ==> n <= largest
      invariant largest == 0 || largest in nonces
      decreases |rest|
    {
      var n :| n in rest;
      if n > largest {
        largest := n;
      }
      rest := rest - {n};
    }
    if nonces != {} {
      assert Nonces.Largest(nonces) in nonces;
    }
  }
}
