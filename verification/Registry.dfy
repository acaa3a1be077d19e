/** The registry of models (blockchain.go): what blocks make of it, and whom a purchase pays. */
module Registry {
  import opened Domain
  import opened Ledger
  import opened Conservation
  import opened Payments
  import Node

  // ---------------------------------------------------------------------------------------------
  // What a block makes of the registry, told from its transactions.

  /** The last transaction that registers the model or, unless only that is asked for, updates it. */
  function LastFor(txs: seq<Transaction>, id: Str, registering: bool): Option<Transaction> {
    if txs == [] then None
    else
      var tx, n := txs[|txs| - 1], |txs| - 1;
      if tx.to == id && Names(KindOf(tx.txType), registering) then Some(tx) else LastFor(txs[..n], id, registering)
  }

  predicate Names(kind: Kind, registering: bool) { kind.RegisterModelTx? || (kind.UpdateModelTx? && !registering) }

  function EntryOf(registry: map<Str, ModelRef>, id: Str): ModelRef {
    if id in registry then registry[id] else ModelRef([], [], [], false, 0)
  }

  /** Owner and activity are those of the last registration; content id and price those of the last registration
      or update; a model that is not named keeps its entry. */
  ghost predicate EntryFrom(before: map<Str, ModelRef>, after: map<Str, ModelRef>, txs: seq<Transaction>, id: Str) {
    var was, e := EntryOf(before, id), EntryOf(after, id);
    && (id in after <==> id in before || LastFor(txs, id, false).Some?)
    && (match LastFor(txs, id, false)
        case None => e == was
        case Some(tx) => e.cid == Cid(id, tx.from, tx.payload) && e.pricePerCall == tx.amount)
    && (match LastFor(txs, id, true)
        case None => e.id == was.id && e.owner == was.owner && e.active == was.active
        case Some(tx) => e.id == id && e.owner == tx.from && e.active)
  }

  /** The form of a content id. */
  lemma CidForm()
    ensures Cid("m", "o", "v") == "m:o:v"
  {
  }

  lemma PerformRegistry(s: State, tx: Transaction, kind: Kind, id: Str)
    ensures var was, e := EntryOf(s.registry, id), EntryOf(Perform(s, tx, kind).registry, id);
            var named := tx.to == id && Names(kind, false);
            && (id in Perform(s, tx, kind).registry <==> id in s.registry || named)
            && (if named then e.cid == Cid(id, tx.from, tx.payload) && e.pricePerCall == tx.amount
                else e.cid == was.cid && e.pricePerCall == was.pricePerCall)
            && (if tx.to == id && Names(kind, true) then e.id == id && e.owner == tx.from && e.active
                else e.id == was.id && e.owner == was.owner && e.active == was.active)
  {
  }

  lemma MarkKeepsRegistry(s: State, tx: Transaction)
    ensures MarkUsed(s, tx).registry == s.registry && MarkUsed(s, tx).agentTxCount == s.agentTxCount
  {
  }

  lemma ReverseKeepsRegistry(s: State, tx: Transaction, kind: Kind)
    ensures Reverse(s, tx, kind).registry == s.registry && Reverse(s, tx, kind).agentTxCount == s.agentTxCount
  {
    var t := Reverse(s, tx, kind);
    assert t == s || t == s.(reversals := t.reversals) || t == s.(ledger := t.ledger, reversals := t.reversals);
  }

  lemma {:induction false} ApplyReversalsKeepRegistry(s: State, txs: seq<Transaction>)
    ensures ApplyReversals(s, txs).registry == s.registry && ApplyReversals(s, txs).agentTxCount == s.agentTxCount
  {
    if txs != [] {
      var n := |txs| - 1;
      ApplyReversalsKeepRegistry(s, txs[..n]);
      ReverseKeepsRegistry(ApplyReversals(s, txs[..n]), txs[n], KindOf(txs[n].txType));
    }
  }

  lemma {:induction false} ApplyTxsRegistry(s: State, txs: seq<Transaction>, id: Str)
    ensures EntryFrom(s.registry, ApplyTxs(s, txs).registry, txs, id)
  {
    if txs != [] {
      var n := |txs| - 1;
      var before, tx := ApplyTxs(s, txs[..n]), txs[n];
      ApplyTxsRegistry(s, txs[..n], id);
      MarkKeepsRegistry(before, tx);
      PerformRegistry(MarkUsed(before, tx), tx, KindOf(tx.txType), id);
    }
  }

  /** After any block, each entry is given by the block's transactions. */
  lemma BlockRegistry(s: State, b: Block, id: Str)
    ensures EntryFrom(s.registry, ApplyBlock(s, b).registry, b.transactions, id)
  {
    ApplyTxsRegistry(s, b.transactions, id);
    ApplyReversalsKeepRegistry(ApplyTxs(s, b.transactions), b.transactions);
  }

  function AgentTxs(txs: seq<Transaction>): nat {
    if txs == [] then 0
    else AgentTxs(txs[..|txs| - 1]) + if IsAgentKind(KindOf(txs[|txs| - 1].txType)) then 1 else 0
  }

  predicate IsAgentKind(kind: Kind) { kind == RegisterModelTx || kind == UpdateModelTx || kind == PurchaseTx }

  lemma PerformCounts(s: State, tx: Transaction, kind: Kind)
    ensures Perform(s, tx, kind).agentTxCount == (s.agentTxCount + if IsAgentKind(kind) then 1 else 0) % TWO64
  {
  }

  lemma CountOneMore(a: nat, k: nat, c: nat, d: nat, one: nat)
    requires one <= 1 && c == (a + k) % TWO64 && d == (c + one) % TWO64
    ensures d == (a + (k + one)) % TWO64
  {
  }

  lemma ApplyTxCounts(s: State, tx: Transaction, agent: bool)
    requires agent == IsAgentKind(KindOf(tx.txType))
    ensures ApplyTx(s, tx).agentTxCount == (s.agentTxCount + if agent then 1 else 0) % TWO64
  {
    MarkKeepsRegistry(s, tx);
    PerformCounts(MarkUsed(s, tx), tx, KindOf(tx.txType));
  }

  lemma LastCounts(s: State, txs: seq<Transaction>, n: nat, c: u64) returns (one: nat)
    requires |txs| == n + 1 && c == ApplyTxs(s, txs[..n]).agentTxCount
    ensures one <= 1 && AgentTxs(txs) == AgentTxs(txs[..n]) + one
    ensures ApplyTxs(s, txs).agentTxCount == (c + one) % TWO64
  {
    var agent := IsAgentKind(KindOf(txs[n].txType));
    one := if agent then 1 else 0;
    ApplyTxCounts(ApplyTxs(s, txs[..n]), txs[n], agent);
  }

  lemma {:induction false} ApplyTxsCounts(s: State, txs: seq<Transaction>)
    ensures ApplyTxs(s, txs).agentTxCount == (s.agentTxCount + AgentTxs(txs)) % TWO64
  {
    if txs != [] {
      var n := |txs| - 1;
      var c := ApplyTxs(s, txs[..n]).agentTxCount;
      ApplyTxsCounts(s, txs[..n]);
      var one := LastCounts(s, txs, n, c);
      CountOneMore(s.agentTxCount, AgentTxs(txs[..n]), c, ApplyTxs(s, txs).agentTxCount, one);
    }
  }

  /** A block adds the number of its agent transactions to the node's count of them. */
  lemma BlockCounts(s: State, b: Block)
    ensures ApplyBlock(s, b).agentTxCount == (s.agentTxCount + AgentTxs(b.transactions)) % TWO64
  {
    ApplyTxsCounts(s, b.transactions);
    ApplyReversalsKeepRegistry(ApplyTxs(s, b.transactions), b.transactions);
  }

  // ---------------------------------------------------------------------------------------------
  // Runs of blocks and direct registrations, and whom a purchase pays.

  datatype RegistryOp =
    | BlockOp(block: Block)
    | RegisterOp(owner: Str, id: Str, version: Str, price: u64, active: bool)

  type History = Node.Events<RegistryOp>

  function Run(es: History): State {
    match es
    case Start(s) => s
    case Then(past, BlockOp(b)) => ApplyBlock(Run(past), b)
    case Then(past, RegisterOp(owner, id, version, price, active)) =>
      RegisterModel(Run(past), owner, id, version, price, active)
  }

  /** Who registered the model last. */
  function Registrant(es: History, id: Str): Option<Str> {
    match es
    case Start(_) => None
    case Then(past, BlockOp(b)) => RegistrantWith(Registrant(past, id), b.transactions, id)
    case Then(past, RegisterOp(owner, other, _, _, _)) =>
      if other == id && CanEscrow(Run(past), owner, 500_000_000) then Some(owner) else Registrant(past, id)
  }

  function RegistrantWith(before: Option<Str>, txs: seq<Transaction>, id: Str): Option<Str> {
    match LastFor(txs, id, true)
    case None => before
    case Some(tx) => Some(tx.from)
  }

  /** The owner on record is the last registrant; a model that was only ever updated has none. */
  predicate OwnedBy(registry: map<Str, ModelRef>, id: Str, owner: Option<Str>) {
    EntryOf(registry, id).owner == if owner.Some? then owner.value else []
  }

  lemma BlockOwner(s: State, txs: seq<Transaction>, id: Str, owner: Option<Str>)
    requires OwnedBy(s.registry, id, owner)
    ensures OwnedBy(ApplyTxs(s, txs).registry, id, RegistrantWith(owner, txs, id))
  {
    ApplyTxsRegistry(s, txs, id);
  }

  lemma RegisterOwner(s: State, owner: Str, id: Str, version: Str, price: u64, active: bool, other: Str)
    ensures EntryOf(RegisterModel(s, owner, id, version, price, active).registry, other).owner ==
            if other == id && CanEscrow(s, owner, 500_000_000) then owner else EntryOf(s.registry, other).owner
  {
  }

  lemma {:induction false} OwnerIsRegistrant(es: History, id: Str)
    requires Node.Origin(es).registry == map[]
    ensures OwnedBy(Run(es).registry, id, Registrant(es, id))
  {
    match es
    case Start(_) =>
    case Then(past, BlockOp(b)) =>
      OwnerIsRegistrant(past, id);
      BlockOwner(Run(past), b.transactions, id, Registrant(past, id));
      ApplyReversalsKeepRegistry(ApplyTxs(Run(past), b.transactions), b.transactions);
    case Then(past, RegisterOp(owner, other, version, price, active)) =>
      OwnerIsRegistrant(past, id);
      RegisterOwner(Run(past), owner, other, version, price, active, id);
  }

  /** In any such run, a purchase in the next block, if it can be paid, credits the account that registered the
      model last, in this block or before. */
  lemma PurchasePaysRegistrant(es: History, txs: seq<Transaction>, tx: Transaction, owner: Str)
    requires Node.Origin(es).registry == map[] && KindOf(tx.txType) == PurchaseTx
    requires RegistrantWith(Registrant(es, tx.to), txs, tx.to) == Some(owner)
    ensures var s := ApplyTxs(Run(es), txs);
            ApplyTx(s, tx).ledger == MoveIfPossible(s.ledger, tx.from, owner, tx.amount)
  {
    OwnerIsRegistrant(es, tx.to);
    BlockOwner(Run(es), txs, tx.to, Registrant(es, tx.to));
    ApplyTxPays(ApplyTxs(Run(es), txs), tx);
  }
}
