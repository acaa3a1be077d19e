/** Whole runs of the node: every public operation of the model, in any order. */
module Node {
  import opened Domain
  import opened Ledger

  // Operations that apply no block.
  datatype PlainOp =
    | EnqueueOp(tx: Transaction, freshId: Str)
    | StakeOp(a: Str, amount: u64)
    | ValidatorOp(a: Str, amount: u64)
    | ModelOp(owner: Str, id: Str, version: Str, price: u64, active: bool)
    | PurchaseOp(buyer: Str, model: Str, amount: u64)
    | EscrowOp(from: Str, to: Str, amount: u64, service: Str, id: Str)
    | MarkIrreversibleOp(id: Str)

  datatype Op =
    | MineOp(m: MineInputs)
    | SubmitOp(block: Block)
    | UniversalOp(from: Str, name: Str, amount: u64, now: i64)
    | ReplaceOp(chain: seq<Block>)
    | Plain(plain: PlainOp)
    | OtherOp(after: State)

  predicate SameReversalsAndNonces(s: State, t: State) {
    t.reversals == s.reversals && t.usedNonces == s.usedNonces && t.nextNonce == s.nextNonce
  }

  /** What no operation touches that is not modelled by itself: registering wallets, updating models, adding
      authorities, submitting to the pool directly, funding, slashing, distributing rewards and so on. */
  predicate SameProtocol(s: State, t: State) {
    SameReversalsAndNonces(s, t) && t.chain == s.chain && t.minerStats == s.minerStats
  }

  /** Mining is given the sorted pool, one required fee per transaction and a genesis block of index 0; an
      operation not modelled by itself may change anything else. */
  predicate Legal(s: State, op: Op) {
    (op.MineOp? ==> Fair(s, op.m)) && (op.OtherOp? ==> SameProtocol(s, op.after))
  }

  function PlainStep(s: State, op: PlainOp): State {
    match op
    case EnqueueOp(tx, freshId) => Enqueue(s, tx, freshId)
    case StakeOp(a, amount) => Stake(s, a, amount)
    case ValidatorOp(a, amount) => RegisterValidator(s, a, amount)
    case ModelOp(owner, id, version, price, active) => RegisterModel(s, owner, id, version, price, active)
    case PurchaseOp(buyer, model, amount) => PurchaseApiKey(s, buyer, model, amount)
    case EscrowOp(from, to, amount, service, id) => CreateEscrow(s, from, to, amount, service, id)
    case MarkIrreversibleOp(id) => s.(irreversible := s.irreversible + {id})
  }

  function Step(s: State, rules: Rules, op: Op): State
    requires Legal(s, op)
  {
    match op
    case MineOp(m) => Mine(s, rules, m).s
    case SubmitOp(b) => SubmitMinedBlock(s, rules, b)
    case UniversalOp(from, name, amount, now) => UniversalTransfer(s, from, name, amount, now)
    case ReplaceOp(chain) => ReplaceChain(s, rules, chain)
    case Plain(plain) => PlainStep(s, plain)
    case OtherOp(after) => after
  }

  /** The block this operation applies, if any. */
  function AppliedBlock(s: State, rules: Rules, op: Op): Option<Block>
    requires Legal(s, op)
  {
    match op
    case MineOp(m) => var r := Mine(s, rules, m); if r.MineDone? then Some(r.block) else None
    case SubmitOp(b) => if CanSubmit(s, rules, b) then Some(b) else None
    case UniversalOp(from, name, amount, now) =>
      if CanTransfer(s, from, name, amount) then Some(UniversalBlock(s, from, name, amount, now)) else None
    case _ => None
  }

  /** The chain against which an operation's block is validated. */
  function ChainBefore(s: State, op: Op): seq<Block> {
    if op.MineOp? then WithGenesis(s, op.m.genesis).chain else s.chain
  }

  // ---------------------------------------------------------------------------------------------
  // Runs, with the blocks they applied and the chain each was validated on.

  /** An applied block, the chain before it, the reversals pending after it, whether it came from a
      universal transfer, which applies its block without validation, and the state it was validated in. */
  datatype Applied = Applied(
    block: Block, chain: seq<Block>, pending: map<Str, PendingReversal>, direct: bool, judged: State)
  datatype Events<O> = Start(initial: State) | Then(past: Events<O>, op: O)
  type History = Events<Op>

  ghost predicate LegalRun(es: History, rules: Rules) {
    es.Start? || (LegalRun(es.past, rules) && Legal(Run(es.past, rules), es.op))
  }

  ghost function Run(es: History, rules: Rules): State {
    match es
    case Start(s) => s
    case Then(past, op) => var s := Run(past, rules); if Legal(s, op) then Step(s, rules, op) else s
  }

  function Record(s: State, rules: Rules, op: Op, b: Block): Applied
    requires Legal(s, op)
  {
    Applied(b, ChainBefore(s, op), Step(s, rules, op).reversals, op.UniversalOp?, Judging(s, rules, op))
  }

  ghost function Blocks(es: History, rules: Rules): seq<Applied> {
    match es
    case Start(_) => []
    case Then(past, op) =>
      var s := Run(past, rules);
      if !Legal(s, op) then Blocks(past, rules)
      else match AppliedBlock(s, rules, op)
        case None => Blocks(past, rules)
        case Some(b) => Blocks(past, rules) + [Record(s, rules, op, b)]
  }

  function Origin<O>(es: Events<O>): State { if es.Start? then es.initial else Origin(es.past) }

  // ---------------------------------------------------------------------------------------------
  // What a step does to the state, in one form for all operations: a block is approved in one state and
  // then applied to another; neither differs from the state before in its reversals or nonces.

  /** The state a step's block is applied to. */
  function Base(s: State, rules: Rules, op: Op): State
    requires Legal(s, op)
  {
    match op
    case MineOp(m) => Rewarded(AfterFees(s, rules, m).s, m)
    case SubmitOp(b) => Credit(s, MinerOf(b), 100)
    case UniversalOp(from, name, amount, _) =>
      if CanTransfer(s, from, name, amount) then DirectPart(s, from, s.wallets[name], amount) else s
    case _ => s
  }

  /** The state in which a step's block is approved. */
  function Judging(s: State, rules: Rules, op: Op): State
    requires Legal(s, op)
  {
    if op.MineOp? then AfterFees(s, rules, op.m).s else s
  }

  /** The ledger a step leaves once its block is applied: only mining does something more, the buyback. */
  function Closing(s: State, rules: Rules, op: Op): map<Str, Account> {
    if op.MineOp? then AfterBuyback(s, rules.fund).ledger else s.ledger
  }

  ghost predicate Approved(s: State, chain: seq<Block>, rules: Rules, b: Block, judging: State) {
    && chain != [] && rules.approves(judging, b, chain[|chain| - 1]) && judging.chain == chain
    && SameReversalsAndNonces(s, judging)
  }

  /** Every operation but a universal transfer either applies no block and leaves reversals and nonces
      alone, or applies a block that was approved. */
  ghost predicate Outcome(
      s: State, chain: seq<Block>, rules: Rules, applied: Option<Block>, s': State, judging: State, base: State)
  {
    match applied
    case None => SameReversalsAndNonces(s, s')
    case Some(b) =>
      && Approved(s, chain, rules, b, judging)
      && SameReversalsAndNonces(s, base) && SameReversalsAndNonces(ApplyBlock(base, b), s')
  }

  lemma FinishApplies(c: Collected, fund: Str, m: MineInputs, block: Block)
    ensures SameReversalsAndNonces(c.s, Rewarded(c.s, m))
    ensures SameReversalsAndNonces(ApplyBlock(Rewarded(c.s, m), block), Finish(c, fund, m, block).s)
    ensures Finish(c, fund, m, block).MineDone? && Finish(c, fund, m, block).block == block
  {
  }

  lemma FeesKeepProtocol(s: State, genesis: Block, t: State)
    requires t == WithGenesis(s, genesis).(supply := t.supply, ledger := t.ledger)
    ensures SameReversalsAndNonces(s, t)
  {
  }

  lemma FeesKeepChain(s: State, genesis: Block, t: State)
    requires t == WithGenesis(s, genesis).(supply := t.supply, ledger := t.ledger)
    ensures t.chain == WithGenesis(s, genesis).chain != []
  {
  }

  lemma MineOutcome(s: State, rules: Rules, op: Op, c: Collected)
    requires Legal(s, op) && op.MineOp? && c == AfterFees(s, rules, op.m)
    ensures Outcome(s, ChainBefore(s, op), rules, AppliedBlock(s, rules, op), Step(s, rules, op),
                    c.s, Rewarded(c.s, op.m))
  {
    FeesKeepProtocol(s, op.m.genesis, c.s);
    FeesKeepChain(s, op.m.genesis, c.s);
    FinishApplies(c, rules.fund, op.m, rules.build(c.s, op.m, c.txs));
  }

  lemma SubmitOutcome(s: State, rules: Rules, op: Op)
    requires op.SubmitOp?
    ensures Outcome(s, s.chain, rules, AppliedBlock(s, rules, op), Step(s, rules, op),
                    s, Credit(s, MinerOf(op.block), 100))
  {
  }

  lemma PlainKeeps(s: State, op: PlainOp)
    ensures SameReversalsAndNonces(s, PlainStep(s, op))
  {
    match op
    case EnqueueOp(tx, freshId) =>
    case StakeOp(a, amount) =>
    case ValidatorOp(a, amount) =>
    case ModelOp(owner, id, version, price, active) =>
    case PurchaseOp(buyer, model, amount) =>
    case EscrowOp(from, to, amount, service, id) =>
    case MarkIrreversibleOp(id) =>
  }

  lemma PlainOutcome(s: State, rules: Rules, plain: PlainOp)
    ensures AppliedBlock(s, rules, Plain(plain)) == None && SameReversalsAndNonces(s, Step(s, rules, Plain(plain)))
  {
    var t := PlainStep(s, plain);
    PlainKeeps(s, plain);
    assert Step(s, rules, Plain(plain)) == t;
  }

  lemma ChainKeeps(s: State, chain: seq<Block>)
    ensures SameReversalsAndNonces(s, s.(chain := chain))
  {
  }

  lemma ReplaceOutcome(s: State, rules: Rules, chain: seq<Block>)
    ensures AppliedBlock(s, rules, ReplaceOp(chain)) == None
    ensures SameReversalsAndNonces(s, Step(s, rules, ReplaceOp(chain)))
  {
    var r, t := ReplaceChain(s, rules, chain), s.(chain := chain);
    ChainKeeps(s, chain);
    assert r == s || r == t;
    assert Step(s, rules, ReplaceOp(chain)) == r;
  }

  lemma OtherOutcome(s: State, rules: Rules, after: State)
    requires SameProtocol(s, after)
    ensures AppliedBlock(s, rules, OtherOp(after)) == None
    ensures SameReversalsAndNonces(s, Step(s, rules, OtherOp(after)))
  {
    assert Step(s, rules, OtherOp(after)) == after;
  }

  lemma StepApplies(s: State, rules: Rules, op: Op)
    requires Legal(s, op) && !op.UniversalOp?
    ensures Outcome(s, ChainBefore(s, op), rules, AppliedBlock(s, rules, op), Step(s, rules, op),
                    Judging(s, rules, op), Base(s, rules, op))
  {
    if op.MineOp? {
      MineOutcome(s, rules, op, AfterFees(s, rules, op.m));
    } else if op.SubmitOp? {
      SubmitOutcome(s, rules, op);
    } else if op.Plain? {
      PlainOutcome(s, rules, op.plain);
    } else if op.ReplaceOp? {
      ReplaceOutcome(s, rules, op.chain);
    } else {
      OtherOutcome(s, rules, op.after);
    }
  }

  lemma BuybackIgnoresChain(s: State, chain: seq<Block>, fund: Str)
    ensures AfterBuyback(s.(chain := chain), fund).ledger == AfterBuyback(s, fund).ledger
  {
  }

  lemma FinishLedger(c: Collected, rules: Rules, m: MineInputs, block: Block)
    ensures Finish(c, rules.fund, m, block).s.ledger ==
            AfterBuyback(ApplyBlock(Rewarded(c.s, m), block), rules.fund).ledger
  {
    BuybackIgnoresChain(ApplyBlock(Rewarded(c.s, m), block), c.s.chain + [block], rules.fund);
  }

  /** The ledger after a step that applies a block is the one its block leaves, closed. */
  lemma StepLedger(s: State, rules: Rules, op: Op)
    requires Legal(s, op) && AppliedBlock(s, rules, op).Some?
    ensures Step(s, rules, op).ledger ==
            Closing(ApplyBlock(Base(s, rules, op), AppliedBlock(s, rules, op).value), rules, op)
  {
    if op.MineOp? {
      var c := AfterFees(s, rules, op.m);
      FinishLedger(c, rules, op.m, rules.build(c.s, op.m, c.txs));
    }
  }
}
