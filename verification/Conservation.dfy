/** Sums over maps, and what no operation on the ledger creates or destroys. */
module Conservation {
  import opened Domain
  import opened Ledger
  import Node

  // ---------------------------------------------------------------------------------------------
  // Sums over maps.

  ghost function Pick(keys: set<Str>): (k: Str)
    requires keys != {}
    ensures k in keys
  {
    var k :| k in keys; k
  }

  ghost function Sum<V>(m: map<Str, V>, f: V -> nat): nat
    decreases |m|
  {
    if m == map[] then 0
    else
      var k := Pick(m.Keys);
      f(m[k]) + Sum(m - {k}, f)
  }

  lemma {:induction false} SumWithout<V>(m: map<Str, V>, f: V -> nat, k: Str)
    requires k in m
    ensures Sum(m, f) == f(m[k]) + Sum(m - {k}, f)
    decreases |m|
  {
    var j := Pick(m.Keys);
    if j != k {
      SumWithout(m - {j}, f, k);
      SumWithout(m - {k}, f, j);
      assert (m - {j}) - {k} == (m - {k}) - {j};
    }
  }

  /** Setting one entry changes the sum by the difference. */
  lemma SumUpdate<V>(m: map<Str, V>, f: V -> nat, k: Str, v: V)
    ensures Sum(m[k := v], f) == Sum(m, f) - (if k in m then f(m[k]) else 0) + f(v)
  {
    SumWithout(m[k := v], f, k);
    if k in m {
      SumWithout(m, f, k);
      assert m[k := v] - {k} == m - {k};
    } else {
      assert m[k := v] - {k} == m;
    }
  }

  lemma SumAtLeast<V>(m: map<Str, V>, f: V -> nat, k: Str)
    requires k in m
    ensures f(m[k]) <= Sum(m, f)
  {
    SumWithout(m, f, k);
  }

  lemma SumAtLeastTwo<V>(m: map<Str, V>, f: V -> nat, j: Str, k: Str)
    requires j in m && k in m && j != k
    ensures f(m[j]) + f(m[k]) <= Sum(m, f)
  {
    SumWithout(m, f, j);
    SumAtLeast(m - {j}, f, k);
  }

  // ---------------------------------------------------------------------------------------------
  // The ledger's total.

  function Worth(a: Account): nat { a.balance + a.staked }
  function Held(e: Escrow): nat { e.amount }

  ghost function Total(l: map<Str, Account>): nat { Sum(l, Worth) }
  ghost function Wealth(s: State): nat { Total(s.ledger) + Sum(s.escrows, Held) }

  /** A transfer moves exactly its amount: the total stays and, below 2^64, nothing wraps. Sender and
      receiver may be the same account. */
  lemma MoveConserves(l: map<Str, Account>, from: Str, to: Str, amount: u64)
    requires CanMove(l, from, to, amount) && Total(l) < TWO64
    ensures Total(Move(l, from, to, amount)) == Total(l)
    ensures var l' := Move(l, from, to, amount);
            && l'.Keys == l.Keys
            && (forall a :: a in l && a != from && a != to ==> l'[a] == l[a])
            && (from == to ==> l' == l)
            && (from != to ==> l'[from] == l[from].(balance := l[from].balance - amount)
                               && l'[to].balance == l[to].balance + amount
                               && l'[to] == l[to].(balance := l'[to].balance))
  {
    var less := l[from].(balance := l[from].balance - amount);
    var l1 := l[from := less];
    SumUpdate(l, Worth, from, less);
    if from == to {
      assert Move(l, from, to, amount) == l;
    } else {
      SumAtLeastTwo(l, Worth, from, to);
      SumUpdate(l1, Worth, to, l1[to].(balance := Add64(l1[to].balance, amount)));
    }
  }

  lemma LockConserves(l: map<Str, Account>, a: Str, amount: u64)
    requires a in l && l[a].balance >= amount && Total(l) < TWO64
    ensures Total(Lock(l, a, amount)) == Total(l)
    ensures Lock(l, a, amount)[a].staked == l[a].staked + amount
  {
    SumAtLeast(l, Worth, a);
    SumUpdate(l, Worth, a, Lock(l, a, amount)[a]);
  }

  lemma AddConserves(l: map<Str, Account>, a: Str, amount: u64)
    requires a in l && Total(l) + amount < TWO64
    ensures Total(l[a := l[a].(balance := Add64(l[a].balance, amount))]) == Total(l) + amount
  {
    SumAtLeast(l, Worth, a);
    SumUpdate(l, Worth, a, l[a].(balance := Add64(l[a].balance, amount)));
  }

  // ---------------------------------------------------------------------------------------------
  // Blocks.

  lemma PerformConserves(s: State, tx: Transaction, kind: Kind)
    requires Total(s.ledger) < TWO64
    ensures Total(Perform(s, tx, kind).ledger) == Total(s.ledger) && Perform(s, tx, kind).escrows == s.escrows
  {
    var to := if kind.PurchaseTx? then ModelOf(s, tx.to).owner else tx.to;
    if CanMove(s.ledger, tx.from, to, tx.amount) {
      MoveConserves(s.ledger, tx.from, to, tx.amount);
    }
  }

  lemma CommitLedger(s: State, tx: Transaction)
    ensures var t := Reverse(s, tx, CommitTx);
            && t.escrows == s.escrows
            && t.ledger == if CanCommit(s, tx.payload)
                           then MoveIfPossible(s.ledger, s.reversals[tx.payload].to, s.reversals[tx.payload].from,
                                               s.reversals[tx.payload].amount)
                           else s.ledger
  {
  }

  lemma OtherReverseLedger(s: State, tx: Transaction, kind: Kind)
    requires !kind.CommitTx?
    ensures Reverse(s, tx, kind).ledger == s.ledger && Reverse(s, tx, kind).escrows == s.escrows
  {
  }

  lemma ReverseConserves(s: State, tx: Transaction, kind: Kind)
    requires Total(s.ledger) < TWO64
    ensures Total(Reverse(s, tx, kind).ledger) == Total(s.ledger) && Reverse(s, tx, kind).escrows == s.escrows
  {
    if kind.CommitTx? {
      CommitLedger(s, tx);
      if CanCommit(s, tx.payload) {
        var r := s.reversals[tx.payload];
        MoveConserves(s.ledger, r.to, r.from, r.amount);
      }
    } else {
      OtherReverseLedger(s, tx, kind);
    }
  }

  lemma {:induction false} ApplyTxsConserves(s: State, txs: seq<Transaction>)
    requires Total(s.ledger) < TWO64
    ensures Total(ApplyTxs(s, txs).ledger) == Total(s.ledger) && ApplyTxs(s, txs).escrows == s.escrows
  {
    if txs != [] {
      ApplyTxsConserves(s, txs[..|txs| - 1]);
      var tx := txs[|txs| - 1];
      PerformConserves(MarkUsed(ApplyTxs(s, txs[..|txs| - 1]), tx), tx, KindOf(tx.txType));
    }
  }

  lemma {:induction false} ApplyReversalsConserves(s: State, txs: seq<Transaction>)
    requires Total(s.ledger) < TWO64
    ensures Total(ApplyReversals(s, txs).ledger) == Total(s.ledger) && ApplyReversals(s, txs).escrows == s.escrows
  {
    if txs != [] {
      ApplyReversalsConserves(s, txs[..|txs| - 1]);
      var tx := txs[|txs| - 1];
      ReverseConserves(ApplyReversals(s, txs[..|txs| - 1]), tx, KindOf(tx.txType));
    }
  }

  /** Applying any block, valid or not, keeps the ledger's total. */
  lemma ApplyBlockConserves(s: State, b: Block)
    requires Total(s.ledger) < TWO64
    ensures Total(ApplyBlock(s, b).ledger) == Total(s.ledger) && ApplyBlock(s, b).escrows == s.escrows
  {
    ApplyTxsConserves(s, b.transactions);
    ApplyReversalsConserves(ApplyTxs(s, b.transactions), b.transactions);
  }

  // ---------------------------------------------------------------------------------------------
  // Runs of the operations that only move value.

  datatype ValueOp =
    | Apply(block: Block)
    | Universal(from: Str, name: Str, amount: u64, now: i64)
    | Direct(plain: Node.PlainOp)

  function Step(s: State, op: ValueOp): State {
    match op
    case Apply(b) => ApplyBlock(s, b)
    case Universal(from, name, amount, now) => UniversalTransfer(s, from, name, amount, now)
    case Direct(plain) => Node.PlainStep(s, plain)
  }

  lemma DirectMoveConserves(l: map<Str, Account>, from: Str, to: Str, amount: u64)
    requires from in l && l[from].balance >= amount && Total(l) < TWO64
    ensures Total(DirectMove(l, from, to, amount)) == Total(l)
  {
    var l1 := l[from := l[from].(balance := l[from].balance - amount)];
    SumUpdate(l, Worth, from, l1[from]);
    WithAccountConserves(l1, to);
    AddConserves(WithAccount(l1, to), to, amount);
  }

  lemma WithAccountConserves(l: map<Str, Account>, a: Str)
    ensures Total(WithAccount(l, a)) == Total(l)
  {
    if a !in l {
      SumUpdate(l, Worth, a, Account(0, 0, false));
    }
  }

  lemma UniversalConserves(s: State, from: Str, name: Str, amount: u64, now: i64)
    requires Total(s.ledger) < TWO64
    ensures var t := UniversalTransfer(s, from, name, amount, now);
            Total(t.ledger) == Total(s.ledger) && t.escrows == s.escrows
  {
    if CanTransfer(s, from, name, amount) {
      DirectMoveConserves(s.ledger, from, s.wallets[name], amount);
      ApplyBlockConserves(DirectPart(s, from, s.wallets[name], amount), UniversalBlock(s, from, name, amount, now));
    }
  }

  /** What an escrow of this id holds already. */
  function AtStake(s: State, id: Str): nat { if id in s.escrows then s.escrows[id].amount else 0 }

  /** Creating an escrow destroys exactly what one of the same id held. */
  lemma EscrowLoses(s: State, from: Str, to: Str, amount: u64, service: Str, id: Str)
    ensures Wealth(CreateEscrow(s, from, to, amount, service, id)) ==
            Wealth(s) - if CanEscrow(s, from, amount) then AtStake(s, id) else 0
  {
    if CanEscrow(s, from, amount) {
      SumUpdate(s.ledger, Worth, from, s.ledger[from].(balance := s.ledger[from].balance - amount));
      SumUpdate(s.escrows, Held, id, Escrow(id, from, to, amount, service));
    }
  }

  /** So it keeps the total exactly when it does not overwrite one that holds value. */
  lemma EscrowConservesIff(s: State, from: Str, to: Str, amount: u64, service: Str, id: Str)
    ensures Wealth(CreateEscrow(s, from, to, amount, service, id)) == Wealth(s) <==>
            (CanEscrow(s, from, amount) ==> id !in s.escrows || s.escrows[id].amount == 0)
  {
    EscrowLoses(s, from, to, amount, service, id);
  }

  /** A case: a second escrow of 3 with the id of a first one of 5 leaves 5 less. */
  lemma EscrowLossCase(s: State, a: Str, b: Str, service: Str, id: Str)
    requires s.ledger == map[a := Account(8, 0, false)] && s.escrows == map[]
    ensures var first := CreateEscrow(s, a, b, 5, service, id);
            Wealth(first) == Wealth(s) && Wealth(CreateEscrow(first, a, b, 3, service, id)) == Wealth(s) - 5
  {
    EscrowLoses(s, a, b, 5, service, id);
    EscrowLoses(CreateEscrow(s, a, b, 5, service, id), a, b, 3, service, id);
  }

  predicate FreshId(s: State, op: ValueOp) {
    op.Direct? && op.plain.EscrowOp? ==> op.plain.id !in s.escrows
  }

  /** What staking, registering a validator and registering a model have in common. */
  lemma LockKeepsWealth(s: State, t: State, a: Str, amount: u64)
    requires Wealth(s) < TWO64 && CanEscrow(s, a, amount)
    requires t.ledger == Lock(s.ledger, a, amount) && t.escrows == s.escrows
    ensures Wealth(t) == Wealth(s)
  {
    LockConserves(s.ledger, a, amount);
  }

  lemma PurchaseKeepsWealth(s: State, buyer: Str, model: Str, amount: u64)
    requires Wealth(s) < TWO64
    ensures Wealth(PurchaseApiKey(s, buyer, model, amount)) == Wealth(s)
  {
    if model in s.registry && CanMove(s.ledger, buyer, s.registry[model].owner, amount) {
      MoveConserves(s.ledger, buyer, s.registry[model].owner, amount);
    }
  }

  lemma StakingKeepsWealth(s: State, a: Str, amount: u64)
    requires Wealth(s) < TWO64
    ensures Wealth(Stake(s, a, amount)) == Wealth(s) && Wealth(RegisterValidator(s, a, amount)) == Wealth(s)
  {
    if CanEscrow(s, a, amount) {
      LockKeepsWealth(s, Stake(s, a, amount), a, amount);
    }
  }

  lemma RegisterKeepsWealth(s: State, owner: Str, id: Str, version: Str, price: u64, active: bool)
    requires Wealth(s) < TWO64
    ensures Wealth(RegisterModel(s, owner, id, version, price, active)) == Wealth(s)
  {
    if CanEscrow(s, owner, AI_MODEL_STAKE) {
      LockKeepsWealth(s, RegisterModel(s, owner, id, version, price, active), owner, AI_MODEL_STAKE);
    }
  }

  lemma PlainConserves(s: State, op: Node.PlainOp)
    requires Wealth(s) < TWO64 && FreshId(s, Direct(op))
    ensures Wealth(Node.PlainStep(s, op)) == Wealth(s)
  {
    match op
    case EnqueueOp(tx, freshId) =>
    case StakeOp(a, amount) => StakingKeepsWealth(s, a, amount);
    case ValidatorOp(a, amount) => StakingKeepsWealth(s, a, amount);
    case ModelOp(owner, id, version, price, active) => RegisterKeepsWealth(s, owner, id, version, price, active);
    case PurchaseOp(buyer, model, amount) => PurchaseKeepsWealth(s, buyer, model, amount);
    case EscrowOp(from, to, amount, service, id) => EscrowConservesIff(s, from, to, amount, service, id);
    case MarkIrreversibleOp(id) =>
  }

  lemma StepConserves(s: State, op: ValueOp)
    requires Wealth(s) < TWO64 && FreshId(s, op)
    ensures Wealth(Step(s, op)) == Wealth(s)
  {
    match op
    case Apply(b) => ApplyBlockConserves(s, b);
    case Universal(from, name, amount, now) => UniversalConserves(s, from, name, amount, now);
    case Direct(plain) => PlainConserves(s, plain);
  }

  type History = Node.Events<ValueOp>

  function Run(es: History): State {
    match es
    case Start(s) => s
    case Then(past, op) => Step(Run(past), op)
  }

  predicate FreshIds(es: History) { es.Start? || (FreshIds(es.past) && FreshId(Run(es.past), es.op)) }

  /** Over any run, the sum of balances, stakes and escrowed amounts is what it was at the start. */
  lemma {:induction false} WealthIsConstant(es: History)
    requires Wealth(Node.Origin(es)) < TWO64 && FreshIds(es)
    ensures Wealth(Run(es)) == Wealth(Node.Origin(es))
  {
    if es.Then? {
      WealthIsConstant(es.past);
      StepConserves(Run(es.past), es.op);
    }
  }

  /** No account, and no two accounts together, hold 2^64 or more. */
  ghost predicate RoomForAll(l: map<Str, Account>) {
    && (forall a :: a in l ==> Worth(l[a]) < TWO64)
    && (forall a, b :: a in l && b in l && a != b ==> Worth(l[a]) + Worth(l[b]) < TWO64)
  }

  lemma TotalLeavesRoom(l: map<Str, Account>)
    requires Total(l) < TWO64
    ensures RoomForAll(l)
  {
    forall a | a in l ensures Worth(l[a]) < TWO64 {
      SumAtLeast(l, Worth, a);
    }
    forall a, b | a in l && b in l && a != b ensures Worth(l[a]) + Worth(l[b]) < TWO64 {
      SumAtLeastTwo(l, Worth, a, b);
    }
  }

  /** So at no point of the run, nor between the transactions of any block applied next, can adding to
      a balance anything that is held elsewhere wrap around. */
  lemma NoBalanceWraps(es: History, txs: seq<Transaction>, i: nat)
    requires Wealth(Node.Origin(es)) < TWO64 && FreshIds(es) && i <= |txs|
    ensures RoomForAll(Run(es).ledger)
    ensures RoomForAll(ApplyTxs(Run(es), txs[..i]).ledger)
    ensures RoomForAll(ApplyReversals(ApplyTxs(Run(es), txs), txs[..i]).ledger)
  {
    WealthIsConstant(es);
    var s := Run(es);
    TotalLeavesRoom(s.ledger);
    ApplyTxsConserves(s, txs[..i]);
    TotalLeavesRoom(ApplyTxs(s, txs[..i]).ledger);
    ApplyTxsConserves(s, txs);
    ApplyReversalsConserves(ApplyTxs(s, txs), txs[..i]);
    TotalLeavesRoom(ApplyReversals(ApplyTxs(s, txs), txs[..i]).ledger);
  }

  /** Nor between the two halves of a universal transfer made next. */
  lemma NoWrapBetweenHalves(es: History, from: Str, name: Str, amount: u64)
    requires Wealth(Node.Origin(es)) < TWO64 && FreshIds(es) && CanTransfer(Run(es), from, name, amount)
    ensures RoomForAll(DirectPart(Run(es), from, Run(es).wallets[name], amount).ledger)
  {
    WealthIsConstant(es);
    var l, to := Run(es).ledger, Run(es).wallets[name];
    DirectMoveConserves(l, from, to, amount);
    TotalLeavesRoom(DirectMove(l, from, to, amount));
  }

  // ---------------------------------------------------------------------------------------------
  // How much a universal transfer moves.

  lemma UniversalBlockMoves(t: State, s: State, from: Str, name: Str, amount: u64, now: i64)
    requires name in s.wallets
    ensures ApplyBlock(t, UniversalBlock(s, from, name, amount, now)).ledger ==
            MoveIfPossible(t.ledger, from, s.wallets[name], amount)
  {
    var tx := UniversalTx(s, from, name, amount, now);
    assert [tx][..0] == [];
    assert ApplyTxs(t, [tx]) == ApplyTx(t, tx);
    assert ApplyReversals(ApplyTx(t, tx), [tx]) == ApplyTx(t, tx);
  }

  /** What leaves the sender: the amount directly and, if it still can pay, once more through the block. */
  function Moved(balance: u64, amount: u64): nat { if balance < 2 * amount then amount else 2 * amount }

  /** Exactly `n` has moved between two different accounts, the second made if it was missing. */
  predicate ShiftedBy(l: map<Str, Account>, l': map<Str, Account>, from: Str, to: Str, n: nat) {
    && from in l && from in l' && to in l' && l'.Keys == l.Keys + {to}
    && (forall a :: a in l && a != from && a != to ==> l'[a] == l[a])
    && Changed(l[from], l'[from], 0 - n)
    && Changed(if to in l then l[to] else Account(0, 0, false), l'[to], n)
  }

  predicate Changed(a: Account, b: Account, n: int) {
    b.balance == a.balance + n && b.staked == a.staked && b.isAgent == a.isAgent
  }

  lemma DirectMoveShifts(l: map<Str, Account>, from: Str, to: Str, amount: u64)
    requires from in l && l[from].balance >= amount && from != to && Total(l) < TWO64
    ensures ShiftedBy(l, DirectMove(l, from, to, amount), from, to, amount)
  {
    WithAccountConserves(l, to);
    SumAtLeastTwo(WithAccount(l, to), Worth, from, to);
  }

  lemma MoveShifts(l: map<Str, Account>, from: Str, to: Str, amount: u64)
    requires CanMove(l, from, to, amount) && from != to && Total(l) < TWO64
    ensures ShiftedBy(l, Move(l, from, to, amount), from, to, amount)
  {
    MoveConserves(l, from, to, amount);
  }

  lemma ShiftedTwice(l: map<Str, Account>, l1: map<Str, Account>, l2: map<Str, Account>, from: Str, to: Str, n: nat)
    requires from != to && ShiftedBy(l, l1, from, to, n) && ShiftedBy(l1, l2, from, to, n)
    ensures ShiftedBy(l, l2, from, to, 2 * n)
  {
  }

  lemma TwiceMoved(l: map<Str, Account>, from: Str, to: Str, amount: u64, l1: map<Str, Account>)
    requires from in l && l[from].balance >= amount && from != to && Total(l) < TWO64
    requires l1 == DirectMove(l, from, to, amount)
    ensures ShiftedBy(l, MoveIfPossible(l1, from, to, amount), from, to, Moved(l[from].balance, amount))
  {
    DirectMoveShifts(l, from, to, amount);
    DirectMoveConserves(l, from, to, amount);
    if l[from].balance >= 2 * amount {
      MoveShifts(l1, from, to, amount);
      ShiftedTwice(l, l1, Move(l1, from, to, amount), from, to, amount);
    }
  }

  /** A universal transfer to another account moves exactly the amount if the sender held less than
      twice as much, and exactly twice the amount otherwise; the receiver gains what the sender loses,
      and no other account changes. A transfer to oneself changes no account. */
  lemma UniversalExact(s: State, from: Str, name: Str, amount: u64, now: i64)
    requires CanTransfer(s, from, name, amount) && Total(s.ledger) < TWO64
    ensures var to, l := s.wallets[name], UniversalTransfer(s, from, name, amount, now).ledger;
            if from == to then l == s.ledger
            else ShiftedBy(s.ledger, l, from, to, Moved(s.ledger[from].balance, amount))
  {
    var to := s.wallets[name];
    UniversalBlockMoves(DirectPart(s, from, to, amount), s, from, name, amount, now);
    if from == to {
      SumAtLeast(s.ledger, Worth, from);
      assert DirectMove(s.ledger, from, to, amount) == s.ledger;
      MoveConserves(s.ledger, from, to, amount);
    } else {
      TwiceMoved(s.ledger, from, to, amount, DirectMove(s.ledger, from, to, amount));
    }
  }

  /** What it moves is the amount asked for if and only if the sender held less than twice as much. */
  lemma MovedOnceIff(s: State, from: Str, name: Str, amount: u64, now: i64)
    requires CanTransfer(s, from, name, amount) && Total(s.ledger) < TWO64 && from != s.wallets[name]
    ensures var l := UniversalTransfer(s, from, name, amount, now).ledger;
            ShiftedBy(s.ledger, l, from, s.wallets[name], amount) <==> s.ledger[from].balance < 2 * amount
  {
    UniversalExact(s, from, name, amount, now);
  }

  /** A case: of 20, a transfer of 10 takes all. */
  lemma MovedTwiceCase(s: State, a: Str, b: Str, name: Str, now: i64)
    requires a != b && s.ledger == map[a := Account(20, 0, false)] && s.wallets == map[name := b]
    ensures UniversalTransfer(s, a, name, 10, now).ledger == map[a := Account(0, 0, false), b := Account(20, 0, false)]
  {
    SumUpdate(map[], Worth, a, Account(20, 0, false));
    assert Total(map[]) == 0;
    UniversalExact(s, a, name, 10, now);
  }
}
