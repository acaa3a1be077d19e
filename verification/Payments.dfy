/** Which of a block's payments are carried out (blockchain.go). All transactions are validated against the
    state before the block, but applied one after the other: a payment whose sender can no longer cover it is
    skipped, and stays in the block. */
module Payments {
  import opened Domain
  import opened Ledger
  import opened Conservation

  // A transaction that moves funds: a transfer, or the purchase of an API key from the model's owner.
  datatype Payment = Payment(from: Str, to: Str, amount: u64)

  function PaymentOf(s: State, tx: Transaction, kind: Kind): Option<Payment> {
    if kind.Transfer? then Some(Payment(tx.from, tx.to, tx.amount))
    else if kind.PurchaseTx? then Some(Payment(tx.from, ModelOf(s, tx.to).owner, tx.amount))
    else None
  }

  /** The last transaction's payment, as of when it is applied. */
  function LastPayment(s: State, txs: seq<Transaction>): Option<Payment>
    requires txs != []
  {
    var n := |txs| - 1;
    PaymentOf(ApplyTxs(s, txs[..n]), txs[n], KindOf(txs[n].txType))
  }

  /** Every payment finds its accounts and the balance it needs. */
  predicate AllCarried(s: State, txs: seq<Transaction>) {
    txs == [] ||
    (AllCarried(s, txs[..|txs| - 1]) &&
     match LastPayment(s, txs)
     case None => true
     case Some(p) => CanMove(ApplyTxs(s, txs[..|txs| - 1]).ledger, p.from, p.to, p.amount))
  }

  function Gain(p: Option<Payment>, a: Str): int {
    if p.None? then 0
    else (if p.value.to == a then p.value.amount else 0) - (if p.value.from == a then p.value.amount else 0)
  }

  /** What the block's payments add to an account, all of them counted. */
  function Net(s: State, txs: seq<Transaction>, a: Str): int {
    if txs == [] then 0 else Net(s, txs[..|txs| - 1], a) + Gain(LastPayment(s, txs), a)
  }

  /** From the balances before the block: each payment's accounts exist, and the sender's balance, with all
      the earlier payments of the block, covers it. */
  predicate AllCovered(s: State, txs: seq<Transaction>) {
    txs == [] ||
    (AllCovered(s, txs[..|txs| - 1]) &&
     match LastPayment(s, txs)
     case None => true
     case Some(p) => p.from in s.ledger && p.to in s.ledger
                     && s.ledger[p.from].balance + Net(s, txs[..|txs| - 1], p.from) >= p.amount)
  }

  ghost predicate Balances(s: State, txs: seq<Transaction>, l: map<Str, Account>) {
    l.Keys == s.ledger.Keys && forall a :: a in l ==> l[a].balance == s.ledger[a].balance + Net(s, txs, a)
  }

  lemma PerformPays(s: State, tx: Transaction, kind: Kind)
    ensures Perform(s, tx, kind).ledger ==
            match PaymentOf(s, tx, kind)
            case None => s.ledger
            case Some(p) => MoveIfPossible(s.ledger, p.from, p.to, p.amount)
  {
  }

  lemma MarkKeeps(s: State, tx: Transaction, kind: Kind)
    ensures MarkUsed(s, tx).ledger == s.ledger && PaymentOf(MarkUsed(s, tx), tx, kind) == PaymentOf(s, tx, kind)
  {
  }

  lemma ApplyTxPays(s: State, tx: Transaction)
    ensures ApplyTx(s, tx).ledger ==
            match PaymentOf(s, tx, KindOf(tx.txType))
            case None => s.ledger
            case Some(p) => MoveIfPossible(s.ledger, p.from, p.to, p.amount)
  {
    MarkKeeps(s, tx, KindOf(tx.txType));
    PerformPays(MarkUsed(s, tx), tx, KindOf(tx.txType));
  }

  lemma PaymentGains(l: map<Str, Account>, p: Payment, a: Str)
    requires CanMove(l, p.from, p.to, p.amount) && Total(l) < TWO64 && a in l
    ensures var l' := Move(l, p.from, p.to, p.amount);
            l'.Keys == l.Keys && l'[a].balance == l[a].balance + Gain(Some(p), a)
  {
    MoveConserves(l, p.from, p.to, p.amount);
  }

  lemma OneMorePayment(s: State, txs: seq<Transaction>, n: nat, l: map<Str, Account>, l': map<Str, Account>)
    requires |txs| == n + 1 && Balances(s, txs[..n], l) && Total(l) < TWO64
    requires match LastPayment(s, txs)
             case None => l' == l
             case Some(p) => CanMove(l, p.from, p.to, p.amount) && l' == Move(l, p.from, p.to, p.amount)
    ensures Balances(s, txs, l')
  {
    var p := LastPayment(s, txs);
    forall a | a in l
      ensures l'.Keys == l.Keys && l'[a].balance == l[a].balance + Gain(p, a)
    {
      if p.Some? {
        PaymentGains(l, p.value, a);
      }
    }
    if p.Some? {
      MoveConserves(l, p.value.from, p.value.to, p.value.amount);
    }
  }

  lemma CoveredOrNot(s: State, txs: seq<Transaction>, n: nat, l: map<Str, Account>)
    requires |txs| == n + 1 && l == ApplyTxs(s, txs[..n]).ledger && Balances(s, txs[..n], l)
    requires AllCarried(s, txs[..n]) && AllCovered(s, txs[..n])
    ensures AllCarried(s, txs) <==> AllCovered(s, txs)
  {
  }

  /** A block carries out all of its payments if and only if, in order, each is covered by the balance its
      sender had before the block with the block's earlier payments; the balances are then what adding up
      the payments gives. */
  lemma {:induction false} CarriedIffCovered(s: State, txs: seq<Transaction>)
    requires Total(s.ledger) < TWO64
    ensures AllCarried(s, txs) <==> AllCovered(s, txs)
    ensures AllCarried(s, txs) ==> Balances(s, txs, ApplyTxs(s, txs).ledger)
  {
    if txs != [] {
      var n := |txs| - 1;
      CarriedIffCovered(s, txs[..n]);
      if AllCarried(s, txs[..n]) {
        var before := ApplyTxs(s, txs[..n]);
        CoveredOrNot(s, txs, n, before.ledger);
        ApplyTxsConserves(s, txs[..n]);
        ApplyTxPays(before, txs[n]);
        if AllCarried(s, txs) {
          OneMorePayment(s, txs, n, before.ledger, ApplyTxs(s, txs).ledger);
        }
      }
    }
  }

  // ---------------------------------------------------------------------------------------------
  // A case.

  lemma BothPass(s: State, env: Env, a: Transaction, b: Transaction)
    requires ValidTransaction(s, env, a) && ValidTransaction(s, env, b) && a.id != [] && b.id != [] && a.id != b.id
    ensures ValidTxs(s, env, [a, b])
  {
    assert Acceptor(s, env)(a) && Acceptor(s, env)(b);
  }

  lemma TwoTxs(s: State, a: Transaction, b: Transaction)
    ensures ApplyTxs(s, [a]) == ApplyTx(s, a) && ApplyTxs(s, [a, b]) == ApplyTx(ApplyTx(s, a), b)
  {
    assert [a, b][..1] == [a] && [a][..0] == [];
  }

  lemma SecondIsSkipped(s: State, a: Transaction, b: Transaction)
    requires a.from == b.from && a.to == b.to && a.from != a.to && a.amount == b.amount
    requires KindOf(a.txType).Transfer? && KindOf(b.txType).Transfer?
    requires CanMove(s.ledger, a.from, a.to, a.amount) && s.ledger[a.from].balance < 2 * a.amount
    ensures ApplyTxs(s, [a, b]).ledger == Move(s.ledger, a.from, a.to, a.amount)
  {
    TwoTxs(s, a, b);
    ApplyTxPays(s, a);
    ApplyTxPays(ApplyTx(s, a), b);
  }

  lemma ValidTransferCanMove(s: State, env: Env, tx: Transaction)
    requires ValidTransaction(s, env, tx) && KindOf(tx.txType).Transfer?
    ensures CanMove(s.ledger, tx.from, tx.to, tx.amount)
  {
  }

  /** Two transfers of a sender's whole balance are both valid before the block, and so is the block's list
      of transactions; the second moves nothing. */
  lemma SecondMovesNothing(s: State, env: Env, a: Transaction, b: Transaction)
    requires ValidTransaction(s, env, a) && ValidTransaction(s, env, b) && a.id != [] && b.id != [] && a.id != b.id
    requires KindOf(a.txType).Transfer? && KindOf(b.txType).Transfer?
    requires a.from == b.from && a.to == b.to && a.from != a.to && a.amount == b.amount
    requires a.from in s.ledger && s.ledger[a.from].balance < 2 * a.amount
    ensures ValidTxs(s, env, [a, b]) && CanMove(s.ledger, a.from, a.to, a.amount)
    ensures ApplyTxs(s, [a, b]).ledger == Move(s.ledger, a.from, a.to, a.amount)
  {
    BothPass(s, env, a, b);
    ValidTransferCanMove(s, env, a);
    SecondIsSkipped(s, a, b);
  }

  /** Yet once such a block is on the chain, the transfer that moved nothing can be requested to be reversed
      like any other. */
  lemma UnpaidIsReversible(s: State, b: Transaction, request: Transaction)
    requires FindOriginal(s.chain, b.id) == Some(b) && KindOf(b.txType).Transfer? && b.id != [] && b.amount > 0
    requires request.payload == b.id && request.from == b.from && request.to == b.to && request.amount == b.amount
    requires b.id !in s.irreversible && b.id !in s.reversals && b.to in s.ledger && s.ledger[b.to].balance >= b.amount
    ensures ValidRequest(s, request)
  {
  }
}
