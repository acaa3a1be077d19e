/** When mining succeeds (blockchain.go): the fees it charges on the way cannot make an admitted
    transaction invalid, so the block is rejected only for its ids or its author. */
module Admission {
  import opened Domain
  import opened Ledger
  import opened Conservation
  import opened Mining
  import opened Node
  import ChainGrowth
  import ChainBinding

  // ---------------------------------------------------------------------------------------------
  // Charging fees keeps transactions valid.

  /** No account is lost, and none changes but by gaining balance. */
  ghost predicate Richer(l: map<Str, Account>, l': map<Str, Account>) {
    forall a :: a in l ==> a in l' && l[a].balance <= l'[a].balance && l'[a] == l[a].(balance := l'[a].balance)
  }

  ghost predicate OnlyRicher(s: State, t: State) {
    t == s.(supply := t.supply, ledger := t.ledger) && Richer(s.ledger, t.ledger)
  }

  ghost predicate Lasts(rules: Rules, s: State, t: State, tx: Transaction) {
    rules.accepts(s, tx) && OnlyRicher(s, t) ==> rules.accepts(t, tx)
  }

  ghost predicate Lasting(rules: Rules) {
    forall s, t, tx {:trigger Lasts(rules, s, t, tx)} :: Lasts(rules, s, t, tx)
  }

  lemma ValidStays(s: State, t: State, env: Env, tx: Transaction)
    requires ValidTransaction(s, env, tx) && OnlyRicher(s, t)
    ensures ValidTransaction(t, env, tx)
  {
    assert tx.from in s.ledger;
    assert tx.to in s.ledger ==> tx.to in t.ledger;
  }

  lemma NodeIsLasting(env: Env)
    ensures Lasting(RulesOf(env))
  {
    forall s, t, tx
      ensures Lasts(RulesOf(env), s, t, tx)
    {
      if ValidTransaction(s, env, tx) && OnlyRicher(s, t) {
        ValidStays(s, t, env, tx);
      }
    }
  }

  lemma PayFeeEnriches(s: State, c: Charge, fund: Str)
    requires c.burned <= s.supply && Total(s.ledger) + c.share < TWO64
    ensures OnlyRicher(s, PayFee(s, c, fund))
  {
    if fund in s.ledger {
      SumAtLeast(s.ledger, Worth, fund);
    }
  }

  // ---------------------------------------------------------------------------------------------
  // Every admitted transaction is still accepted when all the fees are charged.

  ghost predicate AllAccepted(c: Collected, rules: Rules) { forall tx :: tx in c.txs ==> rules.accepts(c.s, tx) }

  lemma StillAccepted(s: State, t: State, rules: Rules, tx: Transaction)
    requires Lasting(rules) && rules.accepts(s, tx) && OnlyRicher(s, t)
    ensures rules.accepts(t, tx)
  {
    assert Lasts(rules, s, t, tx);
  }

  lemma AdmitKeepsAccepted(s: State, c: Collected, tx: Transaction, rules: Rules)
    requires Lasting(rules) && AllAccepted(c, rules) && rules.accepts(c.s, tx) && Accounted(s, c, rules.fund)
    requires Total(s.ledger) + Shares(Admit(c, tx, rules.isAI(tx), rules.fund).charges) < TWO64
    ensures AllAccepted(Admit(c, tx, rules.isAI(tx), rules.fund), rules)
  {
    var d := Admit(c, tx, rules.isAI(tx), rules.fund);
    if tx.fee > 0 {
      var charge := ChargeFor(c.s, tx.fee, rules.isAI(tx));
      SumsAppend(c.charges, charge);
      PayFeeEnriches(c.s, charge, rules.fund);
      forall other | other in d.txs
        ensures rules.accepts(d.s, other)
      {
        StillAccepted(c.s, d.s, rules, other);
      }
    }
  }

  lemma {:induction false} CollectKeepsAccepted(s: State, rules: Rules, order: seq<Transaction>, required: seq<u64>)
    requires |order| == |required| && Lasting(rules)
    requires Total(s.ledger) + Shares(Collect(s, rules, order, required).charges) < TWO64
    ensures AllAccepted(Collect(s, rules, order, required), rules)
  {
    if order != [] {
      var n := |order| - 1;
      var c := Collect(s, rules, order[..n], required[..n]);
      AdmitGrows(c, order[n], rules.isAI(order[n]), rules.fund);
      CollectKeepsAccepted(s, rules, order[..n], required[..n]);
      if rules.accepts(c.s, order[n]) && order[n].fee >= required[n] {
        CollectAccounts(s, rules, order[..n], required[..n]);
        AdmitKeepsAccepted(s, c, order[n], rules);
      }
    }
  }

  // ---------------------------------------------------------------------------------------------
  // The block mining builds, and the verdict on it.

  predicate OwnIds(txs: seq<Transaction>) {
    && (forall i :: 0 <= i < |txs| ==> txs[i].id != [])
    && (forall i, j :: 0 <= i < j < |txs| ==> txs[i].id != txs[j].id)
  }

  predicate TipIndexed(chain: seq<Block>) { chain != [] && chain[|chain| - 1].index == (|chain| - 1) % TWO64 }

  lemma NextIndex(n: nat)
    requires n > 0
    ensures Add64((n - 1) % TWO64, 1) == n % TWO64
  {
  }

  /** The block is linked to the tip, whatever transactions it holds. */
  lemma BuiltIsLinked(s: State, env: Env, m: MineInputs, txs: seq<Transaction>)
    requires TipIndexed(s.chain) && NewBlock(s, env, m, txs).blockHash != []
    ensures Linked(env, NewBlock(s, env, m, txs), s.chain[|s.chain| - 1])
  {
    NextIndex(|s.chain|);
    var b := NewBlock(s, env, m, txs);
    assert b.(blockHash := []).(blockHash := []) == b.(blockHash := []);
  }

  lemma AcceptedPass(s: State, env: Env, txs: seq<Transaction>)
    requires forall tx :: tx in txs ==> ValidTransaction(s, env, tx)
    ensures ValidTxs(s, env, txs) <==> OwnIds(txs)
  {
    assert forall i :: 0 <= i < |txs| ==> Acceptor(s, env)(txs[i]);
  }

  lemma BuiltIsValidIff(s: State, env: Env, m: MineInputs, txs: seq<Transaction>, block: Block)
    requires block == NewBlock(s, env, m, txs) && block.blockHash != []
    requires TipIndexed(s.chain) && forall tx :: tx in txs ==> ValidTransaction(s, env, tx)
    ensures ValidBlock(s, env, block, s.chain[|s.chain| - 1]) <==> OwnIds(txs) && KnownAuthor(s, block)
  {
    BuiltIsLinked(s, env, m, txs);
    AcceptedPass(s, env, txs);
  }

  /** Mining that is not paused produces a block if and only if the admitted transactions have ids, no two
      the same, and the author is one the consensus accepts. */
  lemma MiningSucceedsIff(s: State, env: Env, rules: Rules, m: MineInputs, c: Collected)
    requires rules == RulesOf(env) && |m.order| == |m.required| && c == AfterFees(s, rules, m) && NoWrap(s, c.charges)
    requires TipIndexed(WithGenesis(s, m.genesis).chain) && NewBlock(c.s, env, m, c.txs).blockHash != []
    ensures Mine(s, rules, m).MineDone? <==>
            !m.paused && OwnIds(c.txs) && KnownAuthor(c.s, NewBlock(c.s, env, m, c.txs))
  {
    NodeIsLasting(env);
    CollectKeepsAccepted(WithGenesis(s, m.genesis), rules, m.order, m.required);
    BuiltIsValidIff(c.s, env, m, c.txs, NewBlock(c.s, env, m, c.txs));
  }

  // ---------------------------------------------------------------------------------------------
  // What a caller can tell from the pool before mining.

  lemma {:induction false} CollectFromOrder(s: State, rules: Rules, order: seq<Transaction>, required: seq<u64>)
    requires |order| == |required|
    ensures forall tx :: tx in Collect(s, rules, order, required).txs ==> tx in order
    ensures OwnIds(order) ==> OwnIds(Collect(s, rules, order, required).txs)
  {
    if order != [] {
      var n := |order| - 1;
      CollectFromOrder(s, rules, order[..n], required[..n]);
      var txs := Collect(s, rules, order[..n], required[..n]).txs;
      if OwnIds(order) {
        OneMoreId(order, txs);
      }
    }
  }

  lemma OneMoreId(order: seq<Transaction>, txs: seq<Transaction>)
    requires order != [] && OwnIds(order) && forall tx :: tx in txs ==> tx in order[..|order| - 1]
    ensures OwnIds(order[..|order| - 1]) && (OwnIds(txs) ==> OwnIds(txs + [order[|order| - 1]]))
  {
    var n := |order| - 1;
    assert forall i :: 0 <= i < n ==> order[..n][i] == order[i];
    forall i | 0 <= i < |txs|
      ensures txs[i].id != order[n].id
    {
      assert txs[i] in txs;
      var k :| 0 <= k < n && order[..n][k] == txs[i];
    }
  }

  lemma TwoPlaces(txs: seq<Transaction>, i: nat, j: nat) returns (rest: seq<Transaction>)
    requires i < j < |txs|
    ensures multiset(txs) == multiset{txs[i], txs[j]} + multiset(rest)
  {
    rest := txs[..i] + txs[i + 1..j] + txs[j + 1..];
    assert txs == txs[..i] + [txs[i]] + txs[i + 1..j] + [txs[j]] + txs[j + 1..];
  }

  lemma {:induction false} Twice(txs: seq<Transaction>, x: Transaction)
    requires multiset(txs)[x] >= 2
    ensures exists i, j :: 0 <= i < j < |txs| && txs[i] == x && txs[j] == x
  {
    var n := |txs| - 1;
    assert txs == txs[..n] + [txs[n]];
    if multiset(txs[..n])[x] >= 2 {
      Twice(txs[..n], x);
      var i, j :| 0 <= i < j < n && txs[..n][i] == x && txs[..n][j] == x;
      assert txs[i] == x && txs[j] == x;
    } else {
      assert x in multiset(txs[..n]);
      var i :| 0 <= i < n && txs[..n][i] == x;
      assert txs[i] == x && txs[n] == x;
    }
  }

  /** Having ids of one's own does not depend on the order. */
  lemma OwnIdsInAnyOrder(a: seq<Transaction>, b: seq<Transaction>)
    requires multiset(a) == multiset(b) && OwnIds(a)
    ensures OwnIds(b)
  {
    forall i | 0 <= i < |b| ensures b[i].id != [] {
      assert b[i] in multiset(a);
    }
    forall i, j | 0 <= i < j < |b| ensures b[i].id != b[j].id {
      var rest := TwoPlaces(b, i, j);
      assert b[i] in multiset(a) && b[j] in multiset(a);
      if b[i] == b[j] {
        assert multiset(a)[b[i]] >= 2;
        Twice(a, b[i]);
      } else {
        var k :| 0 <= k < |a| && a[k] == b[i];
        var l :| 0 <= l < |a| && a[l] == b[j];
      }
    }
  }

  /** The author is one the consensus accepts, counting the fund's account if a fee makes it. */
  predicate AuthorOk(s: State, author: Str, fund: Str, paid: bool) {
    s.consensus.ProofOfStake? && author != [] ==>
      author in s.validators || author in s.authorities || author in s.ledger || (author == fund && paid)
  }

  lemma {:induction false} CollectAccountsKnown(s: State, rules: Rules, order: seq<Transaction>, required: seq<u64>)
    requires |order| == |required|
    ensures var c := Collect(s, rules, order, required);
            c.s.ledger.Keys == s.ledger.Keys + if AnyFee(c.txs) then {rules.fund} else {}
  {
    if order != [] {
      var n := |order| - 1;
      CollectAccountsKnown(s, rules, order[..n], required[..n]);
      AnyFeeMore(Collect(s, rules, order[..n], required[..n]).txs, order[n]);
    }
  }

  ghost predicate AnyFee(txs: seq<Transaction>) { exists tx :: tx in txs && tx.fee > 0 }

  lemma AnyFeeMore(txs: seq<Transaction>, tx: Transaction)
    ensures AnyFee(txs + [tx]) <==> AnyFee(txs) || tx.fee > 0
  {
    assert forall t :: t in txs + [tx] <==> t in txs || t == tx;
  }

  lemma KnownWith(s: State, t: State, b: Block, fund: Str, paid: bool)
    requires t.consensus == s.consensus && t.validators == s.validators && t.authorities == s.authorities
    requires t.ledger.Keys == s.ledger.Keys + if paid then {fund} else {}
    ensures KnownAuthor(t, b) <==> AuthorOk(s, b.author, fund, paid)
  {
  }

  lemma FeesKeepSetup(s: State, t: State, genesis: Block)
    requires t == WithGenesis(s, genesis).(supply := t.supply, ledger := t.ledger)
    ensures t.consensus == s.consensus && t.validators == s.validators && t.authorities == s.authorities
  {
  }

  lemma FeesMakeFund(s: State, rules: Rules, m: MineInputs, c: Collected)
    requires |m.order| == |m.required| && c == AfterFees(s, rules, m)
    ensures c.s.ledger.Keys == s.ledger.Keys + if AnyFee(c.txs) then {rules.fund} else {}
  {
    var t := WithGenesis(s, m.genesis);
    assert t.ledger == s.ledger;
    CollectAccountsKnown(t, rules, m.order, m.required);
  }

  lemma AuthorKnownIff(s: State, rules: Rules, m: MineInputs, c: Collected, block: Block)
    requires c.s == WithGenesis(s, m.genesis).(supply := c.s.supply, ledger := c.s.ledger)
    requires c.s.ledger.Keys == s.ledger.Keys + (if AnyFee(c.txs) then {rules.fund} else {}) && block.author == m.author
    ensures KnownAuthor(c.s, block) <==> AuthorOk(s, m.author, rules.fund, AnyFee(c.txs))
  {
    FeesKeepSetup(s, c.s, m.genesis);
    KnownWith(s, c.s, block, rules.fund, AnyFee(c.txs));
  }

  /** A pool in which every transaction has an id of its own is mined, if the author is accepted. */
  lemma PoolWithOwnIdsIsMined(s: State, env: Env, rules: Rules, m: MineInputs, c: Collected)
    requires rules == RulesOf(env) && Fair(s, m) && c == AfterFees(s, rules, m) && NoWrap(s, c.charges)
    requires TipIndexed(WithGenesis(s, m.genesis).chain) && NewBlock(c.s, env, m, c.txs).blockHash != []
    requires !m.paused && OwnIds(s.pending) && AuthorOk(s, m.author, rules.fund, false)
    ensures Mine(s, rules, m).MineDone?
  {
    OwnIdsInAnyOrder(s.pending, m.order);
    CollectFromOrder(WithGenesis(s, m.genesis), rules, m.order, m.required);
    FeesMakeFund(s, rules, m, c);
    AuthorKnownIff(s, rules, m, c, NewBlock(c.s, env, m, c.txs));
    MiningSucceedsIff(s, env, rules, m, c);
  }

  /** Every pooled transaction is valid before mining and pays what is required. */
  ghost predicate AllGood(s: State, rules: Rules, order: seq<Transaction>, required: seq<u64>) {
    |order| == |required| && forall i :: 0 <= i < |order| ==> rules.accepts(s, order[i]) && order[i].fee >= required[i]
  }

  lemma {:induction false} CollectEnriches(s: State, rules: Rules, order: seq<Transaction>, required: seq<u64>)
    requires |order| == |required|
    requires Total(s.ledger) + Shares(Collect(s, rules, order, required).charges) < TWO64
    ensures OnlyRicher(s, Collect(s, rules, order, required).s)
  {
    if order != [] {
      var n := |order| - 1;
      var c, tx := Collect(s, rules, order[..n], required[..n]), order[n];
      AdmitGrows(c, tx, rules.isAI(tx), rules.fund);
      CollectEnriches(s, rules, order[..n], required[..n]);
      if rules.accepts(c.s, tx) && tx.fee >= required[n] {
        CollectAccounts(s, rules, order[..n], required[..n]);
        AdmitEnriches(s, c, tx, rules);
      }
    }
  }

  lemma GoodPrefix(s: State, rules: Rules, order: seq<Transaction>, required: seq<u64>, n: nat)
    requires AllGood(s, rules, order, required) && n + 1 == |order|
    ensures AllGood(s, rules, order[..n], required[..n]) && rules.accepts(s, order[n]) && order[n].fee >= required[n]
  {
  }

  lemma CollectAdmits(s: State, rules: Rules, order: seq<Transaction>, required: seq<u64>, n: nat)
    requires |order| == |required| == n + 1 && order[n].fee >= required[n]
    requires rules.accepts(Collect(s, rules, order[..n], required[..n]).s, order[n])
    ensures Collect(s, rules, order, required).txs == Collect(s, rules, order[..n], required[..n]).txs + [order[n]]
  {
  }

  lemma CollectGrows(s: State, rules: Rules, order: seq<Transaction>, required: seq<u64>, n: nat)
    requires |order| == |required| == n + 1
    ensures Shares(Collect(s, rules, order[..n], required[..n]).charges) <=
            Shares(Collect(s, rules, order, required).charges)
  {
    AdmitGrows(Collect(s, rules, order[..n], required[..n]), order[n], rules.isAI(order[n]), rules.fund);
  }

  lemma GoodIsAdmitted(s: State, rules: Rules, order: seq<Transaction>, required: seq<u64>, n: nat, c: Collected)
    requires |order| == |required| == n + 1 && Lasting(rules) && c == Collect(s, rules, order[..n], required[..n])
    requires rules.accepts(s, order[n]) && order[n].fee >= required[n] && Total(s.ledger) + Shares(c.charges) < TWO64
    requires c.txs == order[..n]
    ensures Collect(s, rules, order, required).txs == order
  {
    CollectEnriches(s, rules, order[..n], required[..n]);
    StillAccepted(s, c.s, rules, order[n]);
    CollectAdmits(s, rules, order, required, n);
    assert order[..n] + [order[n]] == order;
  }

  lemma {:induction false} GoodAreAdmitted(s: State, rules: Rules, order: seq<Transaction>, required: seq<u64>)
    requires AllGood(s, rules, order, required) && Lasting(rules)
    requires Total(s.ledger) + Shares(Collect(s, rules, order, required).charges) < TWO64
    ensures Collect(s, rules, order, required).txs == order
  {
    if order != [] {
      var n := |order| - 1;
      GoodPrefix(s, rules, order, required, n);
      CollectGrows(s, rules, order, required, n);
      GoodAreAdmitted(s, rules, order[..n], required[..n]);
      GoodIsAdmitted(s, rules, order, required, n, Collect(s, rules, order[..n], required[..n]));
    }
  }

  lemma AdmitEnriches(s: State, c: Collected, tx: Transaction, rules: Rules)
    requires Accounted(s, c, rules.fund) && OnlyRicher(s, c.s)
    requires Total(s.ledger) + Shares(Admit(c, tx, rules.isAI(tx), rules.fund).charges) < TWO64
    ensures OnlyRicher(s, Admit(c, tx, rules.isAI(tx), rules.fund).s)
  {
    if tx.fee > 0 {
      var charge := ChargeFor(c.s, tx.fee, rules.isAI(tx));
      SumsAppend(c.charges, charge);
      PayFeeEnriches(c.s, charge, rules.fund);
    }
  }

  /** Such a pool is mined if and only if its ids are distinct and present and the author is accepted. */
  lemma GoodPoolIsMinedIff(s: State, env: Env, rules: Rules, m: MineInputs, c: Collected)
    requires rules == RulesOf(env) && Fair(s, m) && c == AfterFees(s, rules, m) && NoWrap(s, c.charges)
    requires TipIndexed(WithGenesis(s, m.genesis).chain) && NewBlock(c.s, env, m, c.txs).blockHash != []
    requires AllGood(WithGenesis(s, m.genesis), rules, m.order, m.required)
    ensures c.txs == m.order
    ensures Mine(s, rules, m).MineDone? <==>
            !m.paused && OwnIds(s.pending) && AuthorOk(s, m.author, rules.fund, AnyFee(m.order))
  {
    NodeIsLasting(env);
    GoodAreAdmitted(WithGenesis(s, m.genesis), rules, m.order, m.required);
    FeesMakeFund(s, rules, m, c);
    AuthorKnownIff(s, rules, m, c, NewBlock(c.s, env, m, c.txs));
    MiningSucceedsIff(s, env, rules, m, c);
    if OwnIds(s.pending) {
      OwnIdsInAnyOrder(s.pending, m.order);
    } else if OwnIds(m.order) {
      OwnIdsInAnyOrder(m.order, s.pending);
    }
  }

  /** A failed attempt leaves the pool as it was. */
  lemma FailureKeepsPool(s: State, rules: Rules, m: MineInputs)
    requires |m.order| == |m.required| && Mine(s, rules, m).MineFailed?
    ensures Mine(s, rules, m).s.pending == s.pending
  {
  }

  lemma GoodLater(s: State, t: State, rules: Rules, order: seq<Transaction>, required: seq<u64>)
    requires AllGood(s, rules, order, required) && Lasting(rules) && OnlyRicher(s, t)
    ensures AllGood(t, rules, order, required)
  {
    forall i | 0 <= i < |order|
      ensures rules.accepts(t, order[i])
    {
      StillAccepted(s, t, rules, order[i]);
    }
  }

  lemma RicherStill(s: State, t: State, u: State)
    requires OnlyRicher(s, t) && OnlyRicher(t, u)
    ensures OnlyRicher(s, u)
  {
  }

  // Any number of attempts to mine, and the state they leave, whatever comes of them.
  type Tries = Events<MineInputs>

  ghost function After(ts: Tries, rules: Rules): State {
    match ts
    case Start(s) => s
    case Then(past, m) => var t := After(past, rules); if |m.order| == |m.required| then Mine(t, rules, m).s else t
  }

  /** An attempt at state t with the pool's transactions, all of them valid at s and paying what this attempt
      requires. */
  ghost predicate Attempt(s: State, t: State, env: Env, rules: Rules, m: MineInputs) {
    && Fair(t, m) && AllGood(s, rules, m.order, m.required)
    && var c := AfterFees(t, rules, m);
    && NoWrap(t, c.charges) && NewBlock(c.s, env, m, c.txs).blockHash != []
  }

  ghost predicate Attempts(ts: Tries, env: Env, rules: Rules) {
    ts.Start? || (Attempts(ts.past, env, rules) && Attempt(Origin(ts), After(ts.past, rules), env, rules, ts.op))
  }

  /** The attempt produces nothing; unless paused it admits, and so charges, the whole pool. */
  ghost predicate Wasted(t: State, rules: Rules, m: MineInputs) {
    && |m.order| == |m.required| && Mine(t, rules, m).MineFailed?
    && var c := AfterFees(t, rules, m);
    && (!m.paused ==> c.txs == m.order && Mine(t, rules, m).charges == c.charges)
  }

  ghost predicate AllWasted(ts: Tries, rules: Rules) {
    ts.Start? || (AllWasted(ts.past, rules) && Wasted(After(ts.past, rules), rules, ts.op))
  }

  lemma AttemptIsWasted(s: State, t: State, env: Env, rules: Rules, m: MineInputs, c: Collected)
    requires rules == RulesOf(env) && !OwnIds(s.pending) && TipIndexed(s.chain) && OnlyRicher(s, t)
    requires Attempt(s, t, env, rules, m) && c == AfterFees(t, rules, m)
    ensures Wasted(t, rules, m) && OnlyRicher(s, Mine(t, rules, m).s)
  {
    NodeIsLasting(env);
    GoodLater(s, t, rules, m.order, m.required);
    GoodPoolIsMinedIff(t, env, rules, m, c);
    CollectEnriches(t, rules, m.order, m.required);
    RicherStill(s, t, c.s);
  }

  /** A pool of valid transactions without ids of their own is never mined: however many attempts are made
      on it, each of them fails, the pool and the chain stay as they were, and accounts only gain balance;
      each attempt that is not paused admits and charges all of the pool again. */
  lemma {:induction false} StuckPool(ts: Tries, env: Env, rules: Rules)
    requires rules == RulesOf(env) && Attempts(ts, env, rules)
    requires !OwnIds(Origin(ts).pending) && TipIndexed(Origin(ts).chain)
    ensures AllWasted(ts, rules) && OnlyRicher(Origin(ts), After(ts, rules))
    ensures After(ts, rules).pending == Origin(ts).pending && After(ts, rules).chain == Origin(ts).chain
  {
    if ts.Then? {
      var t := After(ts.past, rules);
      StuckPool(ts.past, env, rules);
      AttemptIsWasted(Origin(ts), t, env, rules, ts.op, AfterFees(t, rules, ts.op));
    }
  }

  predicate NoneWithKey(pool: seq<Transaction>, tx: Transaction) {
    forall i :: 0 <= i < |pool| ==> !SameKey(pool[i], tx)
  }

  lemma IsQueued(s: State, tx: Transaction, newId: Str)
    requires |s.pending| < POOL_LIMIT && tx.id != [] && tx.nonce != 0 && !IsReplay(s, tx) && NoneWithKey(s.pending, tx)
    ensures Enqueue(s, tx, newId) == s.(pending := s.pending + [tx])
  {
    IndexOfKeyFirst(s.pending, tx);
    assert Judge(s, tx) == Queued;
  }

  /** Two transactions of different senders are both queued, whatever their ids, if there is room and
      neither is in the pool already. */
  lemma BothQueued(s: State, a: Transaction, b: Transaction, idA: Str, idB: Str)
    requires |s.pending| + 2 <= POOL_LIMIT && a.id != [] && b.id != [] && a.nonce != 0 && b.nonce != 0
    requires a.from != b.from && !IsReplay(s, a) && !IsReplay(s, b)
    requires NoneWithKey(s.pending, a) && NoneWithKey(s.pending, b)
    ensures Enqueue(Enqueue(s, a, idA), b, idB) == s.(pending := s.pending + [a] + [b])
  {
    IsQueued(s, a, idA);
    IsQueued(s.(pending := s.pending + [a]), b, idB);
  }

  /** So the pool lets in two transactions with the same id. If both are valid and pay what is required,
      no block is mined from it. */
  lemma SharedIdIsNotMined(
      s: State, env: Env, rules: Rules, a: Transaction, b: Transaction, m: MineInputs, c: Collected)
    requires a.id == b.id && a.from != b.from && rules == RulesOf(env)
    requires rules.accepts(s, a) && rules.accepts(s, b) && s.pending == [a, b] && TipIndexed(s.chain)
    requires Fair(s, m) && (forall i :: 0 <= i < |m.order| ==> m.order[i].fee >= m.required[i])
    requires c == AfterFees(s, rules, m) && NoWrap(s, c.charges) && NewBlock(c.s, env, m, c.txs).blockHash != []
    ensures Mine(s, rules, m).MineFailed?
  {
    forall i | 0 <= i < |m.order| ensures rules.accepts(s, m.order[i]) {
      assert m.order[i] in multiset(m.order);
    }
    assert s.pending[0].id == s.pending[1].id;
    GoodPoolIsMinedIff(s, env, rules, m, c);
  }

  // A case of two such transactions, with the fee the node requires while there are no agent transactions.

  const BASE_FEE: nat := 5 * HOGOHOGO
  const FEE_MULTIPLIER: nat := 2

  /** `estimateFee` before the first agent transaction. */
  function FeeBeforeAgents(kind: Kind, congestion: nat, supply: u64): u64 {
    var complexity := if kind.RegisterModelTx? then 3 else if kind.UpdateModelTx? || kind.PurchaseTx? then 2 else 1;
    var fee := BASE_FEE + complexity * FEE_MULTIPLIER + if congestion > 10 then 10 else congestion;
    if 0 < supply < 1_000_000 then fee + 2 else if supply > 10_000_000 then fee - 1 else fee
  }

  function CaseTx(from: Str, to: Str, id: Str, chainID: Str): Transaction {
    Transaction(id, from, [], to, 1, 100_000_000, 1, "TRANSFER", [], [], 0, chainID)
  }

  const TEN := Account(10, 0, false)

  function CaseState(x: Str, y: Str, z: Str, chainID: Str, genesis: Block): State {
    NewNode(ProofOfAuthority, chainID, genesis).(ledger := map[x := TEN, y := TEN, z := TEN])
  }

  /** Both transactions in the pool, which is in order as it is. */
  function CaseInputs(a: Transaction, b: Transaction, genesis: Block): MineInputs {
    var fee := FeeBeforeAgents(Transfer, 2, 1_000_000_000);
    MineInputs(false, [], 0, 1, 1, [a, b], [fee, fee], 0, genesis)
  }

  lemma CaseTxIsValid(s: State, env: Env, tx: Transaction)
    requires tx.nonce == 1 && tx.amount == 1 && tx.chainID == s.chainID != [] && env.verify(tx)
    requires s.usedNonces == map[] && s.nextNonce == map[] && KindOf(tx.txType).Transfer?
    requires tx.from in s.ledger && tx.to in s.ledger && s.ledger[tx.from].balance == 10
    ensures ValidTransaction(s, env, tx)
  {
  }

  lemma CaseTotal(x: Str, y: Str, z: Str)
    ensures Total(map[x := TEN, y := TEN, z := TEN]) <= 30
  {
    var none: map<Str, Account> := map[];
    SumUpdate(none, Worth, x, TEN);
    SumUpdate(none[x := TEN], Worth, y, TEN);
    SumUpdate(none[x := TEN][y := TEN], Worth, z, TEN);
    assert map[x := TEN, y := TEN, z := TEN] == none[x := TEN][y := TEN][z := TEN];
  }

  lemma ShareIsSmall(s: State, fee: u64, ai: bool)
    requires fee <= 100_000_000
    ensures ChargeFor(s, fee, ai).share <= 21_000_000
  {
  }

  lemma {:induction false} SharesAreSmall(s: State, rules: Rules, order: seq<Transaction>, required: seq<u64>)
    requires |order| == |required| && forall i :: 0 <= i < |order| ==> order[i].fee <= 100_000_000
    ensures Shares(Collect(s, rules, order, required).charges) <= 21_000_000 * |order|
  {
    if order != [] {
      var n := |order| - 1;
      var c := Collect(s, rules, order[..n], required[..n]);
      SharesAreSmall(s, rules, order[..n], required[..n]);
      ShareIsSmall(c.s, order[n].fee, rules.isAI(order[n]));
      SumsAppend(c.charges, ChargeFor(c.s, order[n].fee, rules.isAI(order[n])));
    }
  }

  lemma TwoCharges(s: State, isAI: Transaction -> bool, a: Transaction, b: Transaction, cs: seq<Charge>)
    requires ChargedFor(s, isAI, [a, b], cs) && s.agentTxCount == 0 && s.supply == 1_000_000_000
    requires a.fee == b.fee == 100_000_000
    ensures Burned(cs) > 0 && Shares(cs) > 0
  {
    assert [a, b][..1] == [a] && [a][..0] == [];
    assert Paying([a]) == [a] && Paying([a, b]) == [a, b];
    assert ChargedAt(s, isAI, a, cs, 0);
    assert cs[..0] == [] && Left(s.supply, cs, 0) == s.supply;
    assert cs[..1][..0] == [] && cs[..1][0] == cs[0];
    assert Burned(cs[..1]) == cs[0].burned && Shares(cs[..1]) == cs[0].share;
  }

  lemma CasePool(env: Env, x: Str, y: Str, z: Str, id: Str, chainID: Str, genesis: Block, newId: Str, t: State)
    requires x != y && id != [] && chainID != []
    requires env.verify(CaseTx(x, z, id, chainID)) && env.verify(CaseTx(y, z, id, chainID))
    requires t.pending == [CaseTx(x, z, id, chainID), CaseTx(y, z, id, chainID)]
    requires t == CaseState(x, y, z, chainID, genesis).(pending := t.pending)
    ensures var s, a, b := CaseState(x, y, z, chainID, genesis), CaseTx(x, z, id, chainID), CaseTx(y, z, id, chainID);
            Enqueue(Enqueue(s, a, newId), b, newId) == t && ValidTransaction(t, env, a) && ValidTransaction(t, env, b)
  {
    var s, a, b := CaseState(x, y, z, chainID, genesis), CaseTx(x, z, id, chainID), CaseTx(y, z, id, chainID);
    assert KindOf(a.txType).Transfer? && KindOf(b.txType).Transfer?;
    BothQueued(s, a, b, newId, newId);
    assert [] + [a] + [b] == [a, b];
    CaseTxIsValid(t, env, a);
    CaseTxIsValid(t, env, b);
  }

  lemma CaseIsFair(t: State, a: Transaction, b: Transaction, m: MineInputs)
    requires t.pending == [a, b] && a.fee == b.fee == 100_000_000 && a.timestamp == b.timestamp
    requires m.genesis.index == 0 && m == CaseInputs(a, b, m.genesis)
    ensures Fair(t, m) && forall i :: 0 <= i < |m.order| ==> m.order[i].fee >= m.required[i]
  {
    assert FeeBeforeAgents(Transfer, 2, 1_000_000_000) == 50_000_003;
  }

  lemma CaseFails(t: State, env: Env, rules: Rules, a: Transaction, b: Transaction, m: MineInputs, c: Collected)
    requires rules == RulesOf(env) && rules.accepts(t, a) && rules.accepts(t, b)
    requires t.pending == [a, b] && a.id == b.id && a.from != b.from && a.fee == b.fee == 100_000_000
    requires t.agentTxCount == 0 && t.supply == 1_000_000_000 && TipIndexed(t.chain) && Total(t.ledger) <= 30
    requires Fair(t, m) && m.order == [a, b] && !m.paused && c == AfterFees(t, rules, m)
    requires forall i :: 0 <= i < |m.order| ==> m.order[i].fee >= m.required[i]
    requires NewBlock(c.s, env, m, c.txs).blockHash != []
    ensures Mine(t, rules, m) == MineFailed(c.s, c.charges) && Burned(c.charges) > 0 && Shares(c.charges) > 0
  {
    SharesAreSmall(t, rules, m.order, m.required);
    SharedIdIsNotMined(t, env, rules, a, b, m, c);
    CaseCharges(t, env, rules, a, b, m, c);
  }

  /** Offered to an empty pool, both are queued. Mining then fails, and has burned and shared part of their
      fees nevertheless. */
  lemma SharedIdCase(env: Env, rules: Rules, x: Str, y: Str, z: Str, id: Str, chainID: Str, genesis: Block, newId: Str)
      returns (t: State, m: MineInputs, c: Collected)
    requires x != y && id != [] && chainID != [] && genesis.index == 0 && rules == RulesOf(env)
    requires env.verify(CaseTx(x, z, id, chainID)) && env.verify(CaseTx(y, z, id, chainID))
    requires forall b :: env.hashBlock(b) != []
    ensures var s, a, b := CaseState(x, y, z, chainID, genesis), CaseTx(x, z, id, chainID), CaseTx(y, z, id, chainID);
            t == Enqueue(Enqueue(s, a, newId), b, newId) && t.pending == [a, b] && m == CaseInputs(a, b, genesis)
    ensures c == AfterFees(t, rules, m) && Mine(t, rules, m) == MineFailed(c.s, c.charges)
    ensures Burned(c.charges) > 0 && Shares(c.charges) > 0
  {
    var a, b := CaseTx(x, z, id, chainID), CaseTx(y, z, id, chainID);
    t := CaseState(x, y, z, chainID, genesis).(pending := [a, b]);
    m := CaseInputs(a, b, genesis);
    c := AfterFees(t, rules, m);
    CasePool(env, x, y, z, id, chainID, genesis, newId, t);
    CaseTotal(x, y, z);
    CaseIsFair(t, a, b, m);
    CaseFails(t, env, rules, a, b, m, c);
  }

  lemma CaseCharges(
      t: State, env: Env, rules: Rules, a: Transaction, b: Transaction, m: MineInputs, c: Collected)
    requires rules == RulesOf(env) && m.order == [a, b] && Fair(t, m) && c == AfterFees(t, rules, m)
    requires t.chain != [] && t.agentTxCount == 0 && t.supply == 1_000_000_000 && a.fee == b.fee == 100_000_000
    requires AllGood(t, rules, m.order, m.required) && Total(t.ledger) + Shares(c.charges) < TWO64
    ensures Burned(c.charges) > 0 && Shares(c.charges) > 0
  {
    NodeIsLasting(env);
    GoodAreAdmitted(t, rules, m.order, m.required);
    CollectCharges(t, rules, m.order, m.required);
    TwoCharges(t, rules.isAI, a, b, c.charges);
  }

  // ---------------------------------------------------------------------------------------------
  // The tip's index, in every reachable state.

  ghost predicate CountsBlocks(rules: Rules) {
    && (forall s, b, prev :: rules.approves(s, b, prev) ==> b.index == Add64(prev.index, 1))
    && (forall s, chain :: rules.adopts(s, chain) ==> TipIndexed(chain))
  }

  lemma {:induction false} LinkedIsIndexed(env: Env, chain: seq<Block>, i: nat)
    requires ChainBinding.LinkedChain(env, chain) && i < |chain|
    ensures chain[i].index == i % TWO64
  {
    if i > 0 {
      LinkedIsIndexed(env, chain, i - 1);
      NextIndex(i);
      assert ChainBinding.LinkedAt(env, chain, i);
    }
  }

  lemma NodeCountsBlocks(env: Env)
    ensures CountsBlocks(RulesOf(env))
  {
    forall s, chain | RulesOf(env).adopts(s, chain)
      ensures TipIndexed(chain)
    {
      ChainBinding.ValidIsLinked(s, env, chain);
      LinkedIsIndexed(env, chain, |chain| - 1);
    }
  }

  lemma ApprovedIndex(rules: Rules, s: State, chain: seq<Block>, b: Block, judging: State)
    requires CountsBlocks(rules) && Approved(s, chain, rules, b, judging) && TipIndexed(chain)
    ensures b.index == |chain| % TWO64
  {
    NextIndex(|chain|);
  }

  lemma GenesisIndexed(s: State, op: Node.Op)
    requires Legal(s, op) && (s.chain == [] || TipIndexed(s.chain)) && ChainBefore(s, op) != []
    ensures TipIndexed(ChainBefore(s, op))
  {
  }

  /** The applied block takes the next index. */
  lemma AppliedIndex(s: State, rules: Rules, op: Node.Op)
    requires CountsBlocks(rules) && Legal(s, op) && (s.chain == [] || TipIndexed(s.chain))
    requires AppliedBlock(s, rules, op).Some?
    ensures AppliedBlock(s, rules, op).value.index == |ChainBefore(s, op)| % TWO64
  {
    if !op.UniversalOp? {
      StepApplies(s, rules, op);
      GenesisIndexed(s, op);
      ApprovedIndex(rules, s, ChainBefore(s, op), AppliedBlock(s, rules, op).value, Judging(s, rules, op));
    }
  }

  /** In every reachable state with a chain, the tip's index is its position (modulo 2^64). */
  lemma {:induction false} TipAlwaysIndexed(es: Node.History, rules: Rules)
    requires CountsBlocks(rules) && LegalRun(es, rules)
    requires Node.Origin(es).chain == [] || TipIndexed(Node.Origin(es).chain)
    ensures Node.Run(es, rules).chain == [] || TipIndexed(Node.Run(es, rules).chain)
  {
    if es.Then? {
      var s := Node.Run(es.past, rules);
      TipAlwaysIndexed(es.past, rules);
      StepIndexed(s, rules, es.op);
    }
  }

  lemma ExtendsIndexed(s: State, s': State, op: Node.Op, applied: Option<Block>)
    requires ChainGrowth.Extends(s, s', op, applied) && (s.chain == [] || TipIndexed(s.chain))
    requires applied.Some? ==> applied.value.index == |ChainBefore(s, op)| % TWO64
    ensures s'.chain == [] || TipIndexed(s'.chain)
  {
  }

  lemma ReplaceIndexed(s: State, rules: Rules, chain: seq<Block>)
    requires CountsBlocks(rules) && (s.chain == [] || TipIndexed(s.chain))
    ensures var t := ReplaceChain(s, rules, chain); t.chain == [] || TipIndexed(t.chain)
  {
  }

  lemma StepIndexed(s: State, rules: Rules, op: Node.Op)
    requires CountsBlocks(rules) && Legal(s, op) && (s.chain == [] || TipIndexed(s.chain))
    ensures Node.Step(s, rules, op).chain == [] || TipIndexed(Node.Step(s, rules, op).chain)
  {
    if op.ReplaceOp? {
      ReplaceIndexed(s, rules, op.chain);
    } else {
      var applied := AppliedBlock(s, rules, op);
      ChainGrowth.StepChain(s, rules, op);
      if applied.Some? {
        AppliedIndex(s, rules, op);
      }
      ExtendsIndexed(s, Node.Step(s, rules, op), op, applied);
    }
  }
}
