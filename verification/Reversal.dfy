/** The three-phase reversal of a transfer: requested by its sender, confirmed by its receiver, then
    committed, each in a later block than the one before (blockchain.go). */
module Reversal {
  import opened Domain
  import opened Ledger
  import opened Mining
  import opened Node
  import opened ChainGrowth

  type Pending = map<Str, PendingReversal>

  // ---------------------------------------------------------------------------------------------
  // Finding the original transfer.

  predicate HoldsAt(chain: seq<Block>, m: int, tx: Transaction) { 0 <= m < |chain| && tx in chain[m].transactions }

  /** No block of the chain before position m has a transaction with this id. */
  ghost predicate NoneBefore(chain: seq<Block>, m: int, id: Str) {
    forall i, tx :: i < m && HoldsAt(chain, i, tx) ==> tx.id != id
  }

  lemma {:induction false} FindInBlockFinds(txs: seq<Transaction>, id: Str)
    ensures match FindInBlock(txs, id)
            case Some(o) => o in txs && o.id == id
            case None => forall tx :: tx in txs ==> tx.id != id
  {
    if txs != [] && txs[0].id != id {
      FindInBlockFinds(txs[1..], id);
      assert txs == [txs[0]] + txs[1..];
    }
  }

  /** The lookup finds a transaction with the id, in the earliest block that has one. */
  lemma {:induction false} FindOriginalFinds(chain: seq<Block>, id: Str) returns (m: nat)
    ensures NoneBefore(chain, m, id)
    ensures match FindOriginal(chain, id)
            case Some(o) => o.id == id && HoldsAt(chain, m, o)
            case None => m == |chain|
  {
    m := 0;
    if chain != [] {
      FindInBlockFinds(chain[0].transactions, id);
      if FindInBlock(chain[0].transactions, id).None? {
        m := FindOriginalFinds(chain[1..], id);
        assert forall i, tx :: HoldsAt(chain, i, tx) && i > 0 ==> HoldsAt(chain[1..], i - 1, tx);
        m := m + 1;
      }
    }
  }

  // ---------------------------------------------------------------------------------------------
  // What validation demands of the reversal transactions of a block.

  predicate Matches(o: Transaction, tx: Transaction) {
    o.from == tx.from && o.to == tx.to && o.amount == tx.amount && KindOf(o.txType).Transfer?
  }

  predicate Permits(rs: Pending, tx: Transaction, kind: Kind) {
    var p := tx.payload;
    match kind
    case RequestTx => p !in rs
    case ConfirmTx => p in rs && rs[p].status.Requested? && rs[p].to == tx.from
    case CommitTx => p in rs && rs[p].status.Confirmed? && tx.from in {rs[p].from, rs[p].to}
    case _ => true
  }

  predicate HasOriginal(chain: seq<Block>, tx: Transaction) {
    FindOriginal(chain, tx.payload).Some? && Matches(FindOriginal(chain, tx.payload).value, tx)
  }

  predicate Permitted(rs: Pending, txs: seq<Transaction>) {
    forall tx :: tx in txs ==> Permits(rs, tx, KindOf(tx.txType))
  }

  predicate Backed(chain: seq<Block>, txs: seq<Transaction>) {
    forall tx :: tx in txs && KindOf(tx.txType).RequestTx? ==> HasOriginal(chain, tx)
  }

  ghost predicate GuardsReversals(rules: Rules) {
    forall s, b, prev :: rules.approves(s, b, prev) ==>
      Permitted(s.reversals, b.transactions) && Backed(s.chain, b.transactions)
  }

  lemma ValidIsPermitted(s: State, env: Env, tx: Transaction)
    requires ValidTransaction(s, env, tx)
    ensures Permits(s.reversals, tx, KindOf(tx.txType))
    ensures KindOf(tx.txType).RequestTx? ==> HasOriginal(s.chain, tx)
  {
  }

  lemma NodeGuardsReversals(env: Env)
    ensures GuardsReversals(RulesOf(env))
  {
    forall s, b, prev | RulesOf(env).approves(s, b, prev)
      ensures Permitted(s.reversals, b.transactions) && Backed(s.chain, b.transactions)
    {
      assert ValidTxs(s, env, b.transactions);
      forall tx | tx in b.transactions
        ensures Permits(s.reversals, tx, KindOf(tx.txType))
        ensures KindOf(tx.txType).RequestTx? ==> HasOriginal(s.chain, tx)
      {
        assert Acceptor(s, env)(tx);
        ValidIsPermitted(s, env, tx);
      }
    }
  }

  // ---------------------------------------------------------------------------------------------
  // One block moves a reversal by at most one phase.

  predicate Requests(tx: Transaction, kind: Kind, p: Str, r: PendingReversal) {
    kind.RequestTx? && tx.payload == p && r == Opened(tx)
  }

  predicate Confirms(tx: Transaction, kind: Kind, p: Str, r: PendingReversal) {
    kind.ConfirmTx? && tx.payload == p && tx.from == r.to
  }

  predicate Commits(tx: Transaction, kind: Kind, p: Str, r: PendingReversal) {
    kind.CommitTx? && tx.payload == p && tx.from in {r.from, r.to}
  }

  ghost predicate RequestedIn(txs: seq<Transaction>, p: Str, r: PendingReversal) {
    exists tx :: tx in txs && Requests(tx, KindOf(tx.txType), p, r)
  }

  ghost predicate ConfirmedIn(txs: seq<Transaction>, p: Str, r: PendingReversal) {
    exists tx :: tx in txs && Confirms(tx, KindOf(tx.txType), p, r)
  }

  ghost predicate CommittedIn(txs: seq<Transaction>, p: Str, r: PendingReversal) {
    exists tx :: tx in txs && Commits(tx, KindOf(tx.txType), p, r)
  }

  function Agreed(r: PendingReversal): PendingReversal { r.(status := Confirmed, confirmer := r.to) }

  /** From none to requested, from requested to confirmed, from confirmed to gone; or no move at all. */
  ghost predicate AtMostOnePhase(before: Pending, after: Pending, txs: seq<Transaction>, p: Str) {
    if p !in before then p in after ==> RequestedIn(txs, p, after[p])
    else if before[p].status.Requested? then
      && p in after
      && (after[p] == before[p] || (after[p] == Agreed(before[p]) && ConfirmedIn(txs, p, before[p])))
    else if p in after then after[p] == before[p]
    else CommittedIn(txs, p, before[p])
  }

  lemma PhaseWithMore(before: Pending, after: Pending, txs: seq<Transaction>, tx: Transaction, p: Str)
    requires AtMostOnePhase(before, after, txs, p)
    ensures AtMostOnePhase(before, after, txs + [tx], p)
  {
    assert forall t :: t in txs ==> t in txs + [tx];
  }

  lemma ReverseElsewhere(s: State, tx: Transaction, kind: Kind, p: Str)
    requires tx.payload != p
    ensures var rs := Reverse(s, tx, kind).reversals;
            (p in rs <==> p in s.reversals) && (p in rs ==> rs[p] == s.reversals[p])
  {
  }

  lemma ReverseHere(before: Pending, s: State, tx: Transaction, kind: Kind, txs: seq<Transaction>)
    requires Permits(before, tx, kind) && kind == KindOf(tx.txType) && tx in txs
    requires AtMostOnePhase(before, s.reversals, txs, tx.payload)
    ensures AtMostOnePhase(before, Reverse(s, tx, kind).reversals, txs, tx.payload)
  {
    match kind
    case RequestTx =>
    case ConfirmTx =>
    case CommitTx =>
    case _ =>
  }

  lemma ReverseMovesOne(before: Pending, s: State, tx: Transaction, kind: Kind, txs: seq<Transaction>, p: Str)
    requires Permits(before, tx, kind) && kind == KindOf(tx.txType)
    requires AtMostOnePhase(before, s.reversals, txs, p)
    ensures AtMostOnePhase(before, Reverse(s, tx, kind).reversals, txs + [tx], p)
  {
    PhaseWithMore(before, s.reversals, txs, tx, p);
    if tx.payload == p {
      ReverseHere(before, s, tx, kind, txs + [tx]);
    } else {
      ReverseElsewhere(s, tx, kind, p);
    }
  }

  lemma {:induction false} BlockMovesOne(s: State, txs: seq<Transaction>, p: Str)
    requires Permitted(s.reversals, txs)
    ensures AtMostOnePhase(s.reversals, ApplyReversals(s, txs).reversals, txs, p)
  {
    if txs != [] {
      var n := |txs| - 1;
      BlockMovesOne(s, txs[..n], p);
      ReverseMovesOne(s.reversals, ApplyReversals(s, txs[..n]), txs[n], KindOf(txs[n].txType), txs[..n], p);
      assert txs[..n] + [txs[n]] == txs;
    }
  }

  // ---------------------------------------------------------------------------------------------
  // And by exactly one where its transactions ask for it.

  predicate Has(txs: seq<Transaction>, kind: Kind, p: Str) {
    exists i :: 0 <= i < |txs| && IsFor(txs[i], kind, p)
  }

  predicate IsFor(tx: Transaction, kind: Kind, p: Str) { tx.payload == p && KindOf(tx.txType) == kind }

  /** Some commit of p comes when its receiver can pay. */
  ghost predicate HasPayable(s: State, txs: seq<Transaction>, p: Str, r: PendingReversal) {
    exists i :: PayableAt(s, txs, p, r, i)
  }

  ghost predicate PayableAt(s: State, txs: seq<Transaction>, p: Str, r: PendingReversal, i: int) {
    0 <= i < |txs| && IsFor(txs[i], CommitTx, p) && Covers(ApplyReversals(s, txs[..i]).ledger, r)
  }

  predicate Covers(l: map<Str, Account>, r: PendingReversal) {
    r.to in l && r.from in l && l[r.to].balance >= r.amount
  }

  /** A requested reversal appears if and only if the block requests it, becomes confirmed if and only if the block
      confirms it, and goes if and only if the block commits it at a moment when it can be paid back. */
  ghost predicate MovesWhenAsked(s: State, txs: seq<Transaction>, after: Pending, p: Str) {
    var before := s.reversals;
    if p !in before then p in after <==> Has(txs, RequestTx, p)
    else if before[p].status.Requested? then p in after && (after[p].status.Confirmed? <==> Has(txs, ConfirmTx, p))
    else p !in after <==> HasPayable(s, txs, p, before[p])
  }

  lemma HasMore(txs: seq<Transaction>, n: nat, kind: Kind, p: Str)
    requires |txs| == n + 1
    ensures Has(txs, kind, p) <==> Has(txs[..n], kind, p) || IsFor(txs[n], kind, p)
  {
    if Has(txs[..n], kind, p) {
      var i :| 0 <= i < n && IsFor(txs[..n][i], kind, p);
      assert IsFor(txs[i], kind, p);
    }
    if Has(txs, kind, p) {
      var i :| 0 <= i < |txs| && IsFor(txs[i], kind, p);
      assert i < n ==> IsFor(txs[..n][i], kind, p);
    }
  }

  lemma SamePayable(s: State, txs: seq<Transaction>, n: nat, p: Str, r: PendingReversal, i: int)
    requires |txs| == n + 1 && i < n
    ensures PayableAt(s, txs, p, r, i) <==> PayableAt(s, txs[..n], p, r, i)
  {
    if i >= 0 {
      assert txs[..n][i] == txs[i] && txs[..n][..i] == txs[..i];
    }
  }

  lemma HasPayableMore(s: State, txs: seq<Transaction>, n: nat, p: Str, r: PendingReversal)
    requires |txs| == n + 1
    ensures HasPayable(s, txs, p, r) <==> HasPayable(s, txs[..n], p, r) || PayableAt(s, txs, p, r, n)
  {
    if HasPayable(s, txs, p, r) {
      var i :| PayableAt(s, txs, p, r, i);
      if i < n {
        SamePayable(s, txs, n, p, r, i);
      }
    }
    if HasPayable(s, txs[..n], p, r) {
      var i :| PayableAt(s, txs[..n], p, r, i);
      SamePayable(s, txs, n, p, r, i);
    }
  }

  /** One transaction's effect on the reversal it names. */
  lemma ReverseThis(s: State, tx: Transaction, kind: Kind, p: Str)
    requires tx.payload == p
    ensures var rs := Reverse(s, tx, kind).reversals;
            if p !in s.reversals then p in rs <==> kind.RequestTx?
            else if s.reversals[p].status.Requested? then p in rs && (rs[p].status.Confirmed? <==> kind.ConfirmTx?)
            else p !in rs <==> kind.CommitTx? && Covers(s.ledger, s.reversals[p])
  {
    match kind
    case RequestTx =>
    case ConfirmTx =>
    case CommitTx =>
    case _ =>
  }

  lemma StepWhenAsked(s: State, txs: seq<Transaction>, n: nat, p: Str, t: State)
    requires |txs| == n + 1 && Permitted(s.reversals, txs) && t == ApplyReversals(s, txs[..n])
    requires MovesWhenAsked(s, txs[..n], t.reversals, p) && AtMostOnePhase(s.reversals, t.reversals, txs[..n], p)
    ensures MovesWhenAsked(s, txs, Reverse(t, txs[n], KindOf(txs[n].txType)).reversals, p)
  {
    var tx := txs[n];
    assert Permits(s.reversals, tx, KindOf(tx.txType));
    HasMore(txs, n, RequestTx, p);
    HasMore(txs, n, ConfirmTx, p);
    if p in s.reversals {
      HasPayableMore(s, txs, n, p, s.reversals[p]);
    }
    if tx.payload == p {
      ReverseThis(t, tx, KindOf(tx.txType), p);
    } else {
      ReverseElsewhere(t, tx, KindOf(tx.txType), p);
    }
  }

  lemma {:induction false} BlockMovesWhenAsked(s: State, txs: seq<Transaction>, p: Str)
    requires Permitted(s.reversals, txs)
    ensures MovesWhenAsked(s, txs, ApplyReversals(s, txs).reversals, p)
  {
    if txs != [] {
      var n := |txs| - 1;
      BlockMovesWhenAsked(s, txs[..n], p);
      BlockMovesOne(s, txs[..n], p);
      StepWhenAsked(s, txs, n, p, ApplyReversals(s, txs[..n]));
    }
  }

  // ---------------------------------------------------------------------------------------------
  // What the commits of a block pay back.

  /** The payloads whose commit goes through, in order. */
  function Committed(s: State, txs: seq<Transaction>): seq<Str> {
    if txs == [] then []
    else
      var n := |txs| - 1;
      Committed(s, txs[..n]) + Payload(ApplyReversals(s, txs[..n]), txs[n], KindOf(txs[n].txType))
  }

  function Payload(s: State, tx: Transaction, kind: Kind): seq<Str> {
    if kind.CommitTx? && CanCommit(s, tx.payload) then [tx.payload] else []
  }

  predicate CanPayBack(l: map<Str, Account>, r: PendingReversal) { CanMove(l, r.to, r.from, r.amount) }

  /** For each payload in turn, its amount goes back from the receiver to the sender. */
  function PayBack(l: map<Str, Account>, rs: Pending, ps: seq<Str>): map<Str, Account>
    requires forall p :: p in ps ==> p in rs
  {
    if ps == [] then l
    else
      var r := rs[ps[|ps| - 1]];
      MoveIfPossible(PayBack(l, rs, ps[..|ps| - 1]), r.to, r.from, r.amount)
  }

  /** Every one of the payments finds the balance it needs. */
  predicate Payable(l: map<Str, Account>, rs: Pending, ps: seq<Str>) {
    && (forall p :: p in ps ==> p in rs)
    && (ps == [] ||
        var n := |ps| - 1;
        Payable(l, rs, ps[..n]) && CanPayBack(PayBack(l, rs, ps[..n]), rs[ps[n]]))
  }

  predicate Distinct(ps: seq<Str>) { forall i, j :: 0 <= i < j < |ps| ==> ps[i] != ps[j] }

  /** The payments are those of the confirmed reversals that have gone, each once. */
  ghost predicate PaidBack(before: State, after: State, ps: seq<Str>) {
    && Distinct(ps)
    && (forall p :: p in ps <==> p in before.reversals && p !in after.reversals)
    && (forall p :: p in ps ==> before.reversals[p].status.Confirmed?)
    && Payable(before.ledger, before.reversals, ps)
    && after.ledger == PayBack(before.ledger, before.reversals, ps)
  }

  lemma PayBackOneMore(l: map<Str, Account>, rs: Pending, ps: seq<Str>, p: Str)
    requires Payable(l, rs, ps) && p in rs && CanPayBack(PayBack(l, rs, ps), rs[p])
    ensures Payable(l, rs, ps + [p])
    ensures PayBack(l, rs, ps + [p]) == Move(PayBack(l, rs, ps), rs[p].to, rs[p].from, rs[p].amount)
  {
    assert (ps + [p])[..|ps|] == ps;
  }

  lemma ReversePaysBack(before: State, s: State, tx: Transaction, kind: Kind, ps: seq<Str>)
    requires Permits(before.reversals, tx, kind) && PaidBack(before, s, ps)
    requires forall p :: p in s.reversals && p in before.reversals && before.reversals[p].status.Confirmed? ==>
               s.reversals[p] == before.reversals[p]
    ensures PaidBack(before, Reverse(s, tx, kind), ps + Payload(s, tx, kind))
  {
    var p := tx.payload;
    if kind.CommitTx? && CanCommit(s, p) {
      PayBackOneMore(before.ledger, before.reversals, ps, p);
    } else {
      assert ps + Payload(s, tx, kind) == ps;
    }
  }

  lemma {:induction false} CommitsPayBack(s: State, txs: seq<Transaction>)
    requires Permitted(s.reversals, txs)
    ensures PaidBack(s, ApplyReversals(s, txs), Committed(s, txs))
  {
    if txs != [] {
      var n := |txs| - 1;
      CommitsPayBack(s, txs[..n]);
      var before := ApplyReversals(s, txs[..n]);
      forall p | p in before.reversals && p in s.reversals && s.reversals[p].status.Confirmed?
        ensures before.reversals[p] == s.reversals[p]
      {
        BlockMovesOne(s, txs[..n], p);
      }
      ReversePaysBack(s, before, txs[n], KindOf(txs[n].txType), Committed(s, txs[..n]));
    }
  }

  // ---------------------------------------------------------------------------------------------
  // Runs: what stands behind every pending reversal.

  /** The block holds the sender's request that opened this reversal, and the chain it was validated on
      the original transfer. */
  ghost predicate RequestAt(a: Applied, p: Str, r: PendingReversal) {
    exists tx :: tx in a.block.transactions && Requests(tx, KindOf(tx.txType), p, r) && HasOriginal(a.chain, tx)
  }

  /** After each of these blocks the reversal was pending as r. */
  ghost predicate Held(bs: seq<Applied>, i: nat, j: nat, p: Str, r: PendingReversal)
    requires j <= |bs|
  {
    forall k :: i <= k < j ==> p in bs[k].pending && bs[k].pending[p] == r
  }

  /** Not pending before block i. */
  ghost predicate AbsentBefore(bs: seq<Applied>, i: nat, p: Str)
    requires i < |bs|
  {
    i > 0 ==> p !in bs[i - 1].pending
  }

  /** Opened by a request in block i, and pending as requested from there on. */
  ghost predicate OpenedAt(bs: seq<Applied>, p: Str, r: PendingReversal, i: nat, j: nat)
    requires i < j <= |bs|
  {
    AbsentBefore(bs, i, p) && RequestAt(bs[i], p, r) && Held(bs, i, j, p, r)
  }

  ghost predicate Begun(bs: seq<Applied>, p: Str, r: PendingReversal) {
    exists i :: 0 <= i < |bs| && OpenedAt(bs, p, r, i, |bs|)
  }

  /** As it was before its confirmation. */
  function Asked(r: PendingReversal): PendingReversal { r.(status := Requested, confirmer := []) }

  /** Opened in one block, confirmed by the receiver in a later one, pending all the while. */
  ghost predicate Earned(bs: seq<Applied>, p: Str, r: PendingReversal) {
    exists i, j :: 0 <= i < j < |bs| && ConfirmedAt(bs, p, r, i, j)
  }

  ghost predicate ConfirmedAt(bs: seq<Applied>, p: Str, r: PendingReversal, i: nat, j: nat)
    requires i < j < |bs|
  {
    && OpenedAt(bs, p, Asked(r), i, j) && r == Agreed(Asked(r))
    && ConfirmedIn(bs[j].block.transactions, p, r) && Held(bs, j, |bs|, p, r)
  }

  ghost predicate Justified(bs: seq<Applied>, rs: Pending) {
    && (forall p :: p in rs ==> if rs[p].status.Requested? then Begun(bs, p, rs[p]) else Earned(bs, p, rs[p]))
    && rs == if bs == [] then map[] else bs[|bs| - 1].pending
  }

  lemma OpenedStays(bs: seq<Applied>, a: Applied, p: Str, r: PendingReversal, i: nat, j: nat)
    requires i < j <= |bs| && OpenedAt(bs, p, r, i, j)
    ensures OpenedAt(bs + [a], p, r, i, j)
  {
    var bs' := bs + [a];
    assert forall k :: 0 <= k < |bs| ==> bs'[k] == bs[k];
  }

  lemma HeldOn(bs: seq<Applied>, a: Applied, p: Str, r: PendingReversal, i: nat)
    requires i <= |bs| && Held(bs, i, |bs|, p, r) && p in a.pending && a.pending[p] == r
    ensures Held(bs + [a], i, |bs| + 1, p, r)
  {
    var bs' := bs + [a];
    assert forall k :: 0 <= k < |bs| ==> bs'[k] == bs[k];
  }

  lemma BegunStays(bs: seq<Applied>, a: Applied, p: Str, r: PendingReversal)
    requires Begun(bs, p, r) && p in a.pending && a.pending[p] == r
    ensures Begun(bs + [a], p, r)
  {
    var i :| 0 <= i < |bs| && OpenedAt(bs, p, r, i, |bs|);
    OpenedStays(bs, a, p, r, i, |bs|);
    HeldOn(bs, a, p, r, i);
    assert OpenedAt(bs + [a], p, r, i, |bs + [a]|);
  }

  lemma EarnedStays(bs: seq<Applied>, a: Applied, p: Str, r: PendingReversal)
    requires Earned(bs, p, r) && p in a.pending && a.pending[p] == r
    ensures Earned(bs + [a], p, r)
  {
    var i, j :| 0 <= i < j < |bs| && ConfirmedAt(bs, p, r, i, j);
    OpenedStays(bs, a, p, Asked(r), i, j);
    HeldOn(bs, a, p, r, j);
    assert (bs + [a])[j] == bs[j];
    assert ConfirmedAt(bs + [a], p, r, i, j);
  }

  lemma ConfirmationEarns(bs: seq<Applied>, a: Applied, p: Str, r: PendingReversal)
    requires Begun(bs, p, r) && ConfirmedIn(a.block.transactions, p, r)
    requires p in a.pending && a.pending[p] == Agreed(r)
    ensures Earned(bs + [a], p, Agreed(r))
  {
    var i :| 0 <= i < |bs| && OpenedAt(bs, p, r, i, |bs|);
    OpenedStays(bs, a, p, r, i, |bs|);
    assert Asked(Agreed(r)) == r;
    assert (bs + [a])[|bs|] == a;
    assert ConfirmedIn(a.block.transactions, p, Agreed(r));
    assert ConfirmedAt(bs + [a], p, Agreed(r), i, |bs|);
  }

  lemma RequestBegins(bs: seq<Applied>, a: Applied, p: Str, r: PendingReversal)
    requires RequestedIn(a.block.transactions, p, r) && Backed(a.chain, a.block.transactions)
    requires p in a.pending && a.pending[p] == r && (bs != [] ==> p !in bs[|bs| - 1].pending)
    ensures Begun(bs + [a], p, r)
  {
    var bs' := bs + [a];
    assert bs'[|bs|] == a && (bs != [] ==> bs'[|bs| - 1] == bs[|bs| - 1]);
    assert RequestAt(a, p, r);
    assert OpenedAt(bs', p, r, |bs|, |bs'|);
  }

  lemma BlockJustifies(bs: seq<Applied>, before: Pending, after: Pending, a: Applied)
    requires Justified(bs, before) && Backed(a.chain, a.block.transactions) && a.pending == after
    requires forall p :: AtMostOnePhase(before, after, a.block.transactions, p)
    ensures Justified(bs + [a], after)
  {
    forall p | p in after
      ensures if after[p].status.Requested? then Begun(bs + [a], p, after[p]) else Earned(bs + [a], p, after[p])
    {
      assert AtMostOnePhase(before, after, a.block.transactions, p);
      if p !in before {
        RequestBegins(bs, a, p, after[p]);
      } else if after[p] != before[p] {
        ConfirmationEarns(bs, a, p, before[p]);
      } else if after[p].status.Requested? {
        BegunStays(bs, a, p, after[p]);
      } else {
        EarnedStays(bs, a, p, after[p]);
      }
    }
  }

  /** What one step does to the pending reversals. */
  ghost predicate Moves(before: Pending, after: Pending, applied: Option<Block>, chain: seq<Block>) {
    match applied
    case None => after == before
    case Some(b) => Backed(chain, b.transactions) && forall p :: AtMostOnePhase(before, after, b.transactions, p)
  }

  lemma AppliedMoves(s: State, chain: seq<Block>, b: Block, s': State, base: State)
    requires Permitted(s.reversals, b.transactions) && Backed(chain, b.transactions)
    requires base.reversals == s.reversals && s'.reversals == ApplyBlock(base, b).reversals
    ensures Moves(s.reversals, s'.reversals, Some(b), chain)
  {
    ApplyTxsFrame(base, b.transactions);
    forall p ensures AtMostOnePhase(s.reversals, s'.reversals, b.transactions, p) {
      BlockMovesOne(ApplyTxs(base, b.transactions), b.transactions, p);
    }
  }

  lemma UniversalPermitted(s: State, from: Str, name: Str, amount: u64, now: i64, rs: Pending, chain: seq<Block>)
    requires name in s.wallets
    ensures var txs := UniversalBlock(s, from, name, amount, now).transactions; Permitted(rs, txs) && Backed(chain, txs)
  {
    assert KindOf(UniversalTx(s, from, name, amount, now).txType).Transfer?;
  }

  /** Whichever way a step applies a block, its transactions are permitted. */
  lemma StepPermitted(s: State, rules: Rules, op: Op)
    requires Legal(s, op) && GuardsReversals(rules) && AppliedBlock(s, rules, op).Some?
    ensures var txs := AppliedBlock(s, rules, op).value.transactions;
            Permitted(s.reversals, txs) && Backed(ChainBefore(s, op), txs)
  {
    if op.UniversalOp? {
      UniversalPermitted(s, op.from, op.name, op.amount, op.now, s.reversals, s.chain);
    } else {
      StepApplies(s, rules, op);
    }
  }

  lemma StepReversals(s: State, rules: Rules, op: Op)
    requires Legal(s, op)
    ensures match AppliedBlock(s, rules, op)
            case None => Step(s, rules, op).reversals == s.reversals
            case Some(b) =>
              && Base(s, rules, op).reversals == s.reversals
              && Step(s, rules, op).reversals == ApplyBlock(Base(s, rules, op), b).reversals
  {
    if !op.UniversalOp? {
      StepApplies(s, rules, op);
    }
  }

  /** Every operation moves every reversal by at most one phase, and a block may request one only for a
      transfer on the chain it was validated on. */
  lemma StepMoves(s: State, rules: Rules, op: Op)
    requires Legal(s, op) && GuardsReversals(rules)
    ensures Moves(s.reversals, Step(s, rules, op).reversals, AppliedBlock(s, rules, op), ChainBefore(s, op))
  {
    var applied := AppliedBlock(s, rules, op);
    StepReversals(s, rules, op);
    if applied.Some? {
      StepPermitted(s, rules, op);
      AppliedMoves(s, ChainBefore(s, op), applied.value, Step(s, rules, op), Base(s, rules, op));
    }
  }

  /** In every reachable state, each requested reversal was opened by a request in an earlier block and has
      been pending since; each confirmed one was, in a later block, confirmed by its receiver. */
  lemma {:induction false} AlwaysJustified(es: History, rules: Rules)
    requires GuardsReversals(rules) && LegalRun(es, rules) && Origin(es).reversals == map[]
    ensures Justified(Blocks(es, rules), Run(es, rules).reversals)
  {
    if es.Then? {
      var s, op := Run(es.past, rules), es.op;
      AlwaysJustified(es.past, rules);
      StepMoves(s, rules, op);
      if AppliedBlock(s, rules, op).Some? {
        BlockJustifies(Blocks(es.past, rules), s.reversals, Run(es, rules).reversals,
                       Record(s, rules, op, AppliedBlock(s, rules, op).value));
      }
    }
  }

  /** A reversal that leaves was confirmed, and leaves by a commit in the block. */
  lemma LeavesByCommit(before: Pending, after: Pending, applied: Option<Block>, chain: seq<Block>, p: Str)
    requires Moves(before, after, applied, chain) && p in before && p !in after
    ensures before[p].status.Confirmed? && applied.Some? && CommittedIn(applied.value.transactions, p, before[p])
  {
    assert applied.Some? ==> AtMostOnePhase(before, after, applied.value.transactions, p);
  }

  lemma BlocksThen(es: History, op: Op, rules: Rules)
    requires Legal(Run(es, rules), op) && AppliedBlock(Run(es, rules), rules, op).Some?
    ensures var s := Run(es, rules);
            Blocks(Then(es, op), rules) == Blocks(es, rules) + [Record(s, rules, op, AppliedBlock(s, rules, op).value)]
  {
  }

  /** A reversal that leaves the pending ones at some step leaves by a commit in the block of that step;
      this very reversal was opened by a request of the original transfer's sender and then confirmed by
      its receiver in two different blocks before this one, in that order, and was pending without a
      break in between. */
  lemma CommitIsEarned(es: History, op: Op, rules: Rules, p: Str)
    requires GuardsReversals(rules) && LegalRun(Then(es, op), rules) && Origin(es).reversals == map[]
    requires p in Run(es, rules).reversals && p !in Step(Run(es, rules), rules, op).reversals
    ensures var r, bs, bs' := Run(es, rules).reversals[p], Blocks(es, rules), Blocks(Then(es, op), rules);
            && Earned(bs, p, r)
            && |bs'| == |bs| + 1 && bs'[..|bs|] == bs && CommittedIn(bs'[|bs|].block.transactions, p, r)
  {
    AlwaysJustified(es, rules);
    var s := Run(es, rules);
    StepMoves(s, rules, op);
    LeavesByCommit(s.reversals, Step(s, rules, op).reversals, AppliedBlock(s, rules, op), ChainBefore(s, op), p);
    BlocksThen(es, op, rules);
  }

  /** The ledger of a step that applies a block: the block's own transactions on the step's base, then, for
      each reversal that leaves in this step, its amount once from the receiver back to the sender of the
      original transfer, then for mining the buyback; and nothing else. */
  lemma StepPaysBack(s: State, rules: Rules, op: Op, b: Block) returns (ps: seq<Str>)
    requires Legal(s, op) && GuardsReversals(rules) && AppliedBlock(s, rules, op) == Some(b)
    ensures var before := ApplyTxs(Base(s, rules, op), b.transactions);
            var after := ApplyBlock(Base(s, rules, op), b);
            && before.reversals == s.reversals && after.reversals == Step(s, rules, op).reversals
            && PaidBack(before, after, ps)
            && Step(s, rules, op).ledger == Closing(after, rules, op)
  {
    var base := Base(s, rules, op);
    var before := ApplyTxs(base, b.transactions);
    StepReversals(s, rules, op);
    StepPermitted(s, rules, op);
    StepLedger(s, rules, op);
    ApplyTxsFrame(base, b.transactions);
    ps := Committed(before, b.transactions);
    CommitsPayBack(before, b.transactions);
  }

  lemma BuybackOnlyFund(l: map<Str, Account>, supply: u64, fund: Str, a: Str)
    requires a != fund
    ensures var l' := BoughtBack(l, supply, fund); (a in l' <==> a in l) && (a in l' ==> l'[a] == l[a])
  {
  }

  /** The buyback closing a mining step takes from no account but the fund. */
  lemma ClosingOnlyFund(s: State, rules: Rules, op: Op, a: Str)
    requires a != rules.fund
    ensures var l := Closing(s, rules, op); (a in l <==> a in s.ledger) && (a in l ==> l[a] == s.ledger[a])
  {
    BuybackOnlyFund(s.ledger, s.supply, rules.fund, a);
    assert Closing(s, rules, op) in {s.ledger, BoughtBack(s.ledger, s.supply, rules.fund)};
  }

  // ---------------------------------------------------------------------------------------------
  // Where the original transfer is, in runs that adopt no foreign chain.

  predicate IsOriginal(o: Transaction, p: Str, r: PendingReversal) {
    o.id == p && KindOf(o.txType).Transfer? && o.from == r.from && o.to == r.to && o.amount == r.amount
  }

  lemma RequestNamesOriginal(a: Applied, p: Str, r: PendingReversal) returns (m: nat, o: Transaction)
    requires RequestAt(a, p, r)
    ensures IsOriginal(o, p, r) && HoldsAt(a.chain, m, o)
  {
    m := FindOriginalFinds(a.chain, p);
    o := FindOriginal(a.chain, p).value;
  }

  lemma PositionInGrown(first: seq<Block>, bs: seq<Applied>, i: nat, m: nat, o: Transaction)
    requires i < |bs| && GrownAt(first, bs, i) && HoldsAt(bs[i].chain, m, o)
    ensures if m < |first| then HoldsAt(first, m, o) else m - |first| < i && o in bs[m - |first|].block.transactions
  {
    assert m >= |first| ==> bs[i].chain[m] == Bare(bs[..i])[m - |first|];
  }

  lemma OriginalIn(first: seq<Block>, bs: seq<Applied>, i: nat, p: Str, r: PendingReversal)
      returns (m: nat, o: Transaction)
    requires i < |bs| && GrownAt(first, bs, i) && RequestAt(bs[i], p, r)
    ensures IsOriginal(o, p, r) && (HoldsAt(first, m, o) || (m < i && o in bs[m].block.transactions))
  {
    m, o := RequestNamesOriginal(bs[i], p, r);
    PositionInGrown(first, bs, i, m, o);
    if m >= |first| {
      m := m - |first|;
    }
  }

  /** The original transfer is in a block applied before the one that holds the request, or among the first. */
  lemma OriginalIsEarlier(es: History, rules: Rules, i: nat, p: Str, r: PendingReversal)
      returns (first: seq<Block>, m: nat, o: Transaction)
    requires LegalRun(es, rules) && NoReplacement(es)
    requires i < |Blocks(es, rules)| && RequestAt(Blocks(es, rules)[i], p, r)
    ensures IsOriginal(o, p, r)
    ensures FirstBlocks(Origin(es).chain, first, Blocks(es, rules), Run(es, rules).chain)
    ensures HoldsAt(first, m, o) || (m < i && o in Blocks(es, rules)[m].block.transactions)
  {
    first := ChainIsAppliedBlocks(es, rules);
    assert GrownAt(first, Blocks(es, rules), i);
    m, o := OriginalIn(first, Blocks(es, rules), i, p, r);
  }
}
