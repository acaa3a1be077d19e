/** What chains the node can hold and adopt (blockchain.go): a universal transfer's block breaks the chain,
    and a chain that repeats an applied transaction is never adopted. */
module Linkage {
  import opened Domain
  import opened Ledger
  import opened Node
  import opened ChainBinding
  import opened ChainGrowth
  import Nonces

  // ---------------------------------------------------------------------------------------------
  // The node's own chain.

  ghost predicate ApprovesLinked(env: Env, rules: Rules) {
    forall s, b, prev :: rules.approves(s, b, prev) ==> Linked(env, b, prev)
  }

  lemma NodeApprovesLinked(env: Env)
    ensures ApprovesLinked(env, RulesOf(env))
  {
  }

  lemma OneMoreLink(env: Env, chain: seq<Block>, b: Block)
    requires chain != []
    ensures LinkedChain(env, chain + [b]) <==> LinkedChain(env, chain) && Linked(env, b, chain[|chain| - 1])
  {
    var longer, n := chain + [b], |chain|;
    assert forall i :: 1 <= i < n ==> LinkedAt(env, longer, i) == LinkedAt(env, chain, i);
    assert LinkedAt(env, longer, n) == Linked(env, b, chain[n - 1]);
    if LinkedChain(env, chain) && Linked(env, b, chain[n - 1]) {
      forall i | 1 <= i < |longer| ensures LinkedAt(env, longer, i) {
        assert i < n ==> LinkedAt(env, chain, i);
      }
    }
    if LinkedChain(env, longer) {
      forall i | 1 <= i < n ensures LinkedAt(env, chain, i) {
        assert LinkedAt(env, longer, i);
      }
    }
  }

  lemma DirectIsUnlinked(s: State, env: Env, from: Str, name: Str, amount: u64, now: i64, prev: Block)
    requires name in s.wallets
    ensures !Linked(env, UniversalBlock(s, from, name, amount, now), prev)
  {
  }

  /** The applied block is linked to the chain before it exactly if it is not a universal transfer's. */
  lemma AppliedIsLinkedIff(s: State, env: Env, rules: Rules, op: Op, b: Block)
    requires ApprovesLinked(env, rules) && Legal(s, op) && AppliedBlock(s, rules, op) == Some(b) && s.chain != []
    ensures Linked(env, b, s.chain[|s.chain| - 1]) <==> !op.UniversalOp?
  {
    if op.UniversalOp? {
      DirectIsUnlinked(s, env, op.from, op.name, op.amount, op.now, s.chain[|s.chain| - 1]);
    } else {
      StepApplies(s, rules, op);
    }
  }

  lemma StepLinked(s: State, env: Env, rules: Rules, op: Op, applied: Option<Block>)
    requires ApprovesLinked(env, rules) && Legal(s, op) && !op.ReplaceOp? && s.chain != []
    requires applied == AppliedBlock(s, rules, op)
    ensures var chain := Step(s, rules, op).chain;
            && chain != []
            && (LinkedChain(env, chain) <==> LinkedChain(env, s.chain) && (applied.Some? ==> !op.UniversalOp?))
  {
    StepChain(s, rules, op);
    if applied.Some? {
      AppliedIsLinkedIff(s, env, rules, op, applied.value);
      OneMoreLink(env, s.chain, applied.value);
    }
  }

  ghost predicate NoneDirect(bs: seq<Applied>) { forall i :: 0 <= i < |bs| ==> !bs[i].direct }

  lemma OneMoreDirect(bs: seq<Applied>, a: Applied)
    ensures NoneDirect(bs + [a]) <==> NoneDirect(bs) && !a.direct
  {
    var bs' := bs + [a];
    assert bs'[|bs|] == a && forall i :: 0 <= i < |bs| ==> bs'[i] == bs[i];
  }

  /** In every run without replacement, from a linked chain, the chain is linked if and only if none of the
      applied blocks came from a universal transfer: after one, it never is again. */
  lemma {:induction false} LinkedIffNoneDirect(es: History, env: Env, rules: Rules)
    requires ApprovesLinked(env, rules) && LegalRun(es, rules) && NoReplacement(es)
    requires LinkedChain(env, Origin(es).chain)
    ensures Run(es, rules).chain != []
    ensures LinkedChain(env, Run(es, rules).chain) <==> NoneDirect(Blocks(es, rules))
  {
    if es.Then? {
      var s, op, bs := Run(es.past, rules), es.op, Blocks(es.past, rules);
      var applied := AppliedBlock(s, rules, op);
      LinkedIffNoneDirect(es.past, env, rules);
      StepLinked(s, env, rules, op, applied);
      if applied.Some? {
        OneMoreDirect(bs, Record(s, rules, op, applied.value));
      }
    }
  }

  // ---------------------------------------------------------------------------------------------
  // Foreign chains.

  lemma AdoptableHasNoReplay(s: State, env: Env, candidate: seq<Block>, k: nat, tx: Transaction)
    requires 1 <= k < |candidate| && tx in candidate[k].transactions
    ensures ValidChain(s, env, candidate) ==> !IsReplay(s, tx)
  {
    if ValidChain(s, env, candidate) {
      assert ValidAt(s, env, candidate, k);
      var i :| 0 <= i < |candidate[k].transactions| && candidate[k].transactions[i] == tx;
      assert Acceptor(s, env)(candidate[k].transactions[i]);
    }
  }

  /** In every reachable state, a chain that holds after its first block a transaction whose nonzero nonce
      an applied block of that sender has used is not adopted; so no extension of the node's own chain is,
      once an applied block holds such a transaction. */
  lemma AppliedIsNotAdopted(
      es: History, env: Env, rules: Rules, candidate: seq<Block>, k: nat, tx: Transaction)
    requires rules == RulesOf(env) && LegalRun(es, rules) && Nonces.NoNoncesYet(Origin(es))
    requires 1 <= k < |candidate| && tx in candidate[k].transactions
    requires tx.nonce in Nonces.AllNonces(Blocks(es, rules), tx.from)
    ensures ReplaceChain(Run(es, rules), rules, candidate) == Run(es, rules)
  {
    Nonces.NodeRejectsReplays(env);
    Nonces.RunKeepsNonces(es, rules, tx.from);
    Nonces.ZeroIsUnused(es, rules, tx.from);
    AdoptableHasNoReplay(Run(es, rules), env, candidate, k, tx);
  }
}
