/** How the node's chain grows over runs that adopt no foreign chain (blockchain.go): it is what was there
    at first, followed by the applied blocks. */
module ChainGrowth {
  import opened Domain
  import opened Ledger
  import opened Node

  predicate NoReplacement(es: History) { es.Start? || (NoReplacement(es.past) && !es.op.ReplaceOp?) }

  function Bare(bs: seq<Applied>): seq<Block> { seq(|bs|, i requires 0 <= i < |bs| => bs[i].block) }

  /** Block i was validated on the first blocks followed by all the blocks applied before it. */
  predicate GrownAt(first: seq<Block>, bs: seq<Applied>, i: nat)
    requires i < |bs|
  {
    bs[i].chain == first + Bare(bs[..i])
  }

  ghost predicate Grown(first: seq<Block>, bs: seq<Applied>, chain: seq<Block>) {
    chain == first + Bare(bs) && forall i {:trigger GrownAt(first, bs, i)} :: 0 <= i < |bs| ==> GrownAt(first, bs, i)
  }

  /** The first blocks are those at the start or, if there were none, at most a genesis block made later. */
  ghost predicate FirstBlocks(initial: seq<Block>, first: seq<Block>, bs: seq<Applied>, chain: seq<Block>) {
    Grown(first, bs, chain) && if initial == [] then |first| <= 1 else first == initial
  }

  lemma GrowsByOne(first: seq<Block>, bs: seq<Applied>, chain: seq<Block>, a: Applied)
    requires Grown(first, bs, chain) && a.chain == chain
    ensures Grown(first, bs + [a], chain + [a.block])
  {
    var bs' := bs + [a];
    assert Bare(bs') == Bare(bs) + [a.block];
    forall i | 0 <= i < |bs'|
      ensures GrownAt(first, bs', i)
    {
      if i < |bs| {
        assert GrownAt(first, bs, i) && bs'[..i] == bs[..i];
      } else {
        assert bs'[..i] == bs;
      }
    }
  }

  lemma FinishChain(c: Collected, fund: Str, m: MineInputs, block: Block)
    ensures Finish(c, fund, m, block).s.chain == c.s.chain + [block]
  {
  }

  lemma MineChain(s: State, rules: Rules, m: MineInputs, c: Collected)
    requires |m.order| == |m.required| && c == AfterFees(s, rules, m)
    ensures match Mine(s, rules, m)
            case MineDone(t, b, _, _, _) => t.chain == WithGenesis(s, m.genesis).chain + [b]
            case MineFailed(t, _) => t.chain == s.chain || (s.chain == [] && t.chain == [m.genesis])
  {
    FeesKeepChain(s, m.genesis, c.s);
    FinishChain(c, rules.fund, m, rules.build(c.s, m, c.txs));
    FinishApplies(c, rules.fund, m, rules.build(c.s, m, c.txs));
  }

  lemma PlainChain(s: State, op: PlainOp)
    ensures PlainStep(s, op).chain == s.chain
  {
  }

  ghost predicate Extends(s: State, s': State, op: Op, applied: Option<Block>) {
    match applied
    case Some(b) => s'.chain == ChainBefore(s, op) + [b]
    case None => s'.chain == s.chain || (s.chain == [] && |s'.chain| == 1 && s'.chain[0].index == 0)
  }

  lemma StepChain(s: State, rules: Rules, op: Op)
    requires Legal(s, op) && !op.ReplaceOp?
    ensures Extends(s, Step(s, rules, op), op, AppliedBlock(s, rules, op))
  {
    match op
    case MineOp(m) => MineChain(s, rules, m, AfterFees(s, rules, m));
    case SubmitOp(b) =>
    case UniversalOp(from, name, amount, now) =>
    case Plain(plain) => PlainChain(s, plain);
    case OtherOp(after) =>
  }

  /** A chain that just got its genesis block is grown from it. */
  lemma FreshChain(chain: seq<Block>)
    ensures Grown(chain, [], chain)
  {
    assert chain + Bare([]) == chain;
  }

  lemma NoneApplied(first: seq<Block>, bs: seq<Applied>)
    requires Grown(first, bs, [])
    ensures first == [] && bs == []
  {
    assert |first + Bare(bs)| == |first| + |bs|;
  }

  /** Each block was validated on the first blocks followed by all the blocks applied before it. */
  lemma {:induction false} ChainIsAppliedBlocks(es: History, rules: Rules) returns (first: seq<Block>)
    requires LegalRun(es, rules) && NoReplacement(es)
    ensures FirstBlocks(Origin(es).chain, first, Blocks(es, rules), Run(es, rules).chain)
  {
    if es.Start? {
      first := es.initial.chain;
      FreshChain(first);
    } else {
      var s, bs := Run(es.past, rules), Blocks(es.past, rules);
      var applied, s' := AppliedBlock(s, rules, es.op), Step(s, rules, es.op);
      first := ChainIsAppliedBlocks(es.past, rules);
      StepChain(s, rules, es.op);
      var before := if applied.Some? then ChainBefore(s, es.op) else s'.chain;
      first := FirstOn(Origin(es).chain, first, bs, s.chain, before);
      if applied.Some? {
        GrowsByOne(first, bs, before, Record(s, rules, es.op, applied.value));
      }
    }
  }

  lemma FirstOn(initial: seq<Block>, first: seq<Block>, bs: seq<Applied>, chain: seq<Block>, before: seq<Block>)
      returns (first': seq<Block>)
    requires FirstBlocks(initial, first, bs, chain) && (before == chain || (chain == [] && |before| == 1))
    ensures FirstBlocks(initial, first', bs, before)
  {
    first' := first;
    if before != chain {
      NoneApplied(first, bs);
      first' := before;
      FreshChain(before);
    }
  }

  // ---------------------------------------------------------------------------------------------
  // Adopting a chain.

  lemma ReplaceCases(s: State, rules: Rules, candidate: seq<Block>, adopted: bool)
    requires adopted == rules.adopts(s, candidate)
    ensures ReplaceChain(s, rules, candidate) ==
            if adopted && |candidate| > |s.chain| then s.(chain := candidate) else s
  {
  }

  /** A chain is adopted if and only if it is valid and strictly longer; otherwise nothing at all changes, and
      nothing but the chain if it is. */
  lemma AdoptedIff(s: State, env: Env, candidate: seq<Block>)
    ensures var t := ReplaceChain(s, RulesOf(env), candidate);
            && (t == s || t == s.(chain := candidate))
            && (t.chain != s.chain <==> ValidChain(s, env, candidate) && |candidate| > |s.chain|)
            && (t != s <==> t.chain != s.chain)
  {
    ReplaceCases(s, RulesOf(env), candidate, ValidChain(s, env, candidate));
  }

  lemma ReplaceNeverShrinks(s: State, rules: Rules, candidate: seq<Block>)
    ensures |ReplaceChain(s, rules, candidate).chain| >= |s.chain|
  {
  }

  /** In every run the chain never gets shorter, whatever is adopted; and every other operation leaves what was
      there in place. */
  lemma ChainNeverShrinks(s: State, rules: Rules, op: Op)
    requires Legal(s, op)
    ensures |Step(s, rules, op).chain| >= |s.chain|
    ensures !op.ReplaceOp? ==> s.chain <= Step(s, rules, op).chain
  {
    if op.ReplaceOp? {
      ReplaceNeverShrinks(s, rules, op.chain);
    } else {
      StepChain(s, rules, op);
      ExtendsPrefix(s, Step(s, rules, op), op, AppliedBlock(s, rules, op));
    }
  }

  lemma ExtendsPrefix(s: State, s': State, op: Op, applied: Option<Block>)
    requires Extends(s, s', op, applied)
    ensures s.chain <= s'.chain
  {
  }
}
