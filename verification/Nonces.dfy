/** Replay protection (blockchain.go): the used nonces of each sender and the next one expected. */
module Nonces {
  import opened Domain
  import opened Ledger
  import opened Mining
  import opened Node

  // ---------------------------------------------------------------------------------------------
  // One sender's nonces, and what marking does to them.

  datatype Track = Track(used: set<u64>, next: u64)

  function TrackOf(s: State, from: Str): Track { Track(UsedBy(s, from), NextOf(s, from)) }

  function Mark(t: Track, nonce: u64): Track {
    if nonce == 0 then t
    else Track(t.used + {nonce}, if t.next <= nonce then Add64(nonce, 1) else t.next)
  }

  predicate IsLargest(n: u64, used: set<u64>) { n in used && forall m :: m in used ==> m <= n }

  /** The next nonce is one above the largest used one; before any is used it is 0 or 1. */
  ghost predicate Exact(t: Track) {
    && 0 !in t.used
    && (t.used == {} ==> t.next <= 1)
    && (t.used != {} ==> t.next > 0 && IsLargest(t.next - 1, t.used))
  }

  /** As long as the largest 64-bit nonce was not used; after it, next wraps to 0 and all is lost. */
  ghost predicate Sound(t: Track) { MAX64 !in t.used ==> Exact(t) }

  lemma MarkKeepsSound(t: Track, nonce: u64)
    requires Sound(t)
    ensures Sound(Mark(t, nonce))
  {
    if nonce != 0 && MAX64 !in t.used + {nonce} {
      if t.used == {} {
        assert Mark(t, nonce).used == {nonce};
      } else if t.next <= nonce {
        assert IsLargest(nonce, t.used + {nonce});
      } else {
        assert IsLargest(t.next - 1, t.used + {nonce});
      }
    }
  }

  /** The universal transfer takes the next nonce and advances it before marking. */
  lemma DirectKeepsSound(t: Track)
    requires Sound(t)
    ensures Sound(Mark(t.(next := Add64(t.next, 1)), t.next))
  {
    if t.next != 0 && MAX64 !in t.used + {t.next} {
      assert IsLargest(t.next, t.used + {t.next});
    }
  }

  // ---------------------------------------------------------------------------------------------
  // The replay check.

  /** For a sender whose next nonce is exact, looking the nonce up in the set adds nothing. */
  lemma LookupIsRedundant(s: State, tx: Transaction)
    requires Sound(TrackOf(s, tx.from)) && MAX64 !in UsedBy(s, tx.from)
    ensures IsReplay(s, tx) <==> tx.nonce != 0 && NextOf(s, tx.from) > tx.nonce
  {
  }

  /** The largest nonce is the one exception: once used, only the set remembers it. */
  lemma LookupNeededIff(s: State, from: Str)
    requires Sound(TrackOf(s, from))
    ensures MAX64 in UsedBy(s, from) <==>
            exists tx: Transaction :: tx.from == from && tx.nonce in UsedBy(s, from) && NextOf(s, from) <= tx.nonce
  {
    if MAX64 in UsedBy(s, from) {
      var tx := Transaction([], from, [], [], 0, 0, MAX64, [], [], [], 0, []);
      assert tx.nonce in UsedBy(s, from) && NextOf(s, from) <= tx.nonce;
    }
  }

  /** A concrete case: using the largest nonce makes the next one 0, not one above. */
  lemma LargestNonceWraps()
    ensures Exact(Track({}, 0)) && Mark(Track({}, 0), MAX64) == Track({MAX64}, 0) && !Exact(Mark(Track({}, 0), MAX64))
  {
    assert {} + {MAX64} == {MAX64};
  }

  // ---------------------------------------------------------------------------------------------
  // Rebuilding the next nonces when the state is loaded.

  ghost function Largest(used: set<u64>): (n: u64)
    requires used != {}
    ensures IsLargest(n, used)
  {
    var n :| n in used;
    var rest := used - {n};
    if rest == {} then assert used == {n}; n
    else
      var m := Largest(rest);
      assert used == rest + {n};
      if m < n then n else m
  }

  /** What the rebuild stores for a sender. */
  ghost function Rebuilt(t: Track): u64 {
    if t.used == {} || Largest(t.used) == 0 then t.next else Add64(Largest(t.used), 1)
  }

  /** The rebuild changes nothing for a sender, unless the largest nonce was used and numbering has
      restarted since. */
  lemma RebuildIsIdentityIff(t: Track)
    requires Sound(t)
    ensures Rebuilt(t) == t.next <==> MAX64 !in t.used || t.next == 0
  {
  }

  // ---------------------------------------------------------------------------------------------
  // Blocks.

  function NoncesIn(txs: seq<Transaction>, from: Str): set<u64> {
    set i | 0 <= i < |txs| && txs[i].from == from && txs[i].nonce != 0 :: txs[i].nonce
  }

  lemma MarkUsedUsed(s: State, tx: Transaction, from: Str)
    ensures UsedBy(MarkUsed(s, tx), from) ==
            UsedBy(s, from) + if tx.from == from && tx.nonce != 0 then {tx.nonce} else {}
  {
  }

  lemma MarkUsedNext(s: State, tx: Transaction, from: Str)
    ensures NextOf(MarkUsed(s, tx), from) ==
            if tx.from == from && tx.nonce != 0 && NextOf(s, from) <= tx.nonce then Add64(tx.nonce, 1)
            else NextOf(s, from)
  {
  }

  lemma MarkUsedTrack(s: State, tx: Transaction, from: Str)
    ensures TrackOf(MarkUsed(s, tx), from) ==
            if tx.from == from then Mark(TrackOf(s, from), tx.nonce) else TrackOf(s, from)
  {
    MarkUsedUsed(s, tx, from);
    MarkUsedNext(s, tx, from);
  }

  lemma PerformKeepsNonces(s: State, tx: Transaction, kind: Kind)
    ensures Perform(s, tx, kind).usedNonces == s.usedNonces && Perform(s, tx, kind).nextNonce == s.nextNonce
  {
  }

  lemma {:induction false} ApplyTxsTrack(s: State, txs: seq<Transaction>, from: Str)
    requires Sound(TrackOf(s, from))
    ensures Sound(TrackOf(ApplyTxs(s, txs), from))
    ensures UsedBy(ApplyTxs(s, txs), from) == UsedBy(s, from) + NoncesIn(txs, from)
  {
    if txs != [] {
      var n := |txs| - 1;
      var before, tx := ApplyTxs(s, txs[..n]), txs[n];
      ApplyTxsTrack(s, txs[..n], from);
      MarkUsedTrack(before, tx, from);
      MarkKeepsSound(TrackOf(before, from), tx.nonce);
      PerformKeepsNonces(MarkUsed(before, tx), tx, KindOf(tx.txType));
      NoncesSnoc(txs, from);
    } else {
      assert NoncesIn(txs, from) == {};
    }
  }

  lemma NoncesSnoc(txs: seq<Transaction>, from: Str)
    requires txs != []
    ensures var n := |txs| - 1;
            NoncesIn(txs, from) ==
            NoncesIn(txs[..n], from) + if txs[n].from == from && txs[n].nonce != 0 then {txs[n].nonce} else {}
  {
    var n := |txs| - 1;
    assert forall i :: 0 <= i < n ==> txs[..n][i] == txs[i];
  }

  lemma ApplyBlockTrack(s: State, b: Block, from: Str)
    requires Sound(TrackOf(s, from))
    ensures Sound(TrackOf(ApplyBlock(s, b), from))
    ensures UsedBy(ApplyBlock(s, b), from) == UsedBy(s, from) + NoncesIn(b.transactions, from)
  {
    ApplyTxsTrack(s, b.transactions, from);
    ApplyReversalsFrame(ApplyTxs(s, b.transactions), b.transactions);
  }

  // ---------------------------------------------------------------------------------------------
  // Runs.

  /** Approved blocks hold no transaction that is a replay in the state they are approved in. */
  ghost predicate RejectsReplays(rules: Rules) {
    forall s, b, prev, i :: rules.approves(s, b, prev) && 0 <= i < |b.transactions| ==> !IsReplay(s, b.transactions[i])
  }

  lemma NodeRejectsReplays(env: Env)
    ensures RejectsReplays(RulesOf(env))
  {
    forall s, b, prev, i | RulesOf(env).approves(s, b, prev) && 0 <= i < |b.transactions|
      ensures !IsReplay(s, b.transactions[i])
    {
      assert Acceptor(s, env)(b.transactions[i]);
    }
  }

  /** Every nonzero nonce of the sender in these blocks. */
  function AllNonces(bs: seq<Applied>, from: Str): set<u64> {
    if bs == [] then {} else AllNonces(bs[..|bs| - 1], from) + NoncesIn(bs[|bs| - 1].block.transactions, from)
  }

  predicate NoNoncesYet(s: State) { s.usedNonces == map[] && s.nextNonce == map[] }

  predicate Above(low: set<u64>, high: set<u64>) { forall x, y :: x in low && y in high ==> x < y }

  /** What one operation that applies block b does to a sender's nonces. */
  ghost predicate Advances(s: State, s': State, b: Block, from: Str) {
    && Sound(TrackOf(s', from)) && UsedBy(s', from) == UsedBy(s, from) + NoncesIn(b.transactions, from)
    && (MAX64 !in UsedBy(s, from) ==> Above(UsedBy(s, from), NoncesIn(b.transactions, from)))
  }

  lemma NotReplayedIsAbove(s: State, txs: seq<Transaction>, from: Str)
    requires Sound(TrackOf(s, from)) && MAX64 !in UsedBy(s, from)
    requires forall i :: 0 <= i < |txs| ==> !IsReplay(s, txs[i])
    ensures Above(UsedBy(s, from), NoncesIn(txs, from))
  {
  }

  lemma ApprovedAdvances(s: State, b: Block, s': State, judging: State, base: State, from: Str)
    requires SameReversalsAndNonces(s, judging) && SameReversalsAndNonces(s, base)
    requires SameReversalsAndNonces(ApplyBlock(base, b), s') && Sound(TrackOf(s, from))
    requires forall i :: 0 <= i < |b.transactions| ==> !IsReplay(judging, b.transactions[i])
    ensures Advances(s, s', b, from)
    ensures UsedBy(s, from) !! NoncesIn(b.transactions, from)
  {
    ApplyBlockTrack(base, b, from);
    if MAX64 !in UsedBy(s, from) {
      NotReplayedIsAbove(judging, b.transactions, from);
    }
  }

  lemma DirectTrack(s: State, sender: Str, to: Str, amount: u64, from: Str)
    requires sender in s.ledger && s.ledger[sender].balance >= amount
    ensures var t := TrackOf(s, from);
            TrackOf(DirectPart(s, sender, to, amount), from) ==
            if sender == from then t.(next := Add64(t.next, 1)) else t
  {
  }

  lemma DirectAdvances(t: Track)
    requires Sound(t)
    ensures MAX64 !in t.used && t.next != 0 ==> Above(t.used, {t.next})
  {
  }

  /** A universal transfer, on one sender's nonces. */
  function DirectMark(t: Track): Track { Mark(t.(next := Add64(t.next, 1)), t.next) }

  lemma UniversalTrack(s: State, sender: Str, name: Str, amount: u64, now: i64, from: Str)
    requires CanTransfer(s, sender, name, amount)
    ensures TrackOf(UniversalTransfer(s, sender, name, amount, now), from) ==
            if sender == from then DirectMark(TrackOf(s, from)) else TrackOf(s, from)
  {
    var tx := UniversalTx(s, sender, name, amount, now);
    var t := DirectPart(s, sender, s.wallets[name], amount);
    DirectTrack(s, sender, s.wallets[name], amount, from);
    OneTxTrack(t, tx, from);
    ApplyReversalsFrame(ApplyTxs(t, [tx]), [tx]);
  }

  lemma UniversalNonces(s: State, sender: Str, name: Str, amount: u64, now: i64, from: Str)
    requires name in s.wallets
    ensures NoncesIn(UniversalBlock(s, sender, name, amount, now).transactions, from) ==
            if sender == from && NextOf(s, from) != 0 then {NextOf(s, from)} else {}
  {
    OneTxTrack(s, UniversalTx(s, sender, name, amount, now), from);
  }

  lemma UniversalAdvances(s: State, sender: Str, name: Str, amount: u64, now: i64, from: Str)
    requires CanTransfer(s, sender, name, amount) && Sound(TrackOf(s, from))
    ensures Advances(s, UniversalTransfer(s, sender, name, amount, now),
                     UniversalBlock(s, sender, name, amount, now), from)
  {
    UniversalTrack(s, sender, name, amount, now, from);
    UniversalNonces(s, sender, name, amount, now, from);
    DirectKeepsSound(TrackOf(s, from));
    DirectAdvances(TrackOf(s, from));
  }

  lemma OneTxTrack(s: State, tx: Transaction, from: Str)
    ensures TrackOf(ApplyTxs(s, [tx]), from) ==
            if tx.from == from then Mark(TrackOf(s, from), tx.nonce) else TrackOf(s, from)
    ensures NoncesIn([tx], from) == if tx.from == from && tx.nonce != 0 then {tx.nonce} else {}
  {
    assert [tx][..0] == [];
    assert ApplyTxs(s, [tx]) == ApplyTx(s, tx);
    MarkUsedTrack(s, tx, from);
    PerformKeepsNonces(MarkUsed(s, tx), tx, KindOf(tx.txType));
    NoncesSnoc([tx], from);
    assert NoncesIn([], from) == {};
  }

  lemma StepAdvances(s: State, rules: Rules, op: Node.Op, from: Str)
    requires Legal(s, op) && RejectsReplays(rules) && Sound(TrackOf(s, from))
    ensures match AppliedBlock(s, rules, op)
            case None => TrackOf(Node.Step(s, rules, op), from) == TrackOf(s, from)
            case Some(b) =>
              && Advances(s, Node.Step(s, rules, op), b, from)
              && (!op.UniversalOp? ==> UsedBy(s, from) !! NoncesIn(b.transactions, from))
  {
    if op.UniversalOp? {
      if CanTransfer(s, op.from, op.name, op.amount) {
        UniversalAdvances(s, op.from, op.name, op.amount, op.now, from);
      }
    } else {
      StepApplies(s, rules, op);
      if AppliedBlock(s, rules, op).Some? {
        ApprovedAdvances(s, AppliedBlock(s, rules, op).value, Node.Step(s, rules, op), Judging(s, rules, op),
                         Base(s, rules, op), from);
      }
    }
  }

  /** In every reachable state the used nonces of a sender are the nonzero nonces of its transactions in
      the applied blocks, and the next one is sound. */
  lemma {:induction false} RunKeepsNonces(es: Node.History, rules: Rules, from: Str)
    requires RejectsReplays(rules) && LegalRun(es, rules) && NoNoncesYet(Node.Origin(es))
    ensures Sound(TrackOf(Node.Run(es, rules), from))
    ensures UsedBy(Node.Run(es, rules), from) == AllNonces(Blocks(es, rules), from)
  {
    if es.Then? {
      RunKeepsNonces(es.past, rules, from);
      StepAdvances(Node.Run(es.past, rules), rules, es.op, from);
    }
  }

  /** In every reachable state the next nonce is one above the largest used one if and only if the sender
      has not used the largest 64-bit nonce. */
  lemma NextIsExactIff(es: Node.History, rules: Rules, from: Str)
    requires RejectsReplays(rules) && LegalRun(es, rules) && NoNoncesYet(Node.Origin(es))
    ensures Exact(TrackOf(Node.Run(es, rules), from)) <==> MAX64 !in AllNonces(Blocks(es, rules), from)
  {
    RunKeepsNonces(es, rules, from);
  }

  /** In every run, a block's nonzero nonces of a sender are above all the sender's nonces in earlier
      blocks, if and only if the largest 64-bit nonce is not among the earlier ones. */
  lemma {:induction false} NoncesRiseIff(es: Node.History, rules: Rules, from: Str, j: nat)
    requires RejectsReplays(rules) && LegalRun(es, rules) && NoNoncesYet(Node.Origin(es))
    requires j < |Blocks(es, rules)| && NoncesIn(Blocks(es, rules)[j].block.transactions, from) != {}
    ensures Above(AllNonces(Blocks(es, rules)[..j], from), NoncesIn(Blocks(es, rules)[j].block.transactions, from))
            <==> MAX64 !in AllNonces(Blocks(es, rules)[..j], from)
  {
    var bs, earlier := Blocks(es, rules), Blocks(es.past, rules);
    if j < |earlier| {
      NoncesRiseIff(es.past, rules, from, j);
      assert bs[..j] == earlier[..j];
    } else {
      RunKeepsNonces(es.past, rules, from);
      StepAdvances(Node.Run(es.past, rules), rules, es.op, from);
      assert bs[..j] == earlier;
      var y :| y in NoncesIn(bs[j].block.transactions, from);
    }
  }

  /** The nonces of any block are among those of all the blocks up to a later one. */
  lemma {:induction false} AllNoncesIncludes(bs: seq<Applied>, from: Str, i: nat)
    requires i < |bs|
    ensures NoncesIn(bs[i].block.transactions, from) <= AllNonces(bs, from)
  {
    if i < |bs| - 1 {
      AllNoncesIncludes(bs[..|bs| - 1], from, i);
    }
  }

  /** So a sender's nonzero nonces strictly increase from each block to any later one. */
  lemma NoncesRise(es: Node.History, rules: Rules, from: Str, i: nat, j: nat, x: u64, y: u64)
    requires RejectsReplays(rules) && LegalRun(es, rules) && NoNoncesYet(Node.Origin(es))
    requires i < j < |Blocks(es, rules)| && MAX64 !in AllNonces(Blocks(es, rules)[..j], from)
    requires x in NoncesIn(Blocks(es, rules)[i].block.transactions, from)
    requires y in NoncesIn(Blocks(es, rules)[j].block.transactions, from)
    ensures x < y
  {
    NoncesRiseIff(es, rules, from, j);
    AllNoncesIncludes(Blocks(es, rules)[..j], from, i);
  }

  /** In every reachable state in which the sender has not used the largest nonce, the set lookup of the
      replay check is redundant and a reload leaves the next nonce as it is. */
  lemma ReachableNonces(es: Node.History, rules: Rules, tx: Transaction)
    requires RejectsReplays(rules) && LegalRun(es, rules) && NoNoncesYet(Node.Origin(es))
    requires MAX64 !in AllNonces(Blocks(es, rules), tx.from)
    ensures var s := Node.Run(es, rules);
            && (IsReplay(s, tx) <==> tx.nonce != 0 && NextOf(s, tx.from) > tx.nonce)
            && Rebuilt(TrackOf(s, tx.from)) == NextOf(s, tx.from)
  {
    RunKeepsNonces(es, rules, tx.from);
    LookupIsRedundant(Node.Run(es, rules), tx);
    RebuildIsIdentityIff(TrackOf(Node.Run(es, rules), tx.from));
  }

  // ---------------------------------------------------------------------------------------------
  // Repetition.

  /** In every run, a nonzero nonce of a sender in an approved block is in no earlier block, whatever
      nonces were used before. */
  lemma {:induction false} NonceNeverRecurs(es: Node.History, rules: Rules, from: Str, j: nat)
    requires RejectsReplays(rules) && LegalRun(es, rules) && NoNoncesYet(Node.Origin(es))
    requires j < |Blocks(es, rules)| && !Blocks(es, rules)[j].direct
    ensures AllNonces(Blocks(es, rules)[..j], from) !! NoncesIn(Blocks(es, rules)[j].block.transactions, from)
  {
    var bs, earlier := Blocks(es, rules), Blocks(es.past, rules);
    if j < |earlier| {
      NonceNeverRecurs(es.past, rules, from, j);
      assert bs[..j] == earlier[..j];
    } else {
      RunKeepsNonces(es.past, rules, from);
      StepAdvances(Node.Run(es.past, rules), rules, es.op, from);
      assert bs[..j] == earlier;
    }
  }

  /** The block of a universal transfer repeats a nonce of its sender if and only if the next nonce was
      used already, which takes nonce 2^64-1. */
  lemma DirectRecursIff(es: Node.History, rules: Rules, from: Str, name: Str, amount: u64, now: i64)
    requires RejectsReplays(rules) && LegalRun(es, rules) && NoNoncesYet(Node.Origin(es))
    requires CanTransfer(Node.Run(es, rules), from, name, amount)
    ensures var s := Node.Run(es, rules);
            var nonces := NoncesIn(UniversalBlock(s, from, name, amount, now).transactions, from);
            && (AllNonces(Blocks(es, rules), from) !! nonces <==> NextOf(s, from) !in UsedBy(s, from))
            && (NextOf(s, from) in UsedBy(s, from) ==> MAX64 in AllNonces(Blocks(es, rules), from))
  {
    var s := Node.Run(es, rules);
    RunKeepsNonces(es, rules, from);
    ZeroIsUnused(es, rules, from);
    OneTxTrack(s, UniversalTx(s, from, name, amount, now), from);
  }

  lemma ZeroIsUnused(es: Node.History, rules: Rules, from: Str)
    requires RejectsReplays(rules) && LegalRun(es, rules) && NoNoncesYet(Node.Origin(es))
    ensures 0 !in UsedBy(Node.Run(es, rules), from)
  {
    RunKeepsNonces(es, rules, from);
    ZeroNotIn(Blocks(es, rules), from);
  }

  lemma {:induction false} ZeroNotIn(bs: seq<Applied>, from: Str)
    ensures 0 !in AllNonces(bs, from)
  {
    if bs != [] {
      ZeroNotIn(bs[..|bs| - 1], from);
    }
  }

  /** A case: nonces 1 and 2^64-1 used, then two universal transfers; the second one's nonce is 1 again. */
  lemma DirectRecursCase()
    ensures var t := Mark(Mark(Track({}, 0), 1), MAX64);
            && t == Track({1, MAX64}, 0) && DirectMark(t) == Track({1, MAX64}, 1)
            && DirectMark(t).next in DirectMark(t).used
  {
    assert {} + {1} + {MAX64} == {1, MAX64};
  }

  /** Nonce 0 is never recorded and never a replay; a transfer with it is valid again after it was
      applied, if and only if the sender can still pay. */
  lemma ZeroNonceRepeatsIff(s: State, env: Env, tx: Transaction)
    requires ValidTransaction(s, env, tx) && tx.nonce == 0 && KindOf(tx.txType).Transfer?
    ensures MarkUsed(s, tx) == s && !IsReplay(s, tx)
    ensures ValidTransaction(ApplyTx(s, tx), env, tx) <==>
            tx.from == tx.to || s.ledger[tx.from].balance >= 2 * tx.amount
  {
    assert ApplyTx(s, tx) == s.(ledger := Move(s.ledger, tx.from, tx.to, tx.amount));
  }
}
