/** The Tendermint-style step engine (consensus_tendermint.go). Every method takes the engine's mutex,
    so a run is a sequence of calls. */
module Tendermint {
  import opened Domain

  datatype VoteKind = PrevoteKind | PrecommitKind | OtherKind
  datatype Vote = Vote(height: u64, round: i64, kind: VoteKind)

  // step: 0 propose, 1 prevote, 2 precommit, 3 commit, 4 committed
  datatype State = State(
    height: u64, round: u64, step: nat, committedRound: u64, lockedRound: u64, lockedBlock: Str,
    validators: seq<Str>, proposerIdx: nat)

  datatype Call =
    | ProcessProposal(hash: Str)
    | AddVote(vote: Vote)
    | Commit(hash: Str)
    | FinalizeBlock(hash: Str)
    | AdvanceRound
    | AdvanceHeight
    | UpdateValidatorSet(validators: seq<Str>)

  function SelectProposer(s: State): State {
    if s.validators == [] then s else s.(proposerIdx := s.height % |s.validators|)
  }

  function Initial(validators: seq<Str>): State {
    SelectProposer(State(1, 0, 0, 0, 0, [], validators, 0))
  }

  /** Does the call change the engine's step (or, for a commit, succeed)? */
  predicate Accepted(s: State, c: Call) {
    match c
    case ProcessProposal(_) => s.step == 0
    case AddVote(v) =>
      && v.height == s.height && s.validators != []
      && ((v.kind.PrevoteKind? && s.step == 1) || (v.kind.PrecommitKind? && s.step == 2))
    case Commit(_) => s.step == 3
    case FinalizeBlock(_) => s.step == 3
    case _ => true
  }

  function ToRound(r: i64): u64 { if r >= 0 then r else r + TWO64 }

  function Step(s: State, c: Call): State {
    if !Accepted(s, c) then s
    else match c
      case ProcessProposal(_) => s.(step := 1)
      case AddVote(v) => if s.step == 1 then s.(step := 2) else s.(step := 3, committedRound := ToRound(v.round))
      case Commit(hash) => s.(committedRound := s.round, lockedBlock := hash, step := 4)
      case FinalizeBlock(hash) => s.(committedRound := s.round, lockedBlock := hash, step := 4)
      case AdvanceRound => SelectProposer(s.(round := Add64(s.round, 1), step := 0))
      case AdvanceHeight =>
        SelectProposer(s.(height := Add64(s.height, 1), round := 0, step := 0,
                          committedRound := 0, lockedRound := 0, lockedBlock := []))
      case UpdateValidatorSet(vs) => SelectProposer(s.(validators := vs))
  }

  // ---------------------------------------------------------------------------------------------
  // Runs, and the log of accepted transitions they leave.

  datatype History = Start(validators: seq<Str>) | Then(past: History, call: Call)

  function Run(es: History): State {
    match es
    case Start(vs) => Initial(vs)
    case Then(past, call) => Step(Run(past), call)
  }

  function Length(es: History): nat { if es.Start? then 0 else 1 + Length(es.past) }

  datatype Phase = Proposed | Prevoted | Precommitted | Committed
  datatype Mark = Mark(phase: Phase, height: nat, round: nat, hash: Str)

  function PhaseOf(step: nat): Phase {
    if step == 0 then Proposed else if step == 1 then Prevoted else if step == 2 then Precommitted else Committed
  }

  predicate IsAdvance(c: Call) { c.AdvanceRound? || c.AdvanceHeight? || c.UpdateValidatorSet? }

  /** What an accepted call is recorded as. */
  function MarkOf(s: State, c: Call): Mark {
    var hash := if c.Commit? || c.FinalizeBlock? then c.hash else [];
    Mark(PhaseOf(s.step), s.height, s.round, hash)
  }

  function Log(es: History): seq<Mark> {
    match es
    case Start(_) => []
    case Then(past, c) =>
      Log(past) + if Accepted(Run(past), c) && !IsAdvance(c) then [MarkOf(Run(past), c)] else []
  }

  predicate Before(h: nat, r: nat, h': nat, r': nat) { h < h' || (h == h' && r < r') }

  /** The log's last `step` marks are the phases of the current height and round, all others are earlier. */
  ghost predicate Tied(s: State, log: seq<Mark>) {
    && s.step <= 4 && s.step <= |log|
    && (forall i :: |log| - s.step <= i < |log| ==>
          log[i].phase == PhaseOf(i - (|log| - s.step)) && log[i].height == s.height && log[i].round == s.round)
    && (forall i :: 0 <= i < |log| - s.step ==> Before(log[i].height, log[i].round, s.height, s.round))
    && (s.step == 4 ==> log[|log| - 1].hash == s.lockedBlock)
  }

  lemma {:induction false} NoWrap(es: History)
    requires Length(es) + 1 < TWO64
    ensures Run(es).height <= Length(es) + 1 && Run(es).round <= Length(es)
  {
    if es.Then? {
      NoWrap(es.past);
    }
  }

  lemma {:induction false} AlwaysTied(es: History)
    requires Length(es) + 1 < TWO64
    ensures Tied(Run(es), Log(es))
  {
    if es.Then? {
      AlwaysTied(es.past);
      NoWrap(es.past);
      TiedStep(Run(es.past), es.call, Log(es.past));
    }
  }

  lemma TiedStep(s: State, c: Call, log: seq<Mark>)
    requires Tied(s, log) && s.height + 1 < TWO64 && s.round + 1 < TWO64
    ensures Tied(Step(s, c), log + if Accepted(s, c) && !IsAdvance(c) then [MarkOf(s, c)] else [])
  {
    if Accepted(s, c) && !IsAdvance(c) {
      var log' := log + [MarkOf(s, c)];
      assert forall i :: 0 <= i < |log| ==> log'[i] == log[i];
      assert Step(s, c).step == s.step + 1;
    } else {
      assert log + [] == log;
    }
  }

  /** (height, round) never goes back; it is unchanged by every call but the two advances. */
  lemma OnlyAdvancesMove(es: History)
    requires es.Then? && Length(es) + 1 < TWO64
    ensures var s, t := Run(es.past), Run(es);
            if es.call.AdvanceRound? || es.call.AdvanceHeight? then Before(s.height, s.round, t.height, t.round)
            else s.height == t.height && s.round == t.round
  {
    NoWrap(es.past);
  }

  // ---------------------------------------------------------------------------------------------
  // Safety over whole runs.

  /** Every successful commit or finalize directly follows, among the accepted transitions, a proposal,
      a prevote and a precommit accepted while the engine was in the same height and round. */
  lemma {:induction false} CommitsAreEarned(es: History, i: nat)
    requires Length(es) + 1 < TWO64
    requires i < |Log(es)| && Log(es)[i].phase == Committed
    ensures i >= 3 && var log := Log(es);
            && log[i - 3] == Mark(Proposed, log[i].height, log[i].round, log[i - 3].hash)
            && log[i - 2] == Mark(Prevoted, log[i].height, log[i].round, log[i - 2].hash)
            && log[i - 1] == Mark(Precommitted, log[i].height, log[i].round, log[i - 1].hash)
  {
    if i < |Log(es.past)| {
      CommitsAreEarned(es.past, i);
    } else {
      AlwaysTied(es);
    }
  }

  lemma {:induction false} ProposalsAreLater(es: History, i: nat, j: nat)
    requires Length(es) + 1 < TWO64
    requires i < j < |Log(es)| && Log(es)[j].phase == Proposed
    ensures Before(Log(es)[i].height, Log(es)[i].round, Log(es)[j].height, Log(es)[j].round)
  {
    if j < |Log(es.past)| {
      ProposalsAreLater(es.past, i, j);
    } else {
      AlwaysTied(es);
    }
  }

  /** That is all: neither the round a vote carries nor the hash of the proposal is compared. After a proposal
      of p, a prevote and a precommit of the first height but of any rounds, any q can be finalized. */
  lemma AnythingCanBeFinalized(validators: seq<Str>, p: Str, q: Str, r: i64, r': i64)
    requires validators != []
    ensures var proposed := Then(Start(validators), ProcessProposal(p));
            var prevoted := Then(proposed, AddVote(Vote(1, r, PrevoteKind)));
            var precommitted := Then(prevoted, AddVote(Vote(1, r', PrecommitKind)));
            Accepted(Run(precommitted), FinalizeBlock(q)) && IsFinalized(Run(Then(precommitted, FinalizeBlock(q))), q)
  {
    var proposed := Then(Start(validators), ProcessProposal(p));
    var prevoted := Then(proposed, AddVote(Vote(1, r, PrevoteKind)));
    var precommitted := Then(prevoted, AddVote(Vote(1, r', PrecommitKind)));
    assert Run(proposed).step == 1 && Run(proposed).height == 1 && Run(proposed).validators == validators;
    assert Run(prevoted).step == 2 && Run(prevoted).height == 1 && Run(prevoted).validators == validators;
    assert Run(precommitted).step == 3;
  }

  /** At most one commit or finalize succeeds per height and round: of any two, the later one is
      in a later height or round. */
  lemma OneCommitPerRound(es: History, i: nat, j: nat)
    requires Length(es) + 1 < TWO64
    requires i < j < |Log(es)| && Log(es)[i].phase == Committed && Log(es)[j].phase == Committed
    ensures Before(Log(es)[i].height, Log(es)[i].round, Log(es)[j].height, Log(es)[j].round)
  {
    CommitsAreEarned(es, j);
    assert i != j - 3 && i != j - 2 && i != j - 1;
    ProposalsAreLater(es, i, j - 3);
  }

  predicate IsFinalized(s: State, hash: Str) { s.step == 4 && s.lockedBlock == hash }

  ghost predicate CommittedAt(log: seq<Mark>, height: nat, round: nat, hash: Str) {
    exists i :: 0 <= i < |log| && log[i] == Mark(Committed, height, round, hash)
  }

  /** A block counts as finalized exactly while the commit of the current height and round was for it. */
  lemma FinalizedIffCommitted(es: History, hash: Str)
    requires Length(es) + 1 < TWO64
    ensures IsFinalized(Run(es), hash) <==> CommittedAt(Log(es), Run(es).height, Run(es).round, hash)
  {
    AlwaysTied(es);
    FinalizedIfTied(Run(es), Log(es), hash);
  }

  lemma FinalizedIfTied(s: State, log: seq<Mark>, hash: Str)
    requires Tied(s, log)
    ensures IsFinalized(s, hash) <==> CommittedAt(log, s.height, s.round, hash)
  {
    if IsFinalized(s, hash) {
      assert log[|log| - 1] == Mark(PhaseOf(3), s.height, s.round, hash);
    }
    if CommittedAt(log, s.height, s.round, hash) {
      var i :| 0 <= i < |log| && log[i] == Mark(Committed, s.height, s.round, hash);
      assert i >= |log| - s.step;
      assert PhaseOf(i - (|log| - s.step)) == Committed;
    }
  }

  // ---------------------------------------------------------------------------------------------
  // What moves the engine, and what it ignores.

  predicate Expected(s: State, kind: VoteKind) {
    (s.step == 1 && kind == PrevoteKind) || (s.step == 2 && kind == PrecommitKind)
  }

  /** A vote moves the engine to the next step if and only if it is for the current height, there are validators,
      and it is of the kind the step waits for; otherwise it changes nothing. */
  lemma VoteCountsIff(s: State, v: Vote)
    ensures var t := Step(s, AddVote(v));
            && (t.step == s.step + 1 <==> v.height == s.height && s.validators != [] && Expected(s, v.kind))
            && (t.step == s.step ==> t == s)
            && t == s.(step := t.step, committedRound := t.committedRound)
            && (t.step == 3 && s.step == 2 ==> t.committedRound == v.round % TWO64)
            && (s.step != 2 ==> t.committedRound == s.committedRound)
  {
  }

  /** A proposal moves the engine on from the first step only, a commit or finalize from the fourth only, and both
      of these lock the block; otherwise they change nothing. */
  lemma ProposalAndCommit(s: State, hash: Str, c: Call)
    requires c == Commit(hash) || c == FinalizeBlock(hash)
    ensures Step(s, ProcessProposal(hash)) == if s.step == 0 then s.(step := 1) else s
    ensures var t := Step(s, c);
            if s.step == 3 then t == s.(step := 4, lockedBlock := hash, committedRound := s.round) else t == s
  {
  }

  /** The next round keeps the height; the next height starts with round 0 and nothing locked; both start over
      with the first step. */
  lemma Advances(s: State)
    ensures var t := Step(s, AdvanceRound);
            t.height == s.height && t.round == (s.round + 1) % TWO64 && t.step == 0 && t.lockedBlock == s.lockedBlock
    ensures var t := Step(s, AdvanceHeight);
            && t.height == (s.height + 1) % TWO64 && t.round == 0 && t.step == 0 && t.lockedBlock == []
            && t.committedRound == 0 && t.lockedRound == 0 && t.validators == s.validators
    ensures forall vs :: Step(s, UpdateValidatorSet(vs)) ==
              s.(validators := vs, proposerIdx := Step(s, UpdateValidatorSet(vs)).proposerIdx)
  {
  }

  // ---------------------------------------------------------------------------------------------
  // Proposer rotation.

  function Proposer(s: State): Str {
    if s.validators == [] then [] else s.validators[s.proposerIdx % |s.validators|]
  }

  predicate Rotated(s: State) { s.validators != [] ==> s.proposerIdx == s.height % |s.validators| }

  lemma {:induction false} AlwaysRotated(es: History)
    ensures Rotated(Run(es))
  {
    match es
    case Start(vs) =>
    case Then(past, call) =>
      AlwaysRotated(past);
      match call
      case AdvanceRound =>
      case AdvanceHeight =>
      case UpdateValidatorSet(_) =>
      case _ => assert Run(es).validators == Run(past).validators && Run(es).height == Run(past).height;
  }

  /** In every reachable state the proposer is the validator at position height mod n. */
  lemma ProposerByHeight(es: History)
    ensures var s := Run(es); s.validators != [] ==> Proposer(s) == s.validators[s.height % |s.validators|]
  {
    AlwaysRotated(es);
    var s := Run(es);
    if s.validators != [] {
      SmallMod(s.height % |s.validators|, |s.validators|);
    }
  }

  // Runs without a change of the validators, and the states they pass through.
  predicate FixedSet(es: History) { es.Start? || (FixedSet(es.past) && !es.call.UpdateValidatorSet?) }
  function FirstSet(es: History): seq<Str> { if es.Start? then es.validators else FirstSet(es.past) }
  predicate Reaches(es: History, e: History) { e == es || (es.Then? && Reaches(es.past, e)) }

  lemma {:induction false} ReachedSet(es: History, e: History)
    requires FixedSet(es) && Reaches(es, e)
    ensures Run(e).validators == FirstSet(es)
  {
    if es.Then? {
      if e == es {
        ReachedSet(es.past, es.past);
      } else {
        ReachedSet(es.past, e);
      }
    }
  }

  /** With a fixed set of n validators, in any n consecutive heights each position is the proposer's at
      exactly one: whenever the run is in that height, and never in the others. */
  lemma EachPositionOnce(es: History, h: nat, p: nat) returns (k: nat)
    requires FixedSet(es) && p < |FirstSet(es)|
    ensures h <= k < h + |FirstSet(es)|
    ensures forall e :: Reaches(es, e) && h <= Run(e).height < h + |FirstSet(es)| ==>
              (Run(e).proposerIdx == p <==> Run(e).height == k)
    ensures forall e :: Reaches(es, e) && Run(e).height == k ==> Proposer(Run(e)) == FirstSet(es)[p]
  {
    k := ResidueOnce(h, |FirstSet(es)|, p);
    forall e | Reaches(es, e)
      ensures Run(e).validators == FirstSet(es) && Run(e).proposerIdx == Run(e).height % |FirstSet(es)|
      ensures Proposer(Run(e)) == FirstSet(es)[Run(e).height % |FirstSet(es)|]
    {
      ReachedSet(es, e);
      AlwaysRotated(e);
      ProposerByHeight(e);
    }
  }

  lemma {:induction false} ResidueOnce(h: nat, n: nat, p: nat) returns (k: nat)
    requires p < n
    ensures h <= k < h + n && k % n == p
    ensures forall k' :: h <= k' < h + n && k' % n == p ==> k' == k
  {
    if h == 0 {
      k := p;
      forall k' | 0 <= k' < n
        ensures k' % n == k'
      {
        SmallMod(k', n);
      }
    } else {
      k := ResidueOnce(h - 1, n, p);
      ModPeriodic(h - 1, n);
      if k == h - 1 {
        k := h - 1 + n;
      }
    }
  }

  lemma SmallMod(x: nat, n: nat)
    requires x < n
    ensures x % n == x
  {
  }

  lemma ModPeriodic(h: nat, n: nat)
    requires n > 0
    ensures (h + n) % n == h % n
  {
    var q, r, a, b := h / n, h % n, (h + n) / n, (h + n) % n;
    var d := a - q - 1;
    assert d * n == r - b by {
      assert h == q * n + r && h + n == a * n + b;
      assert d * n == a * n - q * n - n;
    }
    if d >= 1 {
      MulAtLeast(d, n);
    } else if d <= -1 {
      MulAtLeast(-d, n);
    }
  }

  lemma MulAtLeast(d: nat, n: nat)
    requires d >= 1
    ensures d * n >= n
  {
    assert d * n == (d - 1) * n + n;
  }

  // ---------------------------------------------------------------------------------------------
  // How mining drives the engine.

  predicate PrecommitOk(s: State) { s.step == 2 }

  /** The calls mining makes after appending a block: propose, prevote, precommit; commit and finalize
      only when the precommit vote carries a block hash; then the next height. */
  function DriveByMining(s: State, hash: Str): State {
    var proposed := Step(s, ProcessProposal(hash));
    var voteHash := if PrecommitOk(proposed) then hash else [];
    var committed :=
      if voteHash != [] then Step(Step(proposed, Commit(voteHash)), FinalizeBlock(hash)) else proposed;
    Step(committed, AdvanceHeight)
  }

  /** From any state, mining's calls commit nothing: the prevote call never advances the step, so
      precommit and commit are never both ready, and all that remains is the advance. */
  lemma MiningNeverCommits(s: State, hash: Str)
    ensures DriveByMining(s, hash) == Step(s, AdvanceHeight)
    ensures var proposed := Step(s, ProcessProposal(hash));
            PrecommitOk(proposed) ==> !Accepted(proposed, Commit(hash)) && !Accepted(proposed, FinalizeBlock(hash))
  {
  }

  // ---------------------------------------------------------------------------------------------
  // The engine.

  class TendermintEngine {
    var height: u64
    var round: u64
    var step: nat
    var committedRound: u64
    var lockedRound: u64
    var lockedBlock: Str
    var validators: seq<Str>
    var proposerIdx: nat

    ghost function View(): State
      reads this
    {
      State(height, round, step, committedRound, lockedRound, lockedBlock, validators, proposerIdx)
    }

    constructor (validators: seq<Str>)
      ensures View() == Initial(validators)
    {
      height, round, step := 1, 0, 0;
      committedRound, lockedRound, lockedBlock := 0, 0, [];
      this.validators := validators;
      proposerIdx := if validators == [] then 0 else 1 % |validators|;
    }

    method SelectProposerLocked()
      modifies this`proposerIdx
      ensures View() == SelectProposer(old(View()))
    {
      if |validators| == 0 {
        return;
      }
      proposerIdx := height % |validators|;
    }

    method ProcessProposal(hash: Str) returns (ok: bool)
      modifies this`step
      ensures ok == Accepted(old(View()), Call.ProcessProposal(hash))
      ensures View() == Step(old(View()), Call.ProcessProposal(hash))
    {
      if step != 0 {
        return false;
      }
      step := 1;
      ok := true;
    }

    method AddVote(v: Vote) returns (ok: bool)
      modifies this`step, this`committedRound
      ensures ok == (v.height == old(height) && old(validators) != [])
      ensures View() == Step(old(View()), Call.AddVote(v))
    {
      if v.height != height {
        return false;
      }
      if |validators| == 0 {
        return false;
      }
      match v.kind {
        case PrevoteKind =>
          if step == 1 {
            step := 2;
          }
        case PrecommitKind =>
          if step == 2 {
            step := 3;
            committedRound := ToRound(v.round);
          }
        case OtherKind =>
      }
      ok := true;
    }

    method Commit(hash: Str) returns (ok: bool)
      modifies this
      ensures ok == Accepted(old(View()), Call.Commit(hash))
      ensures View() == Step(old(View()), Call.Commit(hash))
    {
      if step != 3 {
        return false;
      }
      committedRound := round;
      lockedBlock := hash;
      step := 4;
      ok := true;
    }

    method FinalizeBlock(hash: Str) returns (ok: bool)
      modifies this
      ensures ok == Accepted(old(View()), Call.FinalizeBlock(hash))
      ensures View() == Step(old(View()), Call.FinalizeBlock(hash))
    {
      if step != 3 {
        return false;
      }
      committedRound := round;
      lockedBlock := hash;
      step := 4;
      ok := true;
    }

    method AdvanceRound()
      modifies this
      ensures View() == Step(old(View()), Call.AdvanceRound)
    {
      round := Add64(round, 1);
      step := 0;
      SelectProposerLocked();
    }

    method AdvanceHeight()
      modifies this
      ensures View() == Step(old(View()), Call.AdvanceHeight)
    {
      height := Add64(height, 1);
      round := 0;
      step := 0;
      committedRound := 0;
      lockedRound := 0;
      lockedBlock := [];
      SelectProposerLocked();
    }

    method UpdateValidatorSet(vs: seq<Str>)
      modifies this
      ensures View() == Step(old(View()), Call.UpdateValidatorSet(vs))
    {
      validators := vs;
      SelectProposerLocked();
    }
  }
}
