/** The gas-metered virtual machine (vm.cpp, opcodes.cpp) with its default handler. */
module Vm {
  import opened Domain

  const AGENT_CALL: Byte := 0xA0 as char
  const MODEL_QUERY: Byte := 0xA1 as char
  const PAY_COMPUTE: Byte := 0xA2 as char
  const VERIFY_OUTPUT: Byte := 0xA3 as char
  const APIKEY_GET: Byte := 0xA4 as char
  const AGENT_DELEGATE: Byte := 0xA5 as char

  predicate IsAI(op: Byte) { op >= AGENT_CALL }

  /** A byte the default handler, or the plain path, accepts. */
  predicate Known(op: Byte) { op <= AGENT_DELEGATE }

  function OpcodeName(op: Byte): string {
    if op == AGENT_CALL then "AGENT_CALL"
    else if op == MODEL_QUERY then "MODEL_QUERY"
    else if op == PAY_COMPUTE then "PAY_COMPUTE"
    else if op == VERIFY_OUTPUT then "VERIFY_OUTPUT"
    else if op == APIKEY_GET then "APIKEY_GET"
    else if op == AGENT_DELEGATE then "AGENT_DELEGATE"
    else "UNKNOWN"
  }

  function GasCostForOpcode(op: Byte): nat {
    if op == AGENT_CALL then 5000
    else if op == MODEL_QUERY then 2000
    else if op == PAY_COMPUTE then 1500
    else if op == VERIFY_OUTPUT then 3000
    else if op == APIKEY_GET then 1000
    else if op == AGENT_DELEGATE then 2500
    else 0
  }

  /** What an instruction takes from the gas. */
  function Cost(op: Byte): nat { if IsAI(op) then GasCostForOpcode(op) else 1 }

  /** What the default handler (or the plain path) appends to memory. */
  function Writes(op: Byte): Str {
    var agent: Str, model: Str, key: Str := "agent_called", "model_result:ok", "apikey:granted";
    if op == AGENT_CALL then agent else if op == MODEL_QUERY then model else if op == APIKEY_GET then key else []
  }

  function Traces(op: Byte): string {
    if op == AGENT_CALL then "agent-call:dispatched"
    else if op == MODEL_QUERY then "model-query:executed"
    else if op == PAY_COMPUTE then "pay-compute:settled"
    else if op == VERIFY_OUTPUT then "verify-output:verified"
    else if op == APIKEY_GET then "apikey-get:issued"
    else if op == AGENT_DELEGATE then "agent-delegate:dispatched"
    else "opcode"
  }

  datatype State = State(gas: nat, pc: nat, memory: Str, trace: seq<string>)
  datatype Stop = Done | OutOfGas | Rejected

  /** One instruction that goes through. */
  function Advance(s: State, op: Byte): State
    requires Cost(op) <= s.gas
  {
    State(s.gas - Cost(op), s.pc + 1, s.memory + Writes(op), s.trace + [Traces(op)])
  }

  function GasMessage(s: State, op: Byte): string {
    if s.gas < 1 then "out-of-gas:base" else "out-of-gas:" + OpcodeName(op)
  }

  /** The loop of `Execute`, entered with any gas. */
  function Loop(code: Str, s: State): (State, Stop)
    decreases |code| - s.pc
  {
    if s.pc >= |code| then (s, Done)
    else
      var op := code[s.pc];
      if s.gas < 1 || s.gas < Cost(op) then (s.(trace := s.trace + [GasMessage(s, op)]), OutOfGas)
      else if !Known(op) then
        (s.(trace := s.trace + ["unknown-ai-opcode", "handler-failed:" + OpcodeName(op)]), Rejected)
      else Loop(code, Advance(s, op))
  }

  /** `Execute`: a call with no gas returns at once. */
  function Exec(code: Str, s: State): (State, Stop) {
    if s.gas == 0 then (s, OutOfGas) else Loop(code, s)
  }

  class ExecutionContext {
    var gasRemaining: u64
    var pc: u64
    var memory: Str
    var trace: seq<string>

    ghost function View(): State
      reads this
    {
      State(gasRemaining, pc, memory, trace)
    }

    method DefaultAIHandler(op: Byte) returns (ok: bool)
      requires IsAI(op)
      modifies this`memory, this`trace
      ensures ok == Known(op)
      ensures memory == old(memory) + Writes(op)
      ensures trace == old(trace) + [if ok then Traces(op) else "unknown-ai-opcode"]
    {
      var agent: Str, model: Str, key: Str := "agent_called", "model_result:ok", "apikey:granted";
      if op == AGENT_CALL {
        memory := memory + agent;
        trace := trace + ["agent-call:dispatched"];
      } else if op == MODEL_QUERY {
        memory := memory + model;
        trace := trace + ["model-query:executed"];
      } else if op == PAY_COMPUTE {
        trace := trace + ["pay-compute:settled"];
      } else if op == VERIFY_OUTPUT {
        trace := trace + ["verify-output:verified"];
      } else if op == APIKEY_GET {
        memory := memory + key;
        trace := trace + ["apikey-get:issued"];
      } else if op == AGENT_DELEGATE {
        trace := trace + ["agent-delegate:dispatched"];
      } else {
        trace := trace + ["unknown-ai-opcode"];
        return false;
      }
      ok := true;
    }
  }

  method Execute(bytecode: Str, context: ExecutionContext) returns (ok: bool)
    requires |bytecode| < TWO64
    modifies context
    ensures var (s, stop) := Exec(bytecode, old(context.View())); context.View() == s && ok == stop.Done?
  {
    if context.gasRemaining == 0 {
      return false;
    }
    while context.pc < |bytecode|
      invariant Loop(bytecode, context.View()) == Loop(bytecode, old(context.View()))
      decreases |bytecode| - context.pc
    {
      var opcode := bytecode[context.pc];
      if context.gasRemaining < 1 {
        context.trace := context.trace + ["out-of-gas:base"];
        return false;
      }
      if IsAI(opcode) {
        var cost := GasCostForOpcode(opcode);
        if context.gasRemaining < cost {
          context.trace := context.trace + ["out-of-gas:" + OpcodeName(opcode)];
          return false;
        }
        ghost var before := context.View();
        context.gasRemaining := context.gasRemaining - cost;
        var handled := context.DefaultAIHandler(opcode);
        if !handled {
          context.trace := context.trace + ["handler-failed:" + OpcodeName(opcode)];
          assert context.trace == before.trace + ["unknown-ai-opcode", "handler-failed:" + OpcodeName(opcode)];
          assert context.memory == before.memory;
          return false;
        }
      } else {
        context.gasRemaining := context.gasRemaining - 1;
        context.trace := context.trace + ["opcode"];
        assert context.memory + Writes(opcode) == context.memory;
      }
      context.pc := context.pc + 1;
    }
    ok := true;
  }

  // ---------------------------------------------------------------------------------------------
  // What a run comes to.

  predicate AllKnown(code: Str, pc: nat) {
    forall i :: pc <= i < |code| ==> Known(code[i])
  }

  function TotalCost(code: Str, pc: nat): nat
    decreases |code| - pc
  {
    if pc >= |code| then 0 else Cost(code[pc]) + TotalCost(code, pc + 1)
  }

  function TotalWrites(code: Str, pc: nat): Str
    decreases |code| - pc
  {
    if pc >= |code| then [] else Writes(code[pc]) + TotalWrites(code, pc + 1)
  }

  predicate GoesThrough(code: Str, s: State) {
    s.pc < |code| && 1 <= s.gas && Cost(code[s.pc]) <= s.gas && Known(code[s.pc])
  }

  lemma AllKnownStep(code: Str, pc: nat)
    requires pc < |code|
    ensures AllKnown(code, pc) <==> Known(code[pc]) && AllKnown(code, pc + 1)
  {
  }

  lemma {:induction false} LoopSucceedsIff(code: Str, s: State)
    ensures Loop(code, s).1.Done? <==> AllKnown(code, s.pc) && TotalCost(code, s.pc) <= s.gas
    decreases |code| - s.pc
  {
    if s.pc < |code| {
      AllKnownStep(code, s.pc);
      if GoesThrough(code, s) {
        LoopSucceedsIff(code, Advance(s, code[s.pc]));
      }
    }
  }

  lemma Assoc(a: Str, b: Str, c: Str)
    ensures (a + b) + c == a + (b + c)
  {
  }

  lemma {:induction false} LoopLeaves(code: Str, s: State)
    requires Loop(code, s).1.Done?
    ensures Loop(code, s).0.gas == s.gas - TotalCost(code, s.pc)
    ensures Loop(code, s).0.pc == if s.pc < |code| then |code| else s.pc
    ensures Loop(code, s).0.memory == s.memory + TotalWrites(code, s.pc)
    decreases |code| - s.pc
  {
    if s.pc < |code| {
      LoopLeaves(code, Advance(s, code[s.pc]));
      Assoc(s.memory, Writes(code[s.pc]), TotalWrites(code, s.pc + 1));
    }
  }

  /** With gas above zero, a run succeeds exactly when every remaining byte is a known instruction and
      their total cost fits; it then leaves exactly the difference. Without gas it never succeeds. */
  lemma SucceedsIff(code: Str, s: State)
    ensures Exec(code, s).1.Done? <==> s.gas > 0 && AllKnown(code, s.pc) && TotalCost(code, s.pc) <= s.gas
    ensures Exec(code, s).1.Done? ==>
              && Exec(code, s).0.gas == s.gas - TotalCost(code, s.pc)
              && Exec(code, s).0.pc == (if s.pc < |code| then |code| else s.pc)
              && Exec(code, s).0.memory == s.memory + TotalWrites(code, s.pc)
  {
    LoopSucceedsIff(code, s);
    if Exec(code, s).1.Done? {
      LoopLeaves(code, s);
    }
  }

  predicate SameButTrace(a: State, b: State) { a.gas == b.gas && a.pc == b.pc && a.memory == b.memory }

  lemma {:induction false} TraceIrrelevant(code: Str, a: State, b: State)
    requires SameButTrace(a, b)
    ensures SameButTrace(Loop(code, a).0, Loop(code, b).0) && Loop(code, a).1 == Loop(code, b).1
    decreases |code| - a.pc
  {
    if a.pc < |code| && 1 <= a.gas && Cost(code[a.pc]) <= a.gas && Known(code[a.pc]) {
      TraceIrrelevant(code, Advance(a, code[a.pc]), Advance(b, code[a.pc]));
    }
  }

  lemma {:induction false} ResumeLoop(code: Str, s: State, extra: nat)
    requires Loop(code, s).1.OutOfGas?
    ensures var stopped, whole := Loop(code, s).0, Loop(code, s.(gas := s.gas + extra));
            var resumed := Loop(code, stopped.(gas := stopped.gas + extra));
            SameButTrace(resumed.0, whole.0) && resumed.1 == whole.1
    decreases |code| - s.pc
  {
    var op, more := code[s.pc], s.(gas := s.gas + extra);
    if 1 <= s.gas && Cost(op) <= s.gas {
      var next := Advance(s, op);
      assert Loop(code, s) == Loop(code, next);
      assert Loop(code, more) == Loop(code, Advance(more, op));
      assert Advance(more, op) == next.(gas := next.gas + extra);
      ResumeLoop(code, next, extra);
    } else {
      TraceIrrelevant(code, Loop(code, s).0.(gas := s.gas + extra), more);
    }
  }

  lemma ExecLoops(code: Str, s: State)
    requires s.gas > 0
    ensures Exec(code, s) == Loop(code, s)
  {
  }

  /** A run that stops out of gas, is topped up and resumed, ends with the same gas, pc, memory and
      verdict as one run given all the gas at the start. */
  lemma ResumeIsOneRun(code: Str, s: State, extra: nat)
    requires Exec(code, s).1.OutOfGas?
    ensures var stopped, whole := Exec(code, s).0, Exec(code, s.(gas := s.gas + extra));
            var resumed := Exec(code, stopped.(gas := stopped.gas + extra));
            SameButTrace(resumed.0, whole.0) && resumed.1 == whole.1
  {
    if s.gas > 0 {
      ExecLoops(code, s);
      ExecLoops(code, s.(gas := s.gas + extra));
      ResumeLoop(code, s, extra);
      var stopped := Loop(code, s).0;
      if stopped.gas + extra == 0 {
        NoGasAtLoop(code, stopped);
        OutOfGasStopsInside(code, s);
      } else {
        ExecLoops(code, stopped.(gas := stopped.gas + extra));
      }
    }
  }

  lemma NoGasAtLoop(code: Str, s: State)
    requires s.gas == 0 && s.pc < |code|
    ensures SameButTrace(Loop(code, s).0, s) && Loop(code, s).1.OutOfGas?
  {
  }

  lemma {:induction false} OutOfGasStopsInside(code: Str, s: State)
    requires Loop(code, s).1.OutOfGas?
    ensures Loop(code, s).0.pc < |code|
    decreases |code| - s.pc
  {
    if 1 <= s.gas && Cost(code[s.pc]) <= s.gas {
      OutOfGasStopsInside(code, Advance(s, code[s.pc]));
    }
  }

  // ---------------------------------------------------------------------------------------------
  // Where a run stops, whatever the outcome.

  /** The instructions by their byte: what each costs, what it writes, and which are known. */
  lemma Instructions(op: Byte)
    ensures var n := op as int;
            && Cost(op) == (if n < 0xA0 then 1 else if n == 0xA0 then 5000 else if n == 0xA1 then 2000
                            else if n == 0xA2 then 1500 else if n == 0xA3 then 3000 else if n == 0xA4 then 1000
                            else if n == 0xA5 then 2500 else 0)
            && Writes(op) == (if n == 0xA0 then "agent_called" else if n == 0xA1 then "model_result:ok"
                              else if n == 0xA4 then "apikey:granted" else [])
            && (Known(op) <==> n <= 0xA5)
            && (n < 0xA0 ==> Traces(op) == "opcode")
  {
  }

  /** What each instruction of the agents is called and leaves in the trace. */
  lemma AgentInstructions()
    ensures OpcodeName(0xA0 as char) == "AGENT_CALL" && Traces(0xA0 as char) == "agent-call:dispatched"
    ensures OpcodeName(0xA1 as char) == "MODEL_QUERY" && Traces(0xA1 as char) == "model-query:executed"
    ensures OpcodeName(0xA2 as char) == "PAY_COMPUTE" && Traces(0xA2 as char) == "pay-compute:settled"
    ensures OpcodeName(0xA3 as char) == "VERIFY_OUTPUT" && Traces(0xA3 as char) == "verify-output:verified"
    ensures OpcodeName(0xA4 as char) == "APIKEY_GET" && Traces(0xA4 as char) == "apikey-get:issued"
    ensures OpcodeName(0xA5 as char) == "AGENT_DELEGATE" && Traces(0xA5 as char) == "agent-delegate:dispatched"
  {
  }

  function CostBetween(code: Str, i: nat, j: nat): nat
    decreases j - i
  {
    if i < j && i < |code| then Cost(code[i]) + CostBetween(code, i + 1, j) else 0
  }

  function WritesBetween(code: Str, i: nat, j: nat): Str
    decreases j - i
  {
    if i < j && i < |code| then Writes(code[i]) + WritesBetween(code, i + 1, j) else []
  }

  function TracesBetween(code: Str, i: nat, j: nat): seq<string>
    decreases j - i
  {
    if i < j && i < |code| then [Traces(code[i])] + TracesBetween(code, i + 1, j) else []
  }

  /** What is traced last, by what stopped the run. */
  function LastTrace(code: Str, t: State, stop: Stop): seq<string> {
    if stop.Done? || t.pc >= |code| then []
    else if stop.Rejected? then ["unknown-ai-opcode", "handler-failed:" + OpcodeName(code[t.pc])]
    else if t.gas == 0 then ["out-of-gas:base"]
    else ["out-of-gas:" + OpcodeName(code[t.pc])]
  }

  /** The instructions from s.pc to t.pc went through. */
  ghost predicate Ran(code: Str, s: State, t: State) {
    && s.pc <= t.pc && (t.pc == s.pc || t.pc <= |code|)
    && (forall i :: s.pc <= i < t.pc ==> Known(code[i]))
    && t.gas == s.gas - CostBetween(code, s.pc, t.pc)
    && t.memory == s.memory + WritesBetween(code, s.pc, t.pc)
  }

  /** They are in the trace, and then what stopped the run. */
  ghost predicate Traced(code: Str, s: State, t: State, last: seq<string>) {
    t.trace == s.trace + TracesBetween(code, s.pc, t.pc) + last
  }

  /** What stopped it is at t.pc. */
  predicate Stops(code: Str, t: State, stop: Stop) {
    match stop
    case Done => t.pc >= |code|
    case OutOfGas => t.pc < |code| && (t.gas == 0 || t.gas < Cost(code[t.pc]))
    case Rejected => t.pc < |code| && t.gas >= 1 && t.gas >= Cost(code[t.pc]) && !Known(code[t.pc])
  }

  lemma RanFrom(code: Str, s: State, next: State, t: State)
    requires GoesThrough(code, s) && next == Advance(s, code[s.pc]) && Ran(code, next, t)
    ensures Ran(code, s, t)
  {
    Assoc(s.memory, Writes(code[s.pc]), WritesBetween(code, s.pc + 1, t.pc));
  }

  lemma TracedFrom(code: Str, s: State, next: State, t: State, last: seq<string>)
    requires GoesThrough(code, s) && next == Advance(s, code[s.pc]) && Traced(code, next, t, last) && next.pc <= t.pc
    ensures Traced(code, s, t, last)
  {
    var x, later := [Traces(code[s.pc])], TracesBetween(code, next.pc, t.pc);
    assert TracesBetween(code, s.pc, t.pc) == x + later;
    assert (s.trace + x) + later == s.trace + (x + later);
  }

  /** Every run stops at the end, at the first instruction its gas does not cover, or at the first unknown one,
      with the gas, memory and trace the instructions before it leave. */
  lemma {:induction false} LoopStops(code: Str, s: State)
    ensures var (t, stop) := Loop(code, s);
            Ran(code, s, t) && Stops(code, t, stop) && Traced(code, s, t, LastTrace(code, t, stop))
    decreases |code| - s.pc
  {
    if GoesThrough(code, s) {
      var next := Advance(s, code[s.pc]);
      var (t, stop) := Loop(code, s);
      assert Loop(code, s) == Loop(code, next);
      LoopStops(code, next);
      RanFrom(code, s, next, t);
      TracedFrom(code, s, next, t, LastTrace(code, t, stop));
    }
  }
}
