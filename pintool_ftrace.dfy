/** The configurable tool: one optional implementation for the whole program,
    an optional trace of every arithmetic instruction, and a stack of the
    names of all routines currently running. */
module PintoolFtrace {
  import opened FpTypes
  import Utils
  import ScopeStack
  import opened TraceFormat

  /** FloatingPointImplementation::FloatingPointOperation in its declared
      three-argument form, uninterpreted: the implementation, both operands and
      the opcode. */
  type Compute = (FpImpl, Bits32, Bits32, Opcode) -> Bits32

  /** What the instrumentation leaves in place of one instruction of a routine. */
  datatype Hook =
    | PushName(name: string)
    | CallReplace(op: Opcode)
    | Original(op: Opcode)
    | PopName

  /** One instruction: an arithmetic instruction gets a replacement call, and
      is itself deleted exactly when an implementation is configured; any
      other instruction runs untouched. */
  function InstructionHooks(impl: Option<FpImpl>, op: Opcode): (h: seq<Hook>)
    ensures CallReplace(op) in h <==> Utils.IsFpInstruction(op)
    ensures Original(op) in h <==> !Utils.IsFpInstruction(op) || impl.None?
    ensures h != [] && h[0] == (if Utils.IsFpInstruction(op) then CallReplace(op) else Original(op))
  {
    if !Utils.IsFpInstruction(op) then [Original(op)]
    else if impl.Some? then [CallReplace(op)]
    else [CallReplace(op), Original(op)]
  }

  function BodyHooks(impl: Option<FpImpl>, body: seq<Opcode>): (h: seq<Hook>)
    ensures forall k | 0 <= k < |h| :: !h[k].PushName? && !h[k].PopName?
    decreases |body|
  {
    if body == [] then [] else InstructionHooks(impl, body[0]) + BodyHooks(impl, body[1..])
  }

  /** Routine: the routine's name is pushed before its first instruction and
      popped after its last, whatever the routine contains. */
  function RoutineHooks(name: string, impl: Option<FpImpl>, body: seq<Opcode>): (h: seq<Hook>)
    ensures |h| >= 2 && h[0] == PushName(name) && h[|h| - 1] == PopName
    ensures forall k | 0 < k < |h| - 1 :: !h[k].PushName? && !h[k].PopName?
  {
    [PushName(name)] + BodyHooks(impl, body) + [PopName]
  }

  /** Every instruction of the body survives unless it is an arithmetic
      instruction and an implementation is configured. */
  lemma {:induction false} OriginalKeptUnlessReplaced(impl: Option<FpImpl>, body: seq<Opcode>, i: nat)
    requires i < |body|
    ensures Original(body[i]) in BodyHooks(impl, body) <== !Utils.IsFpInstruction(body[i]) || impl.None?
    ensures CallReplace(body[i]) in BodyHooks(impl, body) <== Utils.IsFpInstruction(body[i])
    decreases i
  {
    if i == 0 {
      assert BodyHooks(impl, body) == InstructionHooks(impl, body[0]) + BodyHooks(impl, body[1..]);
    } else {
      OriginalKeptUnlessReplaced(impl, body[1..], i - 1);
      assert body[1..][i - 1] == body[i];
    }
  }

  class Ftrace {
    /** function_stack: the names of the routines entered and not yet left, innermost last. */
    var functionStack: seq<string>
    /** The application's registers. */
    var regs: map<nat, Bits32>
    /** Standard output. */
    var stdout: string
    /** floating_point_impl_: None is the null pointer. */
    const impl: Option<FpImpl>
    /** print_floating_point_ops_. */
    const printOps: bool
    const compute: Compute

    constructor(regs: map<nat, Bits32>, impl: Option<FpImpl>, printOps: bool, compute: Compute)
      ensures functionStack == [] && this.regs == regs && stdout == []
      ensures this.impl == impl && this.printOps == printOps && this.compute == compute
    {
      functionStack := [];
      this.regs := regs;
      stdout := [];
      this.impl := impl;
      this.printOps := printOps;
      this.compute := compute;
    }

    /** FunctionStackPush: every entered routine, monitored or not. */
    method FunctionStackPush(name: string)
      modifies this
      ensures functionStack == old(functionStack) + [name]
      ensures regs == old(regs) && stdout == old(stdout)
    {
      functionStack := functionStack + [name];
    }

    /** FunctionStackPop: drops the innermost name, unconditionally. */
    method FunctionStackPop()
      requires functionStack != []
      modifies this
      ensures functionStack == old(functionStack)[..|old(functionStack)| - 1]
      ensures regs == old(regs) && stdout == old(stdout)
    {
      functionStack := functionStack[..|functionStack| - 1];
    }

    /** PrintFloatingPointOperation: the operands in instruction order, then the result. */
    method PrintFloatingPointOperation(op: Opcode, operand1: Bits32, operand2: Bits32, result: Bits32)
      requires Utils.IsFpInstruction(op)
      modifies this
      ensures stdout == old(stdout) + RecordText(Record(op, operand1, operand2, result))
      ensures functionStack == old(functionStack) && regs == old(regs)
    {
      stdout := stdout + (ShortName(op) + " " + Hex8(operand1) + " " + Hex8(operand2) + "\n");
      stdout := stdout + ("  " + Hex8(result) + "\n");
    }

    /** The register file after one replacement call: operand1 receives the
        implementation's result when there is an implementation, and nothing
        is written otherwise. */
    function AfterReplace(operand1: nat, value1: Bits32, value2: Bits32, op: Opcode): (r: map<nat, Bits32>)
      requires operand1 in regs
      reads this
      ensures r.Keys == regs.Keys
      ensures forall k | k in regs && k != operand1 :: r[k] == regs[k]
      ensures r[operand1] == (if impl.Some? then compute(impl.value, value1, value2, op) else regs[operand1])
    {
      if impl.Some? then regs[operand1 := compute(impl.value, value1, value2, op)] else regs
    }

    /** The trace text of one replacement call; `unset` stands for the
        uninitialised result register printed when there is no implementation. */
    function ReplaceOutput(value1: Bits32, value2: Bits32, op: Opcode, unset: Bits32): (text: string)
      requires Utils.IsFpInstruction(op)
      reads this
      ensures !printOps ==> text == []
      ensures printOps && impl.Some? ==> text == RecordText(Record(op, value1, value2, compute(impl.value, value1, value2, op)))
      ensures printOps && impl.None? ==> text == RecordText(Record(op, value1, value2, unset))
    {
      if !printOps then []
      else RecordText(Record(op, value1, value2, if impl.Some? then compute(impl.value, value1, value2, op) else unset))
    }

    /** ReplaceRegisterFloatingPointInstruction. */
    method ReplaceRegisterFloatingPointInstruction(op: Opcode, operand1: nat, operand2: nat, unset: Bits32)
      requires Utils.IsFpInstruction(op) && operand1 in regs && operand2 in regs
      modifies this
      ensures regs == old(AfterReplace(operand1, regs[operand1], regs[operand2], op))
      ensures stdout == old(stdout) + old(ReplaceOutput(regs[operand1], regs[operand2], op, unset))
      ensures functionStack == old(functionStack)
    {
      var reg1, reg2, result := regs[operand1], regs[operand2], unset;
      if impl.Some? {
        result := compute(impl.value, reg1, reg2, op);
        regs := regs[operand1 := result];
      }
      if printOps {
        PrintFloatingPointOperation(op, reg1, reg2, result);
      }
    }

    /** ReplaceMemoryFloatingPointInstruction: operand2 comes from memory. */
    method ReplaceMemoryFloatingPointInstruction(op: Opcode, operand1: nat, memory: map<nat, Bits32>, address: nat, unset: Bits32)
      requires Utils.IsFpInstruction(op) && operand1 in regs && address in memory
      modifies this
      ensures regs == old(AfterReplace(operand1, regs[operand1], memory[address], op))
      ensures stdout == old(stdout) + old(ReplaceOutput(regs[operand1], memory[address], op, unset))
      ensures functionStack == old(functionStack)
    {
      var reg1, result := regs[operand1], unset;
      if impl.Some? {
        result := compute(impl.value, reg1, memory[address], op);
        regs := regs[operand1 := result];
      }
      if printOps {
        PrintFloatingPointOperation(op, reg1, memory[address], result);
      }
    }

    /** Runs completed calls through the push and pop hooks: afterwards the
        stack is as before. */
    method RunCalls(calls: seq<ScopeStack.Call>)
      modifies this
      ensures functionStack == old(functionStack)
      ensures regs == old(regs) && stdout == old(stdout)
      decreases calls
    {
      if calls != [] {
        FunctionStackPush(calls[0].name);
        RunCalls(calls[0].body);
        FunctionStackPop();
        RunCalls(calls[1..]);
      }
    }
  }
}
