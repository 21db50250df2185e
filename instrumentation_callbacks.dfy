/** The earlier generation of the analysis routines: the selector is asked with
    the two operands and the opcode only, and the trace is written without a
    lock, one call per line. */
module InstrumentationCallbacks {
  import opened FpTypes
  import Utils
  import FpSelectors
  import opened TraceFormat

  /** The three-argument SelectFpImplementation of this generation, uninterpreted;
      it may depend on the selector's state. */
  type Select3 = (FpSelectors.FpSelector, Bits32, Bits32, Opcode) -> FpImpl

  /** FpImplementation::FpOperation of this generation, uninterpreted. */
  type Compute = (FpImpl, Bits32, Bits32, Opcode) -> Bits32

  class CallbackTool {
    var regs: map<nat, Bits32>
    var selector: FpSelectors.FpSelector
    /** The output file's contents. */
    var output: string
    const select: Select3
    const compute: Compute
    const greater: Greater

    constructor(regs: map<nat, Bits32>, selector: FpSelectors.FpSelector, select: Select3, compute: Compute, greater: Greater)
      ensures this.regs == regs && this.selector == selector && output == []
      ensures this.select == select && this.compute == compute && this.greater == greater
    {
      this.regs := regs;
      this.selector := selector;
      output := [];
      this.select := select;
      this.compute := compute;
      this.greater := greater;
    }

    /** The result written back for one operation. */
    function Replacement(operand1: Bits32, operand2: Bits32, op: Opcode): Bits32
      reads this
    {
      compute(select(selector, operand1, operand2, op), operand1, operand2, op)
    }

    method StartCallback()
      modifies this
      ensures selector == FpSelectors.StartCallback(old(selector))
      ensures selector == old(selector)
      ensures regs == old(regs) && output == old(output)
    {
      selector := FpSelectors.StartCallback(selector);
    }

    method ExitCallback(code: int)
      modifies this
      ensures selector == FpSelectors.ExitCallback(old(selector), code)
      ensures selector == old(selector)
      ensures regs == old(regs) && output == old(output)
    {
      selector := FpSelectors.ExitCallback(selector, code);
    }

    /** ReplaceRegisterFpInstruction: only operand1's register is written. */
    method ReplaceRegisterFpInstruction(op: Opcode, operand1: nat, operand2: nat)
      requires operand1 in regs && operand2 in regs
      modifies this
      ensures regs == old(regs)[operand1 := old(Replacement(regs[operand1], regs[operand2], op))]
      ensures selector == old(selector) && output == old(output)
    {
      var reg1, reg2 := regs[operand1], regs[operand2];
      var impl := select(selector, reg1, reg2, op);
      regs := regs[operand1 := compute(impl, reg1, reg2, op)];
    }

    /** ReplaceMemoryFpInstruction: operand2 is read from memory; only
        operand1's register is written. */
    method ReplaceMemoryFpInstruction(op: Opcode, operand1: nat, memory: map<nat, Bits32>, address: nat)
      requires operand1 in regs && address in memory
      modifies this
      ensures regs == old(regs)[operand1 := old(Replacement(regs[operand1], memory[address], op))]
      ensures selector == old(selector) && output == old(output)
    {
      var reg1 := regs[operand1];
      var impl := select(selector, reg1, memory[address], op);
      regs := regs[operand1 := compute(impl, reg1, memory[address], op)];
    }

    method EnterFunction(name: string)
      modifies this
      ensures selector == FpSelectors.OnFunctionStart(old(selector), name)
      ensures regs == old(regs) && output == old(output)
    {
      selector := FpSelectors.OnFunctionStart(selector, name);
    }

    method ExitFunction(name: string)
      modifies this
      ensures selector == FpSelectors.OnFunctionEnd(old(selector), name)
      ensures regs == old(regs) && output == old(output)
    {
      selector := FpSelectors.OnFunctionEnd(selector, name);
    }

    /** PrintRegisterFpOperands: subtraction and division keep their order,
        otherwise the larger operand is printed first. */
    method PrintRegisterFpOperands(op: Opcode, operand1: Bits32, operand2: Bits32)
      requires Utils.IsFpInstruction(op)
      modifies this
      ensures output == old(output) + OperandLine(greater, op, operand1, operand2)
      ensures regs == old(regs) && selector == old(selector)
    {
      var line := ShortName(op) + " ";
      if op == SUBSS || op == DIVSS || greater(operand1, operand2) {
        line := line + Hex8(operand1) + " " + Hex8(operand2);
      } else {
        line := line + Hex8(operand2) + " " + Hex8(operand1);
      }
      output := output + (line + "\n");
    }

    method PrintMemoryFpOperands(op: Opcode, operand1: Bits32, memory: map<nat, Bits32>, address: nat)
      requires Utils.IsFpInstruction(op) && address in memory
      modifies this
      ensures output == old(output) + OperandLine(greater, op, operand1, memory[address])
      ensures regs == old(regs) && selector == old(selector)
    {
      PrintRegisterFpOperands(op, operand1, memory[address]);
    }

    method PrintFpResult(result: Bits32)
      modifies this
      ensures output == old(output) + ResultLine(result)
      ensures regs == old(regs) && selector == old(selector)
    {
      output := output + ("  " + Hex8(result) + "\n");
    }
  }
}
