/** The interception engine: every floating-point instruction is removed and
    replaced by a call that reads its operands, asks the selector for an
    implementation, and writes the implementation's result to the first
    operand's register; every routine's entry and exit are forwarded to the
    selector. The register context and memory are maps, the selector a value. */
module ReplaceFpOperations {
  import opened FpTypes
  import Utils
  import ScopeStack
  import FpSelectors
  import FpImplementation

  class FpReplacer {
    /** The application's registers (the low 32 bits of each XMM register). */
    var regs: map<nat, Bits32>
    /** The application's memory, as 32-bit cells. */
    var memory: map<nat, Bits32>
    /** The selector, with whatever state the notifications gave it. */
    var selector: FpSelectors.FpSelector
    /** What every implementation computes. */
    const handlers: FpImplementation.Handlers

    constructor(regs: map<nat, Bits32>, memory: map<nat, Bits32>, selector: FpSelectors.FpSelector,
                handlers: FpImplementation.Handlers)
      ensures this.regs == regs && this.memory == memory && this.selector == selector
      ensures this.handlers == handlers
    {
      this.regs := regs;
      this.memory := memory;
      this.selector := selector;
      this.handlers := handlers;
    }

    /** The value an instruction's replacement produces: the selector's
        choice, made for this very operation, applied through the opcode's handler. */
    function Replacement(operation: FpOperation): (r: Bits32)
      requires Utils.IsFpInstruction(operation.opcode)
      reads this
      ensures FpImplementation.PerformOperation(handlers, FpSelectors.SelectFpImplementation(selector, operation), operation)
           == Returned(r)
    {
      handlers(FpSelectors.SelectFpImplementation(selector, operation), FpImplementation.HandlerFor(operation.opcode), operation)
    }

    /** ReplaceRegisterFpInstruction: both operands come from registers; only
        operand1's register is written. */
    method ReplaceRegisterFpInstruction(opcode: Opcode, operand1: nat, operand2: nat, functionName: string)
      requires Utils.IsFpInstruction(opcode) && operand1 in regs && operand2 in regs
      modifies this
      ensures var operation := FpOperation(opcode, old(regs)[operand1], old(regs)[operand2], functionName);
        regs == old(regs)[operand1 := old(Replacement(operation))]
      ensures memory == old(memory) && selector == old(selector)
    {
      var operation := FpOperation(opcode, regs[operand1], regs[operand2], functionName);
      var impl := FpSelectors.SelectFpImplementation(selector, operation);
      var r := FpImplementation.PerformOperation(handlers, impl, operation);
      regs := regs[operand1 := r.value];
    }

    /** ReplaceMemoryFpInstruction: operand2 is read from memory, which is left
        as it was; only operand1's register is written. */
    method ReplaceMemoryFpInstruction(opcode: Opcode, operand1: nat, address: nat, functionName: string)
      requires Utils.IsFpInstruction(opcode) && operand1 in regs && address in memory
      modifies this
      ensures var operation := FpOperation(opcode, old(regs)[operand1], old(memory)[address], functionName);
        regs == old(regs)[operand1 := old(Replacement(operation))]
      ensures memory == old(memory) && selector == old(selector)
    {
      var operation := FpOperation(opcode, regs[operand1], memory[address], functionName);
      var impl := FpSelectors.SelectFpImplementation(selector, operation);
      var r := FpImplementation.PerformOperation(handlers, impl, operation);
      regs := regs[operand1 := r.value];
    }

    /** EnterFunction: forwards the routine's name to OnFunctionStart. */
    method EnterFunction(name: string)
      modifies this
      ensures selector == FpSelectors.OnFunctionStart(old(selector), name)
      ensures regs == old(regs) && memory == old(memory)
    {
      selector := FpSelectors.OnFunctionStart(selector, name);
    }

    /** ExitFunction: forwards the routine's name to OnFunctionEnd. */
    method ExitFunction(name: string)
      modifies this
      ensures selector == FpSelectors.OnFunctionEnd(old(selector), name)
      ensures regs == old(regs) && memory == old(memory)
    {
      selector := FpSelectors.OnFunctionEnd(selector, name);
    }

    /** The application-start hook. */
    method StartCallback()
      modifies this
      ensures selector == FpSelectors.StartCallback(old(selector))
      ensures selector == old(selector)
      ensures regs == old(regs) && memory == old(memory)
    {
      selector := FpSelectors.StartCallback(selector);
    }

    /** The application-exit hook. */
    method ExitCallback(code: int)
      modifies this
      ensures selector == FpSelectors.ExitCallback(old(selector), code)
      ensures selector == old(selector)
      ensures regs == old(regs) && memory == old(memory)
    {
      selector := FpSelectors.ExitCallback(selector, code);
    }

    /** Delivers a sequence of entry and exit notifications in order; the
        selector then reflects every one of them. */
    method Notify(events: seq<ScopeStack.Event>)
      modifies this
      ensures selector == FpSelectors.RunEvents(old(selector), events)
      ensures regs == old(regs) && memory == old(memory)
    {
      for i := 0 to |events|
        invariant selector == FpSelectors.RunEvents(old(selector), events[..i])
        invariant regs == old(regs) && memory == old(memory)
      {
        FpSelectors.RunEventsSnoc(old(selector), events[..i], events[i]);
        assert events[..i + 1] == events[..i] + [events[i]];
        match events[i] {
          case Start(n) => EnterFunction(n);
          case End(n) => ExitFunction(n);
        }
      }
      assert events[..|events|] == events;
    }

    /** Runs completed calls: each routine's entry hook, its callees, then its
        exit hook. A valid selector ends where it started, so the next
        operation is selected exactly as before the calls. */
    method RunCalls(calls: seq<ScopeStack.Call>)
      requires FpSelectors.Valid(selector)
      modifies this
      ensures selector == old(selector)
      ensures regs == old(regs) && memory == old(memory)
      decreases calls
    {
      if calls != [] {
        var c := calls[0];
        var before := selector;
        EnterFunction(c.name);
        FpSelectors.RunEventsKeepsValid(before, [ScopeStack.Start(c.name)]);
        RunCalls(c.body);
        ExitFunction(c.name);
        FpSelectors.WellNestedRestoresSelector(before, [ScopeStack.Call(c.name, [])]);
        assert ScopeStack.Events([ScopeStack.Call(c.name, [])]) == [ScopeStack.Start(c.name), ScopeStack.End(c.name)];
        RunCalls(calls[1..]);
      }
    }
  }
}
