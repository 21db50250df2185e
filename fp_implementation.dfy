/** FpImplementation: dispatch of an operation to one of four arithmetic
    handlers. The handlers compute floating-point results and are left
    uninterpreted; only which handler runs, and when the process exits, is modelled. */
module FpImplementation {
  import opened FpTypes
  import Utils

  /** The four pure-virtual handlers FpAdd, FpSub, FpMul and FpDiv. */
  datatype Handler = FpAdd | FpSub | FpMul | FpDiv

  /** What each implementation instance computes with each handler. */
  type Handlers = (FpImpl, Handler, FpOperation) -> Bits32

  /** The handler an arithmetic opcode dispatches to. */
  function HandlerFor(op: Opcode): (h: Handler)
    requires Utils.IsFpInstruction(op)
    ensures op == ADDSS <==> h == FpAdd
    ensures op == SUBSS <==> h == FpSub
    ensures op == MULSS <==> h == FpMul
    ensures op == DIVSS <==> h == FpDiv
  {
    match op
    case ADDSS => FpAdd
    case SUBSS => FpSub
    case MULSS => FpMul
    case DIVSS => FpDiv
  }

  /** FpImplementation::PerformOperation: the handler for the opcode receives the
      operation unchanged; any other opcode prints a diagnostic and exits with
      status 1 (it never falls back to operand1). */
  function PerformOperation(handlers: Handlers, impl: FpImpl, operation: FpOperation): (r: Exit<Bits32>)
    ensures r.Returned? <==> Utils.IsFpInstruction(operation.opcode)
    ensures r.Returned? ==> r.value == handlers(impl, HandlerFor(operation.opcode), operation)
    ensures r.Exited? ==> r.code == 1
  {
    match operation.opcode
    case ADDSS => Returned(handlers(impl, FpAdd, operation))
    case SUBSS => Returned(handlers(impl, FpSub, operation))
    case MULSS => Returned(handlers(impl, FpMul, operation))
    case DIVSS => Returned(handlers(impl, FpDiv, operation))
    case Other(_) => Exited(1)
  }

  /** The arithmetic of a "normal" implementation, uninterpreted: it receives the
      handler and both operands. */
  type Arithmetic = (Handler, Bits32, Bits32) -> Bits32

  /** NormalFloatingPointImplementation::FloatingPointOperation (the older
      interface): the four opcodes compute, any other opcode is reported and
      answered with operand1 unchanged. */
  function NormalFloatingPointOperation(arith: Arithmetic, operand1: Bits32, operand2: Bits32, opcode: Opcode): (r: Bits32)
    ensures !Utils.IsFpInstruction(opcode) ==> r == operand1
    ensures Utils.IsFpInstruction(opcode) ==> r == arith(HandlerFor(opcode), operand1, operand2)
  {
    match opcode
    case ADDSS => arith(FpAdd, operand1, operand2)
    case SUBSS => arith(FpSub, operand1, operand2)
    case MULSS => arith(FpMul, operand1, operand2)
    case DIVSS => arith(FpDiv, operand1, operand2)
    case Other(_) => operand1
  }

  /** The two generations of the interface disagree on an unknown opcode: the
      newer dispatch terminates the process where the older one returns operand1. */
  lemma UnknownOpcodeHandling(handlers: Handlers, arith: Arithmetic, impl: FpImpl, operation: FpOperation)
    requires !Utils.IsFpInstruction(operation.opcode)
    ensures PerformOperation(handlers, impl, operation) == Exited(1)
    ensures NormalFloatingPointOperation(arith, operation.operand1, operation.operand2, operation.opcode) == operation.operand1
  {
  }
}
