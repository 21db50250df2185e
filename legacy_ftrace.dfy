/** The original single-file tool: a stack of integer replacement types,
    pushed on entry to and popped on exit from each routine the mapping
    table names, whose top is handed to the replacement function. */
module LegacyFtrace {
  import opened FpTypes
  import ScopeStack

  /** _no_replacement_type: the type of an unmapped routine; never stored. */
  const NoReplacementType: nat := 0
  const Uint64Modulus: nat := 0x1_0000_0000_0000_0000

  /** One row of func_mapping_table (the rows before its NULL terminator). */
  datatype MappingEntry = MappingEntry(funcName: string, replacementType: nat)

  /** The type of the first row naming `name`, or the no-replacement type. */
  function LookupType(table: seq<MappingEntry>, name: string): (t: nat)
    ensures (forall i | 0 <= i < |table| :: table[i].funcName != name) ==> t == NoReplacementType
    ensures t != NoReplacementType ==> exists i | 0 <= i < |table| :: table[i].funcName == name && table[i].replacementType == t
    decreases |table|
  {
    if table == [] then NoReplacementType
    else if table[0].funcName == name then table[0].replacementType
    else
      var t := LookupType(table[1..], name);
      assert forall i | 0 <= i < |table| - 1 :: table[1..][i] == table[i + 1];
      t
  }

  /** Later rows for the same name are shadowed by the first. */
  lemma {:induction false} FirstMatchWins(table: seq<MappingEntry>, name: string, i: nat)
    requires i < |table| && table[i].funcName == name
    requires forall j | 0 <= j < i :: table[j].funcName != name
    ensures LookupType(table, name) == table[i].replacementType
    decreases i
  {
    if i > 0 {
      assert table[1..][i - 1] == table[i];
      FirstMatchWins(table[1..], name, i - 1);
    }
  }

  /** function_replacement_type_map: scans the table in order, returning at the first match. */
  method FunctionReplacementTypeMap(table: seq<MappingEntry>, name: string) returns (t: nat)
    ensures t == LookupType(table, name)
  {
    var i := 0;
    while i < |table|
      invariant 0 <= i <= |table|
      invariant LookupType(table, name) == LookupType(table[i..], name)
    {
      if table[i].funcName == name {
        return table[i].replacementType;
      }
      assert table[i..][1..] == table[i + 1..];
      i := i + 1;
    }
    return NoReplacementType;
  }

  /** The stack after one routine entry or exit; None when a pop finds the
      stack empty (which the tool does not guard against). */
  function LegacyStep(table: seq<MappingEntry>, stack: seq<nat>, e: ScopeStack.Event): (r: Option<seq<nat>>)
    ensures r.None? <==> e.End? && stack == [] && LookupType(table, e.name) != NoReplacementType
    ensures r.Some? ==> |stack| - 1 <= |r.value| <= |stack| + 1
  {
    var t := LookupType(table, e.name);
    match e
    case Start(_) => Some(if t != NoReplacementType then stack + [t] else stack)
    case End(_) =>
      if t == NoReplacementType then Some(stack)
      else if stack == [] then None
      else Some(stack[..|stack| - 1])
  }

  /** The stack after a run, or None once some exit pops an empty stack; each
      event moves the depth by at most one. */
  function LegacyRun(table: seq<MappingEntry>, stack: seq<nat>, events: seq<ScopeStack.Event>): (r: Option<seq<nat>>)
    ensures r.Some? ==> |stack| - |events| <= |r.value| <= |stack| + |events|
    decreases |events|
  {
    if events == [] then Some(stack)
    else
      match LegacyStep(table, stack, events[0])
      case None => None
      case Some(next) => LegacyRun(table, next, events[1..])
  }

  lemma {:induction false} LegacyRunConcat(table: seq<MappingEntry>, stack: seq<nat>, a: seq<ScopeStack.Event>, b: seq<ScopeStack.Event>)
    requires LegacyRun(table, stack, a).Some?
    ensures LegacyRun(table, stack, a + b) == LegacyRun(table, LegacyRun(table, stack, a).value, b)
    decreases |a|
  {
    if a == [] {
      assert a + b == b;
    } else {
      assert (a + b)[0] == a[0] && (a + b)[1..] == a[1..] + b;
      LegacyRunConcat(table, LegacyStep(table, stack, a[0]).value, a[1..], b);
    }
  }

  /** Because a routine's entry and exit hooks carry the same looked-up type,
      a well-nested run pushes and pops in pairs: it never pops an empty
      stack and ends with the stack it started with. */
  lemma {:induction false} WellNestedBalanced(table: seq<MappingEntry>, stack: seq<nat>, calls: seq<ScopeStack.Call>)
    ensures LegacyRun(table, stack, ScopeStack.Events(calls)) == Some(stack)
    decreases calls
  {
    if calls != [] {
      var c := calls[0];
      var enter, inner, exit, rest := [ScopeStack.Start(c.name)], ScopeStack.Events(c.body), [ScopeStack.End(c.name)], ScopeStack.Events(calls[1..]);
      assert ScopeStack.Events(calls) == enter + inner + exit + rest;
      var pushed := LegacyStep(table, stack, ScopeStack.Start(c.name)).value;
      assert LegacyRun(table, stack, enter) == Some(pushed);
      LegacyRunConcat(table, stack, enter, inner);
      WellNestedBalanced(table, pushed, c.body);
      LegacyRunConcat(table, stack, enter + inner, exit);
      assert LegacyRun(table, pushed, exit) == Some(stack) by {
        if LookupType(table, c.name) != NoReplacementType {
          assert pushed[..|pushed| - 1] == stack;
        }
      }
      LegacyRunConcat(table, stack, enter + inner + exit, rest);
      WellNestedBalanced(table, stack, calls[1..]);
    }
  }

  /** The tool's global state. */
  class LegacyTool {
    const table: seq<MappingEntry>
    /** function_level_replacement_type_stack, top last. */
    var stack: seq<nat>
    /** ins_count. */
    var insCount: nat
    /** The application's registers. */
    var regs: map<nat, Bits32>

    constructor(table: seq<MappingEntry>, regs: map<nat, Bits32>)
      ensures this.table == table && stack == [] && insCount == 0 && this.regs == regs
    {
      this.table := table;
      stack := [];
      insCount := 0;
      this.regs := regs;
    }

    /** _get_replacement_type. */
    function GetReplacementType(): (t: nat)
      reads this
      ensures stack == [] ==> t == NoReplacementType
      ensures stack != [] ==> t == stack[|stack| - 1]
    {
      if stack == [] then NoReplacementType else stack[|stack| - 1]
    }

    /** push_function_level_replacement_type. */
    method PushFunctionLevelReplacementType(t: nat)
      modifies this
      ensures stack == (if t != NoReplacementType then old(stack) + [t] else old(stack))
      ensures insCount == old(insCount) && regs == old(regs)
    {
      if t != NoReplacementType {
        stack := stack + [t];
      }
    }

    /** pop_function_level_replacement_type: pops whatever is on top,
        without comparing it with `t`. */
    method PopFunctionLevelReplacementType(t: nat)
      requires t != NoReplacementType ==> stack != []
      modifies this
      ensures stack == (if t != NoReplacementType then old(stack)[..|old(stack)| - 1] else old(stack))
      ensures insCount == old(insCount) && regs == old(regs)
    {
      if t != NoReplacementType {
        stack := stack[..|stack| - 1];
      }
    }

    /** The entry hook of a routine. */
    method EnterRoutine(name: string)
      modifies this
      ensures Some(stack) == LegacyStep(table, old(stack), ScopeStack.Start(name))
      ensures insCount == old(insCount) && regs == old(regs)
    {
      var t := FunctionReplacementTypeMap(table, name);
      PushFunctionLevelReplacementType(t);
    }

    /** The exit hook of a routine. */
    method ExitRoutine(name: string)
      requires LegacyStep(table, stack, ScopeStack.End(name)).Some?
      modifies this
      ensures Some(stack) == LegacyStep(table, old(stack), ScopeStack.End(name))
      ensures insCount == old(insCount) && regs == old(regs)
    {
      var t := FunctionReplacementTypeMap(table, name);
      PopFunctionLevelReplacementType(t);
    }

    /** docount: one more instruction, in a 64-bit counter. */
    method DoCount()
      modifies this
      ensures insCount == (old(insCount) + 1) % Uint64Modulus
      ensures stack == old(stack) && regs == old(regs)
    {
      insCount := (insCount + 1) % Uint64Modulus;
    }

    /** replace_reg_fp_ins: the replacement function gets both operands, the
        opcode and the current replacement type; its result goes to operand1. */
    method ReplaceRegFpIns(replace: (Bits32, Bits32, Opcode, nat) -> Bits32, op: Opcode, operand1: nat, operand2: nat)
      requires operand1 in regs && operand2 in regs
      modifies this
      ensures regs == old(regs)[operand1 := replace(old(regs)[operand1], old(regs)[operand2], op, old(GetReplacementType()))]
      ensures stack == old(stack) && insCount == old(insCount)
    {
      var result := replace(regs[operand1], regs[operand2], op, GetReplacementType());
      regs := regs[operand1 := result];
    }

    /** replace_mem_fp_ins: the second operand is read from memory. */
    method ReplaceMemFpIns(replace: (Bits32, Bits32, Opcode, nat) -> Bits32, op: Opcode, operand1: nat,
                           memory: map<nat, Bits32>, address: nat)
      requires operand1 in regs && address in memory
      modifies this
      ensures regs == old(regs)[operand1 := replace(old(regs)[operand1], memory[address], op, old(GetReplacementType()))]
      ensures stack == old(stack) && insCount == old(insCount)
    {
      var result := replace(regs[operand1], memory[address], op, GetReplacementType());
      regs := regs[operand1 := result];
    }
  }
}
