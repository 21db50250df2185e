/** The floating-point trace printer: before each arithmetic instruction it
    takes the output lock and writes the operand line; after the instruction
    it writes the result line and releases the lock, so the output is a
    sequence of whole two-line records. */
module PrintFpOperations {
  import opened FpTypes
  import Utils
  import opened TraceFormat

  /** The operand line of a record whose result line is still to come. */
  function PendingText(pending: Option<Record>): (text: string)
    requires pending.Some? ==> WellFormed(pending.value)
    ensures pending.None? ==> text == []
    ensures pending.Some? ==> |text| == 24
  {
    match pending
    case None => []
    case Some(r) => OrderedOperandLine(r.opcode, r.first, r.second)
  }

  /** Writing an operand line after whole records leaves that line pending. */
  lemma AppendPending(output: string, records: seq<Record>, pending: Option<Record>, r: Record)
    requires forall i | 0 <= i < |records| :: WellFormed(records[i])
    requires pending.None? && WellFormed(r)
    requires output == TraceText(records) + PendingText(pending)
    ensures output + OrderedOperandLine(r.opcode, r.first, r.second) == TraceText(records) + PendingText(Some(r))
  {
    var done, line := TraceText(records), OrderedOperandLine(r.opcode, r.first, r.second);
    EmptyRight(done);
    assert output == done;
    assert PendingText(Some(r)) == line;
  }

  lemma EmptyRight(s: string)
    ensures s + [] == s
  {
  }

  class TracePrinter {
    /** The output file's contents. */
    var output: string
    /** output_file_lock: held from an operand line to its result line. */
    var locked: bool
    /** The floating-point `>` used to order operands. */
    const greater: Greater
    /** The records completed so far. */
    ghost var records: seq<Record>
    /** The opcode and ordered operands of the operand line awaiting its result. */
    ghost var pending: Option<Record>

    ghost predicate Valid()
      reads this
    {
      && (forall i | 0 <= i < |records| :: WellFormed(records[i]))
      && (locked <==> pending.Some?)
      && (pending.Some? ==> WellFormed(pending.value))
      && output == TraceText(records) + PendingText(pending)
    }

    constructor(greater: Greater)
      ensures Valid() && output == [] && !locked && records == []
      ensures this.greater == greater
    {
      output := [];
      locked := false;
      this.greater := greater;
      records := [];
      pending := None;
    }

    /** PrintRegisterFpOperands: operands read from two registers. */
    method PrintRegisterFpOperands(op: Opcode, operand1: Bits32, operand2: Bits32)
      requires Valid() && !locked && Utils.IsFpInstruction(op)
      modifies this
      ensures Valid() && locked && records == old(records)
      ensures output == old(output) + OperandLine(greater, op, operand1, operand2)
      ensures var p := OperandOrder(greater, op, operand1, operand2); pending == Some(Record(op, p.0, p.1, 0))
    {
      locked := true;
      var line := ShortName(op) + " ";
      if op == SUBSS || op == DIVSS || greater(operand1, operand2) {
        line := line + Hex8(operand1) + " " + Hex8(operand2);
      } else {
        line := line + Hex8(operand2) + " " + Hex8(operand1);
      }
      line := line + "\n";
      var p := OperandOrder(greater, op, operand1, operand2);
      assert line == OrderedOperandLine(op, p.0, p.1);
      AppendPending(output, records, pending, Record(op, p.0, p.1, 0));
      output := output + line;
      pending := Some(Record(op, p.0, p.1, 0));
    }

    /** PrintMemoryFpOperands: the second operand is read from memory. */
    method PrintMemoryFpOperands(op: Opcode, operand1: Bits32, memory: map<nat, Bits32>, address: nat)
      requires Valid() && !locked && Utils.IsFpInstruction(op)
      requires address in memory
      modifies this
      ensures Valid() && locked && records == old(records)
      ensures output == old(output) + OperandLine(greater, op, operand1, memory[address])
      ensures var p := OperandOrder(greater, op, operand1, memory[address]); pending == Some(Record(op, p.0, p.1, 0))
    {
      locked := true;
      var operand2 := memory[address];
      var line := ShortName(op) + " ";
      if op == SUBSS || op == DIVSS || greater(operand1, operand2) {
        line := line + Hex8(operand1) + " " + Hex8(operand2);
      } else {
        line := line + Hex8(operand2) + " " + Hex8(operand1);
      }
      line := line + "\n";
      var p := OperandOrder(greater, op, operand1, operand2);
      assert line == OrderedOperandLine(op, p.0, p.1);
      AppendPending(output, records, pending, Record(op, p.0, p.1, 0));
      output := output + line;
      pending := Some(Record(op, p.0, p.1, 0));
    }

    /** PrintFpResult: completes the pending record and releases the lock. */
    method PrintFpResult(result: Bits32)
      requires Valid() && locked
      modifies this
      ensures Valid() && !locked
      ensures output == old(output) + ResultLine(result)
      ensures records == old(records) + [old(pending).value.(result := result)]
      ensures output == TraceText(records)
    {
      var r := pending.value.(result := result);
      var line := "  " + Hex8(result) + "\n";
      ghost var done, operands := TraceText(records), PendingText(pending);
      assert operands + line == RecordText(r);
      ghost var extended := records + [r];
      assert TraceText(extended) == done + RecordText(r) by {
        assert extended[..|extended| - 1] == records;
      }
      Utils.AppendAssoc(done, operands, line);
      output := output + line;
      locked := false;
      records := extended;
      pending := None;
    }

    /** One instrumented register-form instruction: the operand line before
        it, the result line after it. */
    method TraceRegisterInstruction(op: Opcode, operand1: Bits32, operand2: Bits32, result: Bits32)
      requires Valid() && !locked && Utils.IsFpInstruction(op)
      modifies this
      ensures Valid() && !locked
      ensures output == old(output) + OperandLine(greater, op, operand1, operand2) + ResultLine(result)
      ensures var p := OperandOrder(greater, op, operand1, operand2);
        records == old(records) + [Record(op, p.0, p.1, result)]
    {
      PrintRegisterFpOperands(op, operand1, operand2);
      PrintFpResult(result);
    }

    /** One instrumented memory-form instruction: operand2 is read from memory. */
    method TraceMemoryInstruction(op: Opcode, operand1: Bits32, memory: map<nat, Bits32>, address: nat, result: Bits32)
      requires Valid() && !locked && Utils.IsFpInstruction(op)
      requires address in memory
      modifies this
      ensures Valid() && !locked
      ensures output == old(output) + OperandLine(greater, op, operand1, memory[address]) + ResultLine(result)
      ensures var p := OperandOrder(greater, op, operand1, memory[address]);
        records == old(records) + [Record(op, p.0, p.1, result)]
    {
      PrintMemoryFpOperands(op, operand1, memory, address);
      PrintFpResult(result);
    }
  }
}
