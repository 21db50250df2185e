/** The trace validator: a file is accepted when, after dropping the empty
    string that follows a final newline, it splits into an even number of
    lines that alternate between an operand line and a result line. */
module CheckValidOutput {
  import opened FpTypes
  import opened TraceFormat
  import Utils

  /** str.split("\n"): the pieces between newlines, always at least one. */
  function SplitLines(s: string): (lines: seq<string>)
    ensures |lines| >= 1
    ensures forall k | 0 <= k < |lines| :: '\n' !in lines[k]
    decreases |s|
  {
    if s == [] then [[]]
    else
      var rest := SplitLines(s[1..]);
      if s[0] == '\n' then [[]] + rest
      else [[s[0]] + rest[0]] + rest[1..]
  }

  /** The inverse of SplitLines: the pieces joined with newlines. */
  function JoinLines(lines: seq<string>): (s: string)
    requires |lines| >= 1
  {
    if |lines| == 1 then lines[0] else lines[0] + "\n" + JoinLines(lines[1..])
  }

  /** OP_REGEX, matched at the start of the line only. */
  predicate OpLineMatches(line: string)
  {
    && |line| >= 23
    && line[..5] in {"ADDSS", "SUBSS", "MULSS", "DIVSS"}
    && line[5] == ' ' && AllHex(line[6..14]) && line[14] == ' ' && AllHex(line[15..23])
  }

  /** RESULT_REGEX, matched at the start of the line only. */
  predicate ResultLineMatches(line: string)
  {
    |line| >= 3 && line[0] == ' ' && line[1] == ' ' && IsHexDigit(line[2])
  }

  /** The lines of the file, without the empty piece after a final newline. */
  function TrimmedLines(contents: string): (lines: seq<string>)
    ensures |lines| == |SplitLines(contents)| || |lines| == |SplitLines(contents)| - 1
  {
    var lines := SplitLines(contents);
    if lines[|lines| - 1] == [] then lines[..|lines| - 1] else lines
  }

  predicate ValidLines(lines: seq<string>)
  {
    && |lines| % 2 == 0
    && forall i | 0 <= i < |lines| - 1 && i % 2 == 0 :: OpLineMatches(lines[i]) && ResultLineMatches(lines[i + 1])
  }

  /** main(): exit status 1 on a wrong argument count, an odd number of lines or
      a line that does not match; status 0 otherwise. The file's contents are a
      parameter, taken as the text that reading in text mode yields: "\r\n" and
      a lone "\r" have already become "\n". */
  method CheckValidOutput(argv: seq<string>, contents: string) returns (status: int)
    ensures status == 0 <==> |argv| == 2 && ValidLines(TrimmedLines(contents))
    ensures status == 0 || status == 1
  {
    if |argv| != 2 {
      return 1;
    }
    var lines := SplitLines(contents);
    if lines[|lines| - 1] == [] {
      lines := lines[..|lines| - 1];
    }
    if |lines| % 2 != 0 {
      return 1;
    }
    var i := 0;
    while i < |lines|
      invariant 0 <= i <= |lines| && i % 2 == 0
      invariant forall j | 0 <= j < i - 1 && j % 2 == 0 :: OpLineMatches(lines[j]) && ResultLineMatches(lines[j + 1])
    {
      if !OpLineMatches(lines[i]) {
        return 1;
      }
      if !ResultLineMatches(lines[i + 1]) {
        return 1;
      }
      i := i + 2;
    }
    return 0;
  }

  /** Splitting and joining are inverse: no character is lost or added. */
  lemma {:induction false} SplitJoinRoundTrip(s: string)
    ensures JoinLines(SplitLines(s)) == s
    decreases |s|
  {
    if s != [] {
      var rest := SplitLines(s[1..]);
      SplitJoinRoundTrip(s[1..]);
      if s[0] == '\n' {
        assert s == "\n" + s[1..];
      } else {
        var lines := SplitLines(s);
        assert lines[1..] == rest[1..];
        if |rest| > 1 {
          assert rest == [rest[0]] + rest[1..];
        }
        assert s == [s[0]] + s[1..];
      }
    }
  }

  /** A line without a newline, a newline, then the rest: the line is the first piece. */
  lemma {:induction false} SplitAfterLine(line: string, t: string)
    requires '\n' !in line
    ensures SplitLines(line + "\n" + t) == [line] + SplitLines(t)
    decreases |line|
  {
    var s := line + "\n" + t;
    if line == [] {
      assert s == "\n" + t && s[1..] == t;
    } else {
      assert s[0] == line[0] && s[1..] == line[1..] + "\n" + t;
      SplitAfterLine(line[1..], t);
      assert [line[0]] + line[1..] == line;
    }
  }

  /** The operand line and the result line of a record, without their newlines. */
  function OperandBody(r: Record): (line: string)
    requires WellFormed(r)
    ensures OrderedOperandLine(r.opcode, r.first, r.second) == line + "\n"
    ensures '\n' !in line && OpLineMatches(line)
  {
    var line := ShortName(r.opcode) + " " + Hex8(r.first) + " " + Hex8(r.second);
    assert line[..5] == ShortName(r.opcode);
    assert line[6..14] == Hex8(r.first) && line[15..23] == Hex8(r.second);
    assert forall k | 0 <= k < |line| :: line[k] != '\n' by {
      forall k | 0 <= k < |line| ensures line[k] != '\n' {
        if 6 <= k < 14 {
          assert line[k] == Hex8(r.first)[k - 6];
        } else if 15 <= k < 23 {
          assert line[k] == Hex8(r.second)[k - 15];
        }
      }
    }
    line
  }

  function ResultBody(r: Record): (line: string)
    ensures ResultLine(r.result) == line + "\n"
    ensures '\n' !in line && ResultLineMatches(line)
  {
    var line := "  " + Hex8(r.result);
    assert line[2] == Hex8(r.result)[0];
    assert forall k | 2 <= k < |line| :: line[k] == Hex8(r.result)[k - 2];
    line
  }

  /** The lines of a trace: two per record. */
  function TraceLines(records: seq<Record>): (lines: seq<string>)
    requires forall i | 0 <= i < |records| :: WellFormed(records[i])
    ensures |lines| == 2 * |records|
  {
    if records == [] then []
    else [OperandBody(records[0]), ResultBody(records[0])] + TraceLines(records[1..])
  }

  lemma {:induction false} TraceTextFront(records: seq<Record>)
    requires records != []
    requires forall i | 0 <= i < |records| :: WellFormed(records[i])
    ensures TraceText(records) == RecordText(records[0]) + TraceText(records[1..])
    decreases |records|
  {
    var n := |records|;
    if n > 1 {
      var front, tail, middle := records[..n - 1], records[1..], records[1..n - 1];
      assert front[1..] == middle && tail[..|tail| - 1] == middle;
      assert front[0] == records[0] && tail[|tail| - 1] == records[n - 1];
      var first, inner, last := RecordText(records[0]), TraceText(middle), RecordText(records[n - 1]);
      assert TraceText(front) == first + inner by {
        TraceTextFront(front);
      }
      assert TraceText(tail) == inner + last;
      assert TraceText(records) == TraceText(front) + last;
      Utils.AppendAssoc(first, inner, last);
    } else {
      assert records[..0] == [] && records[1..] == [];
      assert TraceText(records) == [] + RecordText(records[0]);
    }
  }

  /** A record's text splits into its two lines. */
  lemma SplitRecord(r: Record, rest: string)
    requires WellFormed(r)
    ensures SplitLines(RecordText(r) + rest) == [OperandBody(r), ResultBody(r)] + SplitLines(rest)
  {
    var op, res := OperandBody(r), ResultBody(r);
    var after := res + "\n" + rest;
    assert RecordText(r) + rest == op + "\n" + after by {
      assert RecordText(r) == (op + "\n") + (res + "\n");
    }
    SplitAfterLine(op, after);
    SplitAfterLine(res, rest);
  }

  lemma {:induction false} SplitTrace(records: seq<Record>)
    requires forall i | 0 <= i < |records| :: WellFormed(records[i])
    ensures SplitLines(TraceText(records)) == TraceLines(records) + [[]]
    decreases |records|
  {
    if records != [] {
      TraceTextFront(records);
      SplitRecord(records[0], TraceText(records[1..]));
      SplitTrace(records[1..]);
    } else {
      assert SplitLines([]) == [[]];
    }
  }

  /** Whatever records the printer writes, the validator accepts the file. */
  lemma PrinterOutputAccepted(records: seq<Record>)
    requires forall i | 0 <= i < |records| :: WellFormed(records[i])
    ensures ValidLines(TrimmedLines(TraceText(records)))
  {
    TrimmedTrace(records);
    PairsMatch(records);
  }

  /** Dropping the empty piece after the final newline leaves the trace's lines. */
  lemma TrimmedTrace(records: seq<Record>)
    requires forall i | 0 <= i < |records| :: WellFormed(records[i])
    ensures TrimmedLines(TraceText(records)) == TraceLines(records)
  {
    SplitTrace(records);
    var lines := TraceLines(records);
    var pieces := lines + [[]];
    assert pieces[|pieces| - 1] == [] && pieces[..|lines|] == lines;
  }

  lemma {:induction false} PairsMatch(records: seq<Record>)
    requires forall i | 0 <= i < |records| :: WellFormed(records[i])
    ensures ValidLines(TraceLines(records))
    decreases |records|
  {
    if records != [] {
      PairsMatch(records[1..]);
      var lines := TraceLines(records);
      var tail := TraceLines(records[1..]);
      forall i | 0 <= i < |lines| - 1 && i % 2 == 0
        ensures OpLineMatches(lines[i]) && ResultLineMatches(lines[i + 1])
      {
        if i >= 2 {
          assert lines[i] == tail[i - 2] && lines[i + 1] == tail[i - 1];
        }
      }
    }
  }

  /** An empty file is accepted. */
  lemma EmptyFileAccepted()
    ensures ValidLines(TrimmedLines(""))
  {
  }

  /** A file holding only a newline splits into two empty pieces; dropping the
      last leaves one line, an odd count, so it is rejected. */
  lemma LoneNewlineRejected()
    ensures TrimmedLines("\n") == [""]
    ensures !ValidLines(TrimmedLines("\n"))
  {
    assert SplitLines("\n") == ["", ""] by {
      assert "\n"[1..] == "";
    }
  }
}
