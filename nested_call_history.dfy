/** The nested-function test implementation: it scans the whole call history,
    innermost function first, and lets the first mapped function decide which
    test operation computes the result; with no mapped function on the history
    the normal implementation computes it. */
module NestedCallHistory {
  import opened FpTypes
  import FpImplementation
  import ScopeStack

  /** The two stateless test operations. */
  datatype TestOperation = SimpleTest | ComplexTest

  /** What each test operation computes, left uninterpreted. */
  type TestArithmetic = (TestOperation, Bits32, Bits32, Opcode) -> Bits32

  /** function_operation_map. */
  const FunctionOperationMap: map<string, TestOperation> :=
    map["helper1" := SimpleTest, "helper2" := SimpleTest, "nested_helper" := ComplexTest]

  /** Some name of `history` maps to `v` and no name after it is mapped. */
  ghost predicate InnermostMapsTo<T>(history: seq<string>, m: map<string, T>, v: T)
  {
    exists i | 0 <= i < |history| ::
      history[i] in m && m[history[i]] == v && forall k | i < k < |history| :: history[k] !in m
  }

  /** A mapped last name is the innermost mapped one. */
  lemma LastIsInnermost<T>(history: seq<string>, m: map<string, T>)
    requires history != [] && history[|history| - 1] in m
    ensures InnermostMapsTo(history, m, m[history[|history| - 1]])
  {
    var i := |history| - 1;
    assert history[i] in m && m[history[i]] == m[history[|history| - 1]];
  }

  /** Appending an unmapped name keeps the innermost mapped one. */
  lemma UnmappedNameKeepsInnermost<T>(front: seq<string>, name: string, m: map<string, T>, v: T)
    requires name !in m && InnermostMapsTo(front, m, v)
    ensures InnermostMapsTo(front + [name], m, v)
  {
    var h := front + [name];
    var i :| 0 <= i < |front| && front[i] in m && m[front[i]] == v && forall k | i < k < |front| :: front[k] !in m;
    assert h[i] == front[i];
    forall k | i < k < |h|
      ensures h[k] !in m
    {
      if k < |front| {
        assert h[k] == front[k];
      }
    }
  }

  /** The value of the innermost (last) name of the history that `m` maps;
      None when no name of the history is mapped. */
  function InnermostMapped<T>(history: seq<string>, m: map<string, T>): (r: Option<T>)
    ensures r.None? <==> forall i | 0 <= i < |history| :: history[i] !in m
    ensures r.Some? ==> InnermostMapsTo(history, m, r.value)
    decreases |history|
  {
    if history == [] then None
    else
      var front, last := history[..|history| - 1], history[|history| - 1];
      if last in m then
        LastIsInnermost(history, m);
        Some(m[last])
      else
        var r := InnermostMapped(front, m);
        assert history == front + [last];
        if r.Some? then
          UnmappedNameKeepsInnermost(front, last, m, r.value);
          r
        else
          assert forall i | 0 <= i < |front| :: front[i] == history[i];
          r
  }

  /** The innermost mapped name is unique, so whatever it maps to is what the
      scan returns. */
  lemma InnermostMappedDecides<T>(history: seq<string>, m: map<string, T>)
    ensures forall v | InnermostMapsTo(history, m, v) :: InnermostMapped(history, m) == Some(v)
  {
    forall v | InnermostMapsTo(history, m, v)
      ensures InnermostMapped(history, m) == Some(v)
    {
      var i :| 0 <= i < |history| && history[i] in m && m[history[i]] == v && forall k | i < k < |history| :: history[k] !in m;
      var r := InnermostMapped(history, m);
      assert r.Some?;
      var j :| 0 <= j < |history| && history[j] in m && m[history[j]] == r.value && forall k | j < k < |history| :: history[k] !in m;
      assert i == j;
    }
  }

  /** FloatingPointOperation of the nested test implementation. */
  function FloatingPointOperation(tests: TestArithmetic, arith: FpImplementation.Arithmetic,
                                  operand1: Bits32, operand2: Bits32, opcode: Opcode,
                                  history: seq<string>): (r: Bits32)
    ensures history != [] && history[|history| - 1] in FunctionOperationMap ==>
      r == tests(FunctionOperationMap[history[|history| - 1]], operand1, operand2, opcode)
    ensures (forall i | 0 <= i < |history| :: history[i] !in FunctionOperationMap) ==>
      r == FpImplementation.NormalFloatingPointOperation(arith, operand1, operand2, opcode)
    ensures forall t | InnermostMapsTo(history, FunctionOperationMap, t) :: r == tests(t, operand1, operand2, opcode)
  {
    InnermostMappedDecides(history, FunctionOperationMap);
    match InnermostMapped(history, FunctionOperationMap)
    case Some(t) => tests(t, operand1, operand2, opcode)
    case None => FpImplementation.NormalFloatingPointOperation(arith, operand1, operand2, opcode)
  }

  /** Unmapped frames are skipped: they neither decide nor block the choice. */
  lemma {:induction false} UnmappedFramesSkipped<T>(outer: seq<string>, inner: seq<string>, m: map<string, T>)
    requires forall i | 0 <= i < |inner| :: inner[i] !in m
    ensures InnermostMapped(outer + inner, m) == InnermostMapped(outer, m)
    decreases |inner|
  {
    if inner == [] {
      assert outer + inner == outer;
    } else {
      var h := outer + inner;
      assert h[|h| - 1] == inner[|inner| - 1];
      assert h[..|h| - 1] == outer + inner[..|inner| - 1];
      UnmappedFramesSkipped(outer, inner[..|inner| - 1], m);
    }
  }

  /** Scenarios of the fixed map (helper1, helper2 -> simple; nested_helper ->
      complex): main -> helper1 -> nested_helper uses the complex operation,
      main -> helper1 -> unmapped the simple one, and a history with no mapped
      function (the empty one included) the normal implementation. */
  lemma Scenarios(tests: TestArithmetic, arith: FpImplementation.Arithmetic, a: Bits32, b: Bits32, opcode: Opcode)
    ensures FloatingPointOperation(tests, arith, a, b, opcode, ["main", "helper1", "nested_helper"]) == tests(ComplexTest, a, b, opcode)
    ensures FloatingPointOperation(tests, arith, a, b, opcode, ["main", "helper1", "unmapped"]) == tests(SimpleTest, a, b, opcode)
    ensures FloatingPointOperation(tests, arith, a, b, opcode, ["main"]) == FpImplementation.NormalFloatingPointOperation(arith, a, b, opcode)
    ensures FloatingPointOperation(tests, arith, a, b, opcode, []) == FpImplementation.NormalFloatingPointOperation(arith, a, b, opcode)
  {
    UnmappedFramesSkipped(["main", "helper1"], ["unmapped"], FunctionOperationMap);
    assert ["main", "helper1"] + ["unmapped"] == ["main", "helper1", "unmapped"];
  }

  /** The scan over the whole history selects exactly what a function-stack
      selector selects after being notified of entry into each function of
      that history: the two formulations of "innermost monitored function
      wins" agree. */
  lemma {:induction false} HistoryScanAgreesWithScopeStack(history: seq<string>, names: map<string, FpImpl>, defaultImpl: FpImpl)
    ensures ScopeStack.SelectFrom(ScopeStack.Run(names, [], ScopeStack.Starts(history)), defaultImpl)
         == (match InnermostMapped(history, names) case Some(impl) => impl case None => defaultImpl)
  {
    ScopeStack.EnteringPushesMonitored(names, [], history);
    FilterTopIsInnermost(history, names, defaultImpl);
  }

  lemma {:induction false} FilterTopIsInnermost(history: seq<string>, names: map<string, FpImpl>, defaultImpl: FpImpl)
    ensures ScopeStack.SelectFrom(ScopeStack.Filter(history, names), defaultImpl)
         == (match InnermostMapped(history, names) case Some(impl) => impl case None => defaultImpl)
    decreases |history|
  {
    if history != [] && history[|history| - 1] !in names {
      FilterTopIsInnermost(history[..|history| - 1], names, defaultImpl);
    }
  }
}
