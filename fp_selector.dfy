/** The FpSelector interface and the selectors that implement it, as one
    tagged union: each variant is one concrete selector, and the dispatch
    functions below play the virtual calls. A variant that does not override
    a callback gets the interface's no-op default. */
module FpSelectors {
  import opened FpTypes
  import ScopeStack
  import NameMaps

  datatype FpSelector =
    /** Always selects its own embedded implementation. */
    | Single(impl: FpImpl)
    /** Selects by the name of the function the operation occurs in. */
    | CurrentFunction(names: map<string, FpImpl>, defaultImpl: FpImpl)
    /** Selects by the innermost monitored function on the call stack. */
    | FunctionStack(names: map<string, FpImpl>, defaultImpl: FpImpl, stack: ScopeStack.Stack)

  /** The implementation to use for `operation`: one the selector was built with. */
  function SelectFpImplementation(s: FpSelector, operation: FpOperation): (impl: FpImpl)
    ensures s.Single? ==> impl == s.impl
    ensures s.CurrentFunction? ==> impl == s.defaultImpl || impl in s.names.Values
    ensures s.FunctionStack? ==> impl == s.defaultImpl || exists e | e in s.stack :: e.impl == impl
  {
    match s
    case Single(impl) => impl
    case CurrentFunction(names, defaultImpl) =>
      if operation.functionName in names then names[operation.functionName] else defaultImpl
    case FunctionStack(_, defaultImpl, stack) => ScopeStack.SelectFrom(stack, defaultImpl)
  }

  /** No selector overrides the start-of-program callback: every selection,
      the selector's invariant and its response to any later entry and exit
      notifications are as before. */
  function StartCallback(s: FpSelector): (r: FpSelector)
    ensures forall operation :: SelectFpImplementation(r, operation) == SelectFpImplementation(s, operation)
    ensures Valid(r) == Valid(s)
    ensures forall events :: RunEvents(r, events) == RunEvents(s, events)
  {
    s
  }

  /** No selector overrides the end-of-program callback, whatever the exit
      code: every selection, the invariant and the response to later
      notifications are as before. */
  function ExitCallback(s: FpSelector, code: int): (r: FpSelector)
    ensures forall operation :: SelectFpImplementation(r, operation) == SelectFpImplementation(s, operation)
    ensures Valid(r) == Valid(s)
    ensures forall events :: RunEvents(r, events) == RunEvents(s, events)
  {
    s
  }

  function OnFunctionStart(s: FpSelector, name: string): (r: FpSelector)
    ensures !s.FunctionStack? ==> r == s
    ensures s.FunctionStack? ==> r.FunctionStack? && r.names == s.names && r.defaultImpl == s.defaultImpl
    ensures s.FunctionStack? && name in s.names ==> r.stack == s.stack + [ScopeEntry(name, s.names[name])]
    ensures s.FunctionStack? && name !in s.names ==> r == s
  {
    match s
    case FunctionStack(names, defaultImpl, stack) =>
      FunctionStack(names, defaultImpl, ScopeStack.PushIfMapped(stack, names, name))
    case _ => s
  }

  function OnFunctionEnd(s: FpSelector, name: string): (r: FpSelector)
    ensures !s.FunctionStack? ==> r == s
    ensures s.FunctionStack? ==> r.FunctionStack? && r.names == s.names && r.defaultImpl == s.defaultImpl
    ensures s.FunctionStack? && s.stack != [] && s.stack[|s.stack| - 1].name == name ==>
      r.stack == s.stack[..|s.stack| - 1]
    ensures s.FunctionStack? && (s.stack == [] || s.stack[|s.stack| - 1].name != name) ==> r == s
  {
    match s
    case FunctionStack(names, defaultImpl, stack) =>
      FunctionStack(names, defaultImpl, ScopeStack.PopIfTop(stack, name))
    case _ => s
  }

  /** The selector after a sequence of entry/exit notifications: it stays the
      same kind of selector, and a function-stack selector keeps its map and
      default. */
  function RunEvents(s: FpSelector, events: seq<ScopeStack.Event>): (r: FpSelector)
    ensures r.FunctionStack? <==> s.FunctionStack?
    ensures s.FunctionStack? ==> r.names == s.names && r.defaultImpl == s.defaultImpl
    decreases |events|
  {
    if events == [] then s
    else
      var next := match events[0]
        case Start(n) => OnFunctionStart(s, n)
        case End(n) => OnFunctionEnd(s, n);
      RunEvents(next, events[1..])
  }

  /** One more notification at the end of a run acts on the run's result. */
  lemma {:induction false} RunEventsSnoc(s: FpSelector, events: seq<ScopeStack.Event>, e: ScopeStack.Event)
    ensures RunEvents(s, events + [e]) == RunEvents(RunEvents(s, events), [e])
    decreases |events|
  {
    if events != [] {
      assert (events + [e])[0] == events[0] && (events + [e])[1..] == events[1..] + [e];
      var next := match events[0]
        case Start(n) => OnFunctionStart(s, n)
        case End(n) => OnFunctionEnd(s, n);
      RunEventsSnoc(next, events[1..], e);
    } else {
      assert events + [e] == [e];
    }
  }

  /** A selector whose scope stack only holds monitored names with their
      configured implementations (every reachable FunctionStack selector). */
  ghost predicate Valid(s: FpSelector)
  {
    s.FunctionStack? ==> ScopeStack.Monitored(s.stack, s.names)
  }

  /** The selectors without callbacks are not affected by any notification. */
  lemma {:induction false} StatelessIgnoresEvents(s: FpSelector, events: seq<ScopeStack.Event>, operation: FpOperation)
    requires !s.FunctionStack?
    ensures RunEvents(s, events) == s
    ensures SelectFpImplementation(RunEvents(s, events), operation) == SelectFpImplementation(s, operation)
    decreases |events|
  {
    if events != [] {
      StatelessIgnoresEvents(s, events[1..], operation);
    }
  }

  /** A function-stack selector moves exactly like its scope stack. */
  lemma {:induction false} FunctionStackRunsScopeStack(names: map<string, FpImpl>, defaultImpl: FpImpl,
                                                      stack: ScopeStack.Stack, events: seq<ScopeStack.Event>)
    ensures RunEvents(FunctionStack(names, defaultImpl, stack), events)
         == FunctionStack(names, defaultImpl, ScopeStack.Run(names, stack, events))
    decreases |events|
  {
    if events != [] {
      var next := ScopeStack.Step(names, stack, events[0]);
      FunctionStackRunsScopeStack(names, defaultImpl, next, events[1..]);
    }
  }

  /** Balance: a well-nested run of function entries and exits returns every
      valid selector to the state it started in, so selection afterwards is
      what it was before. */
  lemma WellNestedRestoresSelector(s: FpSelector, calls: seq<ScopeStack.Call>)
    requires Valid(s)
    ensures RunEvents(s, ScopeStack.Events(calls)) == s
  {
    if s.FunctionStack? {
      FunctionStackRunsScopeStack(s.names, s.defaultImpl, s.stack, ScopeStack.Events(calls));
      ScopeStack.WellNestedRestoresStack(s.names, s.stack, calls);
    } else {
      StatelessIgnoresEvents(s, ScopeStack.Events(calls), FpOperation(ADDSS, 0, 0, []));
    }
  }

  /** Notifications keep a selector valid. */
  lemma RunEventsKeepsValid(s: FpSelector, events: seq<ScopeStack.Event>)
    requires Valid(s)
    ensures Valid(RunEvents(s, events))
  {
    if s.FunctionStack? {
      FunctionStackRunsScopeStack(s.names, s.defaultImpl, s.stack, events);
      ScopeStack.RunKeepsMonitored(s.names, s.stack, events);
    } else {
      StatelessIgnoresEvents(s, events, FpOperation(ADDSS, 0, 0, []));
    }
  }

  /** The current-function selector looks only at the operation's function
      name: opcode and operands never change its choice. */
  lemma CurrentFunctionDependsOnlyOnName(s: FpSelector, a: FpOperation, b: FpOperation)
    requires s.CurrentFunction?
    requires a.functionName == b.functionName
    ensures SelectFpImplementation(s, a) == SelectFpImplementation(s, b)
    ensures a.functionName in s.names ==> SelectFpImplementation(s, a) == s.names[a.functionName]
    ensures a.functionName !in s.names ==> SelectFpImplementation(s, a) == s.defaultImpl
  {
  }

  /** The stack selectors ignore the operation altogether. */
  lemma FunctionStackIgnoresOperation(s: FpSelector, a: FpOperation, b: FpOperation)
    requires s.FunctionStack?
    ensures SelectFpImplementation(s, a) == SelectFpImplementation(s, b)
    ensures s.stack == [] ==> SelectFpImplementation(s, a) == s.defaultImpl
    ensures s.stack != [] ==> SelectFpImplementation(s, a) == s.stack[|s.stack| - 1].impl
  {
  }

  /** Builds a current-function selector from a (name, implementation) array;
      the constructor's loop inserts without overwriting. */
  method NewCurrentFunctionFpSelector(table: seq<ScopeEntry>, defaultImpl: FpImpl) returns (s: FpSelector)
    ensures s == CurrentFunction(NameMaps.FirstWins(table), defaultImpl)
  {
    var names := NameMaps.BuildNameMap(table);
    s := CurrentFunction(names, defaultImpl);
  }

  /** With a duplicated name in the constructor array, the first occurrence
      decides what the current-function selector returns; a name absent from
      the array selects the default. */
  lemma {:induction false} CurrentFunctionFirstOccurrenceWins(table: seq<ScopeEntry>, defaultImpl: FpImpl, i: nat, operation: FpOperation)
    requires i < |table| && operation.functionName == table[i].name
    requires forall j | 0 <= j < i :: table[j].name != table[i].name
    ensures SelectFpImplementation(CurrentFunction(NameMaps.FirstWins(table), defaultImpl), operation) == table[i].impl
  {
    NameMaps.FirstOccurrenceWins(table, i);
  }

  lemma CurrentFunctionUnlistedSelectsDefault(table: seq<ScopeEntry>, defaultImpl: FpImpl, operation: FpOperation)
    requires forall j | 0 <= j < |table| :: table[j].name != operation.functionName
    ensures SelectFpImplementation(CurrentFunction(NameMaps.FirstWins(table), defaultImpl), operation) == defaultImpl
  {
  }
}
