/** FunctionStackFpSelector: selects the implementation of the innermost
    monitored function on the instrumented application's call stack. */
module FunctionStackSelector {
  import opened FpTypes
  import NameMaps
  import ScopeStack
  import FpSelectors

  class FunctionStackFpSelector {
    /** function_name_map_: filled once by the constructor, never changed. */
    const names: map<string, FpImpl>
    const defaultImpl: FpImpl
    /** fp_impl_stack_, top entry last. */
    var stack: ScopeStack.Stack

    ghost predicate Valid()
      reads this
    {
      ScopeStack.Monitored(stack, names)
    }

    /** This object as a value of the selector interface. */
    function Model(): (s: FpSelectors.FpSelector)
      reads this
      ensures s.FunctionStack? && s.names == names && s.defaultImpl == defaultImpl && s.stack == stack
    {
      FpSelectors.FunctionStack(names, defaultImpl, stack)
    }

    /** Inserts the array's pairs in order without overwriting, so the first
        occurrence of a duplicated name is kept. */
    constructor(table: seq<ScopeEntry>, defaultImpl: FpImpl)
      ensures names == NameMaps.FirstWins(table)
      ensures this.defaultImpl == defaultImpl
      ensures stack == []
      ensures Valid()
    {
      var m := NameMaps.BuildNameMap(table);
      names := m;
      this.defaultImpl := defaultImpl;
      stack := [];
    }

    /** The top entry's implementation, or the default on an empty stack;
        the operation itself is not consulted. */
    function SelectFpImplementation(operation: FpOperation): (impl: FpImpl)
      reads this
      ensures stack == [] ==> impl == defaultImpl
      ensures stack != [] ==> impl == stack[|stack| - 1].impl
      ensures impl == FpSelectors.SelectFpImplementation(Model(), operation)
    {
      if stack == [] then defaultImpl else stack[|stack| - 1].impl
    }

    method OnFunctionStart(name: string)
      requires Valid()
      modifies this
      ensures Valid()
      ensures name in names ==> stack == old(stack) + [ScopeEntry(name, names[name])]
      ensures name !in names ==> stack == old(stack)
      ensures Model() == FpSelectors.OnFunctionStart(old(Model()), name)
    {
      if name in names {
        stack := stack + [ScopeEntry(name, names[name])];
      }
    }

    method OnFunctionEnd(name: string)
      requires Valid()
      modifies this
      ensures Valid()
      ensures old(stack) != [] && old(stack)[|old(stack)| - 1].name == name ==> stack == old(stack)[..|old(stack)| - 1]
      ensures old(stack) == [] || old(stack)[|old(stack)| - 1].name != name ==> stack == old(stack)
      ensures Model() == FpSelectors.OnFunctionEnd(old(Model()), name)
    {
      if stack != [] && stack[|stack| - 1].name == name {
        stack := stack[..|stack| - 1];
      }
    }
  }

  /** With mapping {f: a, g: b}: entering f, h, g selects b; leaving g and h
      selects a again; leaving f selects the default. */
  method WorkedExample(a: FpImpl, b: FpImpl, d: FpImpl, operation: FpOperation)
    returns (insideG: FpImpl, insideF: FpImpl, outside: FpImpl)
    ensures insideG == b && insideF == a && outside == d
  {
    var s := new FunctionStackFpSelector([ScopeEntry("f", a), ScopeEntry("g", b)], d);
    NameMaps.FirstOccurrenceWins([ScopeEntry("f", a), ScopeEntry("g", b)], 0);
    NameMaps.FirstOccurrenceWins([ScopeEntry("f", a), ScopeEntry("g", b)], 1);
    s.OnFunctionStart("f");
    s.OnFunctionStart("h");
    s.OnFunctionStart("g");
    insideG := s.SelectFpImplementation(operation);
    s.OnFunctionEnd("g");
    s.OnFunctionEnd("h");
    insideF := s.SelectFpImplementation(operation);
    s.OnFunctionEnd("f");
    outside := s.SelectFpImplementation(operation);
  }
}
