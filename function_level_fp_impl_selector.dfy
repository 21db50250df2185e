/** FunctionLevelFloatingPointImplementationSelector: the scope-stack selector
    configured with an ordered, constant name -> implementation map. */
module FunctionLevelImplSelector {
  import opened FpTypes
  import ScopeStack

  class FunctionLevelFloatingPointImplementationSelector {
    /** function_name_map_: const, so no callback can change it. */
    const names: map<string, FpImpl>
    const defaultImpl: FpImpl
    /** floating_point_impl_stack_, top entry last. */
    var stack: ScopeStack.Stack

    ghost predicate Valid()
      reads this
    {
      ScopeStack.Monitored(stack, names)
    }

    constructor(names: map<string, FpImpl>, defaultImpl: FpImpl)
      ensures this.names == names && this.defaultImpl == defaultImpl && stack == [] && Valid()
    {
      this.names := names;
      this.defaultImpl := defaultImpl;
      stack := [];
    }

    function SelectFloatingPointImplementation(): (impl: FpImpl)
      reads this
      ensures stack != [] ==> impl == stack[|stack| - 1].impl
      ensures stack == [] ==> impl == defaultImpl
      ensures Valid() && impl != defaultImpl ==> impl in names.Values
    {
      if stack != [] then stack[|stack| - 1].impl else defaultImpl
    }

    method OnFunctionStart(name: string)
      requires Valid()
      modifies this
      ensures Valid()
      ensures stack == ScopeStack.PushIfMapped(old(stack), names, name)
    {
      if name in names {
        stack := stack + [ScopeEntry(name, names[name])];
      }
    }

    method OnFunctionEnd(name: string)
      requires Valid()
      modifies this
      ensures Valid()
      ensures stack == ScopeStack.PopIfTop(old(stack), name)
    {
      if stack != [] && stack[|stack| - 1].name == name {
        stack := stack[..|stack| - 1];
      }
    }

    /** Delivers a sequence of notifications, one callback per event. */
    method Replay(events: seq<ScopeStack.Event>)
      requires Valid()
      modifies this
      ensures Valid()
      ensures stack == ScopeStack.Run(names, old(stack), events)
    {
      for i := 0 to |events|
        invariant Valid()
        invariant stack == ScopeStack.Run(names, old(stack), events[..i])
      {
        ScopeStack.RunConcat(names, old(stack), events[..i], [events[i]]);
        assert events[..i + 1] == events[..i] + [events[i]];
        match events[i] {
          case Start(n) => OnFunctionStart(n);
          case End(n) => OnFunctionEnd(n);
        }
      }
      assert events[..|events|] == events;
    }

    /** Running a well-nested set of calls returns the stack to its prior
        contents, and with it the selection. */
    method RunCalls(calls: seq<ScopeStack.Call>)
      requires Valid()
      modifies this
      ensures Valid()
      ensures stack == old(stack)
      ensures SelectFloatingPointImplementation() == old(SelectFloatingPointImplementation())
    {
      Replay(ScopeStack.Events(calls));
      ScopeStack.WellNestedRestoresStack(names, old(stack), calls);
    }
  }
}
