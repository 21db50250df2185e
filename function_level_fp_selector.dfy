/** FunctionLevelFpSelector: the scope-stack selector that keeps the
    (name, implementation) array as given and, on function entry, pushes
    one entry for EVERY array element carrying the entered name. */
module FunctionLevelSelector {
  import opened FpTypes
  import NameMaps
  import ScopeStack
  import Utils

  /** The array elements carrying `name`, in array order. */
  function Matching(table: seq<ScopeEntry>, name: string): (r: seq<ScopeEntry>)
    ensures |r| <= |table|
    decreases |table|
  {
    if table == [] then []
    else
      var last := table[|table| - 1];
      Matching(table[..|table| - 1], name) + (if last.name == name then [last] else [])
  }

  /** Only array elements carrying the name are pushed. */
  lemma {:induction false} MatchingSound(table: seq<ScopeEntry>, name: string)
    ensures forall e | e in Matching(table, name) :: e.name == name && e in table
    decreases |table|
  {
    if table != [] {
      var front, last := table[..|table| - 1], table[|table| - 1];
      var matched := Matching(front, name);
      MatchingSound(front, name);
      forall e | e in Matching(table, name)
        ensures e.name == name && e in table
      {
        if e in matched {
          var i :| 0 <= i < |front| && front[i] == e;
          assert table[i] == e;
        }
      }
    }
  }

  /** Nothing is pushed exactly when no array element carries the name. */
  lemma {:induction false} MatchingEmptyIff(table: seq<ScopeEntry>, name: string)
    ensures Matching(table, name) == [] <==> forall i | 0 <= i < |table| :: table[i].name != name
    decreases |table|
  {
    if table != [] {
      var front, last := table[..|table| - 1], table[|table| - 1];
      MatchingEmptyIff(front, name);
      assert forall i | 0 <= i < |front| :: front[i] == table[i];
    }
  }

  /** The stack after entering `name`: the entries below are kept, and every
      entry pushed is an array element carrying the name. */
  function Enter(table: seq<ScopeEntry>, stack: ScopeStack.Stack, name: string): (r: ScopeStack.Stack)
    ensures |stack| <= |r| <= |stack| + |table| && r[..|stack|] == stack
    ensures forall i | |stack| <= i < |r| :: r[i].name == name && r[i] in table
  {
    MatchingSound(table, name);
    var matched := Matching(table, name);
    assert forall i | |stack| <= i < |stack| + |matched| :: (stack + matched)[i] == matched[i - |stack|];
    stack + matched
  }

  /** The stack after a sequence of notifications: only exits shrink it, by
      at most one entry each. */
  function Run(table: seq<ScopeEntry>, stack: ScopeStack.Stack, events: seq<ScopeStack.Event>): (r: ScopeStack.Stack)
    ensures |stack| - |events| <= |r|
    decreases |events|
  {
    if events == [] then stack
    else
      var next := match events[0]
        case Start(n) => Enter(table, stack, n)
        case End(n) => ScopeStack.PopIfTop(stack, n);
      Run(table, next, events[1..])
  }

  ghost predicate NoDuplicateNames(table: seq<ScopeEntry>)
  {
    forall i, j | 0 <= i < j < |table| :: table[i].name != table[j].name
  }

  /** With duplicates, the LAST array element carrying the name ends up on top. */
  lemma {:induction false} LastMatchOnTop(table: seq<ScopeEntry>, name: string, j: nat)
    requires j < |table| && table[j].name == name
    requires forall k | j < k < |table| :: table[k].name != name
    ensures Matching(table, name) != []
    ensures Matching(table, name)[|Matching(table, name)| - 1] == table[j]
    decreases |table|
  {
    var front := table[..|table| - 1];
    if j < |table| - 1 {
      assert front[j] == table[j];
      LastMatchOnTop(front, name, j);
    }
  }

  /** Entering pushes every array element carrying the name. */
  lemma {:induction false} EveryMatchPushed(table: seq<ScopeEntry>, name: string, j: nat)
    requires j < |table| && table[j].name == name
    ensures table[j] in Matching(table, name)
    decreases |table|
  {
    var front := table[..|table| - 1];
    if j < |table| - 1 {
      assert front[j] == table[j];
      EveryMatchPushed(front, name, j);
    }
  }

  /** Without duplicates, entering pushes exactly what the map-based selectors
      push, so this variant behaves like them. */
  lemma {:induction false} NoDuplicatesMatchesMap(table: seq<ScopeEntry>, name: string)
    requires NoDuplicateNames(table)
    ensures Matching(table, name) == (if name in NameMaps.FirstWins(table) then [ScopeEntry(name, NameMaps.FirstWins(table)[name])] else [])
    decreases |table|
  {
    if table != [] {
      var front := table[..|table| - 1];
      var last := table[|table| - 1];
      assert NoDuplicateNames(front) by {
        forall i, j | 0 <= i < j < |front| ensures front[i].name != front[j].name {
          assert front[i] == table[i] && front[j] == table[j];
        }
      }
      NoDuplicatesMatchesMap(front, name);
      if last.name == name {
        assert Matching(front, name) == [] by {
          forall i | 0 <= i < |front| ensures front[i].name != name {
            assert front[i] == table[i];
          }
          MatchingEmptyIff(front, name);
        }
        NameMaps.FirstOccurrenceWins(table, |table| - 1);
      }
    }
  }

  lemma {:induction false} NoDuplicatesRunsLikeMap(table: seq<ScopeEntry>, stack: ScopeStack.Stack, events: seq<ScopeStack.Event>)
    requires NoDuplicateNames(table)
    ensures Run(table, stack, events) == ScopeStack.Run(NameMaps.FirstWins(table), stack, events)
    decreases |events|
  {
    if events != [] {
      var names := NameMaps.FirstWins(table);
      var next := ScopeStack.Step(names, stack, events[0]);
      match events[0] {
        case Start(n) =>
          NoDuplicatesMatchesMap(table, n);
          assert Enter(table, stack, n) == next;
        case End(n) =>
          assert ScopeStack.PopIfTop(stack, n) == next;
      }
      assert Run(table, stack, events) == Run(table, next, events[1..]);
      NoDuplicatesRunsLikeMap(table, next, events[1..]);
    }
  }

  /** With no duplicated name in the array, a well-nested run of entries and
      exits leaves the stack as it found it. */
  lemma Balanced(table: seq<ScopeEntry>, stack: ScopeStack.Stack, calls: seq<ScopeStack.Call>)
    requires NoDuplicateNames(table)
    requires ScopeStack.Monitored(stack, NameMaps.FirstWins(table))
    ensures Run(table, stack, ScopeStack.Events(calls)) == stack
  {
    NoDuplicatesRunsLikeMap(table, stack, ScopeStack.Events(calls));
    ScopeStack.WellNestedRestoresStack(NameMaps.FirstWins(table), stack, calls);
  }

  /** A duplicated name breaks balance: entering and leaving f once with
      array [(f, a), (f, b)] leaves (f, a) behind. */
  lemma DuplicateNameUnbalanced(a: FpImpl, b: FpImpl)
    ensures Run([ScopeEntry("f", a), ScopeEntry("f", b)], [], ScopeStack.Events([ScopeStack.Call("f", [])]))
         == [ScopeEntry("f", a)]
  {
    var table := [ScopeEntry("f", a), ScopeEntry("f", b)];
    assert table[..1] == [ScopeEntry("f", a)];
    assert Matching(table, "f") == [ScopeEntry("f", a), ScopeEntry("f", b)];
    assert ScopeStack.Events([ScopeStack.Call("f", [])]) == [ScopeStack.Start("f"), ScopeStack.End("f")];
  }

  /** Scanning one more array element appends it when it carries the name. */
  lemma MatchingExtends(table: seq<ScopeEntry>, i: nat, name: string)
    requires i < |table|
    ensures Matching(table[..i + 1], name)
         == Matching(table[..i], name) + (if table[i].name == name then [table[i]] else [])
  {
    var prefix := table[..i + 1];
    assert prefix[..i] == table[..i] && prefix[i] == table[i];
  }

  class FunctionLevelFpSelector {
    /** function_name_map_: the caller's array, read but never written. */
    const table: seq<ScopeEntry>
    const defaultImpl: FpImpl
    /** fp_impl_stack_, top entry last. */
    var stack: ScopeStack.Stack

    constructor(table: seq<ScopeEntry>, defaultImpl: FpImpl)
      ensures this.table == table && this.defaultImpl == defaultImpl && stack == []
    {
      this.table := table;
      this.defaultImpl := defaultImpl;
      stack := [];
    }

    function SelectFpImplementation(): (impl: FpImpl)
      reads this
      ensures stack == [] ==> impl == defaultImpl
      ensures stack != [] ==> impl == stack[|stack| - 1].impl
      ensures impl == ScopeStack.SelectFrom(stack, defaultImpl)
    {
      if stack == [] then defaultImpl else stack[|stack| - 1].impl
    }

    method OnFunctionStart(name: string)
      modifies this
      ensures stack == Enter(table, old(stack), name)
    {
      for i := 0 to |table|
        invariant stack == old(stack) + Matching(table[..i], name)
      {
        var entry := table[i];
        ghost var matched := Matching(table[..i], name);
        MatchingExtends(table, i, name);
        if entry.name == name {
          Utils.AppendAssoc(old(stack), matched, [entry]);
          stack := stack + [entry];
        } else {
          assert matched + [] == matched;
        }
      }
      assert table[..|table|] == table;
    }

    method OnFunctionEnd(name: string)
      modifies this
      ensures stack == ScopeStack.PopIfTop(old(stack), name)
      ensures |old(stack)| - 1 <= |stack| <= |old(stack)|
    {
      if stack != [] && stack[|stack| - 1].name == name {
        stack := stack[..|stack| - 1];
      }
    }
  }
}
