/** The scope stack shared by the scope-stack selectors: entries are pushed
    on function entry only for monitored names and popped on function exit only
    when the top entry carries the exiting name. Top of stack is the LAST element. */
module ScopeStack {
  import opened FpTypes

  type Stack = seq<ScopeEntry>

  /** A function-entry or function-exit notification. */
  datatype Event = Start(name: string) | End(name: string)

  /** A completed call: the function entered, the calls made while it ran,
      then the function exited. A seq<Call> is a well-nested run of events. */
  datatype Call = Call(name: string, body: seq<Call>)

  /** The notifications a sequence of completed calls produces, in order. */
  function Events(calls: seq<Call>): seq<Event>
    decreases calls
  {
    if calls == [] then []
    else [Start(calls[0].name)] + Events(calls[0].body) + [End(calls[0].name)] + Events(calls[1..])
  }

  /** Selection from a scope stack: the top entry's implementation, or the
      default when the stack is empty. */
  function SelectFrom(stack: Stack, defaultImpl: FpImpl): FpImpl
  {
    if stack == [] then defaultImpl else stack[|stack| - 1].impl
  }

  /** OnFunctionStart of a map-configured selector: the entries below are
      kept, and one entry (name, names[name]) goes on top exactly when the
      name is mapped. */
  function PushIfMapped(stack: Stack, names: map<string, FpImpl>, name: string): (r: Stack)
    ensures |r| == (if name in names then |stack| + 1 else |stack|)
    ensures r[..|stack|] == stack
    ensures name in names ==> r[|stack|] == ScopeEntry(name, names[name])
  {
    if name in names then stack + [ScopeEntry(name, names[name])] else stack
  }

  /** OnFunctionEnd of every scope-stack selector: the stack loses its top
      entry exactly when that entry carries the name, and is otherwise kept. */
  function PopIfTop(stack: Stack, name: string): (r: Stack)
    ensures |r| == (if stack != [] && stack[|stack| - 1].name == name then |stack| - 1 else |stack|)
    ensures r == stack[..|r|]
  {
    if stack != [] && stack[|stack| - 1].name == name then stack[..|stack| - 1] else stack
  }

  /** One notification: an entry never removes an entry and an exit never
      adds one; either way at most one entry changes, on top. */
  function Step(names: map<string, FpImpl>, stack: Stack, e: Event): (r: Stack)
    ensures e.Start? ==> |stack| <= |r| <= |stack| + 1 && r[..|stack|] == stack
    ensures e.End? ==> |stack| - 1 <= |r| <= |stack| && r == stack[..|r|]
  {
    match e
    case Start(n) => PushIfMapped(stack, names, n)
    case End(n) => PopIfTop(stack, n)
  }

  /** The stack after a sequence of notifications: each one moves the depth
      by at most one. */
  function Run(names: map<string, FpImpl>, stack: Stack, events: seq<Event>): (r: Stack)
    ensures |stack| - |events| <= |r| <= |stack| + |events|
    decreases |events|
  {
    if events == [] then stack else Run(names, Step(names, stack, events[0]), events[1..])
  }

  /** Every entry names a monitored function with its configured implementation. */
  ghost predicate Monitored(stack: Stack, names: map<string, FpImpl>)
  {
    forall i | 0 <= i < |stack| :: stack[i].name in names && names[stack[i].name] == stack[i].impl
  }

  lemma StepKeepsMonitored(names: map<string, FpImpl>, stack: Stack, e: Event)
    requires Monitored(stack, names)
    ensures Monitored(Step(names, stack, e), names)
  {
  }

  lemma {:induction false} RunConcat(names: map<string, FpImpl>, stack: Stack, a: seq<Event>, b: seq<Event>)
    ensures Run(names, stack, a + b) == Run(names, Run(names, stack, a), b)
    decreases |a|
  {
    if a != [] {
      assert (a + b)[0] == a[0];
      assert (a + b)[1..] == a[1..] + b;
      RunConcat(names, Step(names, stack, a[0]), a[1..], b);
    } else {
      assert a + b == b;
    }
  }

  lemma {:induction false} RunKeepsMonitored(names: map<string, FpImpl>, stack: Stack, events: seq<Event>)
    requires Monitored(stack, names)
    ensures Monitored(Run(names, stack, events), names)
    decreases |events|
  {
    if events != [] {
      StepKeepsMonitored(names, stack, events[0]);
      RunKeepsMonitored(names, Step(names, stack, events[0]), events[1..]);
    }
  }

  /** Scope balance: a well-nested run of entries and exits, monitored or not,
      leaves the stack exactly as it found it. */
  lemma {:induction false} WellNestedRestoresStack(names: map<string, FpImpl>, stack: Stack, calls: seq<Call>)
    requires Monitored(stack, names)
    ensures Run(names, stack, Events(calls)) == stack
    decreases calls
  {
    if calls != [] {
      var c := calls[0];
      var enter, inner, exit, rest := [Start(c.name)], Events(c.body), [End(c.name)], Events(calls[1..]);
      assert Events(calls) == enter + inner + exit + rest;
      RunConcat(names, stack, enter + inner + exit, rest);
      RunConcat(names, stack, enter + inner, exit);
      RunConcat(names, stack, enter, inner);
      var pushed := Run(names, stack, enter);
      assert pushed == PushIfMapped(stack, names, c.name);
      StepKeepsMonitored(names, stack, Start(c.name));
      WellNestedRestoresStack(names, pushed, c.body);
      assert Run(names, pushed, exit) == PopIfTop(pushed, c.name);
      if c.name !in names && stack != [] {
        assert stack[|stack| - 1].name in names;
      }
      assert Run(names, stack, enter + inner + exit) == stack;
      WellNestedRestoresStack(names, stack, calls[1..]);
    }
  }

  /** Only the monitored names of a sequence, in order, as stack entries. */
  function Filter(history: seq<string>, names: map<string, FpImpl>): (s: Stack)
    ensures Monitored(s, names)
    decreases |history|
  {
    if history == [] then []
    else
      var last := history[|history| - 1];
      Filter(history[..|history| - 1], names) + (if last in names then [ScopeEntry(last, names[last])] else [])
  }

  /** Entering each function of a call history in turn pushes exactly the
      monitored ones, in nesting order. */
  lemma {:induction false} EnteringPushesMonitored(names: map<string, FpImpl>, stack: Stack, history: seq<string>)
    ensures Run(names, stack, Starts(history)) == stack + Filter(history, names)
    decreases |history|
  {
    if history != [] {
      var front, last := history[..|history| - 1], history[|history| - 1];
      assert history == front + [last];
      StartsConcat(front, [last]);
      RunConcat(names, stack, Starts(front), Starts([last]));
      EnteringPushesMonitored(names, stack, front);
      assert Starts([last]) == [Start(last)];
    }
  }

  /** One entry notification per name of the history, outermost first. */
  function Starts(history: seq<string>): (r: seq<Event>)
    ensures |r| == |history|
    ensures forall i | 0 <= i < |history| :: r[i] == Start(history[i])
  {
    seq(|history|, i requires 0 <= i < |history| => Start(history[i]))
  }

  lemma StartsConcat(a: seq<string>, b: seq<string>)
    ensures Starts(a + b) == Starts(a) + Starts(b)
  {
  }
}
