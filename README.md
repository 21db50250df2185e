# ftrace: dynamic-scope selection of floating-point implementations

ftrace is a Pin tool. It intercepts the SSE scalar single-precision arithmetic
instructions (ADDSS, SUBSS, MULSS, DIVSS) of a running program. For each one it
can do three things:

- replace it with a user-supplied floating-point implementation;
- print a two-line trace record;
- count mantissa bits or per-function operations.

The heart of the tool is the **selector**. It decides which implementation
computes each intercepted operation, and its decision can depend on which
functions are currently running. The scope-stack selectors keep a stack of
(function name, implementation) pairs:

- function entry pushes an entry for a monitored name;
- function exit pops the top entry when its name matches;
- selection returns the implementation on top of the stack, or a default when
  the stack is empty.

This project models the following as Dafny classes and functions:

- the selectors and their interface defaults;
- the name-to-selector registry;
- the interception step, with the register context as a map and the
  implementations uninterpreted;
- the legacy replacement-type stack;
- the integer and text side logic: opcode classification, handler dispatch,
  the mantissa-bits counter, the per-thread per-function counters, the trace
  record format, and the validator for that format.

The project proves properties of the model:

- balance under well-nested entry/exit events;
- the innermost mapped function wins;
- first-occurrence-wins construction;
- round trips of the hexadecimal rendering;
- acceptance of every printer output by the validator.

Every selector implements one interface. That interface is modelled as the
tagged union `FpSelectors.FpSelector`, and its dispatch functions play the
virtual calls. Each in-place class exposes `Model()`, or a stack field, and its
methods are proved to move that state exactly like the pure step functions in
`ScopeStack`.

## Model

| member | source | states |
|---|---|---|
| Utils.IsFpInstruction | src/pintool/utils.cpp:7-18 | true exactly for ADDSS, SUBSS, MULSS and DIVSS; the answer depends only on the opcode |
| FpImplementation.HandlerFor | src/client_lib/interfaces/fp_implementation.cpp:13-21 | each arithmetic opcode dispatches to its own handler, in both directions |
| FpImplementation.PerformOperation | src/client_lib/interfaces/fp_implementation.cpp:12-28 | returns iff the opcode is arithmetic, with the handler's result for the unchanged operation; any other opcode exits with status 1 |
| FpImplementation.NormalFloatingPointOperation | src/shared/normal_floating_point_implementation.cpp:12-29 | the four opcodes compute with their operator; any other opcode answers operand1 unchanged |
| FpImplementation.UnknownOpcodeHandling | src/shared/normal_floating_point_implementation.cpp:24-27 | on an unknown opcode the newer dispatch exits with 1 while the older implementation returns operand1 |
| NameMaps.FirstWins | src/client_lib/registry/register_function_stack_fp_selector.h:38-40 | the map built by inserting the array without overwriting holds exactly the array's names |
| NameMaps.FirstOccurrenceWins | src/client_lib/registry/register_function_stack_fp_selector.h:38-40 | with a duplicated name, the first occurrence's implementation is kept |
| NameMaps.BuildNameMap | src/client_lib/registry/register_current_function_fp_selector.h:37-39 | the constructor loop builds exactly the first-wins map |
| ScopeStack.PushIfMapped | src/client_lib/registry/register_function_stack_fp_selector.h:51-56 | OnFunctionStart: the entries below are kept, and (name, map[name]) goes on top exactly when the name is a key |
| ScopeStack.PopIfTop | src/client_lib/registry/register_function_stack_fp_selector.h:58-63 | OnFunctionEnd: the top entry is removed exactly when the stack is non-empty and the top carries the name; otherwise the stack is kept |
| ScopeStack.Step | src/client_lib/registry/register_function_stack_fp_selector.h:51-63 | an entry never removes an entry and an exit never adds one; at most the top entry changes |
| ScopeStack.Run | src/client_lib/registry/register_function_stack_fp_selector.h:51-63 | the stack after a sequence of notifications; each notification moves the depth by at most one |
| ScopeStack.StepKeepsMonitored | src/client_lib/registry/register_function_stack_fp_selector.h:51-63 | every stack entry stays a monitored name paired with its configured implementation |
| ScopeStack.RunConcat | src/client_lib/registry/register_function_stack_fp_selector.h:51-63 | running two event sequences one after the other is running their concatenation |
| ScopeStack.RunKeepsMonitored | src/client_lib/registry/register_function_stack_fp_selector.h:51-63 | any event sequence keeps the stack monitored |
| ScopeStack.WellNestedRestoresStack | src/client_lib/registry/register_function_stack_fp_selector.h:51-63 | a well-nested run, with any mix of mapped and unmapped names, leaves a monitored stack as it was |
| ScopeStack.Filter | src/client_lib/registry/register_function_stack_fp_selector.h:51-56 | the monitored entries of a call history, in call order |
| ScopeStack.EnteringPushesMonitored | src/client_lib/registry/register_function_stack_fp_selector.h:51-56 | entering each function of a history pushes exactly the history's monitored names with their implementations |
| ScopeStack.Starts | src/pintool/replace_fp_operations.cpp:144-149 | the entry events of a call history, one per function, in order |
| ScopeStack.StartsConcat | src/pintool/replace_fp_operations.cpp:144-149 | the entry events of a concatenated history are the concatenated entry events |
| FpSelectors.SelectFpImplementation | src/client_lib/registry/register_function_stack_fp_selector.h:43-49 | selection returns one of the selector's own implementations: the fixed one, a mapped one or the default |
| FpSelectors.StartCallback | src/client_lib/interfaces/fp_selector.h:21 | the default start callback changes nothing a caller can observe: every selection, the selector's invariant and its response to any later entry/exit notifications are as before |
| FpSelectors.ExitCallback | src/client_lib/interfaces/fp_selector.h:27 | the default exit callback, for any exit code, changes no selection, keeps the invariant and the response to later notifications |
| FpSelectors.OnFunctionStart | src/client_lib/interfaces/fp_selector.h:29 | only the function-stack selector reacts, pushing iff the name is mapped; the others keep the no-op default |
| FpSelectors.OnFunctionEnd | src/client_lib/interfaces/fp_selector.h:31 | only the function-stack selector reacts, popping iff the top name matches; the others keep the no-op default |
| FpSelectors.RunEvents | src/pintool/replace_fp_operations.cpp:84-100 | the selector after the entry and exit hooks have run; it stays the same kind of selector, and a function-stack selector keeps its map and default |
| FpSelectors.RunEventsSnoc | src/pintool/replace_fp_operations.cpp:84-100 | one more notification acts on the state the earlier ones left |
| FpSelectors.StatelessIgnoresEvents | src/client_lib/registry/register_single_fp_implementation_selector.h:16-25 | the single and current-function selectors are unchanged by any entry/exit events, and so is their selection |
| FpSelectors.FunctionStackRunsScopeStack | src/client_lib/registry/register_function_stack_fp_selector.h:51-63 | a function-stack selector moves exactly like its scope stack |
| FpSelectors.WellNestedRestoresSelector | src/client_lib/registry/register_function_stack_fp_selector.h:51-63 | a well-nested run returns every valid selector to its prior state |
| FpSelectors.RunEventsKeepsValid | src/client_lib/registry/register_function_stack_fp_selector.h:51-63 | events keep the function-stack invariant |
| FpSelectors.CurrentFunctionDependsOnlyOnName | src/client_lib/registry/register_current_function_fp_selector.h:42-48 | equal function names give equal selections; a mapped name gives map[name]; an unmapped name gives the default |
| FpSelectors.FunctionStackIgnoresOperation | src/client_lib/registry/register_function_stack_fp_selector.h:43-49 | the operation argument is ignored; an empty stack selects the default, otherwise the top entry's implementation |
| FpSelectors.NewCurrentFunctionFpSelector | src/client_lib/registry/register_current_function_fp_selector.h:33-40 | the constructor builds the first-wins map with the given default |
| FpSelectors.CurrentFunctionFirstOccurrenceWins | src/client_lib/registry/register_current_function_fp_selector.h:37-39 | with duplicates in the array, the first occurrence decides the selection |
| FpSelectors.CurrentFunctionUnlistedSelectsDefault | src/client_lib/registry/register_current_function_fp_selector.h:47 | a name absent from the array selects the default |
| FpSelectorRegistry.Lookup | src/shared/internal/fp_selector_registry.cpp:27-38 | returns the stored selector iff the name is registered; otherwise exits with status 1 |
| FpSelectorRegistry.LookupAfterRegister | src/shared/internal/fp_selector_registry.cpp:17-38 | after registering s under n, looking up n yields s and every other name's lookup is unchanged |
| FpSelectorRegistry.Registry.constructor | src/client_lib/registry/internal/fp_selector_registry.cpp:14 | the registry starts empty |
| FpSelectorRegistry.Registry.RegisterFpSelector | src/client_lib/registry/internal/fp_selector_registry.cpp:19-27 | stores s under name, overwriting with a warning iff the name was taken; other entries unchanged; a lookup of name then returns s |
| FpSelectorRegistry.Registry.GetFpSelectorOrDie | src/client_lib/registry/internal/fp_selector_registry.cpp:29-40 | a read of the map: returns the entry iff registered, else exit status 1 |
| FpSelectorRegistry.RegisterSingleFpImplementationSelector | src/client_lib/registry/register_single_fp_implementation_selector.h:32-34 | registers a single selector under the name, after which the name looks it up |
| FpSelectorRegistry.RegisterCurrentFunctionFpSelector | src/client_lib/registry/register_current_function_fp_selector.h:72-78 | registers the current-function selector built from the array |
| FpSelectorRegistry.RegisterFunctionStackFpSelector | src/client_lib/registry/register_function_stack_fp_selector.h:90-96 | registers a function-stack selector with an empty stack, which satisfies the invariant |
| FunctionStackSelector.FunctionStackFpSelector.Model | src/client_lib/registry/register_function_stack_fp_selector.h:65-70 | the class's fields as a selector value |
| FunctionStackSelector.FunctionStackFpSelector.constructor | src/client_lib/registry/register_function_stack_fp_selector.h:34-41 | the map is the array's first-wins map and the stack starts empty |
| FunctionStackSelector.FunctionStackFpSelector.SelectFpImplementation | src/client_lib/registry/register_function_stack_fp_selector.h:43-49 | an empty stack gives the default, otherwise the top implementation; agrees with the interface dispatch |
| FunctionStackSelector.FunctionStackFpSelector.OnFunctionStart | src/client_lib/registry/register_function_stack_fp_selector.h:51-56 | pushes (name, map[name]) iff the name is a key, otherwise the stack is unchanged |
| FunctionStackSelector.FunctionStackFpSelector.OnFunctionEnd | src/client_lib/registry/register_function_stack_fp_selector.h:58-63 | pops one entry iff the stack is non-empty and its top name is the name, otherwise the stack is unchanged |
| FunctionStackSelector.WorkedExample | src/client_lib/registry/register_function_stack_fp_selector.h:43-63 | with {f:A, g:B}: Start f, h, g selects B; End g, h selects A; End f selects the default |
| FunctionLevelSelector.Matching | src/client/register_function_level_fp_selector.h:34-40 | the array entries with the name, in array order; never more than the array holds |
| FunctionLevelSelector.Enter | src/client/register_function_level_fp_selector.h:34-40 | entering keeps the entries below, and pushes only array elements that carry the name, at most as many as the array holds |
| FunctionLevelSelector.Run | src/client/register_function_level_fp_selector.h:34-47 | the stack after a sequence of notifications; only exits shrink it, by at most one entry each |
| FunctionLevelSelector.MatchingSound | src/client/register_function_level_fp_selector.h:34-40 | every entry pushed on entry carries the entered name and comes from the array |
| FunctionLevelSelector.MatchingEmptyIff | src/client/register_function_level_fp_selector.h:34-40 | nothing is pushed exactly when no array entry carries the name |
| FunctionLevelSelector.LastMatchOnTop | src/client/register_function_level_fp_selector.h:35-39 | with duplicate names the last matching array entry ends on top |
| FunctionLevelSelector.EveryMatchPushed | src/client/register_function_level_fp_selector.h:35-39 | every matching array entry is pushed |
| FunctionLevelSelector.NoDuplicatesMatchesMap | src/client/register_function_level_fp_selector.h:34-40 | without duplicate names, entry pushes exactly what the map variant pushes |
| FunctionLevelSelector.NoDuplicatesRunsLikeMap | src/client/register_function_level_fp_selector.h:34-47 | without duplicate names, any event run moves the stack like the map variant |
| FunctionLevelSelector.Balanced | src/client/register_function_level_fp_selector.h:34-47 | without duplicate names, well-nested events leave the stack as it was |
| FunctionLevelSelector.DuplicateNameUnbalanced | src/client/register_function_level_fp_selector.h:34-47 | with a duplicated name one call leaves an entry behind, so the no-duplicates condition is needed |
| FunctionLevelSelector.FunctionLevelFpSelector.constructor | src/client/register_function_level_fp_selector.h:19-25 | keeps the array as given, with an empty stack |
| FunctionLevelSelector.FunctionLevelFpSelector.SelectFpImplementation | src/client/register_function_level_fp_selector.h:27-32 | an empty stack gives the default, otherwise the top implementation |
| FunctionLevelSelector.FunctionLevelFpSelector.OnFunctionStart | src/client/register_function_level_fp_selector.h:34-40 | appends every matching array entry, in array order |
| FunctionLevelSelector.FunctionLevelFpSelector.OnFunctionEnd | src/client/register_function_level_fp_selector.h:42-47 | pops at most one entry, and only when the top name matches |
| FunctionLevelImplSelector.FunctionLevelFloatingPointImplementationSelector.constructor | src/client/function_level_floating_point_implementation_selector.h:17-21 | keeps the map and default, with an empty stack |
| FunctionLevelImplSelector.FunctionLevelFloatingPointImplementationSelector.SelectFloatingPointImplementation | src/client/function_level_floating_point_implementation_selector.h:23-29 | the top implementation when the stack is non-empty, otherwise the default; never an implementation outside the map |
| FunctionLevelImplSelector.FunctionLevelFloatingPointImplementationSelector.OnFunctionStart | src/client/function_level_floating_point_implementation_selector.h:31-36 | pushes the found map entry only when the name is a key; the const map is never changed |
| FunctionLevelImplSelector.FunctionLevelFloatingPointImplementationSelector.OnFunctionEnd | src/client/function_level_floating_point_implementation_selector.h:38-42 | pops only when the stack is non-empty and the top name matches |
| FunctionLevelImplSelector.FunctionLevelFloatingPointImplementationSelector.Replay | src/client/function_level_floating_point_implementation_selector.h:31-42 | a sequence of callbacks moves the stack exactly as the scope-stack run |
| FunctionLevelImplSelector.FunctionLevelFloatingPointImplementationSelector.RunCalls | src/client/function_level_floating_point_implementation_selector.h:31-42 | well-nested calls return the stack, and so the selection, to their prior contents |
| NestedCallHistory.InnermostMapped | tests/test_floating_point_implementations/function_level_nested_test_floating_point_implementation.cpp:31-37 | none iff no name of the history is mapped; otherwise the mapping of a history name with no mapped name after it (innermost wins) |
| NestedCallHistory.FloatingPointOperation | tests/test_floating_point_implementations/function_level_nested_test_floating_point_implementation.cpp:28-41 | the innermost mapped frame, wherever it is in the history, decides the test operation; a history with no mapped name, empty included, uses the normal implementation |
| NestedCallHistory.InnermostMappedDecides | tests/test_floating_point_implementations/function_level_nested_test_floating_point_implementation.cpp:31-37 | the innermost mapped name is unique, so the reverse scan returns exactly its mapping |
| NestedCallHistory.UnmappedFramesSkipped | tests/test_floating_point_implementations/function_level_nested_test_floating_point_implementation.cpp:31-37 | unmapped frames inside a mapped one are skipped rather than blocking the match |
| NestedCallHistory.Scenarios | tests/test_floating_point_implementations/function_level_nested_test_floating_point_implementation.cpp:19-24 | with the fixed map, [main, helper1, nested_helper] selects complex, an unmapped innermost frame falls through to helper1's simple, and [main] or [] uses normal |
| NestedCallHistory.HistoryScanAgreesWithScopeStack | tests/test_floating_point_implementations/function_level_nested_test_floating_point_implementation.cpp:31-40 | the whole-history scan selects what a function-stack selector selects after entering each function of the history |
| NestedCallHistory.FilterTopIsInnermost | tests/test_floating_point_implementations/function_level_nested_test_floating_point_implementation.cpp:31-40 | the top of the monitored entries is the innermost mapped name |
| LegacyFtrace.LookupType | ftrace.cpp:192-199 | the first matching row's type; an unmatched name gets the no-replacement type |
| LegacyFtrace.FirstMatchWins | ftrace.cpp:192-197 | later rows for the same name are shadowed by the first |
| LegacyFtrace.FunctionReplacementTypeMap | ftrace.cpp:192-199 | the in-order scan with early return computes the first-match lookup |
| LegacyFtrace.LegacyStep | ftrace.cpp:148-158 | one routine entry pushes, or one exit pops, the routine's type unless it is the no-replacement type. A pop that finds the stack empty is undefined behaviour in the tool; the model returns None exactly then |
| LegacyFtrace.LegacyRun | ftrace.cpp:148-158 | the stack after a run of entries and exits, or None once some exit pops an empty stack; each event moves the depth by at most one |
| LegacyFtrace.LegacyRunConcat | ftrace.cpp:148-158 | running two event sequences one after the other is running their concatenation |
| LegacyFtrace.WellNestedBalanced | ftrace.cpp:216-221 | entry and exit use the same looked-up type, so a well-nested run never pops an empty stack and restores it |
| LegacyFtrace.LegacyTool.constructor | ftrace.cpp:44-48 | the stack and the instruction counter start empty and zero |
| LegacyFtrace.LegacyTool.GetReplacementType | ftrace.cpp:81-86 | the no-replacement type on an empty stack, otherwise the top value |
| LegacyFtrace.LegacyTool.PushFunctionLevelReplacementType | ftrace.cpp:148-152 | pushes exactly when the type differs from the no-replacement type |
| LegacyFtrace.LegacyTool.PopFunctionLevelReplacementType | ftrace.cpp:154-158 | pops the top when the type differs from the no-replacement type, without comparing the top with it |
| LegacyFtrace.LegacyTool.EnterRoutine | ftrace.cpp:216-221 | the entry hook pushes the routine's looked-up type |
| LegacyFtrace.LegacyTool.ExitRoutine | ftrace.cpp:285-290 | the exit hook pops for the routine's looked-up type |
| LegacyFtrace.LegacyTool.DoCount | ftrace.cpp:97-99 | the instruction counter grows by exactly one, in 64 bits |
| LegacyFtrace.LegacyTool.ReplaceRegFpIns | ftrace.cpp:114-123 | operand1's register receives the replacement of both register operands under the current replacement type |
| LegacyFtrace.LegacyTool.ReplaceMemFpIns | ftrace.cpp:138-146 | the same with operand2 read from memory |
| PintoolFtrace.InstructionHooks | src/pintool/ftrace.cpp:161-206 | an arithmetic instruction gets a replacement call and is deleted iff an implementation is configured; other instructions are kept |
| PintoolFtrace.BodyHooks | src/pintool/ftrace.cpp:161-206 | a routine body never contains a push or pop hook |
| PintoolFtrace.RoutineHooks | src/pintool/ftrace.cpp:147-210 | the name push comes first and the pop last, whatever the routine contains |
| PintoolFtrace.OriginalKeptUnlessReplaced | src/pintool/ftrace.cpp:169-171 | every body instruction survives unless it is arithmetic and an implementation is configured |
| PintoolFtrace.Ftrace.constructor | src/pintool/ftrace.h:27-36 | the routine arguments are stored, with an empty call stack and no output |
| PintoolFtrace.Ftrace.FunctionStackPush | src/pintool/ftrace.cpp:102-104 | every entered name is pushed unconditionally |
| PintoolFtrace.Ftrace.FunctionStackPop | src/pintool/ftrace.cpp:113-115 | pops unconditionally, so the stack must be non-empty |
| PintoolFtrace.Ftrace.PrintFloatingPointOperation | src/pintool/ftrace.cpp:26-32 | appends "<OP> <hex1> <hex2>" and "  <hexresult>", operands in instruction order |
| PintoolFtrace.Ftrace.AfterReplace | src/pintool/ftrace.cpp:55-59 | operand1's register changes iff an implementation is configured; no other register changes |
| PintoolFtrace.Ftrace.ReplaceOutput | src/pintool/ftrace.cpp:60-62 | a record is printed iff printing is on; without an implementation its result is the unset register |
| PintoolFtrace.Ftrace.ReplaceRegisterFloatingPointInstruction | src/pintool/ftrace.cpp:45-63 | writes operand1 iff an implementation is configured, and prints iff printing is on |
| PintoolFtrace.Ftrace.ReplaceMemoryFloatingPointInstruction | src/pintool/ftrace.cpp:77-94 | the same with operand2 read from memory |
| PintoolFtrace.Ftrace.RunCalls | src/pintool/ftrace.cpp:153-158 | the push and pop hooks of well-nested calls leave the call stack as before |
| ReplaceFpOperations.FpReplacer.constructor | src/pintool/replace_fp_operations.cpp:207-210 | the registers, memory, selector and implementations are stored as given |
| ReplaceFpOperations.FpReplacer.Replacement | src/pintool/replace_fp_operations.cpp:39-42 | the implementation the selector picks for this operation, dispatched by opcode, returns this value |
| ReplaceFpOperations.FpReplacer.ReplaceRegisterFpInstruction | src/pintool/replace_fp_operations.cpp:31-44 | only operand1's register is written; the operation carries the opcode, both register values and the routine name; memory and selector are unchanged |
| ReplaceFpOperations.FpReplacer.ReplaceMemoryFpInstruction | src/pintool/replace_fp_operations.cpp:61-73 | operand2 comes from memory, which is unchanged; only operand1's register is written |
| ReplaceFpOperations.FpReplacer.EnterFunction | src/pintool/replace_fp_operations.cpp:84-86 | forwards the name to OnFunctionStart |
| ReplaceFpOperations.FpReplacer.ExitFunction | src/pintool/replace_fp_operations.cpp:98-100 | forwards the name to OnFunctionEnd |
| ReplaceFpOperations.FpReplacer.StartCallback | src/pintool/replace_fp_operations.cpp:116 | forwards to the selector's StartCallback, which leaves the selector, registers and memory as they were |
| ReplaceFpOperations.FpReplacer.ExitCallback | src/pintool/replace_fp_operations.cpp:126-128 | forwards the exit code to the selector's ExitCallback, which leaves the selector, registers and memory as they were |
| ReplaceFpOperations.FpReplacer.Notify | src/pintool/replace_fp_operations.cpp:40-41 | after any events the selector is the run of all of them, so each selection sees every prior entry and exit |
| ReplaceFpOperations.FpReplacer.RunCalls | src/pintool/replace_fp_operations.cpp:144-149 | entry hook before and exit hook after every routine return a valid selector to its prior state |
| InstrumentationCallbacks.CallbackTool.constructor | src/pintool/instrumentation_callbacks.cpp:22-28 | the registers, selector and uninterpreted operations are stored as given |
| InstrumentationCallbacks.CallbackTool.Replacement | src/pintool/instrumentation_callbacks.cpp:37-39 | the value written back: the implementation the selector picks for these operands and opcode, applied to them |
| InstrumentationCallbacks.CallbackTool.StartCallback | src/pintool/instrumentation_callbacks.cpp:24 | forwards to the selector's StartCallback, which leaves the selector, registers and output as they were |
| InstrumentationCallbacks.CallbackTool.ExitCallback | src/pintool/instrumentation_callbacks.cpp:26-28 | forwards the exit code to the selector, which leaves the selector, registers and output as they were |
| InstrumentationCallbacks.CallbackTool.ReplaceRegisterFpInstruction | src/pintool/instrumentation_callbacks.cpp:30-41 | writes the selected implementation's result into operand1's register only |
| InstrumentationCallbacks.CallbackTool.ReplaceMemoryFpInstruction | src/pintool/instrumentation_callbacks.cpp:43-53 | operand2 is read from memory; only operand1's register is written |
| InstrumentationCallbacks.CallbackTool.EnterFunction | src/pintool/instrumentation_callbacks.cpp:55-57 | forwards the name to OnFunctionStart |
| InstrumentationCallbacks.CallbackTool.ExitFunction | src/pintool/instrumentation_callbacks.cpp:59-61 | forwards the name to OnFunctionEnd |
| InstrumentationCallbacks.CallbackTool.PrintRegisterFpOperands | src/pintool/instrumentation_callbacks.cpp:68-82 | appends the operand line: subtract and divide keep their order, otherwise the larger operand first |
| InstrumentationCallbacks.CallbackTool.PrintMemoryFpOperands | src/pintool/instrumentation_callbacks.cpp:84-95 | the same with operand2 from memory |
| InstrumentationCallbacks.CallbackTool.PrintFpResult | src/pintool/instrumentation_callbacks.cpp:97-99 | appends two spaces, the 8-digit hex result and a newline |
| TraceFormat.DigitChar | src/pintool/print_fp_operations.cpp:15-16 | a digit below 16 becomes a lowercase hex character |
| TraceFormat.DigitValue | src/pintool/print_fp_operations.cpp:15-16 | a hex character's value is below 16 |
| TraceFormat.DigitRoundTrip | src/pintool/print_fp_operations.cpp:15-16 | digit and character conversions are inverse |
| TraceFormat.HexN | src/pintool/print_fp_operations.cpp:15-16 | n lowercase zero-padded hex digits |
| TraceFormat.Hex8 | src/pintool/print_fp_operations.cpp:15-16 | a 32-bit pattern becomes exactly 8 lowercase hex digits |
| TraceFormat.ParseHex | src/pintool/print_fp_operations.cpp:15-16 | reading hex digits back gives a value below 16 to the length |
| TraceFormat.Hex8RoundTrip | src/pintool/print_fp_operations.cpp:15-16 | parsing the rendering gives back the 32-bit pattern |
| TraceFormat.ParseHex8RoundTrip | src/pintool/print_fp_operations.cpp:15-16 | rendering a parsed 8-digit string gives back the string |
| TraceFormat.Hex8Injective | src/pintool/print_fp_operations.cpp:15-16 | different patterns render differently |
| TraceFormat.ShortName | src/pintool/print_fp_operations.cpp:55 | the opcode's five-letter short name |
| TraceFormat.ShortNameInjective | src/pintool/print_fp_operations.cpp:55 | different opcodes get different names |
| TraceFormat.OperandOrder | src/pintool/print_fp_operations.cpp:57-64 | both operands appear exactly once; SUBSS and DIVSS keep their order; otherwise operand1 comes first iff it is greater (or equal) |
| TraceFormat.CommutativeOperandsCanonical | src/pintool/print_fp_operations.cpp:57-64 | for a commutative opcode and a strict comparison, swapping the operands does not change the record |
| TraceFormat.TieIsNotCanonical | src/pintool/print_fp_operations.cpp:57-64 | when the comparison calls neither operand greater, swapping different operands swaps the printed order |
| TraceFormat.OrderedOperandLine | src/pintool/print_fp_operations.cpp:55-65 | the operand line is 24 characters, newline included |
| TraceFormat.OperandLine | src/pintool/print_fp_operations.cpp:48-66 | the operand line prints the operands in the order above; SUBSS and DIVSS in instruction order |
| TraceFormat.ResultLine | src/pintool/print_fp_operations.cpp:112-117 | the result line is 11 characters: two spaces, 8 hex digits, newline |
| TraceFormat.RecordText | src/pintool/print_fp_operations.cpp:149-186 | a record is its operand line followed by its result line, 35 characters |
| TraceFormat.TraceText | src/pintool/print_fp_operations.cpp:149-186 | a trace is its records in order, 35 characters each |
| PrintFpOperations.PendingText | src/pintool/print_fp_operations.cpp:53 | the operand line awaiting its result, present iff the lock is held |
| PrintFpOperations.AppendPending | src/pintool/print_fp_operations.cpp:48-66 | writing an operand line after whole records leaves exactly that record pending |
| PrintFpOperations.TracePrinter.constructor | src/pintool/print_fp_operations.cpp:191 | empty output, lock free, no records |
| PrintFpOperations.TracePrinter.PrintRegisterFpOperands | src/pintool/print_fp_operations.cpp:48-66 | takes the lock and appends the ordered operand line; the output is whole records plus this pending line |
| PrintFpOperations.TracePrinter.PrintMemoryFpOperands | src/pintool/print_fp_operations.cpp:84-99 | takes the lock and appends the ordered operand line with operand2 read from memory; that ordered record is left pending |
| PrintFpOperations.TracePrinter.PrintFpResult | src/pintool/print_fp_operations.cpp:112-117 | appends the result line, completes the record and releases the lock; the output is whole records again |
| PrintFpOperations.TracePrinter.TraceRegisterInstruction | src/pintool/print_fp_operations.cpp:149-186 | the operand line before the instruction and the result line after it add exactly one record |
| PrintFpOperations.TracePrinter.TraceMemoryInstruction | src/pintool/print_fp_operations.cpp:163-186 | for a memory-form instruction, the operand line and the result line add exactly one record, with operand2 read from memory |
| CheckValidOutput.SplitLines | tests/check_valid_output.py:21 | Python's split on newline: at least one piece and no piece contains a newline |
| CheckValidOutput.SplitJoinRoundTrip | tests/check_valid_output.py:21 | joining the pieces with newlines gives back the text |
| CheckValidOutput.SplitAfterLine | tests/check_valid_output.py:21 | a line and its newline split off as the first piece |
| CheckValidOutput.OpLineMatches | tests/check_valid_output.py:10 | OP_REGEX matched at the start of a line: one of the four mnemonics, a space, 8 hex digits, a space, 8 hex digits, anything after |
| CheckValidOutput.ResultLineMatches | tests/check_valid_output.py:11 | RESULT_REGEX matched at the start of a line: two spaces and one hex digit, anything after |
| CheckValidOutput.ValidLines | tests/check_valid_output.py:24-37 | an even number of lines, each even-indexed line an operation line and each following line a result line |
| CheckValidOutput.TrimmedLines | tests/check_valid_output.py:22-23 | drops one trailing empty piece, if any |
| CheckValidOutput.CheckValidOutput | tests/check_valid_output.py:14-37 | status 0 iff there is exactly one argument and the trimmed lines are an even number of operand/result pairs that match; otherwise status 1 |
| CheckValidOutput.OperandBody | tests/check_valid_output.py:10 | a printed operand line without its newline matches the operation pattern |
| CheckValidOutput.ResultBody | tests/check_valid_output.py:11 | a printed result line without its newline matches the result pattern |
| CheckValidOutput.TraceLines | tests/check_valid_output.py:20-23 | the lines of a trace, two per record |
| CheckValidOutput.TraceTextFront | src/pintool/print_fp_operations.cpp:149-186 | a trace is its first record followed by the rest |
| CheckValidOutput.SplitRecord | tests/check_valid_output.py:21 | a record splits into its operand line and its result line |
| CheckValidOutput.SplitTrace | tests/check_valid_output.py:21 | a trace splits into its record lines and one empty last piece |
| CheckValidOutput.TrimmedTrace | tests/check_valid_output.py:21-23 | after trimming, a trace's lines are exactly its records' two lines each |
| CheckValidOutput.PairsMatch | tests/check_valid_output.py:29-37 | the record lines pass the pairwise check |
| CheckValidOutput.PrinterOutputAccepted | tests/check_valid_output.py:14-37 | every trace the printer produces is accepted by the validator |
| CheckValidOutput.EmptyFileAccepted | tests/check_valid_output.py:21-29 | an empty file is accepted |
| CheckValidOutput.LoneNewlineRejected | tests/check_valid_output.py:21-27 | a file holding only a newline trims to one empty line and is rejected as odd |
| FpBitsManipulated.Mantissa | src/pintool/print_fp_bits_manipulated.cpp:37-39 | the low 23 bits of the pattern: below 2^23, and 0 exactly when the pattern is a multiple of 2^23 |
| FpBitsManipulated.Ffs | src/pintool/print_fp_bits_manipulated.cpp:40-45 | ffs: a 1-based index, 1 exactly for odd values |
| FpBitsManipulated.FfsLocatesLowestSetBit | src/pintool/print_fp_bits_manipulated.cpp:40-45 | ffs(m) is the 1-based index of the lowest set bit: m is a multiple of 2^(ffs(m)-1) and not of 2^ffs(m) |
| FpBitsManipulated.FfsBelow | src/pintool/print_fp_bits_manipulated.cpp:40-45 | a value below 2^k has its lowest set bit within the first k |
| FpBitsManipulated.MantissaBitsUsed | src/pintool/print_fp_bits_manipulated.cpp:36-48 | 0 iff the mantissa is 0, never more than 23 |
| FpBitsManipulated.BitsUsedLocatesLowestSetBit | src/pintool/print_fp_bits_manipulated.cpp:40-46 | a non-zero count n = 24 - ffs(m) locates the mantissa's lowest set bit: m is a multiple of 2^(23-n) and not of 2^(24-n) |
| FpBitsManipulated.SignAndExponentIgnored | src/pintool/print_fp_bits_manipulated.cpp:37-39 | sign and exponent bits never affect the count |
| FpBitsManipulated.CountNeverDecreases | src/pintool/print_fp_bits_manipulated.cpp:19-45 | short of 64-bit wrap-around, counting a value never lowers the total and adds at most 23 |
| FpBitsManipulated.BitsCounter.constructor | src/pintool/print_fp_bits_manipulated.cpp:19 | the total starts at 0 |
| FpBitsManipulated.BitsCounter.CountFpMantissaBits | src/pintool/print_fp_bits_manipulated.cpp:36-48 | adds the value's mantissa bits to the total, modulo 2^64 |
| FpBitsManipulated.BitsCounter.CountRegisterFpOperandBits | src/pintool/print_fp_bits_manipulated.cpp:67-71 | counts exactly the two operands |
| FpBitsManipulated.BitsCounter.CountMemoryFpOperandBits | src/pintool/print_fp_bits_manipulated.cpp:85-89 | counts exactly the register operand and the memory operand |
| FpBitsManipulated.BitsCounter.CountFpResultBits | src/pintool/print_fp_bits_manipulated.cpp:101-103 | counts exactly the result |
| StringOrder.LexLess | src/pintool/print_function_num_fp_ops.cpp:57 | the key order of the std::map: lexicographic by character, a proper prefix first |
| StringOrder.Irreflexive | src/pintool/print_function_num_fp_ops.cpp:57 | no name sorts before itself in the ordered map |
| StringOrder.Transitive | src/pintool/print_function_num_fp_ops.cpp:57 | the name order is transitive |
| StringOrder.Total | src/pintool/print_function_num_fp_ops.cpp:57 | any two different names are ordered |
| StringOrder.MinExists | src/pintool/print_function_num_fp_ops.cpp:57 | every non-empty set of names has a least one |
| StringOrder.SortedKeys | src/pintool/print_function_num_fp_ops.cpp:65 | the map's keys in strictly ascending order, each exactly once |
| FunctionNumFpOps.SumOver | src/pintool/print_function_num_fp_ops.cpp:57-63 | the sum of one name's counts over a set of threads |
| FunctionNumFpOps.Total | src/pintool/print_function_num_fp_ops.cpp:57-63 | the merged total of one name over every thread |
| FunctionNumFpOps.CountOf | src/pintool/print_function_num_fp_ops.cpp:38 | a missing thread or name counts 0 |
| FunctionNumFpOps.SumOverRemove | src/pintool/print_function_num_fp_ops.cpp:57-63 | a thread's count splits off the sum over threads |
| FunctionNumFpOps.SumOverAbsent | src/pintool/print_function_num_fp_ops.cpp:58-63 | a name no thread counted sums to 0 |
| FunctionNumFpOps.UniformThreadsSum | src/pintool/print_function_num_fp_ops.cpp:38-63 | N threads each counting a name K times merge to N×K |
| FunctionNumFpOps.Decimal | src/pintool/print_function_num_fp_ops.cpp:66 | a count is printed as decimal digits that denote exactly that count, with no leading zero |
| FunctionNumFpOps.CountLine | src/pintool/print_function_num_fp_ops.cpp:66 | one output line: the name, a space, digits that denote the count, and a newline |
| FunctionNumFpOps.FunctionOpCounter.constructor | src/pintool/print_function_num_fp_ops.cpp:38 | no counts |
| FunctionNumFpOps.FunctionOpCounter.IncrementFpFunctionOpCount | src/pintool/print_function_num_fp_ops.cpp:36-39 | adds exactly 1 to count[thread][name], from 0 when absent, and changes nothing else |
| FunctionNumFpOps.FunctionOpCounter.MergeCounts | src/pintool/print_function_num_fp_ops.cpp:57-63 | the merged total of each name is the sum of its counts over all threads, for exactly the counted names |
| FunctionNumFpOps.FunctionOpCounter.PrintToFile | src/pintool/print_function_num_fp_ops.cpp:56-70 | one "<name> <count>" line per counted name, in ascending name order; uncounted names do not appear |
| FunctionNumFpOps.IncrementAddsOne | src/pintool/print_function_num_fp_ops.cpp:38-63 | an increment raises the merged total of its name by one and no other name's |
| FunctionNumFpOps.SumsAgree | src/pintool/print_function_num_fp_ops.cpp:57-63 | the sum depends only on the counts of the summed threads |

## Left out

- Pin plumbing is not modelled: routine and instruction insertion, register sets, context reads and writes, knobs, `main` and the dlopen loading of clients. The register context is a map from register number to 32-bit pattern, and memory is a map from address to 32-bit cell. `PintoolFtrace.RoutineHooks` describes what the instrumentation leaves in a routine; it does not run it.
- Floating-point arithmetic is not modelled. Every implementation, handler and test operation is an uninterpreted function of 32-bit patterns.
- The float `>` used to order printed operands is an abstract predicate, so IEEE comparison (NaN, signed zero) is not modelled. `TraceFormat.TieIsNotCanonical` shows what happens when it ties.
- Mutexes and threads are not modelled; everything is sequential. The printer's lock is a boolean held from an operand line to its result line.
- Output streams are strings, and file opening, closing and stderr diagnostics are left out. The registry's warning is kept as a diagnostic string.
- The decimal print of the bits total in print_fp_bits_manipulated.cpp (`PrintToFile`) is not modelled, because it is only file output.
- Only the low 32 bits of a register are modelled. The replace routines build the result in an uninitialised `PIN_REGISTER`, set only its low float and write the whole register back (replace_fp_operations.cpp, instrumentation_callbacks.cpp, ftrace.cpp). So the upper bits of the destination XMM register, which ADDSS/SUBSS/MULSS/DIVSS would keep, receive indeterminate bytes. That upper-lane write is not modelled.
- FpSelectorRegistry.Registry.RegisterFpSelector: the registry stores selector values, not pointers. The aliasing between a registered selector and the live object that callbacks mutate is therefore not captured.
- FpSelectorRegistry.Registry.constructor: `GetFpSelectorRegistry` returns one global object. The model passes that one `Registry` reference explicitly; the claim that every call returns the same object is not stated.
- FunctionNumFpOps.FunctionOpCounter.IncrementFpFunctionOpCount: counts are unbounded `nat`, so 64-bit wrap-around of the per-function counters is not modelled.
- FpBitsManipulated.CountNeverDecreases: the running total wraps at 2^64, so "never decreases" is stated only short of the wrap.
- LegacyFtrace.LegacyTool.PopFunctionLevelReplacementType: the precondition "stack non-empty when the type is not the no-replacement type" stands for the undefined behaviour of popping an empty stack. `LegacyFtrace.WellNestedBalanced` shows well-nested runs never need more.
- LegacyFtrace.NoReplacementType is 0. That is the value in the build without function-level replacement types (ftrace.h); the enum header of the other build is not part of this model.
- PintoolFtrace.Ftrace.ReplaceRegisterFloatingPointInstruction: when no implementation is configured, the printed result is an uninitialised register. The model takes its value as a parameter, `unset`.
- InstrumentationCallbacks.CallbackTool.ReplaceRegisterFpInstruction: this older generation calls a three-argument `SelectFpImplementation` and an `FpOperation` method that no interface here declares. Both are uninterpreted parameters.
- FpSelectors.SelectFpImplementation: the `FpSelector` interface declares `SelectFpImplementation()` with no argument, while its callers pass an operation. The model uses the operation-taking form.
- The single-implementation selector and the two src/client selectors derive from an older `FloatingPointImplementationSelector` interface. The model treats them as the same kind of selector.
- Variants that do not compile as written are left out: replace_fp_ins_complex.c, and the class/constructor name mismatch in src/client/register_fp_selector.h. src/pintool/ftrace.cpp also passes a fourth argument, 0, to `FloatingPointOperation`, while the header it includes declares three (src/client/floating_point_implementation.h); `PintoolFtrace.Compute` uses the three-argument form.
- The nested test's history is read from a `function_stack_` that `ProgramState` does not have (it has a `std::stack` named `call_stack_`). The history is modelled as a sequence with the innermost name last.
- Abnormal control flow (longjmp, unwinding past a monitored frame) is not handled by the code and is not modelled.
- The trace validator reads its file in text mode, which turns "\r\n" and a lone "\r" into "\n". `CheckValidOutput.CheckValidOutput` takes the translated text as its input, so a file with lone "\r" line ends, which the script accepts, would be rejected if its raw bytes were given instead.
- A file holding only a newline is rejected: the split gives two empty pieces, trimming leaves one, and one line is an odd count (`CheckValidOutput.LoneNewlineRejected`). A file that cannot be opened raises an exception, which is not modelled.
