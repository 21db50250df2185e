/** The name -> selector registry that the tool consults to find the selector
    chosen on its command line, and the registering wrappers of the selectors. */
module FpSelectorRegistry {
  import opened FpTypes
  import NameMaps
  import FpSelectors

  /** Lookup in a registry map: the registered selector, or process exit with
      status 1 when nothing is registered under the name. */
  function Lookup<S>(selectors: map<string, S>, name: string): (r: Exit<S>)
    ensures r.Returned? <==> name in selectors
    ensures r.Returned? ==> r.value == selectors[name]
    ensures r.Exited? ==> r.code == 1
  {
    if name in selectors then Returned(selectors[name]) else Exited(1)
  }

  /** Registering then looking up the same name yields what was registered;
      every other name looks up as before. */
  lemma LookupAfterRegister<S>(selectors: map<string, S>, name: string, s: S, other: string)
    ensures Lookup(selectors[name := s], name) == Returned(s)
    ensures other != name ==> Lookup(selectors[name := s], other) == Lookup(selectors, other)
  {
  }

  /** The registry. The process has exactly one; it is shared by passing the
      same reference to every registering wrapper. */
  class Registry<S> {
    var selectors: map<string, S>
    /** Diagnostic lines written to the error stream. */
    var diagnostics: seq<string>

    constructor()
      ensures selectors == map[] && diagnostics == []
    {
      selectors := map[];
      diagnostics := [];
    }

    /** Registers `s` under `name`, overwriting (with a warning) any selector
        already registered there. */
    method RegisterFpSelector(s: S, name: string) returns (overwrote: bool)
      modifies this
      ensures overwrote <==> name in old(selectors)
      ensures selectors == old(selectors)[name := s]
      ensures forall other | other != name && other in old(selectors) :: other in selectors && selectors[other] == old(selectors)[other]
      ensures GetFpSelectorOrDie(name) == Returned(s)
      ensures diagnostics == old(diagnostics) + (if overwrote then ["Overwriting FpSelectorRegistry entry at " + name] else [])
    {
      overwrote := name in selectors;
      if overwrote {
        diagnostics := diagnostics + ["Overwriting FpSelectorRegistry entry at " + name];
      }
      selectors := selectors[name := s];
    }

    /** The selector registered under `name`; the process exits with status 1
        when there is none. The lookup only reads the registry. */
    function GetFpSelectorOrDie(name: string): (r: Exit<S>)
      reads this
      ensures r.Returned? <==> name in selectors
      ensures r.Returned? ==> r.value == selectors[name]
      ensures r.Exited? ==> r.code == 1
    {
      Lookup(selectors, name)
    }
  }

  /** RegisterSingleFpImplementationSelector<Impl>(name): registers a selector
      that always returns its own implementation instance. */
  method RegisterSingleFpImplementationSelector(registry: Registry<FpSelectors.FpSelector>, impl: FpImpl, name: string)
    modifies registry
    ensures registry.selectors == old(registry.selectors)[name := FpSelectors.Single(impl)]
    ensures registry.GetFpSelectorOrDie(name) == Returned(FpSelectors.Single(impl))
  {
    var _ := registry.RegisterFpSelector(FpSelectors.Single(impl), name);
  }

  /** RegisterCurrentFunctionFpSelector(array, size, default, name). */
  method RegisterCurrentFunctionFpSelector(registry: Registry<FpSelectors.FpSelector>, table: seq<ScopeEntry>,
                                           defaultImpl: FpImpl, name: string)
    modifies registry
    ensures registry.selectors == old(registry.selectors)[name := FpSelectors.CurrentFunction(NameMaps.FirstWins(table), defaultImpl)]
  {
    var s := FpSelectors.NewCurrentFunctionFpSelector(table, defaultImpl);
    var _ := registry.RegisterFpSelector(s, name);
  }

  /** RegisterFunctionStackFpSelector(array, size, default, name): the
      registered selector starts with an empty scope stack. */
  method RegisterFunctionStackFpSelector(registry: Registry<FpSelectors.FpSelector>, table: seq<ScopeEntry>,
                                         defaultImpl: FpImpl, name: string)
    modifies registry
    ensures registry.selectors == old(registry.selectors)[name := FpSelectors.FunctionStack(NameMaps.FirstWins(table), defaultImpl, [])]
    ensures FpSelectors.Valid(registry.selectors[name])
  {
    var names := NameMaps.BuildNameMap(table);
    var _ := registry.RegisterFpSelector(FpSelectors.FunctionStack(names, defaultImpl, []), name);
  }
}
