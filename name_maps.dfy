/** The name -> implementation map the client_lib selectors build in their
    constructors by inserting a configuration table, pair by pair, into an
    unordered_map. insert never overwrites, so the first pair for a name wins. */
module NameMaps {
  import opened FpTypes

  /** The map after inserting every pair of the table in order. */
  function FirstWins(table: seq<ScopeEntry>): (m: map<string, FpImpl>)
    ensures forall i | 0 <= i < |table| :: table[i].name in m
    ensures forall n | n in m :: exists i | 0 <= i < |table| :: table[i].name == n
  {
    if table == [] then map[]
    else
      var m := FirstWins(table[..|table| - 1]);
      var e := table[|table| - 1];
      if e.name in m then m else m[e.name := e.impl]
  }

  /** The first pair for a name decides its value, whatever pairs follow. */
  lemma {:induction false} FirstOccurrenceWins(table: seq<ScopeEntry>, i: nat)
    requires i < |table|
    requires forall j | 0 <= j < i :: table[j].name != table[i].name
    ensures FirstWins(table)[table[i].name] == table[i].impl
    decreases |table|
  {
    var prefix := table[..|table| - 1];
    if i < |table| - 1 {
      assert prefix[i] == table[i];
      FirstOccurrenceWins(prefix, i);
    }
  }

  /** The constructor loop of FunctionStackFpSelector and CurrentFunctionFpSelector. */
  method BuildNameMap(table: seq<ScopeEntry>) returns (m: map<string, FpImpl>)
    ensures m == FirstWins(table)
  {
    m := map[];
    for i := 0 to |table|
      invariant m == FirstWins(table[..i])
    {
      assert table[..i + 1][..i] == table[..i];
      if table[i].name !in m {
        m := m[table[i].name := table[i].impl];
      }
    }
    assert table[..|table|] == table;
  }
}
