/** The ordering of std::string keys in a std::map: lexicographic by
    character, a proper prefix coming first. */
module StringOrder {
  predicate LexLess(a: string, b: string)
    decreases |a|
  {
    |b| > 0 && (|a| == 0 || a[0] < b[0] || (a[0] == b[0] && LexLess(a[1..], b[1..])))
  }

  lemma {:induction false} Irreflexive(a: string)
    ensures !LexLess(a, a)
    decreases |a|
  {
    if |a| > 0 {
      Irreflexive(a[1..]);
    }
  }

  lemma {:induction false} Transitive(a: string, b: string, c: string)
    requires LexLess(a, b) && LexLess(b, c)
    ensures LexLess(a, c)
    decreases |a|
  {
    if |a| > 0 && a[0] == b[0] && b[0] == c[0] {
      Transitive(a[1..], b[1..], c[1..]);
    }
  }

  lemma {:induction false} Total(a: string, b: string)
    requires a != b
    ensures LexLess(a, b) || LexLess(b, a)
    decreases |a|
  {
    if |a| > 0 && |b| > 0 && a[0] == b[0] {
      assert a == [a[0]] + a[1..] && b == [b[0]] + b[1..];
      Total(a[1..], b[1..]);
    }
  }

  /** Every non-empty finite set of strings has a least element. */
  lemma {:induction false} MinExists(s: set<string>)
    requires s != {}
    ensures exists m | m in s :: forall x | x in s :: !LexLess(x, m)
    decreases s
  {
    var y :| y in s;
    var rest := s - {y};
    if rest == {} {
      assert s == {y};
      Irreflexive(y);
    } else {
      MinExists(rest);
      var m :| m in rest && forall x | x in rest :: !LexLess(x, m);
      if LexLess(y, m) {
        forall x | x in s ensures !LexLess(x, y) {
          if x == y {
            Irreflexive(y);
          } else if LexLess(x, y) {
            Transitive(x, y, m);
          }
        }
      } else {
        forall x | x in s ensures !LexLess(x, m) {
          if x == m {
            Irreflexive(m);
          }
        }
      }
    }
  }

  /** The keys of a map in ascending order, as iterating a std::map yields them. */
  method SortedKeys<V>(m: map<string, V>) returns (keys: seq<string>)
    ensures forall i, j | 0 <= i < j < |keys| :: LexLess(keys[i], keys[j])
    ensures forall k :: k in keys <==> k in m
    ensures |keys| == |m.Keys|
  {
    keys := [];
    var rest := m.Keys;
    while rest != {}
      invariant rest <= m.Keys
      invariant forall k :: k in keys <==> k in m && k !in rest
      invariant forall i, j | 0 <= i < j < |keys| :: LexLess(keys[i], keys[j])
      invariant forall i, x | 0 <= i < |keys| && x in rest :: LexLess(keys[i], x)
      invariant |keys| + |rest| == |m.Keys|
      decreases rest
    {
      MinExists(rest);
      var least :| least in rest && forall x | x in rest :: !LexLess(x, least);
      forall x | x in rest - {least} ensures LexLess(least, x) {
        Total(least, x);
      }
      keys := keys + [least];
      rest := rest - {least};
    }
  }
}
