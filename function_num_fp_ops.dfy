/** The per-function operation count: every arithmetic instruction adds one
    to a per-thread, per-function counter; at exit the per-thread counters are
    merged into one ordered table and printed as "<name> <count>" lines in
    ascending name order. */
module FunctionNumFpOps {
  import StringOrder

  type ThreadId = nat
  /** function_fp_op_count: thread -> function name -> count. */
  type Counts = map<ThreadId, map<string, nat>>

  /** The count of `name` in one thread's table, 0 when absent. */
  function CountOf(counts: Counts, t: ThreadId, name: string): (c: nat)
    ensures c > 0 ==> t in counts && name in counts[t]
  {
    if t in counts && name in counts[t] then counts[t][name] else 0
  }

  /** The sum of the counts of `name` over a set of threads. */
  ghost function SumOver(counts: Counts, threads: set<ThreadId>, name: string): nat
    decreases threads
  {
    if threads == {} then 0
    else
      var t :| t in threads;
      CountOf(counts, t, name) + SumOver(counts, threads - {t}, name)
  }

  /** The sum does not depend on the order the threads are visited in. */
  lemma {:induction false} SumOverRemove(counts: Counts, threads: set<ThreadId>, t: ThreadId, name: string)
    requires t in threads
    ensures SumOver(counts, threads, name) == CountOf(counts, t, name) + SumOver(counts, threads - {t}, name)
    decreases threads
  {
    var u :| u in threads && SumOver(counts, threads, name) == CountOf(counts, u, name) + SumOver(counts, threads - {u}, name);
    if u != t {
      SumOverRemove(counts, threads - {u}, t, name);
      SumOverRemove(counts, threads - {t}, u, name);
      assert threads - {u} - {t} == threads - {t} - {u};
    }
  }

  /** A name no thread counted sums to 0. */
  lemma {:induction false} SumOverAbsent(counts: Counts, threads: set<ThreadId>, name: string)
    requires forall t | t in threads :: CountOf(counts, t, name) == 0
    ensures SumOver(counts, threads, name) == 0
    decreases threads
  {
    if threads != {} {
      var t :| t in threads;
      SumOverRemove(counts, threads, t, name);
      SumOverAbsent(counts, threads - {t}, name);
    }
  }

  /** N threads that each counted a name K times merge to N * K. */
  lemma {:induction false} UniformThreadsSum(counts: Counts, threads: set<ThreadId>, name: string, k: nat)
    requires forall t | t in threads :: CountOf(counts, t, name) == k
    ensures SumOver(counts, threads, name) == |threads| * k
    decreases threads
  {
    if threads != {} {
      var t :| t in threads;
      SumOverRemove(counts, threads, t, name);
      UniformThreadsSum(counts, threads - {t}, name, k);
    }
  }

  /** The merged total of `name` over every thread. */
  ghost function Total(counts: Counts, name: string): nat
  {
    SumOver(counts, counts.Keys, name)
  }

  /** The names some thread counted. */
  ghost function CountedNames(counts: Counts, threads: set<ThreadId>): set<string>
  {
    set t, n | t in threads && t in counts && n in counts[t] :: n
  }

  /** The number a string of decimal digits denotes, most significant first. */
  function DecimalValue(s: string): nat
    requires forall i | 0 <= i < |s| :: '0' <= s[i] <= '9'
  {
    if s == [] then 0
    else
      var front := s[..|s| - 1];
      assert forall i | 0 <= i < |front| :: front[i] == s[i];
      10 * DecimalValue(front) + (s[|s| - 1] as int - '0' as int)
  }

  /** Decimal rendering of a count: digits that denote it, with no leading zero. */
  function Decimal(n: nat): (s: string)
    ensures |s| >= 1 && forall i | 0 <= i < |s| :: '0' <= s[i] <= '9'
    ensures DecimalValue(s) == n
    ensures n > 0 ==> s[0] != '0'
  {
    if n < 10 then [('0' as int + n) as char]
    else
      var front, last := Decimal(n / 10), ('0' as int + n % 10) as char;
      var s := front + [last];
      assert s[..|s| - 1] == front && s[0] == front[0];
      s
  }

  /** One output line: the name, a space, digits that denote the count, and a
      newline. */
  function CountLine(name: string, count: nat): (line: string)
    ensures |line| >= |name| + 3
    ensures line[..|name|] == name && line[|name|] == ' ' && line[|line| - 1] == '\n'
    ensures var digits := line[|name| + 1..|line| - 1];
      (forall i | 0 <= i < |digits| :: '0' <= digits[i] <= '9') && DecimalValue(digits) == count
  {
    var digits := Decimal(count);
    var line := name + " " + digits + "\n";
    assert line[|name| + 1..|line| - 1] == digits;
    line
  }

  class FunctionOpCounter {
    var counts: Counts

    /** Every stored count came from at least one increment. */
    ghost predicate Valid()
      reads this
    {
      forall t, n | t in counts && n in counts[t] :: counts[t][n] >= 1
    }

    constructor()
      ensures counts == map[] && Valid()
    {
      counts := map[];
    }

    /** IncrementFpFunctionOpCount: function_fp_op_count[tid][name]++, both
        levels default-constructed when absent. */
    method IncrementFpFunctionOpCount(name: string, tid: ThreadId)
      requires Valid()
      modifies this
      ensures Valid()
      ensures counts.Keys == old(counts).Keys + {tid}
      ensures counts[tid].Keys == (if tid in old(counts) then old(counts)[tid].Keys else {}) + {name}
      ensures forall t, n :: CountOf(counts, t, n) == CountOf(old(counts), t, n) + (if t == tid && n == name then 1 else 0)
    {
      var inner := if tid in counts then counts[tid] else map[];
      var c := if name in inner then inner[name] else 0;
      counts := counts[tid := inner[name := c + 1]];
    }

    /** PrintToFile: merges the per-thread tables into one ordered table and
        renders it one line per function, in ascending name order. */
    method PrintToFile() returns (names: seq<string>, lines: seq<string>)
      requires Valid()
      ensures forall i, j | 0 <= i < j < |names| :: StringOrder.LexLess(names[i], names[j])
      ensures forall n :: n in names <==> n in CountedNames(counts, counts.Keys)
      ensures |lines| == |names|
      ensures forall i | 0 <= i < |names| :: lines[i] == CountLine(names[i], Total(counts, names[i]))
    {
      var totals := MergeCounts();
      names := StringOrder.SortedKeys(totals);
      lines := [];
      for i := 0 to |names|
        invariant |lines| == i
        invariant forall k | 0 <= k < i :: lines[k] == CountLine(names[k], Total(counts, names[k]))
      {
        lines := lines + [CountLine(names[i], totals[names[i]])];
      }
    }

    /** The merge loops: every (thread, name) count is added into the total
        for that name. */
    method MergeCounts() returns (totals: map<string, nat>)
      ensures forall n :: n in totals <==> n in CountedNames(counts, counts.Keys)
      ensures forall n | n in totals :: totals[n] == Total(counts, n)
    {
      totals := map[];
      var remaining := counts.Keys;
      ghost var done: set<ThreadId> := {};
      while remaining != {}
        invariant remaining + done == counts.Keys && remaining !! done
        invariant forall n :: n in totals <==> n in CountedNames(counts, done)
        invariant forall n | n in totals :: totals[n] == SumOver(counts, done, n)
        decreases remaining
      {
        var t :| t in remaining;
        var inner := counts[t];
        var pending := inner.Keys;
        ghost var seen: set<string> := {};
        while pending != {}
          invariant pending + seen == inner.Keys && pending !! seen
          invariant forall n :: n in totals <==> n in CountedNames(counts, done) || n in seen
          invariant forall n | n in totals :: totals[n] == SumOver(counts, done, n) + (if n in seen then inner[n] else 0)
          decreases pending
        {
          var n :| n in pending;
          if n !in totals {
            assert n !in CountedNames(counts, done);
            SumOverAbsent(counts, done, n);
          }
          var sofar := if n in totals then totals[n] else 0;
          totals := totals[n := sofar + inner[n]];
          pending := pending - {n};
          seen := seen + {n};
        }
        forall n | n in totals
          ensures totals[n] == SumOver(counts, done + {t}, n)
        {
          assert (done + {t}) - {t} == done;
          SumOverRemove(counts, done + {t}, t, n);
        }
        assert CountedNames(counts, done + {t}) == CountedNames(counts, done) + inner.Keys;
        remaining := remaining - {t};
        done := done + {t};
      }
    }
  }

  /** An increment adds exactly one to the merged total of that name and
      leaves every other total as it was. */
  lemma IncrementAddsOne(before: Counts, after: Counts, tid: ThreadId, name: string, other: string)
    requires after.Keys == before.Keys + {tid}
    requires forall t, n :: CountOf(after, t, n) == CountOf(before, t, n) + (if t == tid && n == name then 1 else 0)
    ensures Total(after, name) == Total(before, name) + 1
    ensures other != name ==> Total(after, other) == Total(before, other)
  {
    var rest := before.Keys - {tid};
    assert after.Keys - {tid} == rest;
    SumOverRemove(after, after.Keys, tid, name);
    SumOverRemove(after, after.Keys, tid, other);
    SumsAgree(before, after, rest, name);
    SumsAgree(before, after, rest, other);
    if tid in before.Keys {
      SumOverRemove(before, before.Keys, tid, name);
      SumOverRemove(before, before.Keys, tid, other);
    } else {
      assert before.Keys == rest;
    }
  }

  /** Sums over threads whose counts agree are equal. */
  lemma {:induction false} SumsAgree(a: Counts, b: Counts, threads: set<ThreadId>, name: string)
    requires forall t | t in threads :: CountOf(a, t, name) == CountOf(b, t, name)
    ensures SumOver(a, threads, name) == SumOver(b, threads, name)
    decreases threads
  {
    if threads != {} {
      var t :| t in threads;
      SumOverRemove(a, threads, t, name);
      SumOverRemove(b, threads, t, name);
      SumsAgree(a, b, threads - {t}, name);
    }
  }
}
