/** Small notions that several of the modules share. */
module Common {

  datatype Option<T> = None | Some(value: T)

  ghost predicate NoRepeats<T>(s: seq<T>) {
    forall i, j | 0 <= i < j < |s| :: s[i] != s[j]
  }

  // The numbers from n up to m.
  function Span(n: nat, m: nat): (r: set<int>)
    ensures forall j :: j in r <==> n <= j < m
  {
    if m <= n then {} else Span(n, m - 1) + {m - 1}
  }

  lemma {:induction false} AddedCounts<T>(s: set<T>, x: T)
    requires x !in s
    ensures |s + {x}| == |s| + 1
  {
  }

  lemma {:induction false} SpanCounts(n: nat, m: nat)
    requires n <= m
    ensures |Span(n, m)| == m - n
  {
    if n < m {
      SpanCounts(n, m - 1);
      var before := Span(n, m - 1);
      assert m - 1 !in before;
      AddedCounts(before, m - 1);
    }
  }

  // A different string for every number.
  function Name(j: nat): (r: string)
    ensures |r| == j
  {
    seq(j, _ => 'c')
  }
}
