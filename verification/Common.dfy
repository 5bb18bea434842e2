/** Small shared vocabulary: options, distinct sequences, and integer sums. */
module Common {

  datatype Option<+T> = None | Some(value: T)

  predicate Distinct<T(==)>(s: seq<T>) {
    forall i, j :: 0 <= i < j < |s| ==> s[i] != s[j]
  }

  /** The elements of a sequence, as a set. */
  function Elements<T>(s: seq<T>): set<T> {
    set x | x in s
  }

  lemma {:induction false} DistinctCount<T>(s: seq<T>)
    requires Distinct(s)
    ensures |Elements(s)| == |s|
  {
    if s == [] {
    } else {
      var rest := s[..|s| - 1];
      DistinctCount(rest);
      assert s == rest + [s[|s| - 1]];
      assert Elements(s) == Elements(rest) + {s[|s| - 1]};
    }
  }

  lemma Member<T>(s: set<T>) returns (x: T)
    requires s != {}
    ensures x in s
  {
    x :| x in s;
  }

  lemma SubsetCount<T>(small: set<T>, large: set<T>)
    requires small <= large
    ensures |small| <= |large|
  {
    assert large == small + (large - small);
  }

  lemma KeysCount<K, V>(m: map<K, V>, keys: set<K>)
    requires forall k :: k in m <==> k in keys
    ensures |m| == |keys|
  {
    assert m.Keys == keys;
  }

  function Range(from: int, count: nat): (r: seq<int>)
    ensures |r| == count && forall j :: 0 <= j < count ==> r[j] == from + j
  {
    seq(count, j => from + j)
  }

  lemma RangeElements(from: int, n: nat)
    ensures forall x: int :: x in Elements(Range(from, n)) <==> from <= x < from + n
    ensures |Elements(Range(from, n))| == n
  {
    forall x: int | from <= x < from + n ensures x in Range(from, n) {
      assert Range(from, n)[x - from] == x;
    }
    DistinctCount(Range(from, n));
  }

  /** The integers from `from` up, `n` of them. */
  lemma Block(from: int, n: nat) returns (s: set<int>)
    ensures |s| == n && forall a: int :: a in s <==> from <= a < from + n
  {
    s := Elements(Range(from, n));
    RangeElements(from, n);
  }

  function Sum(s: seq<int>): int {
    if s == [] then 0 else Sum(s[..|s| - 1]) + s[|s| - 1]
  }

  lemma {:induction false} SumUpdate(s: seq<int>, i: nat, v: int)
    requires i < |s|
    ensures Sum(s[i := v]) == Sum(s) - s[i] + v
  {
    var n := |s| - 1;
    if i == n {
      assert s[i := v][..n] == s[..n];
    } else {
      assert s[i := v][..n] == s[..n][i := v];
      SumUpdate(s[..n], i, v);
    }
  }

  /** Non-negative terms: the sum is non-negative and bounds each term. */
  lemma {:induction false} SumBoundsTerm(s: seq<int>)
    requires forall i :: 0 <= i < |s| ==> s[i] >= 0
    ensures Sum(s) >= 0
    ensures forall i :: 0 <= i < |s| ==> s[i] <= Sum(s)
  {
    if s == [] {
    } else {
      var rest := s[..|s| - 1];
      SumBoundsTerm(rest);
      assert forall i :: 0 <= i < |rest| ==> s[i] == rest[i];
    }
  }
}
