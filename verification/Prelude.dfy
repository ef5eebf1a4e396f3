/** Small vocabulary shared by every component: optional values, results and sums over sequences. */
module Prelude {
  datatype Option<+T> = None | Some(value: T)

  datatype Result<+T, +E> = Ok(value: T) | Err(error: E)

  function Min(a: int, b: int): int { if a <= b then a else b }

  function Max(a: int, b: int): int { if a <= b then b else a }

  function MaxReal(a: real, b: real): real { if a <= b then b else a }

  function MinReal(a: real, b: real): real { if a <= b then a else b }

  lemma SubsetCount<T>(a: set<T>, b: set<T>)
    requires a <= b
    ensures |a| <= |b|
  {
    assert b == a + (b - a);
  }

  /** The sum of `weight` over the elements of `s`. */
  function Total<T>(s: seq<T>, weight: T -> real): real {
    if s == [] then 0.0 else weight(s[0]) + Total(s[1..], weight)
  }

  lemma {:induction false} TotalConcat<T>(a: seq<T>, b: seq<T>, weight: T -> real)
    ensures Total(a + b, weight) == Total(a, weight) + Total(b, weight)
  {
    if a == [] {
      assert a + b == b;
    } else {
      assert (a + b)[1..] == a[1..] + b;
      TotalConcat(a[1..], b, weight);
    }
  }

  lemma TotalAppend<T>(s: seq<T>, x: T, weight: T -> real)
    ensures Total(s + [x], weight) == Total(s, weight) + weight(x)
  {
    TotalConcat(s, [x], weight);
    assert Total([x], weight) == weight(x) + Total([], weight);
  }

  lemma TotalSplit<T>(s: seq<T>, i: nat, weight: T -> real)
    requires i < |s|
    ensures Total(s, weight) == Total(s[..i], weight) + weight(s[i]) + Total(s[i + 1..], weight)
  {
    assert s == s[..i] + s[i..];
    TotalConcat(s[..i], s[i..], weight);
    assert s[i..][1..] == s[i + 1..];
  }

  lemma TotalUpdate<T>(s: seq<T>, i: nat, x: T, weight: T -> real)
    requires i < |s|
    ensures Total(s[i := x], weight) == Total(s, weight) - weight(s[i]) + weight(x)
  {
    TotalSplit(s, i, weight);
    TotalSplit(s[i := x], i, weight);
    assert s[i := x][..i] == s[..i] && s[i := x][i + 1..] == s[i + 1..];
  }

  lemma TotalRemove<T>(s: seq<T>, i: nat, weight: T -> real)
    requires i < |s|
    ensures Total(s[..i] + s[i + 1..], weight) == Total(s, weight) - weight(s[i])
  {
    TotalSplit(s, i, weight);
    TotalConcat(s[..i], s[i + 1..], weight);
  }
}
