/** The aggregation the views delegate to Python and pandas: the mean of a
    window's values, and the ordered, duplicate-free keys of a group-by. */
module Aggregate {
  import opened Wrappers

  function Sum(values: seq<int>): int
  {
    if values == [] then 0 else values[0] + Sum(values[1..])
  }

  /** The exact mean of the values; None for no values, where Python's
      `sum(xs) / len(xs)` divides by zero and pandas' `mean()` gives NaN. */
  function Mean(values: seq<int>): (r: Option<real>)
    ensures r.None? <==> values == []
    ensures r.Some? ==> r.value * (|values| as real) == Sum(values) as real
  {
    if values == [] then None else Some(Sum(values) as real / |values| as real)
  }

  lemma {:induction false} SumBounds(values: seq<int>, lo: int, hi: int)
    requires forall i :: 0 <= i < |values| ==> lo <= values[i] <= hi
    ensures lo * |values| <= Sum(values) <= hi * |values|
  {
    if values != [] {
      SumBounds(values[1..], lo, hi);
      assert lo * |values| == lo + lo * |values[1..]|;
      assert hi * |values| == hi + hi * |values[1..]|;
    }
  }

  lemma QuotientBounds(total: real, n: real, lo: real, hi: real)
    requires n > 0.0
    requires lo * n <= total <= hi * n
    ensures lo <= total / n <= hi
  {
  }

  lemma ProductAsReal(a: int, b: int)
    ensures (a * b) as real == (a as real) * (b as real)
  {
  }

  /** A mean lies between any lower and upper bound of the values it averages. */
  lemma MeanWithinBounds(values: seq<int>, lo: int, hi: int)
    requires values != []
    requires forall i :: 0 <= i < |values| ==> lo <= values[i] <= hi
    ensures Mean(values).Some?
    ensures lo as real <= Mean(values).value <= hi as real
  {
    SumBounds(values, lo, hi);
    ProductAsReal(lo, |values|);
    ProductAsReal(hi, |values|);
    QuotientBounds(Sum(values) as real, |values| as real, lo as real, hi as real);
  }

  /** Python's string order: lexicographic by code point, a proper prefix first. */
  predicate Less(a: string, b: string)
  {
    if a == [] then b != []
    else if b == [] then false
    else a[0] < b[0] || (a[0] == b[0] && Less(a[1..], b[1..]))
  }

  lemma {:induction false} LessIrreflexive(a: string)
    ensures !Less(a, a)
  {
    if a != [] {
      LessIrreflexive(a[1..]);
    }
  }

  lemma {:induction false} LessTransitive(a: string, b: string, c: string)
    requires Less(a, b) && Less(b, c)
    ensures Less(a, c)
  {
    if a != [] && a[0] == b[0] && b[0] == c[0] {
      LessTransitive(a[1..], b[1..], c[1..]);
    }
  }

  lemma {:induction false} LessTotal(a: string, b: string)
    requires a != b
    ensures Less(a, b) || Less(b, a)
  {
    if a != [] && b != [] && a[0] == b[0] {
      assert a == [a[0]] + a[1..] && b == [b[0]] + b[1..];
      LessTotal(a[1..], b[1..]);
    }
  }

  predicate StrictlySorted(keys: seq<string>)
  {
    forall i, j :: 0 <= i < j < |keys| ==> Less(keys[i], keys[j])
  }

  /** Keys in strictly increasing order are pairwise distinct. */
  lemma SortedKeysDistinct(keys: seq<string>)
    requires StrictlySorted(keys)
    ensures forall i, j :: 0 <= i < j < |keys| ==> keys[i] != keys[j]
  {
    forall i, j | 0 <= i < j < |keys|
      ensures keys[i] != keys[j]
    {
      LessIrreflexive(keys[i]);
    }
  }

  lemma BelowHeadBelowAll(k: string, keys: seq<string>)
    requires StrictlySorted(keys) && keys != [] && Less(k, keys[0])
    ensures forall j :: 0 <= j < |keys| ==> Less(k, keys[j])
  {
    forall j | 0 < j < |keys|
      ensures Less(k, keys[j])
    {
      LessTransitive(k, keys[0], keys[j]);
    }
  }

  lemma AboveHeadSorted(h: string, rest: seq<string>)
    requires StrictlySorted(rest)
    requires forall x :: x in rest ==> Less(h, x)
    ensures StrictlySorted([h] + rest)
  {
  }

  /** Adds a key to strictly sorted keys, keeping them strictly sorted. */
  function AddKey(keys: seq<string>, k: string): (r: seq<string>)
    requires StrictlySorted(keys)
    ensures StrictlySorted(r)
    ensures forall x :: x in r <==> x in keys || x == k
  {
    if keys == [] then [k]
    else if k == keys[0] then keys
    else if Less(k, keys[0]) then
      BelowHeadBelowAll(k, keys);
      [k] + keys
    else
      LessTotal(k, keys[0]);
      var rest := AddKey(keys[1..], k);
      assert forall x :: x in keys[1..] ==> Less(keys[0], x);
      AboveHeadSorted(keys[0], rest);
      [keys[0]] + rest
  }

  /** The keys of a pandas `groupby`: every distinct name once, in ascending
      order. */
  function GroupKeys(names: seq<string>): (r: seq<string>)
    ensures StrictlySorted(r)
    ensures forall x :: x in r <==> x in names
  {
    if names == [] then [] else AddKey(GroupKeys(names[1..]), names[0])
  }
}
