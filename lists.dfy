/** LINQ `Where`, as used over the catalog's lists. */
module Lists {

  /** `s.Where(p)`: the elements satisfying `p`, in their order in `s`. */
  function Filter<T(!new)>(s: seq<T>, p: T -> bool): (r: seq<T>)
    ensures |r| <= |s|
    ensures forall x :: x in r <==> x in s && p(x)
    decreases |s|
  {
    if |s| == 0 then []
    else (if p(s[0]) then [s[0]] else []) + Filter(s[1..], p)
  }

  /** `s.Where(x => p(x, k))` for a predicate that also reads a key `k`. */
  function FilterWith<T(!new), K>(s: seq<T>, p: (T, K) -> bool, k: K): (r: seq<T>)
    ensures |r| <= |s|
    ensures forall x :: x in r <==> x in s && p(x, k)
    decreases |s|
  {
    if |s| == 0 then []
    else (if p(s[0], k) then [s[0]] else []) + FilterWith(s[1..], p, k)
  }

  /** Filtering keeps relative order: it distributes over concatenation. */
  lemma {:induction false} FilterAppend<T(!new)>(s: seq<T>, t: seq<T>, p: T -> bool)
    ensures Filter(s + t, p) == Filter(s, p) + Filter(t, p)
    decreases |s|
  {
    if |s| > 0 {
      assert (s + t)[1..] == s[1..] + t;
      FilterAppend(s[1..], t, p);
    } else {
      assert s + t == t;
    }
  }

  /** Keyed filtering keeps relative order: it distributes over concatenation. */
  lemma {:induction false} FilterWithAppend<T(!new), K>(s: seq<T>, t: seq<T>, p: (T, K) -> bool, k: K)
    ensures FilterWith(s + t, p, k) == FilterWith(s, p, k) + FilterWith(t, p, k)
    decreases |s|
  {
    if |s| > 0 {
      assert (s + t)[1..] == s[1..] + t;
      FilterWithAppend(s[1..], t, p, k);
    } else {
      assert s + t == t;
    }
  }

  /** `Where` over a three-element list keeps each element that satisfies `p`, in order. */
  lemma FilterThree<T(!new)>(a: T, b: T, c: T, p: T -> bool)
    ensures Filter([a, b, c], p) == (if p(a) then [a] else []) + (if p(b) then [b] else []) + (if p(c) then [c] else [])
  {
    assert [a, b, c][1..] == [b, c];
    assert [b, c][1..] == [c];
    assert [c][1..] == [];
    assert Filter([c], p) == (if p(c) then [c] else []) + [];
    assert Filter([b, c], p) == (if p(b) then [b] else []) + Filter([c], p);
  }

  /** Keyed `Where` over a three-element list keeps each element that satisfies `p`, in order. */
  lemma FilterWithThree<T(!new), K>(a: T, b: T, c: T, p: (T, K) -> bool, k: K)
    ensures FilterWith([a, b, c], p, k) == (if p(a, k) then [a] else []) + (if p(b, k) then [b] else []) + (if p(c, k) then [c] else [])
  {
    assert [a, b, c][1..] == [b, c];
    assert [b, c][1..] == [c];
    assert [c][1..] == [];
    assert FilterWith([c], p, k) == (if p(c, k) then [c] else []) + [];
    assert FilterWith([b, c], p, k) == (if p(b, k) then [b] else []) + FilterWith([c], p, k);
  }

  /** Extending a prefix of `b` after `a` by one element. */
  lemma PrefixStep<T>(a: seq<T>, b: seq<T>, j: nat)
    requires j < |b|
    ensures a + b[..j + 1] == (a + b[..j]) + [b[j]]
  {
    assert b[..j + 1] == b[..j] + [b[j]];
  }
}
