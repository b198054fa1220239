/** The array operations the pages use (`filter`, `findIndex`, `find`, `slice`, `reverse`), over sequences. */
module Seqs {
  import opened Wrappers

  /** The elements of `s` that satisfy `p`, in their original order (`Array.prototype.filter`). */
  function Filter<T(!new)>(s: seq<T>, p: T -> bool): (r: seq<T>)
    ensures |r| <= |s|
    ensures forall x :: x in r <==> x in s && p(x)
  {
    if s == [] then [] else (if p(s[0]) then [s[0]] else []) + Filter(s[1..], p)
  }

  /** Filtering a concatenation filters each part and keeps them in order: `Filter` never reorders. */
  lemma {:induction false} FilterAppend<T(!new)>(a: seq<T>, b: seq<T>, p: T -> bool)
    ensures Filter(a + b, p) == Filter(a, p) + Filter(b, p)
  {
    if a == [] {
      assert a + b == b;
    } else {
      assert (a + b)[1..] == a[1..] + b;
      FilterAppend(a[1..], b, p);
    }
  }

  /** Filtering by a predicate and by its negation splits `s` into two parts that together hold every element once. */
  lemma {:induction false} FilterComplement<T(!new)>(s: seq<T>, p: T -> bool, q: T -> bool)
    requires forall x :: q(x) == !p(x)
    ensures multiset(Filter(s, p)) + multiset(Filter(s, q)) == multiset(s)
  {
    if s != [] {
      FilterComplement(s[1..], p, q);
      FilterComplementStep(s, p, q);
      MultisetHead(s);
    }
  }

  /** A non-empty sequence holds its first element and the rest. */
  lemma MultisetHead<T>(s: seq<T>)
    requires s != []
    ensures multiset(s) == multiset{s[0]} + multiset(s[1..])
  {
    assert s == [s[0]] + s[1..];
  }

  /** The first element goes to exactly one side of the split. */
  lemma FilterComplementStep<T(!new)>(s: seq<T>, p: T -> bool, q: T -> bool)
    requires s != [] && q(s[0]) == !p(s[0])
    ensures multiset(Filter(s, p)) + multiset(Filter(s, q)) ==
      multiset{s[0]} + multiset(Filter(s[1..], p)) + multiset(Filter(s[1..], q))
  {
  }

  /** A predicate that holds of every element keeps the whole sequence. */
  lemma {:induction false} FilterKeepsAll<T(!new)>(s: seq<T>, p: T -> bool)
    requires forall x :: x in s ==> p(x)
    ensures Filter(s, p) == s
  {
    if s != [] {
      FilterKeepsAll(s[1..], p);
      assert s == [s[0]] + s[1..];
    }
  }

  /** A predicate that holds of no element keeps nothing. */
  lemma {:induction false} FilterKeepsNone<T(!new)>(s: seq<T>, p: T -> bool)
    requires forall x :: x in s ==> !p(x)
    ensures Filter(s, p) == []
  {
    if s != [] {
      FilterKeepsNone(s[1..], p);
    }
  }

  /** The index of the first element of `s` that satisfies `p` (`Array.prototype.findIndex`, with -1 as `None`). */
  function FindIndex<T(!new)>(s: seq<T>, p: T -> bool): (r: Option<nat>)
    ensures r.Some? ==> r.value < |s| && p(s[r.value])
    ensures r.Some? ==> forall j :: 0 <= j < r.value ==> !p(s[j])
    ensures r.None? <==> forall x :: x in s ==> !p(x)
  {
    if s == [] then None
    else if p(s[0]) then Some(0)
    else match FindIndex(s[1..], p)
      case None => None
      case Some(i) => Some(i + 1)
  }

  /** The first element of `s` that satisfies `p` (`Array.prototype.find`, with `undefined` as `None`). */
  function Find<T(!new)>(s: seq<T>, p: T -> bool): (r: Option<T>)
    ensures r.Some? ==> r.value in s && p(r.value)
    ensures r.None? <==> forall x :: x in s ==> !p(x)
    ensures r.Some? ==> FindIndex(s, p).Some? && s[FindIndex(s, p).value] == r.value
  {
    match FindIndex(s, p)
    case None => None
    case Some(i) => Some(s[i])
  }

  /** Filtering a single element keeps it or drops it. */
  lemma FilterSingle<T(!new)>(x: T, p: T -> bool)
    ensures Filter([x], p) == if p(x) then [x] else []
  {
    assert [x][1..] == [];
  }

  /** One step of filtering the suffix of `s` that starts at `k`. */
  lemma FilterStep<T(!new)>(s: seq<T>, k: nat, p: T -> bool)
    requires k < |s|
    ensures Filter(s[k..], p) == (if p(s[k]) then [s[k]] else []) + Filter(s[k + 1..], p)
  {
    assert s[k..][1..] == s[k + 1..];
  }

  /** Filtering splits at any index. */
  lemma FilterSplit<T(!new)>(s: seq<T>, k: nat, p: T -> bool)
    requires k <= |s|
    ensures Filter(s, p) == Filter(s[..k], p) + Filter(s[k..], p)
  {
    assert s == s[..k] + s[k..];
    FilterAppend(s[..k], s[k..], p);
  }

  /** A prefix whose elements all pass is kept whole. */
  lemma FilterPrefixAll<T(!new)>(s: seq<T>, k: nat, p: T -> bool)
    requires k <= |s| && forall j :: 0 <= j < k ==> p(s[j])
    ensures Filter(s[..k], p) == s[..k]
  {
    forall x | x in s[..k] ensures p(x) {
      var j :| 0 <= j < k && s[..k][j] == x;
    }
    FilterKeepsAll(s[..k], p);
  }

  /** A prefix whose elements all fail is dropped. */
  lemma FilterPrefixNone<T(!new)>(s: seq<T>, k: nat, p: T -> bool)
    requires k <= |s| && forall j :: 0 <= j < k ==> !p(s[j])
    ensures Filter(s[..k], p) == []
  {
    forall x | x in s[..k] ensures !p(x) {
      var j :| 0 <= j < k && s[..k][j] == x;
    }
    FilterKeepsNone(s[..k], p);
  }

  /** A suffix whose elements all fail is dropped. */
  lemma FilterSuffixNone<T(!new)>(s: seq<T>, k: nat, p: T -> bool)
    requires k <= |s| && forall j :: k <= j < |s| ==> !p(s[j])
    ensures Filter(s[k..], p) == []
  {
    forall x | x in s[k..] ensures !p(x) {
      var j :| 0 <= j < |s| - k && s[k..][j] == x;
    }
    FilterKeepsNone(s[k..], p);
  }

  /** When exactly one element passes, filtering keeps just that one. */
  lemma FilterOnlyOne<T(!new)>(s: seq<T>, k: nat, p: T -> bool)
    requires k < |s| && p(s[k]) && forall j :: 0 <= j < |s| && j != k ==> !p(s[j])
    ensures Filter(s, p) == [s[k]]
  {
    FilterSplit(s, k, p);
    FilterPrefixNone(s, k, p);
    FilterStep(s, k, p);
    FilterSuffixNone(s, k + 1, p);
  }

  /** Elements that fail `p` can be skipped: filtering from `k` is filtering from `e`. */
  lemma {:induction false} FilterSkip<T(!new)>(s: seq<T>, k: nat, e: nat, p: T -> bool)
    requires k <= e <= |s| && forall j :: k <= j < e ==> !p(s[j])
    ensures Filter(s[k..], p) == Filter(s[e..], p)
    decreases e - k
  {
    if k < e {
      FilterStep(s, k, p);
      FilterSkip(s, k + 1, e, p);
    }
  }

  /** Filtering twice is filtering once by the conjunction. */
  lemma {:induction false} FilterFilter<T(!new)>(s: seq<T>, p: T -> bool, q: T -> bool, both: T -> bool)
    requires forall x :: both(x) == (p(x) && q(x))
    ensures Filter(Filter(s, p), q) == Filter(s, both)
  {
    if s != [] {
      FilterFilter(s[1..], p, q, both);
      var head := if p(s[0]) then [s[0]] else [];
      FilterAppend(head, Filter(s[1..], p), q);
      if p(s[0]) {
        assert [s[0]][1..] == [];
      }
    }
  }

  /** Searching a concatenation finds the first part's match if it has one, else the second part's, shifted. */
  lemma {:induction false} FindIndexAppend<T(!new)>(a: seq<T>, b: seq<T>, p: T -> bool)
    ensures FindIndex(a + b, p) ==
      match FindIndex(a, p)
      case Some(i) => Some(i)
      case None => (match FindIndex(b, p) case None => None case Some(j) => Some(|a| + j))
  {
    if a == [] {
      assert a + b == b;
    } else if !p(a[0]) {
      FindIndexAppend(a[1..], b, p);
      assert (a + b)[1..] == a[1..] + b;
    }
  }

  /** `find` over a concatenation: the first part's match wins, otherwise the second part's. */
  lemma FindAppend<T(!new)>(a: seq<T>, b: seq<T>, p: T -> bool)
    ensures Find(a + b, p) == if Find(a, p).Some? then Find(a, p) else Find(b, p)
  {
    FindIndexAppend(a, b, p);
    match FindIndex(b, p)
    case None =>
    case Some(j) =>
      assert (a + b)[|a| + j] == b[j];
  }

  /** `s.slice(0, n)`: at most the first `n` elements. */
  function Take<T>(s: seq<T>, n: nat): seq<T> {
    if n <= |s| then s[..n] else s
  }

  /** `s.slice(-n)` for a positive `n`: at most the last `n` elements. */
  function LastN<T>(s: seq<T>, n: nat): seq<T> {
    if n <= |s| then s[|s| - n..] else s
  }

  /** `LastN` keeps the last `min(n, |s|)` elements, in order. */
  lemma LastNAt<T>(s: seq<T>, n: nat)
    ensures |LastN(s, n)| == (if |s| < n then |s| else n)
    ensures forall i :: 0 <= i < |LastN(s, n)| ==> LastN(s, n)[i] == s[|s| - |LastN(s, n)| + i]
  {
  }

  /** `s.reverse()` on a copy. */
  function Reverse<T>(s: seq<T>): seq<T> {
    if s == [] then [] else Reverse(s[1..]) + [s[0]]
  }

  /** Reversal keeps the length and reads the sequence from the back. */
  lemma {:induction false} ReverseAt<T>(s: seq<T>)
    ensures |Reverse(s)| == |s|
    ensures forall k :: 0 <= k < |s| ==> Reverse(s)[k] == s[|s| - 1 - k]
  {
    if s != [] {
      ReverseAt(s[1..]);
    }
  }
}
