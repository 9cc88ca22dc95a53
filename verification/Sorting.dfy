/** In-place sorting with a caller-supplied comparison, the way Go's `sort.Slice` is used in the
    operator, and what such a sort does and does not determine. The library promises an ordered
    permutation only: elements that the comparison ties may come out in any order. */
module Sorting {

  ghost predicate StrictWeak<T(!new)>(less: (T, T) -> bool) {
    && (forall x :: !less(x, x))
    && (forall x, y, z :: less(x, y) && less(y, z) ==> less(x, z))
    && (forall x, y, z :: !less(x, y) && !less(y, z) ==> !less(x, z))
  }

  ghost predicate Ordered<T>(s: seq<T>, less: (T, T) -> bool) {
    forall i, j :: 0 <= i < j < |s| ==> !less(s[j], s[i])
  }

  /** The comparison tells any two different elements of `s` apart. */
  ghost predicate Separates<T>(s: seq<T>, less: (T, T) -> bool) {
    forall i, j :: 0 <= i < |s| && 0 <= j < |s| && s[i] != s[j] ==> less(s[i], s[j]) || less(s[j], s[i])
  }

  ghost predicate OrderedPermutation<T>(r: seq<T>, s: seq<T>, less: (T, T) -> bool) {
    Ordered(r, less) && multiset(r) == multiset(s)
  }

  method SortSlice<T(!new)>(a: array<T>, less: (T, T) -> bool)
    requires StrictWeak(less)
    modifies a
    ensures OrderedPermutation(a[..], old(a[..]), less)
  {
    var i := 0;
    while i < a.Length
      invariant 0 <= i <= a.Length
      invariant Ordered(a[..i], less)
      invariant multiset(a[..]) == multiset(old(a[..]))
    {
      Insert(a, i, less);
      i := i + 1;
    }
    assert a[..i] == a[..];
  }

  /** Moves `a[i]` down to its place in the ordered prefix before it. */
  method Insert<T(!new)>(a: array<T>, i: nat, less: (T, T) -> bool)
    requires StrictWeak(less)
    requires i < a.Length && Ordered(a[..i], less)
    modifies a
    ensures Ordered(a[..i + 1], less)
    ensures multiset(a[..]) == multiset(old(a[..]))
  {
    var j := i;
    while 0 < j && less(a[j], a[j - 1])
      invariant 0 <= j <= i
      invariant forall p, q :: 0 <= p < q <= i && q != j ==> !less(a[q], a[p])
      invariant multiset(a[..]) == multiset(old(a[..]))
    {
      a[j], a[j - 1] := a[j - 1], a[j];
      j := j - 1;
    }
  }

  /** A list call: some page of at most `limit` items, in whatever order the server chooses. */
  method Page<T>(items: seq<T>, limit: nat) returns (page: array<T>)
    ensures fresh(page)
    ensures |items| <= limit ==> multiset(page[..]) == multiset(items)
    ensures |items| > limit ==> page.Length == limit && multiset(page[..]) <= multiset(items)
  {
    var rest, taken := items, [];
    while rest != [] && |taken| < limit
      invariant multiset(taken) + multiset(rest) == multiset(items)
      invariant |taken| + |rest| == |items| && |taken| <= limit
      decreases |rest|
    {
      var k :| 0 <= k < |rest|;
      assert rest == rest[..k] + [rest[k]] + rest[k + 1..];
      taken, rest := taken + [rest[k]], rest[..k] + rest[k + 1..];
    }
    page := new T[|taken|](i requires 0 <= i < |taken| => taken[i]);
    assert page[..] == taken;
  }

  lemma MultisetOfTail<T>(s: seq<T>)
    requires s != []
    ensures multiset(s[1..]) == multiset(s) - multiset{s[0]}
  {
    assert s == [s[0]] + s[1..];
  }

  lemma SeparatesPermuted<T>(s: seq<T>, t: seq<T>, less: (T, T) -> bool)
    requires Separates(s, less) && multiset(s) == multiset(t)
    ensures Separates(t, less)
  {
    forall i, j | 0 <= i < |t| && 0 <= j < |t| && t[i] != t[j] ensures less(t[i], t[j]) || less(t[j], t[i]) {
      assert t[i] in multiset(s) && t[j] in multiset(s);
    }
  }

  /** When the comparison separates the elements, every ordered permutation is the same sequence. */
  lemma {:induction false} OrderedUnique<T(!new)>(r: seq<T>, t: seq<T>, less: (T, T) -> bool)
    requires Ordered(r, less) && Ordered(t, less) && multiset(r) == multiset(t)
    requires Separates(r, less)
    ensures r == t
  {
    assert |r| == |multiset(r)| == |multiset(t)| == |t|;
    if r == [] {
      return;
    }
    assert t[0] in multiset(r) && r[0] in multiset(t);
    var m :| 0 <= m < |r| && r[m] == t[0];
    var k :| 0 <= k < |t| && t[k] == r[0];
    if r[0] != t[0] {
      assert false;
    }
    MultisetOfTail(r);
    MultisetOfTail(t);
    OrderedUnique(r[1..], t[1..], less);
    assert r == [r[0]] + r[1..] && t == [t[0]] + t[1..];
  }

  /** Two tied elements of an ordered sequence can trade places, and it stays ordered. */
  lemma SwapTied<T(!new)>(r: seq<T>, i: nat, j: nat, less: (T, T) -> bool)
    requires StrictWeak(less) && Ordered(r, less)
    requires i < j < |r| && !less(r[i], r[j])
    ensures OrderedPermutation(r[i := r[j]][j := r[i]], r, less)
  {
    var w := r[i := r[j]][j := r[i]];
    forall p, q | 0 <= p < q < |w| ensures !less(w[q], w[p]) {
      // everything from i to j is tied with both ends
      assert forall k :: i <= k <= j ==> !less(r[k], r[j]) && !less(r[i], r[k]) by {
        forall k | i <= k <= j ensures !less(r[k], r[j]) && !less(r[i], r[k]) {
          assert !less(r[j], r[i]);
          assert k != i ==> !less(r[k], r[i]);
          assert k != j ==> !less(r[j], r[k]);
        }
      }
    }
    assert multiset(w) == multiset(r);
  }

  /** Exactly when does a sort decide the result? When it separates the elements. */
  lemma OrderDeterminedIff<T(!new)>(r: seq<T>, less: (T, T) -> bool)
    requires StrictWeak(less) && Ordered(r, less)
    ensures (forall t :: OrderedPermutation(t, r, less) ==> t == r) <==> Separates(r, less)
  {
    if Separates(r, less) {
      forall t | OrderedPermutation(t, r, less) ensures t == r {
        OrderedUnique(r, t, less);
      }
    } else {
      var i, j :| 0 <= i < |r| && 0 <= j < |r| && r[i] != r[j] && !less(r[i], r[j]) && !less(r[j], r[i]);
      var lo, hi := if i < j then i else j, if i < j then j else i;
      SwapTied(r, lo, hi, less);
      assert r[lo := r[hi]][hi := r[lo]][lo] != r[lo];
    }
  }

  /** Exactly when does a sort decide which element comes first? When nothing different ties it. */
  lemma FirstDeterminedIff<T(!new)>(r: seq<T>, less: (T, T) -> bool)
    requires StrictWeak(less) && Ordered(r, less) && r != []
    ensures (forall t :: OrderedPermutation(t, r, less) ==> t != [] && t[0] == r[0])
       <==> (forall j :: 0 <= j < |r| && r[j] != r[0] ==> less(r[0], r[j]))
  {
    if forall j :: 0 <= j < |r| && r[j] != r[0] ==> less(r[0], r[j]) {
      forall t | OrderedPermutation(t, r, less) ensures t != [] && t[0] == r[0] {
        assert r[0] in multiset(t);
        var k :| 0 <= k < |t| && t[k] == r[0];
        assert t[0] in multiset(r);
        var m :| 0 <= m < |r| && r[m] == t[0];
      }
    } else {
      var j :| 0 <= j < |r| && r[j] != r[0] && !less(r[0], r[j]);
      SwapTied(r, 0, j, less);
      assert r[0 := r[j]][j := r[0]][0] != r[0];
    }
  }

  function Map<A, B>(f: A -> B, s: seq<A>): (r: seq<B>)
    ensures |r| == |s|
  {
    seq(|s|, i requires 0 <= i < |s| => f(s[i]))
  }

  lemma MapRemove<A, B>(f: A -> B, t: seq<A>, k: nat)
    requires k < |t|
    ensures multiset(Map(f, t)) == multiset(Map(f, t[..k] + t[k + 1..])) + multiset{f(t[k])}
  {
    var a, b := Map(f, t[..k]), Map(f, t[k + 1..]);
    assert Map(f, t) == a + [f(t[k])] + b;
    assert Map(f, t[..k] + t[k + 1..]) == a + b;
  }

  lemma Locate<A>(s: seq<A>, t: seq<A>) returns (k: nat)
    requires s != [] && multiset(s) == multiset(t)
    ensures k < |t| && t[k] == s[0] && multiset(s[1..]) == multiset(t[..k] + t[k + 1..])
  {
    assert s[0] in multiset(t);
    k :| 0 <= k < |t| && t[k] == s[0];
    assert t == t[..k] + [t[k]] + t[k + 1..];
    MultisetOfTail(s);
  }

  /** Mapping a permutation gives a permutation. */
  lemma {:induction false} MapPermutation<A, B>(f: A -> B, s: seq<A>, t: seq<A>)
    requires multiset(s) == multiset(t)
    ensures multiset(Map(f, s)) == multiset(Map(f, t))
  {
    if s == [] {
      assert |t| == |multiset(t)| == 0;
    } else {
      var k := Locate(s, t);
      MapPermutation(f, s[1..], t[..k] + t[k + 1..]);
      MapRemove(f, t, k);
      MapRemove(f, s, 0);
      assert s[..0] + s[1..] == s[1..];
    }
  }

  /** Two listings without repetition of the same set are permutations of each other. */
  lemma SameElementsPermute<T>(s: seq<T>, t: seq<T>)
    requires forall i, j :: 0 <= i < j < |s| ==> s[i] != s[j]
    requires forall i, j :: 0 <= i < j < |t| ==> t[i] != t[j]
    requires forall x :: x in s <==> x in t
    ensures multiset(s) == multiset(t)
  {
    forall x ensures multiset(s)[x] == multiset(t)[x] {
      OnceInMultiset(s, x);
      OnceInMultiset(t, x);
    }
  }

  lemma {:induction false} OnceInMultiset<T>(s: seq<T>, x: T)
    requires forall i, j :: 0 <= i < j < |s| ==> s[i] != s[j]
    ensures multiset(s)[x] == if x in s then 1 else 0
  {
    if s != [] {
      MultisetOfTail(s);
      OnceInMultiset(s[1..], x);
    }
  }
}
