/** Small vocabulary shared by the models: optional values and facts about sequences as bags. */
module Common {

  /** An answer that may be missing: a nil value, a NULL column, a call that returned an error. */
  datatype Option<+T> = None | Some(value: T)

  function Max(a: int, b: int): int { if a >= b then a else b }

  function Min(a: int, b: int): int { if a <= b then a else b }

  ghost predicate Distinct<T>(s: seq<T>) {
    forall i, j :: 0 <= i < j < |s| ==> s[i] != s[j]
  }

  predicate Within(order: seq<nat>, n: nat) {
    forall i :: 0 <= i < |order| ==> order[i] < n
  }

  /** The elements of `s` at the listed positions, in the listed order. */
  function Pick<T>(s: seq<T>, order: seq<nat>): (r: seq<T>)
    requires Within(order, |s|)
    ensures |r| == |order|
  {
    seq(|order|, i requires 0 <= i < |order| && Within(order, |s|) => s[order[i]])
  }

  /** `order` visits every position below `n` exactly once. */
  ghost predicate Visits(order: seq<nat>, n: nat) {
    && Distinct(order)
    && forall k: nat :: k in order <==> k < n
  }

  /** `order` lists in ascending order exactly the positions below `n` that `keep` selects. */
  ghost predicate Selects(order: seq<nat>, n: nat, keep: nat -> bool) {
    && (forall i, j :: 0 <= i < j < |order| ==> order[i] < order[j])
    && (forall i: nat :: i in order <==> i < n && keep(i))
  }

  /** `list` holds the items of the positions below `n` that `keep` selects, in ascending order. */
  ghost predicate Lists<T>(list: seq<T>, order: seq<nat>, n: nat, keep: nat -> bool, item: nat -> T) {
    Selects(order, n, keep) && |list| == |order| && forall k :: 0 <= k < |order| ==> list[k] == item(order[k])
  }

  lemma SelectsSnoc(order: seq<nat>, n: nat, keep: nat -> bool)
    requires Selects(order, n, keep)
    ensures Selects(if keep(n) then order + [n] else order, n + 1, keep)
  {
    assert forall i :: 0 <= i < |order| ==> order[i] in order;
  }

  lemma ListsSnoc<T>(list: seq<T>, order: seq<nat>, n: nat, keep: nat -> bool, item: nat -> T)
    requires Lists(list, order, n, keep, item)
    ensures
      if keep(n) then Lists(list + [item(n)], order + [n], n + 1, keep, item)
      else Lists(list, order, n + 1, keep, item)
  {
    SelectsSnoc(order, n, keep);
    hide Selects;
  }

  lemma ListsNone<T>(keep: nat -> bool, item: nat -> T)
    ensures Lists([], [], 0, keep, item)
  {
  }

  lemma PickAppend<T>(s: seq<T>, order: seq<nat>, k: nat)
    requires Within(order, |s|)
    requires k < |s|
    ensures Within(order + [k], |s|)
    ensures Pick(s, order + [k]) == Pick(s, order) + [s[k]]
  {
    assert (order + [k])[..|order|] == order;
  }

  /** The sequence without its element at `j`. */
  function Without<T>(s: seq<T>, j: nat): (r: seq<T>)
    requires j < |s|
    ensures |r| == |s| - 1
  {
    s[..j] + s[j + 1..]
  }

  lemma Around<T>(s: seq<T>, j: nat)
    requires j < |s|
    ensures s == s[..j] + [s[j]] + s[j + 1..]
  {
  }

  /** Taking out the element at `j` removes exactly one copy of it. */
  lemma RemoveAt<T>(s: seq<T>, j: nat)
    requires j < |s|
    ensures multiset(s) == multiset(Without(s, j)) + multiset{s[j]}
  {
    assert s == s[..j] + [s[j]] + s[j + 1..];
  }

  lemma PickRemoveAt<T>(s: seq<T>, order: seq<nat>, j: nat)
    requires Within(order, |s|)
    requires j < |order|
    ensures Within(Without(order, j), |s|)
    ensures multiset(Pick(s, order)) == multiset(Pick(s, Without(order, j))) + multiset{s[order[j]]}
  {
    RemoveAt(Pick(s, order), j);
    assert Without(Pick(s, order), j) == Pick(s, Without(order, j));
  }

  /** In two nonempty sequences with equal bags, the first head can be found and struck out in the second. */
  lemma StrikeHead<T>(a: seq<T>, b: seq<T>) returns (j: nat)
    requires |a| > 0
    requires multiset(a) == multiset(b)
    ensures j < |b| && b[j] == a[0]
    ensures multiset(Without(a, 0)) == multiset(Without(b, j))
  {
    hide Without;
    assert a[0] in multiset(b);
    j :| j < |b| && b[j] == a[0];
    RemoveAt(a, 0);
    RemoveAt(b, j);
    CancelOne(multiset(Without(a, 0)), multiset(Without(b, j)), a[0]);
  }

  lemma CancelOne<T>(m: multiset<T>, n: multiset<T>, x: T)
    requires m + multiset{x} == n + multiset{x}
    ensures m == n
  {
    assert m == m + multiset{x} - multiset{x};
    assert n == n + multiset{x} - multiset{x};
  }

  lemma EmptyBag<T>(a: seq<T>, b: seq<T>)
    requires a == [] && multiset(a) == multiset(b)
    ensures b == []
  {
    assert |multiset(b)| == |b|;
  }

  /** Equal bags of positions pick equal bags of elements. */
  lemma {:induction false} PickPermutation<T>(s: seq<T>, a: seq<nat>, b: seq<nat>)
    requires Within(a, |s|)
    requires Within(b, |s|)
    requires multiset(a) == multiset(b)
    ensures multiset(Pick(s, a)) == multiset(Pick(s, b))
    decreases |a|
  {
    hide Pick, Without;
    if a == [] {
      EmptyBag(a, b);
    } else {
      var j := StrikeHead(a, b);
      PickRemoveAt(s, a, 0);
      PickRemoveAt(s, b, j);
      PickPermutation(s, Without(a, 0), Without(b, j));
    }
  }

  lemma {:induction false} DistinctBag<T>(s: seq<T>)
    requires Distinct(s)
    ensures forall x :: multiset(s)[x] == if x in s then 1 else 0
  {
    if |s| > 0 {
      var n := |s| - 1;
      DistinctBag(s[..n]);
      RemoveAt(s, n);
      assert Without(s, n) == s[..n];
      assert s[n] !in s[..n];
    }
  }

  /** Visiting every position once, in whatever order, yields the sequence up to order. */
  lemma VisitsIsPermutation<T>(s: seq<T>, order: seq<nat>)
    requires Visits(order, |s|)
    ensures |order| == |s| && Within(order, |s|)
    ensures multiset(Pick(s, order)) == multiset(s)
  {
    var ids: seq<nat> := seq(|s|, i => i);
    assert Distinct(ids);
    assert forall i :: 0 <= i < |order| ==> order[i] in order;
    assert forall k: nat :: k in ids <==> k < |s| by {
      forall k: nat | k < |s| ensures k in ids { assert ids[k] == k; }
    }
    DistinctBag(ids);
    DistinctBag(order);
    assert forall k: nat :: k in order <==> k in ids;
    assert multiset(order) == multiset(ids);
    assert |multiset(order)| == |order| && |multiset(ids)| == |ids|;
    PickPermutation(s, order, ids);
    assert Pick(s, ids) == s;
  }

  /** Two positions holding the same element give it multiplicity two. */
  lemma RepeatedTwice<T>(t: seq<T>, i: nat, j: nat)
    requires i < j < |t|
    ensures t[i] == t[j] ==> multiset(t)[t[i]] >= 2
  {
    RemoveAt(t, j);
    assert Without(t, j)[i] == t[i];
    assert t[i] in Without(t, j);
  }

  /** A permutation of a sequence without repetitions has none either. */
  lemma DistinctPermutation<T>(s: seq<T>, t: seq<T>)
    requires Distinct(s)
    requires multiset(s) == multiset(t)
    ensures Distinct(t)
  {
    DistinctBag(s);
    forall i, j | 0 <= i < j < |t| ensures t[i] != t[j] {
      RepeatedTwice(t, i, j);
    }
  }
}
