/** Vector and hash-map idioms shared by the list-keeping classes:
    `iter().position`, `Vec::remove`, the "push if absent" pattern and the
    enumeration of a `HashMap` or `HashSet` in some order. */
module Collections {
  import opened Wrappers

  /** No element occurs twice. */
  predicate Distinct<T(==)>(xs: seq<T>) {
    forall i, j :: 0 <= i < j < |xs| ==> xs[i] != xs[j]
  }

  /** `iter().position(|y| y == x)`: the first index holding `x`. */
  function Position<T(==)>(xs: seq<T>, x: T): (r: Option<nat>)
    ensures r.Some? ==> r.value < |xs| && xs[r.value] == x
    ensures r.Some? ==> forall j :: 0 <= j < r.value ==> xs[j] != x
    ensures r.None? <==> x !in xs
    decreases |xs|
  {
    if |xs| == 0 then None
    else if xs[0] == x then Some(0)
    else match Position(xs[1..], x)
      case None => None
      case Some(i) => Some(i + 1)
  }

  /** `if let Some(i) = position(..) { remove(i) }`. */
  function RemoveFirst<T(==)>(xs: seq<T>, x: T): seq<T> {
    match Position(xs, x)
    case None => xs
    case Some(i) => xs[..i] + xs[i + 1..]
  }

  /** Removing deletes exactly one occurrence of a present element and
      keeps the order of the others; an absent element changes nothing. */
  lemma RemoveFirstCounts<T>(xs: seq<T>, x: T)
    ensures x !in xs ==> RemoveFirst(xs, x) == xs
    ensures x in xs ==> |RemoveFirst(xs, x)| == |xs| - 1
                        && multiset(RemoveFirst(xs, x)) == multiset(xs) - multiset{x}
  {
    if x in xs {
      var i := Position(xs, x).value;
      assert xs == xs[..i] + [x] + xs[i + 1..];
      assert multiset(xs) == multiset(xs[..i]) + multiset{x} + multiset(xs[i + 1..]);
    }
  }

  /** In a list without duplicates, removal leaves no occurrence. */
  lemma RemoveFirstDistinct<T>(xs: seq<T>, x: T)
    requires Distinct(xs)
    ensures Distinct(RemoveFirst(xs, x))
    ensures x !in RemoveFirst(xs, x)
  {
    if x in xs {
      var i := Position(xs, x).value;
      var r := RemoveFirst(xs, x);
      assert forall k :: 0 <= k < |r| ==> r[k] == (if k < i then xs[k] else xs[k + 1]);
    }
  }

  /** `if !contains(x) { push(x) }`. */
  function PushAbsent<T(==)>(xs: seq<T>, x: T): (r: seq<T>)
    ensures x in r
    ensures multiset(r) == if x in xs then multiset(xs) else multiset(xs) + multiset{x}
  {
    if x in xs then xs else xs + [x]
  }

  /** `PushAbsent` of each of `ys` in turn: the list keeps its old
      entries in front and gains exactly the new ones. */
  function PushAll<T(==)>(xs: seq<T>, ys: seq<T>): (r: seq<T>)
    ensures xs <= r
    ensures forall i :: 0 <= i < |ys| ==> ys[i] in r
    ensures forall i :: 0 <= i < |r| ==> r[i] in xs || r[i] in ys
    decreases |ys|
  {
    if ys == [] then xs
    else
      var init := ys[..|ys| - 1];
      assert ys == init + [ys[|ys| - 1]];
      PushAbsent(PushAll(xs, init), ys[|ys| - 1])
  }

  /** Pushing keeps a list free of duplicates. */
  lemma PushAbsentDistinct<T>(xs: seq<T>, x: T)
    requires Distinct(xs)
    ensures Distinct(PushAbsent(xs, x))
  {
  }

  /** Pushing a new element and removing it again restores the list. */
  lemma PushThenRemove<T>(xs: seq<T>, x: T)
    requires x !in xs
    ensures RemoveFirst(PushAbsent(xs, x), x) == xs
  {
    var ys := xs + [x];
    assert Position(ys, x) == Some(|xs|) by {
      assert forall j :: 0 <= j < |xs| ==> ys[j] != x;
      PositionIsFirst(ys, x, |xs|);
    }
    assert ys[..|xs|] == xs;
  }

  /** `Position` is the first index that holds the element. */
  lemma {:induction false} PositionIsFirst<T>(xs: seq<T>, x: T, i: nat)
    requires i < |xs| && xs[i] == x
    requires forall j :: 0 <= j < i ==> xs[j] != x
    ensures Position(xs, x) == Some(i)
    decreases |xs|
  {
    if i > 0 {
      assert xs[0] != x;
      assert forall j :: 0 <= j < i - 1 ==> xs[1..][j] != x by {
        forall j | 0 <= j < i - 1
          ensures xs[1..][j] != x
        {
          assert xs[1..][j] == xs[j + 1];
        }
      }
      PositionIsFirst(xs[1..], x, i - 1);
    }
  }

  /** `HashMap::iter().collect()`: every entry exactly once, in an order
      the model leaves open. */
  method MapEntries<K(==), V>(m: map<K, V>) returns (r: seq<(K, V)>)
    ensures |r| == |m|
    ensures forall k :: k in m ==> (k, m[k]) in r
    ensures forall e :: e in r ==> e.0 in m && m[e.0] == e.1
    ensures forall i, j :: 0 <= i < j < |r| ==> r[i].0 != r[j].0
  {
    r := [];
    var rest := m.Keys;
    while rest != {}
      invariant rest <= m.Keys
      invariant |r| + |rest| == |m|
      invariant forall k :: k in m && k !in rest ==> (k, m[k]) in r
      invariant forall e :: e in r ==> e.0 in m && e.0 !in rest && m[e.0] == e.1
      invariant forall i, j :: 0 <= i < j < |r| ==> r[i].0 != r[j].0
      decreases rest
    {
      var k :| k in rest;
      r := r + [(k, m[k])];
      rest := rest - {k};
    }
  }

  /** `HashSet::iter().collect()`: every element exactly once. */
  method SetElements<T(==)>(s: set<T>) returns (r: seq<T>)
    ensures |r| == |s|
    ensures forall x :: x in r <==> x in s
    ensures Distinct(r)
  {
    r := [];
    var rest := s;
    while rest != {}
      invariant rest <= s
      invariant |r| + |rest| == |s|
      invariant forall x :: x in r <==> x in s && x !in rest
      invariant Distinct(r)
      decreases rest
    {
      var x :| x in rest;
      r := r + [x];
      rest := rest - {x};
    }
  }
}
