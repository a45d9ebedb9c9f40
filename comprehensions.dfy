/** The Python list and dict comprehensions the registry is built from:
    filtering a list on a key of each element, projecting a list, and
    building a dictionary in which later entries overwrite earlier ones. */
module Comprehensions {

  /** `[x for x in xs if wanted(key(x))]`: keeps, in order, the elements whose
      key is wanted. */
  function Filter<T(!new), K>(xs: seq<T>, key: T -> K, wanted: K -> bool): (r: seq<T>)
    ensures |r| <= |xs|
    ensures forall x :: x in r <==> x in xs && wanted(key(x))
    ensures forall x :: multiset(r)[x] == if wanted(key(x)) then multiset(xs)[x] else 0
    ensures forall i :: 0 <= i < |r| ==> wanted(key(r[i]))
  {
    if xs == [] then []
    else
      assert xs == [xs[0]] + xs[1..];
      (if wanted(key(xs[0])) then [xs[0]] else []) + Filter(xs[1..], key, wanted)
  }

  /** The positions of the wanted elements, counted from start, in
      increasing order. */
  function KeptPositions<T, K>(xs: seq<T>, key: T -> K, wanted: K -> bool, start: int): (idx: seq<int>)
    ensures forall k :: 0 <= k < |idx| ==> start <= idx[k] < start + |xs|
    ensures forall k, l :: 0 <= k < l < |idx| ==> idx[k] < idx[l]
  {
    if xs == [] then []
    else (if wanted(key(xs[0])) then [start] else []) + KeptPositions(xs[1..], key, wanted, start + 1)
  }

  /** Every position holding a wanted element is a kept position. */
  lemma {:induction false} KeptPositionsComplete<T, K>(xs: seq<T>, key: T -> K, wanted: K -> bool, start: int, i: int)
    requires 0 <= i < |xs| && wanted(key(xs[i]))
    ensures start + i in KeptPositions(xs, key, wanted, start)
  {
    if i > 0 {
      assert xs[1..][i - 1] == xs[i];
      KeptPositionsComplete(xs[1..], key, wanted, start + 1, i - 1);
    }
  }

  /** The elements of whole at the positions idx, in the order of idx. */
  function ReadAt<T>(whole: seq<T>, idx: seq<int>): (r: seq<T>)
    requires forall k :: 0 <= k < |idx| ==> 0 <= idx[k] < |whole|
    ensures |r| == |idx| && forall k :: 0 <= k < |idx| ==> r[k] == whole[idx[k]]
  {
    if idx == [] then [] else [whole[idx[0]]] + ReadAt(whole, idx[1..])
  }

  /** The filtered list is the input read at the kept positions: the kept
      elements appear in their input order. */
  lemma FilterKeepsOrder<T(!new), K>(xs: seq<T>, key: T -> K, wanted: K -> bool)
    ensures Filter(xs, key, wanted) == ReadAt(xs, KeptPositions(xs, key, wanted, 0))
  {
    KeptPositionsRead(xs, key, wanted, 0, xs);
  }

  /** Read at the kept positions counted from start, the list whole, whose
      suffix from start is xs, gives xs filtered. */
  lemma {:induction false} KeptPositionsRead<T(!new), K>(xs: seq<T>, key: T -> K, wanted: K -> bool, start: int, whole: seq<T>)
    requires 0 <= start && start + |xs| == |whole| && whole[start..] == xs
    ensures Filter(xs, key, wanted) == ReadAt(whole, KeptPositions(xs, key, wanted, start))
  {
    if xs != [] {
      assert whole[start + 1..] == xs[1..];
      KeptPositionsRead(xs[1..], key, wanted, start + 1, whole);
      var rest := KeptPositions(xs[1..], key, wanted, start + 1);
      if wanted(key(xs[0])) {
        assert ([start] + rest)[1..] == rest;
        assert whole[start] == xs[0];
      }
    }
  }

  /** `[f(x) for x in xs]`: same length, same order. */
  function Project<T, U>(xs: seq<T>, f: T -> U): (r: seq<U>)
    ensures |r| == |xs|
    ensures forall i :: 0 <= i < |xs| ==> r[i] == f(xs[i])
  {
    if xs == [] then [] else [f(xs[0])] + Project(xs[1..], f)
  }

  /** `{key(x): val(x) for x in xs}`: the keys are the keys of the elements;
      a later element overwrites an earlier one with the same key. */
  function NameMap<T, V>(xs: seq<T>, key: T -> string, val: T -> V): (m: map<string, V>)
    ensures m.Keys == set i | 0 <= i < |xs| :: key(xs[i])
  {
    if xs == [] then map[]
    else
      var init := xs[..|xs| - 1];
      var m0 := NameMap(init, key, val);
      var last := xs[|xs| - 1];
      assert forall i :: 0 <= i < |init| ==> init[i] == xs[i];
      assert (set i | 0 <= i < |xs| :: key(xs[i])) == (set i | 0 <= i < |init| :: key(init[i])) + {key(last)};
      m0[key(last) := val(last)]
  }

  /** A key maps to the value of the last element that has it. */
  lemma {:induction false} NameMapLastWins<T, V>(xs: seq<T>, key: T -> string, val: T -> V, i: int)
    requires 0 <= i < |xs|
    requires forall j :: i < j < |xs| ==> key(xs[j]) != key(xs[i])
    ensures key(xs[i]) in NameMap(xs, key, val)
    ensures NameMap(xs, key, val)[key(xs[i])] == val(xs[i])
  {
    if i < |xs| - 1 {
      var init := xs[..|xs| - 1];
      assert init[i] == xs[i];
      assert forall j :: i < j < |init| ==> init[j] == xs[j];
      NameMapLastWins(init, key, val, i);
    }
  }

  /** Every value in the map is the value of some element with that key. */
  lemma {:induction false} NameMapValueFrom<T, V>(xs: seq<T>, key: T -> string, val: T -> V, k: string)
    returns (i: int)
    requires k in NameMap(xs, key, val)
    ensures 0 <= i < |xs| && key(xs[i]) == k && NameMap(xs, key, val)[k] == val(xs[i])
  {
    var init := xs[..|xs| - 1];
    if k == key(xs[|xs| - 1]) {
      i := |xs| - 1;
    } else {
      i := NameMapValueFrom(init, key, val, k);
      assert init[i] == xs[i];
    }
  }

  /** Filtering distributes over concatenation. */
  lemma {:induction false} FilterConcat<T(!new), K>(a: seq<T>, b: seq<T>, key: T -> K, wanted: K -> bool)
    ensures Filter(a + b, key, wanted) == Filter(a, key, wanted) + Filter(b, key, wanted)
  {
    if a == [] {
      assert a + b == b;
    } else {
      assert (a + b)[1..] == a[1..] + b;
      FilterConcat(a[1..], b, key, wanted);
    }
  }

  /** Filtering keeps everything when every key is wanted. */
  lemma {:induction false} FilterKeepsAll<T(!new), K>(xs: seq<T>, key: T -> K, wanted: K -> bool)
    requires forall i :: 0 <= i < |xs| ==> wanted(key(xs[i]))
    ensures Filter(xs, key, wanted) == xs
  {
    if xs != [] {
      FilterKeepsAll(xs[1..], key, wanted);
    }
  }

  /** Filtering keeps nothing when no key is wanted. */
  lemma FilterKeepsNone<T(!new), K>(xs: seq<T>, key: T -> K, wanted: K -> bool)
    requires forall i :: 0 <= i < |xs| ==> !wanted(key(xs[i]))
    ensures Filter(xs, key, wanted) == []
  {
  }

  /** Two lists whose key projections agree still agree after both are
      filtered on the same keys. */
  lemma {:induction false} FilterProjectAgree<T(!new), U(!new), K>(xs: seq<T>, ys: seq<U>, f: T -> K, g: U -> K, wanted: K -> bool)
    requires Project(xs, f) == Project(ys, g)
    ensures Project(Filter(xs, f, wanted), f) == Project(Filter(ys, g, wanted), g)
  {
    if xs != [] {
      var px, py := Project(xs, f), Project(ys, g);
      assert px[0] == py[0];
      assert px[1..] == Project(xs[1..], f) && py[1..] == Project(ys[1..], g);
      FilterProjectAgree(xs[1..], ys[1..], f, g, wanted);
      var hx := if wanted(f(xs[0])) then [xs[0]] else [];
      var hy := if wanted(g(ys[0])) then [ys[0]] else [];
      ProjectConcat(hx, Filter(xs[1..], f, wanted), f);
      ProjectConcat(hy, Filter(ys[1..], g, wanted), g);
    }
  }

  /** Projection distributes over concatenation. */
  lemma {:induction false} ProjectConcat<T, U>(a: seq<T>, b: seq<T>, f: T -> U)
    ensures Project(a + b, f) == Project(a, f) + Project(b, f)
  {
    if a == [] {
      assert a + b == b;
    } else {
      assert (a + b)[1..] == a[1..] + b;
      ProjectConcat(a[1..], b, f);
    }
  }
}
