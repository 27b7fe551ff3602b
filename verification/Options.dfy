/** The usual optional value, and the zero-or-one-element list it denotes. */
module Options {
  datatype Option<+T> = None | Some(value: T)

  function Emit<T>(o: Option<T>): seq<T> {
    match o
    case None => []
    case Some(v) => [v]
  }

  lemma Assoc<T>(a: seq<T>, b: seq<T>, c: seq<T>)
    ensures a + (b + c) == a + b + c
  {
  }

  /** A list without one value. */
  function Without<T(==)>(s: seq<T>, value: T): seq<T> {
    if s == [] then []
    else
      var n := |s| - 1;
      Without(s[..n], value) + (if s[n] == value then [] else [s[n]])
  }

  lemma {:induction false} WithoutMembers<T>(s: seq<T>, value: T)
    ensures forall x :: x in Without(s, value) <==> x in s && x != value
    decreases |s|
  {
    if s != [] {
      var n := |s| - 1;
      WithoutMembers(s[..n], value);
      assert s == s[..n] + [s[n]];
    }
  }

  /** The first index, at or after i, of an element that passes the test; |s| if there is none. */
  function FirstIndex<T>(s: seq<T>, test: T -> bool, i: nat): (j: nat)
    requires i <= |s|
    ensures i <= j <= |s|
    ensures j < |s| ==> test(s[j])
    ensures forall k :: i <= k < j ==> !test(s[k])
    decreases |s| - i
  {
    if i == |s| || test(s[i]) then i else FirstIndex(s, test, i + 1)
  }

  function Filter<T>(keep: T -> bool, s: seq<T>): seq<T> {
    if s == [] then []
    else Filter(keep, s[..|s| - 1]) + (if keep(s[|s| - 1]) then [s[|s| - 1]] else [])
  }

  lemma {:induction false} FilterConcat<T>(keep: T -> bool, a: seq<T>, b: seq<T>)
    ensures Filter(keep, a + b) == Filter(keep, a) + Filter(keep, b)
    decreases |b|
  {
    if b == [] {
      assert a + b == a;
    } else {
      assert (a + b)[..|a + b| - 1] == a + b[..|b| - 1];
      FilterConcat(keep, a, b[..|b| - 1]);
    }
  }

  /** The values that a partial function has on a list. */
  function Collect<S, T>(f: S -> Option<T>, s: seq<S>): seq<T> {
    if s == [] then [] else Collect(f, s[..|s| - 1]) + Emit(f(s[|s| - 1]))
  }

  lemma {:induction false} CollectConcat<S, T>(f: S -> Option<T>, a: seq<S>, b: seq<S>)
    ensures Collect(f, a + b) == Collect(f, a) + Collect(f, b)
    decreases |b|
  {
    if b == [] {
      assert a + b == a;
    } else {
      assert (a + b)[..|a + b| - 1] == a + b[..|b| - 1];
      CollectConcat(f, a, b[..|b| - 1]);
    }
  }

  lemma FilterOne<T>(keep: T -> bool, x: T)
    ensures Filter(keep, [x]) == if keep(x) then [x] else []
  {
    assert [x][..0] == [];
  }

  lemma CollectOne<S, T>(f: S -> Option<T>, x: S)
    ensures Collect(f, [x]) == Emit(f(x))
  {
    assert [x][..0] == [];
  }
}
