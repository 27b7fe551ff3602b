/** What a callback that may throw is given: everything up to the first value at which it throws. */
module Callbacks {
  /** throws tells, of all that the callback has been given, whether it throws at the last. */
  predicate ThrowsAt<T>(throws: seq<T> -> bool, values: seq<T>, k: nat)
    requires k < |values|
  {
    throws(values[..k + 1])
  }

  function FirstThrow<T>(throws: seq<T> -> bool, values: seq<T>, i: nat): (k: nat)
    requires i <= |values|
    ensures i <= k <= |values|
    ensures k < |values| ==> ThrowsAt(throws, values, k)
    ensures forall j :: i <= j < k ==> !ThrowsAt(throws, values, j)
    decreases |values| - i
  {
    if i == |values| || ThrowsAt(throws, values, i) then i else FirstThrow(throws, values, i + 1)
  }

  predicate Thrown<T>(throws: seq<T> -> bool, values: seq<T>) {
    FirstThrow(throws, values, 0) < |values|
  }

  function Given<T>(throws: seq<T> -> bool, values: seq<T>): seq<T> {
    if Thrown(throws, values) then values[..FirstThrow(throws, values, 0) + 1] else values
  }

  lemma SamePrefix<T>(throws: seq<T> -> bool, values: seq<T>, more: seq<T>)
    requires values <= more
    ensures forall k :: 0 <= k < |values| ==> ThrowsAt(throws, more, k) == ThrowsAt(throws, values, k)
  {
    forall k | 0 <= k < |values|
      ensures ThrowsAt(throws, more, k) == ThrowsAt(throws, values, k)
    {
      assert more[..k + 1] == values[..k + 1];
    }
  }

  /** Once it has thrown, nothing more is given. */
  lemma GivenStays<T>(throws: seq<T> -> bool, values: seq<T>, more: seq<T>)
    requires Thrown(throws, values) && values <= more
    ensures Thrown(throws, more) && Given(throws, more) == Given(throws, values)
  {
    SamePrefix(throws, values, more);
    hide ThrowsAt;
    var k := FirstThrow(throws, values, 0);
    assert FirstThrow(throws, more, 0) == k;
    assert more[..k + 1] == values[..k + 1];
  }

  /** It throws at a next value, or not. */
  lemma GivenNext<T>(throws: seq<T> -> bool, values: seq<T>, value: T)
    requires !Thrown(throws, values)
    ensures Thrown(throws, values + [value]) <==> throws(values + [value])
    ensures Given(throws, values + [value]) == values + [value]
  {
    var more := values + [value];
    SamePrefix(throws, values, more);
    assert more[..|values| + 1] == more;
    assert ThrowsAt(throws, more, |values|) == throws(more);
  }
}
