/** The replacement of delimited spans in a sequence: what a lazy global regular expression does. */
module Spans {
  import opened Options

  /** A span found at the start of a sequence: what it encloses, and what follows it. */
  datatype Cut<T> = Cut(content: seq<T>, rest: seq<T>)

  /** Where the delimiter first occurs, if no stop comes before it. */
  function CloseIndex<T(==)>(s: seq<T>, delimiter: seq<T>, stops: set<T>): (r: Option<nat>)
    ensures r.Some? ==> r.value + |delimiter| <= |s|
  {
    if delimiter <= s then Some(0)
    else if s == [] || s[0] in stops then None
    else
      var r := CloseIndex(s[1..], delimiter, stops);
      if r.Some? then Some(r.value + 1) else None
  }

  /** After an opening delimiter: at least one element that is no stop, as few more as possible, and the
      delimiter again. */
  function Enclosed<T(==)>(after: seq<T>, delimiter: seq<T>, stops: set<T>): (r: Option<Cut<T>>)
    ensures r.Some? ==> |r.value.rest| < |after|
  {
    if after == [] || after[0] in stops then None
    else
      var close := CloseIndex(after[1..], delimiter, stops);
      if close.None? then None
      else Some(Cut(after[..close.value + 1], after[close.value + 1 + |delimiter|..]))
  }

  function Span<T(==)>(s: seq<T>, delimiter: seq<T>, stops: set<T>): (r: Option<Cut<T>>)
    ensures r.Some? ==> |r.value.rest| < |s|
  {
    if delimiter <= s then Enclosed(s[|delimiter|..], delimiter, stops) else None
  }

  /** The first of the delimiters that has a span here. */
  function FirstSpan<T(==)>(s: seq<T>, delimiters: seq<seq<T>>, stops: set<T>): (r: Option<Cut<T>>)
    ensures r.Some? ==> |r.value.rest| < |s|
  {
    if delimiters == [] then None
    else
      var first := Span(s, delimiters[0], stops);
      if first.Some? then first else FirstSpan(s, delimiters[1..], stops)
  }

  /** Every span, from the left, is put between open and close without its delimiters. */
  function Wrap<T(==)>(s: seq<T>, delimiters: seq<seq<T>>, stops: set<T>, open: seq<T>, close: seq<T>): seq<T>
    decreases |s|
  {
    if s == [] then []
    else
      var span := FirstSpan(s, delimiters, stops);
      if span.Some? then open + span.value.content + close + Wrap(span.value.rest, delimiters, stops, open, close)
      else [s[0]] + Wrap(s[1..], delimiters, stops, open, close)
  }

  // ---------------------------------------------------------------- passing over what matches nothing

  /** Nothing before the rest stops the search or is the delimiter. */
  predicate NoCloseIn<T(==)>(p: seq<T>, rest: seq<T>, delimiter: seq<T>, stops: set<T>) {
    forall i :: 0 <= i < |p| ==> p[i] !in stops && !(delimiter <= p[i..] + rest)
  }

  lemma NoCloseInTail<T>(p: seq<T>, rest: seq<T>, delimiter: seq<T>, stops: set<T>)
    requires p != [] && NoCloseIn(p, rest, delimiter, stops)
    ensures p[0] !in stops && !(delimiter <= p + rest) && NoCloseIn(p[1..], rest, delimiter, stops)
  {
    assert p[0..] == p;
    forall i | 0 <= i < |p[1..]|
      ensures p[1..][i] !in stops && !(delimiter <= p[1..][i..] + rest)
    {
      assert p[1..][i] == p[i + 1] && p[1..][i..] == p[i + 1..];
    }
  }

  lemma {:induction false} CloseAfter<T>(p: seq<T>, rest: seq<T>, delimiter: seq<T>, stops: set<T>)
    requires NoCloseIn(p, rest, delimiter, stops)
    ensures var r := CloseIndex(rest, delimiter, stops);
            CloseIndex(p + rest, delimiter, stops) == if r.Some? then Some(|p| + r.value) else None
    decreases |p|
  {
    if p == [] {
      assert p + rest == rest;
    } else {
      NoCloseInTail(p, rest, delimiter, stops);
      CloseAfter(p[1..], rest, delimiter, stops);
      assert (p + rest)[1..] == p[1..] + rest;
    }
  }

  lemma {:induction false} WrapAfter<T>(p: seq<T>, rest: seq<T>, delimiters: seq<seq<T>>, stops: set<T>,
                                        open: seq<T>, close: seq<T>)
    requires forall i :: 0 <= i < |p| ==> FirstSpan(p[i..] + rest, delimiters, stops).None?
    ensures Wrap(p + rest, delimiters, stops, open, close) == p + Wrap(rest, delimiters, stops, open, close)
    decreases |p|
  {
    if p == [] {
      assert p + rest == rest;
    } else {
      forall i | 0 <= i < |p[1..]|
        ensures FirstSpan(p[1..][i..] + rest, delimiters, stops).None?
      {
        assert p[1..][i..] == p[i + 1..];
      }
      WrapAfter(p[1..], rest, delimiters, stops, open, close);
      assert p[0..] == p && (p + rest)[1..] == p[1..] + rest;
      Assoc([p[0]], p[1..], Wrap(rest, delimiters, stops, open, close));
      assert [p[0]] + p[1..] == p;
    }
  }

  predicate NotYet<T(==)>(s: seq<T>, i: nat, delimiter: seq<T>, stops: set<T>)
    requires i < |s|
  {
    s[i] !in stops && !(delimiter <= s[i..])
  }

  predicate ClosesAt<T(==)>(s: seq<T>, k: nat, delimiter: seq<T>, stops: set<T>) {
    k <= |s| && delimiter <= s[k..] && forall i :: 0 <= i < k ==> NotYet(s, i, delimiter, stops)
  }

  lemma ClosesInTail<T>(s: seq<T>, k: nat, delimiter: seq<T>, stops: set<T>)
    requires 0 < k <= |s|
    ensures ClosesAt(s, k, delimiter, stops) <==>
            NotYet(s, 0, delimiter, stops) && ClosesAt(s[1..], k - 1, delimiter, stops)
  {
    assert s[1..][k - 1..] == s[k..];
    forall i | 0 <= i < k - 1
      ensures NotYet(s[1..], i, delimiter, stops) == NotYet(s, i + 1, delimiter, stops)
    {
      assert s[1..][i..] == s[i + 1..];
    }
    assert forall i :: 0 < i < k ==> NotYet(s, i, delimiter, stops) == NotYet(s[1..], i - 1, delimiter, stops);
  }

  /** The closing delimiter is the first one after the start, with no stop before it. */
  lemma {:induction false} CloseIndexIff<T>(s: seq<T>, delimiter: seq<T>, stops: set<T>, k: nat)
    ensures CloseIndex(s, delimiter, stops) == Some(k) <==> ClosesAt(s, k, delimiter, stops)
    decreases |s|
  {
    assert s[0..] == s;
    if 0 < k <= |s| {
      ClosesInTail(s, k, delimiter, stops);
      CloseIndexIff(s[1..], delimiter, stops, k - 1);
    }
  }

  lemma ClosedBy<T>(s: seq<T>, delimiter: seq<T>, stops: set<T>, k: nat)
    requires CloseIndex(s, delimiter, stops) == Some(k)
    ensures k <= |s| && delimiter <= s[k..]
  {
    CloseIndexIff(s, delimiter, stops, k);
  }

  lemma InParts<T>(after: seq<T>, delimiter: seq<T>, k: nat)
    requires k < |after| && delimiter <= after[1..][k..]
    ensures k + 1 + |delimiter| <= |after|
    ensures after == after[..k + 1] + delimiter + after[k + 1 + |delimiter|..]
  {
    var m := |delimiter|;
    assert after[1..][k..] == after[k + 1..];
    assert after[k + 1..][..m] == delimiter;
    assert after[k + 1..][m..] == after[k + 1 + m..];
  }

  lemma EnclosedIs<T>(after: seq<T>, delimiter: seq<T>, stops: set<T>)
    ensures after == [] || after[0] in stops ==> Enclosed(after, delimiter, stops).None?
    ensures after != [] && after[0] !in stops && CloseIndex(after[1..], delimiter, stops).None? ==>
              Enclosed(after, delimiter, stops).None?
  {
  }

  lemma EnclosedBy<T>(after: seq<T>, delimiter: seq<T>, stops: set<T>, k: nat)
    requires after != [] && after[0] !in stops && CloseIndex(after[1..], delimiter, stops) == Some(k)
    ensures k + 1 + |delimiter| <= |after|
    ensures Enclosed(after, delimiter, stops) == Some(Cut(after[..k + 1], after[k + 1 + |delimiter|..]))
  {
  }

  /** A span is one: its sequence is delimiter, content, delimiter and rest. */
  lemma SpanIs<T>(s: seq<T>, delimiter: seq<T>, stops: set<T>)
    requires Span(s, delimiter, stops).Some?
    ensures var Cut(content, rest) := Span(s, delimiter, stops).value;
            content != [] && s == delimiter + (content + delimiter + rest)
  {
    hide CloseIndex;
    var after := s[|delimiter|..];
    var k := CloseIndex(after[1..], delimiter, stops).value;
    ClosedBy(after[1..], delimiter, stops, k);
    InParts(after, delimiter, k);
    assert s == s[..|delimiter|] + after;
  }

  lemma {:induction false} FirstSpanIs<T>(s: seq<T>, delimiters: seq<seq<T>>, stops: set<T>) returns (delimiter: seq<T>)
    requires FirstSpan(s, delimiters, stops).Some?
    ensures delimiter in delimiters
    ensures var Cut(content, rest) := FirstSpan(s, delimiters, stops).value;
            content != [] && s == delimiter + (content + delimiter + rest)
    decreases |delimiters|
  {
    if Span(s, delimiters[0], stops).Some? {
      delimiter := delimiters[0];
      SpanIs(s, delimiter, stops);
    } else {
      delimiter := FirstSpanIs(s, delimiters[1..], stops);
    }
  }

  /** No element of the content is a stop, and no delimiter starts after its first. */
  predicate Lazy<T(==)>(content: seq<T>, after: seq<T>, delimiter: seq<T>, stops: set<T>)
    requires |content| <= |after|
  {
    forall i :: 0 <= i < |content| ==> content[i] !in stops && (i > 0 ==> !(delimiter <= after[i..]))
  }

  lemma LazyCloses<T>(after: seq<T>, delimiter: seq<T>, stops: set<T>, content: seq<T>, rest: seq<T>)
    requires after == content + delimiter + rest && content != []
    ensures Lazy(content, after, delimiter, stops) <==>
            after[0] !in stops && ClosesAt(after[1..], |content| - 1, delimiter, stops)
  {
    var k := |content| - 1;
    assert after[1..][k..] == delimiter + rest;
    forall i | 0 < i < |content|
      ensures NotYet(after[1..], i - 1, delimiter, stops) <==> content[i] !in stops && !(delimiter <= after[i..])
    {
      assert after[1..][i - 1] == content[i] && after[1..][i - 1..] == after[i..];
    }
    assert forall j :: 0 <= j < k ==> content[j + 1] == after[1..][j];
    assert content[0] == after[0];
    if Lazy(content, after, delimiter, stops) {
      forall j | 0 <= j < k
        ensures NotYet(after[1..], j, delimiter, stops)
      {
        assert content[j + 1] !in stops;
      }
    }
    if after[0] !in stops && ClosesAt(after[1..], k, delimiter, stops) {
      forall i | 0 < i < |content|
        ensures content[i] !in stops && !(delimiter <= after[i..])
      {
        assert NotYet(after[1..], i - 1, delimiter, stops);
      }
    }
  }

  lemma EnclosedIff<T>(after: seq<T>, delimiter: seq<T>, stops: set<T>, content: seq<T>, rest: seq<T>)
    requires after == content + delimiter + rest && content != []
    ensures Enclosed(after, delimiter, stops) == Some(Cut(content, rest)) <==> Lazy(content, after, delimiter, stops)
  {
    var k := |content| - 1;
    assert after[..k + 1] == content && after[k + 1 + |delimiter|..] == rest;
    CloseIndexIff(after[1..], delimiter, stops, k);
    LazyCloses(after, delimiter, stops, content, rest);
    hide CloseIndex, Lazy, ClosesAt;
    if Enclosed(after, delimiter, stops) == Some(Cut(content, rest)) {
      assert |after[..CloseIndex(after[1..], delimiter, stops).value + 1]| == |content|;
    }
  }

  /** A span is found exactly where the delimiter starts, before some content without a stop, up to the
      next delimiter after the content's first element. */
  lemma SpanIff<T>(s: seq<T>, delimiter: seq<T>, stops: set<T>, content: seq<T>, rest: seq<T>)
    ensures Span(s, delimiter, stops) == Some(Cut(content, rest)) <==>
            && content != [] && s == delimiter + (content + delimiter + rest)
            && Lazy(content, content + delimiter + rest, delimiter, stops)
  {
    hide Enclosed, Lazy;
    if Span(s, delimiter, stops) == Some(Cut(content, rest)) {
      SpanIs(s, delimiter, stops);
    }
    if content != [] && s == delimiter + (content + delimiter + rest) {
      assert s[|delimiter|..] == content + delimiter + rest;
      EnclosedIff(content + delimiter + rest, delimiter, stops, content, rest);
    }
  }
}
