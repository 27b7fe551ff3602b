/** A line that is one span: the tag that each delimiter stands for, and the entities, written out. */
module SimpleSpans {
  import opened Escaping
  import opened Options
  import opened Spans

  /** Text that means nothing else: no mark, nothing to escape, and no line terminator. */
  predicate Simple(text: string) {
    text != "" && forall i :: 0 <= i < |text| ==> !IsMark(text[i]) && text[i] !in STOPS && text[i] !in {'&', '<', '>', '"'}
  }

  /** No delimiter starts anywhere. */
  predicate Clear(s: string, delimiters: seq<string>) {
    forall i :: 0 <= i < |s| ==> NoneStarts(s, i, delimiters)
  }

  predicate NoneStarts(s: string, i: nat, delimiters: seq<string>)
    requires i < |s|
  {
    forall k :: 0 <= k < |delimiters| ==> !(delimiters[k] <= s[i..])
  }

  lemma {:induction false} NoneFound(s: string, delimiters: seq<string>)
    requires forall k :: 0 <= k < |delimiters| ==> !(delimiters[k] <= s)
    ensures FirstSpan(s, delimiters, STOPS).None?
    decreases |delimiters|
  {
    if delimiters != [] {
      NoneFound(s, delimiters[1..]);
    }
  }

  lemma NothingWrapped(s: string, delimiters: seq<string>, open: string, close: string)
    requires Clear(s, delimiters)
    ensures Wrap(s, delimiters, STOPS, open, close) == s
  {
    hide FirstSpan;
    forall i | 0 <= i < |s|
      ensures FirstSpan(s[i..] + [], delimiters, STOPS).None?
    {
      assert s[i..] + [] == s[i..];
      assert NoneStarts(s, i, delimiters);
      NoneFound(s[i..], delimiters);
    }
    WrapAfter(s, [], delimiters, STOPS, open, close);
    assert s + [] == s;
    assert Wrap([], delimiters, STOPS, open, close) == [];
  }

  lemma SpanHere(text: string, d: string)
    requires Simple(text) && d != "" && IsMark(d[0])
    ensures Span(d + text + d, d, STOPS) == Some(Cut(text, []))
  {
    var after := text + d + [];
    assert after == text + d && d + text + d == d + after;
    forall i | 0 < i < |text|
      ensures !(d <= after[i..])
    {
      assert after[i..][0] == text[i];
    }
    hide Span;
    SpanIff(d + text + d, d, STOPS, text, []);
  }

  lemma Wrapped(text: string, d: string, delimiters: seq<string>, open: string, close: string)
    requires Simple(text) && d != "" && IsMark(d[0]) && |delimiters| == 2
    requires delimiters[0] == d || (delimiters[1] == d && !(delimiters[0] <= d + text + d))
    ensures Wrap(d + text + d, delimiters, STOPS, open, close) == open + text + close
  {
    var s := d + text + d;
    SpanHere(text, d);
    hide Span;
    if delimiters[0] != d {
      NotHere(s, delimiters[0]);
      assert delimiters[1..][0] == d;
    }
    assert FirstSpan(s, delimiters, STOPS) == Some(Cut(text, []));
    hide FirstSpan;
    assert open + text + close + [] == open + text + close;
  }

  lemma NotHere(s: string, d: string)
    requires !(d <= s)
    ensures Span(s, d, STOPS).None?
  {
  }

  lemma WrappedAlone(text: string, d: string, open: string, close: string)
    requires Simple(text) && d != "" && IsMark(d[0])
    ensures Wrap(d + text + d, [d], STOPS, open, close) == open + text + close
  {
    SpanHere(text, d);
    hide Span;
    assert FirstSpan(d + text + d, [d], STOPS) == Some(Cut(text, []));
    hide FirstSpan;
    assert open + text + close + [] == open + text + close;
  }

  lemma NothingEscaped(s: string)
    requires forall i :: 0 <= i < |s| ==> s[i] !in {'&', '<', '>', '"'}
    ensures Escaped(s) == s
  {
    hide Replace;
    ReplaceNone(s, '&', "&amp;");
    ReplaceNone(s, '<', "&lt;");
    ReplaceNone(s, '>', "&gt;");
    ReplaceNone(s, '"', "&quot;");
  }

  /** No mark at all starts no delimiter. */
  lemma Unmarked(s: string, delimiters: seq<string>)
    requires forall i :: 0 <= i < |s| ==> !IsMark(s[i])
    requires forall k :: 0 <= k < |delimiters| ==> delimiters[k] != "" && IsMark(delimiters[k][0])
    ensures Clear(s, delimiters)
  {
    forall i, k | 0 <= i < |s| && 0 <= k < |delimiters|
      ensures !(delimiters[k] <= s[i..])
    {
      assert s[i..][0] == s[i];
    }
  }

  /** Single marks start no double delimiter. */
  lemma SingleMarks(text: string, c: char)
    requires Simple(text) && IsMark(c)
    ensures Clear([c] + text + [c], ["**", "__"])
    ensures c == '`' ==> Clear([c] + text + [c], ["*", "_"])
  {
    var s := [c] + text + [c];
    forall i | 0 <= i < |s|
      ensures !("**" <= s[i..]) && !("__" <= s[i..])
      ensures c == '`' ==> !("*" <= s[i..]) && !("_" <= s[i..])
    {
      assert s[i..][0] == s[i];
      if i + 1 < |s| {
        assert s[i..][1] == s[i + 1];
      }
    }
  }

  lemma TagsUnmarked(open: string, text: string, close: string)
    requires Simple(text)
    requires (forall i :: 0 <= i < |open| ==> !IsMark(open[i])) && forall i :: 0 <= i < |close| ==> !IsMark(close[i])
    ensures Clear(open + text + close, ["*", "_"]) && Clear(open + text + close, ["`"])
  {
    Unmarked(open + text + close, ["*", "_"]);
    Unmarked(open + text + close, ["`"]);
  }

  /** Two asterisks or underscores make it strong, one makes it emphasis, and a backtick code; text
      without marks stays as it is. */
  lemma OneSpan(text: string)
    requires Simple(text)
    ensures EscapeAndSpan("**" + text + "**") == EscapeAndSpan("__" + text + "__") == "<strong>" + text + "</strong>"
    ensures EscapeAndSpan("*" + text + "*") == EscapeAndSpan("_" + text + "_") == "<em>" + text + "</em>"
    ensures EscapeAndSpan("`" + text + "`") == "<code>" + text + "</code>"
    ensures EscapeAndSpan(text) == text
  {
    hide Wrap, Escaped, Clear, Simple;
    StrongSpan(text, "**");
    StrongSpan(text, "__");
    EmSpan(text, '*');
    EmSpan(text, '_');
    CodeSpan(text);
    NoSpan(text);
  }

  lemma StrongSpan(text: string, d: string)
    requires Simple(text) && (d == "**" || d == "__")
    ensures EscapeAndSpan(d + text + d) == "<strong>" + text + "</strong>"
  {
    var html := "<strong>" + text + "</strong>";
    NothingEscaped(d + text + d);
    assert (d + text + d)[0] == d[0];
    Wrapped(text, d, ["**", "__"], "<strong>", "</strong>");
    TagsUnmarked("<strong>", text, "</strong>");
    hide Wrap, Escaped, Clear, Simple;
    NothingWrapped(html, ["*", "_"], "<em>", "</em>");
    NothingWrapped(html, ["`"], "<code>", "</code>");
  }

  lemma EmSpan(text: string, c: char)
    requires Simple(text) && (c == '*' || c == '_')
    ensures EscapeAndSpan([c] + text + [c]) == "<em>" + text + "</em>"
  {
    var s, html := [c] + text + [c], "<em>" + text + "</em>";
    NothingEscaped(s);
    SingleMarks(text, c);
    assert s[0] == c;
    Wrapped(text, [c], ["*", "_"], "<em>", "</em>");
    TagsUnmarked("<em>", text, "</em>");
    hide Wrap, Escaped, Clear, Simple;
    NothingWrapped(s, ["**", "__"], "<strong>", "</strong>");
    NothingWrapped(html, ["`"], "<code>", "</code>");
  }

  lemma CodeSpan(text: string)
    requires Simple(text)
    ensures EscapeAndSpan("`" + text + "`") == "<code>" + text + "</code>"
  {
    var s := "`" + text + "`";
    NothingEscaped(s);
    SingleMarks(text, '`');
    WrappedAlone(text, "`", "<code>", "</code>");
    hide Wrap, Escaped, Clear, Simple;
    NothingWrapped(s, ["**", "__"], "<strong>", "</strong>");
    NothingWrapped(s, ["*", "_"], "<em>", "</em>");
  }

  lemma NoSpan(text: string)
    requires Simple(text)
    ensures EscapeAndSpan(text) == text
  {
    NothingEscaped(text);
    Unmarked(text, ["**", "__"]);
    Unmarked(text, ["*", "_"]);
    Unmarked(text, ["`"]);
    hide Wrap, Escaped, Clear, Simple;
    NothingWrapped(text, ["**", "__"], "<strong>", "</strong>");
    NothingWrapped(text, ["*", "_"], "<em>", "</em>");
    NothingWrapped(text, ["`"], "<code>", "</code>");
  }

  /** A mark at both ends and nowhere else cuts out all between. */
  lemma CutsWhole(content: string, rest: string, inner: string, d: char)
    requires d !in inner && [d] + inner + [d] == [d] + (content + [d] + rest) && content != []
    ensures content == inner
  {
    var s := [d] + inner + [d];
    assert s[|content| + 1] == d;
    assert forall i :: 0 < i <= |inner| ==> s[i] == inner[i - 1] && inner[i - 1] in inner;
    assert |content| == |inner|;
    assert s[1..|inner| + 1] == inner && s[1..|content| + 1] == content;
  }

  lemma StoppedSpan(a: string, c: char, b: string, d: char)
    requires Simple(a) && Simple(b) && c in STOPS && (d == '*' || d == '_')
    ensures Span([d] + a + [c] + b + [d], [d], STOPS).None?
  {
    var s, inner := [d] + a + [c] + b + [d], a + [c] + b;
    assert s == [d] + inner + [d] && inner[|a|] == c;
    forall content, rest | content != [] && s == [d] + (content + [d] + rest)
      ensures !Lazy(content, content + [d] + rest, [d], STOPS)
    {
      CutsWhole(content, rest, inner, d);
    }
    hide Span, Lazy, Simple;
    var span := Span(s, [d], STOPS);
    if span.Some? {
      SpanIff(s, [d], STOPS, span.value.content, span.value.rest);
    }
  }

  lemma EndSpan(d: char)
    ensures Span([d], [d], STOPS).None?
  {
    assert [d][|[d]|..] == [];
  }

  /** A span does not reach over a line terminator: the line stays as it is. */
  lemma NoneOverLines(a: string, c: char, b: string, d: char)
    requires Simple(a) && Simple(b) && (d == '*' || d == '_')
    requires c == '\n' || c == '\r' || c == '\U{2028}' || c == '\U{2029}'
    ensures var s := [d] + a + [c] + b + [d]; EscapeAndSpan(s) == s
  {
    var s := [d] + a + [c] + b + [d];
    NothingEscaped(s);
    StoppedLine(a, c, b, d);
    hide Wrap, Escaped, Simple;
    NothingWrapped(s, ["**", "__"], "<strong>", "</strong>");
    NothingWrapped(s, ["`"], "<code>", "</code>");
    NoEm(a, c, b, d);
  }

  lemma StoppedLine(a: string, c: char, b: string, d: char)
    requires Simple(a) && Simple(b) && (d == '*' || d == '_') && c in STOPS
    ensures var s := [d] + a + [c] + b + [d]; Clear(s, ["**", "__"]) && Clear(s, ["`"])
  {
    var s := [d] + a + [c] + b + [d];
    forall i | 0 <= i < |s|
      ensures !("**" <= s[i..]) && !("__" <= s[i..]) && !("`" <= s[i..])
    {
      assert s[i..][0] == s[i];
      if i + 1 < |s| {
        assert s[i..][1] == s[i + 1];
      }
    }
  }

  lemma NoEm(a: string, c: char, b: string, d: char)
    requires Simple(a) && Simple(b) && (d == '*' || d == '_') && c in STOPS
    ensures var s := [d] + a + [c] + b + [d]; Wrap(s, ["*", "_"], STOPS, "<em>", "</em>") == s
  {
    var s := [d] + a + [c] + b + [d];
    forall i | 0 <= i < |s|
      ensures FirstSpan(s[i..] + [], ["*", "_"], STOPS).None?
    {
      assert s[i..] + [] == s[i..] && s[i..][0] == s[i];
      assert 0 < i < |s| - 1 ==> s[i] == (a + [c] + b)[i - 1];
      if i == 0 {
        assert s[0..] == s;
        StoppedSpan(a, c, b, d);
      } else if i == |s| - 1 {
        assert s[i..] == [d];
        EndSpan(d);
      } else {
        NotHere(s[i..], [d]);
      }
      OneOfTwo(s[i..], d);
    }
    hide FirstSpan, Span;
    WrapAfter(s, [], ["*", "_"], STOPS, "<em>", "</em>");
    assert s + [] == s;
    assert Wrap([], ["*", "_"], STOPS, "<em>", "</em>") == [];
  }

  lemma OneOfTwo(s: string, d: char)
    requires (d == '*' || d == '_') && Span(s, [d], STOPS).None?
    requires forall e :: (e == '*' || e == '_') && e != d ==> !([e] <= s)
    ensures FirstSpan(s, ["*", "_"], STOPS).None?
  {
    var other := if d == '*' then '_' else '*';
    NotHere(s, [other]);
    hide Span;
    assert Span(s, "*", STOPS).None? && Span(s, "_", STOPS).None?;
    assert ["*", "_"][1..] == ["_"] && ["_"][1..] == [];
    assert FirstSpan(s, [], STOPS).None?;
    assert FirstSpan(s, ["_"], STOPS).None?;
  }

  /** The entities; a text in two pieces is escaped piece by piece. */
  lemma Entities(a: string, b: string)
    ensures Escaped("&") == "&amp;" && Escaped("<") == "&lt;" && Escaped(">") == "&gt;" && Escaped("\"") == "&quot;"
    ensures (forall i :: 0 <= i < |a| ==> a[i] !in {'&', '<', '>', '"'}) ==> Escaped(a) == a
    ensures Escaped(a + b) == Escaped(a) + Escaped(b)
  {
    hide Escaped;
    EscapedOne('&');
    EscapedOne('<');
    EscapedOne('>');
    EscapedOne('"');
    EscapedSplit(a, b);
    if forall i :: 0 <= i < |a| ==> a[i] !in {'&', '<', '>', '"'} {
      NothingEscaped(a);
    }
  }
}
