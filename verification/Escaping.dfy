/** One line of markdown as HTML: the text escaped, then three kinds of span replaced by tags. */
module Escaping {
  import opened Options
  import opened Spans

  datatype Mark = Strong | Em | Code

  /** What the HTML is made of: characters of the text and inserted tags. */
  datatype Token = Ch(c: char) | Open(mark: Mark) | Close(mark: Mark)

  /** The characters that a dot does not match. */
  const STOPS: set<char> := {'\n', '\r', '\U{2028}', '\U{2029}'}

  predicate IsMark(c: char) {
    c == '*' || c == '_' || c == '`'
  }

  /** Every occurrence of a character replaced. */
  function Replace(s: string, c: char, entity: string): string {
    if s == [] then [] else (if s[0] == c then entity else [s[0]]) + Replace(s[1..], c, entity)
  }

  function Escaped(text: string): string {
    Replace(Replace(Replace(Replace(text, '&', "&amp;"), '<', "&lt;"), '>', "&gt;"), '"', "&quot;")
  }

  function EscapeAndSpan(text: string): string {
    var strong := Wrap(Escaped(text), ["**", "__"], STOPS, "<strong>", "</strong>");
    var em := Wrap(strong, ["*", "_"], STOPS, "<em>", "</em>");
    Wrap(em, ["`"], STOPS, "<code>", "</code>")
  }

  // ---------------------------------------------------------------- tokens and their markup

  function Entity(c: char): string {
    match c
    case '&' => "&amp;"
    case '<' => "&lt;"
    case '>' => "&gt;"
    case '"' => "&quot;"
    case _ => [c]
  }

  function Markup(token: Token): string {
    match token
    case Ch(c) => Entity(c)
    case Open(Strong) => "<strong>"
    case Close(Strong) => "</strong>"
    case Open(Em) => "<em>"
    case Close(Em) => "</em>"
    case Open(Code) => "<code>"
    case Close(Code) => "</code>"
  }

  function Render(tokens: seq<Token>): string {
    if tokens == [] then [] else Markup(tokens[0]) + Render(tokens[1..])
  }

  /** The characters of a text, as tokens. */
  function Plain(text: string): (tokens: seq<Token>)
    ensures |tokens| == |text| && forall i :: 0 <= i < |text| ==> tokens[i] == Ch(text[i])
  {
    seq(|text|, i requires 0 <= i < |text| => Ch(text[i]))
  }

  const TOKEN_STOPS: set<Token> := {Ch('\n'), Ch('\r'), Ch('\U{2028}'), Ch('\U{2029}')}

  lemma RenderFirst(tokens: seq<Token>)
    requires tokens != []
    ensures Render(tokens) == Markup(tokens[0]) + Render(tokens[1..])
  {
  }

  lemma {:induction false} RenderSplit(a: seq<Token>, b: seq<Token>)
    ensures Render(a + b) == Render(a) + Render(b)
    decreases |a|
  {
    hide Markup;
    if a == [] {
      assert a + b == b;
    } else {
      RenderSplit(a[1..], b);
      assert (a + b)[1..] == a[1..] + b;
      Assoc(Markup(a[0]), Render(a[1..]), Render(b));
    }
  }

  // ---------------------------------------------------------------- escaping is character by character

  lemma {:induction false} ReplaceSplit(a: string, b: string, c: char, entity: string)
    ensures Replace(a + b, c, entity) == Replace(a, c, entity) + Replace(b, c, entity)
    decreases |a|
  {
    if a == [] {
      assert a + b == b;
    } else {
      ReplaceSplit(a[1..], b, c, entity);
      assert (a + b)[1..] == a[1..] + b;
      Assoc(if a[0] == c then entity else [a[0]], Replace(a[1..], c, entity), Replace(b, c, entity));
    }
  }

  lemma {:induction false} ReplaceNone(s: string, c: char, entity: string)
    requires c !in s
    ensures Replace(s, c, entity) == s
    decreases |s|
  {
    if s != [] {
      ReplaceNone(s[1..], c, entity);
      assert s == [s[0]] + s[1..];
    }
  }

  lemma ReplaceOne(c: char, entity: string)
    ensures Replace([c], c, entity) == entity
  {
    assert [c][1..] == [] && entity + [] == entity;
  }

  lemma EscapedSplit(a: string, b: string)
    ensures Escaped(a + b) == Escaped(a) + Escaped(b)
  {
    var a1, b1 := Replace(a, '&', "&amp;"), Replace(b, '&', "&amp;");
    var a2, b2 := Replace(a1, '<', "&lt;"), Replace(b1, '<', "&lt;");
    var a3, b3 := Replace(a2, '>', "&gt;"), Replace(b2, '>', "&gt;");
    ReplaceSplit(a, b, '&', "&amp;");
    ReplaceSplit(a1, b1, '<', "&lt;");
    ReplaceSplit(a2, b2, '>', "&gt;");
    ReplaceSplit(a3, b3, '"', "&quot;");
  }

  lemma EscapedOne(c: char)
    ensures Escaped([c]) == Entity(c)
  {
    hide Replace;
    ReplaceOne(c, Entity(c));
    if c == '&' {
      ReplaceNone("&amp;", '<', "&lt;");
      ReplaceNone("&amp;", '>', "&gt;");
      ReplaceNone("&amp;", '"', "&quot;");
    } else {
      ReplaceNone([c], '&', "&amp;");
      if c == '<' {
        ReplaceNone("&lt;", '>', "&gt;");
        ReplaceNone("&lt;", '"', "&quot;");
      } else {
        ReplaceNone([c], '<', "&lt;");
        if c == '>' {
          ReplaceNone("&gt;", '"', "&quot;");
        } else {
          ReplaceNone([c], '>', "&gt;");
          if c != '"' {
            ReplaceNone([c], '"', "&quot;");
          }
        }
      }
    }
  }

  /** The four replacements in turn are one replacement of each character by its entity. */
  lemma {:induction false} EscapedIsRendered(text: string)
    ensures Escaped(text) == Render(Plain(text))
    decreases |text|
  {
    if text != [] {
      EscapedIsRendered(text[1..]);
      EscapedSplit([text[0]], text[1..]);
      assert text == [text[0]] + text[1..];
      EscapedOne(text[0]);
      assert Plain(text)[1..] == Plain(text[1..]);
    }
  }

  // ---------------------------------------------------------------- spans of HTML are spans of tokens

  predicate AllMarks(s: string) {
    forall i :: 0 <= i < |s| ==> IsMark(s[i])
  }

  /** A mark and a stop are their own markup; other markup has neither. */
  lemma MarkupOf(token: Token)
    ensures Markup(token) != []
    ensures if token.Ch? && IsMark(token.c) then Markup(token) == [token.c]
            else forall i :: 0 <= i < |Markup(token)| ==> !IsMark(Markup(token)[i])
    ensures if token in TOKEN_STOPS then Markup(token) == [token.c] && token.c in STOPS
            else forall i :: 0 <= i < |Markup(token)| ==> Markup(token)[i] !in STOPS
  {
  }

  lemma {:induction false} RenderMarks(marks: string)
    requires AllMarks(marks)
    ensures Render(Plain(marks)) == marks
    decreases |marks|
  {
    if marks != [] {
      RenderMarks(marks[1..]);
      MarkupOf(Ch(marks[0]));
      assert Plain(marks)[1..] == Plain(marks[1..]);
    }
  }

  lemma {:induction false} StartsIff(tokens: seq<Token>, marks: string)
    requires AllMarks(marks)
    ensures marks <= Render(tokens) <==> Plain(marks) <= tokens
    decreases |marks|
  {
    if marks != [] && tokens != [] {
      var rest, p := Render(tokens[1..]), Markup(tokens[0]);
      MarkupOf(tokens[0]);
      if tokens[0] == Ch(marks[0]) {
        StartsIff(tokens[1..], marks[1..]);
        assert Plain(marks)[1..] == Plain(marks[1..]);
        Peeled(marks, Render(tokens));
        Peeled(Plain(marks), tokens);
        assert Render(tokens)[1..] == rest;
      } else {
        assert Render(tokens)[0] == p[0] != marks[0];
        assert Plain(marks)[0] != tokens[0];
      }
    }
  }

  lemma Peeled<T>(a: seq<T>, b: seq<T>)
    requires a != [] && b != [] && a[0] == b[0]
    ensures a <= b <==> a[1..] <= b[1..]
  {
    assert a == [a[0]] + a[1..] && b == [b[0]] + b[1..];
    if a[1..] <= b[1..] {
      assert b[1..][..|a| - 1] == b[1..|a|];
    }
  }

  /** In the markup of a token that is neither the start of the delimiter nor a stop, nothing closes. */
  lemma NoCloseInMarkup(token: Token, rest: seq<Token>, marks: string, from: nat)
    requires AllMarks(marks) && marks != [] && from <= |Markup(token)|
    requires token !in TOKEN_STOPS
    requires from == 0 ==> !(Plain(marks) <= [token] + rest)
    ensures NoCloseIn(Markup(token)[from..], Render(rest), marks, STOPS)
  {
    MarkupOf(token);
    var p := Markup(token)[from..];
    StartsIff([token] + rest, marks);
    assert ([token] + rest)[1..] == rest;
    forall i | 0 <= i < |p|
      ensures p[i] !in STOPS && !(marks <= p[i..] + Render(rest))
    {
      assert p[i] == Markup(token)[from + i];
      if from + i > 0 || !token.Ch? || !IsMark(token.c) {
        assert (p[i..] + Render(rest))[0] == p[i];
      } else {
        assert p[i..] == Markup(token);
      }
    }
  }

  /** A search goes past the markup of such a token. */
  lemma ClosePast(tokens: seq<Token>, marks: string)
    requires AllMarks(marks) && marks != []
    requires tokens != [] && tokens[0] !in TOKEN_STOPS && !(Plain(marks) <= tokens)
    ensures var r := CloseIndex(Render(tokens[1..]), marks, STOPS);
            CloseIndex(Render(tokens), marks, STOPS) ==
            if r.Some? then Some(|Markup(tokens[0])| + r.value) else None
  {
    hide Markup, CloseIndex;
    assert [tokens[0]] + tokens[1..] == tokens;
    NoCloseInMarkup(tokens[0], tokens[1..], marks, 0);
    assert Markup(tokens[0])[0..] == Markup(tokens[0]);
    CloseAfter(Markup(tokens[0]), Render(tokens[1..]), marks, STOPS);
  }

  lemma StopStops(tokens: seq<Token>, marks: string)
    requires AllMarks(marks) && tokens != [] && tokens[0] in TOKEN_STOPS && !(Plain(marks) <= tokens)
    ensures CloseIndex(Render(tokens), marks, STOPS).None?
  {
    StartsIff(tokens, marks);
    MarkupOf(tokens[0]);
  }

  lemma RenderTake(tokens: seq<Token>, k: nat)
    requires k < |tokens|
    ensures |Render(tokens[..k + 1])| == |Markup(tokens[0])| + |Render(tokens[1..][..k])|
  {
    hide Markup;
    assert tokens[..k + 1][1..] == tokens[1..][..k];
  }

  /** The first closing delimiter in the HTML is the rendered first closing delimiter. */
  lemma {:induction false} CloseRefines(tokens: seq<Token>, marks: string)
    requires AllMarks(marks) && marks != []
    ensures var r := CloseIndex(tokens, Plain(marks), TOKEN_STOPS);
            CloseIndex(Render(tokens), marks, STOPS) ==
            if r.Some? then Some(|Render(tokens[..r.value])|) else None
    decreases |tokens|
  {
    hide Markup;
    StartsIff(tokens, marks);
    if !(Plain(marks) <= tokens) && tokens != [] {
      if tokens[0] in TOKEN_STOPS {
        StopStops(tokens, marks);
      } else {
        ClosePast(tokens, marks);
        CloseRefines(tokens[1..], marks);
        var r := CloseIndex(tokens[1..], Plain(marks), TOKEN_STOPS);
        if r.Some? {
          RenderTake(tokens, r.value);
        }
      }
    }
  }

  function Rendered(cut: Option<Cut<Token>>): Option<Cut<char>> {
    if cut.Some? then Some(Cut(Render(cut.value.content), Render(cut.value.rest))) else None
  }

  lemma FirstMarkup(tokens: seq<Token>)
    requires tokens != []
    ensures Markup(tokens[0]) != [] && Render(tokens) != [] && Render(tokens)[0] == Markup(tokens[0])[0]
    ensures Render(tokens)[1..] == Markup(tokens[0])[1..] + Render(tokens[1..])
  {
    MarkupOf(tokens[0]);
  }

  /** Where the HTML after a token closes, when its first character is not counted. */
  lemma CloseAfterFirst(after: seq<Token>, marks: string)
    requires AllMarks(marks) && marks != [] && after != [] && after[0] !in TOKEN_STOPS
    ensures Render(after) != []
    ensures var r := CloseIndex(after[1..], Plain(marks), TOKEN_STOPS);
            CloseIndex(Render(after)[1..], marks, STOPS) ==
            if r.Some? then Some(|Render(after[..r.value + 1])| - 1) else None
  {
    hide *;
    FirstMarkup(after);
    NoCloseInMarkup(after[0], after[1..], marks, 1);
    CloseAfter(Markup(after[0])[1..], Render(after[1..]), marks, STOPS);
    CloseRefines(after[1..], marks);
    var r := CloseIndex(after[1..], Plain(marks), TOKEN_STOPS);
    if r.Some? {
      RenderTake(after, r.value);
    }
  }

  lemma RenderThree(a: seq<Token>, b: seq<Token>, c: seq<Token>)
    ensures Render(a + b + c) == Render(a) + Render(b) + Render(c)
  {
    hide *;
    RenderSplit(a + b, c);
    RenderSplit(a, b);
  }

  lemma RenderParts(content: seq<Token>, marks: string, rest: seq<Token>)
    requires AllMarks(marks)
    ensures Render(content + Plain(marks) + rest) == Render(content) + marks + Render(rest)
  {
    hide *;
    RenderThree(content, Plain(marks), rest);
    RenderMarks(marks);
  }

  lemma CutParts(s: string, content: string, marks: string, rest: string)
    requires s == content + marks + rest
    ensures s[..|content|] == content && s[|content| + |marks|..] == rest
  {
  }

  lemma ClosedRefines(after: seq<Token>, marks: string, k: nat)
    requires AllMarks(marks) && marks != [] && after != [] && after[0] !in TOKEN_STOPS
    requires CloseIndex(after[1..], Plain(marks), TOKEN_STOPS) == Some(k)
    ensures k + 1 + |marks| <= |after| && |Render(after[..k + 1])| + |marks| <= |Render(after)|
    ensures Render(after)[..|Render(after[..k + 1])|] == Render(after[..k + 1])
    ensures Render(after)[|Render(after[..k + 1])| + |marks|..] == Render(after[k + 1 + |marks|..])
  {
    hide *;
    ClosedBy(after[1..], Plain(marks), TOKEN_STOPS, k);
    InParts(after, Plain(marks), k);
    RenderParts(after[..k + 1], marks, after[k + 1 + |marks|..]);
    CutParts(Render(after), Render(after[..k + 1]), marks, Render(after[k + 1 + |marks|..]));
  }

  lemma FirstStops(tokens: seq<Token>)
    requires tokens != []
    ensures Render(tokens) != [] && (Render(tokens)[0] in STOPS <==> tokens[0] in TOKEN_STOPS)
  {
    hide Markup, Render;
    FirstMarkup(tokens);
    MarkupOf(tokens[0]);
  }

  lemma EnclosedSome(after: seq<Token>, marks: string, k: nat)
    requires AllMarks(marks) && marks != [] && after != [] && after[0] !in TOKEN_STOPS
    requires CloseIndex(after[1..], Plain(marks), TOKEN_STOPS) == Some(k)
    ensures k + 1 + |marks| <= |after|
    ensures Enclosed(after, Plain(marks), TOKEN_STOPS) == Some(Cut(after[..k + 1], after[k + 1 + |marks|..]))
    ensures Enclosed(Render(after), marks, STOPS) ==
            Some(Cut(Render(after[..k + 1]), Render(after[k + 1 + |marks|..])))
  {
    hide *;
    FirstStops(after);
    CloseAfterFirst(after, marks);
    ClosedRefines(after, marks, k);
    EnclosedBy(after, Plain(marks), TOKEN_STOPS, k);
    EnclosedBy(Render(after), marks, STOPS, |Render(after[..k + 1])| - 1);
  }

  lemma EnclosedNone(after: seq<Token>, marks: string)
    requires AllMarks(marks) && marks != []
    requires after == [] || after[0] in TOKEN_STOPS || CloseIndex(after[1..], Plain(marks), TOKEN_STOPS).None?
    ensures Enclosed(after, Plain(marks), TOKEN_STOPS).None? && Enclosed(Render(after), marks, STOPS).None?
  {
    EnclosedIs(after, Plain(marks), TOKEN_STOPS);
    EnclosedIs(Render(after), marks, STOPS);
    if after != [] {
      hide *;
      FirstStops(after);
      if after[0] !in TOKEN_STOPS {
        CloseAfterFirst(after, marks);
      }
    }
  }

  lemma EnclosedRefines(after: seq<Token>, marks: string)
    requires AllMarks(marks) && marks != []
    ensures Enclosed(Render(after), marks, STOPS) == Rendered(Enclosed(after, Plain(marks), TOKEN_STOPS))
  {
    hide Enclosed, Render, CloseIndex, AllMarks;
    if after == [] || after[0] in TOKEN_STOPS || CloseIndex(after[1..], Plain(marks), TOKEN_STOPS).None? {
      EnclosedNone(after, marks);
    } else {
      EnclosedSome(after, marks, CloseIndex(after[1..], Plain(marks), TOKEN_STOPS).value);
    }
  }

  lemma SpanRefines(tokens: seq<Token>, marks: string)
    requires AllMarks(marks) && marks != []
    ensures Span(Render(tokens), marks, STOPS) == Rendered(Span(tokens, Plain(marks), TOKEN_STOPS))
  {
    hide Markup, Enclosed, Render;
    StartsIff(tokens, marks);
    if Plain(marks) <= tokens {
      var after := tokens[|marks|..];
      assert tokens == Plain(marks) + after;
      RenderSplit(Plain(marks), after);
      RenderMarks(marks);
      EnclosedRefines(after, marks);
    }
  }

  predicate Delimiters(delimiters: seq<string>) {
    forall i :: 0 <= i < |delimiters| ==> delimiters[i] != [] && AllMarks(delimiters[i])
  }

  function Plains(delimiters: seq<string>): (r: seq<seq<Token>>)
    ensures |r| == |delimiters| && forall i :: 0 <= i < |r| ==> r[i] == Plain(delimiters[i])
  {
    seq(|delimiters|, i requires 0 <= i < |delimiters| => Plain(delimiters[i]))
  }

  lemma {:induction false} FirstSpanRefines(tokens: seq<Token>, delimiters: seq<string>)
    requires Delimiters(delimiters)
    ensures FirstSpan(Render(tokens), delimiters, STOPS) == Rendered(FirstSpan(tokens, Plains(delimiters), TOKEN_STOPS))
    decreases |delimiters|
  {
    if delimiters != [] {
      hide Span, Render;
      SpanRefines(tokens, delimiters[0]);
      FirstSpanRefines(tokens, delimiters[1..]);
      assert Plains(delimiters)[1..] == Plains(delimiters[1..]);
    }
  }

  /** No span starts within the markup of a token that starts none itself. */
  lemma {:induction false} NoSpanInMarkup(token: Token, rest: seq<Token>, delimiters: seq<string>, i: nat)
    requires Delimiters(delimiters) && i < |Markup(token)|
    requires FirstSpan([token] + rest, Plains(delimiters), TOKEN_STOPS).None?
    ensures FirstSpan(Markup(token)[i..] + Render(rest), delimiters, STOPS).None?
  {
    if i == 0 {
      FirstSpanRefines([token] + rest, delimiters);
      assert ([token] + rest)[1..] == rest;
      assert Markup(token)[0..] == Markup(token);
    } else {
      MarkupOf(token);
      NoSpanAt(Markup(token)[i..] + Render(rest), delimiters);
    }
  }

  lemma {:induction false} NoSpanAt(s: string, delimiters: seq<string>)
    requires Delimiters(delimiters) && s != [] && !IsMark(s[0])
    ensures FirstSpan(s, delimiters, STOPS).None?
    decreases |delimiters|
  {
    if delimiters != [] {
      NoSpanAt(s, delimiters[1..]);
      assert IsMark(delimiters[0][0]);
    }
  }

  function WrapTokens(tokens: seq<Token>, delimiters: seq<string>, mark: Mark): seq<Token> {
    Wrap(tokens, Plains(delimiters), TOKEN_STOPS, [Open(mark)], [Close(mark)])
  }

  function WrapText(s: string, delimiters: seq<string>, mark: Mark): string {
    Wrap(s, delimiters, STOPS, Markup(Open(mark)), Markup(Close(mark)))
  }

  lemma RenderAround(content: seq<Token>, mark: Mark, more: seq<Token>)
    ensures Render([Open(mark)] + content + [Close(mark)] + more) ==
            Markup(Open(mark)) + Render(content) + Markup(Close(mark)) + Render(more)
  {
    hide Markup;
    RenderSplit([Open(mark)] + content + [Close(mark)], more);
    RenderSplit([Open(mark)] + content, [Close(mark)]);
    RenderSplit([Open(mark)], content);
    RenderOne(Open(mark));
    RenderOne(Close(mark));
  }

  lemma RenderOne(token: Token)
    ensures Render([token]) == Markup(token)
  {
    assert Render([token]) == Markup(token) + [];
  }

  lemma WrapSpan(tokens: seq<Token>, delimiters: seq<string>, mark: Mark)
    requires Delimiters(delimiters) && tokens != []
    requires FirstSpan(tokens, Plains(delimiters), TOKEN_STOPS).Some?
    requires var rest := FirstSpan(tokens, Plains(delimiters), TOKEN_STOPS).value.rest;
             WrapText(Render(rest), delimiters, mark) == Render(WrapTokens(rest, delimiters, mark))
    ensures WrapText(Render(tokens), delimiters, mark) == Render(WrapTokens(tokens, delimiters, mark))
  {
    MarkupOf(tokens[0]);
    hide Markup, FirstSpan;
    var cut := FirstSpan(tokens, Plains(delimiters), TOKEN_STOPS).value;
    FirstSpanRefines(tokens, delimiters);
    RenderAround(cut.content, mark, WrapTokens(cut.rest, delimiters, mark));
    assert Render(tokens) != [];
  }

  lemma WrapPast(tokens: seq<Token>, delimiters: seq<string>, mark: Mark)
    requires Delimiters(delimiters) && tokens != []
    requires FirstSpan(tokens, Plains(delimiters), TOKEN_STOPS).None?
    ensures WrapText(Render(tokens), delimiters, mark) ==
            Markup(tokens[0]) + WrapText(Render(tokens[1..]), delimiters, mark)
    ensures WrapTokens(tokens, delimiters, mark) == [tokens[0]] + WrapTokens(tokens[1..], delimiters, mark)
  {
    hide Markup, FirstSpan;
    assert [tokens[0]] + tokens[1..] == tokens;
    var p := Markup(tokens[0]);
    forall i | 0 <= i < |p|
      ensures FirstSpan(p[i..] + Render(tokens[1..]), delimiters, STOPS).None?
    {
      NoSpanInMarkup(tokens[0], tokens[1..], delimiters, i);
    }
    WrapAfter(p, Render(tokens[1..]), delimiters, STOPS, Markup(Open(mark)), Markup(Close(mark)));
  }

  /** Replacing the spans of the HTML is replacing those of its tokens. */
  lemma {:induction false} WrapRefines(tokens: seq<Token>, delimiters: seq<string>, mark: Mark)
    requires Delimiters(delimiters)
    ensures WrapText(Render(tokens), delimiters, mark) == Render(WrapTokens(tokens, delimiters, mark))
    decreases |tokens|
  {
    if tokens != [] {
      MarkupOf(tokens[0]);
      var cut := FirstSpan(tokens, Plains(delimiters), TOKEN_STOPS);
      if cut.Some? {
        WrapRefines(cut.value.rest, delimiters, mark);
        WrapSpan(tokens, delimiters, mark);
      } else {
        WrapPast(tokens, delimiters, mark);
        WrapRefines(tokens[1..], delimiters, mark);
      }
    }
  }
}
