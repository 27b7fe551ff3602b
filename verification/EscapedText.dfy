/** What the HTML of a line says: its text, and tags in pairs. */
module EscapedText {
  import opened Escaping
  import opened Options
  import opened Spans

  /** The tokens of the HTML: the three passes, made on tokens. */
  function Marked(text: string): seq<Token> {
    var strong := WrapTokens(Plain(text), ["**", "__"], Strong);
    var em := WrapTokens(strong, ["*", "_"], Em);
    WrapTokens(em, ["`"], Code)
  }

  lemma HtmlIsMarked(text: string)
    ensures EscapeAndSpan(text) == Render(Marked(text))
  {
    hide Escaped, Render, Wrap, WrapTokens;
    var strong := WrapTokens(Plain(text), ["**", "__"], Strong);
    var em := WrapTokens(strong, ["*", "_"], Em);
    EscapedIsRendered(text);
    WrapRefines(Plain(text), ["**", "__"], Strong);
    WrapRefines(strong, ["*", "_"], Em);
    WrapRefines(em, ["`"], Code);
  }

  // ---------------------------------------------------------------- reading HTML

  /** The token that the second and third characters point to. */
  function Candidate(s: string): Token
    requires s != []
  {
    if s[0] == '&' && |s| > 1 then
      Ch(if s[1] == 'a' then '&' else if s[1] == 'l' then '<' else if s[1] == 'g' then '>' else '"')
    else if s[0] == '<' && |s| > 2 then
      if s[1] == '/' then Close(if s[2] == 's' then Strong else if s[2] == 'e' then Em else Code)
      else Open(if s[1] == 's' then Strong else if s[1] == 'e' then Em else Code)
    else Ch(s[0])
  }

  /** A character without meaning stands for itself. */
  function Read(s: string): seq<Token> {
    if s == [] then []
    else
      var token := Candidate(s);
      if Markup(token) <= s && Markup(token) != [] then [token] + Read(s[|Markup(token)|..])
      else [Ch(s[0])] + Read(s[1..])
  }

  lemma ReadFirst(token: Token, rest: string)
    ensures Markup(token) != [] && Candidate(Markup(token) + rest) == token
  {
    var s := Markup(token) + rest;
    assert s[0] == Markup(token)[0];
    assert |Markup(token)| > 1 ==> s[1] == Markup(token)[1];
    assert |Markup(token)| > 2 ==> s[2] == Markup(token)[2];
  }

  lemma ReadNext(token: Token, rest: string)
    ensures Read(Markup(token) + rest) == [token] + Read(rest)
  {
    ReadFirst(token, rest);
    hide Markup, Candidate;
    assert (Markup(token) + rest)[|Markup(token)|..] == rest;
  }

  lemma {:induction false} ReadRender(tokens: seq<Token>)
    ensures Read(Render(tokens)) == tokens
    decreases |tokens|
  {
    if tokens != [] {
      hide Markup, Candidate;
      RenderFirst(tokens);
      ReadNext(tokens[0], Render(tokens[1..]));
      ReadRender(tokens[1..]);
    }
  }

  /** The text of HTML: tags stripped, entities decoded. */
  function Chars(tokens: seq<Token>): string {
    if tokens == [] then []
    else (if tokens[0].Ch? then [tokens[0].c] else []) + Chars(tokens[1..])
  }

  function TextOf(html: string): string {
    Chars(Read(html))
  }

  lemma {:induction false} CharsSplit(a: seq<Token>, b: seq<Token>)
    ensures Chars(a + b) == Chars(a) + Chars(b)
    decreases |a|
  {
    if a == [] {
      assert a + b == b;
    } else {
      CharsSplit(a[1..], b);
      assert (a + b)[1..] == a[1..] + b && (a + b)[0] == a[0];
      Assoc(if a[0].Ch? then [a[0].c] else [], Chars(a[1..]), Chars(b));
    }
  }

  lemma {:induction false} CharsPlain(text: string)
    ensures Chars(Plain(text)) == text
    decreases |text|
  {
    if text != [] {
      CharsPlain(text[1..]);
      assert Plain(text)[1..] == Plain(text[1..]);
    }
  }

  // ---------------------------------------------------------------- only marks are lost

  /** b is a without some of its marks. */
  predicate Thinned(a: string, b: string) {
    if a == [] then b == []
    else (b != [] && a[0] == b[0] && Thinned(a[1..], b[1..])) || (IsMark(a[0]) && Thinned(a[1..], b))
  }

  lemma {:induction false} ThinnedSame(a: string)
    ensures Thinned(a, a)
    decreases |a|
  {
    if a != [] {
      ThinnedSame(a[1..]);
    }
  }

  lemma {:induction false} ThinnedMarks(a: string)
    requires AllMarks(a)
    ensures Thinned(a, [])
    decreases |a|
  {
    if a != [] {
      ThinnedMarks(a[1..]);
    }
  }

  lemma {:induction false} ThinnedBoth(a: string, b: string, c: string, d: string)
    requires Thinned(a, b) && Thinned(c, d)
    ensures Thinned(a + c, b + d)
    decreases |a|
  {
    if a == [] {
      assert a + c == c && b + d == d;
    } else {
      assert (a + c)[1..] == a[1..] + c && (a + c)[0] == a[0];
      if b != [] && a[0] == b[0] && Thinned(a[1..], b[1..]) {
        ThinnedBoth(a[1..], b[1..], c, d);
        assert (b + d)[1..] == b[1..] + d;
      } else {
        ThinnedBoth(a[1..], b, c, d);
      }
    }
  }

  lemma {:induction false} ThinnedTwice(a: string, b: string, c: string)
    requires Thinned(a, b) && Thinned(b, c)
    ensures Thinned(a, c)
    decreases |a|
  {
    if a != [] {
      if b != [] && a[0] == b[0] && Thinned(a[1..], b[1..]) {
        if c != [] && b[0] == c[0] && Thinned(b[1..], c[1..]) {
          ThinnedTwice(a[1..], b[1..], c[1..]);
        } else {
          ThinnedTwice(a[1..], b[1..], c);
        }
      } else {
        ThinnedTwice(a[1..], b, c);
      }
    }
  }

  lemma AroundThinned(marks: string, content: string, rest: string, rest': string)
    requires AllMarks(marks) && Thinned(rest, rest')
    ensures Thinned(marks + (content + marks + rest), content + rest')
  {
    ThinnedMarks(marks);
    ThinnedSame(content);
    ThinnedBoth(marks, [], rest, rest');
    ThinnedBoth(content, content, marks + rest, [] + rest');
    ThinnedBoth(marks, [], content + (marks + rest), content + ([] + rest'));
    assert content + (marks + rest) == content + marks + rest;
    assert [] + rest' == rest' && [] + (content + rest') == content + rest';
  }

  lemma CharsAround(marks: string, content: seq<Token>, rest: seq<Token>, mark: Mark, rest': seq<Token>)
    ensures Chars(Plain(marks) + (content + Plain(marks) + rest)) == marks + (Chars(content) + marks + Chars(rest))
    ensures Chars([Open(mark)] + content + [Close(mark)] + rest') == Chars(content) + Chars(rest')
  {
    CharsPlain(marks);
    CharsSplit(Plain(marks), content + Plain(marks) + rest);
    CharsSplit(content + Plain(marks), rest);
    CharsSplit(content, Plain(marks));
    CharsSplit([Open(mark)] + content + [Close(mark)], rest');
    CharsSplit([Open(mark)] + content, [Close(mark)]);
    CharsSplit([Open(mark)], content);
    assert Chars([Open(mark)]) == [] && Chars([Close(mark)]) == [];
    assert [] + Chars(content) + [] == Chars(content);
  }

  /** The delimiter of a span of tokens, as it is in the text. */
  lemma SpanMarks(tokens: seq<Token>, delimiters: seq<string>) returns (marks: string)
    requires Delimiters(delimiters) && FirstSpan(tokens, Plains(delimiters), TOKEN_STOPS).Some?
    ensures AllMarks(marks)
    ensures var Cut(content, rest) := FirstSpan(tokens, Plains(delimiters), TOKEN_STOPS).value;
            tokens == Plain(marks) + (content + Plain(marks) + rest)
  {
    var delimiter := FirstSpanIs(tokens, Plains(delimiters), TOKEN_STOPS);
    var i :| 0 <= i < |delimiters| && Plains(delimiters)[i] == delimiter;
    marks := delimiters[i];
  }

  /** A pass loses no character but marks. */
  lemma {:induction false} WrapThins(tokens: seq<Token>, delimiters: seq<string>, mark: Mark)
    requires Delimiters(delimiters)
    ensures Thinned(Chars(tokens), Chars(WrapTokens(tokens, delimiters, mark)))
    decreases |tokens|
  {
    if tokens != [] {
      hide FirstSpan, Thinned, Chars, Delimiters, AllMarks;
      var cut := FirstSpan(tokens, Plains(delimiters), TOKEN_STOPS);
      if cut.Some? {
        var Cut(content, rest) := cut.value;
        var rest' := WrapTokens(rest, delimiters, mark);
        var marks := SpanMarks(tokens, delimiters);
        WrapThins(rest, delimiters, mark);
        CharsAround(marks, content, rest, mark, rest');
        AroundThinned(marks, Chars(content), Chars(rest), Chars(rest'));
      } else {
        WrapThins(tokens[1..], delimiters, mark);
        var rest' := WrapTokens(tokens[1..], delimiters, mark);
        CharsSplit([tokens[0]], tokens[1..]);
        CharsSplit([tokens[0]], rest');
        assert [tokens[0]] + tokens[1..] == tokens;
        ThinnedSame(Chars([tokens[0]]));
        ThinnedBoth(Chars([tokens[0]]), Chars([tokens[0]]), Chars(tokens[1..]), Chars(rest'));
      }
    }
  }

  // ---------------------------------------------------------------- tags come in pairs

  /** The tags of one kind, in order. */
  function Tags(tokens: seq<Token>, mark: Mark): seq<Token> {
    if tokens == [] then []
    else (if tokens[0] in {Open(mark), Close(mark)} then [tokens[0]] else []) + Tags(tokens[1..], mark)
  }

  function PairsOf(mark: Mark, n: nat): seq<Token> {
    if n == 0 then [] else [Open(mark), Close(mark)] + PairsOf(mark, n - 1)
  }

  lemma {:induction false} TagsSplit(a: seq<Token>, b: seq<Token>, mark: Mark)
    ensures Tags(a + b, mark) == Tags(a, mark) + Tags(b, mark)
    decreases |a|
  {
    if a == [] {
      assert a + b == b;
    } else {
      TagsSplit(a[1..], b, mark);
      assert (a + b)[1..] == a[1..] + b && (a + b)[0] == a[0];
      Assoc(if a[0] in {Open(mark), Close(mark)} then [a[0]] else [], Tags(a[1..], mark), Tags(b, mark));
    }
  }

  lemma {:induction false} TagsPlain(text: string, mark: Mark)
    ensures Tags(Plain(text), mark) == []
    decreases |text|
  {
    if text != [] {
      TagsPlain(text[1..], mark);
      assert Plain(text)[1..] == Plain(text[1..]);
    }
  }

  lemma TagsAround(marks: string, content: seq<Token>, rest: seq<Token>, inserted: Mark, rest': seq<Token>, mark: Mark)
    ensures Tags(Plain(marks) + (content + Plain(marks) + rest), mark) == Tags(content, mark) + Tags(rest, mark)
    ensures Tags([Open(inserted)] + content + [Close(inserted)] + rest', mark) ==
            Tags([Open(inserted)], mark) + Tags(content, mark) + Tags([Close(inserted)], mark) + Tags(rest', mark)
  {
    TagsPlain(marks, mark);
    TagsSplit(Plain(marks), content + Plain(marks) + rest, mark);
    TagsSplit(content + Plain(marks), rest, mark);
    TagsSplit(content, Plain(marks), mark);
    TagsSplit([Open(inserted)] + content + [Close(inserted)], rest', mark);
    TagsSplit([Open(inserted)] + content, [Close(inserted)], mark);
    TagsSplit([Open(inserted)], content, mark);
    assert Tags(content, mark) + [] == Tags(content, mark);
  }

  lemma TagsOne(token: Token, mark: Mark)
    ensures Tags([token], mark) == if token in {Open(mark), Close(mark)} then [token] else []
  {
    assert [token][1..] == [];
  }

  /** A pass keeps the tags of the other kinds, in order. */
  lemma {:induction false} WrapKeepsTags(tokens: seq<Token>, delimiters: seq<string>, inserted: Mark, mark: Mark)
    requires Delimiters(delimiters) && inserted != mark
    ensures Tags(WrapTokens(tokens, delimiters, inserted), mark) == Tags(tokens, mark)
    decreases |tokens|
  {
    if tokens != [] {
      hide FirstSpan, Tags, Delimiters, AllMarks;
      var cut := FirstSpan(tokens, Plains(delimiters), TOKEN_STOPS);
      if cut.Some? {
        var Cut(content, rest) := cut.value;
        var marks := SpanMarks(tokens, delimiters);
        WrapKeepsTags(rest, delimiters, inserted, mark);
        TagsAround(marks, content, rest, inserted, WrapTokens(rest, delimiters, inserted), mark);
        TagsOne(Open(inserted), mark);
        TagsOne(Close(inserted), mark);
        assert [] + Tags(content, mark) + [] == Tags(content, mark);
      } else {
        WrapKeepsTags(tokens[1..], delimiters, inserted, mark);
        TagsSplit([tokens[0]], tokens[1..], mark);
        TagsSplit([tokens[0]], WrapTokens(tokens[1..], delimiters, inserted), mark);
        assert [tokens[0]] + tokens[1..] == tokens;
      }
    }
  }

  lemma WrapFirst(tokens: seq<Token>, delimiters: seq<string>, mark: Mark)
    requires tokens != []
    ensures var cut := FirstSpan(tokens, Plains(delimiters), TOKEN_STOPS);
            WrapTokens(tokens, delimiters, mark) ==
            if cut.Some? then
              [Open(mark)] + cut.value.content + [Close(mark)] + WrapTokens(cut.value.rest, delimiters, mark)
            else [tokens[0]] + WrapTokens(tokens[1..], delimiters, mark)
  {
    hide FirstSpan;
  }

  lemma InsertPair(tokens: seq<Token>, delimiters: seq<string>, mark: Mark)
    requires Delimiters(delimiters) && tokens != [] && Tags(tokens, mark) == []
    requires FirstSpan(tokens, Plains(delimiters), TOKEN_STOPS).Some?
    ensures var rest := FirstSpan(tokens, Plains(delimiters), TOKEN_STOPS).value.rest;
            && Tags(rest, mark) == []
            && Tags(WrapTokens(tokens, delimiters, mark), mark) ==
               [Open(mark), Close(mark)] + Tags(WrapTokens(rest, delimiters, mark), mark)
  {
    hide *;
    WrapFirst(tokens, delimiters, mark);
    var Cut(content, rest) := FirstSpan(tokens, Plains(delimiters), TOKEN_STOPS).value;
    var marks := SpanMarks(tokens, delimiters);
    TagsAround(marks, content, rest, mark, WrapTokens(rest, delimiters, mark), mark);
    NoneOfBoth(Tags(content, mark), Tags(rest, mark));
    TagsOne(Open(mark), mark);
    TagsOne(Close(mark), mark);
    assert [Open(mark)] + [] + [Close(mark)] == [Open(mark), Close(mark)];
  }

  lemma NoneOfBoth<T>(a: seq<T>, b: seq<T>)
    requires a + b == []
    ensures a == [] && b == []
  {
    assert |a + b| == 0;
  }

  lemma InsertNothing(tokens: seq<Token>, delimiters: seq<string>, mark: Mark)
    requires tokens != [] && Tags(tokens, mark) == []
    requires FirstSpan(tokens, Plains(delimiters), TOKEN_STOPS).None?
    ensures Tags(tokens[1..], mark) == []
    ensures Tags(WrapTokens(tokens, delimiters, mark), mark) == Tags(WrapTokens(tokens[1..], delimiters, mark), mark)
  {
    hide *;
    WrapFirst(tokens, delimiters, mark);
    var rest' := WrapTokens(tokens[1..], delimiters, mark);
    TagsSplit([tokens[0]], tokens[1..], mark);
    TagsSplit([tokens[0]], rest', mark);
    assert [tokens[0]] + tokens[1..] == tokens;
    NoneOfBoth(Tags([tokens[0]], mark), Tags(tokens[1..], mark));
    assert [] + Tags(rest', mark) == Tags(rest', mark);
  }

  /** A pass inserts its own tags in pairs, none within another. */
  lemma {:induction false} WrapInsertsPairs(tokens: seq<Token>, delimiters: seq<string>, mark: Mark) returns (n: nat)
    requires Delimiters(delimiters) && Tags(tokens, mark) == []
    ensures Tags(WrapTokens(tokens, delimiters, mark), mark) == PairsOf(mark, n)
    decreases |tokens|
  {
    if tokens == [] {
      n := 0;
    } else {
      hide FirstSpan, Tags, Delimiters, WrapTokens;
      var cut := FirstSpan(tokens, Plains(delimiters), TOKEN_STOPS);
      if cut.Some? {
        InsertPair(tokens, delimiters, mark);
        var more := WrapInsertsPairs(cut.value.rest, delimiters, mark);
        n := more + 1;
      } else {
        InsertNothing(tokens, delimiters, mark);
        n := WrapInsertsPairs(tokens[1..], delimiters, mark);
      }
    }
  }

  // ---------------------------------------------------------------- theorems

  /** Escaping alone is undone by reading. */
  lemma EscapeRoundTrip(text: string)
    ensures TextOf(Escaped(text)) == text
  {
    EscapedIsRendered(text);
    ReadRender(Plain(text));
    CharsPlain(text);
  }

  /** Stripping the tags and decoding the entities gives the line without some of its marks, and nothing
      else is lost or changed. */
  lemma TextIsKept(text: string)
    ensures Thinned(text, TextOf(EscapeAndSpan(text)))
  {
    hide WrapTokens, Thinned, Read, Render, EscapeAndSpan;
    var strong := WrapTokens(Plain(text), ["**", "__"], Strong);
    var em := WrapTokens(strong, ["*", "_"], Em);
    HtmlIsMarked(text);
    ReadRender(Marked(text));
    CharsPlain(text);
    WrapThins(Plain(text), ["**", "__"], Strong);
    WrapThins(strong, ["*", "_"], Em);
    WrapThins(em, ["`"], Code);
    ThinnedTwice(text, Chars(strong), Chars(em));
    ThinnedTwice(text, Chars(em), Chars(Marked(text)));
  }

  /** A tag starts here. */
  predicate TagAt(s: string, i: nat)
    requires i <= |s|
  {
    exists mark :: Markup(Open(mark)) <= s[i..] || Markup(Close(mark)) <= s[i..]
  }

  lemma {:induction false} AngleIsTag(tokens: seq<Token>, i: nat)
    requires i < |Render(tokens)| && Render(tokens)[i] == '<'
    ensures TagAt(Render(tokens), i)
    decreases |tokens|
  {
    var first, rest := Markup(tokens[0]), Render(tokens[1..]);
    if i < |first| {
      assert first[i] == '<';
      FirstAngle(tokens[0], i);
      assert first <= Render(tokens)[0..];
    } else {
      hide Markup;
      AngleIsTag(tokens[1..], i - |first|);
      assert Render(tokens)[i..] == rest[i - |first|..];
    }
  }

  lemma FirstAngle(token: Token, i: nat)
    requires i < |Markup(token)| && Markup(token)[i] == '<'
    ensures i == 0 && !token.Ch?
  {
  }

  /** Every < of the HTML starts one of the six inserted tags. */
  lemma AnglesAreTags(text: string, i: nat)
    requires i < |EscapeAndSpan(text)| && EscapeAndSpan(text)[i] == '<'
    ensures TagAt(EscapeAndSpan(text), i)
  {
    hide EscapeAndSpan, Marked, Render;
    HtmlIsMarked(text);
    AngleIsTag(Marked(text), i);
  }

  /** The tags of each kind alternate, opening and closing, from the first to the last. */
  lemma TagsPair(text: string, mark: Mark)
    ensures exists n :: Tags(Read(EscapeAndSpan(text)), mark) == PairsOf(mark, n)
  {
    hide WrapTokens, Tags, Read, Render, EscapeAndSpan, PairsOf;
    var strong := WrapTokens(Plain(text), ["**", "__"], Strong);
    var em := WrapTokens(strong, ["*", "_"], Em);
    HtmlIsMarked(text);
    ReadRender(Marked(text));
    TagsPlain(text, mark);
    var n;
    match mark
    case Strong =>
      n := WrapInsertsPairs(Plain(text), ["**", "__"], mark);
      WrapKeepsTags(strong, ["*", "_"], Em, mark);
      WrapKeepsTags(em, ["`"], Code, mark);
    case Em =>
      WrapKeepsTags(Plain(text), ["**", "__"], Strong, mark);
      n := WrapInsertsPairs(strong, ["*", "_"], mark);
      WrapKeepsTags(em, ["`"], Code, mark);
    case Code =>
      WrapKeepsTags(Plain(text), ["**", "__"], Strong, mark);
      WrapKeepsTags(strong, ["*", "_"], Em, mark);
      n := WrapInsertsPairs(em, ["`"], mark);
    assert Tags(Read(EscapeAndSpan(text)), mark) == PairsOf(mark, n);
  }
}
