/** When the inserted tags nest, and when they cross. */
module TagNesting {
  import opened EscapedText
  import opened Escaping
  import opened Options
  import opened Spans

  function NestToken(token: Token, stack: seq<Mark>): Option<seq<Mark>> {
    if token.Ch? then Some(stack)
    else if token.Open? then Some([token.mark] + stack)
    else if stack != [] && stack[0] == token.mark then Some(stack[1..])
    else None
  }

  /** The marks left open, innermost first; None when a tag closes another one than the innermost. */
  function Nest(tokens: seq<Token>, stack: seq<Mark>): Option<seq<Mark>>
    decreases |tokens|
  {
    if tokens == [] then Some(stack)
    else
      var next := NestToken(tokens[0], stack);
      if next.Some? then Nest(tokens[1..], next.value) else None
  }

  /** Every tag that opens closes again, the innermost one first. */
  predicate Nested(tokens: seq<Token>) {
    Nest(tokens, []) == Some([])
  }

  function NestAfter(before: Option<seq<Mark>>, tokens: seq<Token>): Option<seq<Mark>> {
    if before.Some? then Nest(tokens, before.value) else None
  }

  lemma {:induction false} NestSplit(a: seq<Token>, b: seq<Token>, stack: seq<Mark>)
    ensures Nest(a + b, stack) == NestAfter(Nest(a, stack), b)
    decreases |a|
  {
    if a == [] {
      assert a + b == b;
    } else {
      assert (a + b)[1..] == a[1..] + b && (a + b)[0] == a[0];
      var next := NestToken(a[0], stack);
      if next.Some? {
        NestSplit(a[1..], b, next.value);
      }
    }
  }

  lemma {:induction false} NestChars(tokens: seq<Token>, stack: seq<Mark>)
    requires forall i :: 0 <= i < |tokens| ==> tokens[i].Ch?
    ensures Nest(tokens, stack) == Some(stack)
    decreases |tokens|
  {
    if tokens != [] {
      NestChars(tokens[1..], stack);
    }
  }

  lemma TokenAbove(token: Token, stack: seq<Mark>, below: seq<Mark>)
    requires NestToken(token, stack).Some?
    ensures NestToken(token, stack + below) == Some(NestToken(token, stack).value + below)
  {
    if token.Open? {
      Assoc([token.mark], stack, below);
    } else if token.Close? {
      assert (stack + below)[1..] == stack[1..] + below;
    }
  }

  /** What was open before stays open below. */
  lemma {:induction false} NestAbove(tokens: seq<Token>, stack: seq<Mark>, below: seq<Mark>)
    requires Nest(tokens, stack).Some?
    ensures Nest(tokens, stack + below) == Some(Nest(tokens, stack).value + below)
    decreases |tokens|
  {
    if tokens != [] {
      hide NestToken;
      TokenAbove(tokens[0], stack, below);
      NestAbove(tokens[1..], NestToken(tokens[0], stack).value, below);
    }
  }

  lemma TokenAround(token: Token, above: seq<Mark>, mark: Mark, below: seq<Mark>)
    requires token != Open(mark) && token != Close(mark) && mark !in above
    requires NestToken(token, above + ([mark] + below)).Some?
    ensures NestToken(token, above).Some? && mark !in NestToken(token, above).value
    ensures NestToken(token, above + ([mark] + below)) == Some(NestToken(token, above).value + ([mark] + below))
  {
    var all := above + ([mark] + below);
    if token.Open? {
      Assoc([token.mark], above, [mark] + below);
    } else if token.Close? {
      if above != [] {
        assert all[0] == above[0] && all[1..] == above[1..] + ([mark] + below);
      }
    }
  }

  lemma FirstTags(tokens: seq<Token>, mark: Mark)
    requires tokens != [] && Tags(tokens, mark) == []
    ensures tokens[0] != Open(mark) && tokens[0] != Close(mark) && Tags(tokens[1..], mark) == []
  {
  }

  /** Without tags of one kind, an open one of that kind stays where it is. */
  lemma {:induction false} NestAround(tokens: seq<Token>, above: seq<Mark>, mark: Mark, below: seq<Mark>)
      returns (above': seq<Mark>)
    requires Tags(tokens, mark) == [] && mark !in above
    requires Nest(tokens, above + ([mark] + below)).Some?
    ensures mark !in above'
    ensures Nest(tokens, above + ([mark] + below)) == Some(above' + ([mark] + below))
    ensures Nest(tokens, above) == Some(above')
    decreases |tokens|
  {
    if tokens == [] {
      above' := above;
    } else {
      hide NestToken, Tags;
      FirstTags(tokens, mark);
      TokenAround(tokens[0], above, mark, below);
      above' := NestAround(tokens[1..], NestToken(tokens[0], above).value, mark, below);
    }
  }

  lemma NestOne(token: Token, stack: seq<Mark>)
    ensures Nest([token], stack) == NestToken(token, stack)
  {
    assert [token][1..] == [];
  }

  /** A span of a new kind nests exactly when what it encloses does. */
  lemma SpanNests(content: seq<Token>, mark: Mark, stack: seq<Mark>)
    requires Tags(content, mark) == []
    ensures Nest([Open(mark)] + content + [Close(mark)], stack) == if Nested(content) then Some(stack) else None
  {
    var inner := [mark] + stack;
    NestOne(Open(mark), stack);
    NestSplit([Open(mark)] + content, [Close(mark)], stack);
    NestSplit([Open(mark)], content, stack);
    hide Nest, Tags;
    assert [] + inner == inner;
    NestedAnywhere(content, inner);
    if Nest(content, inner).Some? {
      var above := NestAround(content, [], mark, stack);
      NestOne(Close(mark), above + inner);
      if above != [] {
        assert (above + inner)[0] == above[0] != mark;
      } else {
        assert above + inner == inner && inner[1..] == stack;
      }
    }
  }

  lemma NestedAnywhere(content: seq<Token>, stack: seq<Mark>)
    ensures Nested(content) ==> Nest(content, stack) == Some(stack)
  {
    if Nested(content) {
      NestAbove(content, [], stack);
      assert [] + stack == stack;
    }
  }

  /** Every span that a pass finds encloses only tags whose partners it encloses too. */
  predicate EnclosesPairs(tokens: seq<Token>, delimiters: seq<string>)
    decreases |tokens|
  {
    tokens == [] ||
    var cut := FirstSpan(tokens, Plains(delimiters), TOKEN_STOPS);
    if cut.Some? then Nested(cut.value.content) && EnclosesPairs(cut.value.rest, delimiters)
    else EnclosesPairs(tokens[1..], delimiters)
  }

  lemma NestSpan(tokens: seq<Token>, delimiters: seq<string>, mark: Mark, stack: seq<Mark>)
    requires Delimiters(delimiters) && tokens != [] && Tags(tokens, mark) == []
    requires FirstSpan(tokens, Plains(delimiters), TOKEN_STOPS).Some?
    ensures var Cut(content, rest) := FirstSpan(tokens, Plains(delimiters), TOKEN_STOPS).value;
            && Tags(rest, mark) == []
            && Nest(WrapTokens(tokens, delimiters, mark), stack) ==
               (if Nested(content) then Nest(WrapTokens(rest, delimiters, mark), stack) else None)
            && (Nested(content) ==> Nest(tokens, stack) == Nest(rest, stack))
  {
    hide *;
    WrapFirst(tokens, delimiters, mark);
    var Cut(content, rest) := FirstSpan(tokens, Plains(delimiters), TOKEN_STOPS).value;
    var marks := SpanMarks(tokens, delimiters);
    var rest' := WrapTokens(rest, delimiters, mark);
    TagsAround(marks, content, rest, mark, rest', mark);
    NoneOfBoth(Tags(content, mark), Tags(rest, mark));
    NestSplit([Open(mark)] + content + [Close(mark)], rest', stack);
    SpanNests(content, mark, stack);
    NestAfterIs(Some(stack), rest');
    NestAfterIs(None, rest');
    if Nested(content) {
      NestDelimited(marks, content, rest, stack);
    }
  }

  lemma NestAfterIs(before: Option<seq<Mark>>, tokens: seq<Token>)
    ensures NestAfter(before, tokens) == if before.Some? then Nest(tokens, before.value) else None
  {
  }

  lemma NestDelimited(marks: string, content: seq<Token>, rest: seq<Token>, stack: seq<Mark>)
    requires Nested(content)
    ensures Nest(Plain(marks) + (content + Plain(marks) + rest), stack) == Nest(rest, stack)
  {
    NestSplit(Plain(marks), content + Plain(marks) + rest, stack);
    NestSplit(content + Plain(marks), rest, stack);
    NestSplit(content, Plain(marks), stack);
    NestChars(Plain(marks), stack);
    NestedAnywhere(content, stack);
  }

  /** A pass keeps the nesting, if its spans enclose pairs, and breaks it otherwise. */
  lemma {:induction false} WrapNests(tokens: seq<Token>, delimiters: seq<string>, mark: Mark, stack: seq<Mark>)
    requires Delimiters(delimiters) && Tags(tokens, mark) == []
    ensures Nest(WrapTokens(tokens, delimiters, mark), stack) ==
            if EnclosesPairs(tokens, delimiters) then Nest(tokens, stack) else None
    decreases |tokens|
  {
    if tokens != [] {
      hide FirstSpan, Tags, Nest, Nested, Delimiters, WrapTokens;
      var cut := FirstSpan(tokens, Plains(delimiters), TOKEN_STOPS);
      if cut.Some? {
        NestSpan(tokens, delimiters, mark, stack);
        WrapNests(cut.value.rest, delimiters, mark, stack);
      } else {
        InsertNothing(tokens, delimiters, mark);
        WrapFirst(tokens, delimiters, mark);
        var rest' := WrapTokens(tokens[1..], delimiters, mark);
        NestSplit([tokens[0]], tokens[1..], stack);
        NestSplit([tokens[0]], rest', stack);
        assert [tokens[0]] + tokens[1..] == tokens;
        var first := Nest([tokens[0]], stack);
        if first.Some? {
          WrapNests(tokens[1..], delimiters, mark, first.value);
        }
      }
    }
  }

  lemma {:induction false} CharsEnclosePairs(tokens: seq<Token>, delimiters: seq<string>)
    requires Delimiters(delimiters) && forall i :: 0 <= i < |tokens| ==> tokens[i].Ch?
    ensures EnclosesPairs(tokens, delimiters)
    decreases |tokens|
  {
    if tokens != [] {
      var cut := FirstSpan(tokens, Plains(delimiters), TOKEN_STOPS);
      if cut.Some? {
        var Cut(content, rest) := cut.value;
        var marks := SpanMarks(tokens, delimiters);
        CharsOfParts(Plain(marks), content, rest, tokens);
        hide FirstSpan;
        NestChars(content, []);
        CharsEnclosePairs(rest, delimiters);
      } else {
        CharsEnclosePairs(tokens[1..], delimiters);
      }
    }
  }

  lemma CharsOfParts(d: seq<Token>, content: seq<Token>, rest: seq<Token>, tokens: seq<Token>)
    requires tokens == d + (content + d + rest) && forall i :: 0 <= i < |tokens| ==> tokens[i].Ch?
    ensures forall i :: 0 <= i < |content| ==> content[i].Ch?
    ensures forall i :: 0 <= i < |rest| ==> rest[i].Ch?
  {
    forall i | 0 <= i < |content|
      ensures content[i].Ch?
    {
      assert content[i] == tokens[|d| + i];
    }
    forall i | 0 <= i < |rest|
      ensures rest[i].Ch?
    {
      assert rest[i] == tokens[|d| + |content| + |d| + i];
    }
  }

  // ---------------------------------------------------------------- theorems

  /** The tags of a line nest exactly when every span of emphasis encloses, of the tags inserted before it,
      both or neither of a pair, and so does every span of code. */
  lemma NestsIff(text: string)
    ensures var strong := WrapTokens(Plain(text), ["**", "__"], Strong);
            var em := WrapTokens(strong, ["*", "_"], Em);
            Nested(Read(EscapeAndSpan(text))) <==> EnclosesPairs(strong, ["*", "_"]) && EnclosesPairs(em, ["`"])
  {
    var strong := WrapTokens(Plain(text), ["**", "__"], Strong);
    var em := WrapTokens(strong, ["*", "_"], Em);
    hide *;
    PlainNests(text);
    HtmlIsMarked(text);
    MarkedIs(text);
    ReadRender(Marked(text));
    NoTagsBefore(text);
    EachDelimits();
    WrapNests(Plain(text), ["**", "__"], Strong, []);
    WrapNests(strong, ["*", "_"], Em, []);
    WrapNests(em, ["`"], Code, []);
    NestedIs(Marked(text));
  }

  lemma PlainNests(text: string)
    ensures EnclosesPairs(Plain(text), ["**", "__"]) && Nest(Plain(text), []) == Some([])
  {
    EachDelimits();
    CharsEnclosePairs(Plain(text), ["**", "__"]);
    NestChars(Plain(text), []);
  }

  lemma EachDelimits()
    ensures Delimiters(["**", "__"]) && Delimiters(["*", "_"]) && Delimiters(["`"])
  {
  }

  lemma MarkedIs(text: string)
    ensures Marked(text) ==
            WrapTokens(WrapTokens(WrapTokens(Plain(text), ["**", "__"], Strong), ["*", "_"], Em), ["`"], Code)
  {
  }

  lemma NestedIs(tokens: seq<Token>)
    ensures Nested(tokens) <==> Nest(tokens, []) == Some([])
  {
  }

  lemma NoTagsBefore(text: string)
    ensures var strong := WrapTokens(Plain(text), ["**", "__"], Strong);
            var em := WrapTokens(strong, ["*", "_"], Em);
            Tags(Plain(text), Strong) == [] && Tags(strong, Em) == [] && Tags(em, Code) == []
  {
    hide WrapTokens, Tags;
    var strong := WrapTokens(Plain(text), ["**", "__"], Strong);
    TagsPlain(text, Strong);
    TagsPlain(text, Em);
    TagsPlain(text, Code);
    WrapKeepsTags(Plain(text), ["**", "__"], Strong, Em);
    WrapKeepsTags(Plain(text), ["**", "__"], Strong, Code);
    WrapKeepsTags(strong, ["*", "_"], Em, Code);
  }

  // ---------------------------------------------------------------- a line whose tags cross

  const CROSSING := "**a*b**c*"

  lemma FirstOfTwo(tokens: seq<Token>, a: string, b: string)
    ensures var first := Span(tokens, Plain(a), TOKEN_STOPS);
            FirstSpan(tokens, Plains([a, b]), TOKEN_STOPS) ==
            if first.Some? then first else Span(tokens, Plain(b), TOKEN_STOPS)
  {
    hide Span;
    var all := Plains([a, b]);
    assert all[1..] == [Plain(b)];
    assert FirstSpan(tokens, [Plain(b)], TOKEN_STOPS) == Span(tokens, Plain(b), TOKEN_STOPS) by {
      assert [Plain(b)][1..] == [];
      assert FirstSpan(tokens, [], TOKEN_STOPS).None?;
    }
  }

  lemma NoStart(tokens: seq<Token>, delimiter: seq<Token>)
    requires !(delimiter <= tokens)
    ensures Span(tokens, delimiter, TOKEN_STOPS).None?
  {
  }

  /** A span of a delimiter: k more characters after the first one, then the delimiter. */
  lemma SpanHere(tokens: seq<Token>, delimiter: seq<Token>, after: seq<Token>, k: nat)
    requires tokens == delimiter + after && after != [] && after[0] !in TOKEN_STOPS
    requires ClosesAt(after[1..], k, delimiter, TOKEN_STOPS)
    ensures k + 1 + |delimiter| <= |after|
    ensures Span(tokens, delimiter, TOKEN_STOPS) == Some(Cut(after[..k + 1], after[k + 1 + |delimiter|..]))
  {
    hide ClosesAt, CloseIndex, Enclosed;
    CloseIndexIff(after[1..], delimiter, TOKEN_STOPS, k);
    EnclosedBy(after, delimiter, TOKEN_STOPS, k);
    assert tokens[|delimiter|..] == after;
  }

  lemma PassOne(token: Token, rest: seq<Token>, a: string, b: string, mark: Mark)
    requires !(Plain(a) <= [token] + rest) && !(Plain(b) <= [token] + rest)
    ensures WrapTokens([token] + rest, [a, b], mark) == [token] + WrapTokens(rest, [a, b], mark)
    ensures EnclosesPairs([token] + rest, [a, b]) == EnclosesPairs(rest, [a, b])
  {
    hide Span, FirstSpan, WrapTokens;
    var tokens := [token] + rest;
    NoStart(tokens, Plain(a));
    NoStart(tokens, Plain(b));
    FirstOfTwo(tokens, a, b);
    WrapFirst(tokens, [a, b], mark);
    assert tokens[1..] == rest;
  }

  /** A token that is no mark starts no span. */
  lemma PassPlain(token: Token, rest: seq<Token>, a: string, b: string, mark: Mark)
    requires AllMarks(a) && AllMarks(b) && a != [] && b != [] && (token.Ch? ==> !IsMark(token.c))
    ensures WrapTokens([token] + rest, [a, b], mark) == [token] + WrapTokens(rest, [a, b], mark)
    ensures EnclosesPairs([token] + rest, [a, b]) == EnclosesPairs(rest, [a, b])
  {
    assert ([token] + rest)[0] == token && Plain(a)[0] == Ch(a[0]) && Plain(b)[0] == Ch(b[0]);
    PassOne(token, rest, a, b, mark);
  }

  lemma Stars()
    ensures Plain("*") == [Ch('*')] && Plain("**") == [Ch('*'), Ch('*')]
    ensures Plain("_") == [Ch('_')] && Plain("__") == [Ch('_'), Ch('_')]
  {
  }

  lemma CrossingText()
    ensures Plain(CROSSING) ==
            Plain("**") + [Ch('a'), Ch('*'), Ch('b'), Ch('*'), Ch('*'), Ch('c'), Ch('*')]
  {
    Stars();
  }

  lemma SecondStars()
    ensures ClosesAt([Ch('*'), Ch('b'), Ch('*'), Ch('*'), Ch('c'), Ch('*')], 2, Plain("**"), TOKEN_STOPS)
    ensures Ch('a') !in TOKEN_STOPS
  {
    var two, more := Plain("**"), [Ch('*'), Ch('b'), Ch('*'), Ch('*'), Ch('c'), Ch('*')];
    Stars();
    assert more[2..][..2] == two;
    forall i | 0 <= i < 2
      ensures more[i] !in TOKEN_STOPS && !(two <= more[i..])
    {
      assert more[i..][1 - i] == Ch('b');
    }
    ClosesLater(more, 2, two);
  }

  lemma StrongSpan()
    ensures FirstSpan(Plain(CROSSING), Plains(["**", "__"]), TOKEN_STOPS) ==
            Some(Cut([Ch('a'), Ch('*'), Ch('b')], [Ch('c'), Ch('*')]))
  {
    hide *;
    var after := [Ch('a'), Ch('*'), Ch('b'), Ch('*'), Ch('*'), Ch('c'), Ch('*')];
    CrossingText();
    SecondStars();
    assert after[1..] == [Ch('*'), Ch('b'), Ch('*'), Ch('*'), Ch('c'), Ch('*')];
    SpanHere(Plain(CROSSING), Plain("**"), after, 2);
    FirstOfTwo(Plain(CROSSING), "**", "__");
    assert after[..3] == [Ch('a'), Ch('*'), Ch('b')] && after[5..] == [Ch('c'), Ch('*')];
  }

  /** Two tokens that start no delimiter, and then it. */
  lemma ClosesLater(more: seq<Token>, k: nat, delimiter: seq<Token>)
    requires k == 2 <= |more| && delimiter <= more[2..]
    requires forall i :: 0 <= i < 2 ==> more[i] !in TOKEN_STOPS && !(delimiter <= more[i..])
    ensures ClosesAt(more, k, delimiter, TOKEN_STOPS)
  {
  }

  lemma StrongOfCrossing()
    ensures WrapTokens(Plain(CROSSING), ["**", "__"], Strong) ==
            [Open(Strong), Ch('a'), Ch('*'), Ch('b'), Close(Strong), Ch('c'), Ch('*')]
  {
    hide WrapTokens, FirstSpan;
    StrongSpan();
    WrapFirst(Plain(CROSSING), ["**", "__"], Strong);
    TwoLeft();
  }

  lemma TwoLeft()
    ensures WrapTokens([Ch('c'), Ch('*')], ["**", "__"], Strong) == [Ch('c'), Ch('*')]
  {
    Stars();
    assert [Ch('c')] + [Ch('*')] == [Ch('c'), Ch('*')] && [Ch('*')] + [] == [Ch('*')];
    PassPlain(Ch('c'), [Ch('*')], "**", "__", Strong);
    PassOne(Ch('*'), [], "**", "__", Strong);
    assert WrapTokens([], ["**", "__"], Strong) == [];
  }

  lemma EmSpan()
    ensures FirstSpan([Ch('*'), Ch('b'), Close(Strong), Ch('c'), Ch('*')], Plains(["*", "_"]), TOKEN_STOPS) ==
            Some(Cut([Ch('b'), Close(Strong), Ch('c')], []))
  {
    var after := [Ch('b'), Close(Strong), Ch('c'), Ch('*')];
    var more := [Close(Strong), Ch('c'), Ch('*')];
    Stars();
    assert after[1..] == more && more[2..] == [Ch('*')];
    assert [Ch('*')] + after == [Ch('*'), Ch('b'), Close(Strong), Ch('c'), Ch('*')];
    ClosesLater(more, 2, [Ch('*')]);
    SpanHere([Ch('*')] + after, [Ch('*')], after, 2);
    FirstOfTwo([Ch('*')] + after, "*", "_");
    hide Span, FirstSpan;
    assert after[..3] == [Ch('b'), Close(Strong), Ch('c')] && after[4..] == [];
  }

  /** The emphasis of the line encloses the end of its strong span without the start. */
  lemma CrossingEncloses()
    ensures var strong := [Open(Strong), Ch('a'), Ch('*'), Ch('b'), Close(Strong), Ch('c'), Ch('*')];
            !EnclosesPairs(strong, ["*", "_"])
  {
    var last := [Ch('*'), Ch('b'), Close(Strong), Ch('c'), Ch('*')];
    EmSpan();
    NotClosed();
    assert !EnclosesPairs(last, ["*", "_"]);
    hide EnclosesPairs, FirstSpan;
    PassPlain(Open(Strong), [Ch('a')] + last, "*", "_", Em);
    PassPlain(Ch('a'), last, "*", "_", Em);
    assert [Open(Strong)] + ([Ch('a')] + last) ==
           [Open(Strong), Ch('a'), Ch('*'), Ch('b'), Close(Strong), Ch('c'), Ch('*')];
  }

  lemma NotClosed()
    ensures !Nested([Ch('b'), Close(Strong), Ch('c')])
  {
    var content := [Ch('b'), Close(Strong), Ch('c')];
    assert content[1..][0] == Close(Strong);
  }

  /** It happens: strong and emphasis cross. */
  lemma TagsCross()
    ensures !Nested(Read(EscapeAndSpan(CROSSING)))
  {
    hide *;
    StrongOfCrossing();
    CrossingEncloses();
    NestsIff(CROSSING);
  }
}
