/** The event stream interpretation of sections 9.2.5 and 9.2.6 of the WHATWG HTML standard,
    line by line, as a reference for the block-wise parser. */
module Standard {
  import opened Options
  import opened SseText
  import opened SseEvents

  /** The data and event type buffers, and the events dispatched. */
  datatype Buffers = Buffers(data: string, event: string, out: seq<SseEvent>) {

    function ProcessLine(line: string): Buffers {
      if line == "" then Dispatch()
      else if line[0] == ':' then this
      else
        var colon := IndexOf(line, ':', 0);
        if colon == |line| then ProcessField(line, "")
        else ProcessField(line[..colon], AfterSpace(line[colon + 1..]))
    }

    /** The characters after the colon; a single U+0020 at their start is no part of the value. */
    static function AfterSpace(text: string): string {
      if " " <= text then text[|" "|..] else text
    }

    function ProcessField(field: string, value: string): Buffers {
      if field == "event" then this.(event := value)
      else if field == "data" then this.(data := data + value + "\n")
      else this
    }

    /** An event without data is dropped; one without a type is a message. */
    function Dispatch(): Buffers {
      if data == "" then Buffers("", "", out)
      else
        var text := if data[|data| - 1] == '\n' then data[..|data| - 1] else data;
        Buffers("", "", out + [SseEvent(if event == "" then "message" else event, text)])
    }

    function ProcessLines(lines: seq<string>): Buffers
      decreases |lines|
    {
      if lines == [] then this else ProcessLine(lines[0]).ProcessLines(lines[1..])
    }
  }

  const EMPTY := Buffers("", "", [])

  /** The lines of a stream, each ended by CRLF, LF or CR; an unterminated one is discarded. */
  function TerminatedLines(s: string): seq<string>
    decreases |s|
  {
    var j := FirstNewline(s, 0);
    if j == |s| then [] else [s[..j]] + TerminatedLines(s[j + LineEndAt(s, j)..])
  }

  function StandardEvents(s: string): seq<SseEvent> {
    EMPTY.ProcessLines(TerminatedLines(s)).out
  }

  // ---------------------------------------------------------------- one character at a time

  /** The line read so far; cr: the last character was a carriage return. */
  datatype Reader = Reader(line: string, cr: bool, buffers: Buffers) {
    function Step(c: char): Reader {
      if c == '\n' && cr then this.(cr := false)
      else if IsNewline(c) then Reader("", c == '\r', buffers.ProcessLine(line))
      else Reader(line + [c], false, buffers)
    }

    function Steps(s: string): Reader
      decreases |s|
    {
      if s == "" then this else Steps(s[..|s| - 1]).Step(s[|s| - 1])
    }
  }

  lemma {:induction false} StepsFirst(r: Reader, s: string)
    requires s != ""
    ensures r.Steps(s) == r.Step(s[0]).Steps(s[1..])
    decreases |s|
  {
    if |s| == 1 {
      assert s[..0] == "" && s[1..] == "";
    } else {
      var n := |s| - 1;
      StepsFirst(r, s[..n]);
      assert s[..n][1..] == s[1..][..n - 1];
    }
  }

  lemma {:induction false} ReadLine(r: Reader, s: string, j: nat)
    requires j <= |s| && forall i :: 0 <= i < j ==> !IsNewline(s[i])
    ensures r.Steps(s) == Reader(r.line + s[..j], if j == 0 then r.cr else false, r.buffers).Steps(s[j..])
    decreases j
  {
    if j == 0 {
      assert r.line + s[..0] == r.line && s[0..] == s;
    } else {
      StepsFirst(r, s);
      var r' := r.Step(s[0]);
      ReadLine(r', s[1..], j - 1);
      assert s[1..][j - 1..] == s[j..];
      Assoc(r.line, [s[0]], s[1..][..j - 1]);
      assert [s[0]] + s[1..][..j - 1] == s[..j];
    }
  }

  /** A carriage return that no line feed follows leaves no trace. */
  lemma ForgetReturn(b: Buffers, s: string)
    requires s == "" || s[0] != '\n'
    ensures Reader("", true, b).Steps(s).buffers == Reader("", false, b).Steps(s).buffers
  {
    if s != "" {
      StepsFirst(Reader("", true, b), s);
      StepsFirst(Reader("", false, b), s);
    }
  }

  lemma ReadsFirst(b: Buffers, s: string, j: nat, e: nat)
    requires j == FirstNewline(s, 0) < |s| && e == j + LineEndAt(s, j)
    ensures Reader("", false, b).Steps(s).buffers
         == Reader("", false, b.ProcessLine(s[..j])).Steps(s[e..]).buffers
  {
    ReadLine(Reader("", false, b), s, j);
    assert "" + s[..j] == s[..j];
    EndLine(b, s[..j], s[j..]);
    assert s[j..][e - j..] == s[e..];
  }

  /** Reading character by character and line by line is the same. */
  lemma {:induction false} ReadsLines(b: Buffers, s: string)
    ensures Reader("", false, b).Steps(s).buffers == b.ProcessLines(TerminatedLines(s))
    decreases |s|
  {
    var j := FirstNewline(s, 0);
    if j < |s| {
      var e := j + LineEndAt(s, j);
      ReadsFirst(b, s, j, e);
      ReadsLines(b.ProcessLine(s[..j]), s[e..]);
      FirstOfLines(b, s[..j], TerminatedLines(s[e..]));
    } else {
      ReadLine(Reader("", false, b), s, j);
      assert s[j..] == "";
    }
  }

  lemma FirstOfLines(b: Buffers, line: string, lines: seq<string>)
    ensures b.ProcessLines([line] + lines) == b.ProcessLine(line).ProcessLines(lines)
  {
    assert ([line] + lines)[1..] == lines;
  }

  lemma EndLine(b: Buffers, line: string, rest: string)
    requires rest != "" && IsNewline(rest[0])
    ensures Reader(line, false, b).Steps(rest).buffers
         == Reader("", false, b.ProcessLine(line)).Steps(rest[LineEndAt(rest, 0)..]).buffers
  {
    var r := Reader(line, false, b);
    StepsFirst(r, rest);
    var b' := b.ProcessLine(line);
    if LineEndAt(rest, 0) == 2 {
      StepsFirst(Reader("", true, b'), rest[1..]);
      assert rest[1..][1..] == rest[2..];
    } else if rest[0] == '\r' {
      ForgetReturn(b', rest[1..]);
    }
  }

  // ---------------------------------------------------------------- boundaries

  function LineEnds(run: string): nat {
    if run == "" then 0
    else
      var n := |run| - 1;
      LineEnds(run[..n]) + (if run[n] == '\n' && n > 0 && run[n - 1] == '\r' then 0 else 1)
  }

  /** The runs that hold a blank line for the standard but no separator for the parser. */
  predicate Mixed(run: string) {
    run == "\n\r" || run == "\n\r\n" || run == "\n\r\n\r" || run == "\r\n\r"
  }

  lemma {:induction false} LineEndsGrow(run: string, n: nat)
    requires n <= |run|
    ensures LineEnds(run[..n]) <= LineEnds(run)
    decreases |run|
  {
    if n < |run| {
      LineEndsGrow(run[..|run| - 1], n);
      assert run[..|run| - 1][..n] == run[..n];
    } else {
      assert run[..n] == run;
    }
  }

  lemma LineEndsSnoc(run: string, c: char)
    ensures LineEnds(run + [c]) == LineEnds(run) + (if c == '\n' && run != "" && run[|run| - 1] == '\r' then 0 else 1)
  {
    assert (run + [c])[..|run|] == run;
  }

  lemma TwoMore(run: string, i: nat)
    requires i + 2 <= |run|
    ensures LineEnds(run[..i + 2]) >= LineEnds(run[..i])
    ensures run[i] == run[i + 1] == '\r' ==> LineEnds(run[..i + 2]) >= LineEnds(run[..i]) + 2
    ensures run[i] == run[i + 1] == '\n' ==> LineEnds(run[..i + 2]) >= LineEnds(run[..i]) + 1
    ensures run[i] == run[i + 1] == '\n' && (i == 0 || run[i - 1] != '\r') ==> LineEnds(run[..i + 2]) >= 2
    ensures run[i] == run[i + 1] == '\n' && i > 0 && run[i - 1] == '\r' ==> LineEnds(run[..i]) >= 1
    ensures run[i] == '\r' && run[i + 1] == '\n' ==> LineEnds(run[..i + 2]) >= LineEnds(run[..i]) + 1
  {
    var a := run[..i];
    LineEndsSnoc(a, run[i]);
    LineEndsSnoc(a + [run[i]], run[i + 1]);
    assert a + [run[i]] + [run[i + 1]] == run[..i + 2];
    assert (a + [run[i]])[|a|] == run[i];
    if i > 0 {
      assert a == run[..i - 1] + [run[i - 1]];
      LineEndsSnoc(run[..i - 1], run[i - 1]);
    }
  }

  lemma SepEndsTwoLines(run: string, i: nat)
    requires SepAt(run, i) > 0
    ensures LineEnds(run[..i + SepAt(run, i)]) >= 2
  {
    TwoMore(run, i);
    if SepAt(run, i) == 4 {
      TwoMore(run, i + 2);
    }
    hide LineEnds;
  }

  lemma ShortRuns(run: string)
    requires NewlineOnly(run) && |run| <= 4
    requires forall i :: 0 <= i < |run| ==> SepAt(run, i) == 0
    ensures LineEnds(run) >= 2 <==> Mixed(run)
  {
    forall i | 0 <= i < |run| - 1 ensures run[i] != run[i + 1] {
      assert IsNewline(run[i]) && IsNewline(run[i + 1]) && SepAt(run, i) == 0;
    }
    if |run| == 1 {
      assert run[..0] == "";
    } else if |run| == 2 {
      assert run[..1] == [run[0]] && run[..1][..0] == "";
      assert run == [run[0], run[1]];
    } else if |run| == 3 {
      assert run[..2][..1][..0] == "" && |run[..2][..1]| == 1;
      assert run == [run[0], run[1], run[2]];
    } else if |run| == 4 {
      assert SepAt(run, 0) == 0;
      assert |run[..3][..2][..1]| == 1 && run[..3][..2][..1][..0] == "";
      assert run == [run[0], run[1], run[2], run[3]];
    }
  }

  lemma LongRuns(run: string)
    requires NewlineOnly(run) && |run| >= 5
    ensures Boundary(run)
  {
    assert IsNewline(run[0]) && IsNewline(run[1]) && IsNewline(run[2]) && IsNewline(run[3]) && IsNewline(run[4]);
    var i := if SepAt(run, 0) > 0 then 0 else if SepAt(run, 1) > 0 then 1 else if SepAt(run, 2) > 0 then 2 else 3;
    assert SepAt(run, i) > 0;
  }

  /** A run ends an event for the standard exactly when it ends one for the parser or is one of
      the four mixed runs; and it is never both. */
  lemma RunBoundaryIff(run: string)
    requires NewlineOnly(run)
    ensures LineEnds(run) >= 2 <==> Boundary(run) || Mixed(run)
    ensures !(Boundary(run) && Mixed(run))
  {
    if Boundary(run) {
      var i :| 0 <= i < |run| && SepAt(run, i) > 0;
      SepEndsTwoLines(run, i);
      LineEndsGrow(run, i + SepAt(run, i));
    } else if |run| <= 4 {
      ShortRuns(run);
    } else {
      LongRuns(run);
    }
  }
}
