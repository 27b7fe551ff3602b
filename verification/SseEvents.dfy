/** One block of an event stream: its lines, its fields and the event it denotes. */
module SseEvents {
  import opened Options
  import opened SseText

  /** The data is kept as text: decoding it as JSON is a function of that text. */
  datatype SseEvent = SseEvent(event: string, data: string)

  datatype Fields = Fields(event: string, data: seq<string>)

  const NO_FIELDS := Fields("", [])

  // ---------------------------------------------------------------- lines

  function FirstNewline(s: string, i: nat): (j: nat)
    requires i <= |s|
    ensures i <= j <= |s|
    ensures j < |s| ==> IsNewline(s[j])
    ensures forall k :: i <= k < j ==> !IsNewline(s[k])
  {
    FirstIndex(s, IsNewline, i)
  }

  /** The length of the line end at index i, a carriage return and line feed counting as one. */
  function LineEndAt(s: string, i: nat): (len: nat)
    requires i < |s|
    ensures 1 <= len <= 2 && i + len <= |s|
  {
    if s[i] == '\r' && i + 1 < |s| && s[i + 1] == '\n' then 2 else 1
  }

  /** The text between line ends. */
  function SplitLines(s: string): (lines: seq<string>)
    ensures |lines| > 0
    decreases |s|
  {
    var j := FirstNewline(s, 0);
    if j == |s| then [s] else [s[..j]] + SplitLines(s[j + LineEndAt(s, j)..])
  }

  function NonEmpty(lines: seq<string>): seq<string> {
    Filter(line => line != "", lines)
  }

  /** The maximal pieces without a line end, read one character at a time. */
  datatype LineScan = LineScan(done: seq<string>, cur: string) {
    function Step(c: char): LineScan {
      if !IsNewline(c) then LineScan(done, cur + [c])
      else LineScan(Lines(), "")
    }

    function Steps(s: string): LineScan
      decreases |s|
    {
      if s == "" then this else Steps(s[..|s| - 1]).Step(s[|s| - 1])
    }

    function Lines(): seq<string> {
      if cur == "" then done else done + [cur]
    }
  }

  function ContentLines(s: string): seq<string> {
    LineScan([], "").Steps(s).Lines()
  }

  // ---------------------------------------------------------------- fields

  function IndexOf(s: string, c: char, i: nat): (j: nat)
    requires i <= |s|
    ensures i <= j <= |s|
    ensures j < |s| ==> s[j] == c
    ensures forall k :: i <= k < j ==> s[k] != c
  {
    FirstIndex(s, x => x == c, i)
  }

  function ApplyLine(f: Fields, line: string): Fields {
    if line != "" && line[0] == ':' then f
    else
      var colon := IndexOf(line, ':', 0);
      var field := line[..colon];
      var value := if colon == |line| then "" else DropSpace(line[colon + 1..]);
      if field == "event" then f.(event := value)
      else if field == "data" then f.(data := f.data + [value])
      else f
  }

  function DropSpace(value: string): string {
    if value != "" && value[0] == ' ' then value[1..] else value
  }

  function FieldsOf(lines: seq<string>): Fields {
    if lines == [] then NO_FIELDS else ApplyLine(FieldsOf(lines[..|lines| - 1]), lines[|lines| - 1])
  }

  function Join(parts: seq<string>): string {
    if parts == [] then ""
    else if |parts| == 1 then parts[0]
    else Join(parts[..|parts| - 1]) + "\n" + parts[|parts| - 1]
  }

  function EventOf(f: Fields): Option<SseEvent> {
    if f.event == "" then None else Some(SseEvent(f.event, Join(f.data)))
  }

  function BlockEvent(block: string): Option<SseEvent> {
    EventOf(FieldsOf(ContentLines(block)))
  }

  // ---------------------------------------------------------------- the meaning of a stream

  function EventsOf(blocks: seq<string>): seq<SseEvent> {
    Collect(BlockEvent, blocks)
  }

  /** The events of the segments that a boundary has ended. */
  ghost function CompleteEvents(s: string): seq<SseEvent> {
    EventsOf(Scanned(s).Ended())
  }

  /** The events of the whole stream, the open segment included. */
  ghost function AllEvents(s: string): seq<SseEvent> {
    EventsOf(Scanned(s).Segments())
  }

  // ---------------------------------------------------------------- lemmas: lines

  lemma {:induction false} LineStepsConcat(st: LineScan, s: string, t: string)
    ensures st.Steps(s + t) == st.Steps(s).Steps(t)
    decreases |t|
  {
    if t == "" {
      assert s + t == s;
    } else {
      var n := |t| - 1;
      assert (s + t)[..|s + t| - 1] == s + t[..n];
      LineStepsConcat(st, s, t[..n]);
    }
  }

  /** A scan that starts on a new line only prepends the lines it has already. */
  lemma {:induction false} LineFrame(done: seq<string>, s: string)
    ensures var st := LineScan([], "").Steps(s);
            LineScan(done, "").Steps(s) == LineScan(done + st.done, st.cur)
    decreases |s|
  {
    if s != "" {
      var n := |s| - 1;
      LineFrame(done, s[..n]);
      var st := LineScan([], "").Steps(s[..n]);
      assert done + st.done + [st.cur] == done + (st.done + [st.cur]);
    }
  }

  lemma {:induction false} LineRun(st: LineScan, nl: string)
    requires NewlineOnly(nl) && nl != ""
    ensures st.Steps(nl) == LineScan(st.Lines(), "")
    decreases |nl|
  {
    var n := |nl| - 1;
    if n > 0 {
      LineRun(st, nl[..n]);
    }
  }

  lemma {:induction false} PieceSteps(st: LineScan, s: string)
    requires forall i :: 0 <= i < |s| ==> !IsNewline(s[i])
    ensures st.Steps(s) == LineScan(st.done, st.cur + s)
    decreases |s|
  {
    if s == "" {
      assert st.cur + s == st.cur;
    } else {
      var n := |s| - 1;
      PieceSteps(st, s[..n]);
      assert st.cur + s[..n] + [s[n]] == st.cur + s;
    }
  }

  lemma ContentLinesJoin(a: string, nl: string, b: string)
    requires NewlineOnly(nl) && nl != ""
    ensures ContentLines(a + nl + b) == ContentLines(a) + ContentLines(b)
  {
    var init := LineScan([], "");
    LineStepsConcat(init, a + nl, b);
    LineStepsConcat(init, a, nl);
    LineRun(init.Steps(a), nl);
    LineFrame(ContentLines(a), b);
  }

  /** Outer line ends do not change the lines of a block. */
  lemma ContentLinesTrim(lead: string, open: string, run: string)
    requires NewlineOnly(lead) && NewlineOnly(run)
    ensures ContentLines(lead + open + run) == ContentLines(open)
  {
    if run == "" {
      assert lead + open + run == lead + open;
    } else {
      ContentLinesJoin(lead + open, run, "");
      assert lead + open + run + "" == lead + open + run;
    }
    if lead == "" {
      assert lead + open == open;
    } else {
      ContentLinesJoin("", lead, open);
      assert "" + lead + open == lead + open;
    }
  }

  lemma NonEmptyConcat(a: seq<string>, b: seq<string>)
    ensures NonEmpty(a + b) == NonEmpty(a) + NonEmpty(b)
  {
    FilterConcat(line => line != "", a, b);
  }

  lemma FirstLine(a: string, nl: string, b: string)
    requires forall i :: 0 <= i < |a| ==> !IsNewline(a[i])
    requires NewlineOnly(nl) && nl != ""
    ensures ContentLines(a) == NonEmpty([a])
    ensures ContentLines(a + nl + b) == NonEmpty([a]) + ContentLines(b)
  {
    PieceSteps(LineScan([], ""), a);
    assert "" + a == a;
    FilterOne((line: string) => line != "", a);
    ContentLinesJoin(a, nl, b);
  }

  /** Splitting at paired line ends and skipping empty lines gives the content lines. */
  lemma {:induction false} SplitLinesContent(s: string)
    ensures NonEmpty(SplitLines(s)) == ContentLines(s)
    decreases |s|
  {
    var j := FirstNewline(s, 0);
    if j == |s| {
      FirstLine(s, "\n", "");
    } else {
      var e := j + LineEndAt(s, j);
      CutTwice(s, j, e);
      FirstLine(s[..j], s[j..e], s[e..]);
      SplitLinesContent(s[e..]);
      NonEmptyConcat([s[..j]], SplitLines(s[e..]));
    }
  }

  // ---------------------------------------------------------------- lemmas: events

  lemma EventsOfConcat(a: seq<string>, b: seq<string>)
    ensures EventsOf(a + b) == EventsOf(a) + EventsOf(b)
  {
    CollectConcat(BlockEvent, a, b);
  }

  lemma EventsOfOne(block: string)
    ensures EventsOf([block]) == Emit(BlockEvent(block))
  {
    CollectOne(BlockEvent, block);
  }

  lemma NewlineOnlyBlock(nl: string)
    requires NewlineOnly(nl)
    ensures BlockEvent(nl) == None
  {
    ContentLinesTrim(nl, "", "");
    assert nl + "" + "" == nl;
  }

  /** A separator-free block followed by line ends denotes the block's own event. */
  lemma BlockThenRun(b: string, nl: string)
    requires SepFree(b) && NewlineOnly(nl)
    ensures AllEvents(b + nl) == Emit(BlockEvent(b))
    ensures EndsWithSep(b + nl) ==> CompleteEvents(b + nl) == Emit(BlockEvent(b))
    ensures CompleteEvents(b) == []
  {
    ScanSepFree(b);
    ScanShape(b);
    StepsConcat(START, b, nl);
    StepsRun(Scanned(b), nl);
    var st := Scanned(b);
    if st.open == "" {
      NewlineOnlyBlock(b);
    } else {
      var lead :| NewlineOnly(lead) && b == lead + st.open + st.run;
      ContentLinesTrim(lead, st.open, st.run);
      assert [] + [st.open] == [st.open];
      EventsOfOne(st.open);
    }
    if EndsWithSep(b + nl) {
      EndsWithSepIsBoundary(b + nl);
    }
  }

  lemma CutEvents(p: string, x: string)
    requires EndsWithSep(p)
    ensures CompleteEvents(p + x) == CompleteEvents(p) + CompleteEvents(x)
    ensures AllEvents(p + x) == CompleteEvents(p) + AllEvents(x)
    ensures CompleteEvents(p) == AllEvents(p)
  {
    CutAfterSep(p, x);
    EventsOfConcat(Scanned(p).Ended(), Scanned(x).Ended());
    EventsOfConcat(Scanned(p).Segments(), Scanned(x).Segments());
  }

  lemma BlockSepRest(b: string, sep: string, x: string)
    requires SepFree(b) && NewlineOnly(sep) && EndsWithSep(b + sep)
    ensures CompleteEvents(b + sep + x) == Emit(BlockEvent(b)) + CompleteEvents(x)
    ensures AllEvents(b + sep + x) == Emit(BlockEvent(b)) + AllEvents(x)
  {
    BlockThenRun(b, sep);
    CutEvents(b + sep, x);
  }

  /** The first separator of a stream ends the event of the text before it. */
  lemma FirstBlock(raw: string, j: nat, e: nat)
    requires j == FirstSep(raw, 0) < |raw| && e == j + SepAt(raw, j)
    ensures CompleteEvents(raw) == Emit(BlockEvent(raw[..j])) + CompleteEvents(raw[e..])
    ensures AllEvents(raw) == Emit(BlockEvent(raw[..j])) + AllEvents(raw[e..])
  {
    NoSepBeforeFirst(raw, j);
    SepIsNewlines(raw, j);
    CutTwice(raw, j, e);
    assert SepAt(raw[..e], j) == e - j;
    BlockSepRest(raw[..j], raw[j..e], raw[e..]);
  }

  lemma CutTwice(s: string, j: nat, e: nat)
    requires j <= e <= |s|
    ensures s[..j] + s[j..e] == s[..e]
    ensures s[..j] + s[j..e] + s[e..] == s
  {
  }

  /** Splitting at leftmost separators yields the events of the scanned stream. */
  lemma {:induction false} SplitMeaning(raw: string)
    ensures EventsOf(Complete(Split(raw))) == CompleteEvents(raw)
    ensures EventsOf(Split(raw)) == AllEvents(raw)
    decreases |raw|
  {
    var j := FirstSep(raw, 0);
    EventsOfOne(raw[..j]);
    if j == |raw| {
      NoSepBeforeFirst(raw, j);
      BlockThenRun(raw, "");
      assert raw + "" == raw == raw[..j];
    } else {
      var e := j + SepAt(raw, j);
      FirstBlock(raw, j, e);
      SplitMeaning(raw[e..]);
      PrependBlock(raw[..j], Split(raw[e..]));
    }
  }

  lemma PrependBlock(b: string, blocks: seq<string>)
    requires |blocks| > 0
    ensures EventsOf([b] + blocks) == Emit(BlockEvent(b)) + EventsOf(blocks)
    ensures EventsOf(Complete([b] + blocks)) == Emit(BlockEvent(b)) + EventsOf(Complete(blocks))
  {
    EventsOfOne(b);
    EventsOfConcat([b], blocks);
    EventsOfConcat([b], Complete(blocks));
    CompletePrepend(b, blocks);
  }

  lemma CompletePrepend(b: string, blocks: seq<string>)
    requires |blocks| > 0
    ensures Complete([b] + blocks) == [b] + Complete(blocks)
  {
  }

  // ---------------------------------------------------------------- blank blocks

  /** The characters String.prototype.trim removes. */
  predicate IsSpace(c: char) {
    || c == ' ' || '\t' <= c <= '\r' || c == '\U{A0}' || c == '\U{1680}' || '\U{2000}' <= c <= '\U{200A}'
    || c == '\U{2028}' || c == '\U{2029}' || c == '\U{202F}' || c == '\U{205F}' || c == '\U{3000}' || c == '\U{FEFF}'
  }

  predicate IsBlank(s: string) {
    forall i :: 0 <= i < |s| ==> IsSpace(s[i])
  }

  predicate AllBlank(lines: seq<string>) {
    forall i :: 0 <= i < |lines| ==> IsBlank(lines[i])
  }

  lemma {:induction false} BlankLines(s: string)
    requires IsBlank(s)
    ensures var st := LineScan([], "").Steps(s); AllBlank(st.done) && IsBlank(st.cur)
    decreases |s|
  {
    if s != "" {
      BlankLines(s[..|s| - 1]);
    }
  }

  lemma {:induction false} BlankFields(lines: seq<string>)
    requires AllBlank(lines)
    ensures FieldsOf(lines) == NO_FIELDS
    decreases |lines|
  {
    if lines != [] {
      var n := |lines| - 1;
      BlankFields(lines[..n]);
      var line := lines[n];
      assert IsBlank(line);
      assert IndexOf(line, ':', 0) == |line|;
      assert line[..|line|] == line;
      assert !IsSpace("event"[0]) && !IsSpace("data"[0]);
    }
  }

  /** The guards on blank blocks skip nothing: a blank block denotes no event. */
  lemma BlankBlock(block: string)
    requires IsBlank(block)
    ensures BlockEvent(block) == None
  {
    BlankLines(block);
    BlankFields(ContentLines(block));
  }

  // ---------------------------------------------------------------- the parser

  lemma NextLine(lines: seq<string>, line: string)
    ensures var f := FieldsOf(NonEmpty(lines));
            FieldsOf(NonEmpty(lines + [line])) == if line == "" then f else ApplyLine(f, line)
  {
    assert (lines + [line])[..|lines|] == lines;
    var kept := NonEmpty(lines);
    if line == "" {
      assert kept + [] == kept;
    } else {
      assert (kept + [line])[..|kept|] == kept;
    }
  }

  method ParseBlock(block: string) returns (r: Option<SseEvent>)
    ensures r == BlockEvent(block)
  {
    var eventName, dataLines := "", [];
    var lines := SplitLines(block);
    for i := 0 to |lines|
      invariant Fields(eventName, dataLines) == FieldsOf(NonEmpty(lines[..i]))
    {
      var rawLine := lines[i];
      NextLine(lines[..i], rawLine);
      assert lines[..i + 1] == lines[..i] + [rawLine];
      if |rawLine| == 0 || rawLine[0] == ':' {
        continue;
      }
      var colon := IndexOf(rawLine, ':', 0);
      var field := rawLine[..colon];
      var value := if colon == |rawLine| then "" else DropSpace(rawLine[colon + 1..]);
      if field == "event" {
        eventName := value;
      } else if field == "data" {
        dataLines := dataLines + [value];
      }
    }
    assert lines[..|lines|] == lines;
    SplitLinesContent(block);
    if eventName == "" {
      return None;
    }
    return Some(SseEvent(eventName, Join(dataLines)));
  }

  lemma NoEvents()
    ensures EventsOf([]) == []
  {
  }

  lemma EventsNext(blocks: seq<string>, i: nat)
    requires i < |blocks|
    ensures EventsOf(blocks[..i + 1]) == EventsOf(blocks[..i]) + Emit(BlockEvent(blocks[i]))
  {
    assert blocks[..i + 1][..i] == blocks[..i];
  }

  /** The events of the blocks that a separator ends; the trailing partial block gives none. */
  method ParseSseEvents(raw: string) returns (events: seq<SseEvent>)
    ensures events == CompleteEvents(raw)
  {
    var complete := Complete(Split(raw));
    SplitMeaning(raw);
    hide Split, Complete, BlockEvent, CompleteEvents, EventsOf, IsBlank;
    assert EventsOf(complete[..0]) == [] by {
      NoEvents();
    }
    events := [];
    for i := 0 to |complete|
      invariant events == EventsOf(complete[..i])
    {
      var block := complete[i];
      EventsNext(complete, i);
      if IsBlank(block) {
        BlankBlock(block);
        continue;
      }
      var ev := ParseBlock(block);
      events := events + Emit(ev);
    }
    assert complete[..|complete|] == complete;
  }
}
