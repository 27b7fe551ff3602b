/** When the block-wise parser agrees with the line-by-line standard. */
module StandardAgreement {
  import opened Options
  import opened SseText
  import opened SseEvents
  import opened Standard
  import RoundTrip

  /** The standard's buffer for these data values. */
  function DataBuffer(data: seq<string>): string {
    if data == [] then "" else DataBuffer(data[..|data| - 1]) + data[|data| - 1] + "\n"
  }

  function BuffersOf(f: Fields, out: seq<SseEvent>): Buffers {
    Buffers(DataBuffer(f.data), f.event, out)
  }

  /** The event the standard dispatches for a block with these fields. */
  function StandardEvent(f: Fields): Option<SseEvent> {
    if f.data == [] then None else Some(SseEvent(if f.event == "" then "message" else f.event, Join(f.data)))
  }

  function StandardBlock(block: string): Option<SseEvent> {
    StandardEvent(FieldsOf(ContentLines(block)))
  }

  function StandardOf(blocks: seq<string>): seq<SseEvent> {
    Collect(StandardBlock, blocks)
  }

  // ---------------------------------------------------------------- one block

  lemma {:induction false} DataBufferIsJoin(data: seq<string>)
    requires data != []
    ensures DataBuffer(data) == Join(data) + "\n"
    decreases |data|
  {
    var n := |data| - 1;
    if n > 0 {
      DataBufferIsJoin(data[..n]);
    } else {
      assert data[..0] == [];
    }
  }

  lemma ValueAgrees(text: string)
    ensures Buffers.AfterSpace(text) == DropSpace(text)
  {
    assert text != "" && text[0] == ' ' ==> " " <= text;
  }

  lemma FieldAgrees(f: Fields, out: seq<SseEvent>, field: string, value: string)
    ensures BuffersOf(f, out).ProcessField(field, value) ==
            BuffersOf(if field == "event" then f.(event := value)
                      else if field == "data" then f.(data := f.data + [value])
                      else f, out)
  {
    assert (f.data + [value])[..|f.data|] == f.data;
  }

  lemma LineAgrees(f: Fields, out: seq<SseEvent>, line: string)
    requires line != ""
    ensures BuffersOf(f, out).ProcessLine(line) == BuffersOf(ApplyLine(f, line), out)
  {
    var colon := IndexOf(line, ':', 0);
    if colon == |line| {
      assert line[..colon] == line;
      FieldAgrees(f, out, line, "");
    } else {
      ValueAgrees(line[colon + 1..]);
      FieldAgrees(f, out, line[..colon], DropSpace(line[colon + 1..]));
    }
    hide DropSpace, Buffers.AfterSpace, Buffers.ProcessField, BuffersOf, FirstIndex;
  }

  lemma DispatchAgrees(f: Fields, out: seq<SseEvent>)
    ensures BuffersOf(f, out).Dispatch() == BuffersOf(NO_FIELDS, out + Emit(StandardEvent(f)))
  {
    if f.data == [] {
      assert out + [] == out;
    } else {
      DataBufferIsJoin(f.data);
      var text := Join(f.data);
      assert (text + "\n")[..|text|] == text;
    }
  }

  /** The parser and the standard agree on a block exactly when it has a name and data, or neither. */
  lemma BlockAgreesIff(block: string)
    ensures var f := FieldsOf(ContentLines(block));
            BlockEvent(block) == StandardBlock(block) <==> (f.event != "" <==> f.data != [])
  {
  }

  // ---------------------------------------------------------------- the blocks of the standard

  /** As the scanner reads, but with the boundaries of the standard: runs with two line ends or more. */
  function StandardStep(st: Scan, c: char): Scan {
    if IsNewline(c) then st.(run := st.run + [c])
    else if st.open == "" then Scan(st.closed, [c], "")
    else if LineEnds(st.run) >= 2 then Scan(st.closed + [st.open], [c], "")
    else Scan(st.closed, st.open + st.run + [c], "")
  }

  function StandardScan(s: string): Scan {
    if s == "" then SseText.START else StandardStep(StandardScan(s[..|s| - 1]), s[|s| - 1])
  }

  /** The content between such runs, where one has ended it. */
  function StandardBlocks(s: string): seq<string> {
    var st := StandardScan(s);
    if LineEnds(st.run) >= 2 && st.open != "" then st.closed + [st.open] else st.closed
  }

  // ---------------------------------------------------------------- the two readers side by side

  function LinesOf(open: string): LineScan {
    LineScan([], "").Steps(open)
  }

  ghost predicate SimOpen(st: Scan, r: Reader) {
    var lines := LinesOf(st.open);
    r.line == lines.cur && r.buffers == BuffersOf(FieldsOf(lines.done), StandardOf(st.closed))
  }

  ghost predicate Sim(st: Scan, r: Reader) {
    && (st.open != "" ==> LinesOf(st.open).cur != "")
    && (st.open == "" ==> st.closed == [])
    && r.cr == (st.run != "" && st.run[|st.run| - 1] == '\r')
    && (st.run == "" ==> SimOpen(st, r))
    && (st.run != "" ==> r.line == "")
    && (st.run != "" && LineEnds(st.run) < 2 ==>
          r.buffers == BuffersOf(FieldsOf(ContentLines(st.open)), StandardOf(st.closed)))
    && (LineEnds(st.run) >= 2 ==> r.buffers == BuffersOf(NO_FIELDS, StandardOf(st.Segments())))
  }

  lemma FieldsSnoc(lines: seq<string>, line: string)
    ensures FieldsOf(lines + [line]) == ApplyLine(FieldsOf(lines), line)
  {
    assert (lines + [line])[..|lines|] == lines;
  }

  lemma StandardSnoc(blocks: seq<string>, block: string)
    ensures StandardOf(blocks + [block]) == StandardOf(blocks) + Emit(StandardBlock(block))
  {
    assert (blocks + [block])[..|blocks|] == blocks;
  }

  lemma OneLineEnd(c: char)
    ensures LineEnds([c]) == 1
  {
    assert [c][..0] == "";
  }

  lemma SomeLineEnds(run: string)
    requires run != ""
    ensures LineEnds(run) >= 1
  {
    LineEndsGrow(run, 1);
    OneLineEnd(run[0]);
    assert run[..1] == [run[0]];
  }

  /** The first line end after content ends its line. */
  lemma SimFirstEnd(st: Scan, r: Reader, c: char)
    requires Sim(st, r) && st.run == "" && IsNewline(c)
    ensures Sim(StandardStep(st, c), r.Step(c))
  {
    OneLineEnd(c);
    assert "" + [c] == [c];
    var lines := LinesOf(st.open);
    if st.open == "" {
      DispatchAgrees(NO_FIELDS, []);
    } else {
      LineAgrees(FieldsOf(lines.done), StandardOf(st.closed), lines.cur);
      FieldsSnoc(lines.done, lines.cur);
    }
  }

  /** A further line end is the second half of a pair, or a blank line. */
  lemma SimNextEnd(st: Scan, r: Reader, c: char)
    requires Sim(st, r) && st.run != "" && IsNewline(c)
    ensures Sim(StandardStep(st, c), r.Step(c))
  {
    LineEndsSnoc(st.run, c);
    SomeLineEnds(st.run);
    if !(c == '\n' && r.cr) {
      if LineEnds(st.run) < 2 {
        DispatchAgrees(FieldsOf(ContentLines(st.open)), StandardOf(st.closed));
        if st.open != "" {
          StandardSnoc(st.closed, st.open);
        }
      } else {
        DispatchAgrees(NO_FIELDS, StandardOf(st.Segments()));
        assert StandardOf(st.Segments()) + [] == StandardOf(st.Segments());
      }
    }
  }

  lemma LinesAfterRun(open: string, run: string, c: char)
    requires NewlineOnly(run) && !IsNewline(c)
    ensures run != "" ==> LinesOf(open + run + [c]) == LineScan(ContentLines(open), [c])
    ensures run == "" ==> LinesOf(open + run + [c]) == LineScan(LinesOf(open).done, LinesOf(open).cur + [c])
    ensures LinesOf([c]) == LineScan([], [c])
  {
    LinesSnoc(open + run, c);
    LinesSnoc("", c);
    assert "" + [c] == [c];
    if run == "" {
      assert open + run == open;
    } else {
      LineStepsConcat(LineScan([], ""), open, run);
      LineRun(LinesOf(open), run);
    }
  }

  lemma LinesSnoc(s: string, c: char)
    ensures LinesOf(s + [c]) == LinesOf(s).Step(c)
  {
    assert (s + [c])[..|s|] == s;
  }

  lemma SimNow(st: Scan, r: Reader)
    requires st.run == "" && st.open != "" && !r.cr && LinesOf(st.open).cur != "" && SimOpen(st, r)
    ensures Sim(st, r)
  {
    hide LinesOf, SimOpen, StandardOf, FieldsOf;
    assert LineEnds("") == 0;
  }

  /** What the reader holds when content comes after line ends: nothing of a line, and the fields of the
      open block if one line end stands before it, or else those of a block not yet begun. */
  lemma BuffersAfterRun(st: Scan, r: Reader)
    requires Sim(st, r) && st.run != ""
    ensures r.line == ""
    ensures st.open != "" && LineEnds(st.run) < 2 ==>
              r.buffers == BuffersOf(FieldsOf(ContentLines(st.open)), StandardOf(st.closed))
    ensures st.open == "" || LineEnds(st.run) >= 2 ==> r.buffers == BuffersOf(FieldsOf([]), StandardOf(st.Segments()))
  {
    NothingBefore(st);
    hide ContentLines, LinesOf, StandardOf, LineEnds, BuffersOf, SimOpen;
    assert FieldsOf([]) == NO_FIELDS;
  }

  /** What the scanner holds once content has come after line ends. */
  lemma StepAfterRun(st: Scan, c: char)
    requires st.run != "" && !IsNewline(c)
    ensures StandardStep(st, c) ==
            if st.open != "" && LineEnds(st.run) < 2 then Scan(st.closed, st.open + st.run + [c], "")
            else Scan(st.Segments(), [c], "")
  {
    hide LineEnds, IsNewline;
  }

  /** A line of one character, in a block with these lines before it. */
  lemma SimLine(st: Scan, r: Reader, lines: seq<string>, c: char)
    requires st.run == "" && st.open != "" && LinesOf(st.open) == LineScan(lines, [c])
    requires r == Reader([c], false, BuffersOf(FieldsOf(lines), StandardOf(st.closed)))
    ensures Sim(st, r)
  {
    hide Sim, LinesOf, FieldsOf, StandardOf, BuffersOf;
    assert SimOpen(st, r);
    SimNow(st, r);
  }

  /** Content after line ends starts a line, of a new block or of the same. */
  lemma SimNewLine(st: Scan, r: Reader, c: char)
    requires Sim(st, r) && st.run != "" && NewlineOnly(st.run) && !IsNewline(c)
    ensures Sim(StandardStep(st, c), r.Step(c))
  {
    var st', r' := StandardStep(st, c), r.Step(c);
    BuffersAfterRun(st, r);
    StepAfterRun(st, c);
    LinesAfterRun(st.open, st.run, c);
    assert "" + [c] == [c];
    assert r' == Reader([c], false, r.buffers);
    hide *;
    if st.open != "" && LineEnds(st.run) < 2 {
      SimLine(st', r', ContentLines(st.open), c);
    } else {
      SimLine(st', r', [], c);
    }
  }

  lemma NothingBefore(st: Scan)
    ensures st.open == "" ==> ContentLines(st.open) == []
    ensures st.open == "" ==> st.Segments() == st.closed
  {
  }

  /** Content after content continues the line. */
  lemma SimSameLine(st: Scan, r: Reader, c: char)
    requires Sim(st, r) && st.run == "" && !IsNewline(c)
    ensures Sim(StandardStep(st, c), r.Step(c))
  {
    assert LineEnds("") == 0;
    LinesAfterRun(st.open, "", c);
    assert st.open + "" == st.open && "" + [c] == [c];
    hide LinesOf, FieldsOf, ContentLines, StandardOf, StandardBlock, LineEnds, DataBuffer;
    var st', r' := StandardStep(st, c), r.Step(c);
    assert SimOpen(st, r) && r' == Reader(r.line + [c], false, r.buffers);
    assert st'.open == st.open + [c] && st'.closed == st.closed;
    assert SimOpen(st', r');
    hide Sim, SimOpen;
    SimNow(st', r');
  }

  lemma SimContent(st: Scan, r: Reader, c: char)
    requires Sim(st, r) && NewlineOnly(st.run) && !IsNewline(c)
    ensures Sim(StandardStep(st, c), r.Step(c))
  {
    hide *;
    if st.run == "" {
      SimSameLine(st, r, c);
    } else {
      SimNewLine(st, r, c);
    }
  }

  // ---------------------------------------------------------------- whole streams

  /** The line ends that s ends with. */
  function TrailingRun(s: string): string {
    if s == "" || !IsNewline(s[|s| - 1]) then "" else TrailingRun(s[..|s| - 1]) + [s[|s| - 1]]
  }

  lemma {:induction false} RunIsTrailing(s: string)
    ensures Scanned(s).run == TrailingRun(s)
    ensures Scanned(s).open == "" <==> |TrailingRun(s)| == |s|
    ensures |TrailingRun(s)| <= |s|
    decreases |s|
  {
    if s != "" {
      RunIsTrailing(s[..|s| - 1]);
    }
  }

  /** The line ends before position k are one of the mixed runs, with content before them. */
  predicate MixedRunAt(s: string, k: nat)
    requires k <= |s|
  {
    var run := TrailingRun(s[..k]);
    |run| < k && Mixed(run)
  }

  /** No line ends between two pieces of content form a mixed run. */
  ghost predicate UnmixedInside(s: string) {
    forall k :: 0 <= k < |s| && !IsNewline(s[k]) ==> !MixedRunAt(s, k)
  }

  lemma UnmixedPrefix(s: string, n: nat)
    requires UnmixedInside(s) && n <= |s|
    ensures UnmixedInside(s[..n])
  {
    forall k | 0 <= k < n && !IsNewline(s[k]) ensures !MixedRunAt(s[..n], k) {
      assert s[..n][..k] == s[..k];
      assert !MixedRunAt(s, k);
    }
  }

  /** Both scanners see the same runs of line ends. */
  lemma {:induction false} SameRuns(s: string)
    ensures var st, st' := Scanned(s), StandardScan(s);
            st'.run == st.run && (st'.open == "" <==> st.open == "")
    decreases |s|
  {
    if s != "" {
      SameRuns(s[..|s| - 1]);
    }
  }

  lemma {:induction false} SideBySide(s: string)
    ensures Sim(StandardScan(s), Reader("", false, EMPTY).Steps(s))
    decreases |s|
  {
    if s != "" {
      hide Sim, StandardStep;
      var n := |s| - 1;
      SideBySide(s[..n]);
      SameRuns(s[..n]);
      ScanShape(s[..n]);
      var st, r := StandardScan(s[..n]), Reader("", false, EMPTY).Steps(s[..n]);
      if !IsNewline(s[n]) {
        SimContent(st, r, s[n]);
      } else if st.run == "" {
        SimFirstEnd(st, r, s[n]);
      } else {
        SimNextEnd(st, r, s[n]);
      }
    }
  }

  /** The standard dispatches block by block: for any stream, its event for each of its blocks. */
  lemma StandardByBlocks(s: string)
    ensures StandardEvents(s) == StandardOf(StandardBlocks(s))
  {
    SideBySide(s);
    ReadsLines(EMPTY, s);
  }

  /** Without mixed runs between content the two scanners are in step. */
  lemma {:induction false} UnmixedScan(s: string)
    requires UnmixedInside(s)
    ensures StandardScan(s) == Scanned(s)
    decreases |s|
  {
    if s != "" {
      var n := |s| - 1;
      UnmixedPrefix(s, n);
      UnmixedScan(s[..n]);
      ScanShape(s[..n]);
      MixedScanned(s, n);
      RunBoundaryIff(Scanned(s[..n]).run);
      assert !IsNewline(s[n]) ==> !MixedRunAt(s, n);
      hide LineEnds, Boundary, Mixed, MixedRunAt, TrailingRun, UnmixedInside, Shape, NewlineOnly, IsNewline;
    }
  }

  lemma UnmixedBlocks(s: string)
    requires UnmixedInside(s) && !MixedRunAt(s, |s|)
    ensures StandardBlocks(s) == Scanned(s).Ended()
  {
    UnmixedScan(s);
    ScanShape(s);
    RunIsTrailing(s);
    RunBoundaryIff(Scanned(s).run);
    assert s[..|s|] == s;
  }

  /** How many mixed runs stand between content. */
  function MixedRuns(s: string): nat {
    if s == "" then 0
    else
      var n := |s| - 1;
      MixedRuns(s[..n]) + (if !IsNewline(s[n]) && MixedRunAt(s, n) then 1 else 0)
  }

  lemma {:induction false} NoMixedRuns(s: string)
    ensures MixedRuns(s) == 0 ==> UnmixedInside(s)
    decreases |s|
  {
    if s != "" && MixedRuns(s) == 0 {
      var n := |s| - 1;
      NoMixedRuns(s[..n]);
      forall k | 0 <= k < |s| && !IsNewline(s[k])
        ensures !MixedRunAt(s, k)
      {
        if k < n {
          assert s[..n][..k] == s[..k];
          assert !MixedRunAt(s[..n], k);
        }
      }
    }
  }

  /** One more character, read by both scanners. */
  lemma CountStep(st: Scan, st': Scan, c: char)
    requires st'.run == st.run && (st'.open == "" <==> st.open == "") && NewlineOnly(st.run)
    ensures |StandardStep(st', c).closed| - |st.Step(c).closed| ==
            |st'.closed| - |st.closed| + (if !IsNewline(c) && st.open != "" && Mixed(st.run) then 1 else 0)
  {
    RunBoundaryIff(st.run);
    hide LineEnds, Boundary, Mixed;
  }

  /** A mixed run, as the scanner sees it. */
  lemma MixedScanned(s: string, n: nat)
    requires n <= |s|
    ensures MixedRunAt(s, n) <==> Scanned(s[..n]).open != "" && Mixed(Scanned(s[..n]).run)
  {
    RunIsTrailing(s[..n]);
    hide Mixed, TrailingRun;
  }

  /** Each mixed run ends one more block for the standard. */
  lemma {:induction false} MixedRunsCount(s: string)
    ensures |StandardScan(s).closed| == |Scanned(s).closed| + MixedRuns(s)
    decreases |s|
  {
    if s != "" {
      var n := |s| - 1;
      MixedRunsCount(s[..n]);
      SameRuns(s[..n]);
      ScanShape(s[..n]);
      MixedScanned(s, n);
      hide LineEnds, Boundary, Mixed, MixedRunAt, TrailingRun, StandardStep, NewlineOnly, IsNewline;
      CountStep(Scanned(s[..n]), StandardScan(s[..n]), s[n]);
    }
  }

  lemma BlocksCount(s: string)
    ensures |StandardBlocks(s)| == |Scanned(s).Ended()| + MixedRuns(s) + (if MixedRunAt(s, |s|) then 1 else 0)
  {
    MixedRunsCount(s);
    SameRuns(s);
    ScanShape(s);
    RunIsTrailing(s);
    RunBoundaryIff(Scanned(s).run);
    assert s[..|s|] == s;
  }

  ghost predicate AllAgree(blocks: seq<string>) {
    forall i :: 0 <= i < |blocks| ==> BlockEvent(blocks[i]) == StandardBlock(blocks[i])
  }

  lemma {:induction false} SameEvents(blocks: seq<string>)
    requires AllAgree(blocks)
    ensures EventsOf(blocks) == StandardOf(blocks)
    decreases |blocks|
  {
    if blocks != [] {
      SameEvents(blocks[..|blocks| - 1]);
    }
  }

  /** Agreement with the standard: without mixed runs, and with a name and data in each complete
      block or neither, the parser returns what the standard dispatches. */
  lemma AgreesWithStandard(s: string)
    requires UnmixedInside(s) && !MixedRunAt(s, |s|)
    requires AllAgree(Scanned(s).Ended())
    ensures CompleteEvents(s) == StandardEvents(s)
  {
    StandardByBlocks(s);
    UnmixedBlocks(s);
    SameEvents(Scanned(s).Ended());
  }

  /** The block names an event and has data. */
  predicate Proper(block: string) {
    var f := FieldsOf(ContentLines(block));
    f.event != "" && f.data != []
  }

  predicate AllProper(blocks: seq<string>) {
    forall i :: 0 <= i < |blocks| ==> Proper(blocks[i])
  }

  lemma {:induction false} EventCounts(blocks: seq<string>)
    ensures |EventsOf(blocks)| <= |blocks|
    ensures AllProper(blocks) ==> |StandardOf(blocks)| == |blocks|
    decreases |blocks|
  {
    if blocks != [] {
      EventCounts(blocks[..|blocks| - 1]);
    }
  }

  /** Exactly then: when every block of the standard names an event and has data, the parser returns what
      the standard dispatches if and only if no run of line ends after content is a mixed one. */
  lemma AgreesIff(s: string)
    requires AllProper(StandardBlocks(s))
    ensures CompleteEvents(s) == StandardEvents(s) <==> UnmixedInside(s) && !MixedRunAt(s, |s|)
  {
    if UnmixedInside(s) && !MixedRunAt(s, |s|) {
      UnmixedBlocks(s);
      ProperAgree(StandardBlocks(s));
      AgreesWithStandard(s);
    } else {
      StandardByBlocks(s);
      BlocksCount(s);
      NoMixedRuns(s);
      EventCounts(StandardBlocks(s));
      EventCounts(Scanned(s).Ended());
    }
  }

  lemma ProperAgree(blocks: seq<string>)
    requires AllProper(blocks)
    ensures AllAgree(blocks)
  {
    forall i | 0 <= i < |blocks|
      ensures BlockEvent(blocks[i]) == StandardBlock(blocks[i])
    {
      assert Proper(blocks[i]);
      BlockAgreesIff(blocks[i]);
    }
  }

  // ---------------------------------------------------------------- uniform line ends, and mixed ones

  /** The text ends in this run of line ends, with content before it or nothing. */
  predicate EndsIn(s: string, run: string) {
    && |run| <= |s| && run == s[|s| - |run|..] && NewlineOnly(run)
    && (|run| < |s| ==> !IsNewline(s[|s| - |run| - 1]))
  }

  lemma EndsInMore(t: string, run: string, c: char)
    requires EndsIn(t, run) && IsNewline(c)
    ensures EndsIn(t + [c], run + [c])
  {
    var s := t + [c];
    assert s[|t| - |run|..] == run + [c];
    assert |run| < |t| ==> s[|t| - |run| - 1] == t[|t| - |run| - 1];
  }

  lemma EndsInNothing(s: string)
    requires s == "" || !IsNewline(s[|s| - 1])
    ensures EndsIn(s, "")
  {
  }

  lemma TrailingIs(s: string)
    ensures TrailingRun(s) ==
            if s == "" || !IsNewline(s[|s| - 1]) then "" else TrailingRun(s[..|s| - 1]) + [s[|s| - 1]]
  {
  }

  lemma {:induction false} TrailingIsSuffix(s: string)
    ensures EndsIn(s, TrailingRun(s))
    decreases |s|
  {
    hide EndsIn, TrailingRun, IsNewline;
    TrailingIs(s);
    if s == "" || !IsNewline(s[|s| - 1]) {
      EndsInNothing(s);
    } else {
      var n := |s| - 1;
      TrailingIsSuffix(s[..n]);
      EndsInMore(s[..n], TrailingRun(s[..n]), s[n]);
      assert s[..n] + [s[n]] == s;
    }
  }

  /** Only line feeds, only carriage returns, or only pairs of the two. */
  predicate Uniform(s: string) {
    || (forall i :: 0 <= i < |s| ==> s[i] != '\r')
    || (forall i :: 0 <= i < |s| ==> s[i] != '\n')
    || (forall i :: 0 <= i < |s| ==> Paired(s, i))
  }

  /** A carriage return is followed, and a line feed preceded, by the other of the pair. */
  predicate Paired(s: string, i: nat)
    requires i < |s|
  {
    && (s[i] == '\r' ==> i + 1 < |s| && s[i + 1] == '\n')
    && (s[i] == '\n' ==> i > 0 && s[i - 1] == '\r')
  }

  lemma MixedIsNotUniform(s: string, k: nat)
    requires k <= |s| && (k == |s| || !IsNewline(s[k])) && MixedRunAt(s, k)
    ensures !Uniform(s)
  {
    TrailingIsSuffix(s[..k]);
    var run := TrailingRun(s[..k]);
    var b := k - |run|;
    assert s[b] == run[0] && s[b + 1] == run[1] && s[k - 1] == run[|run| - 1];
    assert s[..k][b - 1] == s[b - 1] && !IsNewline(s[b - 1]);
    if run[0] == '\n' {
      assert s[b] == '\n' && s[b + 1] == '\r';
      assert !Paired(s, b);
    } else {
      assert run == "\r\n\r";
      assert s[k - 1] == '\r' && s[b + 1] == '\n';
      assert !Paired(s, k - 1);
    }
  }

  /** One uniform line ending rules mixed runs out. */
  lemma UniformIsUnmixed(s: string)
    requires Uniform(s)
    ensures UnmixedInside(s) && !MixedRunAt(s, |s|)
  {
    forall k | 0 <= k <= |s| && (k == |s| || !IsNewline(s[k])) ensures !MixedRunAt(s, k) {
      if MixedRunAt(s, k) {
        MixedIsNotUniform(s, k);
      }
    }
  }

  /** Agreement on streams with one uniform line ending. */
  lemma UniformAgrees(s: string)
    requires Uniform(s) && AllAgree(Scanned(s).Ended())
    ensures CompleteEvents(s) == StandardEvents(s)
  {
    UniformIsUnmixed(s);
    AgreesWithStandard(s);
  }

  lemma StandardSnocChar(s: string, c: char)
    ensures StandardScan(s + [c]) == StandardStep(StandardScan(s), c)
  {
    assert (s + [c])[..|s|] == s;
  }

  lemma RunStep(st: Scan, nl: string, c: char)
    requires IsNewline(c)
    ensures StandardStep(st.(run := st.run + nl), c) == st.(run := st.run + (nl + [c]))
  {
    hide LineEnds;
    Assoc(st.run, nl, [c]);
  }

  lemma {:induction false} StandardRun(s: string, nl: string)
    requires NewlineOnly(nl)
    ensures StandardScan(s + nl) == StandardScan(s).(run := StandardScan(s).run + nl)
    decreases |nl|
  {
    hide StandardScan, StandardStep;
    if nl == "" {
      assert s + nl == s && StandardScan(s).run + nl == StandardScan(s).run;
    } else {
      var n := |nl| - 1;
      StandardRun(s, nl[..n]);
      StandardSnocChar(s + nl[..n], nl[n]);
      RunStep(StandardScan(s), nl[..n], nl[n]);
      Assoc(s, nl[..n], [nl[n]]);
      assert nl[..n] + [nl[n]] == nl;
    }
  }

  /** A block on its own, without a separator or mixed run, is one segment for both. */
  lemma OneBlock(block: string)
    requires SepFree(block) && UnmixedInside(block) && block != "" && !IsNewline(block[|block| - 1])
    ensures var st := Scanned(block);
            && StandardScan(block) == st && st.closed == [] && st.open != "" && st.run == ""
            && StandardBlock(st.open) == StandardBlock(block)
  {
    UnmixedScan(block);
    ScanSepFree(block);
    ScanShape(block);
    RunIsTrailing(block);
    var st := Scanned(block);
    var lead :| NewlineOnly(lead) && block == lead + st.open + st.run;
    ContentLinesTrim(lead, st.open, st.run);
  }

  /** Where they differ: after a block with data, each mixed run makes the standard dispatch an
      event that the parser has not completed. */
  lemma MixedRunDiffers(block: string, run: string)
    requires SepFree(block) && UnmixedInside(block) && Mixed(run)
    requires block != "" && !IsNewline(block[|block| - 1]) && StandardBlock(block).Some?
    ensures CompleteEvents(block + run) == []
    ensures StandardEvents(block + run) == [StandardBlock(block).value]
  {
    OneBlock(block);
    RunIsNewlines(run);
    StepsConcat(SseText.START, block, run);
    StepsRun(Scanned(block), run);
    StandardRun(block, run);
    assert "" + run == run;
    RunBoundaryIff(run);
    StandardByBlocks(block + run);
    OneStandardEvent(Scanned(block).open);
  }

  /** It happens: four streams of one event that the standard dispatches and the parser does not return. */
  lemma MixedRunsDisagree(run: string)
    requires Mixed(run)
    ensures CompleteEvents("event: a\ndata: b" + run) == []
    ensures StandardEvents("event: a\ndata: b" + run) == [SseEvent("a", "b")]
  {
    SmallBlock();
    MixedRunDiffers("event: a\ndata: b", run);
  }

  lemma SmallBlock()
    ensures var block := "event: a\ndata: b";
            && SepFree(block) && UnmixedInside(block) && !IsNewline(block[|block| - 1])
            && StandardBlock(block) == Some(SseEvent("a", "b"))
  {
    var ev, block := SseEvent("a", "b"), "event: a\ndata: b";
    SmallText();
    assert RoundTrip.Printable(ev);
    RoundTrip.PrintedBlock(ev);
    NoReturns();
    UniformIsUnmixed(block);
    hide SepFree, UnmixedInside, FieldsOf, ContentLines, Uniform, RoundTrip.BlockLines, RoundTrip.Pieces;
  }

  lemma NoReturns()
    ensures Uniform("event: a\ndata: b")
  {
  }

  lemma SmallText()
    ensures Join(RoundTrip.BlockLines(SseEvent("a", "b"))) == "event: a\ndata: b"
    ensures RoundTrip.Pieces("b") == ["b"]
  {
    RoundTrip.PrintedLines(SseEvent("a", "b"));
    assert "event: " + "a" + "\n" + ("data: " + "b") == "event: a\ndata: b";
  }

  lemma OneStandardEvent(block: string)
    ensures StandardOf([] + [block]) == Emit(StandardBlock(block))
  {
    StandardSnoc([], block);
    assert [] + Emit(StandardBlock(block)) == Emit(StandardBlock(block));
  }

  lemma RunIsNewlines(run: string)
    requires Mixed(run)
    ensures NewlineOnly(run)
  {
  }
}
