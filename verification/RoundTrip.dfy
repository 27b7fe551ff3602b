/** Printing events as a stream and decoding it again, however the stream is cut. */
module RoundTrip {
  import opened Options
  import opened SseText
  import opened SseEvents
  import opened SseStream

  /** The pieces of a text between line feeds. */
  function Pieces(data: string): (parts: seq<string>)
    ensures |parts| > 0
    decreases |data|
  {
    var j := IndexOf(data, '\n', 0);
    if j == |data| then [data] else [data[..j]] + Pieces(data[j + 1..])
  }

  function DataLines(parts: seq<string>): seq<string> {
    if parts == [] then [] else DataLines(parts[..|parts| - 1]) + ["data: " + parts[|parts| - 1]]
  }

  function BlockLines(ev: SseEvent): seq<string> {
    ["event: " + ev.event] + DataLines(Pieces(ev.data))
  }

  /** Lines joined by line feeds, and a blank line. */
  function Print(ev: SseEvent): string {
    Join(BlockLines(ev)) + "\n\n"
  }

  function PrintAll(events: seq<SseEvent>): string {
    if events == [] then "" else PrintAll(events[..|events| - 1]) + Print(events[|events| - 1])
  }

  predicate LineFree(s: string) {
    forall i :: 0 <= i < |s| ==> !IsNewline(s[i])
  }

  /** A name that fits on one line, and data without carriage returns. */
  predicate Printable(ev: SseEvent) {
    ev.event != "" && LineFree(ev.event) && forall i :: 0 <= i < |ev.data| ==> ev.data[i] != '\r'
  }

  predicate GoodLines(lines: seq<string>) {
    forall i :: 0 <= i < |lines| ==> lines[i] != "" && LineFree(lines[i])
  }

  // ---------------------------------------------------------------- lines

  lemma {:induction false} JoinFirst(a: string, rest: seq<string>)
    requires rest != []
    ensures Join([a] + rest) == a + "\n" + Join(rest)
    decreases |rest|
  {
    var n := |rest| - 1;
    JoinLast([a] + rest[..n], rest[n]);
    assert [a] + rest[..n] + [rest[n]] == [a] + rest;
    if n == 0 {
      assert [a] + rest[..n] == [a] && rest == [rest[n]];
    } else {
      hide Join;
      JoinFirst(a, rest[..n]);
      JoinLast(rest[..n], rest[n]);
      assert rest[..n] + [rest[n]] == rest;
      Assoc(a + "\n", Join(rest[..n]), "\n");
      Assoc(a + "\n", Join(rest[..n]) + "\n", rest[n]);
    }
  }

  lemma JoinLast(parts: seq<string>, part: string)
    requires parts != []
    ensures Join(parts + [part]) == Join(parts) + "\n" + part
  {
    assert (parts + [part])[..|parts|] == parts;
  }

  lemma {:induction false} PiecesJoin(data: string)
    requires forall i :: 0 <= i < |data| ==> data[i] != '\r'
    ensures Join(Pieces(data)) == data
    ensures forall i :: 0 <= i < |Pieces(data)| ==> LineFree(Pieces(data)[i])
    decreases |data|
  {
    var j := IndexOf(data, '\n', 0);
    if j < |data| {
      PiecesJoin(data[j + 1..]);
      JoinFirst(data[..j], Pieces(data[j + 1..]));
      assert data == data[..j] + "\n" + data[j + 1..];
    }
  }

  lemma LineContent(line: string)
    requires line != "" && LineFree(line)
    ensures ContentLines(line) == [line]
  {
    PieceSteps(LineScan([], ""), line);
    assert "" + line == line;
  }

  lemma JoinSnoc(b: string, line: string)
    requires SepFree(b) && b != "" && !IsNewline(b[|b| - 1])
    requires line != "" && LineFree(line)
    ensures var s := b + "\n" + line;
            && SepFree(s) && !IsNewline(s[|s| - 1])
            && ContentLines(s) == ContentLines(b) + [line]
  {
    var s := b + "\n" + line;
    LineContent(line);
    ContentLinesJoin(b, "\n", line);
    forall i | 0 <= i < |s| ensures SepAt(s, i) == 0 {
      assert i > |b| ==> s[i] == line[i - |b| - 1];
      assert i + 1 < |s| && i + 1 > |b| ==> s[i + 1] == line[i - |b|];
      if i + 2 <= |b| {
        assert SepAt(b, i) == 0;
        assert s[i] == b[i] && s[i + 1] == b[i + 1];
        if i + 4 <= |b| {
          assert s[i + 2] == b[i + 2] && s[i + 3] == b[i + 3];
        } else if i + 4 <= |s| {
          assert s[|b| - 1] == b[|b| - 1];
        }
      } else if i + 1 == |b| {
        assert s[i] == b[|b| - 1];
      }
    }
  }

  lemma {:induction false} JoinedLines(lines: seq<string>)
    requires lines != [] && GoodLines(lines)
    ensures var s := Join(lines);
            s != "" && SepFree(s) && !IsNewline(s[|s| - 1]) && ContentLines(s) == lines
    decreases |lines|
  {
    var n := |lines| - 1;
    if n == 0 {
      LineContent(lines[0]);
      assert lines == [lines[0]];
    } else {
      hide ContentLines, SepFree, IsNewline;
      JoinedLines(lines[..n]);
      JoinSnoc(Join(lines[..n]), lines[n]);
      assert lines[..n] + [lines[n]] == lines;
    }
  }

  // ---------------------------------------------------------------- fields

  lemma ColonAt(line: string, k: nat)
    requires k < |line| && line[k] == ':' && forall i :: 0 <= i < k ==> line[i] != ':'
    ensures IndexOf(line, ':', 0) == k
  {
  }

  lemma EventLine(f: Fields, name: string)
    ensures ApplyLine(f, "event: " + name) == f.(event := name)
  {
    var line := "event: " + name;
    assert line[0] == 'e' && line[1] == 'v' && line[2] == 'e' && line[3] == 'n' && line[4] == 't' && line[5] == ':';
    ColonAt(line, 5);
    assert line[..5] == "event";
    assert line[6..] == " " + name;
    assert (" " + name)[1..] == name;
  }

  lemma DataLine(f: Fields, value: string)
    ensures ApplyLine(f, "data: " + value) == f.(data := f.data + [value])
  {
    var line := "data: " + value;
    assert line[0] == 'd' && line[1] == 'a' && line[2] == 't' && line[3] == 'a' && line[4] == ':';
    ColonAt(line, 4);
    assert line[..4] == "data";
    assert line[5..] == " " + value;
    assert (" " + value)[1..] == value;
  }

  lemma LastData(parts: seq<string>)
    requires parts != []
    ensures DataLines(parts) == DataLines(parts[..|parts| - 1]) + ["data: " + parts[|parts| - 1]]
  {
  }

  lemma LastLine(before: seq<string>, line: string)
    ensures FieldsOf(before + [line]) == ApplyLine(FieldsOf(before), line)
  {
    assert (before + [line])[..|before|] == before;
  }

  lemma NoData(name: string)
    ensures FieldsOf(["event: " + name] + DataLines([])) == Fields(name, [])
  {
    EventLine(NO_FIELDS, name);
    LastLine([], "event: " + name);
    hide ApplyLine;
    assert [] + ["event: " + name] == ["event: " + name] + [];
  }

  lemma {:induction false} PrintedFields(name: string, parts: seq<string>)
    ensures FieldsOf(["event: " + name] + DataLines(parts)) == Fields(name, parts)
    decreases |parts|
  {
    hide ApplyLine, FieldsOf, DataLines;
    if parts == [] {
      NoData(name);
    } else {
      var n := |parts| - 1;
      PrintedFields(name, parts[..n]);
      var before, line := ["event: " + name] + DataLines(parts[..n]), "data: " + parts[n];
      LastData(parts);
      Assoc(["event: " + name], DataLines(parts[..n]), [line]);
      LastLine(before, line);
      DataLine(Fields(name, parts[..n]), parts[n]);
      assert parts[..n] + [parts[n]] == parts;
    }
  }

  lemma {:induction false} DataLinesGood(parts: seq<string>)
    requires forall i :: 0 <= i < |parts| ==> LineFree(parts[i])
    ensures GoodLines(DataLines(parts))
    decreases |parts|
  {
    if parts != [] {
      DataLinesGood(parts[..|parts| - 1]);
    }
  }

  /** An event whose data is one line prints as two lines. */
  lemma PrintedLines(ev: SseEvent)
    requires LineFree(ev.data)
    ensures Pieces(ev.data) == [ev.data]
    ensures Join(BlockLines(ev)) == "event: " + ev.event + "\n" + ("data: " + ev.data)
  {
    var line := "data: " + ev.data;
    assert DataLines([ev.data]) == [line] by {
      assert [ev.data][..0] == [];
    }
    JoinFirst("event: " + ev.event, [line]);
    assert Join([line]) == line;
  }

  /** A printed block has the fields that were printed. */
  lemma PrintedBlock(ev: SseEvent)
    requires Printable(ev)
    ensures SepFree(Join(BlockLines(ev)))
    ensures FieldsOf(ContentLines(Join(BlockLines(ev)))) == Fields(ev.event, Pieces(ev.data))
    ensures BlockEvent(Join(BlockLines(ev))) == Some(ev)
  {
    PiecesJoin(ev.data);
    DataLinesGood(Pieces(ev.data));
    JoinedLines(BlockLines(ev));
    PrintedFields(ev.event, Pieces(ev.data));
  }

  // ---------------------------------------------------------------- streams

  /** The text before a printed event, when it already parses to events, extended by that event. */
  lemma PrintNext(before: string, ev: SseEvent, x: string)
    requires Printable(ev)
    ensures before + Print(ev) + x == before + (Print(ev) + x)
    ensures CompleteEvents(Print(ev) + x) == [ev] + CompleteEvents(x)
    ensures AllEvents(Print(ev) + x) == [ev] + AllEvents(x)
  {
    PrintedBlock(ev);
    PrintOne(Join(BlockLines(ev)), ev, x);
    Assoc(before, Print(ev), x);
  }

  lemma TwoPrinted(a: SseEvent, b: SseEvent)
    requires Printable(a) && Printable(b)
    ensures CompleteEvents(Print(a)) == [a] && CompleteEvents(Print(a) + Print(b)) == [a, b]
  {
    hide Print, Printable;
    NothingComplete();
    hide CompleteEvents;
    PrintNext("", a, "");
    PrintNext("", b, "");
    PrintNext("", a, Print(b));
    assert Print(a) + "" == Print(a) && Print(b) + "" == Print(b);
    assert [a] + [] == [a] && [b] + [] == [b] && [a] + [b] == [a, b];
  }

  lemma NothingComplete()
    ensures CompleteEvents("") == []
  {
  }

  lemma {:induction false} PrintParse(events: seq<SseEvent>, x: string)
    requires forall i :: 0 <= i < |events| ==> Printable(events[i])
    ensures CompleteEvents(PrintAll(events) + x) == events + CompleteEvents(x)
    ensures AllEvents(PrintAll(events) + x) == events + AllEvents(x)
    decreases |events|
  {
    if events == [] {
      assert "" + x == x;
    } else {
      var n := |events| - 1;
      var more := Print(events[n]) + x;
      PrintNext(PrintAll(events[..n]), events[n], x);
      hide CompleteEvents, AllEvents, Print, Printable;
      PrintParse(events[..n], more);
      Regroup(events, n, CompleteEvents(x));
      Regroup(events, n, AllEvents(x));
    }
  }

  lemma Regroup(events: seq<SseEvent>, n: nat, more: seq<SseEvent>)
    requires |events| == n + 1
    ensures events[..n] + ([events[n]] + more) == events + more
  {
  }

  lemma PrintOne(block: string, ev: SseEvent, x: string)
    requires SepFree(block) && BlockEvent(block) == Some(ev)
    ensures CompleteEvents(block + "\n\n" + x) == [ev] + CompleteEvents(x)
    ensures AllEvents(block + "\n\n" + x) == [ev] + AllEvents(x)
  {
    var text := block + "\n\n";
    assert SepAt(text, |block|) == 2;
    BlockSepRest(block, "\n\n", x);
  }

  /** Decoding a printed list of events returns the list, in whatever chunks it arrives. */
  lemma PrintDecodeRoundTrip(events: seq<SseEvent>, chunks: seq<string>)
    requires forall i :: 0 <= i < |events| ==> Printable(events[i])
    requires Concat(chunks) == PrintAll(events)
    ensures CompleteEvents(PrintAll(events)) == events
    ensures Run(None, chunks).Decoding? && Run(None, chunks).events == events
  {
    PrintParse(events, "");
    NothingRead();
    assert PrintAll(events) + "" == PrintAll(events);
    assert events + [] == events;
    RunMeaning(None, chunks);
    OverflowIff(None, chunks);
  }
}
