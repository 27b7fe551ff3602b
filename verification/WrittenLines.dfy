/** Blocks written line by line in any of the ways the format allows, and what they say. */
module WrittenLines {
  import opened Options
  import opened SseText
  import opened SseEvents
  import opened SseStream
  import opened RoundTrip

  /** spaced: a space is written after the colon. A bare field is its name alone, with no colon. An ignored
      line is a comment or names another field. */
  datatype Line =
    | Event(name: string, spaced: bool)
    | Data(text: string, spaced: bool)
    | BareEvent
    | BareData
    | Ignored(line: string)

  function Text(line: Line): string {
    match line
    case Event(name, spaced) => (if spaced then "event: " else "event:") + name
    case Data(text, spaced) => (if spaced then "data: " else "data:") + text
    case BareEvent => "event"
    case BareData => "data"
    case Ignored(text) => text
  }

  predicate Names(line: string, field: string) {
    line == field || field + ":" <= line
  }

  /** What is written fits on its line; a value that starts with a space needs one before it. */
  predicate Writable(line: Line) {
    match line
    case Event(name, spaced) => LineFree(name) && (spaced || !(" " <= name))
    case Data(text, spaced) => LineFree(text) && (spaced || !(" " <= text))
    case BareEvent => true
    case BareData => true
    case Ignored(text) => text != "" && LineFree(text) && !Names(text, "event") && !Names(text, "data")
  }

  predicate AllWritable(lines: seq<Line>) {
    forall i :: 0 <= i < |lines| ==> Writable(lines[i])
  }

  /** The name that the last naming line gives; none, or an empty one, names no event. */
  function NameOf(lines: seq<Line>): string {
    if lines == [] then ""
    else
      match lines[|lines| - 1]
      case Event(name, _) => name
      case BareEvent => ""
      case _ => NameOf(lines[..|lines| - 1])
  }

  function DataOf(lines: seq<Line>): seq<string> {
    if lines == [] then []
    else
      var before := DataOf(lines[..|lines| - 1]);
      match lines[|lines| - 1]
      case Data(text, _) => before + [text]
      case BareData => before + [""]
      case _ => before
  }

  function Saying(lines: seq<Line>): Option<SseEvent> {
    if NameOf(lines) == "" then None else Some(SseEvent(NameOf(lines), Join(DataOf(lines))))
  }

  // ---------------------------------------------------------------- one line

  lemma AtColon(field: string, rest: string)
    requires ':' !in field
    ensures var line := field + ":" + rest;
            IndexOf(line, ':', 0) == |field| && line[..|field|] == field && line[|field| + 1..] == rest
  {
    var line := field + ":" + rest;
    assert line[|field|] == ':';
    forall i | 0 <= i < |field|
      ensures line[i] != ':'
    {
      assert line[i] == field[i] && field[i] in field;
    }
  }

  lemma NoColon(field: string)
    requires ':' !in field
    ensures IndexOf(field, ':', 0) == |field| && field[..|field|] == field
  {
    assert forall i :: 0 <= i < |field| ==> field[i] in field;
  }

  /** A value written after a colon, with a space or without, is read as it is. */
  lemma ValueRead(value: string, spaced: bool)
    requires spaced || !(" " <= value)
    ensures DropSpace((if spaced then " " else "") + value) == value
  {
    if spaced {
      assert (" " + value)[0] == ' ' && (" " + value)[1..] == value;
    } else {
      assert "" + value == value;
      assert value != "" && value[0] == ' ' ==> " " <= value;
    }
  }

  lemma EventRead(f: Fields, name: string, spaced: bool)
    requires spaced || !(" " <= name)
    ensures ApplyLine(f, Text(Event(name, spaced))) == f.(event := name)
  {
    var rest := (if spaced then " " else "") + name;
    assert Text(Event(name, spaced)) == "event" + ":" + rest;
    AtColon("event", rest);
    ValueRead(name, spaced);
  }

  lemma DataRead(f: Fields, text: string, spaced: bool)
    requires spaced || !(" " <= text)
    ensures ApplyLine(f, Text(Data(text, spaced))) == f.(data := f.data + [text])
  {
    var rest := (if spaced then " " else "") + text;
    assert Text(Data(text, spaced)) == "data" + ":" + rest;
    AtColon("data", rest);
    ValueRead(text, spaced);
  }

  lemma BareRead(f: Fields)
    ensures ApplyLine(f, "event") == f.(event := "") && ApplyLine(f, "data") == f.(data := f.data + [""])
  {
    NoColon("event");
    NoColon("data");
  }

  lemma IgnoredRead(f: Fields, line: string)
    requires line != "" && !Names(line, "event") && !Names(line, "data")
    ensures ApplyLine(f, line) == f
  {
    var colon := IndexOf(line, ':', 0);
    if colon < |line| {
      assert line[..colon] + ":" == line[..colon + 1] <= line;
    } else {
      assert line[..colon] == line;
    }
  }

  lemma LineRead(f: Fields, line: Line)
    requires Writable(line)
    ensures ApplyLine(f, Text(line)) ==
            match line
            case Event(name, _) => f.(event := name)
            case Data(text, _) => f.(data := f.data + [text])
            case BareEvent => f.(event := "")
            case BareData => f.(data := f.data + [""])
            case Ignored(_) => f
  {
    hide ApplyLine;
    match line
    case Event(name, spaced) => EventRead(f, name, spaced);
    case Data(text, spaced) => DataRead(f, text, spaced);
    case BareEvent => BareRead(f);
    case BareData => BareRead(f);
    case Ignored(text) => IgnoredRead(f, text);
  }

  // ---------------------------------------------------------------- blocks

  function Texts(lines: seq<Line>): seq<string> {
    if lines == [] then [] else Texts(lines[..|lines| - 1]) + [Text(lines[|lines| - 1])]
  }

  lemma {:induction false} LinesRead(lines: seq<Line>)
    requires AllWritable(lines)
    ensures FieldsOf(Texts(lines)) == Fields(NameOf(lines), DataOf(lines))
    decreases |lines|
  {
    if lines != [] {
      var n := |lines| - 1;
      LinesRead(lines[..n]);
      LineRead(FieldsOf(Texts(lines[..n])), lines[n]);
      hide ApplyLine, Text, Writable;
      LastLine(Texts(lines[..n]), Text(lines[n]));
    }
  }

  lemma TextGood(line: Line)
    requires Writable(line)
    ensures Text(line) != "" && LineFree(Text(line))
  {
  }

  lemma {:induction false} TextsGood(lines: seq<Line>)
    requires AllWritable(lines)
    ensures GoodLines(Texts(lines)) && |Texts(lines)| == |lines|
    decreases |lines|
  {
    if lines != [] {
      TextsGood(lines[..|lines| - 1]);
      TextGood(lines[|lines| - 1]);
    }
  }

  /** Lines joined by line feeds, and a blank line. */
  function Block(lines: seq<Line>): string {
    Join(Texts(lines)) + "\n\n"
  }

  lemma BlockRead(lines: seq<Line>)
    requires lines != [] && AllWritable(lines)
    ensures SepFree(Join(Texts(lines))) && BlockEvent(Join(Texts(lines))) == Saying(lines)
  {
    TextsGood(lines);
    JoinedLines(Texts(lines));
    LinesRead(lines);
  }

  // ---------------------------------------------------------------- streams

  function Blocks(blocks: seq<seq<Line>>): string {
    if blocks == [] then "" else Blocks(blocks[..|blocks| - 1]) + Block(blocks[|blocks| - 1])
  }

  lemma OneBlock(lines: seq<Line>, x: string)
    requires lines != [] && AllWritable(lines)
    ensures CompleteEvents(Block(lines) + x) == Emit(Saying(lines)) + CompleteEvents(x)
    ensures AllEvents(Block(lines) + x) == Emit(Saying(lines)) + AllEvents(x)
  {
    BlockRead(lines);
    ReadOne(Join(Texts(lines)), x);
  }

  lemma ReadOne(block: string, x: string)
    requires SepFree(block)
    ensures CompleteEvents(block + "\n\n" + x) == Emit(BlockEvent(block)) + CompleteEvents(x)
    ensures AllEvents(block + "\n\n" + x) == Emit(BlockEvent(block)) + AllEvents(x)
  {
    BlankLine(block);
    hide *;
    BlockSepRest(block, "\n\n", x);
  }

  lemma BlankLine(block: string)
    ensures SepAt(block + "\n\n", |block|) == 2 && NewlineOnly("\n\n")
  {
  }

  lemma LastBlock(blocks: seq<seq<Line>>, x: string)
    requires blocks != []
    ensures var n := |blocks| - 1;
            && Blocks(blocks) + x == Blocks(blocks[..n]) + (Block(blocks[n]) + x)
            && Collect(Saying, blocks) == Collect(Saying, blocks[..n]) + Emit(Saying(blocks[n]))
  {
    hide Block, Saying;
    Assoc(Blocks(blocks[..|blocks| - 1]), Block(blocks[|blocks| - 1]), x);
  }

  predicate AllBlocks(blocks: seq<seq<Line>>) {
    forall i :: 0 <= i < |blocks| ==> blocks[i] != [] && AllWritable(blocks[i])
  }

  lemma FirstBlocks(blocks: seq<seq<Line>>)
    requires AllBlocks(blocks) && blocks != []
    ensures var n := |blocks| - 1; AllBlocks(blocks[..n]) && blocks[n] != [] && AllWritable(blocks[n])
  {
    hide AllWritable;
  }

  /** A stream of blocks, each line written with a space after its colon or without one, among comments
      and other fields, is read as what its blocks say, whatever text follows. */
  lemma {:induction false} ReadsAsWritten(blocks: seq<seq<Line>>, x: string)
    requires AllBlocks(blocks)
    ensures CompleteEvents(Blocks(blocks) + x) == Collect(Saying, blocks) + CompleteEvents(x)
    ensures AllEvents(Blocks(blocks) + x) == Collect(Saying, blocks) + AllEvents(x)
    decreases |blocks|
  {
    if blocks == [] {
      assert "" + x == x;
    } else {
      var n := |blocks| - 1;
      FirstBlocks(blocks);
      LastBlock(blocks, x);
      hide *;
      OneBlock(blocks[n], x);
      ReadsAsWritten(blocks[..n], Block(blocks[n]) + x);
      var before, last := Collect(Saying, blocks[..n]), Emit(Saying(blocks[n]));
      Assoc(before, last, CompleteEvents(x));
      Assoc(before, last, AllEvents(x));
    }
  }

  /** So it is in whatever chunks it arrives. */
  lemma DecodesAsWritten(blocks: seq<seq<Line>>, chunks: seq<string>)
    requires AllBlocks(blocks) && Concat(chunks) == Blocks(blocks)
    ensures Run(None, chunks).Decoding? && Run(None, chunks).events == Collect(Saying, blocks)
  {
    ReadsAsWritten(blocks, "");
    NothingRead();
    assert Blocks(blocks) + "" == Blocks(blocks);
    assert Collect(Saying, blocks) + [] == Collect(Saying, blocks);
    RunMeaning(None, chunks);
    OverflowIff(None, chunks);
  }
}
