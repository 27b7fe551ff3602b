/** The incremental decoder: it scans for leftmost separators in what it has buffered. */
module SseStream {
  import opened Options
  import opened SseText
  import opened SseEvents

  datatype Decoded = Events(events: seq<SseEvent>) | FrameTooLarge

  /** maxBufferedChars; None is positive infinity. */
  predicate Exceeds(length: nat, max: Option<nat>) {
    max.Some? && length > max.value
  }

  ghost function NewEvents(buffer: string): seq<SseEvent> {
    EventsOf(Complete(Split(buffer)))
  }

  /** What a flush yields for the unterminated rest of the stream. */
  function FlushEvents(rest: string): seq<SseEvent> {
    Emit(BlockEvent(rest))
  }

  /** What a flush leaves in the buffer. */
  function Unflushed(rest: string): string {
    if IsBlank(rest) then rest else ""
  }

  class SseStreamDecoder {
    const maxBufferedChars: Option<nat>
    var buffer: string
    /** All the text pushed so far. */
    ghost var seen: string

    constructor (maxBufferedChars: Option<nat>)
      ensures Valid() && buffer == "" && seen == "" && this.maxBufferedChars == maxBufferedChars
    {
      this.maxBufferedChars := maxBufferedChars;
      buffer, seen := "", "";
      new;
      assert Split("") == [""];
    }

    /** Either the bound has been exceeded, which is for good, or the buffer is what follows
        the last leftmost separator of the text seen. */
    ghost predicate Valid()
      reads this
    {
      Exceeds(|buffer|, maxBufferedChars) || buffer == Rest(seen)
    }

    method Push(chunk: string) returns (r: Decoded)
      requires Valid()
      modifies this
      ensures Valid() && seen == old(seen) + chunk
      ensures r.FrameTooLarge? <==> Exceeds(|old(buffer)| + |chunk|, maxBufferedChars)
      ensures r.FrameTooLarge? ==> buffer == old(buffer) + chunk
      ensures r.Events? ==> buffer == Rest(old(buffer) + chunk) && r.events == NewEvents(old(buffer) + chunk)
      ensures r.Events? ==> CompleteEvents(seen) == CompleteEvents(old(seen)) + r.events
    {
      ghost var before, rest := seen, buffer;
      buffer := buffer + chunk;
      seen := seen + chunk;
      if Exceeds(|buffer|, maxBufferedChars) {
        return FrameTooLarge;
      }
      PushMeaning(before, chunk);
      var events := Consume(false);
      return Events(events);
    }

    /** tail is the text the character decoder had still to emit. */
    method Finish(tail: string) returns (r: Decoded)
      requires Valid()
      modifies this
      ensures seen == old(seen) + tail
      ensures r.FrameTooLarge? <==> Exceeds(|old(buffer)| + |tail|, maxBufferedChars)
      ensures r.Events? ==> r.events == NewEvents(old(buffer) + tail) + FlushEvents(Rest(old(buffer) + tail))
      ensures r.FrameTooLarge? ==> buffer == old(buffer) + tail
      ensures r.Events? ==> buffer == Unflushed(Rest(old(buffer) + tail))
      ensures r.Events? ==> AllEvents(seen) == CompleteEvents(old(seen)) + r.events
    {
      ghost var before := seen;
      buffer := buffer + tail;
      seen := seen + tail;
      if Exceeds(|buffer|, maxBufferedChars) {
        return FrameTooLarge;
      }
      PushMeaning(before, tail);
      var events := Consume(true);
      return Events(events);
    }

    method Consume(flush: bool) returns (events: seq<SseEvent>)
      modifies this`buffer
      ensures var old' := old(buffer);
              && events == NewEvents(old') + (if flush then FlushEvents(Rest(old')) else [])
              && buffer == if flush then Unflushed(Rest(old')) else Rest(old')
    {
      events := [];
      var consumedThrough := 0;
      var index := FirstSep(buffer, 0);
      assert buffer[0..] == buffer;
      ghost var all := NewEvents(buffer);
      ghost var rest := Rest(buffer);
      while index < |buffer|
        invariant 0 <= consumedThrough <= |buffer| && index == FirstSep(buffer, consumedThrough)
        invariant buffer == old(buffer)
        invariant all == events + NewEvents(buffer[consumedThrough..])
        invariant rest == Rest(buffer[consumedThrough..])
        decreases |buffer| - consumedThrough
      {
        var block := buffer[consumedThrough..index];
        var next := index + SepAt(buffer, index);
        ConsumeStep(buffer, consumedThrough, index, next);
        var parsed := ParseIfNotBlank(block);
        Assoc(events, parsed, NewEvents(buffer[next..]));
        events := events + parsed;
        consumedThrough := next;
        index := FirstSep(buffer, consumedThrough);
      }
      FirstSepShift(buffer, consumedThrough);
      NoSepLeft(buffer[consumedThrough..]);
      buffer := buffer[consumedThrough..];
      if flush {
        RestSepFree(old(buffer));
        var parsed := ParseIfNotBlank(buffer);
        events := events + parsed;
        if !IsBlank(buffer) {
          buffer := "";
        }
      }
    }
  }

  method ParseIfNotBlank(block: string) returns (events: seq<SseEvent>)
    requires SepFree(block)
    ensures events == Emit(BlockEvent(block))
  {
    if IsBlank(block) {
      BlankBlock(block);
      events := [];
    } else {
      events := ParseSseEvents(block + "\n\n");
      BlockClosed(block);
    }
  }

  // ---------------------------------------------------------------- lemmas

  /** A separator-free block with a blank line appended parses to the block's own event,
      or to none: never to a second event. */
  lemma BlockClosed(block: string)
    requires SepFree(block)
    ensures CompleteEvents(block + "\n\n") == Emit(BlockEvent(block))
  {
    var text := block + "\n\n";
    assert SepAt(text, |block|) == 2;
    BlockThenRun(block, "\n\n");
  }

  lemma FirstSepShift(s: string, from: nat)
    requires from <= |s|
    ensures FirstSep(s, from) == from + FirstSep(s[from..], 0)
    ensures SepAt(s, FirstSep(s, from)) == SepAt(s[from..], FirstSep(s[from..], 0))
  {
    var rest := s[from..];
    forall i | 0 <= i <= |rest| ensures SepAt(s, from + i) == SepAt(rest, i) {
      assert forall k :: 0 <= k < |rest| ==> rest[k] == s[from + k];
    }
    var j := FirstSep(rest, 0);
    forall k | from <= k < from + j ensures SepAt(s, k) == 0 {
      assert SepAt(s, from + (k - from)) == SepAt(rest, k - from);
    }
    assert SepAt(s, from + j) == SepAt(rest, j);
  }

  lemma SplitFirst(s: string, j: nat, e: nat)
    requires j == FirstSep(s, 0) < |s| && e == j + SepAt(s, j)
    ensures NewEvents(s) == Emit(BlockEvent(s[..j])) + NewEvents(s[e..])
    ensures Rest(s) == Rest(s[e..])
  {
    SplitAt(s, j, e);
    hide Split, BlockEvent, SepAt, EventsOf, Complete;
    PrependBlock(s[..j], Split(s[e..]));
  }

  lemma SplitAt(s: string, j: nat, e: nat)
    requires j == FirstSep(s, 0) < |s| && e == j + SepAt(s, j)
    ensures Split(s) == [s[..j]] + Split(s[e..])
  {
  }

  lemma NoSepLeft(s: string)
    requires FirstSep(s, 0) == |s|
    ensures NewEvents(s) == [] && Rest(s) == s
  {
  }

  lemma ConsumeStep(s: string, from: nat, index: nat, next: nat)
    requires from <= |s| && index == FirstSep(s, from) < |s| && next == index + SepAt(s, index)
    ensures SepFree(s[from..index])
    ensures NewEvents(s[from..]) == Emit(BlockEvent(s[from..index])) + NewEvents(s[next..])
    ensures Rest(s[from..]) == Rest(s[next..])
  {
    hide NewEvents, Rest, BlockEvent;
    FirstSepShift(s, from);
    var rest, j := s[from..], index - from;
    NoSepBeforeFirst(rest, j);
    assert rest[..j] == s[from..index];
    assert rest[next - from..] == s[next..];
    SplitFirst(rest, j, next - from);
  }

  /** What pushing more text onto the rest yields, in terms of everything seen. */
  lemma PushMeaning(seen: string, chunk: string)
    ensures var buffer := Rest(seen) + chunk;
            && Rest(seen + chunk) == Rest(buffer)
            && CompleteEvents(seen + chunk) == CompleteEvents(seen) + NewEvents(buffer)
            && AllEvents(seen + chunk) == CompleteEvents(seen) + (NewEvents(buffer) + FlushEvents(Rest(buffer)))
  {
    SplitExtends(seen, chunk);
    SplitMeaning(seen);
    SplitMeaning(seen + chunk);
    AppendBlocks(Complete(Split(seen)), Split(Rest(seen) + chunk));
  }

  lemma AppendBlocks(done: seq<string>, more: seq<string>)
    requires |more| > 0
    ensures EventsOf(Complete(done + more)) == EventsOf(done) + EventsOf(Complete(more))
    ensures EventsOf(done + more) == EventsOf(done) + (EventsOf(Complete(more)) + FlushEvents(more[|more| - 1]))
    ensures (done + more)[|done + more| - 1] == more[|more| - 1]
  {
    assert Complete(done + more) == done + Complete(more);
    EventsOfConcat(done, Complete(more));
    LastBlock(more);
    EventsOfConcat(done, more);
  }

  lemma LastBlock(blocks: seq<string>)
    requires |blocks| > 0
    ensures EventsOf(blocks) == EventsOf(Complete(blocks)) + FlushEvents(blocks[|blocks| - 1])
  {
  }

  // ---------------------------------------------------------------- whole runs

  function Concat(chunks: seq<string>): string {
    if chunks == [] then "" else Concat(chunks[..|chunks| - 1]) + chunks[|chunks| - 1]
  }

  lemma {:induction false} ConcatSplit(chunks: seq<string>, k: nat)
    requires k <= |chunks|
    ensures Concat(chunks) == Concat(chunks[..k]) + Concat(chunks[k..])
    decreases |chunks|
  {
    var n := |chunks| - 1;
    if k == |chunks| {
      assert chunks[..k] == chunks && chunks[k..] == [];
    } else {
      ConcatSplit(chunks[..n], k);
      assert chunks[..n][..k] == chunks[..k];
      assert chunks[k..][..n - k] == chunks[..n][k..];
      assert chunks[k..][n - k] == chunks[n];
    }
  }

  /** The outcome of pushing chunks one by one: the events so far, and the buffer left. */
  datatype Outcome = Decoding(events: seq<SseEvent>, buffer: string) | Overflow(events: seq<SseEvent>)

  ghost function Pushed(o: Outcome, max: Option<nat>, chunk: string): Outcome {
    match o
    case Overflow(_) => o
    case Decoding(events, buffer) =>
      if Exceeds(|buffer + chunk|, max) then Overflow(events)
      else Decoding(events + NewEvents(buffer + chunk), Rest(buffer + chunk))
  }

  ghost function Run(max: Option<nat>, chunks: seq<string>): Outcome {
    if chunks == [] then Decoding([], "")
    else Pushed(Run(max, chunks[..|chunks| - 1]), max, chunks[|chunks| - 1])
  }

  /** The outcome is the one the text itself determines. */
  ghost predicate Means(o: Outcome, s: string) {
    match o
    case Overflow(events) => events <= CompleteEvents(s)
    case Decoding(events, buffer) => events == CompleteEvents(s) && buffer == Rest(s)
  }

  lemma PushedMeans(o: Outcome, max: Option<nat>, s: string, chunk: string)
    requires Means(o, s)
    ensures Means(Pushed(o, max, chunk), s + chunk)
  {
    PushMeaning(s, chunk);
  }

  lemma {:induction false} RunMeaning(max: Option<nat>, chunks: seq<string>)
    ensures Means(Run(max, chunks), Concat(chunks))
    decreases |chunks|
  {
    if chunks == [] {
      NothingRead();
    } else {
      var n := |chunks| - 1;
      RunMeaning(max, chunks[..n]);
      PushedMeans(Run(max, chunks[..n]), max, Concat(chunks[..n]), chunks[n]);
    }
  }

  lemma NothingRead()
    ensures CompleteEvents("") == [] && Rest("") == ""
  {
    NoSepLeft("");
  }

  /** Chunk independence: a run that does not overflow has delivered the complete events of the
      stream, and finishing it delivers those of the whole stream, wherever it was cut. */
  lemma ChunkIndependence(max: Option<nat>, chunks: seq<string>, tail: string)
    ensures var s := Concat(chunks);
            match Run(max, chunks)
            case Overflow(events) => events <= CompleteEvents(s)
            case Decoding(events, buffer) =>
              && events == CompleteEvents(s)
              && buffer == Rest(s)
              && events + (NewEvents(buffer + tail) + FlushEvents(Rest(buffer + tail))) == AllEvents(s + tail)
  {
    RunMeaning(max, chunks);
    PushMeaning(Concat(chunks), tail);
  }

  /** Chunk i does not fit beside the rest of the text before it. */
  ghost predicate Overfull(max: Option<nat>, chunks: seq<string>, i: nat)
    requires i < |chunks|
  {
    Exceeds(|Rest(Concat(chunks[..i]))| + |chunks[i]|, max)
  }

  lemma OverfullPrefix(max: Option<nat>, chunks: seq<string>, n: nat, i: nat)
    requires i < n <= |chunks|
    ensures Overfull(max, chunks[..n], i) == Overfull(max, chunks, i)
  {
    assert chunks[..n][..i] == chunks[..i];
  }

  lemma RunStep(max: Option<nat>, chunks: seq<string>, n: nat)
    requires |chunks| == n + 1
    requires var run := Run(max, chunks[..n]); run.Decoding? ==> run.buffer == Rest(Concat(chunks[..n]))
    ensures Run(max, chunks).Overflow? <==> Run(max, chunks[..n]).Overflow? || Overfull(max, chunks, n)
  {
  }

  lemma {:induction false} OverflowWitness(max: Option<nat>, chunks: seq<string>) returns (i: nat)
    requires Run(max, chunks).Overflow?
    ensures i < |chunks| && Overfull(max, chunks, i)
    decreases |chunks|
  {
    var n := |chunks| - 1;
    RunMeaning(max, chunks[..n]);
    RunStep(max, chunks, n);
    if Run(max, chunks[..n]).Overflow? {
      i := OverflowWitness(max, chunks[..n]);
      OverfullPrefix(max, chunks, n, i);
    } else {
      i := n;
    }
  }

  lemma {:induction false} OverfullOverflows(max: Option<nat>, chunks: seq<string>, i: nat)
    requires i < |chunks| && Overfull(max, chunks, i)
    ensures Run(max, chunks).Overflow?
    decreases |chunks|
  {
    var n := |chunks| - 1;
    if i < n {
      OverfullPrefix(max, chunks, n, i);
      OverfullOverflows(max, chunks[..n], i);
    } else {
      LastOverfull(max, chunks, n);
    }
  }

  lemma LastOverfull(max: Option<nat>, chunks: seq<string>, n: nat)
    requires |chunks| == n + 1 && Overfull(max, chunks, n)
    ensures Run(max, chunks).Overflow?
  {
    RunMeaning(max, chunks[..n]);
    RunStep(max, chunks, n);
  }

  /** A run overflows exactly when one of its chunks does not fit. */
  lemma OverflowIff(max: Option<nat>, chunks: seq<string>)
    ensures Run(max, chunks).Overflow? <==> exists i :: 0 <= i < |chunks| && Overfull(max, chunks, i)
  {
    if Run(max, chunks).Overflow? {
      var i := OverflowWitness(max, chunks);
    }
    forall i | 0 <= i < |chunks| && Overfull(max, chunks, i) ensures Run(max, chunks).Overflow? {
      OverfullOverflows(max, chunks, i);
    }
  }

  lemma {:induction false} RestIsShort(s: string)
    ensures |Rest(s)| <= |s|
    decreases |s|
  {
    var j := FirstSep(s, 0);
    if j < |s| {
      RestIsShort(s[j + SepAt(s, j)..]);
    }
  }

  lemma {:induction false} ConcatFits(chunks: seq<string>, i: nat)
    requires i < |chunks|
    ensures |Concat(chunks[..i])| + |chunks[i]| <= |Concat(chunks)|
    decreases |chunks|
  {
    var n := |chunks| - 1;
    if i < n {
      ConcatFits(chunks[..n], i);
      assert chunks[..n][..i] == chunks[..i];
    }
  }

  lemma FittingNeverOverflows(max: nat, chunks: seq<string>)
    requires |Concat(chunks)| <= max
    ensures Run(Some(max), chunks).Decoding?
  {
    OverflowIff(Some(max), chunks);
    forall i | 0 <= i < |chunks| ensures !Overfull(Some(max), chunks, i) {
      RestIsShort(Concat(chunks[..i]));
      ConcatFits(chunks, i);
    }
  }

  lemma OneChunk(max: nat, s: string)
    ensures Concat([s]) == s
    ensures Run(Some(max), [s]).Overflow? <==> |s| > max
  {
    assert [s][..0] == [];
    assert "" + s == s;
  }

  /** Whether the bound is exceeded depends on the chunking; no chunking exceeds it exactly
      when the whole stream fits. */
  lemma NoChunkingOverflowsIff(max: nat, s: string)
    ensures |s| <= max <==> forall chunks :: Concat(chunks) == s ==> Run(Some(max), chunks).Decoding?
  {
    if |s| <= max {
      forall chunks | Concat(chunks) == s ensures Run(Some(max), chunks).Decoding? {
        FittingNeverOverflows(max, chunks);
      }
    } else {
      OneChunk(max, s);
    }
  }

  lemma ShortStream()
    ensures Rest("a\n\n") == ""
  {
    var s := "a\n\n";
    assert SepAt(s, 0) == 0 && SepAt(s, 1) == 2;
    assert FirstSep(s, 0) == 1;
    assert s[3..] == "";
    NoSepLeft("");
    SplitFirst(s, 1, 3);
  }

  lemma OverflowDependsOnChunking()
    ensures Concat(["a\n\n", "b\n\n"]) == Concat(["a\n\nb\n\n"])
    ensures Run(Some(3), ["a\n\n", "b\n\n"]).Decoding?
    ensures Run(Some(3), ["a\n\nb\n\n"]).Overflow?
  {
    var two := ["a\n\n", "b\n\n"];
    assert two[..1] == ["a\n\n"];
    OneChunk(3, "a\n\n");
    OneChunk(3, "a\n\nb\n\n");
    ShortStream();
    RunMeaning(Some(3), two[..1]);
  }
}
