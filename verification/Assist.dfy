/** The character-assist reader: a last-separator loop that a handler may stop. */
module Assist {
  import opened Callbacks
  import opened Options
  import opened SseText
  import opened SseEvents
  import opened SseStream
  import opened LastSeparator

  /** Ended: the stream was read to its end, or the handler stopped it; ReadFailed: a read rejected. */
  datatype Outcome = Ended | ReadFailed | HandlerThrew

  /** What the handler does when called, as a function of all it has been called on. */
  datatype Answer = GoesOn | Stops | Throws

  type Handler = seq<SseEvent> -> Answer

  function EndsAt(handler: Handler): seq<SseEvent> -> bool {
    calls => handler(calls) != GoesOn
  }

  /** The handler calls a list of events gives rise to: its envelopes, up to and including the first at
      which the handler stops or throws. */
  function Calls(isEnvelope: SseEvent -> bool, handler: Handler, events: seq<SseEvent>): seq<SseEvent> {
    Given(EndsAt(handler), Filter(isEnvelope, events))
  }

  predicate Over(isEnvelope: SseEvent -> bool, handler: Handler, events: seq<SseEvent>) {
    Thrown(EndsAt(handler), Filter(isEnvelope, events))
  }

  lemma NoCalls(isEnvelope: SseEvent -> bool, handler: Handler)
    ensures Calls(isEnvelope, handler, []) == [] && !Over(isEnvelope, handler, [])
  {
  }

  /** One more event, when the handler has gone on so far. */
  lemma NextCall(isEnvelope: SseEvent -> bool, handler: Handler, events: seq<SseEvent>, event: SseEvent)
    requires !Over(isEnvelope, handler, events)
    ensures var calls, more := Calls(isEnvelope, handler, events), events + [event];
            if isEnvelope(event) then
              && Calls(isEnvelope, handler, more) == calls + [event]
              && (Over(isEnvelope, handler, more) <==> handler(calls + [event]) != GoesOn)
            else Calls(isEnvelope, handler, more) == calls && !Over(isEnvelope, handler, more)
  {
    FilterConcat(isEnvelope, events, [event]);
    FilterOne(isEnvelope, event);
    var filtered := Filter(isEnvelope, events);
    assert filtered + [] == filtered;
    GivenNext(EndsAt(handler), filtered, event);
  }

  /** Later events change nothing once the handler has stopped or thrown. */
  lemma CallsSettled(isEnvelope: SseEvent -> bool, handler: Handler, a: seq<SseEvent>, b: seq<SseEvent>)
    requires a <= b && Over(isEnvelope, handler, a)
    ensures Calls(isEnvelope, handler, b) == Calls(isEnvelope, handler, a) && Over(isEnvelope, handler, b)
  {
    assert b == a + b[|a|..];
    FilterConcat(isEnvelope, a, b[|a|..]);
    GivenStays(EndsAt(handler), Filter(isEnvelope, a), Filter(isEnvelope, b));
  }

  lemma NextRaw(before: seq<SseEvent>, events: seq<SseEvent>, i: nat)
    requires i < |events|
    ensures before + events[..i] + [events[i]] == before + events[..i + 1] <= before + events
  {
    assert before + events == before + events[..i + 1] + events[i + 1..];
  }

  /** Hands the envelopes to the handler, after those before them, until it stops or throws. */
  method Handle(ghost before: seq<SseEvent>, events: seq<SseEvent>, calls0: seq<SseEvent>,
      isEnvelope: SseEvent -> bool, handler: Handler)
    returns (calls: seq<SseEvent>, over: bool)
    requires calls0 == Calls(isEnvelope, handler, before) && !Over(isEnvelope, handler, before)
    ensures calls == Calls(isEnvelope, handler, before + events)
    ensures over == Over(isEnvelope, handler, before + events)
  {
    hide Calls, Over;
    calls := calls0;
    assert before + [] == before && events[..0] == [];
    for i := 0 to |events|
      invariant calls == Calls(isEnvelope, handler, before + events[..i])
      invariant !Over(isEnvelope, handler, before + events[..i])
    {
      NextRaw(before, events, i);
      NextCall(isEnvelope, handler, before + events[..i], events[i]);
      if !isEnvelope(events[i]) {
        continue;
      }
      calls := calls + [events[i]];
      if handler(calls) != GoesOn {
        CallsSettled(isEnvelope, handler, before + events[..i + 1], before + events);
        return calls, true;
      }
    }
    assert events[..|events|] == events;
    return calls, false;
  }

  /** What a consumer should do with the whole stream, or with what arrived before a read failed. */
  ghost function Expected(chunks: seq<string>, readFails: bool): seq<SseEvent> {
    if readFails then CompleteEvents(Concat(chunks)) else AllEvents(Concat(chunks))
  }

  /** How reading these events ends. */
  function OutcomeOf(isEnvelope: SseEvent -> bool, handler: Handler, events: seq<SseEvent>, readFails: bool): Outcome {
    if Over(isEnvelope, handler, events) then
      if handler(Calls(isEnvelope, handler, events)).Throws? then HandlerThrew else Ended
    else if readFails then ReadFailed
    else Ended
  }

  lemma PrefixExpected(chunks: seq<string>, k: nat, readFails: bool)
    requires k <= |chunks|
    ensures CompleteEvents(Concat(chunks[..k])) <= Expected(chunks, readFails)
  {
    ConcatSplit(chunks, k);
    PrefixEvents(Concat(chunks[..k]), Concat(chunks[k..]));
  }

  /** Handles a part that was cut off, after what was cut off before it. */
  method HandleCut(ghost cut: string, block: string, before: seq<SseEvent>,
      isEnvelope: SseEvent -> bool, handler: Handler)
    returns (calls: seq<SseEvent>, over: bool)
    requires CutPoint(cut) && EndsWithSep(block)
    requires before == Calls(isEnvelope, handler, CompleteEvents(cut)) && !Over(isEnvelope, handler, CompleteEvents(cut))
    ensures calls == Calls(isEnvelope, handler, CompleteEvents(cut + block))
    ensures over == Over(isEnvelope, handler, CompleteEvents(cut + block))
  {
    hide Calls, Over;
    var events := ParseSseEvents(block);
    CutMore(cut, block);
    calls, over := Handle(CompleteEvents(cut), events, before, isEnvelope, handler);
  }

  /** Handles the unterminated rest, which holds at most one event; that the handler stops is ignored. */
  method Flush(ghost cut: string, buffer: string, before: seq<SseEvent>,
      isEnvelope: SseEvent -> bool, handler: Handler)
    returns (calls: seq<SseEvent>, threw: bool)
    requires CutPoint(cut) && SepFree(buffer)
    requires before == Calls(isEnvelope, handler, CompleteEvents(cut)) && !Over(isEnvelope, handler, CompleteEvents(cut))
    ensures calls == Calls(isEnvelope, handler, AllEvents(cut + buffer))
    ensures OutcomeOf(isEnvelope, handler, AllEvents(cut + buffer), false) == if threw then HandlerThrew else Ended
  {
    hide Calls, Over;
    CutHoldsAll(cut, buffer);
    ghost var done := CompleteEvents(cut);
    var events := ParseIfNotBlank(buffer);
    calls, threw := before, false;
    assert done + [] == done;
    for i := 0 to |events|
      invariant i == 0 ==> calls == before && !threw
      invariant i == 1 ==> calls == Calls(isEnvelope, handler, done + events)
      invariant i == 1 ==> OutcomeOf(isEnvelope, handler, done + events, false) == if threw then HandlerThrew else Ended
    {
      assert events == [events[i]];
      NextCall(isEnvelope, handler, done, events[i]);
      if !isEnvelope(events[i]) {
        continue;
      }
      calls := calls + [events[i]];
      if handler(calls).Throws? {
        return calls, true;
      }
    }
  }

  lemma StopsEarly(chunks: seq<string>, k: nat, readFails: bool, isEnvelope: SseEvent -> bool,
      handler: Handler, cut: string, buffer: string)
    requires HasRead(chunks, k, cut, buffer)
    requires Over(isEnvelope, handler, CompleteEvents(cut))
    ensures var expected := Expected(chunks, readFails);
            && Calls(isEnvelope, handler, expected) == Calls(isEnvelope, handler, CompleteEvents(cut))
            && OutcomeOf(isEnvelope, handler, expected, readFails) ==
               OutcomeOf(isEnvelope, handler, CompleteEvents(cut), readFails)
  {
    hide Calls, Over;
    CutHoldsAll(cut, buffer);
    PrefixExpected(chunks, k, readFails);
    CallsSettled(isEnvelope, handler, CompleteEvents(cut), Expected(chunks, readFails));
  }

  /** For every chunking the handler is called on exactly the decoded envelopes up to and including the
      first at which it stops or throws. */
  method Consume(chunks: seq<string>, readFails: bool, isEnvelope: SseEvent -> bool, handler: Handler)
    returns (calls: seq<SseEvent>, outcome: Outcome)
    ensures calls == Calls(isEnvelope, handler, Expected(chunks, readFails))
    ensures outcome == OutcomeOf(isEnvelope, handler, Expected(chunks, readFails), readFails)
  {
    var buffer := "";
    calls := [];
    ghost var cut := "";
    NothingScanned();
    NoCalls(isEnvelope, handler);
    hide Calls, Over, CompleteEvents, AllEvents;
    for i := 0 to |chunks|
      invariant HasRead(chunks, i, cut, buffer)
      invariant calls == Calls(isEnvelope, handler, CompleteEvents(cut))
      invariant !Over(isEnvelope, handler, CompleteEvents(cut))
    {
      ReadNext(chunks, i, cut, buffer);
      buffer := buffer + chunks[i];
      var idx := LastSepEnd(buffer);
      if idx.None? {
        continue;
      }
      var block := buffer[..idx.value];
      CutStep(cut, buffer, idx.value);
      buffer := buffer[idx.value..];
      var over;
      calls, over := HandleCut(cut, block, calls, isEnvelope, handler);
      cut := cut + block;
      if over {
        StopsEarly(chunks, i + 1, readFails, isEnvelope, handler, cut, buffer);
        return calls, if handler(calls).Throws? then HandlerThrew else Ended;
      }
    }
    ReadAll(chunks, cut, buffer);
    if readFails {
      return calls, ReadFailed;
    }
    var threw;
    calls, threw := Flush(cut, buffer, calls, isEnvelope, handler);
    return calls, if threw then HandlerThrew else Ended;
  }

  /** What the handler answers first that does not let the reading go on, at the n-th envelope. */
  predicate FirstAnswer(handler: Handler, envelopes: seq<SseEvent>, n: nat) {
    && 0 < n <= |envelopes| && handler(envelopes[..n]) != GoesOn
    && forall m :: 0 < m < n ==> handler(envelopes[..m]) == GoesOn
  }

  predicate AlwaysGoesOn(handler: Handler, envelopes: seq<SseEvent>) {
    forall n :: 0 < n <= |envelopes| ==> handler(envelopes[..n]) == GoesOn
  }

  /** The calls and the outcome by the handler's answers: the first that stops or throws ends the reading,
      and without one a failed read is reported. */
  lemma AnswersTell(isEnvelope: SseEvent -> bool, handler: Handler, events: seq<SseEvent>, readFails: bool)
    ensures var envelopes, outcome := Filter(isEnvelope, events), OutcomeOf(isEnvelope, handler, events, readFails);
            && (AlwaysGoesOn(handler, envelopes) ==>
                  Calls(isEnvelope, handler, events) == envelopes && outcome == if readFails then ReadFailed else Ended)
            && (forall n: nat :: FirstAnswer(handler, envelopes, n) ==>
                  && Calls(isEnvelope, handler, events) == envelopes[..n]
                  && outcome == if handler(envelopes[..n]) == Throws then HandlerThrew else Ended)
  {
    var envelopes, ends := Filter(isEnvelope, events), EndsAt(handler);
    var k := FirstThrow(ends, envelopes, 0);
    hide Filter;
    assert forall m :: 0 <= m < |envelopes| ==> (ThrowsAt(ends, envelopes, m) <==> handler(envelopes[..m + 1]) != GoesOn);
    forall n: nat | FirstAnswer(handler, envelopes, n)
      ensures k == n - 1
    {
      assert ThrowsAt(ends, envelopes, n - 1);
    }
  }
}
