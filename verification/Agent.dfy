/** One agent turn over an event stream: validated events are delivered until an error event. */
module Agent {
  import opened Callbacks
  import opened Options
  import opened SseEvents
  import opened SseStream

  /** kind is the event's type; the rest of a decoded event is opaque. */
  datatype AgentEvent = AgentEvent(kind: string, payload: string)

  type Decoder = SseEvent -> Option<AgentEvent>

  predicate EndsTurn(ev: AgentEvent) {
    ev.kind == "agent_done" || ev.kind == "done" || ev.kind == "agent_needs_input"
  }

  /** The events that decode. */
  function Valid(decode: Decoder, raws: seq<SseEvent>): seq<AgentEvent> {
    Collect(decode, raws)
  }

  predicate IsError(ev: AgentEvent) {
    ev.kind == "error"
  }

  function FirstErrorFrom(events: seq<AgentEvent>, i: nat): (k: nat)
    requires i <= |events|
    ensures i <= k <= |events|
    ensures k < |events| ==> IsError(events[k])
    ensures forall j :: i <= j < k ==> !IsError(events[j])
  {
    FirstIndex(events, IsError, i)
  }

  function FirstError(events: seq<AgentEvent>): nat {
    FirstErrorFrom(events, 0)
  }

  function BeforeError(events: seq<AgentEvent>): seq<AgentEvent> {
    events[..FirstError(events)]
  }

  predicate SomeEndsTurn(events: seq<AgentEvent>) {
    exists i :: 0 <= i < |events| && EndsTurn(events[i])
  }

  lemma ValidConcat(decode: Decoder, a: seq<SseEvent>, b: seq<SseEvent>)
    ensures Valid(decode, a + b) == Valid(decode, a) + Valid(decode, b)
  {
    CollectConcat(decode, a, b);
  }

  lemma FirstErrorIs(events: seq<AgentEvent>, k: nat)
    requires k <= |events| && (k < |events| ==> IsError(events[k]))
    requires forall i :: 0 <= i < k ==> !IsError(events[i])
    ensures FirstError(events) == k
  {
  }

  /** More events change nothing after an error, and otherwise come after what was delivered. */
  lemma BeforeErrorConcat(a: seq<AgentEvent>, b: seq<AgentEvent>)
    ensures FirstError(a) < |a| ==> FirstError(a + b) == FirstError(a) && BeforeError(a + b) == BeforeError(a)
    ensures FirstError(a) == |a| ==> FirstError(a + b) == |a| + FirstError(b)
                                     && BeforeError(a + b) == BeforeError(a) + BeforeError(b)
  {
    if FirstError(a) < |a| {
      FirstErrorIs(a + b, FirstError(a));
      assert (a + b)[..FirstError(a)] == a[..FirstError(a)];
    } else {
      forall i | 0 <= i < |a| + FirstError(b) ensures !IsError((a + b)[i]) {
        if i >= |a| {
          assert (a + b)[i] == b[i - |a|];
        }
      }
      FirstErrorIs(a + b, |a| + FirstError(b));
      assert (a + b)[..|a| + FirstError(b)] == a + b[..FirstError(b)];
    }
  }

  lemma SomeEndsTurnConcat(a: seq<AgentEvent>, b: seq<AgentEvent>)
    ensures SomeEndsTurn(a + b) <==> SomeEndsTurn(a) || SomeEndsTurn(b)
  {
    if SomeEndsTurn(a) {
      var i :| 0 <= i < |a| && EndsTurn(a[i]);
      assert EndsTurn((a + b)[i]);
    }
    if SomeEndsTurn(b) {
      var i :| 0 <= i < |b| && EndsTurn(b[i]);
      assert EndsTurn((a + b)[|a| + i]);
    }
  }

  lemma OneMore(a: seq<AgentEvent>, e: AgentEvent)
    requires FirstError(a) == |a|
    ensures FirstError(a + [e]) == if IsError(e) then |a| else |a| + 1
    ensures BeforeError(a + [e]) == if IsError(e) then a else a + [e]
  {
    FirstErrorIs(a + [e], if IsError(e) then |a| else |a| + 1);
    assert (a + [e])[..|a|] == a;
    assert (a + [e])[..|a| + 1] == a + [e];
  }

  /** More events change nothing after an error. */
  lemma ErrorStays(decode: Decoder, a: seq<SseEvent>, b: seq<SseEvent>)
    requires a <= b && FirstError(Valid(decode, a)) < |Valid(decode, a)|
    ensures var va, vb := Valid(decode, a), Valid(decode, b);
            && FirstError(vb) == FirstError(va) && FirstError(va) < |vb| && vb[FirstError(va)] == va[FirstError(va)]
            && BeforeError(vb) == BeforeError(va)
  {
    assert b == a + b[|a|..];
    ValidConcat(decode, a, b[|a|..]);
    BeforeErrorConcat(Valid(decode, a), Valid(decode, b[|a|..]));
  }

  function ErrorOf(events: seq<AgentEvent>): Option<AgentEvent> {
    if FirstError(events) < |events| then Some(events[FirstError(events)]) else None
  }

  /** The turn so far: these raw events have been dispatched, with the callback throwing or not. */
  ghost predicate Dispatched(decode: Decoder, throws: seq<AgentEvent> -> bool, raws: seq<SseEvent>, turn: Turn) {
    var valid := Valid(decode, raws);
    var wanted := BeforeError(valid);
    && turn.delivered == Given(throws, wanted)
    && turn.threw == Thrown(throws, wanted)
    && turn.terminal == SomeEndsTurn(turn.delivered)
    && turn.error == if turn.threw then None else ErrorOf(valid)
  }

  /** What onEvent got, whether that ended the turn, the error event met, and whether onEvent threw. */
  datatype Turn = Turn(delivered: seq<AgentEvent>, terminal: bool, error: Option<AgentEvent>, threw: bool) {
    predicate Over() {
      error.Some? || threw
    }
  }

  const NEW_TURN := Turn([], false, None, false)

  lemma NothingDispatched(decode: Decoder, throws: seq<AgentEvent> -> bool)
    ensures Dispatched(decode, throws, [], NEW_TURN)
  {
  }

  /** The turn after one more raw event. */
  function Next(turn: Turn, throws: seq<AgentEvent> -> bool, event: Option<AgentEvent>): Turn {
    match event
    case None => turn
    case Some(ev) =>
      if IsError(ev) then turn.(error := event)
      else
        var delivered := turn.delivered + [ev];
        Turn(delivered, turn.terminal || EndsTurn(ev), None, throws(delivered))
  }

  lemma DispatchNext(decode: Decoder, throws: seq<AgentEvent> -> bool, raws: seq<SseEvent>, raw: SseEvent, turn: Turn)
    requires Dispatched(decode, throws, raws, turn) && !turn.Over()
    ensures Dispatched(decode, throws, raws + [raw], Next(turn, throws, decode(raw)))
  {
    var valid := Valid(decode, raws);
    ValidConcat(decode, raws, [raw]);
    CollectOne(decode, raw);
    assert Valid(decode, [raw]) == Emit(decode(raw));
    assert BeforeError(valid) == valid;
    hide Valid;
    match decode(raw)
    case None => assert valid + [] == valid;
    case Some(ev) =>
      OneMore(valid, ev);
      if !IsError(ev) {
        GivenNext(throws, valid, ev);
        SomeEndsTurnConcat(valid, [ev]);
        assert SomeEndsTurn([ev]) <==> EndsTurn([ev][0]);
      }
  }

  /** A turn that is over stays as it is. */
  lemma DispatchStays(decode: Decoder, throws: seq<AgentEvent> -> bool, a: seq<SseEvent>, b: seq<SseEvent>, turn: Turn)
    requires Dispatched(decode, throws, a, turn) && turn.Over() && a <= b
    ensures Dispatched(decode, throws, b, turn)
  {
    var va, vb := Valid(decode, a), Valid(decode, b);
    if turn.error.Some? {
      ErrorStays(decode, a, b);
    } else {
      assert b == a + b[|a|..];
      ValidConcat(decode, a, b[|a|..]);
      BeforeErrorConcat(va, Valid(decode, b[|a|..]));
      hide Valid;
      GivenStays(throws, BeforeError(va), BeforeError(vb));
    }
  }

  lemma NextRaw(before: seq<SseEvent>, raws: seq<SseEvent>, i: nat)
    requires i < |raws|
    ensures before + raws[..i] + [raws[i]] == before + raws[..i + 1] <= before + raws
  {
    assert before + raws == before + raws[..i + 1] + raws[i + 1..];
  }

  /** Dispatches raw events after those before them, until the turn is over. */
  method Dispatch(decode: Decoder, throws: seq<AgentEvent> -> bool, ghost before: seq<SseEvent>,
      raws: seq<SseEvent>, turn: Turn)
    returns (turn': Turn)
    requires Dispatched(decode, throws, before, turn) && !turn.Over()
    ensures Dispatched(decode, throws, before + raws, turn')
  {
    var delivered, terminal := turn.delivered, turn.terminal;
    assert before + [] == before && raws[..0] == [];
    hide Dispatched, EndsTurn, IsError, Valid;
    for i := 0 to |raws|
      invariant Dispatched(decode, throws, before + raws[..i], Turn(delivered, terminal, None, false))
    {
      NextRaw(before, raws, i);
      DispatchNext(decode, throws, before + raws[..i], raws[i], Turn(delivered, terminal, None, false));
      var event := decode(raws[i]);
      if event.None? {
        continue;
      }
      if IsError(event.value) {
        DispatchStays(decode, throws, before + raws[..i + 1], before + raws, Turn(delivered, terminal, event, false));
        return Turn(delivered, terminal, event, false);
      }
      terminal := terminal || EndsTurn(event.value);
      delivered := delivered + [event.value];
      if throws(delivered) {
        DispatchStays(decode, throws, before + raws[..i + 1], before + raws, Turn(delivered, terminal, None, true));
        return Turn(delivered, terminal, None, true);
      }
    }
    assert raws[..|raws|] == raws;
    return Turn(delivered, terminal, None, false);
  }

  datatype Result = Completed | Failed(error: AgentEvent) | Incomplete | ReadRejected | CallbackThrew

  /** The raw events of a turn: those of the whole stream, or those complete when a read fails. */
  ghost function Received(chunks: seq<string>, tail: string, readFails: bool): seq<SseEvent> {
    if readFails then CompleteEvents(Concat(chunks)) else AllEvents(Concat(chunks) + tail)
  }

  function Ending(turn: Turn, readFails: bool): Result {
    if turn.threw then CallbackThrew
    else if turn.error.Some? then Failed(turn.error.value)
    else if readFails then ReadRejected
    else if turn.terminal then Completed
    else Incomplete
  }

  /** How a turn ends, given the events that decode and the callback. */
  function ResultOf(valid: seq<AgentEvent>, throws: seq<AgentEvent> -> bool, readFails: bool): Result {
    if Thrown(throws, BeforeError(valid)) then CallbackThrew
    else if ErrorOf(valid).Some? then Failed(ErrorOf(valid).value)
    else if readFails then ReadRejected
    else if SomeEndsTurn(valid) then Completed
    else Incomplete
  }

  /** For every chunking onEvent gets exactly the events that decode before the first error, or up to the
      first at which it throws, and the turn completes if and only if it does not throw, there is no error
      and some event ends the turn. */
  method StreamAgentTurn(decode: Decoder, throws: seq<AgentEvent> -> bool, chunks: seq<string>, tail: string,
      readFails: bool)
    returns (delivered: seq<AgentEvent>, result: Result)
    ensures var valid := Valid(decode, Received(chunks, tail, readFails));
            delivered == Given(throws, BeforeError(valid)) && result == ResultOf(valid, throws, readFails)
  {
    var decoder := new SseStreamDecoder(None);
    var turn := NEW_TURN;
    NothingRead();
    NothingDispatched(decode, throws);
    for i := 0 to |chunks|
      invariant fresh(decoder) && decoder.Valid() && decoder.maxBufferedChars == None
      invariant AfterChunks(decode, throws, chunks, i, decoder.seen, turn) && !turn.Over()
    {
      turn := PushChunk(decoder, chunks, i, decode, throws, turn);
      if turn.Over() {
        StopsEarly(decode, throws, chunks, i + 1, tail, readFails, turn);
        return turn.delivered, Ending(turn, readFails);
      }
    }
    turn := EndTurn(decoder, chunks, tail, readFails, decode, throws, turn);
    return turn.delivered, Ending(turn, readFails);
  }

  /** The first i chunks have been pushed and what they complete has been dispatched. */
  ghost predicate AfterChunks(decode: Decoder, throws: seq<AgentEvent> -> bool, chunks: seq<string>, i: nat,
      seen: string, turn: Turn) {
    i <= |chunks| && seen == Concat(chunks[..i]) && Dispatched(decode, throws, CompleteEvents(seen), turn)
  }

  lemma TurnEnds(decode: Decoder, throws: seq<AgentEvent> -> bool, raws: seq<SseEvent>, turn: Turn, readFails: bool)
    requires Dispatched(decode, throws, raws, turn)
    ensures turn.delivered == Given(throws, BeforeError(Valid(decode, raws)))
    ensures ResultOf(Valid(decode, raws), throws, readFails) == Ending(turn, readFails)
  {
    hide Valid;
  }

  method PushChunk(decoder: SseStreamDecoder, chunks: seq<string>, i: nat, decode: Decoder,
      throws: seq<AgentEvent> -> bool, turn: Turn)
    returns (turn': Turn)
    requires decoder.Valid() && decoder.maxBufferedChars == None && i < |chunks|
    requires AfterChunks(decode, throws, chunks, i, decoder.seen, turn) && !turn.Over()
    modifies decoder
    ensures decoder.Valid() && AfterChunks(decode, throws, chunks, i + 1, decoder.seen, turn')
  {
    hide Dispatched;
    ghost var before := CompleteEvents(decoder.seen);
    var pushed := decoder.Push(chunks[i]);
    turn' := Dispatch(decode, throws, before, pushed.events, turn);
    assert chunks[..i + 1][..i] == chunks[..i];
  }

  method EndTurn(decoder: SseStreamDecoder, chunks: seq<string>, tail: string, readFails: bool, decode: Decoder,
      throws: seq<AgentEvent> -> bool, turn: Turn)
    returns (turn': Turn)
    requires decoder.Valid() && decoder.maxBufferedChars == None
    requires AfterChunks(decode, throws, chunks, |chunks|, decoder.seen, turn) && !turn.Over()
    modifies decoder
    ensures var valid := Valid(decode, Received(chunks, tail, readFails));
            turn'.delivered == Given(throws, BeforeError(valid)) &&
            Ending(turn', readFails) == ResultOf(valid, throws, readFails)
  {
    hide Dispatched;
    assert chunks[..|chunks|] == chunks;
    if readFails {
      turn' := turn;
    } else {
      ghost var before := CompleteEvents(decoder.seen);
      var flushed := decoder.Finish(tail);
      turn' := Dispatch(decode, throws, before, flushed.events, turn);
    }
    TurnEnds(decode, throws, Received(chunks, tail, readFails), turn', readFails);
  }

  lemma StopsEarly(decode: Decoder, throws: seq<AgentEvent> -> bool, chunks: seq<string>, k: nat, tail: string,
      readFails: bool, turn: Turn)
    requires k <= |chunks| && turn.Over()
    requires Dispatched(decode, throws, CompleteEvents(Concat(chunks[..k])), turn)
    ensures var valid := Valid(decode, Received(chunks, tail, readFails));
            turn.delivered == Given(throws, BeforeError(valid)) &&
            Ending(turn, readFails) == ResultOf(valid, throws, readFails)
  {
    hide Dispatched;
    var all := Received(chunks, tail, readFails);
    EarlierEvents(chunks, k, tail, readFails);
    DispatchStays(decode, throws, CompleteEvents(Concat(chunks[..k])), all, turn);
    TurnEnds(decode, throws, all, turn, readFails);
  }

  lemma EarlierEvents(chunks: seq<string>, k: nat, tail: string, readFails: bool)
    requires k <= |chunks|
    ensures CompleteEvents(Concat(chunks[..k])) <= Received(chunks, tail, readFails)
  {
    ConcatSplit(chunks, k);
    var s, t := Concat(chunks[..k]), Concat(chunks[k..]);
    PushMeaning(s, t);
    PushMeaning(s, t + tail);
    Assoc(s, t, tail);
  }

  /** The result by the kinds of the events that decode: delivered are those before the first error, unless
      the callback throws, and without an error the turn completes exactly when an event ends it. */
  lemma TurnTells(valid: seq<AgentEvent>, k: nat, throws: seq<AgentEvent> -> bool, readFails: bool)
    requires k <= |valid| && (k < |valid| ==> valid[k].kind == "error")
    requires forall i :: 0 <= i < k ==> valid[i].kind != "error"
    ensures BeforeError(valid) == valid[..k]
    ensures ResultOf(valid, throws, readFails) ==
            if Thrown(throws, valid[..k]) then CallbackThrew
            else if k < |valid| then Failed(valid[k])
            else if readFails then ReadRejected
            else if exists i :: 0 <= i < |valid| && EndingKind(valid[i].kind) then Completed
            else Incomplete
  {
    FirstErrorIs(valid, k);
    assert forall i :: 0 <= i < |valid| ==> (EndsTurn(valid[i]) <==> EndingKind(valid[i].kind));
  }

  predicate EndingKind(kind: string) {
    kind == "agent_done" || kind == "done" || kind == "agent_needs_input"
  }
}
