/** The chat reader: a last-separator loop that settles on a done or an error event, but
    only after handling the rest of the part it has cut off. */
module Chat {
  import opened Callbacks
  import opened Options
  import opened SseText
  import opened SseEvents
  import opened SseStream
  import opened LastSeparator

  /** The payload schemas, as partial functions of an event's data. */
  datatype Schemas = Schemas(
    text: string -> Option<string>,
    done: string -> Option<string>,
    error: string -> Option<(string, string)>)

  datatype Effect = Delta(text: string) | Done(reason: string) | Failure(code: string, message: string) | Ignored

  function EffectOf(sch: Schemas, ev: SseEvent): Effect {
    if ev.event == "text_delta" then
      match sch.text(ev.data)
      case Some(text) => Delta(text)
      case None => Ignored
    else if ev.event == "done" then
      match sch.done(ev.data)
      case Some(reason) => Done(reason)
      case None => Done("stop")
    else if ev.event == "error" then
      match sch.error(ev.data)
      case Some((code, message)) => Failure(code, message)
      case None => Failure("provider_error", "provider error")
    else Ignored
  }

  function Effects(sch: Schemas, events: seq<SseEvent>): (r: seq<Effect>)
    ensures |r| == |events|
    ensures forall i :: 0 <= i < |events| ==> r[i] == EffectOf(sch, events[i])
  {
    seq(|events|, i requires 0 <= i < |events| => EffectOf(sch, events[i]))
  }

  datatype Outcome = Open | Finished(reason: string) | Failed(code: string, message: string)

  /** What the caller has been given, and how the stream has settled. */
  datatype ChatState = ChatState(deltas: seq<string>, outcome: Outcome) {
    function Step(e: Effect): ChatState {
      if outcome.Failed? then this
      else
        match e
        case Delta(text) => this.(deltas := deltas + [text])
        case Done(reason) => this.(outcome := Finished(reason))
        case Failure(code, message) => this.(outcome := Failed(code, message))
        case Ignored => this
    }
  }

  const FRESH := ChatState([], Open)

  function After(effects: seq<Effect>): ChatState {
    if effects == [] then FRESH else After(effects[..|effects| - 1]).Step(effects[|effects| - 1])
  }

  // ---------------------------------------------------------------- what the reader does

  /** The state once the chunks are read: frozen as soon as some prefix of them settles it. */
  ghost function Reading(sch: Schemas, chunks: seq<string>): ChatState {
    if chunks == [] then FRESH
    else
      var before := Reading(sch, chunks[..|chunks| - 1]);
      if before.outcome.Open? then After(Effects(sch, CompleteEvents(Concat(chunks)))) else before
  }

  ghost function AtEnd(sch: Schemas, chunks: seq<string>, readFails: bool): ChatState {
    var st := Reading(sch, chunks);
    if st.outcome.Open? && !readFails then After(Effects(sch, AllEvents(Concat(chunks)))) else st
  }

  datatype Result = Resolved(reason: string) | Rejected(code: string, message: string) | ReadRejected | CallbackThrew

  function ResultOf(outcome: Outcome, readFails: bool): Result {
    match outcome
    case Finished(reason) => Resolved(reason)
    case Failed(code, message) => Rejected(code, message)
    case Open => if readFails then ReadRejected else Resolved("disconnected")
  }

  lemma {:induction false} AfterConcat(a: seq<Effect>, b: seq<Effect>)
    requires After(a).outcome.Open?
    ensures After(a + b) == ChatState(After(a).deltas + After(b).deltas, After(b).outcome)
    decreases |b|
  {
    if b == [] {
      assert a + b == a;
      assert After(a).deltas + [] == After(a).deltas;
    } else {
      var c, e := b[..|b| - 1], b[|b| - 1];
      assert (a + b)[..|a + b| - 1] == a + c;
      AfterConcat(a, c);
      if e.Delta? {
        Assoc(After(a).deltas, After(c).deltas, [e.text]);
      }
    }
  }

  lemma EffectsConcat(sch: Schemas, a: seq<SseEvent>, b: seq<SseEvent>)
    ensures Effects(sch, a + b) == Effects(sch, a) + Effects(sch, b)
  {
  }

  // ---------------------------------------------------------------- the callback

  /** What onTextDelta got, how the stream has settled if it has, and whether onTextDelta threw. */
  datatype Handled = Handled(deltas: seq<string>, outcome: Outcome, threw: bool)

  /** The deltas of a state were delivered, or those up to the first at which the callback throws. */
  predicate Served(throws: seq<string> -> bool, st: ChatState, handled: Handled) {
    && handled.deltas == Given(throws, st.deltas)
    && handled.threw == Thrown(throws, st.deltas)
    && (!handled.threw ==> handled.outcome == st.outcome)
  }

  lemma {:induction false} DeltasGrow(effects: seq<Effect>, n: nat)
    requires n <= |effects|
    ensures After(effects[..n]).deltas <= After(effects).deltas
    decreases |effects|
  {
    if n == |effects| {
      assert effects[..n] == effects;
    } else {
      var m := |effects| - 1;
      assert effects[..m][..n] == effects[..n];
      DeltasGrow(effects[..m], n);
    }
  }

  lemma AfterSnoc(effects: seq<Effect>, i: nat)
    requires i < |effects|
    ensures After(effects[..i + 1]) == After(effects[..i]).Step(effects[i])
  {
    assert effects[..i + 1][..i] == effects[..i];
  }

  /** The callback throws at the delta of this effect, after those before. */
  lemma ThrowsNow(throws: seq<string> -> bool, before: seq<string>, effects: seq<Effect>, i: nat, now: seq<string>)
    requires i <= |effects| && now == before + After(effects[..i]).deltas && Thrown(throws, now)
    ensures var all := After(effects);
            Served(throws, ChatState(before + all.deltas, all.outcome), Handled(Given(throws, now), Open, true))
  {
    hide After, Thrown, Given;
    DeltasGrow(effects, i);
    var all := After(effects).deltas;
    PrefixAfter(before, After(effects[..i]).deltas, all);
    GivenStays(throws, now, before + all);
  }

  lemma PrefixAfter(before: seq<string>, a: seq<string>, b: seq<string>)
    requires a <= b
    ensures before + a <= before + b
  {
    assert before + b == before + a + b[|a|..];
  }

  /** Runs through the events of one part, after the deltas before it; the deltas are delivered as they
      come. */
  method HandleBlock(sch: Schemas, throws: seq<string> -> bool, before: seq<string>, raw: string)
    returns (handled: Handled)
    requires !Thrown(throws, before)
    ensures var all := After(Effects(sch, CompleteEvents(raw)));
            Served(throws, ChatState(before + all.deltas, all.outcome), handled)
  {
    var events := ParseSseEvents(raw);
    hide CompleteEvents, EffectOf, Thrown, Given;
    ghost var effects := Effects(sch, events);
    var st := ChatState(before, Open);
    assert effects[..0] == [] && before + [] == before;
    for i := 0 to |events|
      invariant st == ChatState(before + After(effects[..i]).deltas, After(effects[..i]).outcome)
      invariant !st.outcome.Failed? && !Thrown(throws, st.deltas)
    {
      AfterSnoc(effects, i);
      match EffectOf(sch, events[i])
      case Delta(text) =>
        Assoc(before, After(effects[..i]).deltas, [text]);
        GivenNext(throws, st.deltas, text);
        st := st.(deltas := st.deltas + [text]);
        if throws(st.deltas) {
          ThrowsNow(throws, before, effects, i + 1, st.deltas);
          return Handled(st.deltas, Open, true);
        }
      case Done(reason) => st := st.(outcome := Finished(reason));
      case Failure(code, message) =>
        st := st.(outcome := Failed(code, message));
        FailedForGood(effects, i + 1);
        NotThrownGiven(throws, st.deltas);
        return Handled(st.deltas, st.outcome, false);
      case Ignored =>
    }
    assert effects[..|events|] == effects;
    NotThrownGiven(throws, st.deltas);
    return Handled(st.deltas, st.outcome, false);
  }

  lemma NotThrownGiven(throws: seq<string> -> bool, deltas: seq<string>)
    requires !Thrown(throws, deltas)
    ensures Given(throws, deltas) == deltas
  {
  }

  lemma {:induction false} FailedForGood(effects: seq<Effect>, k: nat)
    requires k <= |effects| && After(effects[..k]).outcome.Failed?
    ensures After(effects) == After(effects[..k])
    decreases |effects|
  {
    if k == |effects| {
      assert effects[..k] == effects;
    } else {
      var n := |effects| - 1;
      assert effects[..n][..k] == effects[..k];
      FailedForGood(effects[..n], k);
    }
  }

  /** Handles a part that was cut off, after what was cut off before it. */
  method HandleCut(ghost cut: string, block: string, before: seq<string>, sch: Schemas,
      throws: seq<string> -> bool)
    returns (handled: Handled)
    requires CutPoint(cut) && EndsWithSep(block) && !Thrown(throws, before)
    requires After(Effects(sch, CompleteEvents(cut))) == ChatState(before, Open)
    ensures Served(throws, After(Effects(sch, CompleteEvents(cut + block))), handled)
  {
    handled := HandleBlock(sch, throws, before, block);
    CutMore(cut, block);
    EffectsConcat(sch, CompleteEvents(cut), CompleteEvents(block));
    AfterConcat(Effects(sch, CompleteEvents(cut)), Effects(sch, CompleteEvents(block)));
  }

  method Flush(ghost cut: string, buffer: string, before: seq<string>, sch: Schemas, throws: seq<string> -> bool)
    returns (handled: Handled)
    requires CutPoint(cut) && SepFree(buffer) && !Thrown(throws, before)
    requires After(Effects(sch, CompleteEvents(cut))) == ChatState(before, Open)
    ensures Served(throws, After(Effects(sch, AllEvents(cut + buffer))), handled)
  {
    CutHoldsAll(cut, buffer);
    if IsBlank(buffer) {
      BlankBlock(buffer);
      assert CompleteEvents(cut) + [] == CompleteEvents(cut);
      return Handled(before, Open, false);
    }
    handled := HandleBlock(sch, throws, before, buffer + "\n\n");
    BlockClosed(buffer);
    var tail := Emit(BlockEvent(buffer));
    EffectsConcat(sch, CompleteEvents(cut), tail);
    AfterConcat(Effects(sch, CompleteEvents(cut)), Effects(sch, tail));
  }

  // ---------------------------------------------------------------- the loop

  lemma ReadingNext(sch: Schemas, chunks: seq<string>, k: nat, cut: string, buffer: string)
    requires HasRead(chunks, k + 1, cut, buffer)
    requires Reading(sch, chunks[..k]).outcome.Open?
    ensures Reading(sch, chunks[..k + 1]) == After(Effects(sch, CompleteEvents(cut)))
  {
    assert chunks[..k + 1][..k] == chunks[..k];
    CutHoldsAll(cut, buffer);
  }

  lemma {:induction false} SettledForGood(sch: Schemas, chunks: seq<string>, k: nat)
    requires k <= |chunks| && !Reading(sch, chunks[..k]).outcome.Open?
    ensures Reading(sch, chunks) == Reading(sch, chunks[..k])
    decreases |chunks|
  {
    if k == |chunks| {
      assert chunks[..k] == chunks;
    } else {
      var n := |chunks| - 1;
      assert chunks[..n][..k] == chunks[..k];
      SettledForGood(sch, chunks[..n], k);
    }
  }

  /** While open, reading has gone through all the complete events. */
  lemma OpenReading(sch: Schemas, chunks: seq<string>)
    requires Reading(sch, chunks).outcome.Open?
    ensures Reading(sch, chunks) == After(Effects(sch, CompleteEvents(Concat(chunks))))
  {
    if chunks == [] {
      NothingScanned();
    }
  }

  lemma EffectsGrow(sch: Schemas, a: seq<SseEvent>, b: seq<SseEvent>)
    requires a <= b
    ensures After(Effects(sch, a)).deltas <= After(Effects(sch, b)).deltas
  {
    hide EffectOf, After;
    assert Effects(sch, b)[..|a|] == Effects(sch, a);
    DeltasGrow(Effects(sch, b), |a|);
  }

  lemma ReadingStep(sch: Schemas, chunks: seq<string>)
    requires chunks != []
    ensures Reading(sch, chunks[..|chunks| - 1]).deltas <= Reading(sch, chunks).deltas
  {
    hide After, Effects, CompleteEvents;
    var n := |chunks| - 1;
    if Reading(sch, chunks[..n]).outcome.Open? {
      OpenReading(sch, chunks[..n]);
      PrefixEvents(Concat(chunks[..n]), chunks[n]);
      EffectsGrow(sch, CompleteEvents(Concat(chunks[..n])), CompleteEvents(Concat(chunks)));
    }
  }

  /** What has been delivered is never taken back. */
  lemma {:induction false} ReadingGrows(sch: Schemas, chunks: seq<string>, k: nat)
    requires k <= |chunks|
    ensures Reading(sch, chunks[..k]).deltas <= Reading(sch, chunks).deltas
    decreases |chunks|
  {
    hide Reading;
    if k == |chunks| {
      assert chunks[..k] == chunks;
    } else {
      var n := |chunks| - 1;
      assert chunks[..n][..k] == chunks[..k];
      ReadingGrows(sch, chunks[..n], k);
      ReadingStep(sch, chunks);
    }
  }

  lemma AtEndGrows(sch: Schemas, chunks: seq<string>, k: nat, readFails: bool)
    requires k <= |chunks|
    ensures Reading(sch, chunks[..k]).deltas <= AtEnd(sch, chunks, readFails).deltas
  {
    ReadingGrows(sch, chunks, k);
    if Reading(sch, chunks).outcome.Open? {
      OpenReading(sch, chunks);
      PrefixEvents(Concat(chunks), "");
      assert Concat(chunks) + "" == Concat(chunks);
      hide After, Effects, CompleteEvents, AllEvents;
      EffectsGrow(sch, CompleteEvents(Concat(chunks)), AllEvents(Concat(chunks)));
    }
  }

  lemma AtStart(sch: Schemas, throws: seq<string> -> bool, chunks: seq<string>)
    ensures HasRead(chunks, 0, "", "") && !Thrown(throws, [])
    ensures Reading(sch, chunks[..0]) == FRESH && After(Effects(sch, CompleteEvents(""))) == FRESH
  {
    NothingScanned();
  }

  /** How the promise settles, if the callback throws and if it does not. */
  function Settles(throws: seq<string> -> bool, st: ChatState, readFails: bool): Result {
    if Thrown(throws, st.deltas) then CallbackThrew else ResultOf(st.outcome, readFails)
  }

  lemma ThrownForGood(sch: Schemas, throws: seq<string> -> bool, chunks: seq<string>, k: nat, readFails: bool,
      handled: Handled)
    requires k <= |chunks| && Served(throws, Reading(sch, chunks[..k]), handled) && handled.threw
    ensures var st := AtEnd(sch, chunks, readFails);
            handled.deltas == Given(throws, st.deltas) && Settles(throws, st, readFails) == CallbackThrew
  {
    hide Reading, AtEnd, Given, Thrown;
    AtEndGrows(sch, chunks, k, readFails);
    GivenStays(throws, Reading(sch, chunks[..k]).deltas, AtEnd(sch, chunks, readFails).deltas);
  }

  /** For every chunking the deltas and the result are those of the events read until the first cut that
      settles the stream, or until the callback throws. */
  method StreamChat(sch: Schemas, throws: seq<string> -> bool, chunks: seq<string>, readFails: bool)
    returns (deltas: seq<string>, result: Result)
    ensures var st := AtEnd(sch, chunks, readFails);
            deltas == Given(throws, st.deltas) && result == Settles(throws, st, readFails)
  {
    var buffer := "";
    deltas := [];
    ghost var cut := "";
    AtStart(sch, throws, chunks);
    hide Reading, CompleteEvents, AllEvents, Effects, After, Given, Thrown;
    for i := 0 to |chunks|
      invariant HasRead(chunks, i, cut, buffer) && !Thrown(throws, deltas)
      invariant Reading(sch, chunks[..i]) == ChatState(deltas, Open)
      invariant After(Effects(sch, CompleteEvents(cut))) == ChatState(deltas, Open)
    {
      ReadNext(chunks, i, cut, buffer);
      buffer := buffer + chunks[i];
      var splitIdx := LastSepEnd(buffer);
      if splitIdx.None? {
        ReadingNext(sch, chunks, i, cut, buffer);
        continue;
      }
      var completePart := buffer[..splitIdx.value];
      CutStep(cut, buffer, splitIdx.value);
      buffer := buffer[splitIdx.value..];
      var handled := HandleCut(cut, completePart, deltas, sch, throws);
      cut := cut + completePart;
      ReadingNext(sch, chunks, i, cut, buffer);
      if handled.threw {
        ThrownForGood(sch, throws, chunks, i + 1, readFails, handled);
        return handled.deltas, CallbackThrew;
      }
      NotThrownGiven(throws, Reading(sch, chunks[..i + 1]).deltas);
      deltas := handled.deltas;
      if !handled.outcome.Open? {
        SettledForGood(sch, chunks, i + 1);
        return deltas, ResultOf(handled.outcome, readFails);
      }
    }
    ReadAll(chunks, cut, buffer);
    assert chunks[..|chunks|] == chunks;
    NotThrownGiven(throws, deltas);
    if readFails {
      return deltas, ReadRejected;
    }
    var handled := Flush(cut, buffer, deltas, sch, throws);
    return handled.deltas, if handled.threw then CallbackThrew else ResultOf(handled.outcome, false);
  }
}
