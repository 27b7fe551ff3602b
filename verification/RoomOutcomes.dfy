/** What each step of a room stream comes to, told by the raw frames, the codes written out. */
module RoomOutcomes {
  import opened Options
  import opened SseText
  import opened SseEvents
  import opened SseStream
  import opened Room
  import opened RoomProps

  predicate LooksNative(s: string) {
    && "native_room_" < s
    && forall i :: |"native_room_"| <= i < |s| ==> s[i] == '_' || 'a' <= s[i] <= 'z'
  }

  /** The failure that a throw in the channel's callback leaves. */
  function CodeInCallback(error: Thrown): string {
    if error.RoomError? then error.code else "native_room_stream_invalid"
  }

  /** The code of a throw, or of a rejected call, at the end. */
  function CodeAtEnd(error: Thrown): string {
    match error
    case RoomError(code) => code
    case TextError(text) => if LooksNative(text) then text else "native_room_stream_failed"
    case OtherError => "native_room_stream_failed"
  }

  lemma CodesAre(error: Thrown)
    ensures CallbackCode(error) == CodeInCallback(error) && ErrorCode(error) == CodeAtEnd(error)
  {
    if error.TextError? {
      NativeIs(error.text);
    }
  }

  lemma NativeIs(s: string)
    ensures IsNativeCode(s) <==> LooksNative(s)
  {
    if |s| > 12 {
      assert s[..12] == "native_room_" <==> "native_room_" <= s;
    }
  }

  lemma AfterStep(cfg: Config, aborted: bool, steps: seq<Step>, step: Step)
    ensures RoomRun(cfg, aborted, steps + [step]) == Apply(cfg, RoomRun(cfg, aborted, steps), step)
  {
    assert (steps + [step])[..|steps|] == steps;
  }

  /** A call whose signal is aborted already is rejected before anything else; otherwise the stream is live. */
  lemma StartTells(cfg: Config)
    ensures RoomRun(cfg, true, []).outcome == Some(Rejected("native_room_stream_cancelled"))
    ensures Live(RoomRun(cfg, false, [])) && RoomRun(cfg, false, []).progress.delivered == []
  {
  }

  /** The live state, told by what was sent. */
  lemma LiveIs(cfg: Config, aborted: bool, steps: seq<Step>)
    requires Live(RoomRun(cfg, aborted, steps))
    ensures var st, text := RoomRun(cfg, aborted, steps), Sent(cfg, steps).text;
            && st.text == text && st.buffer == Rest(text)
            && st.progress == BEGIN.Frames(cfg, CompleteEvents(text))
            && st.progress.delivered == Deliverables(cfg, CompleteEvents(text))
            && NoEnd(cfg, CompleteEvents(text))
  {
    RunKeepsInv(cfg, aborted, steps);
    LiveProgress(cfg, aborted, steps);
    hide Deliverables, NoEnd, Delivery, SettledInv, SomeEndsRoomTurn, RoomRun, Sent;
  }

  /** While live, every frame so far is a reasoning text or can be delivered, no agent error is among
      them, and exactly what they ask for has been delivered. */
  lemma LiveDelivers(cfg: Config, aborted: bool, steps: seq<Step>)
    requires Live(RoomRun(cfg, aborted, steps))
    ensures var raws := CompleteEvents(Sent(cfg, steps).text);
            && RoomRun(cfg, aborted, steps).progress.delivered == Deliverables(cfg, raws)
            && forall i :: 0 <= i < |raws| && raws[i].event != "reasoning_text" ==>
                 DeliveredBy(cfg, raws[i]).Some? && !IsAgentError(DeliveredBy(cfg, raws[i]).value)
  {
    LiveIs(cfg, aborted, steps);
    hide Deliverables, DeliveredBy, RoomRun, Sent, CompleteEvents;
    var raws := CompleteEvents(Sent(cfg, steps).text);
    forall i | 0 <= i < |raws| && raws[i].event != "reasoning_text"
      ensures DeliveredBy(cfg, raws[i]).Some? && !IsAgentError(DeliveredBy(cfg, raws[i]).value)
    {
      assert !EndsStream(cfg, raws[i]);
    }
  }

  lemma {:induction false} OwnUpdates(cfg: Config, raws: seq<SseEvent>)
    requires cfg.operation.Subscribe?
    ensures forall e :: e in Deliverables(cfg, raws) ==> e.RoomUpdate? && e.update.roomId == cfg.roomId
    decreases |raws|
  {
    if raws != [] {
      OwnUpdates(cfg, raws[..|raws| - 1]);
    }
  }

  /** Whatever arrives, a subscription delivers no update of another room. */
  lemma OwnRoomOnly(cfg: Config, aborted: bool, steps: seq<Step>, i: nat)
    requires cfg.operation.Subscribe? && i < |RoomRun(cfg, aborted, steps).progress.delivered|
    ensures var event := RoomRun(cfg, aborted, steps).progress.delivered[i];
            event.RoomUpdate? && event.update.roomId == cfg.roomId
  {
    var raws, delivered := AllEvents(Sent(cfg, steps).text), RoomRun(cfg, aborted, steps).progress.delivered;
    DeliversPrefix(cfg, aborted, steps);
    var k := FirstEnd(cfg, raws, 0);
    OwnUpdates(cfg, if k < |raws| then raws[..k + 1] else raws);
    assert delivered[i] == Wanted(cfg, raws)[i];
    hide Deliverables, RoomRun, Sent, AllEvents;
  }

  // ---------------------------------------------------------------- one step of a live stream

  /** A chunk of this stream: what it completes is handled up to the first frame that fails or at which
      onEvent aborts; a failure keeps its code, or makes the stream invalid, as a chunk too long does. */
  lemma ChunkTells(cfg: Config, aborted: bool, steps: seq<Step>, text: string)
    requires Live(RoomRun(cfg, aborted, steps))
    ensures var st, sent := RoomRun(cfg, aborted, steps), Sent(cfg, steps).text;
            var st' := RoomRun(cfg, aborted, steps + [Message(cfg.roomId, cfg.streamId, text)]);
            var handled := Handled(cfg, CompleteEvents(sent + text));
            && st'.outcome.None?
            && if |Rest(sent) + text| > 16 * 1024 * 1024 then
                 st'.failure == Some("native_room_stream_invalid") && st'.progress == st.progress
               else
                 && st'.progress.delivered == Deliverables(cfg, handled)
                 && (st'.progress.aborted <==> AbortsAfter(cfg, handled))
                 && match FailureOf(cfg, handled)
                    case None => st'.failure.None?
                    case Some(error) => st'.failure == Some(CodeInCallback(error))
  {
    var st, sent := RoomRun(cfg, aborted, steps), Sent(cfg, steps).text;
    LiveIs(cfg, aborted, steps);
    AfterStep(cfg, aborted, steps, Message(cfg.roomId, cfg.streamId, text));
    hide RoomRun, Sent, NoEnd;
    Chunk(cfg, st, text);
  }

  lemma Chunk(cfg: Config, st: RoomState, text: string)
    requires Live(st) && st.progress == BEGIN.Frames(cfg, CompleteEvents(st.text)) && st.buffer == Rest(st.text)
    ensures var st', handled := ChunkReceived(cfg, st, text), Handled(cfg, CompleteEvents(st.text + text));
            && st'.outcome.None?
            && if |st.buffer + text| > 16 * 1024 * 1024 then
                 st'.failure == Some("native_room_stream_invalid") && st'.progress == st.progress
               else
                 && st'.progress.delivered == Deliverables(cfg, handled)
                 && (st'.progress.aborted <==> AbortsAfter(cfg, handled))
                 && match FailureOf(cfg, handled)
                    case None => st'.failure.None?
                    case Some(error) => st'.failure == Some(CodeInCallback(error))
  {
    PushMeaning(st.text, text);
    FramesConcat(cfg, BEGIN, CompleteEvents(st.text), NewEvents(st.buffer + text));
    FramesMean(cfg, CompleteEvents(st.text + text));
    hide Deliverables, Handled, FailureOf, AbortsAfter, SomeEndsRoomTurn, CompleteEvents, NewEvents, Rest, CallbackCode;
    var p := BEGIN.Frames(cfg, CompleteEvents(st.text + text));
    if p.thrown.Some? {
      CodesAre(p.thrown.value);
    }
  }

  /** A chunk of another room or stream changes nothing, a message that is no chunk makes a live stream
      invalid, and an abort only sets the flag. */
  lemma OthersTell(cfg: Config, aborted: bool, steps: seq<Step>, step: Step)
    requires Live(RoomRun(cfg, aborted, steps))
    ensures var st, st' := RoomRun(cfg, aborted, steps), RoomRun(cfg, aborted, steps + [step]);
            && (step.Message? && (step.roomId != cfg.roomId || step.streamId != cfg.streamId) ==> st' == st)
            && (step.BadMessage? ==> st' == st.(failure := Some("native_room_stream_invalid")))
            && (step.Abort? ==> st' == st.(progress := st.progress.(aborted := true)))
  {
    AfterStep(cfg, aborted, steps, step);
  }

  // ---------------------------------------------------------------- the end of the call

  /** How the promise settles when the native call resolves: by an earlier failure, by an abort, by the
      last text being too long, and otherwise by the last frames. */
  lemma CompleteTells(cfg: Config, aborted: bool, steps: seq<Step>, tail: string)
    requires RoomRun(cfg, aborted, steps).outcome.None?
    ensures var st, sent := RoomRun(cfg, aborted, steps), Sent(cfg, steps).text;
            var st' := RoomRun(cfg, aborted, steps + [Complete(tail)]);
            var handled := Handled(cfg, AllEvents(sent + tail));
            var failure := FailureOf(cfg, handled);
            st'.outcome == Some(
              if st.failure.Some? then Rejected(st.failure.value)
              else if st.progress.aborted then Rejected("native_room_stream_cancelled")
              else if |Rest(sent) + tail| > 16 * 1024 * 1024 then Rejected("native_room_stream_failed")
              else if failure.None? && SomeEndsRoomTurn(Deliverables(cfg, handled)) then Resolved
              else if AbortsAfter(cfg, handled) then Rejected("native_room_stream_cancelled")
              else if failure.Some? then Rejected(CodeAtEnd(failure.value))
              else Rejected("native_room_stream_interrupted"))
  {
    var st, sent := RoomRun(cfg, aborted, steps), Sent(cfg, steps).text;
    AfterStep(cfg, aborted, steps, Complete(tail));
    if Live(st) {
      LiveIs(cfg, aborted, steps);
      hide RoomRun, Sent, NoEnd;
      Completion(cfg, st, tail);
    }
  }

  lemma Completion(cfg: Config, st: RoomState, tail: string)
    requires Live(st) && st.progress == BEGIN.Frames(cfg, CompleteEvents(st.text)) && st.buffer == Rest(st.text)
    ensures var handled := Handled(cfg, AllEvents(st.text + tail)); var failure := FailureOf(cfg, handled);
            CallCompleted(cfg, st, tail).outcome == Some(
              if |st.buffer + tail| > 16 * 1024 * 1024 then Rejected("native_room_stream_failed")
              else if failure.None? && SomeEndsRoomTurn(Deliverables(cfg, handled)) then Resolved
              else if AbortsAfter(cfg, handled) then Rejected("native_room_stream_cancelled")
              else if failure.Some? then Rejected(CodeAtEnd(failure.value))
              else Rejected("native_room_stream_interrupted"))
  {
    var buffer := st.buffer + tail;
    PushMeaning(st.text, tail);
    FramesConcat(cfg, BEGIN, CompleteEvents(st.text), NewEvents(buffer) + FlushEvents(Rest(buffer)));
    FramesMean(cfg, AllEvents(st.text + tail));
    var p := BEGIN.Frames(cfg, AllEvents(st.text + tail));
    hide Deliverables, Handled, FailureOf, AbortsAfter, SomeEndsRoomTurn, CompleteEvents, AllEvents, NewEvents,
      FlushEvents, Rest, ErrorCode;
    if p.thrown.Some? {
      CodesAre(p.thrown.value);
    }
  }

  /** How it settles when the native call rejects, with a string or with something else. */
  lemma BreakTells(cfg: Config, aborted: bool, steps: seq<Step>, error: Option<string>)
    requires RoomRun(cfg, aborted, steps).outcome.None?
    ensures var st := RoomRun(cfg, aborted, steps);
            RoomRun(cfg, aborted, steps + [Break(error)]).outcome == Some(Rejected(
              if st.failure.Some? then st.failure.value
              else if st.progress.aborted then "native_room_stream_cancelled"
              else if error.Some? && LooksNative(error.value) then error.value
              else "native_room_stream_failed"))
  {
    AfterStep(cfg, aborted, steps, Break(error));
    if error.Some? {
      CodesAre(TextError(error.value));
    }
  }
}
