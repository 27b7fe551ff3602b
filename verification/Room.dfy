/** A room stream: channel messages, abort and the end of the native call, in any order. */
module Room {
  import opened Options
  import opened SseText
  import opened SseEvents
  import opened SseStream
  import opened Agent

  const MAX_BUFFERED := 16 * 1024 * 1024

  const CANCELLED := "native_room_stream_cancelled"
  const INVALID := "native_room_stream_invalid"
  const INTERRUPTED := "native_room_stream_interrupted"
  const STREAM_FAILED := "native_room_stream_failed"
  const DM_FAILED := "native_room_dm_failed"

  datatype Update = Update(roomId: string, payload: string)

  datatype RoomEvent = RoomUpdate(update: Update) | AgentUpdate(event: AgentEvent)

  datatype Operation = Subscribe | AgentTurn

  /** RoomError is a RoomStreamError with its code, TextError a string, OtherError anything else. */
  datatype Thrown = RoomError(code: string) | TextError(text: string) | OtherError

  /** What a call of onEvent does besides taking the event: abort the signal, throw, both or neither. */
  datatype Reaction = Reaction(aborts: bool, throws: Option<Thrown>)

  /** update and decode are the schemas; react is the caller's onEvent, as a function of all it was given. */
  datatype Config = Config(
    roomId: string,
    streamId: string,
    operation: Operation,
    update: string -> Option<Update>,
    decode: Decoder,
    react: seq<RoomEvent> -> Reaction)

  predicate EndsRoomTurn(ev: AgentEvent) {
    ev.kind == "agent_done" || ev.kind == "agent_needs_input"
  }

  // ---------------------------------------------------------------- one frame

  /** What a frame asks for: nothing, an event to deliver, or an error. */
  datatype Wish = Skip | Deliver(event: RoomEvent) | Refuse(error: Thrown)

  function WishOf(cfg: Config, raw: SseEvent): Wish {
    if raw.event == "reasoning_text" then Skip
    else if cfg.operation.Subscribe? then
      if raw.event != "room_update" then Refuse(RoomError(INVALID))
      else
        match cfg.update(raw.data)
        case None => Refuse(OtherError)
        case Some(update) =>
          if update.roomId != cfg.roomId then Refuse(RoomError(INVALID)) else Deliver(RoomUpdate(update))
    else
      match cfg.decode(raw)
      case None => Refuse(RoomError(INVALID))
      case Some(event) =>
        if event.kind == "reasoning_text" then Refuse(RoomError(INVALID)) else Deliver(AgentUpdate(event))
  }

  /** What the frames dispatched so far have done. */
  datatype Progress = Progress(delivered: seq<RoomEvent>, terminal: bool, aborted: bool, thrown: Option<Thrown>) {
    predicate Halted() {
      aborted || thrown.Some?
    }

    function Frame(cfg: Config, raw: SseEvent): Progress {
      if Halted() then this
      else
        match WishOf(cfg, raw)
        case Skip => this
        case Refuse(error) => this.(thrown := Some(error))
        case Deliver(event) =>
          var delivered' := delivered + [event];
          var terminal' := terminal || (event.AgentUpdate? && EndsRoomTurn(event.event));
          var reaction := cfg.react(delivered');
          var thrown' :=
            if reaction.throws.Some? then reaction.throws
            else if event.AgentUpdate? && IsError(event.event) then Some(RoomError(DM_FAILED))
            else None;
          Progress(delivered', terminal', reaction.aborts, thrown')
    }

    function Frames(cfg: Config, raws: seq<SseEvent>): Progress {
      if raws == [] then this else Frames(cfg, raws[..|raws| - 1]).Frame(cfg, raws[|raws| - 1])
    }
  }

  // ---------------------------------------------------------------- the whole stream

  datatype Outcome = Resolved | Rejected(code: string)

  /** text is all that was pushed to the decoder; outcome is how the promise settled. */
  datatype RoomState = RoomState(
    progress: Progress,
    text: string,
    buffer: string,
    failure: Option<string>,
    outcome: Option<Outcome>)

  datatype Step =
    | Message(roomId: string, streamId: string, text: string)
    | BadMessage
    | Abort
    | Complete(tail: string)
    | Break(error: Option<string>)

  predicate IsNativeCode(s: string) {
    && |s| > 12 && s[..12] == "native_room_"
    && forall i :: 12 <= i < |s| ==> 'a' <= s[i] <= 'z' || s[i] == '_'
  }

  function CallbackCode(error: Thrown): string {
    match error
    case RoomError(code) => code
    case TextError(_) => INVALID
    case OtherError => INVALID
  }

  /** How an error of the awaited call, or of the final dispatch, is reported. */
  function ErrorCode(error: Thrown): string {
    match error
    case RoomError(code) => code
    case TextError(text) => if IsNativeCode(text) then text else STREAM_FAILED
    case OtherError => STREAM_FAILED
  }

  /** The stream starts already settled when the signal was aborted before the call. */
  function Start(aborted: bool): RoomState {
    RoomState(Progress([], false, aborted, None), "", "", None, if aborted then Some(Rejected(CANCELLED)) else None)
  }

  ghost function Apply(cfg: Config, st: RoomState, step: Step): RoomState {
    if st.outcome.Some? then (if step.Abort? then st.(progress := st.progress.(aborted := true)) else st)
    else
      match step
      case Abort => st.(progress := st.progress.(aborted := true))
      case BadMessage =>
        if st.progress.aborted || st.failure.Some? then st else st.(failure := Some(INVALID))
      case Message(roomId, streamId, text) =>
        if st.progress.aborted || st.failure.Some? || roomId != cfg.roomId || streamId != cfg.streamId then st
        else ChunkReceived(cfg, st, text)
      case Complete(tail) => CallCompleted(cfg, st, tail)
      case Break(error) =>
        st.(outcome := Some(Rejected(
          if st.failure.Some? then st.failure.value
          else if st.progress.aborted then CANCELLED
          else ErrorCode(if error.Some? then TextError(error.value) else OtherError))))
  }

  ghost function ChunkReceived(cfg: Config, st: RoomState, chunk: string): RoomState {
    var text := st.text + chunk;
    var buffer := st.buffer + chunk;
    if Exceeds(|buffer|, Some(MAX_BUFFERED)) then
      st.(text := text, buffer := buffer, failure := Some(INVALID))
    else
      var progress := st.progress.Frames(cfg, NewEvents(buffer));
      RoomState(progress.(thrown := None), text, Rest(buffer),
                if progress.thrown.Some? then Some(CallbackCode(progress.thrown.value)) else None, None)
  }

  ghost function CallCompleted(cfg: Config, st: RoomState, tail: string): RoomState {
    if st.failure.Some? then st.(outcome := Some(Rejected(st.failure.value)))
    else if st.progress.aborted then st.(outcome := Some(Rejected(CANCELLED)))
    else
      var buffer := st.buffer + tail;
      if Exceeds(|buffer|, Some(MAX_BUFFERED)) then
        st.(text := st.text + tail, buffer := buffer, outcome := Some(Rejected(STREAM_FAILED)))
      else
        var progress := st.progress.Frames(cfg, NewEvents(buffer) + FlushEvents(Rest(buffer)));
        RoomState(progress.(thrown := None), st.text + tail, Unflushed(Rest(buffer)), None, Some(FinalOutcome(progress)))
  }

  function FinalOutcome(progress: Progress): Outcome {
    if progress.thrown.None? && progress.terminal then Resolved
    else if progress.aborted then Rejected(CANCELLED)
    else if progress.thrown.Some? then Rejected(ErrorCode(progress.thrown.value))
    else Rejected(INTERRUPTED)
  }

  ghost function RoomRun(cfg: Config, aborted: bool, steps: seq<Step>): RoomState {
    if steps == [] then Start(aborted)
    else Apply(cfg, RoomRun(cfg, aborted, steps[..|steps| - 1]), steps[|steps| - 1])
  }

  // ---------------------------------------------------------------- the stream itself

  class RoomStream {
    const cfg: Config
    const decoder: SseStreamDecoder
    var delivered: seq<RoomEvent>
    var terminal: bool
    var aborted: bool
    var callbackFailure: Option<string>
    var outcome: Option<Outcome>

    ghost predicate Valid()
      reads this, decoder
    {
      decoder.maxBufferedChars == Some(MAX_BUFFERED) && (outcome.None? ==> decoder.Valid())
    }

    ghost function State(): RoomState
      reads this, decoder
    {
      RoomState(Progress(delivered, terminal, aborted, None), decoder.seen, decoder.buffer, callbackFailure, outcome)
    }

    constructor (cfg: Config, aborted: bool)
      ensures Valid() && fresh(decoder) && this.cfg == cfg && State() == Start(aborted)
    {
      this.cfg := cfg;
      decoder := new SseStreamDecoder(Some(MAX_BUFFERED));
      delivered, terminal, this.aborted, callbackFailure := [], false, aborted, None;
      outcome := if aborted then Some(Rejected(CANCELLED)) else None;
    }

    method Dispatch(raws: seq<SseEvent>) returns (thrown: Option<Thrown>)
      modifies this`delivered, this`terminal, this`aborted
      ensures var before := Progress(old(delivered), old(terminal), old(aborted), None);
              Progress(delivered, terminal, aborted, thrown) == before.Frames(cfg, raws)
    {
      hide WishOf, EndsRoomTurn, IsError;
      ghost var before := Progress(delivered, terminal, aborted, None);
      for i := 0 to |raws|
        invariant Progress(delivered, terminal, aborted, None) == before.Frames(cfg, raws[..i])
      {
        ghost var now := before.Frames(cfg, raws[..i]);
        var raw := raws[i];
        NextFrame(cfg, before, raws, i);
        if aborted {
          HaltedForGood(cfg, before, raws, i);
          return None;
        }
        match WishOf(cfg, raw) {
          case Skip =>
          case Refuse(error) =>
            HaltedForGood(cfg, before, raws, i + 1);
            return Some(error);
          case Deliver(event) =>
            if event.AgentUpdate? && EndsRoomTurn(event.event) {
              terminal := true;
            }
            delivered := delivered + [event];
            var reaction := cfg.react(delivered);
            aborted := reaction.aborts;
            if reaction.throws.Some? {
              HaltedForGood(cfg, before, raws, i + 1);
              return reaction.throws;
            }
            if event.AgentUpdate? && IsError(event.event) {
              HaltedForGood(cfg, before, raws, i + 1);
              return Some(RoomError(DM_FAILED));
            }
        }
      }
      assert raws[..|raws|] == raws;
      return None;
    }

    method OnMessage(roomId: string, streamId: string, text: string)
      requires Valid()
      modifies this, decoder
      ensures Valid() && State() == Apply(cfg, old(State()), Message(roomId, streamId, text))
    {
      if outcome.Some? || aborted || callbackFailure.Some? {
        return;
      }
      if roomId != cfg.roomId || streamId != cfg.streamId {
        return;
      }
      var pushed := decoder.Push(text);
      var thrown := Some(OtherError);
      if pushed.Events? {
        thrown := Dispatch(pushed.events);
      }
      if thrown.Some? {
        callbackFailure := Some(CallbackCode(thrown.value));
      }
    }

    /** A message that is no chunk. */
    method OnBadMessage()
      requires Valid()
      modifies this
      ensures Valid() && State() == Apply(cfg, old(State()), BadMessage)
    {
      if outcome.Some? || aborted || callbackFailure.Some? {
        return;
      }
      callbackFailure := Some(INVALID);
    }

    method OnAbort()
      requires Valid()
      modifies this
      ensures Valid() && State() == Apply(cfg, old(State()), Abort)
    {
      aborted := true;
    }

    /** The native call has resolved. */
    method OnComplete(tail: string)
      requires Valid()
      modifies this, decoder
      ensures Valid() && State() == Apply(cfg, old(State()), Complete(tail))
    {
      if outcome.Some? {
        return;
      }
      if callbackFailure.Some? {
        outcome := Some(Rejected(callbackFailure.value));
      } else if aborted {
        outcome := Some(Rejected(CANCELLED));
      } else {
        var flushed := decoder.Finish(tail);
        var thrown := Some(OtherError);
        if flushed.Events? {
          thrown := Dispatch(flushed.events);
        }
        outcome := Some(FinalOutcome(Progress(delivered, terminal, aborted, thrown)));
      }
    }

    /** The native call has rejected; error is its reason if that is a string. */
    method OnBreak(error: Option<string>)
      requires Valid()
      modifies this
      ensures Valid() && State() == Apply(cfg, old(State()), Break(error))
    {
      if outcome.Some? {
        return;
      }
      if callbackFailure.Some? {
        outcome := Some(Rejected(callbackFailure.value));
      } else if aborted {
        outcome := Some(Rejected(CANCELLED));
      } else if error.Some? && IsNativeCode(error.value) {
        outcome := Some(Rejected(error.value));
      } else {
        outcome := Some(Rejected(STREAM_FAILED));
      }
    }
  }

  lemma NextFrame(cfg: Config, before: Progress, raws: seq<SseEvent>, i: nat)
    requires i < |raws|
    ensures before.Frames(cfg, raws[..i + 1]) == before.Frames(cfg, raws[..i]).Frame(cfg, raws[i])
  {
    assert raws[..i + 1][..i] == raws[..i];
  }

  lemma {:induction false} HaltedForGood(cfg: Config, before: Progress, raws: seq<SseEvent>, i: nat)
    requires i <= |raws| && before.Frames(cfg, raws[..i]).Halted()
    ensures before.Frames(cfg, raws) == before.Frames(cfg, raws[..i])
    decreases |raws|
  {
    if i == |raws| {
      assert raws[..i] == raws;
    } else {
      var n := |raws| - 1;
      assert raws[..n][..i] == raws[..i];
      HaltedForGood(cfg, before, raws[..n], i);
    }
  }
}
