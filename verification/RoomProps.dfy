/** What a room stream delivers and how it settles, over every order of its steps. */
module RoomProps {
  import Callbacks
  import opened Options
  import opened SseText
  import opened SseEvents
  import opened SseStream
  import opened Agent
  import opened Room

  // ---------------------------------------------------------------- what should be delivered

  /** The update of a frame named room_update, if its data is one of this room. */
  function OwnUpdate(cfg: Config, raw: SseEvent): Option<RoomEvent> {
    if raw.event == "room_update" && cfg.update(raw.data).Some? && cfg.update(raw.data).value.roomId == cfg.roomId then
      Some(RoomUpdate(cfg.update(raw.data).value))
    else None
  }

  /** The agent event of a frame that decodes to one, unless it is named or decodes to a reasoning text. */
  function TurnEvent(cfg: Config, raw: SseEvent): Option<RoomEvent> {
    if raw.event != "reasoning_text" && cfg.decode(raw).Some? && cfg.decode(raw).value.kind != "reasoning_text" then
      Some(AgentUpdate(cfg.decode(raw).value))
    else None
  }

  /** What a frame asks to deliver. */
  function DeliveredBy(cfg: Config, raw: SseEvent): Option<RoomEvent> {
    if cfg.operation.Subscribe? then OwnUpdate(cfg, raw) else TurnEvent(cfg, raw)
  }

  /** The events that frames ask to deliver. */
  function Deliverables(cfg: Config, raws: seq<SseEvent>): seq<RoomEvent> {
    Collect(raw => DeliveredBy(cfg, raw), raws)
  }

  predicate IsAgentError(event: RoomEvent) {
    event.AgentUpdate? && event.event.kind == "error"
  }

  /** A frame that is no reasoning text and cannot be delivered, or delivers an agent error, ends the stream. */
  predicate EndsStream(cfg: Config, raw: SseEvent) {
    raw.event != "reasoning_text" &&
    match DeliveredBy(cfg, raw)
    case None => true
    case Some(event) => IsAgentError(event)
  }

  /** How the model of the source reads a frame. */
  lemma WishIs(cfg: Config, raw: SseEvent)
    ensures DeliveredBy(cfg, raw) == if WishOf(cfg, raw).Deliver? then Some(WishOf(cfg, raw).event) else None
    ensures WishOf(cfg, raw).Skip? <==> raw.event == "reasoning_text"
    ensures WishOf(cfg, raw).Deliver? ==> (IsAgentError(WishOf(cfg, raw).event) <==> EndsStream(cfg, raw))
    ensures WishOf(cfg, raw).Deliver? ==>
              (IsAgentError(WishOf(cfg, raw).event) <==>
               WishOf(cfg, raw).event.AgentUpdate? && IsError(WishOf(cfg, raw).event.event))
    ensures WishOf(cfg, raw).Refuse? ==> WishOf(cfg, raw).error == Refusal(cfg, raw)
  {
  }

  /** What is thrown at a frame that cannot be delivered: the schema's error for data that is no update, or
      that the stream is invalid. */
  function Refusal(cfg: Config, raw: SseEvent): Thrown {
    if cfg.operation.Subscribe? && raw.event == "room_update" && cfg.update(raw.data).None? then OtherError
    else RoomError("native_room_stream_invalid")
  }

  function FirstEnd(cfg: Config, raws: seq<SseEvent>, i: nat): (k: nat)
    requires i <= |raws|
    ensures i <= k <= |raws|
    ensures k < |raws| ==> EndsStream(cfg, raws[k])
    ensures forall j :: i <= j < k ==> !EndsStream(cfg, raws[j])
  {
    FirstIndex(raws, raw => EndsStream(cfg, raw), i)
  }

  /** What frames should deliver: everything through the first that ends the stream. */
  function Wanted(cfg: Config, raws: seq<SseEvent>): seq<RoomEvent> {
    var k := FirstEnd(cfg, raws, 0);
    Deliverables(cfg, if k < |raws| then raws[..k + 1] else raws)
  }

  predicate SomeEndsRoomTurn(events: seq<RoomEvent>) {
    exists i :: 0 <= i < |events| && EndsATurn(events[i])
  }

  predicate EndsATurn(event: RoomEvent) {
    event.AgentUpdate? && (event.event.kind == "agent_done" || event.event.kind == "agent_needs_input")
  }

  /** k frames have been dispatched, none before the last of them ending the stream. */
  predicate Reached(cfg: Config, raws: seq<SseEvent>, k: nat, delivered: seq<RoomEvent>) {
    && k <= |raws|
    && delivered == Deliverables(cfg, raws[..k])
    && forall i :: 0 <= i < k - 1 ==> !EndsStream(cfg, raws[i])
  }

  predicate NoEnd(cfg: Config, raws: seq<SseEvent>) {
    forall i :: 0 <= i < |raws| ==> !EndsStream(cfg, raws[i])
  }

  lemma DeliverablesConcat(cfg: Config, a: seq<SseEvent>, b: seq<SseEvent>)
    ensures Deliverables(cfg, a + b) == Deliverables(cfg, a) + Deliverables(cfg, b)
  {
    CollectConcat(raw => DeliveredBy(cfg, raw), a, b);
  }

  lemma ReachedIsWanted(cfg: Config, raws: seq<SseEvent>, k: nat, delivered: seq<RoomEvent>)
    requires Reached(cfg, raws, k, delivered)
    ensures delivered <= Wanted(cfg, raws)
  {
    hide Deliverables, EndsStream;
    var e := FirstEnd(cfg, raws, 0);
    var all := if e < |raws| then raws[..e + 1] else raws;
    assert k <= |all|;
    assert all == raws[..k] + all[k..];
    DeliverablesConcat(cfg, raws[..k], all[k..]);
  }

  lemma NoEndWantsAll(cfg: Config, raws: seq<SseEvent>)
    requires NoEnd(cfg, raws)
    ensures Wanted(cfg, raws) == Deliverables(cfg, raws)
  {
  }

  lemma ReachedMore(cfg: Config, raws: seq<SseEvent>, more: seq<SseEvent>, k: nat, delivered: seq<RoomEvent>)
    requires Reached(cfg, raws, k, delivered) && raws <= more
    ensures Reached(cfg, more, k, delivered)
  {
    assert more[..k] == raws[..k];
  }

  // ---------------------------------------------------------------- frames

  /** The progress after some frames of raws, on top of base. */
  ghost predicate Dispatching(cfg: Config, base: Progress, raws: seq<SseEvent>, k: nat, p: Progress) {
    && k <= |raws|
    && p.delivered == base.delivered + Deliverables(cfg, raws[..k])
    && (forall i :: 0 <= i < k - 1 ==> !EndsStream(cfg, raws[i]))
    && (!p.Halted() ==> k == |raws| && NoEnd(cfg, raws))
    && (p.thrown.None? ==> forall i :: 0 <= i < k ==> !EndsStream(cfg, raws[i]))
    && (p.terminal <==> base.terminal || SomeEndsRoomTurn(Deliverables(cfg, raws[..k])))
  }

  lemma SomeEndsSnoc(events: seq<RoomEvent>, e: RoomEvent)
    ensures SomeEndsRoomTurn(events + [e]) <==> SomeEndsRoomTurn(events) || EndsATurn(e)
  {
    if SomeEndsRoomTurn(events) {
      var i :| 0 <= i < |events| && EndsATurn(events[i]);
      assert (events + [e])[i] == events[i];
    }
    assert (events + [e])[|events|] == e;
  }

  lemma FrameStep(cfg: Config, base: Progress, raws: seq<SseEvent>, raw: SseEvent, p: Progress)
    requires Dispatching(cfg, base, raws, |raws|, p) && !p.Halted()
    ensures Dispatching(cfg, base, raws + [raw], |raws| + 1, p.Frame(cfg, raw))
  {
    var all := raws + [raw];
    assert raws[..|raws|] == raws && all[..|all|] == all && all[..|raws|] == raws;
    var got := Deliverables(cfg, raws);
    WishIs(cfg, raw);
    match WishOf(cfg, raw) {
      case Skip => assert got + [] == got;
      case Refuse(_) => assert got + [] == got;
      case Deliver(event) =>
        Assoc(base.delivered, got, [event]);
        SomeEndsSnoc(got, event);
    }
  }

  lemma {:induction false} FramesReach(cfg: Config, base: Progress, raws: seq<SseEvent>) returns (k: nat)
    requires !base.Halted()
    ensures Dispatching(cfg, base, raws, k, base.Frames(cfg, raws))
    decreases |raws|
  {
    if raws == [] {
      assert base.delivered + [] == base.delivered;
      k := 0;
    } else {
      var n := |raws| - 1;
      k := FramesReach(cfg, base, raws[..n]);
      var p := base.Frames(cfg, raws[..n]);
      if p.Halted() {
        assert raws[..n][..k] == raws[..k];
      } else {
        FrameStep(cfg, base, raws[..n], raws[n], p);
        assert raws[..n] + [raws[n]] == raws;
        k := |raws|;
      }
    }
  }

  // ---------------------------------------------------------------- the invariant

  /** All that the native side sent for this stream before its call ended. */
  datatype Traffic = Traffic(text: string, ended: bool) {
    ghost function Next(cfg: Config, step: Step): Traffic {
      if ended then this
      else
        match step
        case Message(roomId, streamId, chunk) =>
          if roomId == cfg.roomId && streamId == cfg.streamId then Traffic(text + chunk, false) else this
        case Complete(tail) => Traffic(text + tail, true)
        case Break(_) => Traffic(text, true)
        case _ => this
    }
  }

  ghost function Sent(cfg: Config, steps: seq<Step>): Traffic {
    if steps == [] then Traffic("", false) else Sent(cfg, steps[..|steps| - 1]).Next(cfg, steps[|steps| - 1])
  }

  predicate Live(st: RoomState) {
    st.outcome.None? && st.failure.None? && !st.progress.aborted
  }

  /** While live, everything complete has been delivered. */
  ghost predicate LiveInv(cfg: Config, st: RoomState) {
    var raws := CompleteEvents(st.text);
    && st.buffer == Rest(st.text)
    && st.progress.delivered == Deliverables(cfg, raws) && NoEnd(cfg, raws)
  }

  ghost predicate Delivery(cfg: Config, raws: seq<SseEvent>, delivered: seq<RoomEvent>) {
    exists k :: Reached(cfg, raws, k, delivered)
  }

  ghost predicate SettledInv(cfg: Config, st: RoomState, sent: Traffic) {
    st.outcome == Some(Resolved) ==>
      && st.progress.terminal && st.failure.None? && sent.ended
      && (!st.progress.aborted ==>
            st.progress.delivered == Deliverables(cfg, AllEvents(sent.text)) && NoEnd(cfg, AllEvents(sent.text)))
  }

  ghost predicate Inv(cfg: Config, st: RoomState, sent: Traffic) {
    && st.progress.thrown.None?
    && (sent.ended ==> st.outcome.Some?)
    && (Live(st) ==> LiveInv(cfg, st) && st.text == sent.text)
    && Delivery(cfg, AllEvents(sent.text), st.progress.delivered)
    && (!sent.ended ==> Delivery(cfg, CompleteEvents(sent.text), st.progress.delivered))
    && (st.progress.terminal <==> SomeEndsRoomTurn(st.progress.delivered))
    && SettledInv(cfg, st, sent)
  }

  lemma DeliveryGrows(cfg: Config, a: seq<SseEvent>, b: seq<SseEvent>, delivered: seq<RoomEvent>)
    requires Delivery(cfg, a, delivered) && a <= b
    ensures Delivery(cfg, b, delivered)
  {
    var k :| Reached(cfg, a, k, delivered);
    ReachedMore(cfg, a, b, k, delivered);
  }

  lemma TrafficGrows(cfg: Config, text: string, chunk: string, delivered: seq<RoomEvent>)
    requires Delivery(cfg, CompleteEvents(text), delivered)
    ensures Delivery(cfg, CompleteEvents(text + chunk), delivered)
    ensures Delivery(cfg, AllEvents(text + chunk), delivered)
  {
    PushMeaning(text, chunk);
    DeliveryGrows(cfg, CompleteEvents(text), CompleteEvents(text + chunk), delivered);
    DeliveryGrows(cfg, CompleteEvents(text), AllEvents(text + chunk), delivered);
  }

  lemma SomeEndsConcat(a: seq<RoomEvent>, b: seq<RoomEvent>)
    ensures SomeEndsRoomTurn(a + b) <==> SomeEndsRoomTurn(a) || SomeEndsRoomTurn(b)
  {
    if SomeEndsRoomTurn(a) {
      var i :| 0 <= i < |a| && EndsATurn(a[i]);
      assert (a + b)[i] == a[i];
    }
    if SomeEndsRoomTurn(b) {
      var i :| 0 <= i < |b| && EndsATurn(b[i]);
      assert (a + b)[|a| + i] == b[i];
    }
  }

  /** Dispatching more frames after having dispatched all of done. */
  lemma ReachesFurther(cfg: Config, done: seq<SseEvent>, raws: seq<SseEvent>, base: Progress, k: nat, p: Progress)
    requires base.delivered == Deliverables(cfg, done) && NoEnd(cfg, done)
    requires base.terminal <==> SomeEndsRoomTurn(base.delivered)
    requires Dispatching(cfg, base, raws, k, p)
    ensures Delivery(cfg, done + raws, p.delivered)
    ensures !p.Halted() ==> p.delivered == Deliverables(cfg, done + raws) && NoEnd(cfg, done + raws)
    ensures p.terminal <==> SomeEndsRoomTurn(p.delivered)
  {
    var all := done + raws;
    assert all[..|done| + k] == done + raws[..k];
    DeliverablesConcat(cfg, done, raws[..k]);
    SomeEndsConcat(base.delivered, Deliverables(cfg, raws[..k]));
    assert Reached(cfg, all, |done| + k, p.delivered);
    if !p.Halted() {
      assert raws[..k] == raws;
    }
  }

  lemma MessageKeepsInv(cfg: Config, st: RoomState, sent: Traffic, chunk: string)
    requires Inv(cfg, st, sent) && Live(st)
    ensures Inv(cfg, ChunkReceived(cfg, st, chunk), Traffic(sent.text + chunk, false))
  {
    var buffer := st.buffer + chunk;
    TrafficGrows(cfg, sent.text, chunk, st.progress.delivered);
    if !Exceeds(|buffer|, Some(MAX_BUFFERED)) {
      PushMeaning(st.text, chunk);
      var done, raws := CompleteEvents(st.text), NewEvents(buffer);
      var k := FramesReach(cfg, st.progress, raws);
      ReachesFurther(cfg, done, raws, st.progress, k, st.progress.Frames(cfg, raws));
      MoreThanComplete(cfg, st.text + chunk, st.progress.Frames(cfg, raws).delivered);
    }
  }

  lemma MoreThanComplete(cfg: Config, text: string, delivered: seq<RoomEvent>)
    requires Delivery(cfg, CompleteEvents(text), delivered)
    ensures Delivery(cfg, AllEvents(text), delivered)
  {
    TrafficGrows(cfg, text, "", delivered);
    assert text + "" == text;
  }

  /** What the last dispatch has delivered, said of all that was sent. */
  lemma FlushReaches(cfg: Config, st: RoomState, tail: string)
    requires Live(st) && LiveInv(cfg, st) && st.progress.thrown.None?
    requires st.progress.terminal <==> SomeEndsRoomTurn(st.progress.delivered)
    ensures var p := st.progress.Frames(cfg, NewEvents(st.buffer + tail) + FlushEvents(Rest(st.buffer + tail)));
            && Delivery(cfg, AllEvents(st.text + tail), p.delivered)
            && (!p.Halted() ==>
                  p.delivered == Deliverables(cfg, AllEvents(st.text + tail)) && NoEnd(cfg, AllEvents(st.text + tail)))
            && (p.terminal <==> SomeEndsRoomTurn(p.delivered))
  {
    PushMeaning(st.text, tail);
    hide Deliverables, NoEnd, SomeEndsRoomTurn, Dispatching, Delivery;
    var done, raws := CompleteEvents(st.text), NewEvents(st.buffer + tail) + FlushEvents(Rest(st.buffer + tail));
    var k := FramesReach(cfg, st.progress, raws);
    ReachesFurther(cfg, done, raws, st.progress, k, st.progress.Frames(cfg, raws));
  }

  /** The call ends with nothing more dispatched. */
  lemma RejectedKeepsInv(cfg: Config, st: RoomState, sent: Traffic, st': RoomState, text: string)
    requires Inv(cfg, st, sent) && Delivery(cfg, AllEvents(text), st.progress.delivered)
    requires st'.progress == st.progress && st'.outcome.Some? && st'.outcome.value.Rejected?
    ensures Inv(cfg, st', Traffic(text, true))
  {
    hide Delivery, AllEvents, CompleteEvents, LiveInv, SomeEndsRoomTurn;
  }

  /** The call ends with a last dispatch. */
  lemma FlushKeepsInv(cfg: Config, st: RoomState, sent: Traffic, tail: string)
    requires Inv(cfg, st, sent) && Live(st) && !Exceeds(|st.buffer + tail|, Some(MAX_BUFFERED))
    ensures Inv(cfg, CallCompleted(cfg, st, tail), Traffic(sent.text + tail, true))
  {
    FlushReaches(cfg, st, tail);
    hide Deliverables, NoEnd, SomeEndsRoomTurn, Delivery, LiveInv, CompleteEvents, AllEvents, NewEvents, FlushEvents, Rest;
  }

  lemma CompleteKeepsInv(cfg: Config, st: RoomState, sent: Traffic, tail: string)
    requires Inv(cfg, st, sent) && st.outcome.None?
    ensures Inv(cfg, CallCompleted(cfg, st, tail), Traffic(sent.text + tail, true))
  {
    if Live(st) && !Exceeds(|st.buffer + tail|, Some(MAX_BUFFERED)) {
      FlushKeepsInv(cfg, st, sent, tail);
    } else {
      TrafficGrows(cfg, sent.text, tail, st.progress.delivered);
      hide Inv, Delivery, AllEvents, CompleteEvents;
      RejectedKeepsInv(cfg, st, sent, CallCompleted(cfg, st, tail), sent.text + tail);
    }
  }

  /** Every step keeps the invariant. */
  lemma StepKeepsInv(cfg: Config, st: RoomState, sent: Traffic, step: Step)
    requires Inv(cfg, st, sent)
    ensures Inv(cfg, Apply(cfg, st, step), sent.Next(cfg, step))
  {
    if step.Message? && step.roomId == cfg.roomId && step.streamId == cfg.streamId && !sent.ended {
      if Live(st) {
        MessageKeepsInv(cfg, st, sent, step.text);
      } else {
        TrafficGrows(cfg, sent.text, step.text, st.progress.delivered);
      }
    } else if step.Complete? && !sent.ended {
      if st.outcome.None? {
        CompleteKeepsInv(cfg, st, sent, step.tail);
      } else {
        TrafficGrows(cfg, sent.text, step.tail, st.progress.delivered);
      }
    }
  }

  lemma {:induction false} RunKeepsInv(cfg: Config, aborted: bool, steps: seq<Step>)
    ensures Inv(cfg, RoomRun(cfg, aborted, steps), Sent(cfg, steps))
    decreases |steps|
  {
    if steps == [] {
      NothingRead();
      assert AllEvents("") == [];
      assert Reached(cfg, [], 0, []);
    } else {
      var n := |steps| - 1;
      RunKeepsInv(cfg, aborted, steps[..n]);
      StepKeepsInv(cfg, RoomRun(cfg, aborted, steps[..n]), Sent(cfg, steps[..n]), steps[n]);
    }
  }

  // ---------------------------------------------------------------- the theorems

  /** Over every order of steps, what is delivered is a prefix of what the stream sent asks for. */
  lemma DeliversPrefix(cfg: Config, aborted: bool, steps: seq<Step>)
    ensures RoomRun(cfg, aborted, steps).progress.delivered <= Wanted(cfg, AllEvents(Sent(cfg, steps).text))
  {
    RunKeepsInv(cfg, aborted, steps);
    var raws, delivered := AllEvents(Sent(cfg, steps).text), RoomRun(cfg, aborted, steps).progress.delivered;
    var k :| Reached(cfg, raws, k, delivered);
    ReachedIsWanted(cfg, raws, k, delivered);
  }

  /** A stream resolves only after delivering an event that ends an agent turn, and, unless its
      signal is aborted, only after delivering everything, with no frame refused. */
  lemma ResolvesOnlyWhenDone(cfg: Config, aborted: bool, steps: seq<Step>)
    requires RoomRun(cfg, aborted, steps).outcome == Some(Resolved)
    ensures var st, raws := RoomRun(cfg, aborted, steps), AllEvents(Sent(cfg, steps).text);
            && SomeEndsRoomTurn(st.progress.delivered)
            && (!st.progress.aborted ==> NoEnd(cfg, raws) && st.progress.delivered == Wanted(cfg, raws))
  {
    RunKeepsInv(cfg, aborted, steps);
    if !RoomRun(cfg, aborted, steps).progress.aborted {
      NoEndWantsAll(cfg, AllEvents(Sent(cfg, steps).text));
    }
  }

  lemma {:induction false} SubscribeDelivers(cfg: Config, raws: seq<SseEvent>)
    requires cfg.operation.Subscribe?
    ensures forall e :: e in Deliverables(cfg, raws) ==> e.RoomUpdate?
    decreases |raws|
  {
    if raws != [] {
      SubscribeDelivers(cfg, raws[..|raws| - 1]);
    }
  }

  lemma SubscribeEndsNoTurn(cfg: Config, raws: seq<SseEvent>, delivered: seq<RoomEvent>)
    requires cfg.operation.Subscribe? && Delivery(cfg, raws, delivered)
    ensures !SomeEndsRoomTurn(delivered)
  {
    var k: nat :| Reached(cfg, raws, k, delivered);
    SubscribeDelivers(cfg, raws[..k]);
    forall i | 0 <= i < |delivered| ensures delivered[i].RoomUpdate? {
      assert delivered[i] in delivered;
    }
  }

  /** A subscription never resolves: it ends by a rejection. */
  lemma SubscribeNeverResolves(cfg: Config, aborted: bool, steps: seq<Step>)
    requires cfg.operation.Subscribe?
    ensures RoomRun(cfg, aborted, steps).outcome != Some(Resolved)
  {
    RunKeepsInv(cfg, aborted, steps);
    SubscribeEndsNoTurn(cfg, AllEvents(Sent(cfg, steps).text), RoomRun(cfg, aborted, steps).progress.delivered);
  }

  /** Nothing is delivered after the first failure, an abort or the settlement, whatever follows;
      and a settlement is final. */
  lemma {:induction false} NothingAfterHalt(cfg: Config, aborted: bool, steps: seq<Step>, more: seq<Step>)
    requires !Live(RoomRun(cfg, aborted, steps))
    ensures var st, st' := RoomRun(cfg, aborted, steps), RoomRun(cfg, aborted, steps + more);
            && !Live(st') && st'.progress.delivered == st.progress.delivered
            && (st.outcome.Some? ==> st'.outcome == st.outcome)
            && (st.failure.Some? ==> st'.failure == st.failure)
            && (st.outcome.None? && st.failure.Some? && st'.outcome.Some? ==> st'.outcome == Some(Rejected(st.failure.value)))
    decreases |more|
  {
    if more == [] {
      assert steps + more == steps;
    } else {
      var n := |more| - 1;
      NothingAfterHalt(cfg, aborted, steps, more[..n]);
      assert (steps + more)[..|steps + more| - 1] == steps + more[..n];
    }
  }

  // ---------------------------------------------------------------- when it resolves

  /** What is thrown at the last of these frames: at one that cannot be delivered its refusal, at one that
      is delivered what onEvent throws, or else that it is an agent error. */
  function FailureOf(cfg: Config, raws: seq<SseEvent>): Option<Thrown> {
    if raws == [] || raws[|raws| - 1].event == "reasoning_text" then None
    else
      var last := raws[|raws| - 1];
      var reaction := cfg.react(Deliverables(cfg, raws));
      match DeliveredBy(cfg, last)
      case None => Some(Refusal(cfg, last))
      case Some(event) =>
        if reaction.throws.Some? then reaction.throws
        else if IsAgentError(event) then Some(RoomError("native_room_dm_failed"))
        else None
  }

  predicate FailsAfter(cfg: Config, raws: seq<SseEvent>) {
    FailureOf(cfg, raws).Some?
  }

  /** onEvent aborts the signal at the last of these frames. */
  predicate AbortsAfter(cfg: Config, raws: seq<SseEvent>) {
    raws != [] && DeliveredBy(cfg, raws[|raws| - 1]).Some? && cfg.react(Deliverables(cfg, raws)).aborts
  }

  /** After the last of these frames no other is handled. */
  predicate HaltsAfter(cfg: Config, raws: seq<SseEvent>) {
    FailsAfter(cfg, raws) || AbortsAfter(cfg, raws)
  }

  function Halting(cfg: Config): seq<SseEvent> -> bool {
    raws => HaltsAfter(cfg, raws)
  }

  /** The frames that are handled: all of them, or those through the first that halts the stream. */
  function Handled(cfg: Config, raws: seq<SseEvent>): seq<SseEvent> {
    Callbacks.Given(Halting(cfg), raws)
  }

  const BEGIN := Progress([], false, false, None)

  /** The progress says what the handled frames ask for. */
  ghost predicate Means(cfg: Config, raws: seq<SseEvent>, p: Progress) {
    && p.delivered == Deliverables(cfg, Handled(cfg, raws))
    && (p.terminal <==> SomeEndsRoomTurn(p.delivered))
    && (p.Halted() <==> Callbacks.Thrown(Halting(cfg), raws))
    && p.thrown == FailureOf(cfg, Handled(cfg, raws))
    && (p.aborted <==> AbortsAfter(cfg, Handled(cfg, raws)))
  }

  lemma FrameMeans(cfg: Config, raws: seq<SseEvent>, raw: SseEvent, p: Progress)
    requires p.delivered == Deliverables(cfg, raws) && (p.terminal <==> SomeEndsRoomTurn(p.delivered)) && !p.Halted()
    ensures var all, p' := raws + [raw], p.Frame(cfg, raw);
            && p'.delivered == Deliverables(cfg, all)
            && (p'.terminal <==> SomeEndsRoomTurn(p'.delivered))
            && (p'.Halted() <==> HaltsAfter(cfg, all))
            && p'.thrown == FailureOf(cfg, all)
            && (p'.aborted <==> AbortsAfter(cfg, all))
  {
    var all := raws + [raw];
    assert all[..|raws|] == raws;
    WishIs(cfg, raw);
    match WishOf(cfg, raw)
    case Skip => assert p.delivered + [] == p.delivered;
    case Refuse(_) => assert p.delivered + [] == p.delivered;
    case Deliver(event) => SomeEndsSnoc(p.delivered, event);
  }

  /** One more frame, after frames of which none has halted the stream. */
  lemma MeansNext(cfg: Config, raws: seq<SseEvent>, raw: SseEvent, p: Progress)
    requires Means(cfg, raws, p) && !p.Halted()
    ensures Means(cfg, raws + [raw], p.Frame(cfg, raw))
  {
    hide Deliverables, FailureOf, AbortsAfter, HaltsAfter, SomeEndsRoomTurn, WishOf, Callbacks.FirstThrow;
    Callbacks.GivenNext(Halting(cfg), raws, raw);
    FrameMeans(cfg, raws, raw, p);
  }

  lemma {:induction false} FramesMean(cfg: Config, raws: seq<SseEvent>)
    ensures Means(cfg, raws, BEGIN.Frames(cfg, raws))
    decreases |raws|
  {
    if raws != [] {
      var n := |raws| - 1;
      var p := BEGIN.Frames(cfg, raws[..n]);
      FramesMean(cfg, raws[..n]);
      assert raws[..n] + [raws[n]] == raws;
      hide Deliverables, FailureOf, AbortsAfter, SomeEndsRoomTurn, WishOf, Callbacks.Given, Callbacks.Thrown;
      if p.Halted() {
        Callbacks.GivenStays(Halting(cfg), raws[..n], raws);
      } else {
        hide Means;
        MeansNext(cfg, raws[..n], raws[n], p);
      }
    }
  }

  lemma {:induction false} FramesConcat(cfg: Config, p: Progress, a: seq<SseEvent>, b: seq<SseEvent>)
    ensures p.Frames(cfg, a + b) == p.Frames(cfg, a).Frames(cfg, b)
    decreases |b|
  {
    if b == [] {
      assert a + b == a;
    } else {
      var n := |b| - 1;
      FramesConcat(cfg, p, a, b[..n]);
      assert (a + b)[..|a + b| - 1] == a + b[..n];
    }
  }

  ghost predicate InStep(cfg: Config, st: RoomState) {
    Live(st) ==> st.progress == BEGIN.Frames(cfg, CompleteEvents(st.text))
  }

  lemma StepProgress(cfg: Config, st: RoomState, step: Step)
    requires InStep(cfg, st) && (Live(st) ==> st.buffer == Rest(st.text))
    ensures InStep(cfg, Apply(cfg, st, step))
  {
    hide CompleteEvents, Rest, ChunkReceived, CallCompleted, ErrorCode;
    if Live(st) && step.Message? && step.roomId == cfg.roomId && step.streamId == cfg.streamId {
      ChunkProgress(cfg, st, step.text);
    } else if step.Complete? {
      EndedNotLive(cfg, st, step.tail);
    }
  }

  lemma EndedNotLive(cfg: Config, st: RoomState, tail: string)
    ensures CallCompleted(cfg, st, tail).outcome.Some?
  {
  }

  /** While a stream is live, its progress is that of the complete frames of what was sent. */
  lemma {:induction false} LiveProgress(cfg: Config, aborted: bool, steps: seq<Step>)
    ensures InStep(cfg, RoomRun(cfg, aborted, steps))
    decreases |steps|
  {
    if steps == [] {
      NothingRead();
    } else {
      var n := |steps| - 1;
      LiveProgress(cfg, aborted, steps[..n]);
      RunKeepsInv(cfg, aborted, steps[..n]);
      hide Apply, InStep, CompleteEvents, Delivery, NoEnd, SettledInv, SomeEndsRoomTurn, Deliverables;
      StepProgress(cfg, RoomRun(cfg, aborted, steps[..n]), steps[n]);
    }
  }

  lemma ChunkProgress(cfg: Config, st: RoomState, chunk: string)
    requires Live(st) && st.progress == BEGIN.Frames(cfg, CompleteEvents(st.text)) && st.buffer == Rest(st.text)
    ensures InStep(cfg, ChunkReceived(cfg, st, chunk))
  {
    PushMeaning(st.text, chunk);
    FramesConcat(cfg, BEGIN, CompleteEvents(st.text), NewEvents(st.buffer + chunk));
  }

  /** For any onEvent: the end of the call resolves a stream exactly when it is live, the last text fits
      the buffer, no frame fails, and some frame handled ends the turn. */
  lemma ResolvesIff(cfg: Config, aborted: bool, steps: seq<Step>, tail: string)
    requires RoomRun(cfg, aborted, steps).outcome.None?
    ensures var st, handled := RoomRun(cfg, aborted, steps), Handled(cfg, AllEvents(Sent(cfg, steps).text + tail));
            (RoomRun(cfg, aborted, steps + [Complete(tail)]).outcome == Some(Resolved)) <==>
            && Live(st) && !Exceeds(|st.buffer + tail|, Some(MAX_BUFFERED))
            && !FailsAfter(cfg, handled) && SomeEndsRoomTurn(Deliverables(cfg, handled))
  {
    var st := RoomRun(cfg, aborted, steps);
    CallStep(cfg, aborted, steps, tail);
    RunKeepsInv(cfg, aborted, steps);
    LiveProgress(cfg, aborted, steps);
    hide Handled, Deliverables, FailureOf, SomeEndsRoomTurn, RoomRun, Sent, Delivery, NoEnd, SettledInv;
    if Live(st) {
      CallEnds(cfg, st, tail);
    }
  }

  lemma CallStep(cfg: Config, aborted: bool, steps: seq<Step>, tail: string)
    requires RoomRun(cfg, aborted, steps).outcome.None?
    ensures RoomRun(cfg, aborted, steps + [Complete(tail)]) == CallCompleted(cfg, RoomRun(cfg, aborted, steps), tail)
  {
    assert (steps + [Complete(tail)])[..|steps|] == steps;
  }

  lemma CallEnds(cfg: Config, st: RoomState, tail: string)
    requires Live(st) && st.progress == BEGIN.Frames(cfg, CompleteEvents(st.text)) && st.buffer == Rest(st.text)
    ensures var handled := Handled(cfg, AllEvents(st.text + tail));
            (CallCompleted(cfg, st, tail).outcome == Some(Resolved)) <==>
            && !Exceeds(|st.buffer + tail|, Some(MAX_BUFFERED))
            && !FailsAfter(cfg, handled) && SomeEndsRoomTurn(Deliverables(cfg, handled))
  {
    hide Handled, Deliverables, FailureOf, AbortsAfter, SomeEndsRoomTurn;
    var buffer := st.buffer + tail;
    PushMeaning(st.text, tail);
    FramesConcat(cfg, BEGIN, CompleteEvents(st.text), NewEvents(buffer) + FlushEvents(Rest(buffer)));
    FramesMean(cfg, AllEvents(st.text + tail));
  }

  /** onEvent neither throws nor aborts. */
  ghost predicate QuietCaller(cfg: Config) {
    forall delivered :: cfg.react(delivered) == Reaction(false, None)
  }

  /** With a quiet caller all frames are handled unless one of them is refused or an error. */
  lemma QuietHandled(cfg: Config, raws: seq<SseEvent>)
    requires QuietCaller(cfg)
    ensures NoEnd(cfg, raws) ==> Handled(cfg, raws) == raws
    ensures FailsAfter(cfg, Handled(cfg, raws)) <==> !NoEnd(cfg, raws)
  {
    hide Deliverables, DeliveredBy;
    var k := Callbacks.FirstThrow(Halting(cfg), raws, 0);
    forall j | 0 <= j < |raws|
      ensures Callbacks.ThrowsAt(Halting(cfg), raws, j) <==> EndsStream(cfg, raws[j])
    {
    }
  }

  /** So with a quiet caller it resolves exactly when no frame is refused or an error and one of them
      ends the turn. */
  lemma QuietResolvesIff(cfg: Config, aborted: bool, steps: seq<Step>, tail: string)
    requires QuietCaller(cfg) && Live(RoomRun(cfg, aborted, steps))
    requires !Exceeds(|RoomRun(cfg, aborted, steps).buffer + tail|, Some(MAX_BUFFERED))
    ensures var raws := AllEvents(Sent(cfg, steps).text + tail);
            (RoomRun(cfg, aborted, steps + [Complete(tail)]).outcome == Some(Resolved)) <==>
            NoEnd(cfg, raws) && SomeEndsRoomTurn(Deliverables(cfg, raws))
  {
    hide RoomRun, Sent, Handled, FailureOf, Deliverables, SomeEndsRoomTurn, NoEnd;
    ResolvesIff(cfg, aborted, steps, tail);
    QuietHandled(cfg, AllEvents(Sent(cfg, steps).text + tail));
  }
}
