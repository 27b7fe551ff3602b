/** What the chat reader comes to, told by the names of the events and the payload schemas. */
module ChatEvents {
  import opened Callbacks
  import opened Options
  import opened SseText
  import opened SseEvents
  import opened SseStream
  import opened LastSeparator
  import opened Chat
  import opened ChatChunking

  predicate Settles(ev: SseEvent) {
    ev.event == "done" || ev.event == "error"
  }

  function FirstSettled(events: seq<SseEvent>): (k: nat)
    ensures k <= |events|
    ensures k < |events| ==> Settles(events[k])
    ensures forall j :: 0 <= j < k ==> !Settles(events[j])
  {
    FirstIndex(events, Settles, 0)
  }

  /** The parsed texts of the text_delta events. */
  function Texts(sch: Schemas, events: seq<SseEvent>): seq<string> {
    if events == [] then []
    else
      var last := events[|events| - 1];
      Texts(sch, events[..|events| - 1]) + (if last.event == "text_delta" then Emit(sch.text(last.data)) else [])
  }

  /** A done without a reason of its own is a stop. */
  function ReasonOf(sch: Schemas, ev: SseEvent): string {
    if sch.done(ev.data).Some? then sch.done(ev.data).value else "stop"
  }

  /** An error that does not parse is the provider's. */
  function ErrorOf(sch: Schemas, ev: SseEvent): (string, string) {
    if sch.error(ev.data).Some? then sch.error(ev.data).value else ("provider_error", "provider error")
  }

  /** After the event at k come only events of names that the reader does not know. */
  predicate UnknownAfter(events: seq<SseEvent>, k: nat) {
    forall j :: k < j < |events| ==>
      events[j].event != "text_delta" && events[j].event != "done" && events[j].event != "error"
  }

  lemma StateNext(sch: Schemas, events: seq<SseEvent>, ev: SseEvent)
    ensures After(Effects(sch, events + [ev])) == After(Effects(sch, events)).Step(EffectOf(sch, ev))
    ensures Texts(sch, events + [ev]) ==
            Texts(sch, events) + (if ev.event == "text_delta" then Emit(sch.text(ev.data)) else [])
  {
    var effects := Effects(sch, events + [ev]);
    assert effects[..|events|] == Effects(sch, events);
    assert (events + [ev])[..|events|] == events;
  }

  /** Before anything settles, the texts so far have been delivered. */
  lemma {:induction false} OpenTold(sch: Schemas, events: seq<SseEvent>)
    requires forall i :: 0 <= i < |events| ==> !Settles(events[i])
    ensures After(Effects(sch, events)) == ChatState(Texts(sch, events), Open)
    decreases |events|
  {
    if events != [] {
      var n := |events| - 1;
      OpenTold(sch, events[..n]);
      StateNext(sch, events[..n], events[n]);
      assert events[..n] + [events[n]] == events;
      var texts := Texts(sch, events[..n]);
      assert texts + [] == texts;
    }
  }

  lemma EffectTold(sch: Schemas, ev: SseEvent)
    ensures ev.event == "done" ==> EffectOf(sch, ev) == Done(ReasonOf(sch, ev))
    ensures ev.event == "error" ==> EffectOf(sch, ev) == Failure(ErrorOf(sch, ev).0, ErrorOf(sch, ev).1)
    ensures ev.event !in {"text_delta", "done", "error"} ==> EffectOf(sch, ev) == Ignored
  {
  }

  lemma EarlierSettled(events: seq<SseEvent>, n: nat, k: nat)
    requires k == FirstSettled(events) < n <= |events|
    ensures FirstSettled(events[..n]) == k && events[..n][k] == events[k] && events[..n][..k] == events[..k]
    ensures UnknownAfter(events, k) ==> UnknownAfter(events[..n], k)
  {
  }

  /** The event that settles, and those after it that are unknown or come after an error. */
  lemma {:induction false} SettledTold(sch: Schemas, events: seq<SseEvent>, k: nat)
    requires k == FirstSettled(events) < |events|
    requires events[k].event == "done" ==> UnknownAfter(events, k)
    ensures After(Effects(sch, events)) ==
            ChatState(Texts(sch, events[..k]),
                      if events[k].event == "done" then Finished(ReasonOf(sch, events[k]))
                      else Failed(ErrorOf(sch, events[k]).0, ErrorOf(sch, events[k]).1))
    decreases |events|
  {
    var n := |events| - 1;
    StateNext(sch, events[..n], events[n]);
    assert events[..n] + [events[n]] == events;
    EffectTold(sch, events[n]);
    hide EffectOf, Effects, After, Texts, ErrorOf, ReasonOf, FirstIndex;
    if k == n {
      OpenTold(sch, events[..n]);
    } else {
      EarlierSettled(events, n, k);
      SettledTold(sch, events[..n], k);
    }
  }

  /** All the events of a stream, or those complete when a read fails. */
  ghost function EventsTold(chunks: seq<string>, readFails: bool): seq<SseEvent> {
    if readFails then CompleteEvents(Concat(chunks)) else AllEvents(Concat(chunks))
  }

  lemma CompleteFirst(s: string)
    ensures CompleteEvents(s) <= AllEvents(s)
  {
    PrefixEvents(s, "");
    assert s + "" == s;
  }

  /** However the stream is cut, the events read are all of them, or some that have settled it. */
  lemma EndsAtPrefix(sch: Schemas, chunks: seq<string>, readFails: bool) returns (m: nat)
    ensures var events := EventsTold(chunks, readFails);
            && m <= |events|
            && AtEnd(sch, chunks, readFails) == After(Effects(sch, events[..m]))
            && (m < |events| ==> !After(Effects(sch, events[..m])).outcome.Open?)
  {
    var complete, events := CompleteEvents(Concat(chunks)), EventsTold(chunks, readFails);
    var n := ReadingPrefix(sch, chunks);
    CompleteFirst(Concat(chunks));
    EffectsPrefix(sch, complete, events, n);
    hide CompleteEvents, AllEvents, Reading, EffectOf, After;
    assert events[..|events|] == events;
    m := if Reading(sch, chunks).outcome.Open? then |events| else n;
    if Reading(sch, chunks).outcome.Open? {
      assert Effects(sch, complete)[..n] == Effects(sch, complete);
    }
  }

  lemma {:induction false} UnsettledOpen(sch: Schemas, events: seq<SseEvent>, m: nat)
    requires m <= FirstSettled(events)
    ensures After(Effects(sch, events[..m])).outcome.Open?
  {
    OpenTold(sch, events[..m]);
  }

  /** The texts before the first event named done or error. */
  function TextsTold(sch: Schemas, events: seq<SseEvent>): seq<string> {
    Texts(sch, events[..FirstSettled(events)])
  }

  /** A stream without a done or error event is disconnected, unless a read failed. */
  function ResultTold(sch: Schemas, events: seq<SseEvent>, readFails: bool): Result {
    var k := FirstSettled(events);
    if k == |events| then (if readFails then ReadRejected else Resolved("disconnected"))
    else if events[k].event == "error" then Rejected(ErrorOf(sch, events[k]).0, ErrorOf(sch, events[k]).1)
    else Resolved(ReasonOf(sch, events[k]))
  }

  /** For every chunking and any callback: the deltas and the result are the texts before the first event
      named done or error and what that event says, as long as nothing known follows a done. */
  lemma StreamTold(sch: Schemas, throws: seq<string> -> bool, chunks: seq<string>, readFails: bool)
    requires var events := EventsTold(chunks, readFails); var k := FirstSettled(events);
             k < |events| && events[k].event == "done" ==> UnknownAfter(events, k)
    ensures var st, events := AtEnd(sch, chunks, readFails), EventsTold(chunks, readFails);
            && st.deltas == TextsTold(sch, events)
            && Chat.Settles(throws, st, readFails) ==
               if Thrown(throws, TextsTold(sch, events)) then CallbackThrew else ResultTold(sch, events, readFails)
  {
    var events := EventsTold(chunks, readFails);
    var k := FirstSettled(events);
    var m := EndsAtPrefix(sch, chunks, readFails);
    hide AtEnd, EventsTold, Effects, After, Texts, Thrown;
    if m <= k {
      UnsettledOpen(sch, events, m);
      assert events[..m] == events;
      OpenTold(sch, events);
    } else {
      assert FirstSettled(events[..m]) == k;
      SettledTold(sch, events[..m], k);
      assert events[..m][..k] == events[..k];
    }
  }
}
