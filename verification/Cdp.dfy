/** The requests of a CDP client: many at a time over one socket, settled in any order. */
module Cdp {
  import opened Options
  import opened Settling

  datatype CdpError = CdpError(code: int, message: string, data: Option<string>)

  datatype Outcome =
    | Resolved(result: string)
    | ProtocolFailure(command: string, error: CdpError)
    | TimedOut(command: string)
    | SendFailed(command: string)
    | NotOpen(command: string)
    | InvalidResponse
    | SocketClosed
    | TransportFailure

  datatype Message =
    | Malformed
    | Reply(id: int, error: Option<CdpError>, result: string)
    | Notice(command: string, params: string)

  /** call is the position of the call of send that made the request. */
  datatype Request = Request(call: nat, command: string)

  /** calls holds, for each call of send so far, its id, or 0 if it was refused at once. */
  datatype State = State(
    pending: map<int, Request>,
    timers: map<int, Request>,
    nextId: nat,
    closed: bool,
    calls: seq<nat>,
    log: seq<Settlement<Outcome>>)

  const START := State(map[], map[], 0, false, [], [])

  /** open: the socket is open when send is called; throws: writing to it raises. */
  datatype Step =
    | Send(command: string, open: bool, throws: bool)
    | Receive(message: Message)
    | Timeout(id: int)
    | Close
    | SocketError

  /** The settlements of the pending requests with ids up to n, all with one outcome, in order of id. */
  function Drain(pending: map<int, Request>, n: nat, outcome: Outcome): seq<Settlement<Outcome>> {
    if n == 0 then []
    else Drain(pending, n - 1, outcome) + (if n in pending then [Settlement(pending[n].call, outcome)] else [])
  }

  function RejectAll(st: State, outcome: Outcome): State {
    st.(pending := map[], timers := st.timers - st.pending.Keys,
        log := st.log + Drain(st.pending, st.nextId, outcome))
  }

  /** A settled request loses its entry and its timer. */
  function Settle(st: State, id: int, request: Request, outcome: Outcome): State {
    st.(pending := st.pending - {id}, timers := st.timers - {id},
        log := st.log + [Settlement(request.call, outcome)])
  }

  function ReplyOutcome(command: string, error: Option<CdpError>, result: string): Outcome {
    if error.Some? then ProtocolFailure(command, error.value) else Resolved(result)
  }

  function Apply(st: State, step: Step): State {
    match step
    case Send(command, open, throws) =>
      var call := |st.calls|;
      if st.closed || !open then
        st.(calls := st.calls + [0], log := st.log + [Settlement(call, NotOpen(command))])
      else
        var id := st.nextId + 1;
        if throws then
          st.(nextId := id, pending := st.pending - {id}, timers := st.timers - {id}, calls := st.calls + [id],
              log := st.log + [Settlement(call, SendFailed(command))])
        else
          st.(nextId := id, pending := st.pending[id := Request(call, command)],
              timers := st.timers[id := Request(call, command)], calls := st.calls + [id])
    case Receive(Malformed) => RejectAll(st, InvalidResponse)
    case Receive(Reply(id, error, result)) =>
      if id in st.pending then Settle(st, id, st.pending[id], ReplyOutcome(st.pending[id].command, error, result))
      else st
    case Receive(Notice(_, _)) => st
    case Timeout(id) =>
      if id in st.timers then Settle(st, id, st.timers[id], TimedOut(st.timers[id].command)) else st
    case Close => RejectAll(st.(closed := true), SocketClosed)
    case SocketError => RejectAll(st, TransportFailure)
  }

  function From(st: State, steps: seq<Step>): State {
    if steps == [] then st else Apply(From(st, steps[..|steps| - 1]), steps[|steps| - 1])
  }

  function Run(steps: seq<Step>): State {
    From(START, steps)
  }

  // ---------------------------------------------------------------- the client

  class CdpClient {
    var pending: map<int, Request>
    /** The timers that have neither fired nor been cleared, with what their callbacks hold. */
    var timers: map<int, Request>
    var nextId: nat
    var closed: bool
    ghost var calls: seq<nat>
    ghost var log: seq<Settlement<Outcome>>

    ghost function Value(): State
      reads this
    {
      State(pending, timers, nextId, closed, calls, log)
    }

    constructor ()
      ensures Value() == START
    {
      pending, timers, nextId, closed, calls, log := map[], map[], 0, false, [], [];
    }

    method Send(call: nat, command: string, open: bool, throws: bool) returns (refused: Option<Outcome>)
      requires call == |calls|
      modifies this
      ensures Value() == Apply(old(Value()), Step.Send(command, open, throws))
      ensures refused.Some? <==> old(closed) || !open || throws
      ensures refused.Some? ==> log == old(log) + [Settlement(call, refused.value)]
    {
      if closed || !open {
        calls, log := calls + [0], log + [Settlement(call, NotOpen(command))];
        return Some(NotOpen(command));
      }
      nextId := nextId + 1;
      timers := timers[nextId := Request(call, command)];
      pending := pending[nextId := Request(call, command)];
      calls := calls + [nextId];
      if throws {
        timers, pending := timers - {nextId}, pending - {nextId};
        log := log + [Settlement(call, SendFailed(command))];
        return Some(SendFailed(command));
      }
      return None;
    }

    /** Rejects what is pending in the order the requests were made, which is the order of their ids. */
    method RejectAllPending(outcome: Outcome)
      requires InRange(pending, nextId)
      modifies this`pending, this`timers, this`log
      ensures Value() == RejectAll(old(Value()), outcome)
    {
      for id := 0 to nextId
        invariant pending == old(pending)
        invariant log == old(log) + Drain(pending, id, outcome)
        invariant timers == old(timers) - (set i <- pending.Keys | i <= id)
      {
        if id + 1 in pending {
          timers := timers - {id + 1};
          log := log + [Settlement(pending[id + 1].call, outcome)];
        }
      }
      pending := map[];
    }

    method OnMessage(message: Message)
      requires InRange(pending, nextId)
      modifies this
      ensures Value() == Apply(old(Value()), Receive(message))
    {
      match message
      case Malformed =>
        RejectAllPending(InvalidResponse);
      case Reply(id, error, result) =>
        if id in pending {
          var request := pending[id];
          timers, pending := timers - {id}, pending - {id};
          if error.Some? {
            log := log + [Settlement(request.call, ProtocolFailure(request.command, error.value))];
          } else {
            log := log + [Settlement(request.call, Resolved(result))];
          }
        }
      case Notice(_, _) =>
    }

    /** The callback of a timer, if it has not been cleared. */
    method OnTimeout(id: int)
      modifies this
      ensures Value() == Apply(old(Value()), Timeout(id))
    {
      if id in timers {
        var request := timers[id];
        timers, pending := timers - {id}, pending - {id};
        log := log + [Settlement(request.call, TimedOut(request.command))];
      }
    }

    method OnClose()
      requires InRange(pending, nextId)
      modifies this
      ensures Value() == Apply(old(Value()), Close)
    {
      closed := true;
      RejectAllPending(SocketClosed);
    }

    method OnError()
      requires InRange(pending, nextId)
      modifies this
      ensures Value() == Apply(old(Value()), SocketError)
    {
      RejectAllPending(TransportFailure);
    }
  }

  // ---------------------------------------------------------------- the invariant

  predicate InRange(pending: map<int, Request>, nextId: nat) {
    forall id <- pending :: 0 < id <= nextId
  }

  /** Ids are in range, each pending request is that of the call with its id, and its timer runs. */
  predicate Reached(st: State) {
    && InRange(st.pending, st.nextId)
    && st.timers == st.pending
    && (st.closed ==> st.pending == map[])
    && (forall c :: 0 <= c < |st.calls| ==> st.calls[c] <= st.nextId)
    && (forall c :: 0 <= c < |st.calls| && st.calls[c] in st.pending ==> st.pending[st.calls[c]].call == c)
    && (forall id <- st.pending :: st.pending[id].call < |st.calls| && st.calls[st.pending[id].call] == id)
    && (forall k :: 0 <= k < |st.log| ==> st.log[k].call < |st.calls|)
  }

  /** Draining settles each pending call once, and no other. */
  lemma {:induction false} DrainOutcomes(st: State, n: nat, outcome: Outcome, call: nat)
    requires Reached(st) && call < |st.calls|
    ensures OutcomesOf(Drain(st.pending, n, outcome), call) ==
            if st.calls[call] <= n && st.calls[call] in st.pending then [outcome] else []
    decreases n
  {
    if n > 0 {
      DrainOutcomes(st, n - 1, outcome, call);
      var before := Drain(st.pending, n - 1, outcome);
      if n in st.pending {
        assert (before + [Settlement(st.pending[n].call, outcome)])[..|before|] == before;
      } else {
        assert before + [] == before;
      }
    }
  }

  lemma {:induction false} DrainCalls(st: State, n: nat, outcome: Outcome)
    requires Reached(st)
    ensures forall k :: 0 <= k < |Drain(st.pending, n, outcome)| ==> Drain(st.pending, n, outcome)[k].call < |st.calls|
    decreases n
  {
    if n > 0 {
      DrainCalls(st, n - 1, outcome);
    }
  }

  // ---------------------------------------------------------------- one step

  /** What a step says about the request with this id. */
  function Verdict(step: Step, id: int, command: string): Option<Outcome> {
    match step
    case Send(_, _, _) => None
    case Receive(Malformed) => Some(InvalidResponse)
    case Receive(Reply(i, None, result)) => if i == id then Some(Resolved(result)) else None
    case Receive(Reply(i, Some(error), _)) => if i == id then Some(ProtocolFailure(command, error)) else None
    case Receive(Notice(_, _)) => None
    case Timeout(i) => if i == id then Some(TimedOut(command)) else None
    case Close => Some(SocketClosed)
    case SocketError => Some(TransportFailure)
  }

  lemma RejectReached(st: State, outcome: Outcome)
    requires Reached(st)
    ensures Reached(RejectAll(st, outcome)) && Reached(RejectAll(st, outcome).(closed := true))
  {
    DrainCalls(st, st.nextId, outcome);
    assert st.pending - st.pending.Keys == map[];
  }

  lemma SendReached(st: State, step: Step)
    requires Reached(st) && step.Send?
    ensures Reached(Apply(st, step))
  {
  }

  lemma StepReached(st: State, step: Step)
    requires Reached(st)
    ensures Reached(Apply(st, step))
  {
    match step
    case Send(_, _, _) => SendReached(st, step);
    case Receive(Malformed) => RejectReached(st, InvalidResponse);
    case Receive(_) =>
    case Timeout(_) =>
    case Close => RejectReached(st, SocketClosed);
    case SocketError => RejectReached(st, TransportFailure);
  }

  /** What a step does to one call: settle it, or leave its request as it is. */
  ghost predicate Follows(st: State, st': State, call: nat, verdict: Option<Outcome>)
    requires call < |st.calls|
  {
    var id := st.calls[call];
    var told := if id in st.pending then verdict else None;
    && st.calls <= st'.calls
    && OutcomesOf(st'.log, call) == OutcomesOf(st.log, call) + Emit(told)
    && (id in st'.pending <==> id in st.pending && told.None?)
    && (id in st'.pending ==> st'.pending[id] == st.pending[id])
  }

  lemma RejectVerdict(st: State, outcome: Outcome, call: nat)
    requires Reached(st) && call < |st.calls|
    ensures Follows(st, RejectAll(st, outcome), call, Some(outcome))
  {
    OutcomesSplit(st.log, Drain(st.pending, st.nextId, outcome), call);
    DrainOutcomes(st, st.nextId, outcome, call);
  }

  lemma SettleVerdict(st: State, id: int, outcome: Outcome, call: nat)
    requires Reached(st) && call < |st.calls| && id in st.pending
    ensures Follows(st, Settle(st, id, st.pending[id], outcome), call,
                    if st.calls[call] == id then Some(outcome) else None)
  {
    SettledOne(st.log, Settlement(st.pending[id].call, outcome), call);
  }

  lemma SendVerdict(st: State, step: Step, call: nat)
    requires Reached(st) && call < |st.calls| && step.Send?
    ensures Follows(st, Apply(st, step), call, None)
  {
    SettledOne(st.log, Settlement(|st.calls|, NotOpen(step.command)), call);
    SettledOne(st.log, Settlement(|st.calls|, SendFailed(step.command)), call);
  }

  /** A step settles a call exactly when its request is pending and the step says something about it;
      the request stays pending otherwise. */
  lemma StepVerdict(st: State, step: Step, call: nat)
    requires Reached(st) && call < |st.calls|
    ensures var id := st.calls[call];
            Follows(st, Apply(st, step), call,
                    if id in st.pending then Verdict(step, id, st.pending[id].command) else None)
  {
    match step
    case Send(_, _, _) => SendVerdict(st, step, call);
    case Receive(Malformed) => RejectVerdict(st, InvalidResponse, call);
    case Receive(Reply(id, error, result)) =>
      if id in st.pending {
        SettleVerdict(st, id, ReplyOutcome(st.pending[id].command, error, result), call);
      }
    case Receive(Notice(_, _)) =>
    case Timeout(id) =>
      if id in st.pending {
        SettleVerdict(st, id, TimedOut(st.pending[id].command), call);
      }
    case Close => RejectVerdict(st, SocketClosed, call);
    case SocketError => RejectVerdict(st, TransportFailure, call);
  }

  // ---------------------------------------------------------------- theorems

  lemma {:induction false} FromReached(st: State, steps: seq<Step>)
    requires Reached(st)
    ensures Reached(From(st, steps)) && st.calls <= From(st, steps).calls
    decreases |steps|
  {
    if steps != [] {
      FromReached(st, steps[..|steps| - 1]);
      StepReached(From(st, steps[..|steps| - 1]), steps[|steps| - 1]);
    }
  }

  /** The first thing that the steps after a request say about it. */
  function Fate(steps: seq<Step>, id: int, command: string): Option<Outcome> {
    if steps == [] then None
    else
      var before := Fate(steps[..|steps| - 1], id, command);
      if before.Some? then before else Verdict(steps[|steps| - 1], id, command)
  }

  /** From then on a pending request is settled by the first step that says something about it, once,
      and by no other. */
  lemma {:induction false} SettledByFate(st: State, steps: seq<Step>, call: nat)
    requires Reached(st) && call < |st.calls| && st.calls[call] in st.pending
    ensures Follows(st, From(st, steps), call, Fate(steps, st.calls[call], st.pending[st.calls[call]].command))
    decreases |steps|
  {
    if steps != [] {
      var before := steps[..|steps| - 1];
      SettledByFate(st, before, call);
      FromReached(st, before);
      StepVerdict(From(st, before), steps[|steps| - 1], call);
    }
  }

  /** A call whose request is not pending stays as settled as it is. */
  lemma {:induction false} SettledStays(st: State, steps: seq<Step>, call: nat)
    requires Reached(st) && call < |st.calls| && st.calls[call] !in st.pending
    ensures Follows(st, From(st, steps), call, None)
    decreases |steps|
  {
    if steps != [] {
      var before := steps[..|steps| - 1];
      SettledStays(st, before, call);
      FromReached(st, before);
      StepVerdict(From(st, before), steps[|steps| - 1], call);
    }
  }

  lemma FreshCall(st: State, step: Step)
    requires Reached(st) && step.Send?
    ensures var st', call := Apply(st, step), |st.calls|;
            && |st'.calls| == call + 1
            && OutcomesOf(st'.log, call) ==
               (if st.closed || !step.open then [NotOpen(step.command)]
                else if step.throws then [SendFailed(step.command)]
                else [])
            && (OutcomesOf(st'.log, call) == [] ==>
                  st'.calls[call] == st.nextId + 1 && st'.calls[call] in st'.pending &&
                  st'.pending[st'.calls[call]] == Request(call, step.command))
            && (OutcomesOf(st'.log, call) != [] ==> st'.calls[call] !in st'.pending)
  {
    NoOutcome(st.log, |st.calls|);
    SettledOne(st.log, Settlement(|st.calls|, NotOpen(step.command)), |st.calls|);
    SettledOne(st.log, Settlement(|st.calls|, SendFailed(step.command)), |st.calls|);
  }

  /** What the attempts to settle a call of send come to, when these steps follow it. */
  function Settlements(st: State, step: Step, more: seq<Step>): seq<Outcome>
    requires step.Send?
  {
    if st.closed || !step.open then [NotOpen(step.command)]
    else if step.throws then [SendFailed(step.command)]
    else Emit(Fate(more, st.nextId + 1, step.command))
  }

  lemma SentSettles(st: State, step: Step, more: seq<Step>)
    requires Reached(st) && step.Send? && !st.closed && step.open && !step.throws
    ensures var after := From(Apply(st, step), more);
            && |after.calls| > |st.calls|
            && OutcomesOf(after.log, |st.calls|) == Settlements(st, step, more)
            && (after.calls[|st.calls|] in after.pending <==> OutcomesOf(after.log, |st.calls|) == [])
  {
    hide Reached, Apply, From, OutcomesOf, Fate;
    FreshCall(st, step);
    StepReached(st, step);
    SettledByFate(Apply(st, step), more, |st.calls|);
  }

  lemma RefusedSettles(st: State, step: Step, more: seq<Step>)
    requires Reached(st) && step.Send? && (st.closed || !step.open || step.throws)
    ensures var after := From(Apply(st, step), more);
            && |after.calls| > |st.calls|
            && OutcomesOf(after.log, |st.calls|) == Settlements(st, step, more)
            && (after.calls[|st.calls|] in after.pending <==> OutcomesOf(after.log, |st.calls|) == [])
  {
    hide Reached, Apply, From, OutcomesOf, Fate;
    FreshCall(st, step);
    StepReached(st, step);
    SettledStays(Apply(st, step), more, |st.calls|);
  }

  /** Exactly-once settlement: over every run, all the attempts to settle one call of send are at most
      one, made by the first step after it that answers it, times it out or brings the socket down;
      no other request, late answer or unknown id has a part in it. It is pending until then. */
  lemma EachCallSettles(before: seq<Step>, step: Step, more: seq<Step>)
    requires step.Send?
    ensures var st, after := Run(before), From(Apply(Run(before), step), more);
            && |after.calls| > |st.calls|
            && OutcomesOf(after.log, |st.calls|) == Settlements(st, step, more)
            && (after.calls[|st.calls|] in after.pending <==> OutcomesOf(after.log, |st.calls|) == [])
  {
    var st := Run(before);
    FromReached(START, before);
    if st.closed || !step.open || step.throws {
      RefusedSettles(st, step, more);
    } else {
      SentSettles(st, step, more);
    }
  }

  /** The step is about the request with this id: it answers it, times it out or brings the socket down. */
  predicate About(step: Step, id: int) {
    || step == Receive(Malformed) || step == Timeout(id) || step == Close || step == SocketError
    || Replies(step, id)
  }

  lemma {:induction false} FateIs(steps: seq<Step>, id: int, command: string, k: nat)
    requires k < |steps| && About(steps[k], id) && forall i :: 0 <= i < k ==> !About(steps[i], id)
    ensures Fate(steps, id, command) == Verdict(steps[k], id, command)
    ensures Fate(steps[..k], id, command).None?
    decreases |steps|
  {
    var n := |steps| - 1;
    if k < n {
      assert steps[..n][..k] == steps[..k];
      FateIs(steps[..n], id, command, k);
    } else {
      Undecided(steps[..n], id, command);
    }
  }

  lemma {:induction false} Undecided(steps: seq<Step>, id: int, command: string)
    requires forall i :: 0 <= i < |steps| ==> !About(steps[i], id)
    ensures Fate(steps, id, command).None?
    decreases |steps|
  {
    if steps != [] {
      Undecided(steps[..|steps| - 1], id, command);
    }
  }

  /** A reply with this id. */
  predicate Replies(step: Step, id: int) {
    step.Receive? && step.message.Reply? && step.message.id == id
  }

  lemma SentCall(st: State, step: Step)
    requires step.Send? && !st.closed && step.open && !step.throws
    ensures var calls := Apply(st, step).calls; |calls| == |st.calls| + 1 && calls[|st.calls|] == st.nextId + 1
  {
  }

  /** When the first later step about an accepted call is a reply with its id, its one settlement is the
      result of a reply without an error, and otherwise the failure of its own command with that error. */
  lemma RepliedCall(before: seq<Step>, step: Step, more: seq<Step>, k: nat)
    requires step.Send? && !Run(before).closed && step.open && !step.throws && k < |more|
    requires var id := Run(before).nextId + 1;
             && Replies(more[k], id) && forall i :: 0 <= i < k ==> !About(more[i], id)
    ensures var st, after := Run(before), From(Apply(Run(before), step), more);
            var reply := more[k].message;
            && |Apply(st, step).calls| == |st.calls| + 1 && Apply(st, step).calls[|st.calls|] == st.nextId + 1
            && OutcomesOf(after.log, |st.calls|) ==
               [if reply.error.None? then Resolved(reply.result) else ProtocolFailure(step.command, reply.error.value)]
  {
    SentCall(Run(before), step);
    hide Run, From, OutcomesOf, Apply, Fate;
    EachCallSettles(before, step, more);
    FateIs(more, Run(before).nextId + 1, step.command, k);
  }

  /** No timer outlives its request, and none is missing. */
  lemma TimersArePending(steps: seq<Step>)
    ensures Run(steps).timers == Run(steps).pending
  {
    FromReached(START, steps);
  }

  /** A closed socket leaves nothing pending and takes no more requests. */
  lemma {:induction false} ClosedForGood(st: State, more: seq<Step>)
    requires Reached(st)
    ensures var after := From(Apply(st, Close), more);
            after.closed && after.pending == map[] && after.nextId == st.nextId
    decreases |more|
  {
    StepReached(st, Close);
    if more != [] {
      ClosedForGood(st, more[..|more| - 1]);
      FromReached(Apply(st, Close), more[..|more| - 1]);
      StepReached(From(Apply(st, Close), more[..|more| - 1]), more[|more| - 1]);
    }
  }
}
