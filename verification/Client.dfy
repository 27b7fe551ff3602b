/** The backend's port: asked of the shell, announced by an event, and waited for. */
module Client {
  import opened Options
  import opened Settling

  datatype Outcome = Port(port: nat) | TimedOut

  /** asked counts the calls of getBackendPort; invoking are those whose question to the shell is open;
      waiters are the resolvers, by their calls; timers the calls whose timers run. */
  datatype State = State(
    cached: Option<nat>,
    asked: nat,
    invoking: set<nat>,
    waiters: seq<nat>,
    timers: set<nat>,
    log: seq<Settlement<Outcome>>)

  const START := State(None, 0, {}, [], {}, [])

  /** Answer: the shell's reply to one call, None if it has no port or fails; Ready: the event. */
  datatype Step = Ask | Answer(call: nat, port: Option<nat>) | Ready(announced: nat) | Timeout(call: nat)

  function Wake(waiters: seq<nat>, port: nat): seq<Settlement<Outcome>> {
    if waiters == [] then []
    else
      var n := |waiters| - 1;
      Wake(waiters[..n], port) + [Settlement(waiters[n], Port(port))]
  }

  function Members(s: seq<nat>): set<nat> {
    set x | x in s
  }

  function Apply(st: State, step: Step): State {
    match step
    case Ask =>
      if st.cached.Some? then
        st.(asked := st.asked + 1, log := st.log + [Settlement(st.asked, Port(st.cached.value))])
      else
        st.(asked := st.asked + 1, invoking := st.invoking + {st.asked})
    case Answer(call, port) =>
      if call !in st.invoking then st
      else if port.Some? then
        st.(cached := port, invoking := st.invoking - {call}, log := st.log + [Settlement(call, Port(port.value))])
      else
        st.(invoking := st.invoking - {call}, waiters := st.waiters + [call], timers := st.timers + {call})
    case Ready(port) =>
      st.(cached := Some(port), waiters := [], timers := st.timers - Members(st.waiters),
          log := st.log + Wake(st.waiters, port))
    case Timeout(call) =>
      if call !in st.timers then st
      else
        st.(waiters := Without(st.waiters, call), timers := st.timers - {call},
            log := st.log + [Settlement(call, TimedOut)])
  }

  function From(st: State, steps: seq<Step>): State {
    if steps == [] then st else Apply(From(st, steps[..|steps| - 1]), steps[|steps| - 1])
  }

  function Run(steps: seq<Step>): State {
    From(START, steps)
  }

  // ---------------------------------------------------------------- the module's own state

  class BackendClient {
    var cachedPort: Option<nat>
    var waitingResolvers: seq<nat>
    var asked: nat
    var invoking: set<nat>
    var timers: set<nat>
    ghost var log: seq<Settlement<Outcome>>

    ghost function Value(): State
      reads this
    {
      State(cachedPort, asked, invoking, waitingResolvers, timers, log)
    }

    constructor ()
      ensures Value() == START
    {
      cachedPort, waitingResolvers, asked, invoking, timers, log := None, [], 0, {}, {}, [];
    }

    /** The port if it is known already; otherwise the shell has been asked. */
    method GetBackendPort() returns (known: Option<nat>)
      modifies this
      ensures Value() == Apply(old(Value()), Ask) && known == old(cachedPort)
    {
      var call := asked;
      asked := asked + 1;
      if cachedPort.Some? {
        log := log + [Settlement(call, Port(cachedPort.value))];
        return cachedPort;
      }
      invoking := invoking + {call};
      return None;
    }

    method OnAnswer(call: nat, port: Option<nat>)
      modifies this
      ensures Value() == Apply(old(Value()), Answer(call, port))
    {
      if call in invoking {
        invoking := invoking - {call};
        if port.Some? {
          cachedPort := port;
          log := log + [Settlement(call, Port(port.value))];
        } else {
          timers := timers + {call};
          waitingResolvers := waitingResolvers + [call];
        }
      }
    }

    method OnReady(port: nat)
      modifies this
      ensures Value() == Apply(old(Value()), Ready(port))
    {
      cachedPort := Some(port);
      for i := 0 to |waitingResolvers|
        invariant waitingResolvers == old(waitingResolvers) && cachedPort == Some(port)
        invariant asked == old(asked) && invoking == old(invoking)
        invariant timers == old(timers) - Members(waitingResolvers[..i])
        invariant log == old(log) + Wake(waitingResolvers[..i], port)
      {
        assert waitingResolvers[..i + 1][..i] == waitingResolvers[..i];
        timers := timers - {waitingResolvers[i]};
        log := log + [Settlement(waitingResolvers[i], Port(port))];
      }
      assert waitingResolvers[..|waitingResolvers|] == waitingResolvers;
      waitingResolvers := [];
    }

    method OnTimeout(call: nat)
      modifies this
      ensures Value() == Apply(old(Value()), Timeout(call))
    {
      if call in timers {
        timers := timers - {call};
        waitingResolvers := Without(waitingResolvers, call);
        log := log + [Settlement(call, TimedOut)];
      }
    }
  }

  // ---------------------------------------------------------------- the invariant

  predicate Distinct(s: seq<nat>) {
    forall i, j :: 0 <= i < j < |s| ==> s[i] != s[j]
  }

  predicate Open(st: State, call: nat) {
    call in st.invoking || call in st.waiters
  }

  /** Each call is asking, waiting or settled; the waiting ones are those with a timer. */
  predicate Reached(st: State) {
    && Distinct(st.waiters)
    && st.timers == Members(st.waiters)
    && (forall call <- st.invoking :: call < st.asked && call !in st.waiters)
    && (forall call <- st.waiters :: call < st.asked)
    && (forall k :: 0 <= k < |st.log| ==> st.log[k].call < st.asked)
  }

  lemma {:induction false} WithoutDistinct(s: seq<nat>, value: nat)
    requires Distinct(s)
    ensures Distinct(Without(s, value))
    decreases |s|
  {
    if s != [] {
      var n := |s| - 1;
      WithoutDistinct(s[..n], value);
      WithoutMembers(s[..n], value);
      var before, after := Without(s[..n], value), Without(s, value);
      forall i, j | 0 <= i < j < |after|
        ensures after[i] != after[j]
      {
        assert after[i] == before[i] && before[i] in before;
        if j < |before| {
          assert after[j] == before[j];
        }
      }
    }
  }

  lemma {:induction false} WakeCalls(waiters: seq<nat>, port: nat)
    ensures |Wake(waiters, port)| == |waiters|
    ensures forall k :: 0 <= k < |waiters| ==> Wake(waiters, port)[k] == Settlement(waiters[k], Port(port))
    decreases |waiters|
  {
    if waiters != [] {
      WakeCalls(waiters[..|waiters| - 1], port);
    }
  }

  lemma LastIsNew(s: seq<nat>)
    requires Distinct(s) && s != []
    ensures Distinct(s[..|s| - 1]) && s[|s| - 1] !in s[..|s| - 1]
    ensures forall x :: x in s <==> x in s[..|s| - 1] || x == s[|s| - 1]
  {
    assert s == s[..|s| - 1] + [s[|s| - 1]];
  }

  lemma {:induction false} WakeOutcomes(waiters: seq<nat>, port: nat, call: nat)
    requires Distinct(waiters)
    ensures OutcomesOf(Wake(waiters, port), call) == if call in waiters then [Port(port)] else []
    decreases |waiters|
  {
    if waiters != [] {
      hide OutcomesOf, Distinct;
      var n := |waiters| - 1;
      LastIsNew(waiters);
      WakeOutcomes(waiters[..n], port, call);
      SettledOne(Wake(waiters[..n], port), Settlement(waiters[n], Port(port)), call);
    }
  }

  /** What a step says to a call that is asking, or waiting. */
  function Told(step: Step, call: nat, waiting: bool): Option<Outcome> {
    match step
    case Ask => None
    case Answer(c, port) => if !waiting && c == call && port.Some? then Some(Port(port.value)) else None
    case Ready(port) => if waiting then Some(Port(port)) else None
    case Timeout(c) => if waiting && c == call then Some(TimedOut) else None
  }

  lemma ReadyReached(st: State, port: nat)
    requires Reached(st)
    ensures Reached(Apply(st, Ready(port)))
  {
    WakeCalls(st.waiters, port);
    hide Wake;
    var st' := Apply(st, Ready(port));
    forall k | 0 <= k < |st'.log|
      ensures st'.log[k].call < st'.asked
    {
      if k >= |st.log| {
        assert st'.log[k] == Wake(st.waiters, port)[k - |st.log|];
        assert st.waiters[k - |st.log|] in st.waiters;
      }
    }
  }

  lemma StepReached(st: State, step: Step)
    requires Reached(st)
    ensures Reached(Apply(st, step))
  {
    match step
    case Ask =>
    case Answer(_, _) =>
    case Ready(port) => ReadyReached(st, port);
    case Timeout(call) =>
      WithoutDistinct(st.waiters, call);
      WithoutMembers(st.waiters, call);
  }

  /** What a step does to one call: settle it, or leave it open. */
  ghost predicate Follows(st: State, st': State, call: nat, told: Option<Outcome>) {
    && OutcomesOf(st'.log, call) == OutcomesOf(st.log, call) + Emit(told)
    && (Open(st', call) <==> Open(st, call) && told.None?)
    && (call in st.waiters && told.None? ==> call in st'.waiters)
  }

  lemma AnswerTells(st: State, c: nat, port: Option<nat>, call: nat)
    requires Reached(st) && c in st.invoking
    ensures Follows(st, Apply(st, Answer(c, port)), call, if c == call && port.Some? then Some(Port(port.value)) else None)
  {
    if port.Some? {
      SettledOne(st.log, Settlement(c, Port(port.value)), call);
    }
    hide OutcomesOf, Distinct;
  }

  lemma ReadyTells(st: State, port: nat, call: nat)
    requires Reached(st)
    ensures Follows(st, Apply(st, Ready(port)), call, if call in st.waiters then Some(Port(port)) else None)
  {
    OutcomesSplit(st.log, Wake(st.waiters, port), call);
    WakeOutcomes(st.waiters, port, call);
    hide OutcomesOf, Distinct, Wake;
  }

  lemma TimeoutTells(st: State, c: nat, call: nat)
    requires Reached(st) && c in st.timers
    ensures Follows(st, Apply(st, Timeout(c)), call, if c == call then Some(TimedOut) else None)
  {
    SettledOne(st.log, Settlement(c, TimedOut), call);
    WithoutMembers(st.waiters, c);
    hide OutcomesOf, Distinct, Without;
  }

  /** A step settles an open call exactly when it says something to it, and no other call. */
  lemma StepTells(st: State, step: Step, call: nat)
    requires Reached(st) && call < st.asked
    ensures Follows(st, Apply(st, step), call, if Open(st, call) then Told(step, call, call in st.waiters) else None)
  {
    match step
    case Ask =>
      if st.cached.Some? {
        SettledOne(st.log, Settlement(st.asked, Port(st.cached.value)), call);
      }
    case Answer(c, port) =>
      if c in st.invoking {
        AnswerTells(st, c, port, call);
        hide OutcomesOf;
      }
    case Ready(port) =>
      ReadyTells(st, port, call);
      hide OutcomesOf;
    case Timeout(c) =>
      if c in st.timers {
        TimeoutTells(st, c, call);
        hide OutcomesOf;
      }
  }

  lemma {:induction false} FromReached(st: State, steps: seq<Step>)
    requires Reached(st)
    ensures Reached(From(st, steps)) && st.asked <= From(st, steps).asked
    decreases |steps|
  {
    if steps != [] {
      FromReached(st, steps[..|steps| - 1]);
      StepReached(From(st, steps[..|steps| - 1]), steps[|steps| - 1]);
    }
  }

  // ---------------------------------------------------------------- theorems

  /** The call that a step makes. */
  lemma NewCall(st: State)
    requires Reached(st)
    ensures |OutcomesOf(Apply(st, Ask).log, st.asked)| == if Open(Apply(st, Ask), st.asked) then 0 else 1
  {
    NoOutcome(st.log, st.asked);
    if st.cached.Some? {
      SettledOne(st.log, Settlement(st.asked, Port(st.cached.value)), st.asked);
    }
  }

  /** Every call is settled exactly once or is still open. */
  lemma {:induction false} SettlesOnce(steps: seq<Step>, call: nat)
    requires call < Run(steps).asked
    ensures |OutcomesOf(Run(steps).log, call)| == if Open(Run(steps), call) then 0 else 1
    decreases |steps|
  {
    if steps != [] {
      hide Apply, Open, OutcomesOf, Told;
      var before, last := Run(steps[..|steps| - 1]), steps[|steps| - 1];
      FromReached(START, steps[..|steps| - 1]);
      if call < before.asked {
        SettlesOnce(steps[..|steps| - 1], call);
        StepTells(before, last, call);
      } else {
        AsksOnce(before, last);
        NewCall(before);
      }
    }
  }

  lemma AsksOnce(st: State, step: Step)
    ensures Apply(st, step).asked == if step == Ask then st.asked + 1 else st.asked
  {
  }

  /** The first announcement, or the call's own timeout, among the steps. */
  function Heard(steps: seq<Step>, call: nat): Option<Outcome> {
    if steps == [] then None
    else
      var before := Heard(steps[..|steps| - 1], call);
      if before.Some? then before else Told(steps[|steps| - 1], call, true)
  }

  /** A waiting call gets the port of the first announcement after it began to wait, unless its timeout
      comes first: no other call's answer reaches it, whatever it learns. */
  lemma {:induction false} WaiterHears(st: State, steps: seq<Step>, call: nat)
    requires Reached(st) && call in st.waiters
    ensures var after := From(st, steps);
            && OutcomesOf(after.log, call) == OutcomesOf(st.log, call) + Emit(Heard(steps, call))
            && (if Heard(steps, call).None? then call in after.waiters else !Open(after, call))
    decreases |steps|
  {
    if steps != [] {
      var before := steps[..|steps| - 1];
      WaiterHears(st, before, call);
      FromReached(st, before);
      StepTells(From(st, before), steps[|steps| - 1], call);
    }
  }

  /** Where a call stands that had to ask the shell. */
  datatype Standing = Asking | Waiting | Settled(outcome: Outcome)

  /** Its own answer settles it or makes it wait; then the next announcement settles it, or its timeout. */
  function StandingAfter(steps: seq<Step>, call: nat): Standing {
    if steps == [] then Asking
    else
      match (StandingAfter(steps[..|steps| - 1], call), steps[|steps| - 1])
      case (Asking, Answer(c, port)) =>
        if c != call then Asking else if port.Some? then Settled(Port(port.value)) else Waiting
      case (Waiting, Ready(port)) => Settled(Port(port))
      case (Waiting, Timeout(c)) => if c == call then Settled(TimedOut) else Waiting
      case (standing, _) => standing
  }

  ghost predicate Stands(st: State, call: nat, standing: Standing) {
    && (call in st.invoking <==> standing.Asking?)
    && (call in st.waiters <==> standing.Waiting?)
    && OutcomesOf(st.log, call) == if standing.Settled? then [standing.outcome] else []
  }

  /** Which calls ask and wait after a step. */
  lemma PlacesNext(st: State, step: Step, call: nat)
    requires Reached(st) && call < st.asked
    ensures var st' := Apply(st, step);
            && (call in st'.invoking <==>
                  call in st.invoking && !(step.Answer? && step.call == call))
            && (call in st'.waiters <==>
                  || (call in st.waiters && !step.Ready? && !(step.Timeout? && step.call == call))
                  || (call in st.invoking && step == Answer(call, None)))
  {
    if step.Timeout? {
      WithoutMembers(st.waiters, step.call);
    }
    hide Distinct, Wake;
  }

  lemma StandsStep(st: State, steps: seq<Step>, step: Step, call: nat)
    requires Reached(st) && call < st.asked && Stands(st, call, StandingAfter(steps, call))
    ensures Stands(Apply(st, step), call, StandingAfter(steps + [step], call))
  {
    assert (steps + [step])[..|steps|] == steps;
    StepTells(st, step, call);
    PlacesNext(st, step, call);
    hide OutcomesOf, Apply, Reached;
  }

  lemma {:induction false} CallStands(st: State, steps: seq<Step>, call: nat)
    requires Reached(st) && call < st.asked && Stands(st, call, Asking)
    ensures Stands(From(st, steps), call, StandingAfter(steps, call))
    decreases |steps|
  {
    if steps != [] {
      var n := |steps| - 1;
      CallStands(st, steps[..n], call);
      FromReached(st, steps[..n]);
      hide Stands, Apply, Reached;
      StandsStep(From(st, steps[..n]), steps[..n], steps[n], call);
      assert steps[..n] + [steps[n]] == steps;
    }
  }

  lemma {:induction false} SettledStays(st: State, steps: seq<Step>, call: nat)
    requires Reached(st) && call < st.asked && !Open(st, call)
    ensures OutcomesOf(From(st, steps).log, call) == OutcomesOf(st.log, call) && !Open(From(st, steps), call)
    decreases |steps|
  {
    if steps != [] {
      var n := |steps| - 1;
      SettledStays(st, steps[..n], call);
      FromReached(st, steps[..n]);
      hide OutcomesOf, Reached, Open, Apply;
      StepTells(From(st, steps[..n]), steps[n], call);
    }
  }

  lemma NewCallStands(st: State)
    requires Reached(st)
    ensures var st' := Apply(st, Ask);
            if st.cached.Some? then !Open(st', st.asked) && OutcomesOf(st'.log, st.asked) == [Port(st.cached.value)]
            else Stands(st', st.asked, Asking)
  {
    NoOutcome(st.log, st.asked);
    if st.cached.Some? {
      SettledOne(st.log, Settlement(st.asked, Port(st.cached.value)), st.asked);
    }
  }

  /** Every call, whatever comes before and after it: a known port is its one outcome at once; otherwise
      its own answer is, or, when that tells no port, the next announcement or its timeout. */
  lemma CallSettles(before: seq<Step>, more: seq<Step>)
    ensures var st, call := Run(before), Run(before).asked; var after := From(Apply(st, Ask), more);
            if st.cached.Some? then OutcomesOf(after.log, call) == [Port(st.cached.value)] && !Open(after, call)
            else Stands(after, call, StandingAfter(more, call))
  {
    var st, call := Run(before), Run(before).asked;
    FromReached(START, before);
    NewCallStands(st);
    StepReached(st, Ask);
    AsksOnce(st, Ask);
    hide Stands, Reached, Apply, Open, OutcomesOf;
    if st.cached.Some? {
      SettledStays(Apply(st, Ask), more, call);
    } else {
      CallStands(Apply(st, Ask), more, call);
    }
  }

  /** A call waits although the port is known. */
  predicate Stranded(st: State) {
    st.cached.Some? && st.waiters != []
  }

  /** It comes to that exactly when the shell's answer without a port arrives after the port has become
      known, or its answer with one while other calls wait. */
  lemma StrandsIff(st: State, step: Step)
    requires Reached(st) && !Stranded(st)
    ensures Stranded(Apply(st, step)) <==>
            step.Answer? && step.call in st.invoking &&
            (if step.port.None? then st.cached.Some? else st.waiters != [])
  {
    if step.Timeout? {
      WithoutMembers(st.waiters, step.call);
      if Without(st.waiters, step.call) != [] {
        assert Without(st.waiters, step.call)[0] in st.waiters;
      }
    }
  }

  /** It happens: an announcement between a question and its answer leaves the call waiting, with the
      port known, until its timeout. */
  lemma AnnouncedInBetween(port: nat)
    ensures var st := Apply(Apply(Apply(START, Ask), Ready(port)), Answer(0, None));
            Stranded(st) && st.cached == Some(port) && Apply(st, Timeout(0)).log == [Settlement(0, TimedOut)]
  {
    assert Without([0], 0) == [];
  }

  /** A step from which a port can be learned by those who knew one already: an announcement, or the
      answer to a question that was open at the start. */
  predicate TellsPort(st: State, step: Step, port: nat) {
    step == Ready(port) || (step.Answer? && step.call in st.invoking && step.port == Some(port))
  }

  /** Once the port is known no further question is asked: it changes only to a port that an announcement
      told, or the answer to a question asked before it was known. */
  lemma {:induction false} KnownPortStays(st: State, steps: seq<Step>)
    requires st.cached.Some?
    ensures var after := From(st, steps);
            && after.cached.Some? && after.invoking <= st.invoking
            && (after.cached == st.cached ||
                exists k :: 0 <= k < |steps| && TellsPort(st, steps[k], after.cached.value))
    decreases |steps|
  {
    if steps != [] {
      var n := |steps| - 1;
      KnownPortStays(st, steps[..n]);
      var before, after := From(st, steps[..n]), From(st, steps);
      if after.cached != before.cached {
        assert TellsPort(st, steps[n], after.cached.value);
      } else if before.cached != st.cached {
        var k :| 0 <= k < n && TellsPort(st, steps[..n][k], before.cached.value);
        assert TellsPort(st, steps[k], after.cached.value);
      }
    }
  }

  /** A step replaces a known port exactly when it tells another one. */
  lemma PortReplacedIff(st: State, step: Step)
    requires st.cached.Some?
    ensures Apply(st, step).cached != st.cached <==>
            exists port: nat :: TellsPort(st, step, port) && st.cached != Some(port)
  {
    if step.Ready? {
      assert TellsPort(st, step, step.announced);
    } else if step.Answer? && step.call in st.invoking && step.port.Some? {
      assert TellsPort(st, step, step.port.value);
    }
  }

  /** So an announced port can be lost to an older answer. */
  lemma OlderAnswerWins(before: nat, announced: nat)
    ensures Apply(Apply(Apply(START, Ask), Ready(announced)), Answer(0, Some(before))).cached == Some(before)
  {
  }
}
