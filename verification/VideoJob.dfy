/** A video job: a worker thread, the reader of its progress queue, and cancellers, in any order. */
module VideoJob {
  import opened Options

  const CANCELLED := "video_generation_cancelled"

  /** What the worker puts in the queue; End is the sentinel. */
  datatype Item = Fraction(value: real) | End

  datatype Event = Started | Progress(value: real) | Done(bytes: string) | Failed(message: string) | Cancelled

  /** Checking: about to look at the cancellation; Leaving: its outcome is known; Left: it has
      deregistered the job; Gone: it has queued the sentinel. */
  datatype Worker = Unborn | Checking | Generating | Leaving | Left | Gone

  datatype Reader = Opening | Reading | Closed

  /** registered: the job is in the registry; cancellers: those that have found it there but not yet
      set its flag; accepted: the fractions of the progress callbacks that were not refused. */
  datatype Job = Job(
    registered: bool,
    flag: bool,
    cancellers: nat,
    queue: seq<Item>,
    result: Option<string>,
    error: Option<string>,
    worker: Worker,
    reader: Reader,
    emitted: seq<Event>,
    accepted: seq<real>)

  const START := Job(true, false, 0, [], None, None, Unborn, Opening, [], [])

  datatype Step =
    | Open
    | Check
    | Callback(value: real)
    | Return(bytes: string)
    | Raise(message: string)
    | Deregister
    | Finish
    | Read
    | FindJob
    | SetFlag

  /** The last event of a stream. */
  function LastEvent(job: Job): Event {
    match job.error
    case Some(message) => if message == CANCELLED then Cancelled else Failed(message)
    case None => Done(if job.result.Some? then job.result.value else "")
  }

  function Apply(job: Job, step: Step): Job {
    match step
    case Open =>
      if job.reader.Opening? then job.(emitted := job.emitted + [Started], reader := Reading, worker := Checking) else job
    case Check =>
      if !job.worker.Checking? then job
      else if job.flag then job.(error := Some(CANCELLED), worker := Leaving)
      else job.(worker := Generating)
    case Callback(value) =>
      if !job.worker.Generating? then job
      else if job.flag then job.(error := Some(CANCELLED), worker := Leaving)
      else job.(queue := job.queue + [Fraction(value)], accepted := job.accepted + [value])
    case Return(bytes) =>
      if job.worker.Generating? then job.(result := Some(bytes), worker := Leaving) else job
    case Raise(message) =>
      if job.worker.Generating? then job.(error := Some(message), worker := Leaving) else job
    case Deregister =>
      if job.worker.Leaving? then job.(registered := false, worker := Left) else job
    case Finish =>
      if job.worker.Left? then job.(queue := job.queue + [End], worker := Gone) else job
    case Read =>
      if !job.reader.Reading? || job.queue == [] then job
      else if job.queue[0].End? then
        job.(queue := job.queue[1..], emitted := job.emitted + [LastEvent(job)], reader := Closed)
      else
        job.(queue := job.queue[1..], emitted := job.emitted + [Progress(job.queue[0].value)])
    case FindJob => if job.registered then job.(cancellers := job.cancellers + 1) else job
    case SetFlag => if job.cancellers > 0 then job.(cancellers := job.cancellers - 1, flag := true) else job
  }

  function Run(steps: seq<Step>): Job {
    if steps == [] then START else Apply(Run(steps[..|steps| - 1]), steps[|steps| - 1])
  }

  // ---------------------------------------------------------------- the job's shared state

  class VideoJobState {
    var registered: bool
    var cancellation: bool
    var progQueue: seq<Item>
    var resultHolder: Option<string>
    var errorHolder: Option<string>
    var worker: Worker
    var reader: Reader
    var emitted: seq<Event>
    var cancellers: nat
    ghost var accepted: seq<real>

    ghost function Value(): Job
      reads this
    {
      Job(registered, cancellation, cancellers, progQueue, resultHolder, errorHolder, worker, reader, emitted,
          accepted)
    }

    constructor ()
      ensures Value() == START
    {
      registered, cancellation, progQueue, resultHolder, errorHolder := true, false, [], None, None;
      worker, reader, emitted, cancellers, accepted := Unborn, Opening, [], 0, [];
    }

    /** The stream's first event, and the start of the worker. */
    method OpenStream()
      modifies this
      ensures Value() == Apply(old(Value()), Open)
    {
      if reader.Opening? {
        emitted := emitted + [Started];
        reader := Reading;
        worker := Checking;
      }
    }

    method CheckCancellation()
      modifies this
      ensures Value() == Apply(old(Value()), Check)
    {
      if worker.Checking? {
        if cancellation {
          Refuse();
        } else {
          worker := Generating;
        }
      }
    }

    method Refuse()
      modifies this`errorHolder, this`worker
      ensures errorHolder == Some(CANCELLED) && worker == Leaving
    {
      errorHolder, worker := Some(CANCELLED), Leaving;
    }

    method OnProgress(value: real)
      modifies this
      ensures Value() == Apply(old(Value()), Callback(value))
    {
      if worker.Generating? {
        if cancellation {
          Refuse();
        } else {
          progQueue := progQueue + [Fraction(value)];
          accepted := accepted + [value];
        }
      }
    }

    /** The generation returns its bytes, or raises. */
    method OnGenerated(outcome: Step)
      requires outcome.Return? || outcome.Raise?
      modifies this
      ensures Value() == Apply(old(Value()), outcome)
    {
      if worker.Generating? {
        if outcome.Return? {
          resultHolder := Some(outcome.bytes);
        } else {
          errorHolder := Some(outcome.message);
        }
        worker := Leaving;
      }
    }

    method PopJob()
      modifies this
      ensures Value() == Apply(old(Value()), Deregister)
    {
      if worker.Leaving? {
        registered := false;
        worker := Left;
      }
    }

    method PutSentinel()
      modifies this
      ensures Value() == Apply(old(Value()), Finish)
    {
      if worker.Left? {
        progQueue := progQueue + [End];
        worker := Gone;
      }
    }

    /** One turn of the stream's loop, when the queue has an item. */
    method ReadNext()
      modifies this
      ensures Value() == Apply(old(Value()), Read)
    {
      if reader.Reading? && progQueue != [] {
        var item := progQueue[0];
        progQueue := progQueue[1..];
        if item.Fraction? {
          emitted := emitted + [Progress(item.value)];
        } else {
          reader := Closed;
          var last;
          if errorHolder.Some? {
            last := if errorHolder.value == CANCELLED then Cancelled else Failed(errorHolder.value);
          } else {
            last := Done(if resultHolder.Some? then resultHolder.value else "");
          }
          emitted := emitted + [last];
        }
      }
    }

    /** The first half of a cancellation, under the registry's lock; its reply says what it found. */
    method FindToCancel() returns (found: bool)
      modifies this
      ensures Value() == Apply(old(Value()), FindJob) && found == old(registered)
    {
      found := registered;
      if found {
        cancellers := cancellers + 1;
      }
    }

    method SetCancellation()
      modifies this
      ensures Value() == Apply(old(Value()), SetFlag)
    {
      if cancellers > 0 {
        cancellers := cancellers - 1;
        cancellation := true;
      }
    }
  }

  // ---------------------------------------------------------------- the invariant

  function ProgressOf(fractions: seq<real>): seq<Event> {
    if fractions == [] then []
    else ProgressOf(fractions[..|fractions| - 1]) + [Progress(fractions[|fractions| - 1])]
  }

  /** The events before the last one, for a reader that has read these fractions. */
  function Opened(fractions: seq<real>): seq<Event> {
    [Started] + ProgressOf(fractions)
  }

  function Queued(fractions: seq<real>): seq<Item> {
    if fractions == [] then []
    else Queued(fractions[..|fractions| - 1]) + [Fraction(fractions[|fractions| - 1])]
  }

  /** read is how many fractions the reader has read. */
  predicate Reached(job: Job, read: nat) {
    && read <= |job.accepted|
    && job.queue == Queued(job.accepted[read..]) + (if job.worker.Gone? && !job.reader.Closed? then [End] else [])
    && job.emitted ==
         (match job.reader
          case Opening => []
          case Reading => Opened(job.accepted[..read])
          case Closed => Opened(job.accepted) + [LastEvent(job)])
    && (job.reader.Closed? ==> job.worker.Gone? && read == |job.accepted|)
  }

  /** What the worker has noted of its outcome, and the registry entry. */
  predicate Noted(job: Job) {
    && (job.reader.Opening? <==> job.worker.Unborn?)
    && (job.registered <==> !job.worker.Left? && !job.worker.Gone?)
    && (if job.worker in {Leaving, Left, Gone} then (job.error.Some? <==> job.result.None?)
        else job.error.None? && job.result.None?)
    && (job.worker in {Unborn, Checking} ==> job.accepted == [])
  }

  lemma QueuedFirst(fractions: seq<real>)
    requires fractions != []
    ensures Queued(fractions) == [Fraction(fractions[0])] + Queued(fractions[1..])
    decreases |fractions|
  {
    var n := |fractions| - 1;
    if n == 0 {
      assert fractions[..0] == [] && fractions[1..] == [];
    } else {
      QueuedFirst(fractions[..n]);
      assert fractions[..n][1..] == fractions[1..][..n - 1];
      Assoc([Fraction(fractions[0])], Queued(fractions[1..][..n - 1]), [Fraction(fractions[n])]);
    }
  }

  lemma QueuedSnoc(fractions: seq<real>, value: real)
    ensures Queued(fractions + [value]) == Queued(fractions) + [Fraction(value)]
  {
    assert (fractions + [value])[..|fractions|] == fractions;
  }

  lemma AcceptedMore(job: Job, read: nat, value: real)
    requires Reached(job, read) && job.worker.Generating?
    ensures Reached(job.(queue := job.queue + [Fraction(value)], accepted := job.accepted + [value]), read)
  {
    hide Queued, Opened;
    var rest, rest' := job.accepted[read..], (job.accepted + [value])[read..];
    assert rest' == rest + [value];
    QueuedSnoc(rest, value);
    assert (job.accepted + [value])[..read] == job.accepted[..read];
    assert Queued(rest) + [] == Queued(rest) && Queued(rest') + [] == Queued(rest');
  }

  lemma QueuedFrom(fractions: seq<real>, n: nat)
    requires n < |fractions|
    ensures Queued(fractions[n..]) == [Fraction(fractions[n])] + Queued(fractions[n + 1..])
  {
    QueuedFirst(fractions[n..]);
    assert fractions[n..][1..] == fractions[n + 1..];
  }

  lemma OpenedNext(fractions: seq<real>, n: nat)
    requires n < |fractions|
    ensures Opened(fractions[..n + 1]) == Opened(fractions[..n]) + [Progress(fractions[n])]
  {
    assert fractions[..n + 1][..n] == fractions[..n];
    Assoc([Started], ProgressOf(fractions[..n]), [Progress(fractions[n])]);
  }

  lemma ReadFraction(job: Job, read: nat)
    requires Reached(job, read) && job.reader.Reading? && read < |job.accepted|
    ensures job.queue != [] && job.queue[0] == Fraction(job.accepted[read])
    ensures Reached(Apply(job, Read), read + 1)
  {
    QueuedFrom(job.accepted, read);
    OpenedNext(job.accepted, read);
    hide Queued, Opened, ProgressOf;
    var first, more := Fraction(job.accepted[read]), Queued(job.accepted[read + 1..]);
    var tail := if job.worker.Gone? then [End] else [];
    assert [first] + more + tail == [first] + (more + tail);
  }

  lemma ReadEnd(job: Job)
    requires Reached(job, |job.accepted|) && job.reader.Reading? && job.queue != []
    ensures Reached(Apply(job, Read), |job.accepted|)
  {
    assert job.accepted[|job.accepted|..] == [];
    assert job.accepted[..|job.accepted|] == job.accepted;
    assert job.queue == [] + [End] == [End];
  }

  lemma ReadOne(job: Job, read: nat) returns (read': nat)
    requires Reached(job, read) && job.reader.Reading? && job.queue != []
    ensures Reached(Apply(job, Read), read')
  {
    if read < |job.accepted| {
      ReadFraction(job, read);
      read' := read + 1;
    } else {
      ReadEnd(job);
      read' := read;
    }
  }

  lemma ReachStep(job: Job, read: nat, step: Step) returns (read': nat)
    requires Reached(job, read) && Noted(job)
    ensures Reached(Apply(job, step), read')
  {
    read' := read;
    match step
    case Callback(value) =>
      if job.worker.Generating? && !job.flag {
        AcceptedMore(job, read, value);
      }
    case Read =>
      if job.reader.Reading? && job.queue != [] {
        read' := ReadOne(job, read);
      }
    case Open =>
      if job.reader.Opening? {
        assert job.accepted[..0] == [];
        read' := 0;
      }
    case _ =>
  }

  lemma NotedStep(job: Job, step: Step)
    requires Noted(job)
    ensures Noted(Apply(job, step))
  {
  }

  lemma {:induction false} RunReaches(steps: seq<Step>) returns (read: nat)
    ensures Noted(Run(steps)) && Reached(Run(steps), read)
    decreases |steps|
  {
    if steps == [] {
      read := 0;
    } else {
      var some, last := steps[..|steps| - 1], steps[|steps| - 1];
      read := RunReaches(some);
      NotedStep(Run(some), last);
      read := ReachStep(Run(some), read, last);
    }
  }

  // ---------------------------------------------------------------- the theorems

  /** A fully read stream is: started, the progress of every accepted callback in order, and one
      last event, which tells the worker's outcome. Before that it is a prefix of this. */
  lemma StreamShape(steps: seq<Step>)
    ensures var job := Run(steps);
            if job.reader.Closed? then
              && job.emitted == [Started] + ProgressOf(job.accepted) + [LastEvent(job)]
              && (job.error.Some? <==> job.result.None?)
            else
              job.emitted <= [Started] + ProgressOf(job.accepted)
  {
    var read := RunReaches(steps);
    var job := Run(steps);
    ProgressPrefix(job.accepted, read);
  }

  lemma {:induction false} ProgressPrefix(fractions: seq<real>, n: nat)
    requires n <= |fractions|
    ensures ProgressOf(fractions[..n]) <= ProgressOf(fractions)
    decreases |fractions|
  {
    if n == |fractions| {
      assert fractions[..n] == fractions;
    } else {
      ProgressPrefix(fractions[..|fractions| - 1], n);
      assert fractions[..|fractions| - 1][..n] == fractions[..n];
    }
  }

  /** The job has left the registry before its sentinel is in the queue, so nobody that reads the
      last event can still find it. */
  lemma DeregisteredFirst(steps: seq<Step>)
    ensures var job := Run(steps); End in job.queue || job.reader.Closed? ==> !job.registered
  {
    var read := RunReaches(steps);
    NoEndQueued(Run(steps).accepted[read..]);
  }

  lemma {:induction false} NoEndQueued(fractions: seq<real>)
    ensures End !in Queued(fractions)
    decreases |fractions|
  {
    if fractions != [] {
      NoEndQueued(fractions[..|fractions| - 1]);
    }
  }

  /** The reader never waits for a worker that is gone. */
  lemma NoStarvation(steps: seq<Step>)
    ensures var job := Run(steps); job.worker.Gone? && job.reader.Reading? ==> job.queue != []
  {
    var read := RunReaches(steps);
  }

  predicate EndedBy(job: Job, event: Event) {
    job.emitted != [] && job.emitted[|job.emitted| - 1] == event
  }

  /** The worker looks at the flag: before it generates, or in a progress callback. */
  predicate Looks(job: Job, step: Step) {
    (step.Check? && job.worker.Checking?) || (step.Callback? && job.worker.Generating?)
  }

  /** The worker meets the flag set, or the backend raises the very message of a cancellation. */
  predicate Cancels(job: Job, step: Step) {
    (job.flag && Looks(job, step)) || (step == Raise(CANCELLED) && job.worker.Generating?)
  }

  predicate CancelledAt(steps: seq<Step>, k: nat)
    requires k < |steps|
  {
    Cancels(Run(steps[..k]), steps[k])
  }

  lemma ErrorStep(job: Job, step: Step)
    requires Noted(job) && job.error.Some?
    ensures Apply(job, step).error == job.error
  {
  }

  /** The outcome of a worker that has one stays. */
  lemma {:induction false} ErrorStays(steps: seq<Step>, n: nat)
    requires n <= |steps| && Run(steps[..n]).error == Some(CANCELLED)
    ensures Run(steps).error == Some(CANCELLED)
    decreases |steps| - n
  {
    if n == |steps| {
      assert steps[..n] == steps;
    } else {
      var read := RunReaches(steps[..n]);
      RunFirst(steps, n);
      ErrorStep(Run(steps[..n]), steps[n]);
      hide Apply, Noted, Reached;
      ErrorStays(steps, n + 1);
    }
  }

  lemma {:induction false} CancelledSomewhere(steps: seq<Step>) returns (k: nat)
    requires Run(steps).error == Some(CANCELLED)
    ensures k < |steps| && CancelledAt(steps, k)
    decreases |steps|
  {
    var n := |steps| - 1;
    if Run(steps[..n]).error == Some(CANCELLED) {
      k := CancelledSomewhere(steps[..n]);
      assert steps[..n][..k] == steps[..k];
    } else {
      k := n;
    }
  }

  lemma ErrorHolds(steps: seq<Step>)
    requires Run(steps).reader.Closed?
    ensures EndedBy(Run(steps), Cancelled) <==> Run(steps).error == Some(CANCELLED)
  {
    StreamShape(steps);
  }

  lemma CancelsNow(job: Job, step: Step)
    requires Cancels(job, step)
    ensures Apply(job, step).error == Some(CANCELLED)
  {
  }

  lemma CancelledHolds(steps: seq<Step>, k: nat)
    requires k < |steps| && CancelledAt(steps, k)
    ensures Run(steps).error == Some(CANCELLED)
  {
    hide Apply, Cancels;
    RunFirst(steps, k);
    CancelsNow(Run(steps[..k]), steps[k]);
    ErrorStays(steps, k + 1);
  }

  lemma RunFirst(steps: seq<Step>, k: nat)
    requires k < |steps|
    ensures Run(steps[..k + 1]) == Apply(Run(steps[..k]), steps[k])
  {
    assert steps[..k + 1][..k] == steps[..k];
  }

  /** A stream ends in cancelled exactly when the worker at some point met the flag set, before it
      generated or in a progress callback, or the backend raised that very message itself. */
  lemma CancelledIff(steps: seq<Step>)
    requires Run(steps).reader.Closed?
    ensures EndedBy(Run(steps), Cancelled) <==> exists k :: 0 <= k < |steps| && CancelledAt(steps, k)
  {
    hide Run, EndedBy, CancelledAt;
    ErrorHolds(steps);
    if Run(steps).error == Some(CANCELLED) {
      var k := CancelledSomewhere(steps);
    }
    forall k | 0 <= k < |steps| && CancelledAt(steps, k)
      ensures Run(steps).error == Some(CANCELLED)
    {
      CancelledHolds(steps, k);
    }
  }

  lemma OutcomeStep(job: Job, step: Step)
    requires Noted(job) && (job.result.Some? || job.error.Some?)
    ensures Apply(job, step).result == job.result && Apply(job, step).error == job.error
  {
  }

  /** The backend returns, or raises, at step k. */
  predicate EndsAt(steps: seq<Step>, k: nat, step: Step)
    requires k < |steps|
  {
    steps[k] == step && Run(steps[..k]).worker.Generating?
  }

  lemma {:induction false} OutcomeHolds(steps: seq<Step>, n: nat)
    requires n <= |steps| && (Run(steps[..n]).result.Some? || Run(steps[..n]).error.Some?)
    ensures Run(steps).result == Run(steps[..n]).result && Run(steps).error == Run(steps[..n]).error
    decreases |steps| - n
  {
    if n == |steps| {
      assert steps[..n] == steps;
    } else {
      var read := RunReaches(steps[..n]);
      RunFirst(steps, n);
      OutcomeStep(Run(steps[..n]), steps[n]);
      hide Apply, Noted, Reached;
      OutcomeHolds(steps, n + 1);
    }
  }

  lemma OutcomeBegins(job: Job, step: Step)
    requires job.result.None? && job.error.None?
    ensures var job' := Apply(job, step);
            && (job'.result.Some? ==> step == Return(job'.result.value) && job.worker.Generating?)
            && (job'.error.Some? && job'.error != Some(CANCELLED) ==>
                  step == Raise(job'.error.value) && job.worker.Generating?)
  {
  }

  lemma {:induction false} OutcomeFrom(steps: seq<Step>) returns (k: nat)
    requires Run(steps).result.Some? || (Run(steps).error.Some? && Run(steps).error != Some(CANCELLED))
    ensures k < |steps|
    ensures Run(steps).result.Some? ==> EndsAt(steps, k, Return(Run(steps).result.value))
    ensures Run(steps).result.None? ==> EndsAt(steps, k, Raise(Run(steps).error.value))
    decreases |steps|
  {
    var n := |steps| - 1;
    var before := Run(steps[..n]);
    var read := RunReaches(steps[..n]);
    hide Apply, Noted, Reached;
    if before.result.Some? || before.error.Some? {
      OutcomeStep(before, steps[n]);
      k := OutcomeFrom(steps[..n]);
      assert steps[..n][..k] == steps[..k];
    } else {
      OutcomeBegins(before, steps[n]);
      k := n;
    }
  }

  lemma EndsNow(steps: seq<Step>, k: nat, step: Step)
    requires k < |steps| && EndsAt(steps, k, step) && (step.Return? || step.Raise?)
    ensures step.Return? ==> Run(steps).result == Some(step.bytes) && Run(steps).error.None?
    ensures step.Raise? ==> Run(steps).error == Some(step.message)
  {
    var read := RunReaches(steps[..k]);
    RunFirst(steps, k);
    OutcomeHolds(steps, k + 1);
  }

  /** A fully read stream ends in done with exactly the bytes that the backend returned, and in an error
      with exactly the message that it raised, other than that of a cancellation. */
  lemma OutcomeIff(steps: seq<Step>, text: string)
    requires Run(steps).reader.Closed?
    ensures EndedBy(Run(steps), Done(text)) <==> exists k :: 0 <= k < |steps| && EndsAt(steps, k, Return(text))
    ensures EndedBy(Run(steps), Failed(text)) <==>
            text != "video_generation_cancelled" && exists k :: 0 <= k < |steps| && EndsAt(steps, k, Raise(text))
  {
    StreamShape(steps);
    var job := Run(steps);
    hide Run, EndsAt;
    if EndedBy(job, Done(text)) || EndedBy(job, Failed(text)) {
      var k := OutcomeFrom(steps);
    }
    forall k | 0 <= k < |steps| && EndsAt(steps, k, Return(text))
      ensures EndedBy(job, Done(text))
    {
      EndsNow(steps, k, Return(text));
    }
    forall k | 0 <= k < |steps| && EndsAt(steps, k, Raise(text))
      ensures job.error == Some(text)
    {
      EndsNow(steps, k, Raise(text));
    }
  }

  /** The cancellers that found the job in the registry, and those of them that have set the flag. */
  function Found(steps: seq<Step>): nat {
    if steps == [] then 0
    else
      var before := steps[..|steps| - 1];
      Found(before) + (if steps[|steps| - 1].FindJob? && Run(before).registered then 1 else 0)
  }

  function Flagged(steps: seq<Step>): nat {
    if steps == [] then 0
    else
      var before := steps[..|steps| - 1];
      Flagged(before) + (if steps[|steps| - 1].SetFlag? && Flagged(before) < Found(before) then 1 else 0)
  }

  lemma CancellerNext(job: Job, step: Step)
    ensures var job' := Apply(job, step);
            && job'.cancellers - job.cancellers ==
               (if step.FindJob? && job.registered then 1 else if step.SetFlag? && job.cancellers > 0 then -1 else 0)
            && (job'.flag <==> job.flag || (step.SetFlag? && job.cancellers > 0))
  {
  }

  /** The flag is set exactly when some canceller that found the job, while it was registered, has gone on
      to set it. */
  lemma {:induction false} FlagIff(steps: seq<Step>)
    ensures Flagged(steps) <= Found(steps) && Run(steps).cancellers == Found(steps) - Flagged(steps)
    ensures Run(steps).flag <==> Flagged(steps) > 0
    decreases |steps|
  {
    if steps != [] {
      hide Apply;
      FlagIff(steps[..|steps| - 1]);
      CancellerNext(Run(steps[..|steps| - 1]), steps[|steps| - 1]);
    }
  }

  /** The values of the progress callbacks made while generating with the flag unset. */
  function CallbackValues(steps: seq<Step>): seq<real> {
    if steps == [] then []
    else
      var before, last := steps[..|steps| - 1], steps[|steps| - 1];
      CallbackValues(before) +
      (if last.Callback? && Run(before).worker.Generating? && !Run(before).flag then [last.value] else [])
  }

  lemma AcceptedNext(job: Job, step: Step)
    ensures Apply(job, step).accepted ==
            job.accepted + (if step.Callback? && job.worker.Generating? && !job.flag then [step.value] else [])
  {
    assert job.accepted + [] == job.accepted;
  }

  lemma {:induction false} AcceptedAre(steps: seq<Step>)
    ensures Run(steps).accepted == CallbackValues(steps)
    decreases |steps|
  {
    if steps != [] {
      hide Apply;
      AcceptedAre(steps[..|steps| - 1]);
      AcceptedNext(Run(steps[..|steps| - 1]), steps[|steps| - 1]);
    }
  }

  /** So the progress of a fully read stream is that of every callback made while generating with the flag
      unset, in order. */
  lemma ProgressTells(steps: seq<Step>)
    requires Run(steps).reader.Closed?
    ensures exists last :: Run(steps).emitted == [Started] + ProgressOf(CallbackValues(steps)) + [last]
  {
    StreamShape(steps);
    AcceptedAre(steps);
  }

  /** So a cancellation set before some later look at it never ends in done: a fully read stream ends in
      cancelled. */
  lemma CancellationHolds(steps: seq<Step>, look: Step, more: seq<Step>)
    requires Run(steps).flag && Looks(Run(steps), look)
    ensures var job := Run(steps + [look] + more); job.reader.Closed? ==> EndedBy(job, Cancelled)
  {
    var all := steps + [look] + more;
    assert all[..|steps|] == steps;
    assert CancelledAt(all, |steps|);
    if Run(all).reader.Closed? {
      CancelledIff(all);
    }
  }

  /** A cancellation that was answered as found need not cancel: the worker may never look again. */
  lemma FoundIsNotCancelled(bytes: string)
    ensures var steps := [Open, Check, FindJob, SetFlag, Return(bytes), Deregister, Finish, Read];
            && Run(steps[..3]).cancellers == 1
            && Run(steps).flag && Run(steps).emitted == [Started, Done(bytes)]
  {
    var steps := [Open, Check, FindJob, SetFlag, Return(bytes), Deregister, Finish, Read];
    Prefixes(steps);
    assert Run(steps[..2]) == START.(emitted := [Started], reader := Reading, worker := Generating);
    assert Run(steps[..4]) == Run(steps[..2]).(flag := true);
    assert Run(steps[..6]) == Run(steps[..4]).(result := Some(bytes), worker := Left, registered := false);
    assert Run(steps[..7]) == Run(steps[..6]).(queue := [End], worker := Gone);
    assert steps[..8] == steps;
  }

  lemma Prefixes(steps: seq<Step>)
    ensures Run(steps[..0]) == START
    ensures forall k :: 0 <= k < |steps| ==> Run(steps[..k + 1]) == Apply(Run(steps[..k]), steps[k])
  {
    forall k | 0 <= k < |steps| ensures Run(steps[..k + 1]) == Apply(Run(steps[..k]), steps[k]) {
      assert steps[..k + 1][..k] == steps[..k];
    }
  }
}
