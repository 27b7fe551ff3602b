/** What answers a settings write, told by the steps since its request was posted. */
module SettingsHistory {
  import opened Options
  import opened Settings

  /** The steps since the last post. */
  function SincePost(steps: seq<Step>): seq<Step> {
    if steps == [] then []
    else
      var before := steps[..|steps| - 1];
      if Run(steps).posts != Run(before).posts then [] else SincePost(before) + [steps[|steps| - 1]]
  }

  /** The last post is that of the operation at the head: its request is in flight. */
  predicate Posted(st: State) {
    st.posts != [] && st.posts[|st.posts| - 1].op == st.head
  }

  function LastPost(st: State): Post
    requires Posted(st)
  {
    st.posts[|st.posts| - 1]
  }

  lemma PostedIs(st: State)
    requires Inv(st)
    ensures Posted(st) <==> InFlight(st).Some?
    ensures Posted(st) ==> LastPost(st) == InFlight(st).value
  {
    var n := |st.posts|;
    if InFlight(st).Some? {
      assert st.posts[n - 1..][0] == st.posts[n - 1];
    } else if n > 0 {
      assert st.posts[n - 1].op < st.head;
    }
  }

  /** What the phase of the request in flight remembers of the steps since its post. */
  predicate Remembers(st: State, since: seq<Step>) {
    InFlight(st).Some? ==>
      var phase := st.ops[st.head].phase;
      && phase.generation <= st.generation
      && (phase.aborted <==> Timeout in since)
      && (phase.generation != st.generation <==> Invalidate in since)
  }

  lemma StepRemembers(st: State, since: seq<Step>, step: Step)
    requires InOrder(st.ops, st.head) && Remembers(st, since)
    ensures Remembers(Apply(st, step), if Apply(st, step).posts != st.posts then [] else since + [step])
  {
    var st' := Apply(st, step);
    if step.Call? || step.Invalidate? || st.head >= |st.ops| {
    } else {
      HeadRemembers(st, since, step);
    }
  }

  lemma HeadRemembers(st: State, since: seq<Step>, step: Step)
    requires InOrder(st.ops, st.head) && Remembers(st, since) && st.head < |st.ops| && !step.Call? && !step.Invalidate?
    ensures Remembers(ApplyHead(st, step), if ApplyHead(st, step).posts != st.posts then [] else since + [step])
  {
    var op := st.ops[st.head];
    if op.phase.Resolving? && step.UrlReady? {
      var st' := ApplyHead(st, step);
      assert st'.posts != st.posts <==> |st'.posts| == |st.posts| + 1;
    }
  }

  lemma {:induction false} RunRemembers(steps: seq<Step>)
    ensures Remembers(Run(steps), SincePost(steps))
    decreases |steps|
  {
    if steps != [] {
      hide Remembers, Apply;
      RunKeepsInv(steps[..|steps| - 1]);
      RunRemembers(steps[..|steps| - 1]);
      StepRemembers(Run(steps[..|steps| - 1]), SincePost(steps[..|steps| - 1]), steps[|steps| - 1]);
    } else {
      NothingPosted();
    }
  }

  lemma NothingPosted()
    ensures Remembers(START, [])
  {
  }

  // ---------------------------------------------------------------- the answer to a request

  /** How the request in flight settles: a timeout since its post comes before everything, then a broken
      request, a refusal, and a change of the generation since. */
  function Answer(since: seq<Step>, step: Step): Result {
    if Timeout in since then Rejected(TimedOut)
    else if step.FetchFails? then Rejected(Network)
    else if step == Reply(false) then Rejected(ProviderError)
    else if Invalidate in since then Rejected(GenerationChanged)
    else Acknowledged
  }

  /** A reply to the request in flight, or its failure, settles its operation as the steps since its post
      say; only an acknowledgement is recorded, and then as what was posted. */
  lemma AnswerTells(steps: seq<Step>, step: Step)
    requires Posted(Run(steps)) && (step.Reply? || step.FetchFails?)
    ensures var st, st' := Run(steps), Run(steps + [step]);
            var post, result := LastPost(st), Answer(SincePost(steps), step);
            && st.head < |st'.ops| && st'.ops[st.head].phase == Settled(result) && st'.head == st.head + 1
            && st'.posts == st.posts && st'.generation == st.generation
            && st'.acks ==
               (if result.Acknowledged? then st.acks + [Ack(post.op, post.url, post.body, st.generation)] else st.acks)
            && st'.applied == if result.Acknowledged? then Some(Applied(post.url, post.body)) else st.applied
  {
    RunKeepsInv(steps);
    RunRemembers(steps);
    PostedIs(Run(steps));
    RunSnoc(steps, step);
    hide Inv, Run, SincePost;
    InFlightSettles(Run(steps), SincePost(steps), step);
  }

  lemma InFlightSettles(st: State, since: seq<Step>, step: Step)
    requires InFlight(st).Some? && Remembers(st, since) && (step.Reply? || step.FetchFails?)
    ensures var post, result, st' := InFlight(st).value, Answer(since, step), Apply(st, step);
            && st.head < |st'.ops| && st'.ops[st.head].phase == Settled(result) && st'.head == st.head + 1
            && st'.posts == st.posts && st'.generation == st.generation
            && st'.acks ==
               (if result.Acknowledged? then st.acks + [Ack(post.op, post.url, post.body, st.generation)] else st.acks)
            && st'.applied == if result.Acknowledged? then Some(Applied(post.url, post.body)) else st.applied
  {
  }

  /** An acknowledgement is recorded exactly at an accepting reply to a request in flight since whose post
      no timeout and no new generation came. */
  lemma AcknowledgedIff(steps: seq<Step>, step: Step)
    ensures Run(steps + [step]).acks != Run(steps).acks <==>
            && step == Reply(true) && Posted(Run(steps))
            && Timeout !in SincePost(steps) && Invalidate !in SincePost(steps)
  {
    RunSnoc(steps, step);
    if Posted(Run(steps)) && (step.Reply? || step.FetchFails?) {
      hide Run, Apply, SincePost;
      AnswerTells(steps, step);
    } else {
      RunKeepsInv(steps);
      PostedIs(Run(steps));
      hide Run, SincePost, Inv;
      NoAnswer(Run(steps), step);
    }
  }

  lemma NoAnswer(st: State, step: Step)
    requires InFlight(st).None? || !(step.Reply? || step.FetchFails?)
    ensures Apply(st, step).acks == st.acks
  {
  }

  // ---------------------------------------------------------------- the request itself

  /** The pair was acknowledged last, and in the current generation. */
  predicate AlreadyApplied(st: State, url: string, body: string) {
    && st.acks != []
    && var last := st.acks[|st.acks| - 1];
       last.generation == st.generation && last.url == url && last.body == body
  }

  /** An operation that learns its url is skipped exactly when it is not forced and the pair is the one
      acknowledged last in this generation; otherwise its request is posted with the body of its call. */
  lemma UrlTells(steps: seq<Step>, url: string)
    requires var st := Run(steps); st.head < |st.ops| && st.ops[st.head].phase.Resolving?
    ensures var st, st' := Run(steps), Run(steps + [UrlReady(url)]); var op := st.ops[st.head];
            && |st'.ops| == |st.ops| && st'.generation == st.generation
            && if !op.force && AlreadyApplied(st, url, op.body) then
                 st'.ops[st.head].phase == Settled(Skipped) && st'.posts == st.posts && st'.head == st.head + 1
               else
                 && st'.posts == st.posts + [Post(st.head, url, op.body, st.generation)]
                 && st'.head == st.head && Posted(st')
  {
    RunKeepsInv(steps);
    RunSnoc(steps, UrlReady(url));
    hide Run;
    AppliedIs(Run(steps), url);
    hide Inv, AlreadyApplied;
  }

  lemma AppliedIs(st: State, url: string)
    requires Inv(st) && st.head < |st.ops|
    ensures var body := st.ops[st.head].body; st.applied == Some(Applied(url, body)) <==> AlreadyApplied(st, url, body)
  {
  }

  /** An operation whose url cannot be found is rejected for that; one that waits begins when its turn comes. */
  lemma TurnTells(steps: seq<Step>)
    requires var st := Run(steps); st.head < |st.ops|
    ensures var st, begun, failed := Run(steps), Run(steps + [Begin]), Run(steps + [UrlFailed]);
            && (st.ops[st.head].phase.Waiting? ==>
                  begun == st.(ops := st.ops[st.head := st.ops[st.head].(phase := Resolving)]))
            && (st.ops[st.head].phase.Resolving? ==>
                  failed == st.(head := st.head + 1,
                    ops := st.ops[st.head := st.ops[st.head].(phase := Settled(Rejected(UrlUnavailable)))]))
  {
    RunSnoc(steps, Begin);
    RunSnoc(steps, UrlFailed);
  }

  /** A call is queued last with its body and force; a new generation forgets what was applied and leaves
      the queue alone; a timeout only aborts the request in flight; and without a request in flight a
      reply, a failure or a timeout changes nothing. */
  lemma OthersTell(steps: seq<Step>, step: Step)
    ensures var st, st' := Run(steps), Run(steps + [step]);
            && (step.Call? ==> st' == st.(ops := st.ops + [Operation(step.body, step.force, Waiting)]))
            && (step.Invalidate? ==> st' == st.(generation := st.generation + 1, applied := None))
            && (step.Timeout? && Posted(st) ==>
                  && st.head < |st.ops| && st.ops[st.head].phase.Posting?
                  && st' == st.(ops := st.ops[st.head := st.ops[st.head].(phase := st.ops[st.head].phase.(aborted := true))]))
            && ((step.Reply? || step.FetchFails? || step.Timeout?) && !Posted(st) ==> st' == st)
  {
    RunKeepsInv(steps);
    PostedIs(Run(steps));
    RunSnoc(steps, step);
    hide Run, Inv;
  }
}
