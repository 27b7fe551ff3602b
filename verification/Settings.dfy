/** The settings write queue: one write at a time, acknowledged per backend generation. */
module Settings {
  import opened Options

  datatype Applied = Applied(url: string, body: string)

  datatype Failure = UrlUnavailable | ProviderError | Network | TimedOut | GenerationChanged

  datatype Result = Acknowledged | Skipped | Rejected(why: Failure)

  datatype Phase =
    | Waiting
    | Resolving
    | Posting(url: string, generation: nat, aborted: bool)
    | Settled(result: Result)

  /** A call of postSettingsV2 (force) or ensureSettingsV2: its body is captured at the call. */
  datatype Operation = Operation(body: string, force: bool, phase: Phase)

  datatype Post = Post(op: nat, url: string, body: string, generation: nat)

  /** generation is the one current when the reply was accepted. */
  datatype Ack = Ack(op: nat, url: string, body: string, generation: nat)

  /** An operation that sent nothing, relying on the acknowledgements made so far. */
  datatype Skip = Skip(op: nat, url: string, acks: nat, generation: nat)

  /** head counts the settled operations; the logs tell what was sent, accepted and skipped. */
  datatype State = State(
    generation: nat,
    applied: Option<Applied>,
    ops: seq<Operation>,
    head: nat,
    posts: seq<Post>,
    acks: seq<Ack>,
    skips: seq<Skip>)

  const START := State(0, None, [], 0, [], [], [])

  /** UrlReady, UrlFailed: the backend url of the operation at the head; Timeout: its timer;
      Reply: its whole response, accepted or not; FetchFails: its request breaks. */
  datatype Step =
    | Call(body: string, force: bool)
    | Begin
    | UrlReady(url: string)
    | UrlFailed
    | Timeout
    | Reply(ok: bool)
    | FetchFails
    | Invalidate

  function WithPhase(st: State, phase: Phase): State
    requires st.head < |st.ops|
  {
    st.(ops := st.ops[st.head := st.ops[st.head].(phase := phase)])
  }

  function Settle(st: State, result: Result): State
    requires st.head < |st.ops|
  {
    WithPhase(st, Settled(result)).(head := st.head + 1)
  }

  function Apply(st: State, step: Step): State {
    match step
    case Call(body, force) => st.(ops := st.ops + [Operation(body, force, Waiting)])
    case Invalidate => st.(generation := st.generation + 1, applied := None)
    case _ => if st.head < |st.ops| then ApplyHead(st, step) else st
  }

  function ApplyHead(st: State, step: Step): State
    requires st.head < |st.ops|
  {
    var op := st.ops[st.head];
    match (op.phase, step)
    case (Waiting, Begin) => WithPhase(st, Resolving)
    case (Resolving, UrlFailed) => Settle(st, Rejected(UrlUnavailable))
    case (Resolving, UrlReady(url)) =>
      if !op.force && st.applied == Some(Applied(url, op.body)) then
        Settle(st, Skipped).(skips := st.skips + [Skip(st.head, url, |st.acks|, st.generation)])
      else
        WithPhase(st, Posting(url, st.generation, false))
        .(posts := st.posts + [Post(st.head, url, op.body, st.generation)])
    case (Posting(url, generation, _), Timeout) => WithPhase(st, Posting(url, generation, true))
    case (Posting(url, generation, aborted), Reply(ok)) =>
      if aborted then Settle(st, Rejected(TimedOut))
      else if !ok then Settle(st, Rejected(ProviderError))
      else if generation != st.generation then Settle(st, Rejected(GenerationChanged))
      else
        Settle(st, Acknowledged)
        .(applied := Some(Applied(url, op.body)), acks := st.acks + [Ack(st.head, url, op.body, st.generation)])
    case (Posting(_, _, aborted), FetchFails) =>
      Settle(st, Rejected(if aborted then TimedOut else Network))
    case _ => st
  }

  function Run(steps: seq<Step>): State {
    if steps == [] then START else Apply(Run(steps[..|steps| - 1]), steps[|steps| - 1])
  }

  // ---------------------------------------------------------------- the module's own state

  class SettingsQueue {
    var backendGeneration: nat
    var appliedSettings: Option<Applied>
    /** The chain of operations, in call order; those before head have settled. */
    var settingsQueue: seq<Operation>
    var head: nat
    ghost var posts: seq<Post>
    ghost var acks: seq<Ack>
    ghost var skips: seq<Skip>

    ghost function Value(): State
      reads this
    {
      State(backendGeneration, appliedSettings, settingsQueue, head, posts, acks, skips)
    }

    ghost predicate Valid()
      reads this
    {
      head <= |settingsQueue|
    }

    constructor ()
      ensures Valid() && Value() == START
    {
      backendGeneration, appliedSettings, settingsQueue, head := 0, None, [], 0;
      posts, acks, skips := [], [], [];
    }

    method InvalidateBackendSettings()
      requires Valid()
      modifies this
      ensures Valid() && Value() == Apply(old(Value()), Invalidate)
    {
      backendGeneration := backendGeneration + 1;
      appliedSettings := None;
    }

    method WriteSettings(body: string, force: bool)
      requires Valid()
      modifies this
      ensures Valid() && Value() == Apply(old(Value()), Call(body, force))
    {
      settingsQueue := settingsQueue + [Operation(body, force, Waiting)];
    }

    /** The operation at the head moves to its next phase. */
    method Advance(phase: Phase)
      requires Valid() && head < |settingsQueue|
      modifies this`settingsQueue, this`head
      ensures Valid()
      ensures settingsQueue == old(settingsQueue)[old(head) := old(settingsQueue)[old(head)].(phase := phase)]
      ensures head == if phase.Settled? then old(head) + 1 else old(head)
    {
      settingsQueue := settingsQueue[head := settingsQueue[head].(phase := phase)];
      if phase.Settled? {
        head := head + 1;
      }
    }

    method OnBegin()
      requires Valid()
      modifies this
      ensures Valid() && Value() == Apply(old(Value()), Begin)
    {
      if head < |settingsQueue| && settingsQueue[head].phase.Waiting? {
        Advance(Resolving);
      }
    }

    method OnUrlReady(url: string)
      requires Valid()
      modifies this
      ensures Valid() && Value() == Apply(old(Value()), UrlReady(url))
    {
      if head == |settingsQueue| || !settingsQueue[head].phase.Resolving? {
        return;
      }
      var op := settingsQueue[head];
      var generation := backendGeneration;
      if !op.force && appliedSettings == Some(Applied(url, op.body)) {
        skips := skips + [Skip(head, url, |acks|, generation)];
        Advance(Settled(Skipped));
      } else {
        posts := posts + [Post(head, url, op.body, generation)];
        Advance(Posting(url, generation, false));
      }
    }

    method OnUrlFailed()
      requires Valid()
      modifies this
      ensures Valid() && Value() == Apply(old(Value()), UrlFailed)
    {
      if head < |settingsQueue| && settingsQueue[head].phase.Resolving? {
        Advance(Settled(Rejected(UrlUnavailable)));
      }
    }

    method OnTimeout()
      requires Valid()
      modifies this
      ensures Valid() && Value() == Apply(old(Value()), Timeout)
    {
      if head < |settingsQueue| && settingsQueue[head].phase.Posting? {
        Advance(settingsQueue[head].phase.(aborted := true));
      }
    }

    method OnReply(ok: bool)
      requires Valid()
      modifies this
      ensures Valid() && Value() == Apply(old(Value()), Reply(ok))
    {
      if head == |settingsQueue| || !settingsQueue[head].phase.Posting? {
        return;
      }
      var op := settingsQueue[head];
      if op.phase.aborted {
        Advance(Settled(Rejected(TimedOut)));
      } else if !ok {
        Advance(Settled(Rejected(ProviderError)));
      } else if op.phase.generation != backendGeneration {
        Advance(Settled(Rejected(GenerationChanged)));
      } else {
        appliedSettings := Some(Applied(op.phase.url, op.body));
        acks := acks + [Ack(head, op.phase.url, op.body, backendGeneration)];
        Advance(Settled(Acknowledged));
      }
    }

    method OnFetchFails()
      requires Valid()
      modifies this
      ensures Valid() && Value() == Apply(old(Value()), FetchFails)
    {
      if head < |settingsQueue| && settingsQueue[head].phase.Posting? {
        Advance(Settled(Rejected(if settingsQueue[head].phase.aborted then TimedOut else Network)));
      }
    }
  }

  // ---------------------------------------------------------------- what every step keeps

  /** Operations settle in call order, one at a time. */
  predicate InOrder(ops: seq<Operation>, head: nat) {
    && head <= |ops|
    && (forall i :: 0 <= i < |ops| ==> (ops[i].phase.Settled? <==> i < head))
    && (forall i :: head < i < |ops| ==> ops[i].phase.Waiting?)
  }

  /** Posts are made in call order, one for an operation, with the body captured at its call. */
  predicate PostsInOrder(ops: seq<Operation>, generation: nat, posts: seq<Post>) {
    && (forall k :: 0 <= k < |posts| ==> PostFits(ops, generation, posts[k]))
    && (forall j, k :: 0 <= j < k < |posts| ==> posts[j].op < posts[k].op)
  }

  predicate PostFits(ops: seq<Operation>, generation: nat, post: Post) {
    post.op < |ops| && post.body == ops[post.op].body && post.generation <= generation
  }

  /** The request in flight, which only the operation at the head can have. */
  function InFlight(st: State): Option<Post> {
    if st.head < |st.ops| && st.ops[st.head].phase.Posting? then
      var op := st.ops[st.head];
      Some(Post(st.head, op.phase.url, op.body, op.phase.generation))
    else None
  }

  /** All posts but the one in flight belong to settled operations. */
  predicate OneInFlight(st: State) {
    var n := |st.posts| - |Emit(InFlight(st))|;
    && n >= 0 && st.posts[n..] == Emit(InFlight(st))
    && forall k :: 0 <= k < n ==> st.posts[k].op < st.head
  }

  /** Every acknowledgement answers a post of its own generation, in the order of the posts. */
  predicate AcksAnswerPosts(ops: seq<Operation>, head: nat, generation: nat, posts: seq<Post>, acks: seq<Ack>)
    requires head <= |ops|
  {
    && (forall k :: 0 <= k < |acks| ==> AckFits(ops, head, generation, posts, acks[k]))
    && (forall j, k :: 0 <= j < k < |acks| ==> acks[j].op < acks[k].op && acks[j].generation <= acks[k].generation)
  }

  predicate AckFits(ops: seq<Operation>, head: nat, generation: nat, posts: seq<Post>, ack: Ack)
    requires head <= |ops|
  {
    && ack.op < head && ops[ack.op].phase == Settled(Acknowledged)
    && ack.generation <= generation
    && Post(ack.op, ack.url, ack.body, ack.generation) in posts
  }

  /** The acknowledged pair of a generation: the last one made in it. */
  function LatestOf(acks: seq<Ack>, generation: nat): Option<Applied> {
    if acks == [] then None
    else
      var last := acks[|acks| - 1];
      if last.generation == generation then Some(Applied(last.url, last.body)) else None
  }

  /** Whoever sent nothing relied on the latest acknowledgement of the generation at that time. */
  predicate SkipsAreSound(ops: seq<Operation>, head: nat, acks: seq<Ack>, skips: seq<Skip>)
    requires head <= |ops|
  {
    forall k :: 0 <= k < |skips| ==> SkipFits(ops, head, acks, skips[k])
  }

  predicate SkipFits(ops: seq<Operation>, head: nat, acks: seq<Ack>, skip: Skip)
    requires head <= |ops|
  {
    && skip.op < head && !ops[skip.op].force && ops[skip.op].phase == Settled(Skipped)
    && skip.acks <= |acks|
    && LatestOf(acks[..skip.acks], skip.generation) == Some(Applied(skip.url, ops[skip.op].body))
  }

  predicate Inv(st: State) {
    && InOrder(st.ops, st.head)
    && PostsInOrder(st.ops, st.generation, st.posts)
    && OneInFlight(st)
    && AcksAnswerPosts(st.ops, st.head, st.generation, st.posts, st.acks)
    && st.applied == LatestOf(st.acks, st.generation)
    && SkipsAreSound(st.ops, st.head, st.acks, st.skips)
  }

  /** Operations are only added, keep what was captured, and stay as they settled. */
  predicate Grows(ops: seq<Operation>, head: nat, ops': seq<Operation>, head': nat) {
    && head <= |ops| <= |ops'| && head <= head' <= |ops'|
    && (forall i :: 0 <= i < |ops| ==> ops'[i].body == ops[i].body && ops'[i].force == ops[i].force)
    && (forall i :: 0 <= i < head ==> ops'[i] == ops[i])
  }

  lemma LogsGrow(st: State, ops': seq<Operation>, head': nat, generation': nat)
    requires Inv(st) && Grows(st.ops, st.head, ops', head') && st.generation <= generation'
    ensures PostsInOrder(ops', generation', st.posts)
    ensures AcksAnswerPosts(ops', head', generation', st.posts, st.acks)
    ensures SkipsAreSound(ops', head', st.acks, st.skips)
  {
    forall k | 0 <= k < |st.posts| ensures PostFits(ops', generation', st.posts[k]) {
      assert PostFits(st.ops, st.generation, st.posts[k]);
    }
    forall k | 0 <= k < |st.acks| ensures AckFits(ops', head', generation', st.posts, st.acks[k]) {
      assert AckFits(st.ops, st.head, st.generation, st.posts, st.acks[k]);
    }
    forall k | 0 <= k < |st.skips| ensures SkipFits(ops', head', st.acks, st.skips[k]) {
      assert SkipFits(st.ops, st.head, st.acks, st.skips[k]);
    }
  }

  lemma AdvanceGrows(ops: seq<Operation>, head: nat, phase: Phase)
    requires InOrder(ops, head) && head < |ops| && !phase.Waiting?
    ensures var ops' := ops[head := ops[head].(phase := phase)];
            var head' := if phase.Settled? then head + 1 else head;
            InOrder(ops', head') && Grows(ops, head, ops', head')
  {
  }

  /** A step that sends, accepts and skips nothing. */
  lemma QuietKeepsInv(st: State, phase: Phase)
    requires Inv(st) && st.head < |st.ops| && !phase.Waiting?
    requires phase.Posting? ==> st.ops[st.head].phase.Posting?
                                && phase == st.ops[st.head].phase.(aborted := phase.aborted)
    requires phase.Resolving? ==> !st.ops[st.head].phase.Posting?
    ensures Inv(if phase.Settled? then Settle(st, phase.result) else WithPhase(st, phase))
  {
    AdvanceGrows(st.ops, st.head, phase);
    var ops' := st.ops[st.head := st.ops[st.head].(phase := phase)];
    LogsGrow(st, ops', if phase.Settled? then st.head + 1 else st.head, st.generation);
  }

  lemma PostKeepsInv(st: State, url: string)
    requires Inv(st) && st.head < |st.ops| && st.ops[st.head].phase.Resolving?
    ensures Inv(WithPhase(st, Posting(url, st.generation, false))
                .(posts := st.posts + [Post(st.head, url, st.ops[st.head].body, st.generation)]))
  {
    var phase := Posting(url, st.generation, false);
    AdvanceGrows(st.ops, st.head, phase);
    var ops' := st.ops[st.head := st.ops[st.head].(phase := phase)];
    LogsGrow(st, ops', st.head, st.generation);
    var post := Post(st.head, url, st.ops[st.head].body, st.generation);
    var posts' := st.posts + [post];
    forall k | 0 <= k < |st.acks| ensures AckFits(ops', st.head, st.generation, posts', st.acks[k]) {
      assert AckFits(ops', st.head, st.generation, st.posts, st.acks[k]);
    }
    assert posts'[|st.posts|..] == [post];
  }

  lemma SkipKeepsInv(st: State, url: string)
    requires Inv(st) && st.head < |st.ops| && st.ops[st.head].phase.Resolving? && !st.ops[st.head].force
    requires st.applied == Some(Applied(url, st.ops[st.head].body))
    ensures Inv(Settle(st, Skipped).(skips := st.skips + [Skip(st.head, url, |st.acks|, st.generation)]))
  {
    QuietKeepsInv(st, Settled(Skipped));
    var st' := Settle(st, Skipped);
    assert st.acks[..|st.acks|] == st.acks;
    assert SkipFits(st'.ops, st'.head, st.acks, Skip(st.head, url, |st.acks|, st.generation));
  }

  lemma AckAppends(ops: seq<Operation>, head: nat, generation: nat, posts: seq<Post>, acks: seq<Ack>, ack: Ack)
    requires head < |ops| && AcksAnswerPosts(ops, head + 1, generation, posts, acks)
    requires AckFits(ops, head + 1, generation, posts, ack) && ack.generation == generation
    requires forall k :: 0 <= k < |acks| ==> acks[k].op < ack.op
    ensures AcksAnswerPosts(ops, head + 1, generation, posts, acks + [ack])
  {
    var acks' := acks + [ack];
    forall k | 0 <= k < |acks'| ensures AckFits(ops, head + 1, generation, posts, acks'[k]) {
      if k < |acks| {
        assert AckFits(ops, head + 1, generation, posts, acks[k]);
      }
    }
    assert forall k :: 0 <= k < |acks| ==> AckFits(ops, head + 1, generation, posts, acks[k]);
  }

  lemma SkipsSurviveAck(ops: seq<Operation>, head: nat, acks: seq<Ack>, skips: seq<Skip>, ack: Ack)
    requires head <= |ops| && SkipsAreSound(ops, head, acks, skips)
    ensures SkipsAreSound(ops, head, acks + [ack], skips)
  {
    forall k | 0 <= k < |skips| ensures SkipFits(ops, head, acks + [ack], skips[k]) {
      assert SkipFits(ops, head, acks, skips[k]);
      assert (acks + [ack])[..skips[k].acks] == acks[..skips[k].acks];
    }
  }

  lemma AckKeepsInv(st: State)
    requires Inv(st) && InFlight(st).Some? && InFlight(st).value.generation == st.generation
    ensures var post := InFlight(st).value;
            Inv(Settle(st, Acknowledged)
                .(applied := Some(Applied(post.url, post.body)),
                  acks := st.acks + [Ack(st.head, post.url, post.body, st.generation)]))
  {
    var post := InFlight(st).value;
    QuietKeepsInv(st, Settled(Acknowledged));
    var st' := Settle(st, Acknowledged);
    var ack := Ack(st.head, post.url, post.body, st.generation);
    assert st.posts[|st.posts| - 1..][0] == post;
    forall k | 0 <= k < |st.acks| ensures st.acks[k].op < ack.op {
      assert AckFits(st.ops, st.head, st.generation, st.posts, st.acks[k]);
    }
    AckAppends(st'.ops, st.head, st.generation, st.posts, st.acks, ack);
    SkipsSurviveAck(st'.ops, st'.head, st.acks, st.skips, ack);
  }

  lemma CallKeepsInv(st: State, body: string, force: bool)
    requires Inv(st)
    ensures Inv(st.(ops := st.ops + [Operation(body, force, Waiting)]))
  {
    LogsGrow(st, st.ops + [Operation(body, force, Waiting)], st.head, st.generation);
  }

  lemma InvalidateKeepsInv(st: State)
    requires Inv(st)
    ensures Inv(st.(generation := st.generation + 1, applied := None))
  {
    LogsGrow(st, st.ops, st.head, st.generation + 1);
    if st.acks != [] {
      assert AckFits(st.ops, st.head, st.generation, st.posts, st.acks[|st.acks| - 1]);
    }
  }

  lemma StepKeepsInv(st: State, step: Step)
    requires Inv(st)
    ensures Inv(Apply(st, step))
  {
    match step
    case Call(body, force) =>
      CallKeepsInv(st, body, force);
      assert Apply(st, step) == st.(ops := st.ops + [Operation(body, force, Waiting)]);
    case Invalidate =>
      InvalidateKeepsInv(st);
      assert Apply(st, step) == st.(generation := st.generation + 1, applied := None);
    case _ =>
      OtherKeepsInv(st, step);
  }

  lemma OtherKeepsInv(st: State, step: Step)
    requires Inv(st) && !step.Call? && !step.Invalidate?
    ensures Inv(Apply(st, step))
  {
    if st.head < |st.ops| {
      HeadKeepsInv(st, step);
      assert Apply(st, step) == ApplyHead(st, step);
    } else {
      assert Apply(st, step) == st;
    }
  }

  lemma ReplyKeepsInv(st: State, ok: bool)
    requires Inv(st) && st.head < |st.ops| && st.ops[st.head].phase.Posting?
    ensures Inv(ApplyHead(st, Reply(ok)))
  {
    var phase := st.ops[st.head].phase;
    if phase.aborted {
      QuietKeepsInv(st, Settled(Rejected(TimedOut)));
    } else if !ok {
      QuietKeepsInv(st, Settled(Rejected(ProviderError)));
    } else if phase.generation != st.generation {
      QuietKeepsInv(st, Settled(Rejected(GenerationChanged)));
    } else {
      AckKeepsInv(st);
    }
  }

  lemma HeadKeepsInv(st: State, step: Step)
    requires Inv(st) && st.head < |st.ops|
    ensures Inv(ApplyHead(st, step))
  {
    hide Inv;
    var op := st.ops[st.head];
    match (op.phase, step)
    case (Waiting, Begin) => QuietKeepsInv(st, Resolving);
    case (Resolving, UrlFailed) => QuietKeepsInv(st, Settled(Rejected(UrlUnavailable)));
    case (Resolving, UrlReady(url)) =>
      if !op.force && st.applied == Some(Applied(url, op.body)) {
        SkipKeepsInv(st, url);
      } else {
        PostKeepsInv(st, url);
      }
    case (Posting(url, generation, _), Timeout) => QuietKeepsInv(st, Posting(url, generation, true));
    case (Posting(_, _, _), Reply(ok)) => ReplyKeepsInv(st, ok);
    case (Posting(_, _, aborted), FetchFails) =>
      QuietKeepsInv(st, Settled(Rejected(if aborted then TimedOut else Network)));
    case _ =>
  }

  lemma {:induction false} RunKeepsInv(steps: seq<Step>)
    ensures Inv(Run(steps))
    decreases |steps|
  {
    if steps == [] {
      StartInv();
    } else {
      hide Inv, Apply;
      var some, last := steps[..|steps| - 1], steps[|steps| - 1];
      RunKeepsInv(some);
      StepKeepsInv(Run(some), last);
      RunSnoc(some, last);
      assert some + [last] == steps;
    }
  }

  lemma StartInv()
    ensures Inv(START)
  {
  }

  // ---------------------------------------------------------------- the theorems

  /** Acknowledgement soundness: in every reachable state the applied settings are exactly the latest
      acknowledged write of the current generation, each acknowledgement answers a post made in
      its own generation, and each skipped write relied on the latest one of its generation. */
  lemma AcknowledgementSoundness(steps: seq<Step>)
    ensures var st := Run(steps);
            && st.applied == LatestOf(st.acks, st.generation)
            && (forall k :: 0 <= k < |st.acks| ==>
                  Post(st.acks[k].op, st.acks[k].url, st.acks[k].body, st.acks[k].generation) in st.posts)
            && (forall k :: 0 <= k < |st.skips| ==>
                  && st.skips[k].acks <= |st.acks| && st.skips[k].op < |st.ops|
                  && LatestOf(st.acks[..st.skips[k].acks], st.skips[k].generation)
                     == Some(Applied(st.skips[k].url, st.ops[st.skips[k].op].body)))
  {
    RunKeepsInv(steps);
    var st := Run(steps);
    forall k | 0 <= k < |st.acks|
      ensures Post(st.acks[k].op, st.acks[k].url, st.acks[k].body, st.acks[k].generation) in st.posts
    {
      assert AckFits(st.ops, st.head, st.generation, st.posts, st.acks[k]);
    }
    forall k | 0 <= k < |st.skips| ensures SkipFits(st.ops, st.head, st.acks, st.skips[k]) {
    }
  }

  /** Queue order: at most one request is in flight, posts are made in call order with the body
      captured at the call, and operations settle in call order. */
  lemma QueueOrder(steps: seq<Step>)
    ensures var st := Run(steps);
            && InOrder(st.ops, st.head)
            && PostsInOrder(st.ops, st.generation, st.posts)
            && OneInFlight(st)
  {
    RunKeepsInv(steps);
  }

  /** Nothing captured, settled, sent or accepted is ever changed. */
  predicate Evolves(st: State, st': State) {
    && Grows(st.ops, st.head, st'.ops, st'.head)
    && st.posts <= st'.posts && st.acks <= st'.acks && st.generation <= st'.generation
  }

  lemma ApplyEvolves(st: State, step: Step)
    requires Inv(st)
    ensures Evolves(st, Apply(st, step))
  {
    if step.Call? || step.Invalidate? || st.head >= |st.ops| {
    } else {
      hide Inv;
      HeadEvolves(st, step);
    }
  }

  lemma HeadEvolves(st: State, step: Step)
    requires st.head < |st.ops| && !step.Call? && !step.Invalidate?
    ensures Evolves(st, ApplyHead(st, step))
  {
  }

  lemma EvolvesOn(a: State, b: State, c: State)
    requires Evolves(a, b) && Evolves(b, c)
    ensures Evolves(a, c)
  {
  }

  lemma EvolvesFurther(st: State, before: seq<Step>, step: Step)
    requires Evolves(st, Run(before))
    ensures Evolves(st, Run(before + [step]))
  {
    RunKeepsInv(before);
    var st' := Run(before);
    ApplyEvolves(st', step);
    RunSnoc(before, step);
    EvolvesOn(st, st', Apply(st', step));
  }

  /** An operation settles at most once, and what was captured, sent or accepted stays so,
      whatever follows. */
  lemma {:induction false} SettlesOnce(steps: seq<Step>, more: seq<Step>)
    ensures Evolves(Run(steps), Run(steps + more))
    decreases |more|
  {
    if more == [] {
      RunKeepsInv(steps);
      assert steps + more == steps;
    } else {
      var some, last := more[..|more| - 1], more[|more| - 1];
      SettlesOnce(steps, some);
      EvolvesFurther(Run(steps), steps + some, last);
      Assoc(steps, some, [last]);
      assert some + [last] == more;
    }
  }

  lemma RunSnoc(steps: seq<Step>, step: Step)
    ensures Run(steps + [step]) == Apply(Run(steps), step)
  {
    assert (steps + [step])[..|steps|] == steps;
  }

  /** The operation has a request of an older generation in flight, or was rejected after it; no
      acknowledgement is its own. */
  predicate Doomed(st: State, op: nat) {
    && op <= st.head && op < |st.ops|
    && (forall k :: 0 <= k < |st.acks| ==> st.acks[k].op != op)
    && (if st.head == op then st.ops[op].phase.Posting? && st.ops[op].phase.generation < st.generation
        else st.ops[op].phase.Settled? && st.ops[op].phase.result.Rejected?)
  }

  lemma DoomedStep(st: State, op: nat, step: Step)
    requires Doomed(st, op)
    ensures Doomed(Apply(st, step), op)
  {
    if step.Call? || step.Invalidate? || st.head >= |st.ops| {
    } else if st.head == op {
      DoomedHead(st, op, step);
    } else {
      OthersDoNotMatter(st, op, step);
    }
  }

  lemma DoomedHead(st: State, op: nat, step: Step)
    requires Doomed(st, op) && st.head == op && !step.Call? && !step.Invalidate?
    ensures Doomed(ApplyHead(st, step), op)
  {
  }

  lemma OthersDoNotMatter(st: State, op: nat, step: Step)
    requires Doomed(st, op) && op < st.head < |st.ops| && !step.Call? && !step.Invalidate?
    ensures Doomed(ApplyHead(st, step), op)
  {
  }

  lemma {:induction false} StaysDoomed(steps: seq<Step>, more: seq<Step>, op: nat)
    requires Doomed(Run(steps), op)
    ensures Doomed(Run(steps + more), op)
    decreases |more|
  {
    if more == [] {
      assert steps + more == steps;
    } else {
      hide Doomed, Apply, Run;
      var some, last := more[..|more| - 1], more[|more| - 1];
      StaysDoomed(steps, some, op);
      DoomedStep(Run(steps + some), op, last);
      RunSnoc(steps + some, last);
      Assoc(steps, some, [last]);
      assert some + [last] == more;
    }
  }

  /** A write whose generation changed in flight: whatever follows, it is never acknowledged, and once it
      has settled it is rejected. */
  lemma ChangedInFlight(steps: seq<Step>, more: seq<Step>)
    requires InFlight(Run(steps)).Some? && InFlight(Run(steps)).value.generation != Run(steps).generation
    ensures var op, st := Run(steps).head, Run(steps + more);
            && op < |st.ops|
            && (forall k :: 0 <= k < |st.acks| ==> st.acks[k].op != op)
            && (st.ops[op].phase.Settled? ==> st.ops[op].phase.result.Rejected?)
  {
    RunKeepsInv(steps);
    var st := Run(steps);
    forall k | 0 <= k < |st.acks|
      ensures st.acks[k].op != st.head
    {
      assert AckFits(st.ops, st.head, st.generation, st.posts, st.acks[k]);
    }
    var n := |st.posts| - 1;
    assert st.posts[n] == st.posts[n..][0] == InFlight(st).value;
    assert PostFits(st.ops, st.generation, st.posts[n]);
    StaysDoomed(steps, more, st.head);
  }

  lemma HeadSettles(st: State, settling: Step)
    requires st.head < |st.ops| && Apply(st, settling).head == st.head + 1
    ensures var settled := Apply(st, settling);
            && |settled.ops| == |st.ops| && settled.ops[st.head].phase.Settled?
            && (forall i :: st.head < i < |st.ops| ==> settled.ops[i] == st.ops[i])
            && (settled.ops[st.head].phase.result.Rejected? ==>
                  settled.posts == st.posts && settled.acks == st.acks && settled.applied == st.applied)
  {
  }

  lemma GivesWay(st: State, settling: Step)
    requires Inv(st) && st.head + 1 < |st.ops| && Apply(st, settling).head == st.head + 1
    ensures var settled := Apply(st, settling); var next := Apply(settled, Begin);
            && next.head == st.head + 1 < |next.ops|
            && next.ops[next.head] == st.ops[st.head + 1].(phase := Resolving)
            && next.posts == settled.posts && next.applied == settled.applied
            && settled.ops[st.head].phase.Settled?
            && (settled.ops[st.head].phase.result.Rejected? ==>
                  settled.posts == st.posts && settled.acks == st.acks && settled.applied == st.applied)
  {
    HeadSettles(st, settling);
    assert st.ops[st.head + 1].phase.Waiting?;
    hide ApplyHead, Inv;
    BeginsNext(Apply(st, settling));
  }

  lemma BeginsNext(st: State)
    requires st.head < |st.ops| && st.ops[st.head].phase.Waiting?
    ensures Apply(st, Begin) == st.(ops := st.ops[st.head := st.ops[st.head].(phase := Resolving)])
  {
  }

  /** However the operation at the head settles, it gives way: the next one can start, with the body of
      its own call, whatever it was that settled the one before. */
  lemma FailureGivesWay(steps: seq<Step>, settling: Step)
    requires var st := Run(steps); st.head + 1 < |st.ops| && Apply(st, settling).head == st.head + 1
    ensures var st, settled := Run(steps), Apply(Run(steps), settling); var next := Apply(settled, Begin);
            && next.head == st.head + 1 && next.ops[next.head] == st.ops[st.head + 1].(phase := Resolving)
            && next.posts == settled.posts && next.applied == settled.applied
            && (settled.ops[st.head].phase.result.Rejected? ==>
                  settled.posts == st.posts && settled.acks == st.acks && settled.applied == st.applied)
  {
    hide *;
    RunKeepsInv(steps);
    GivesWay(Run(steps), settling);
  }
}
