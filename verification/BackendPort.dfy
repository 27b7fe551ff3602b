/** The settings queue over the port lookup: which port an acknowledged write went to. */
module BackendPort {
  import opened Options
  import Client
  import Settings

  function Digit(d: nat): char
    requires d < 10
  {
    (48 + d) as char
  }

  function Decimal(n: nat): string {
    if n < 10 then [Digit(n)] else Decimal(n / 10) + [Digit(n % 10)]
  }

  function PortUrl(port: nat): string {
    "http://localhost:" + Decimal(port) + "/settings/v2"
  }

  lemma {:induction false} DecimalInjective(m: nat, n: nat)
    requires Decimal(m) == Decimal(n)
    ensures m == n
    decreases m
  {
    var a, b := Decimal(m), Decimal(n);
    assert a[|a| - 1] == Digit(m % 10) && b[|b| - 1] == Digit(n % 10);
    DecimalLength(m);
    DecimalLength(n);
    if m >= 10 {
      assert a[..|a| - 1] == Decimal(m / 10) && b[..|b| - 1] == Decimal(n / 10);
      DecimalInjective(m / 10, n / 10);
    }
  }

  lemma {:induction false} DecimalLength(n: nat)
    ensures |Decimal(n)| >= 1 && (|Decimal(n)| == 1 <==> n < 10)
    decreases n
  {
    if n >= 10 {
      DecimalLength(n / 10);
    }
  }

  lemma UrlsDiffer(m: nat, n: nat)
    requires PortUrl(m) == PortUrl(n)
    ensures m == n
  {
    var head, tail := "http://localhost:", "/settings/v2";
    assert PortUrl(m)[|head|..|PortUrl(m)| - |tail|] == Decimal(m);
    assert PortUrl(n)[|head|..|PortUrl(n)| - |tail|] == Decimal(n);
    DecimalInjective(m, n);
  }

  /** The url spells the port out. */
  lemma UrlSpelled()
    ensures PortUrl(8765) == "http://localhost:8765/settings/v2"
  {
    assert Decimal(8765) == Decimal(876) + [Digit(5)] && Decimal(876) == Decimal(87) + [Digit(6)];
    assert Decimal(87) == Decimal(8) + [Digit(7)] && Decimal(8) == "8";
    assert Digit(7) == '7' && Digit(6) == '6' && Digit(5) == '5';
  }

  // ---------------------------------------------------------------- the two machines together

  /** asking is the port lookup of the write at the head; announced the port with which the current
      generation began, if an announcement began it. */
  datatype System = System(
    client: Client.State,
    settings: Settings.State,
    asking: Option<nat>,
    announced: Option<nat>)

  const START := System(Client.START, Settings.START, None, None)

  /** Ask: a lookup by anybody else; Post: a reply to, a failure of or a timeout of the request in flight. */
  datatype Step =
    | Write(body: string, force: bool)
    | Begin
    | Ask
    | Answer(call: nat, answer: Option<nat>)
    | Announce(port: nat)
    | LookupTimeout(call: nat)
    | Post(step: Settings.Step)

  function WithPort(settings: Settings.State, port: nat): Settings.State {
    Settings.Apply(settings, Settings.UrlReady(PortUrl(port)))
  }

  /** An announcement settles the waiting lookups and starts a generation, in one event; whoever waited
      goes on only after that. */
  function Apply(sys: System, step: Step): System {
    var System(client, settings, asking, _) := sys;
    match step
    case Write(body, force) => sys.(settings := Settings.Apply(settings, Settings.Call(body, force)))
    case Begin =>
      if settings.head >= |settings.ops| || !settings.ops[settings.head].phase.Waiting? then sys
      else
        var begun := Settings.Apply(settings, Settings.Begin);
        if client.cached.Some? then
          sys.(client := Client.Apply(client, Client.Ask), settings := WithPort(begun, client.cached.value))
        else
          sys.(client := Client.Apply(client, Client.Ask), settings := begun, asking := Some(client.asked))
    case Ask => sys.(client := Client.Apply(client, Client.Ask))
    case Answer(call, port) =>
      var client' := Client.Apply(client, Client.Answer(call, port));
      if call in client.invoking && port.Some? && asking == Some(call) then
        sys.(client := client', settings := WithPort(settings, port.value), asking := None)
      else sys.(client := client')
    case Announce(port) =>
      var client' := Client.Apply(client, Client.Ready(port));
      var settings' := Settings.Apply(settings, Settings.Invalidate);
      if asking.Some? && asking.value in client.waiters then
        System(client', WithPort(settings', port), None, Some(port))
      else System(client', settings', asking, Some(port))
    case LookupTimeout(call) =>
      var client' := Client.Apply(client, Client.Timeout(call));
      if call in client.timers && asking == Some(call) then
        sys.(client := client', settings := Settings.Apply(settings, Settings.UrlFailed), asking := None)
      else sys.(client := client')
    case Post(s) =>
      if s.Reply? || s.FetchFails? || s.Timeout? then sys.(settings := Settings.Apply(settings, s)) else sys
  }

  function After(sys: System, more: seq<Step>): System {
    if more == [] then sys else Apply(After(sys, more[..|more| - 1]), more[|more| - 1])
  }

  function Run(steps: seq<Step>): System {
    After(START, steps)
  }

  // ---------------------------------------------------------------- one step

  predicate Posts(sys: System, step: Step) {
    Apply(sys, step).settings.posts != sys.settings.posts
  }

  /** Before the step it is known that the write will not go to that port: it starts with another one
      cached, or goes on with an answer that tells another. */
  predicate TellsOther(sys: System, step: Step, port: nat) {
    (step.Begin? && sys.client.cached != Some(port)) || (step.Answer? && step.answer != Some(port))
  }

  function NewPost(settings: Settings.State, step: Step, port: nat): Settings.Post
    requires settings.head < |settings.ops|
  {
    var generation := settings.generation + (if step.Announce? then 1 else 0);
    Settings.Post(settings.head, PortUrl(port), settings.ops[settings.head].body, generation)
  }

  /** What a step of the queue does to the posts: it adds at most one, with the url just found. */
  lemma PostsGrow(settings: Settings.State, step: Settings.Step)
    ensures var after := Settings.Apply(settings, step);
            && (after.posts == settings.posts ||
                (step.UrlReady? && settings.head < |settings.ops| &&
                 after.posts == settings.posts +
                   [Settings.Post(settings.head, step.url, settings.ops[settings.head].body, settings.generation)]))
            && after.generation == (if step.Invalidate? then settings.generation + 1 else settings.generation)
  {
  }

  /** Beginning and a new generation leave the operation at the head and its body as they are. */
  lemma HeadKept(settings: Settings.State, step: Settings.Step)
    requires step.Begin? || step.Invalidate?
    ensures var after := Settings.Apply(settings, step);
            && after.head == settings.head && |after.ops| == |settings.ops|
            && (settings.head < |settings.ops| ==> after.ops[settings.head].body == settings.ops[settings.head].body)
  {
  }

  lemma PortKept(client: Client.State, step: Client.Step)
    ensures !step.Ready? && !step.Answer? ==> Client.Apply(client, step).cached == client.cached
    ensures step.Ready? ==> Client.Apply(client, step).cached == Some(step.announced)
    ensures step.Answer? ==>
              Client.Apply(client, step).cached ==
              if step.call in client.invoking && step.port.Some? then step.port else client.cached
  {
  }

  lemma GenerationGrows(sys: System, step: Step)
    ensures Apply(sys, step).settings.generation == sys.settings.generation + (if step.Announce? then 1 else 0)
    ensures Apply(sys, step).announced == if step.Announce? then Some(step.port) else sys.announced
  {
    var System(client, settings, asking, _) := sys;
    match step
    case Write(body, force) => PostsGrow(settings, Settings.Call(body, force));
    case Begin =>
      PostsGrow(settings, Settings.Begin);
      if client.cached.Some? {
        PostsGrow(Settings.Apply(settings, Settings.Begin), Settings.UrlReady(PortUrl(client.cached.value)));
      }
      hide Settings.Apply, Client.Apply, PortUrl;
    case Ask =>
    case Answer(call, port) =>
      if port.Some? {
        PostsGrow(settings, Settings.UrlReady(PortUrl(port.value)));
      }
      hide Settings.Apply, Client.Apply, PortUrl;
    case Announce(port) =>
      PostsGrow(settings, Settings.Invalidate);
      PostsGrow(Settings.Apply(settings, Settings.Invalidate), Settings.UrlReady(PortUrl(port)));
      hide Settings.Apply, Client.Apply, PortUrl;
    case LookupTimeout(_) => PostsGrow(settings, Settings.UrlFailed);
    case Post(s) => PostsGrow(settings, s);
  }

  /** A step posts at most the write at the head, to the port that is cached after the step. */
  lemma PostsToCached(sys: System, step: Step)
    requires Posts(sys, step)
    ensures step.Begin? || step.Announce? || (step.Answer? && step.call in sys.client.invoking && step.answer.Some?)
    ensures var sys', settings := Apply(sys, step), sys.settings;
            && sys'.client.cached.Some? && settings.head < |settings.ops|
            && sys'.settings.posts == settings.posts + [NewPost(settings, step, sys'.client.cached.value)]
  {
    var System(client, settings, asking, announced) := sys;
    match step
    case Write(body, force) => PostsGrow(settings, Settings.Call(body, force));
    case Begin =>
      PortKept(client, Client.Ask);
      PostsGrow(settings, Settings.Begin);
      HeadKept(settings, Settings.Begin);
      if client.cached.Some? {
        PostsGrow(Settings.Apply(settings, Settings.Begin), Settings.UrlReady(PortUrl(client.cached.value)));
      }
      hide Settings.Apply, Client.Apply, PortUrl;
    case Ask =>
    case Answer(call, port) =>
      PortKept(client, Client.Answer(call, port));
      if port.Some? {
        PostsGrow(settings, Settings.UrlReady(PortUrl(port.value)));
      }
      hide Settings.Apply, Client.Apply, PortUrl;
    case Announce(port) =>
      PortKept(client, Client.Ready(port));
      PostsGrow(settings, Settings.Invalidate);
      HeadKept(settings, Settings.Invalidate);
      PostsGrow(Settings.Apply(settings, Settings.Invalidate), Settings.UrlReady(PortUrl(port)));
      hide Settings.Apply, Client.Apply, PortUrl;
    case LookupTimeout(_) => PostsGrow(settings, Settings.UrlFailed);
    case Post(s) => PostsGrow(settings, s);
  }

  lemma CachedAfter(sys: System, step: Step)
    ensures step.Announce? ==> Apply(sys, step).client.cached == Some(step.port)
    ensures step.Answer? ==>
              Apply(sys, step).client.cached ==
              if step.call in sys.client.invoking && step.answer.Some? then step.answer else sys.client.cached
    ensures !step.Announce? && !step.Answer? ==> Apply(sys, step).client.cached == sys.client.cached
  {
    PortKept(sys.client, Client.Ask);
    match step
    case Answer(call, port) => PortKept(sys.client, Client.Answer(call, port));
    case Announce(port) => PortKept(sys.client, Client.Ready(port));
    case LookupTimeout(call) => PortKept(sys.client, Client.Timeout(call));
    case _ =>
  }

  /** In any state, reachable or not: the one write that a step posts misses the announced port exactly
      when, before the step, another one is cached for it or told to it. */
  lemma WrongPortIff(sys: System, step: Step, port: nat)
    requires Posts(sys, step) && Apply(sys, step).announced == Some(port)
    ensures var was, posts := sys.settings.posts, Apply(sys, step).settings.posts;
            && |posts| == |was| + 1 && was <= posts
            && (posts[|was|].url != PortUrl(port) <==> TellsOther(sys, step, port))
  {
    PostsToCached(sys, step);
    CachedAfter(sys, step);
    GenerationGrows(sys, step);
    var cached := Apply(sys, step).client.cached.value;
    hide Apply, PortUrl;
    if PortUrl(cached) == PortUrl(port) {
      UrlsDiffer(cached, port);
    }
  }

  /** The write at the head would not be skipped with this url. */
  predicate Sends(settings: Settings.State, url: string)
    requires settings.head < |settings.ops|
  {
    var op := settings.ops[settings.head];
    op.force || settings.applied != Some(Settings.Applied(url, op.body))
  }

  /** A step posts exactly when the write at the head waits and begins with a known port, or asks and its
      own answer tells a port, or waits for an announcement that comes; and is not skipped. */
  lemma PostsIff(sys: System, step: Step)
    ensures Posts(sys, step) <==>
            var System(client, settings, asking, _) := sys;
            && settings.head < |settings.ops|
            && var phase := settings.ops[settings.head].phase;
               match step
               case Begin =>
                 phase.Waiting? && client.cached.Some? && Sends(settings, PortUrl(client.cached.value))
               case Answer(call, port) =>
                 phase.Resolving? && asking == Some(call) && call in client.invoking && port.Some? &&
                 Sends(settings, PortUrl(port.value))
               case Announce(_) =>
                 phase.Resolving? && asking.Some? && asking.value in client.waiters
               case _ => false
  {
    hide Client.Apply, PortUrl;
    if Posts(sys, step) {
      PostsToCached(sys, step);
    }
    if sys.settings.head < |sys.settings.ops| {
      PostsLonger(sys, step);
    }
  }

  lemma PostsLonger(sys: System, step: Step)
    ensures Posts(sys, step) <==> |Apply(sys, step).settings.posts| == |sys.settings.posts| + 1
  {
    if Posts(sys, step) {
      PostsToCached(sys, step);
    }
  }

  // ---------------------------------------------------------------- every run

  lemma StepKeepsInv(sys: System, step: Step)
    requires Settings.Inv(sys.settings)
    ensures Settings.Inv(Apply(sys, step).settings)
  {
    var System(client, settings, _, _) := sys;
    hide Settings.Inv, Settings.Apply, Client.Apply, PortUrl;
    match step
    case Write(body, force) => Settings.StepKeepsInv(settings, Settings.Call(body, force));
    case Begin =>
      Settings.StepKeepsInv(settings, Settings.Begin);
      if client.cached.Some? {
        Settings.StepKeepsInv(Settings.Apply(settings, Settings.Begin), Settings.UrlReady(PortUrl(client.cached.value)));
      }
    case Ask =>
    case Answer(_, port) =>
      if port.Some? {
        Settings.StepKeepsInv(settings, Settings.UrlReady(PortUrl(port.value)));
      }
    case Announce(port) =>
      Settings.StepKeepsInv(settings, Settings.Invalidate);
      Settings.StepKeepsInv(Settings.Apply(settings, Settings.Invalidate), Settings.UrlReady(PortUrl(port)));
    case LookupTimeout(_) => Settings.StepKeepsInv(settings, Settings.UrlFailed);
    case Post(s) => Settings.StepKeepsInv(settings, s);
  }

  lemma {:induction false} AfterKeepsInv(sys: System, more: seq<Step>)
    requires Settings.Inv(sys.settings)
    ensures Settings.Inv(After(sys, more).settings)
    decreases |more|
  {
    if more != [] {
      hide Settings.Inv, Apply;
      AfterKeepsInv(sys, more[..|more| - 1]);
      StepKeepsInv(After(sys, more[..|more| - 1]), more[|more| - 1]);
    }
  }

  lemma RunInv(steps: seq<Step>)
    ensures Settings.Inv(Run(steps).settings)
  {
    Settings.StartInv();
    AfterKeepsInv(START, steps);
  }

  // ---------------------------------------------------------------- since an announcement

  /** Some write of the current generation went to another port. */
  predicate Missed(settings: Settings.State, port: nat) {
    exists j :: 0 <= j < |settings.posts| && Misses(settings.posts[j], settings.generation, port)
  }

  predicate Misses(post: Settings.Post, generation: nat, port: nat) {
    post.generation == generation && post.url != PortUrl(port)
  }

  /** Step k after sys posts a write on the word of another port. */
  predicate StraysAt(sys: System, more: seq<Step>, k: nat, port: nat)
    requires k < |more|
  {
    Posts(After(sys, more[..k]), more[k]) && TellsOther(After(sys, more[..k]), more[k], port)
  }

  predicate Strays(sys: System, more: seq<Step>, port: nat) {
    exists k :: 0 <= k < |more| && StraysAt(sys, more, k, port)
  }

  lemma MissedMore(was: Settings.State, now: Settings.State, post: Settings.Post, port: nat)
    requires now.posts == was.posts + [post] && now.generation == was.generation
    ensures Missed(now, port) <==> Missed(was, port) || Misses(post, now.generation, port)
  {
    hide Misses;
    if Missed(was, port) {
      var j :| 0 <= j < |was.posts| && Misses(was.posts[j], was.generation, port);
      assert now.posts[j] == was.posts[j];
    }
    assert now.posts[|was.posts|] == post;
  }

  lemma StepMisses(sys: System, step: Step, port: nat)
    requires sys.announced == Some(port) && !step.Announce?
    ensures Missed(Apply(sys, step).settings, port) <==>
            Missed(sys.settings, port) || (Posts(sys, step) && TellsOther(sys, step, port))
  {
    GenerationGrows(sys, step);
    if Posts(sys, step) {
      WrongPortIff(sys, step, port);
      PostsToCached(sys, step);
      var sys' := Apply(sys, step);
      var post := NewPost(sys.settings, step, sys'.client.cached.value);
      hide Apply, TellsOther, PortUrl, Missed;
      MissedMore(sys.settings, sys'.settings, post, port);
    }
  }

  lemma NothingMissedYet(sys: System, port: nat)
    requires Settings.Inv(sys.settings)
    ensures !Missed(Apply(sys, Announce(port)).settings, port)
  {
    var step := Announce(port);
    var settings, after := sys.settings, Apply(sys, step).settings;
    GenerationGrows(sys, step);
    if Posts(sys, step) {
      PostsToCached(sys, step);
      CachedAfter(sys, step);
    }
    hide Apply, PortUrl;
    forall j | 0 <= j < |after.posts|
      ensures !Misses(after.posts[j], after.generation, port)
    {
      if j < |settings.posts| {
        assert Settings.PostFits(settings.ops, settings.generation, settings.posts[j]);
      }
    }
  }

  lemma StraysSnoc(sys: System, more: seq<Step>, port: nat)
    requires more != []
    ensures var n := |more| - 1;
            Strays(sys, more, port) <==> Strays(sys, more[..n], port) || StraysAt(sys, more, n, port)
  {
    var n := |more| - 1;
    forall k | 0 <= k < n
      ensures StraysAt(sys, more[..n], k, port) == StraysAt(sys, more, k, port)
    {
      assert more[..n][..k] == more[..k];
    }
  }

  lemma {:induction false} MissedAfter(sys: System, more: seq<Step>, port: nat)
    requires sys.announced == Some(port) && !Missed(sys.settings, port)
    requires forall k :: 0 <= k < |more| ==> !more[k].Announce?
    ensures After(sys, more).announced == Some(port)
    ensures Missed(After(sys, more).settings, port) <==> Strays(sys, more, port)
    decreases |more|
  {
    if more != [] {
      var n := |more| - 1;
      MissedAfter(sys, more[..n], port);
      StraysSnoc(sys, more, port);
      hide Apply, Missed, Strays, Posts, TellsOther;
      GenerationGrows(After(sys, more[..n]), more[n]);
      StepMisses(After(sys, more[..n]), more[n], port);
    }
  }

  // ---------------------------------------------------------------- theorems

  /** Whatever came before an announcement: until the next one, a write of its generation has gone to
      another port exactly when some step since posted one with another port cached or told. */
  lemma MissedIff(before: seq<Step>, port: nat, more: seq<Step>)
    requires forall k :: 0 <= k < |more| ==> !more[k].Announce?
    ensures var sys := Apply(Run(before), Announce(port));
            Missed(After(sys, more).settings, port) <==> Strays(sys, more, port)
  {
    RunInv(before);
    NothingMissedYet(Run(before), port);
    GenerationGrows(Run(before), Announce(port));
    hide Apply, Missed, Strays, Run, After;
    MissedAfter(Apply(Run(before), Announce(port)), more, port);
  }

  /** The step is no answer with another port. */
  predicate Clean(sys: System, step: Step, port: nat) {
    step.Answer? && step.call in sys.client.invoking && step.answer.Some? ==> step.answer == Some(port)
  }

  predicate CleanAfter(sys: System, more: seq<Step>, port: nat) {
    forall k :: 0 <= k < |more| ==> Clean(After(sys, more[..k]), more[k], port)
  }

  lemma CleanPrefix(sys: System, more: seq<Step>, n: nat, port: nat)
    requires CleanAfter(sys, more, port) && n <= |more|
    ensures CleanAfter(sys, more[..n], port)
  {
    hide Clean, After;
    forall k | 0 <= k < n
      ensures Clean(After(sys, more[..n][..k]), more[..n][k], port)
    {
      assert more[..n][..k] == more[..k];
      assert Clean(After(sys, more[..k]), more[k], port);
    }
  }

  lemma {:induction false} CleanKeepsPort(sys: System, more: seq<Step>, port: nat)
    requires sys.client.cached == Some(port) && CleanAfter(sys, more, port)
    requires forall k :: 0 <= k < |more| ==> !more[k].Announce?
    ensures After(sys, more).client.cached == Some(port)
    decreases |more|
  {
    if more != [] {
      var n := |more| - 1;
      CleanPrefix(sys, more, n, port);
      CleanKeepsPort(sys, more[..n], port);
      assert Clean(After(sys, more[..n]), more[n], port);
      hide Apply, CleanAfter;
      CachedAfter(After(sys, more[..n]), more[n]);
    }
  }

  lemma CleanNeverStrays(sys: System, more: seq<Step>, port: nat)
    requires sys.client.cached == Some(port) && CleanAfter(sys, more, port)
    requires forall k :: 0 <= k < |more| ==> !more[k].Announce?
    ensures !Strays(sys, more, port)
  {
    forall k | 0 <= k < |more|
      ensures !StraysAt(sys, more, k, port)
    {
      var now := After(sys, more[..k]);
      assert Clean(now, more[k], port);
      hide Apply, After;
      CleanPrefix(sys, more, k, port);
      CleanKeepsPort(sys, more[..k], port);
      if Posts(now, more[k]) {
        hide Posts;
        PostsToCached(now, more[k]);
      }
    }
  }

  /** An acknowledged write was posted with its url and generation. */
  lemma AckPosted(settings: Settings.State, k: nat, port: nat)
    requires Settings.Inv(settings) && !Missed(settings, port) && k < |settings.acks|
    requires settings.acks[k].generation == settings.generation
    ensures settings.acks[k].url == PortUrl(port)
  {
    var ack := settings.acks[k];
    hide PortUrl;
    assert Settings.AckFits(settings.ops, settings.head, settings.generation, settings.posts, ack);
    var j :| 0 <= j < |settings.posts| && settings.posts[j] == Settings.Post(ack.op, ack.url, ack.body, ack.generation);
    assert !Misses(settings.posts[j], settings.generation, port);
  }

  lemma AppliedIsAck(settings: Settings.State)
    requires Settings.Inv(settings) && settings.applied.Some?
    ensures exists k :: 0 <= k < |settings.acks| && settings.acks[k].generation == settings.generation &&
                        settings.acks[k].url == settings.applied.value.url
  {
  }

  /** Whatever came before an announcement: until the next one, as long as no answer tells another port,
      the url of an acknowledged write of the generation, and that of the applied settings, carries the
      announced port. */
  lemma AcknowledgedPort(before: seq<Step>, port: nat, more: seq<Step>)
    requires forall k :: 0 <= k < |more| ==> !more[k].Announce?
    requires CleanAfter(Apply(Run(before), Announce(port)), more, port)
    ensures var st := After(Apply(Run(before), Announce(port)), more).settings;
            && (forall k :: 0 <= k < |st.acks| && st.acks[k].generation == st.generation ==>
                  st.acks[k].url == PortUrl(port))
            && (st.applied.Some? ==> st.applied.value.url == PortUrl(port))
  {
    hide After, Missed, Strays, CleanAfter, PortUrl, Settings.Inv;
    var sys := Apply(Run(before), Announce(port));
    RunInv(before);
    StepKeepsInv(Run(before), Announce(port));
    AfterKeepsInv(sys, more);
    CachedAfter(Run(before), Announce(port));
    MissedIff(before, port, more);
    hide Apply, Run;
    CleanNeverStrays(sys, more, port);
    var st := After(sys, more).settings;
    forall k | 0 <= k < |st.acks| && st.acks[k].generation == st.generation
      ensures st.acks[k].url == PortUrl(port)
    {
      AckPosted(st, k, port);
    }
    if st.applied.Some? {
      AppliedIsAck(st);
    }
  }

  /** It happens: an answer to an older question, after the announcement, sends a write to the older port. */
  lemma OlderPortArises(older: nat, announced: nat, body: string)
    ensures var asked := Apply(Apply(START, Ask), Announce(announced));
            var sys := Apply(Apply(Apply(asked, Answer(0, Some(older))), Write(body, false)), Begin);
            sys.announced == Some(announced) &&
            sys.settings.posts == [Settings.Post(0, PortUrl(older), body, sys.settings.generation)]
  {
    hide PortUrl;
    var sys := Apply(Apply(START, Ask), Announce(announced));
    assert sys.client == Client.START.(cached := Some(announced), asked := 1, invoking := {0});
    var known := Apply(Apply(sys, Answer(0, Some(older))), Write(body, false));
    assert known.client.cached == Some(older) && known.settings.ops == [Settings.Operation(body, false, Settings.Waiting)];
  }
}
