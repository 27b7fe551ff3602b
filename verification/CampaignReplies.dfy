/** What the campaign fixture answers, told by the requests before: each configured failure happens once,
    at the first request that it concerns. */
module CampaignReplies {
  import opened Options
  import opened CampaignCommits

  function ReplyAt(failures: Failures, seeded: Option<Campaign>, requests: seq<Request>, k: nat): Reply
    requires k < |requests|
  {
    Apply(Run(failures, seeded, requests[..k]), requests[k]).1
  }

  /** Request k was a creation that was not refused. */
  predicate CreatedAt(failures: Failures, seeded: Option<Campaign>, requests: seq<Request>, k: nat)
    requires k < |requests|
  {
    requests[k].Create? && ReplyAt(failures, seeded, requests, k) != RequestChanged
  }

  /** Request k was a commit to a campaign that exists. */
  predicate ReachedAt(failures: Failures, seeded: Option<Campaign>, requests: seq<Request>, k: nat)
    requires k < |requests|
  {
    requests[k].Put? && ReplyAt(failures, seeded, requests, k) != NotFound
  }

  predicate SomeCreated(failures: Failures, seeded: Option<Campaign>, requests: seq<Request>) {
    exists k :: 0 <= k < |requests| && CreatedAt(failures, seeded, requests, k)
  }

  predicate SomeReached(failures: Failures, seeded: Option<Campaign>, requests: seq<Request>) {
    exists k :: 0 <= k < |requests| && ReachedAt(failures, seeded, requests, k)
  }

  lemma LastRequest(failures: Failures, seeded: Option<Campaign>, requests: seq<Request>)
    requires requests != []
    ensures var n := |requests| - 1;
            && (SomeCreated(failures, seeded, requests) <==>
                  SomeCreated(failures, seeded, requests[..n]) || CreatedAt(failures, seeded, requests, n))
            && (SomeReached(failures, seeded, requests) <==>
                  SomeReached(failures, seeded, requests[..n]) || ReachedAt(failures, seeded, requests, n))
  {
    hide Run;
    var n := |requests| - 1;
    forall k | 0 <= k < n
      ensures CreatedAt(failures, seeded, requests[..n], k) == CreatedAt(failures, seeded, requests, k)
      ensures ReachedAt(failures, seeded, requests[..n], k) == ReachedAt(failures, seeded, requests, k)
    {
      assert requests[..n][..k] == requests[..k];
    }
  }

  /** Which failures have happened. */
  predicate SpentBy(server: Server, created: bool, reached: bool) {
    && (server.spent.creationAckOnce <==> server.failures.creationAckOnce && created)
    && (server.spent.characterRejectOnce <==> server.failures.characterRejectOnce && reached)
    && (server.spent.characterAckOnce <==> server.failures.characterAckOnce && server.receipts != map[])
  }

  lemma SpentNext(server: Server, created: bool, reached: bool, request: Request)
    requires SpentBy(server, created, reached)
    ensures var (server', reply) := Apply(server, request);
            SpentBy(server', created || (request.Create? && reply != RequestChanged),
                    reached || (request.Put? && reply != NotFound))
  {
    match request
    case Create(_, _, _, _, _, _) =>
    case Put(id, commit) =>
      if Accepts(server, id, commit) {
        PutApplies(server, id, commit);
        assert Key(id, commit.causation) in AppliedReceipts(server.states, server.receipts, id, commit);
      } else {
        PutRefuses(server, id, commit);
      }
    case Get(_) =>
  }

  lemma {:induction false} RunSpends(failures: Failures, seeded: Option<Campaign>, requests: seq<Request>)
    ensures Run(failures, seeded, requests).failures == failures
    ensures SpentBy(Run(failures, seeded, requests), SomeCreated(failures, seeded, requests),
                    SomeReached(failures, seeded, requests))
    decreases |requests|
  {
    RunKeeps(failures, seeded, requests);
    if requests != [] {
      var n := |requests| - 1;
      RunSpends(failures, seeded, requests[..n]);
      LastRequest(failures, seeded, requests);
      hide Apply, SpentBy, SomeCreated, SomeReached, Consistent;
      SpentNext(Run(failures, seeded, requests[..n]), SomeCreated(failures, seeded, requests[..n]),
                SomeReached(failures, seeded, requests[..n]), requests[n]);
    }
  }

  // ---------------------------------------------------------------- theorems

  /** A creation after any run: refused when it differs from the campaign of its id; otherwise it answers
      with that campaign, new or not, except that the first one of the run is lost if so configured. */
  lemma CreateTells(failures: Failures, seeded: Option<Campaign>, before: seq<Request>, id: string, session: string,
                    title: string, premise: string, seed: string, uuid: string, named: bool)
    requires named || id == uuid
    ensures var server := Run(failures, seeded, before);
            var request := Create(if named then Some(id) else None, uuid, session, title, premise, seed);
            var (server', reply) := Apply(server, request);
            if id in server.states && (server.states[id].title != title || server.states[id].premise != premise ||
                                       server.states[id].seed != seed) then
              server' == server && reply == RequestChanged
            else
              var campaign := if id in server.states then server.states[id]
                              else Campaign(id, session, title, premise, seed, 1, None, "");
              && server'.states == server.states[id := campaign] && server'.receipts == server.receipts
              && reply == if failures.creationAckOnce && !SomeCreated(failures, seeded, before) then Dropped
                          else Created(campaign)
  {
    RunSpends(failures, seeded, before);
    hide Run, SomeCreated, SomeReached;
  }

  /** A commit after any run, in the order of the tests: the first to an existing campaign is refused if so
      configured; one with a receipt is answered from it; one against another session or revision is
      refused; any other makes the next revision, and the reply to the first of these is lost if so
      configured. */
  lemma CommitTells(failures: Failures, seeded: Option<Campaign>, before: seq<Request>, id: string, commit: Commit)
    ensures var server := Run(failures, seeded, before);
            var (server', reply) := Apply(server, Put(id, commit));
            var key := id + ":" + commit.causation;
            if id !in server.states then server' == server && reply == NotFound
            else if failures.characterRejectOnce && !SomeReached(failures, seeded, before) then
              reply == CharacterInvalid && server'.states == server.states && server'.receipts == server.receipts
            else if key in server.receipts then
              && server' == server
              && reply == if server.receipts[key].signature == commit then Current(server.receipts[key].state) else Conflict
            else
              var old' := server.states[id];
              if commit.session != old'.session || commit.expected != old'.revision then
                server' == server && reply == RevisionConflict
              else
                var next := Campaign(old'.id, old'.session, old'.title, old'.premise, old'.seed, old'.revision + 1,
                                     Some(commit.character), commit.sheet);
                && server'.states == server.states[id := next]
                && server'.receipts == server.receipts[key := Receipt(commit, next)]
                && reply == if failures.characterAckOnce && server.receipts == map[] then Dropped else Current(next)
  {
    RunSpends(failures, seeded, before);
    hide Run, SomeCreated, SomeReached;
  }
}
