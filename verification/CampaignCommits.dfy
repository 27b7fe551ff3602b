/** Campaigns committed by optimistic revision and receipt, over a connection that can lose replies. */
module CampaignCommits {
  import opened Options

  datatype Campaign = Campaign(
    id: string,
    session: string,
    title: string,
    premise: string,
    seed: string,
    revision: nat,
    character: Option<string>,
    sheet: string)

  /** The body of a character commit. */
  datatype Commit = Commit(causation: string, session: string, expected: int, character: string, sheet: string)

  datatype Receipt = Receipt(signature: Commit, state: Campaign)

  datatype Failures = Failures(creationAckOnce: bool, characterAckOnce: bool, characterRejectOnce: bool)

  /** spent tells which of the failures have happened already. */
  datatype Server = Server(
    failures: Failures,
    spent: Failures,
    states: map<string, Campaign>,
    receipts: map<string, Receipt>)

  datatype Reply =
    | Created(campaign: Campaign)
    | Current(campaign: Campaign)
    | RequestChanged
    | NotFound
    | CharacterInvalid
    | Conflict
    | RevisionConflict
    | Dropped

  /** uuid and session are the identifiers that the server draws. */
  datatype Request =
    | Create(requestId: Option<string>, uuid: string, session: string, title: string, premise: string, seed: string)
    | Put(id: string, commit: Commit)
    | Get(id: string)

  function Key(id: string, causation: string): string {
    id + ":" + causation
  }

  function CampaignId(request: Request): string
    requires request.Create?
  {
    if request.requestId.Some? then request.requestId.value else request.uuid
  }

  predicate SameCreation(campaign: Campaign, request: Request)
    requires request.Create?
  {
    campaign.title == request.title && campaign.premise == request.premise && campaign.seed == request.seed
  }

  function OnCreate(server: Server, request: Request): (Server, Reply)
    requires request.Create?
  {
    var id := CampaignId(request);
    if id in server.states && !SameCreation(server.states[id], request) then (server, RequestChanged)
    else
      var campaign := if id in server.states then server.states[id]
                      else Campaign(id, request.session, request.title, request.premise, request.seed, 1, None, "");
      var server' := server.(states := server.states[id := campaign]);
      if server.failures.creationAckOnce && !server.spent.creationAckOnce then
        (server'.(spent := server.spent.(creationAckOnce := true)), Dropped)
      else (server', Created(campaign))
  }

  function Committed(campaign: Campaign, commit: Commit): Campaign {
    campaign.(character := Some(commit.character), sheet := commit.sheet, revision := campaign.revision + 1)
  }

  function OnPut(server: Server, id: string, commit: Commit): (Server, Reply) {
    if id !in server.states then (server, NotFound)
    else if server.failures.characterRejectOnce && !server.spent.characterRejectOnce then
      (server.(spent := server.spent.(characterRejectOnce := true)), CharacterInvalid)
    else
      var key, campaign := Key(id, commit.causation), server.states[id];
      if key in server.receipts then
        (server, if server.receipts[key].signature == commit then Current(server.receipts[key].state) else Conflict)
      else if commit.session != campaign.session || commit.expected != campaign.revision then (server, RevisionConflict)
      else
        var campaign' := Committed(campaign, commit);
        var server' := server.(states := server.states[id := campaign'],
                               receipts := server.receipts[key := Receipt(commit, campaign')]);
        if server.failures.characterAckOnce && !server.spent.characterAckOnce then
          (server'.(spent := server.spent.(characterAckOnce := true)), Dropped)
        else (server', Current(campaign'))
  }

  function Apply(server: Server, request: Request): (Server, Reply) {
    match request
    case Create(_, _, _, _, _, _) => OnCreate(server, request)
    case Put(id, commit) => OnPut(server, id, commit)
    case Get(id) => (server, if id in server.states then Current(server.states[id]) else NotFound)
  }

  const NOT_SPENT := Failures(false, false, false)

  /** The campaign that the fixture may start with has revision 2. */
  function Start(failures: Failures, seeded: Option<Campaign>): Server {
    Server(failures, NOT_SPENT,
           if seeded.Some? then map[seeded.value.id := seeded.value.(revision := 2)] else map[], map[])
  }

  function From(server: Server, requests: seq<Request>): Server {
    if requests == [] then server
    else Apply(From(server, requests[..|requests| - 1]), requests[|requests| - 1]).0
  }

  // ---------------------------------------------------------------- the fixture's state

  class CampaignFixture {
    const failures: Failures
    var creationAckLost: bool
    var characterAckLost: bool
    var characterRejected: bool
    var states: map<string, Campaign>
    var receipts: map<string, Receipt>

    function Value(): Server
      reads this
    {
      Server(failures, Failures(creationAckLost, characterAckLost, characterRejected), states, receipts)
    }

    constructor (failures: Failures, seeded: Option<Campaign>)
      ensures Value() == Start(failures, seeded)
    {
      this.failures := failures;
      creationAckLost, characterAckLost, characterRejected := false, false, false;
      states := if seeded.Some? then map[seeded.value.id := seeded.value.(revision := 2)] else map[];
      receipts := map[];
    }

    method CreateCampaign(request: Request) returns (reply: Reply)
      requires request.Create?
      modifies this
      ensures (Value(), reply) == OnCreate(old(Value()), request)
    {
      var id := CampaignId(request);
      if id in states && (states[id].title != request.title || states[id].premise != request.premise ||
                          states[id].seed != request.seed) {
        return RequestChanged;
      }
      if id !in states {
        var campaign := Campaign(id, request.session, request.title, request.premise, request.seed, 2, None, "");
        states := states[id := campaign.(revision := 1)];
      }
      assert states == states[id := states[id]];
      if failures.creationAckOnce && !creationAckLost {
        creationAckLost := true;
        return Dropped;
      }
      return Created(states[id]);
    }

    method PutCharacter(id: string, commit: Commit) returns (reply: Reply)
      modifies this
      ensures (Value(), reply) == OnPut(old(Value()), id, commit)
    {
      if id !in states {
        return NotFound;
      }
      if failures.characterRejectOnce && !characterRejected {
        characterRejected := true;
        return CharacterInvalid;
      }
      var key := id + ":" + commit.causation;
      if key in receipts {
        return if receipts[key].signature == commit then Current(receipts[key].state) else Conflict;
      }
      var state := states[id];
      if commit.session != state.session || commit.expected != state.revision {
        return RevisionConflict;
      }
      state := state.(character := Some(commit.character), sheet := commit.sheet);
      state := state.(revision := state.revision + 1);
      states := states[id := state];
      receipts := receipts[key := Receipt(commit, state)];
      if failures.characterAckOnce && !characterAckLost {
        characterAckLost := true;
        return Dropped;
      }
      return Current(state);
    }
  }

  // ---------------------------------------------------------------- what every request keeps

  type States = map<string, Campaign>
  type Receipts = map<string, Receipt>

  /** The keys of the receipts for commits to one campaign. */
  function KeysOf(receipts: Receipts, id: string): set<string> {
    set key <- receipts.Keys | receipts[key].state.id == id
  }

  function StartRevision(seeded: Option<Campaign>, id: string): nat {
    if seeded.Some? && seeded.value.id == id then 2 else 1
  }

  /** A receipt belongs to its campaign, and holds it as its commit left it. */
  predicate ReceiptFits(states: States, receipt: Receipt, key: string, seeded: Option<Campaign>) {
    var Receipt(commit, state) := receipt;
    && key == Key(state.id, commit.causation)
    && state.id in states
    && state.session == states[state.id].session == commit.session
    && commit.expected + 1 == state.revision
    && StartRevision(seeded, state.id) < state.revision <= states[state.id].revision
    && state.character == Some(commit.character) && state.sheet == commit.sheet
  }

  predicate Named(states: States) {
    forall id <- states :: states[id].id == id
  }

  predicate Fitting(states: States, receipts: Receipts, seeded: Option<Campaign>) {
    forall key <- receipts :: ReceiptFits(states, receipts[key], key, seeded)
  }

  /** No two commits made the same revision of one campaign. */
  predicate Distinct(receipts: Receipts) {
    forall a <- receipts, b <- receipts :: SameRevision(receipts[a], receipts[b]) ==> a == b
  }

  predicate SameRevision(a: Receipt, b: Receipt) {
    a.state.id == b.state.id && a.state.revision == b.state.revision
  }

  /** The revision counts the receipts. */
  predicate Counted(states: States, receipts: Receipts, seeded: Option<Campaign>) {
    forall id <- states :: states[id].revision == StartRevision(seeded, id) + |KeysOf(receipts, id)|
  }

  predicate Sound(states: States, receipts: Receipts, seeded: Option<Campaign>) {
    && Named(states) && Fitting(states, receipts, seeded) && Distinct(receipts) && Counted(states, receipts, seeded)
    && (seeded.Some? ==> seeded.value.id in states)
  }

  predicate Consistent(server: Server, seeded: Option<Campaign>) {
    && Sound(server.states, server.receipts, seeded)
    && (server.receipts != map[] && server.failures.characterRejectOnce ==> server.spent.characterRejectOnce)
  }

  /** Campaigns stay what they were created as, and change only by revision; receipts stay. */
  predicate StatesExtend(states: States, states': States) {
    forall id <- states :: id in states' && CampaignExtends(states[id], states'[id])
  }

  predicate CampaignExtends(a: Campaign, b: Campaign) {
    && b.id == a.id && b.session == a.session && b.title == a.title && b.premise == a.premise && b.seed == a.seed
    && a.revision <= b.revision
    && (a.revision == b.revision ==> a == b)
  }

  predicate ReceiptsExtend(receipts: Receipts, receipts': Receipts) {
    forall key <- receipts :: key in receipts' && receipts'[key] == receipts[key]
  }

  predicate Extends(server: Server, server': Server) {
    && server'.failures == server.failures
    && (server.spent.characterRejectOnce ==> server'.spent.characterRejectOnce)
    && StatesExtend(server.states, server'.states)
    && ReceiptsExtend(server.receipts, server'.receipts)
  }

  lemma NewFits(states: States, receipts: Receipts, seeded: Option<Campaign>, campaign: Campaign)
    requires Fitting(states, receipts, seeded) && campaign.id !in states
    ensures Fitting(states[campaign.id := campaign], receipts, seeded)
  {
    var states' := states[campaign.id := campaign];
    forall key <- receipts
      ensures ReceiptFits(states', receipts[key], key, seeded)
    {
      assert ReceiptFits(states, receipts[key], key, seeded);
    }
  }

  lemma NewCounts(states: States, receipts: Receipts, seeded: Option<Campaign>, campaign: Campaign)
    requires Fitting(states, receipts, seeded) && Counted(states, receipts, seeded)
    requires campaign.id !in states && campaign.revision == StartRevision(seeded, campaign.id)
    ensures Counted(states[campaign.id := campaign], receipts, seeded)
  {
    forall key <- receipts
      ensures receipts[key].state.id != campaign.id
    {
      assert ReceiptFits(states, receipts[key], key, seeded);
    }
    assert KeysOf(receipts, campaign.id) == {};
  }

  function NewCampaign(request: Request): Campaign
    requires request.Create?
  {
    Campaign(CampaignId(request), request.session, request.title, request.premise, request.seed, 1, None, "")
  }

  lemma CreatedStates(server: Server, request: Request)
    requires request.Create?
    ensures var id, server' := CampaignId(request), OnCreate(server, request).0;
            && server'.failures == server.failures && server'.receipts == server.receipts
            && server'.spent.characterRejectOnce == server.spent.characterRejectOnce
            && server'.states == if id in server.states then server.states else server.states[id := NewCampaign(request)]
  {
    var id := CampaignId(request);
    if id in server.states {
      assert server.states[id := server.states[id]] == server.states;
    }
  }

  lemma CreateKeeps(server: Server, seeded: Option<Campaign>, request: Request)
    requires Consistent(server, seeded) && request.Create?
    ensures Consistent(OnCreate(server, request).0, seeded) && Extends(server, OnCreate(server, request).0)
  {
    hide Fitting, Counted, Distinct;
    CreatedStates(server, request);
    hide OnCreate;
    if CampaignId(request) !in server.states {
      NewFits(server.states, server.receipts, seeded, NewCampaign(request));
      NewCounts(server.states, server.receipts, seeded, NewCampaign(request));
    }
  }

  /** A commit that finds its campaign, no receipt and the right session and revision. */
  predicate Accepts(server: Server, id: string, commit: Commit) {
    && (server.failures.characterRejectOnce ==> server.spent.characterRejectOnce)
    && Applicable(server.states, server.receipts, id, commit)
  }

  predicate Applicable(states: States, receipts: Receipts, id: string, commit: Commit) {
    && id in states
    && Key(id, commit.causation) !in receipts
    && commit.session == states[id].session && commit.expected == states[id].revision
  }

  function AppliedStates(states: States, id: string, commit: Commit): States
    requires id in states
  {
    states[id := Committed(states[id], commit)]
  }

  function AppliedReceipts(states: States, receipts: Receipts, id: string, commit: Commit): Receipts
    requires id in states
  {
    receipts[Key(id, commit.causation) := Receipt(commit, Committed(states[id], commit))]
  }

  lemma AppliedFits(states: States, receipts: Receipts, seeded: Option<Campaign>, id: string, commit: Commit)
    requires Sound(states, receipts, seeded) && Applicable(states, receipts, id, commit)
    ensures Fitting(AppliedStates(states, id, commit), AppliedReceipts(states, receipts, id, commit), seeded)
  {
    var states', receipts' := AppliedStates(states, id, commit), AppliedReceipts(states, receipts, id, commit);
    forall key <- receipts'
      ensures ReceiptFits(states', receipts'[key], key, seeded)
    {
      if key != Key(id, commit.causation) {
        assert ReceiptFits(states, receipts[key], key, seeded);
      }
    }
  }

  lemma AppliedDistinct(states: States, receipts: Receipts, seeded: Option<Campaign>, id: string, commit: Commit)
    requires Sound(states, receipts, seeded) && Applicable(states, receipts, id, commit)
    ensures Distinct(AppliedReceipts(states, receipts, id, commit))
  {
    forall key <- receipts
      ensures receipts[key].state.id == id ==> receipts[key].state.revision <= states[id].revision
    {
      assert ReceiptFits(states, receipts[key], key, seeded);
    }
  }

  lemma KeysWith(receipts: Receipts, key: string, receipt: Receipt, id: string)
    requires key !in receipts
    ensures key !in KeysOf(receipts, id)
    ensures KeysOf(receipts[key := receipt], id) ==
            KeysOf(receipts, id) + (if receipt.state.id == id then {key} else {})
  {
  }

  lemma AppliedCounts(states: States, receipts: Receipts, seeded: Option<Campaign>, id: string, commit: Commit)
    requires Sound(states, receipts, seeded) && Applicable(states, receipts, id, commit)
    ensures Counted(AppliedStates(states, id, commit), AppliedReceipts(states, receipts, id, commit), seeded)
  {
    var key, states' := Key(id, commit.causation), AppliedStates(states, id, commit);
    var receipt := Receipt(commit, states'[id]);
    assert receipt.state.id == id;
    forall other <- states'
      ensures states'[other].revision == StartRevision(seeded, other) + |KeysOf(receipts[key := receipt], other)|
    {
      KeysWith(receipts, key, receipt, other);
    }
  }

  lemma AppliedExtends(states: States, receipts: Receipts, id: string, commit: Commit)
    requires Applicable(states, receipts, id, commit)
    ensures StatesExtend(states, AppliedStates(states, id, commit))
    ensures ReceiptsExtend(receipts, AppliedReceipts(states, receipts, id, commit))
    ensures Named(states) ==> Named(AppliedStates(states, id, commit))
  {
  }

  lemma PutApplies(server: Server, id: string, commit: Commit)
    requires Accepts(server, id, commit)
    ensures var server' := OnPut(server, id, commit).0;
            && server'.states == AppliedStates(server.states, id, commit)
            && server'.receipts == AppliedReceipts(server.states, server.receipts, id, commit)
            && server'.failures == server.failures
            && server'.spent.characterRejectOnce == server.spent.characterRejectOnce
  {
  }

  lemma AppliedKeeps(server: Server, seeded: Option<Campaign>, id: string, commit: Commit)
    requires Consistent(server, seeded) && Accepts(server, id, commit)
    ensures Consistent(OnPut(server, id, commit).0, seeded) && Extends(server, OnPut(server, id, commit).0)
  {
    PutApplies(server, id, commit);
    AppliedFits(server.states, server.receipts, seeded, id, commit);
    AppliedDistinct(server.states, server.receipts, seeded, id, commit);
    AppliedCounts(server.states, server.receipts, seeded, id, commit);
    AppliedExtends(server.states, server.receipts, id, commit);
  }

  lemma PutRefuses(server: Server, id: string, commit: Commit)
    requires !Accepts(server, id, commit)
    ensures var server' := OnPut(server, id, commit).0;
            && server'.states == server.states && server'.receipts == server.receipts
            && server'.failures == server.failures
            && (server.spent.characterRejectOnce ==> server'.spent.characterRejectOnce)
  {
  }

  lemma RefusedKeeps(server: Server, seeded: Option<Campaign>, id: string, commit: Commit)
    requires Consistent(server, seeded) && !Accepts(server, id, commit)
    ensures Consistent(OnPut(server, id, commit).0, seeded) && Extends(server, OnPut(server, id, commit).0)
  {
    PutRefuses(server, id, commit);
  }

  lemma RequestKeeps(server: Server, seeded: Option<Campaign>, request: Request)
    requires Consistent(server, seeded)
    ensures Consistent(Apply(server, request).0, seeded) && Extends(server, Apply(server, request).0)
  {
    match request
    case Create(_, _, _, _, _, _) => CreateKeeps(server, seeded, request);
    case Put(id, commit) =>
      if Accepts(server, id, commit) {
        AppliedKeeps(server, seeded, id, commit);
      } else {
        RefusedKeeps(server, seeded, id, commit);
      }
    case Get(_) =>
  }

  lemma ExtendsTwice(a: Server, b: Server, c: Server)
    requires Extends(a, b) && Extends(b, c)
    ensures Extends(a, c)
  {
  }

  lemma {:induction false} FromKeeps(server: Server, seeded: Option<Campaign>, requests: seq<Request>)
    requires Consistent(server, seeded)
    ensures Consistent(From(server, requests), seeded) && Extends(server, From(server, requests))
    decreases |requests|
  {
    if requests != [] {
      var before := From(server, requests[..|requests| - 1]);
      FromKeeps(server, seeded, requests[..|requests| - 1]);
      RequestKeeps(before, seeded, requests[|requests| - 1]);
      ExtendsTwice(server, before, From(server, requests));
    }
  }

  function Run(failures: Failures, seeded: Option<Campaign>, requests: seq<Request>): Server {
    From(Start(failures, seeded), requests)
  }

  lemma RunKeeps(failures: Failures, seeded: Option<Campaign>, requests: seq<Request>)
    ensures Consistent(Run(failures, seeded, requests), seeded)
    ensures Run(failures, seeded, requests).failures == failures
  {
    var start := Start(failures, seeded);
    if seeded.Some? {
      assert KeysOf(start.receipts, seeded.value.id) == {};
    }
    FromKeeps(start, seeded, requests);
  }

  // ---------------------------------------------------------------- theorems

  /** The revision of a campaign is its first one plus the number of commits it has a receipt for; their
      causations are distinct, and so are the revisions they made. */
  lemma RevisionCountsCommits(failures: Failures, seeded: Option<Campaign>, requests: seq<Request>, id: string)
    requires id in Run(failures, seeded, requests).states
    ensures var server := Run(failures, seeded, requests); var keys := KeysOf(server.receipts, id);
            && server.states[id].revision == StartRevision(seeded, id) + |keys|
            && (forall a <- keys, b <- keys | a != b ::
                  && server.receipts[a].signature.causation != server.receipts[b].signature.causation
                  && server.receipts[a].state.revision != server.receipts[b].state.revision)
  {
    RunKeeps(failures, seeded, requests);
    var server := Run(failures, seeded, requests);
    forall a <- KeysOf(server.receipts, id), b <- KeysOf(server.receipts, id) | a != b
      ensures server.receipts[a].signature.causation != server.receipts[b].signature.causation
      ensures server.receipts[a].state.revision != server.receipts[b].state.revision
    {
      assert ReceiptFits(server.states, server.receipts[a], a, seeded);
      assert ReceiptFits(server.states, server.receipts[b], b, seeded);
      assert !SameRevision(server.receipts[a], server.receipts[b]);
    }
  }

  /** A replay of a commit that has its receipt is answered from it. */
  lemma Replayed(server: Server, seeded: Option<Campaign>, id: string, commit: Commit, state: Campaign, replay: Commit)
    requires Consistent(server, seeded) && id in server.states
    requires Key(id, commit.causation) in server.receipts && replay.causation == commit.causation
    requires server.receipts[Key(id, commit.causation)] == Receipt(commit, state)
    ensures OnPut(server, id, replay) == (server, if replay == commit then Current(state) else Conflict)
  {
  }

  /** Exactly once under lost acknowledgements: once a commit has been applied, whether its reply arrived
      or not, every identical replay is answered with the campaign as the commit left it, every replay
      with other content is a conflict, and neither changes anything. */
  lemma ReplaysAreAnswered(failures: Failures, seeded: Option<Campaign>, before: seq<Request>, id: string,
                           commit: Commit, more: seq<Request>, replay: Commit)
    requires Accepts(Run(failures, seeded, before), id, commit) && replay.causation == commit.causation
    ensures var server := Run(failures, seeded, before);
            var after := From(Apply(server, Put(id, commit)).0, more);
            Apply(after, Put(id, replay)) ==
            (after, if replay == commit then Current(Committed(server.states[id], commit)) else Conflict)
  {
    RunKeeps(failures, seeded, before);
    var server := Run(failures, seeded, before);
    AppliedKeeps(server, seeded, id, commit);
    PutApplies(server, id, commit);
    FromKeeps(OnPut(server, id, commit).0, seeded, more);
    Replayed(From(OnPut(server, id, commit).0, more), seeded, id, commit, Committed(server.states[id], commit), replay);
  }

  /** A commit is applied exactly when it is accepted: it makes the next revision, and its reply is the
      new campaign or lost. Otherwise no campaign and no receipt changes. */
  lemma AppliedIff(failures: Failures, seeded: Option<Campaign>, before: seq<Request>, id: string, commit: Commit)
    ensures var server := Run(failures, seeded, before); var (server', reply) := Apply(server, Put(id, commit));
            && (Accepts(server, id, commit) ==>
                  && reply in {Current(Committed(server.states[id], commit)), Dropped}
                  && server'.states == server.states[id := Committed(server.states[id], commit)])
            && (!Accepts(server, id, commit) ==>
                  reply != Dropped && server'.states == server.states && server'.receipts == server.receipts)
  {
    var server := Run(failures, seeded, before);
    if Accepts(server, id, commit) {
      PutApplies(server, id, commit);
    } else {
      PutRefuses(server, id, commit);
    }
  }

  /** Of two commits made against the same revision at most one is applied, whatever happens between. */
  lemma NoLostUpdate(failures: Failures, seeded: Option<Campaign>, before: seq<Request>, id: string,
                     commit: Commit, more: seq<Request>, rival: Commit)
    requires Accepts(Run(failures, seeded, before), id, commit) && rival.expected == commit.expected
    ensures !Accepts(From(Apply(Run(failures, seeded, before), Put(id, commit)).0, more), id, rival)
  {
    RunKeeps(failures, seeded, before);
    var server := Run(failures, seeded, before);
    AppliedKeeps(server, seeded, id, commit);
    PutApplies(server, id, commit);
    FromKeeps(OnPut(server, id, commit).0, seeded, more);
  }

  /** The server has the campaign that a request asks for. */
  lemma CreateAgain(server: Server, request: Request)
    requires request.Create? && CampaignId(request) in server.states
    ensures var (server', reply) := OnCreate(server, request); var campaign := server.states[CampaignId(request)];
            && server'.states == server.states && server'.receipts == server.receipts
            && (if SameCreation(campaign, request) then reply in {Created(campaign), Dropped}
                else server' == server && reply == RequestChanged)
  {
    CreatedStates(server, request);
  }

  lemma CreatedCampaign(server: Server, request: Request)
    requires request.Create? && OnCreate(server, request).1 != RequestChanged
    ensures var states' := OnCreate(server, request).0.states;
            CampaignId(request) in states' && SameCreation(states'[CampaignId(request)], request)
  {
    CreatedStates(server, request);
  }

  /** One request id creates one campaign: after a creation, whether its reply arrived or not, the same
      request makes no other, and one with other content is refused. */
  lemma CreationIsIdempotent(failures: Failures, seeded: Option<Campaign>, before: seq<Request>, first: Request,
                             more: seq<Request>, again: Request)
    requires first.Create? && again.Create? && CampaignId(first) == CampaignId(again)
    requires Apply(Run(failures, seeded, before), first).1 != RequestChanged
    ensures var after := From(Apply(Run(failures, seeded, before), first).0, more);
            var same := again.title == first.title && again.premise == first.premise && again.seed == first.seed;
            var (after', reply) := Apply(after, again);
            && CampaignId(first) in after.states
            && after'.states == after.states && after'.receipts == after.receipts
            && (if same then reply in {Created(after.states[CampaignId(first)]), Dropped} else reply == RequestChanged)
  {
    RunKeeps(failures, seeded, before);
    var server := Run(failures, seeded, before);
    CreateKeeps(server, seeded, first);
    CreatedCampaign(server, first);
    FromKeeps(OnCreate(server, first).0, seeded, more);
    CreateAgain(From(OnCreate(server, first).0, more), again);
  }

  // ---------------------------------------------------------------- the receipts' keys

  /** A commit that no receipt of its own campaign answers is shut out by that of another one. */
  predicate ShutOut(server: Server, id: string, commit: Commit) {
    var key := Key(id, commit.causation);
    key in server.receipts && server.receipts[key].state.id != id
  }

  /** A commit new to its campaign, with the right session and revision, is refused exactly when it is
      shut out. */
  lemma NewCommitRefusedIff(failures: Failures, seeded: Option<Campaign>, requests: seq<Request>, id: string,
                            commit: Commit)
    requires var server := Run(failures, seeded, requests);
             && id in server.states
             && commit.session == server.states[id].session && commit.expected == server.states[id].revision
             && (failures.characterRejectOnce ==> server.spent.characterRejectOnce)
             && (forall key <- KeysOf(server.receipts, id) :: server.receipts[key].signature.causation != commit.causation)
    ensures var server := Run(failures, seeded, requests);
            !Accepts(server, id, commit) <==> ShutOut(server, id, commit)
  {
    RunKeeps(failures, seeded, requests);
    var server := Run(failures, seeded, requests);
    OwnCausation(server.states, server.receipts, seeded, id, commit.causation);
  }

  lemma OwnCausation(states: States, receipts: Receipts, seeded: Option<Campaign>, id: string, causation: string)
    requires Fitting(states, receipts, seeded)
    ensures var key := Key(id, causation);
            key in receipts && receipts[key].state.id == id ==>
              key in KeysOf(receipts, id) && receipts[key].signature.causation == causation
  {
    var key := Key(id, causation);
    if key in receipts && receipts[key].state.id == id {
      assert ReceiptFits(states, receipts[key], key, seeded);
      assert key[|id| + 1..] == causation && key[|id| + 1..] == receipts[key].signature.causation;
    }
  }

  /** Two campaigns can have receipts of one key exactly when one id continues the other after a colon. */
  lemma KeysClashIff(a: string, b: string)
    requires a != b
    ensures (exists c, d :: Key(a, c) == Key(b, d)) <==> a + ":" <= b || b + ":" <= a
  {
    if a + ":" <= b {
      KeysClash(a, b);
    } else if b + ":" <= a {
      KeysClash(b, a);
    } else {
      forall c, d | Key(a, c) == Key(b, d)
        ensures false
      {
        EqualKeys(a, b, c, d);
      }
    }
  }

  lemma KeysClash(a: string, b: string)
    requires a + ":" <= b
    ensures exists c, d :: Key(a, c) == Key(b, d)
  {
    var rest := b[|a| + 1..];
    assert b == a + ":" + rest;
    assert Key(a, rest + ":") == Key(b, "");
  }

  lemma EqualKeys(a: string, b: string, c: string, d: string)
    requires a != b && Key(a, c) == Key(b, d)
    ensures a + ":" <= b || b + ":" <= a
  {
    var key := Key(a, c);
    assert key[..|a|] == a && key[|a|] == ':' && key[..|b|] == b && key[|b|] == ':';
    if |a| < |b| {
      assert a + ":" == b[..|a| + 1];
    } else if |b| < |a| {
      assert b + ":" == a[..|b| + 1];
    }
  }

  /** It happens: a first commit with the right session and revision is refused as a conflict. */
  lemma ShutOutArises(a: string, c: string, uuid: string, session: string)
    ensures var b := a + ":b";
            var commit, rival := Commit("b:" + c, session, 1, "", ""), Commit(c, session, 1, "", "");
            var server := Server(Failures(false, false, false), NOT_SPENT, map[], map[]);
            var s1 := Apply(server, Create(Some(a), uuid, session, "", "", "")).0;
            var s2 := Apply(s1, Create(Some(b), uuid, session, "", "", "")).0;
            var s3 := Apply(s2, Put(a, commit)).0;
            b in s3.states && s3.states[b].revision == 1 && ShutOut(s3, b, rival) && Apply(s3, Put(b, rival)).1 == Conflict
  {
    var b := a + ":b";
    assert |b| != |a|;
    assert Key(a, "b:" + c) == Key(b, c);
  }

  /** Where no id continues another after a colon, only a campaign's own receipts answer for it. */
  lemma OwnReceiptsOnly(failures: Failures, seeded: Option<Campaign>, requests: seq<Request>, id: string, commit: Commit)
    requires var states := Run(failures, seeded, requests).states;
             forall other <- states | other != id :: !(other + ":" <= id) && !(id + ":" <= other)
    ensures !ShutOut(Run(failures, seeded, requests), id, commit)
  {
    RunKeeps(failures, seeded, requests);
    var server, key := Run(failures, seeded, requests), Key(id, commit.causation);
    if key in server.receipts {
      assert ReceiptFits(server.states, server.receipts[key], key, seeded);
      var state := server.receipts[key].state;
      if state.id != id {
        EqualKeys(state.id, id, server.receipts[key].signature.causation, commit.causation);
      }
    }
  }
}
