/** What can be said of a whole run of publications by looking back at its requests: retries find
    the stored result, every generation holds the plan that was published as it, and of two
    operations that expected the same generation one had to wait for its return. */
module PublicationHistory {
  import opened Wrappers
  import opened KnowledgeModels
  import opened Publication
  import opened PublicationSafety
  import opened PublicationRuns

  // --- retries -------------------------------------------------------------------------------

  /** The same operation asked again; the plan may carry another generation id. */
  predicate Retries(retry: Request, request: Request) {
    && OperationId(retry) == OperationId(request) && OperationDigest(retry) == OperationDigest(request)
    && (retry.ToPublish? <==> request.ToPublish?)
  }

  lemma EarlyFinds(t: Tables, customer: string, request: Request, retry: Request)
    requires Identified(t, customer) && RequestKey(customer, request) in t.operations && Retries(retry, request)
    requires Answers(t.operations[RequestKey(customer, request)], request)
    ensures Early(t, customer, retry, NoFault) == Some(Ok(t.operations[RequestKey(customer, request)]))
  {
  }

  /** What an attempt that changed the tables has done. */
  lemma ChangedMeans(t: Tables, d: Digests, customer: string, request: Request, fault: Fault)
    requires Sound(t) && HonestRequest(request) && Commit(t, d, customer, request, fault).tables != t
    ensures var u := Commit(t, d, customer, request, fault).tables;
      var key := RequestKey(customer, request);
      && ScopeAsked(request).customer == customer && key in u.operations
      && NewEffect(t, u, request, u.operations[key])
      && Commit(t, d, customer, request, NoFault) == Attempt(u, Ok(u.operations[key]))
  {
    var p := Statements(t, d, request);
    hide HonestRequest, Statements, NewEffect, Sound, Commit, Finish;
    CommitIs(t, d, customer, request, fault);
    CommitIs(t, d, customer, request, NoFault);
    FinishCases(t, p, fault);
    FinishCases(t, p, NoFault);
    StatementsEffect(t, d, request);
    NewEffectMeans(t, p.tables, request, p.result.value);
  }

  lemma StoredAnswers(t: Tables, u: Tables, v: Tables, customer: string, request: Request)
    requires ScopeAsked(request).customer == customer && RequestKey(customer, request) in u.operations
    requires NewEffect(t, u, request, u.operations[RequestKey(customer, request)]) && Grows(u, v)
    ensures var key := RequestKey(customer, request);
      && key in v.operations && v.operations[key] == u.operations[key] && Identified(v, customer)
      && Answers(v.operations[key], request)
  {
    hide Sound, ContentKept, Answers, KeyOf, ScopeOf;
  }

  /** Once an operation has taken effect, with its answer delivered, lost or cancelled, and whatever
      happened since, asking again returns the stored result and changes nothing. */
  lemma RetryReturnsStored(w: World, d: Digests, customer: string, client: nat, fault: Fault, cancelled: bool,
                           more: seq<Step>, other: nat, retry: Request)
    requires Reachable(w, customer) && client in w.pending && Retries(retry, w.pending[client])
    requires forall i | 0 <= i < |more| :: HonestStep(more[i])
    requires var next := Advance(w, d, customer, Complete(client, fault, cancelled));
      next.tables != w.tables && other !in Run(next, d, customer, more).pending
    ensures var next := Advance(w, d, customer, Complete(client, fault, cancelled));
      var later := Run(next, d, customer, more);
      var result := Commit(w.tables, d, customer, w.pending[client], NoFault).result;
      && result.Ok?
      && Advance(later, d, customer, Begin(other, retry, NoFault))
           == later.(answers := later.answers + [Answer(retry, result)])
  {
    var request := w.pending[client];
    var step := Complete(client, fault, cancelled);
    var next := Advance(w, d, customer, step);
    var later := Run(next, d, customer, more);
    assert HonestRequest(request) && HonestStep(step) && Sound(w.tables);
    CompleteIs(w, d, customer, client, fault, cancelled);
    hide *;
    StepKeeps(w, d, customer, step);
    RunKeeps(next, d, customer, more);
    ChangedMeans(w.tables, d, customer, request, fault);
    StoredAnswers(w.tables, next.tables, later.tables, customer, request);
    EarlyFinds(later.tables, customer, request, retry);
    BeginIs(later, d, customer, other, retry);
  }

  lemma CompleteIs(w: World, d: Digests, customer: string, client: nat, fault: Fault, cancelled: bool)
    requires client in w.pending
    ensures var next := Advance(w, d, customer, Complete(client, fault, cancelled));
      && next.tables == Commit(w.tables, d, customer, w.pending[client], fault).tables
      && next.pending == w.pending - {client}
  {
    hide Commit;
  }

  lemma BeginIs(w: World, d: Digests, customer: string, client: nat, request: Request)
    requires client !in w.pending && Early(w.tables, customer, request, NoFault).Some?
    ensures Advance(w, d, customer, Begin(client, request, NoFault))
         == w.(answers := w.answers + [Answer(request, Early(w.tables, customer, request, NoFault).value)])
  {
    hide Early;
  }

  // --- what generations hold -----------------------------------------------------------------

  /** Generation `g` is the one that this plan was published as, by the plan's own operation, and
      holds exactly the plan's documents and chunks. */
  ghost predicate Holding(t: Tables, d: Digests, g: GenerationKey, plan: Plan) {
    var key := OperationKey(g.customer, plan.context.operationId);
    && g == GenerationKey(plan.manifest.scope.customer, plan.manifest.generation) && g in t.generations
    && t.generations[g].namespace == plan.manifest.scope.namespace && t.generations[g].digest == plan.manifest.digest
    && Holds(t, d, g, plan.bundles)
    && key in t.operations && t.operations[key].Published? && t.operations[key].generation == g.id
  }

  ghost predicate Planned(t: Tables, d: Digests, g: GenerationKey, asked: seq<Request>) {
    exists i | 0 <= i < |asked| :: asked[i].ToPublish? && Holding(t, d, g, asked[i].plan)
  }

  ghost predicate AllPlanned(t: Tables, d: Digests, asked: seq<Request>) {
    forall g | g in t.generations :: Planned(t, d, g, asked)
  }

  /** Every request that waits was asked for. */
  predicate PendingAsked(w: World, asked: seq<Request>) {
    forall c | c in w.pending :: w.pending[c] in asked
  }

  /** The requests of a run, in order. */
  function Requests(steps: seq<Step>): seq<Request> {
    if steps == [] then []
    else
      var last := steps[|steps| - 1];
      Requests(steps[..|steps| - 1]) + if last.Begin? then [last.request] else []
  }

  lemma HoldingKept(t: Tables, u: Tables, d: Digests, g: GenerationKey, plan: Plan)
    requires Sound(t) && Sound(u) && Grows(t, u) && Holding(t, d, g, plan)
    ensures Holding(u, d, g, plan)
  {
    assert ContentComplete(t) && ContentComplete(u) && ContentKept(t, u);
    hide Sound, Holds, ContentComplete, ContentKept;
    GenerationStays(t, u, g);
    HoldsKept(t, u, d, g, plan.bundles);
  }

  lemma GenerationStays(t: Tables, u: Tables, g: GenerationKey)
    requires ContentComplete(t) && ContentComplete(u) && ContentKept(t, u) && g in t.generations
    ensures g in u.generations && u.generations[g].namespace == t.generations[g].namespace
    ensures u.generations[g].digest == t.generations[g].digest
    ensures DocumentCount(u.documents, g) == DocumentCount(t.documents, g)
    ensures ChunkCount(u.chunks, g) == ChunkCount(t.chunks, g)
  {
    assert GenerationsKept(t, u);
    hide DocumentCount, ChunkCount;
  }

  lemma HoldsKept(t: Tables, u: Tables, d: Digests, g: GenerationKey, bundles: seq<Bundle>)
    requires ContentKept(t, u) && Holds(t, d, g, bundles)
    requires DocumentCount(u.documents, g) == DocumentCount(t.documents, g)
    requires ChunkCount(u.chunks, g) == ChunkCount(t.chunks, g)
    ensures Holds(u, d, g, bundles)
  {
    hide DocumentCount, ChunkCount, AllChunks, GenerationsKept;
  }

  lemma PlannedKept(t: Tables, u: Tables, d: Digests, g: GenerationKey, asked: seq<Request>, more: seq<Request>)
    requires Sound(t) && Sound(u) && Grows(t, u) && Planned(t, d, g, asked)
    ensures Planned(u, d, g, asked + more)
  {
    var i :| 0 <= i < |asked| && asked[i].ToPublish? && Holding(t, d, g, asked[i].plan);
    HoldingKept(t, u, d, g, asked[i].plan);
    hide Sound, Holding, Grows;
    assert (asked + more)[i] == asked[i];
  }

  /** A new publication adds one generation, which holds its plan; a rollback adds none. */
  lemma NewGenerations(t: Tables, d: Digests, request: Request)
    requires Sound(t) && HonestRequest(request) && Statements(t, d, request).result.Ok?
    requires RequestKey(ScopeAsked(request).customer, request) !in t.operations
    ensures var u := Statements(t, d, request).tables;
      forall h | h in u.generations && h !in t.generations :: request.ToPublish? && Holding(u, d, h, request.plan)
  {
    match request
    case ToPublish(plan, expected) =>
      assert EventMatches(plan) && ContentComplete(t);
      hide *;
      Asked(request);
      KeyAsked(ScopeAsked(request).customer, request);
      PublishedHolds(t, d, plan, expected);
      StatementsOf(t, d, request);
    case ToRollBack(r, expected) =>
      hide Sound;
      RollbackSteps(t, r, expected);
      var digest := t.generations[GenerationKey(r.scope.customer, r.target)].digest;
      SwitchStatuses(t, r.scope, Some(expected), r.target, digest);
      ActivationParts(t, RollbackOutcome(r, Some(expected), digest), RollbackRow(r, Some(expected), digest));
      hide Switch, Persist, RollbackStatements;
  }

  lemma KeyAsked(customer: string, request: Request)
    ensures RequestKey(customer, request) == OperationKey(customer, OperationId(request))
  {
  }

  lemma StatementsOf(t: Tables, d: Digests, request: Request)
    ensures request.ToPublish? ==> Statements(t, d, request) == PublishStatements(t, d, request.plan, request.expected)
  {
    hide PublishStatements, RollbackStatements;
  }

  lemma PublishedHolds(t: Tables, d: Digests, plan: Plan, expected: Option<Uuid>)
    requires Sound(t) && ContentComplete(t) && EventMatches(plan)
    requires OperationKey(plan.manifest.scope.customer, plan.context.operationId) !in t.operations
    requires PublishStatements(t, d, plan, expected).result.Ok?
    ensures var u := PublishStatements(t, d, plan, expected).tables;
      forall h | h in u.generations && h !in t.generations :: Holding(u, d, h, plan)
  {
    var scope := plan.manifest.scope;
    var g := GenerationKey(scope.customer, plan.manifest.generation);
    var stored := StoreGeneration(t, d, plan).value;
    var outcome, row := PublishOutcome(plan, expected), PublishRow(plan, expected);
    var s := Switch(stored, scope, expected, plan.manifest.generation, plan.manifest.digest);
    hide *;
    PublishSteps(t, d, plan, expected);
    PublishKeeps(t, d, plan, expected);
    StoreParts(t, d, plan);
    SwitchStatuses(stored, scope, expected, plan.manifest.generation, plan.manifest.digest);
    PublishKey(plan, expected);
    ActivationParts(stored, outcome, row);
    PersistParts(s, outcome, row);
    NewIsPlanned(t, stored, PublishStatements(t, d, plan, expected).tables, d, plan, expected);
  }

  lemma NewIsPlanned(t: Tables, stored: Tables, u: Tables, d: Digests, plan: Plan, expected: Option<Uuid>)
    requires var m := plan.manifest;
      var g := GenerationKey(m.scope.customer, m.generation);
      && stored.generations == t.generations[g := Generation(m.scope.namespace, m.digest, m.documentCount, m.chunkCount,
                                                              m.totalBytes, Candidate)]
      && Switched(stored.generations, u.generations, m.scope, expected, m.generation)
      && Holds(u, d, g, plan.bundles)
      && u.operations == stored.operations[OperationKey(m.scope.customer, plan.context.operationId)
                                           := PublishOutcome(plan, expected)]
    ensures forall h | h in u.generations && h !in t.generations :: Holding(u, d, h, plan)
  {
    hide Holds;
  }

  lemma PlannedStep(w: World, d: Digests, customer: string, asked: seq<Request>, step: Step)
    requires Reachable(w, customer) && HonestStep(step) && AllPlanned(w.tables, d, asked) && PendingAsked(w, asked)
    ensures var next := Advance(w, d, customer, step);
      var more := asked + if step.Begin? then [step.request] else [];
      AllPlanned(next.tables, d, more) && PendingAsked(next, more)
  {
    var next := Advance(w, d, customer, step);
    var more := if step.Begin? then [step.request] else [];
    StepKeeps(w, d, customer, step);
    assert Sound(w.tables) && Sound(next.tables);
    PendingStep(w, d, customer, asked, step);
    hide Advance, Sound, Planned, Grows, HonestStep;
    forall g | g in next.tables.generations
      ensures Planned(next.tables, d, g, asked + more)
    {
      if g in w.tables.generations {
        PlannedKept(w.tables, next.tables, d, g, asked, more);
      } else {
        NewPlanned(w, d, customer, asked, step, g);
        assert asked + [] == asked;
      }
    }
  }

  lemma PendingStep(w: World, d: Digests, customer: string, asked: seq<Request>, step: Step)
    requires PendingAsked(w, asked)
    ensures PendingAsked(Advance(w, d, customer, step), asked + if step.Begin? then [step.request] else [])
  {
    hide Commit, Early;
  }

  lemma OnlyCompletionsChange(w: World, d: Digests, customer: string, step: Step)
    requires Advance(w, d, customer, step).tables != w.tables
    ensures step.Complete? && step.client in w.pending
  {
    hide Commit, Early;
  }

  /** A generation that a step adds was planned by the request that the step completes. */
  lemma NewPlanned(w: World, d: Digests, customer: string, asked: seq<Request>, step: Step, g: GenerationKey)
    requires Reachable(w, customer) && PendingAsked(w, asked)
    requires g !in w.tables.generations && g in Advance(w, d, customer, step).tables.generations
    ensures !step.Begin? && Planned(Advance(w, d, customer, step).tables, d, g, asked)
  {
    OnlyCompletionsChange(w, d, customer, step);
    var client := step.client;
    var request := w.pending[client];
    assert HonestRequest(request) && Sound(w.tables) && request in asked;
    CompleteIs(w, d, customer, client, step.fault, step.cancelled);
    hide *;
    ChangedMeans(w.tables, d, customer, request, step.fault);
    FromStatements(w.tables, d, customer, request);
    NewGenerations(w.tables, d, request);
    InAsked(Advance(w, d, customer, step).tables, d, g, asked, request);
  }

  lemma InAsked(t: Tables, d: Digests, g: GenerationKey, asked: seq<Request>, request: Request)
    requires request in asked && request.ToPublish? && Holding(t, d, g, request.plan)
    ensures Planned(t, d, g, asked)
  {
    hide Holding;
  }

  lemma FromStatements(t: Tables, d: Digests, customer: string, request: Request)
    requires Commit(t, d, customer, request, NoFault).result.Ok?
    ensures Commit(t, d, customer, request, NoFault) == Statements(t, d, request)
    ensures ScopeAsked(request).customer == customer
  {
    CommitIs(t, d, customer, request, NoFault);
    FinishCases(t, Statements(t, d, request), NoFault);
    hide Commit, Statements, Finish;
  }

  lemma {:induction false} RunPlanned(identity: Option<(string, nat)>, d: Digests, customer: string, steps: seq<Step>)
    requires forall i | 0 <= i < |steps| :: HonestStep(steps[i])
    ensures var w := Run(Provisioned(identity), d, customer, steps);
      AllPlanned(w.tables, d, Requests(steps)) && PendingAsked(w, Requests(steps))
  {
    if steps != [] {
      var init := steps[..|steps| - 1];
      hide *;
      RunPlanned(identity, d, customer, init);
      ProvisionedReachable(identity, customer);
      RunKeeps(Provisioned(identity), d, customer, init);
      PlannedStep(Run(Provisioned(identity), d, customer, init), d, customer, Requests(init), steps[|steps| - 1]);
      LastStep(identity, d, customer, steps);
    }
  }

  lemma LastStep(identity: Option<(string, nat)>, d: Digests, customer: string, steps: seq<Step>)
    requires steps != []
    ensures var init, last := steps[..|steps| - 1], steps[|steps| - 1];
      && Run(Provisioned(identity), d, customer, steps)
           == Advance(Run(Provisioned(identity), d, customer, init), d, customer, last)
      && Requests(steps) == Requests(init) + if last.Begin? then [last.request] else []
  {
    hide Advance, Provisioned;
  }

  /** Whatever happened before, a reader's snapshot names the scope's active generation with its
      digest, and that generation holds exactly the documents and chunks of a plan that was asked
      for in the run and published as it. */
  lemma SnapshotIsComplete(identity: Option<(string, nat)>, d: Digests, customer: string, steps: seq<Step>, scope: Scope)
    requires forall k | 0 <= k < |steps| :: HonestStep(steps[k])
    requires scope in Run(Provisioned(identity), d, customer, steps).tables.active
    ensures var t := Run(Provisioned(identity), d, customer, steps).tables;
      var g := GenerationKey(scope.customer, t.active[scope].generation);
      && g in t.generations && t.generations[g].namespace == scope.namespace && t.generations[g].status == Active
      && t.generations[g].digest == t.active[scope].digest
      && Planned(t, d, g, Requests(steps))
  {
    var t := Run(Provisioned(identity), d, customer, steps).tables;
    RunsAreSound(identity, d, customer, steps);
    RunPlanned(identity, d, customer, steps);
    assert PointersSound(t);
    hide Sound, Run, HonestStep, Planned;
  }

  // --- one winner ----------------------------------------------------------------------------

  /** Step `k` completes this request and changes the tables, whatever its client is told. */
  ghost predicate Carried(w: World, d: Digests, customer: string, steps: seq<Step>, k: nat, request: Request) {
    k < |steps| && steps[k].Complete?
    && var before := Run(w, d, customer, steps[..k]);
       && steps[k].client in before.pending && before.pending[steps[k].client] == request
       && Run(w, d, customer, steps[..k + 1]).tables != before.tables
  }

  function ActiveAt(w: World, d: Digests, customer: string, steps: seq<Step>, k: nat, scope: Scope): Option<Uuid>
    requires k <= |steps|
  {
    ActiveId(Run(w, d, customer, steps[..k]).tables, scope)
  }

  /** A new operation replaces what it expected by something else, in its own scope only. */
  lemma ActiveMoves(t: Tables, u: Tables, request: Request, outcome: Outcome, scope: Scope)
    requires Sound(t) && NewEffect(t, u, request, outcome)
    ensures scope == ScopeAsked(request) ==>
      && ActiveId(t, scope) == Expected(request) && ActiveId(u, scope).Some? && ActiveId(u, scope) != Expected(request)
    ensures scope != ScopeAsked(request) ==> ActiveId(u, scope) == ActiveId(t, scope)
  {
    hide *;
    EffectRow(t, u, request, outcome);
    EndsAre(t, scope);
    EndsAre(u, scope);
    ChainSnoc(t.outbox, u.outbox[|t.outbox|], scope);
  }

  lemma EndsAre(t: Tables, scope: Scope)
    requires Sound(t)
    ensures ActiveId(t, scope) == ChainEnd(t.outbox, scope)
  {
    assert PointersEndChains(t);
    hide Sound, ActiveId, ChainEnd;
  }

  lemma EffectRow(t: Tables, u: Tables, request: Request, outcome: Outcome)
    requires NewEffect(t, u, request, outcome)
    ensures Sound(u) && |u.outbox| == |t.outbox| + 1
    ensures var row := u.outbox[|t.outbox|];
      && u.outbox == t.outbox + [row] && ScopeOf(row) == ScopeAsked(request) && row.previous == Expected(request)
      && row.previous == ChainEnd(t.outbox, ScopeOf(row)) && row.previous != Some(row.activated)
  {
    hide *;
    EffectParts(t, u, request, outcome);
    SoundChain(u);
    ChainedAt(u.outbox, |t.outbox|);
    assert u.outbox == u.outbox[..|t.outbox|] + [u.outbox[|t.outbox|]];
  }

  lemma EffectParts(t: Tables, u: Tables, request: Request, outcome: Outcome)
    requires NewEffect(t, u, request, outcome)
    ensures Sound(u) && |u.outbox| == |t.outbox| + 1 && u.outbox[..|t.outbox|] == t.outbox
    ensures ScopeOf(u.outbox[|t.outbox|]) == ScopeAsked(request)
    ensures u.outbox[|t.outbox|].previous == Expected(request)
  {
    hide Sound, ContentKept, Identified, KeyOf, ScopeOf, Answers, ScopeAsked, Expected;
  }

  lemma SoundChain(t: Tables)
    requires Sound(t)
    ensures Chained(t.outbox)
  {
    hide Chained, PointersSound, OnlyPointed, NoCandidates, PointersEndChains, AuditIsBijective, ContentComplete;
  }

  lemma ChainedAt(outbox: seq<OutboxRow>, n: nat)
    requires Chained(outbox) && n < |outbox|
    ensures outbox[n].previous == ChainEnd(outbox[..n], ScopeOf(outbox[n]))
    ensures outbox[n].previous != Some(outbox[n].activated)
  {
    hide ChainEnd, ScopeOf;
  }

  /** What a step does to the active generation of a scope. */
  ghost predicate Moves(w: World, next: World, step: Step, scope: Scope) {
    next.tables == w.tables
    || (step.Complete? && step.client in w.pending
        && var request := w.pending[step.client];
           if scope == ScopeAsked(request) then
             && ActiveId(w.tables, scope) == Expected(request) && ActiveId(next.tables, scope).Some?
             && ActiveId(next.tables, scope) != Expected(request)
           else ActiveId(next.tables, scope) == ActiveId(w.tables, scope))
  }

  lemma StepMoves(w: World, d: Digests, customer: string, step: Step, scope: Scope)
    requires Reachable(w, customer)
    ensures Moves(w, Advance(w, d, customer, step), step, scope)
  {
    var next := Advance(w, d, customer, step);
    if next.tables != w.tables {
      OnlyCompletionsChange(w, d, customer, step);
      var request := w.pending[step.client];
      assert HonestRequest(request) && Sound(w.tables);
      CompleteIs(w, d, customer, step.client, step.fault, step.cancelled);
      hide Advance, Commit, Sound, HonestRequest, NewEffect, ActiveId, Reachable;
      ChangedMeans(w.tables, d, customer, request, step.fault);
      ActiveMoves(w.tables, next.tables, request, next.tables.operations[RequestKey(customer, request)], scope);
    }
  }

  lemma RunMoves(w: World, d: Digests, customer: string, steps: seq<Step>, k: nat, scope: Scope)
    requires Reachable(w, customer) && k < |steps| && forall i | 0 <= i < |steps| :: HonestStep(steps[i])
    ensures Moves(Run(w, d, customer, steps[..k]), Run(w, d, customer, steps[..k + 1]), steps[k], scope)
  {
    assert steps[..k + 1][..k] == steps[..k];
    assert Run(w, d, customer, steps[..k + 1]) == Advance(Run(w, d, customer, steps[..k]), d, customer, steps[k]);
    hide *;
    RunKeeps(w, d, customer, steps[..k]);
    StepMoves(Run(w, d, customer, steps[..k]), d, customer, steps[k], scope);
  }

  /** A step at which some operation made `e` active in its scope. */
  ghost predicate Returns(w: World, d: Digests, customer: string, steps: seq<Step>, k: nat, scope: Scope,
                          e: Option<Uuid>) {
    k < |steps| && e.Some? && ActiveAt(w, d, customer, steps, k + 1, scope) == e
    && exists request :: Carried(w, d, customer, steps, k, request) && ScopeAsked(request) == scope
  }

  /** If `e` is not active at first and is active later, some step in between made it so. */
  lemma {:induction false} SomeReturns(w: World, d: Digests, customer: string, steps: seq<Step>, m: nat, n: nat,
                                       scope: Scope, e: Option<Uuid>)
    requires Reachable(w, customer) && forall i | 0 <= i < |steps| :: HonestStep(steps[i])
    requires m <= n <= |steps|
    requires ActiveAt(w, d, customer, steps, m, scope) != e && ActiveAt(w, d, customer, steps, n, scope) == e
    ensures exists k :: m <= k < n && Returns(w, d, customer, steps, k, scope, e)
    decreases n - m
  {
    var k := n - 1;
    if ActiveAt(w, d, customer, steps, k, scope) == e {
      SomeReturns(w, d, customer, steps, m, k, scope, e);
    } else {
      RunMoves(w, d, customer, steps, k, scope);
      hide Run, HonestStep, Reachable, ActiveId;
      assert Carried(w, d, customer, steps, k, Run(w, d, customer, steps[..k]).pending[steps[k].client]);
      assert Returns(w, d, customer, steps, k, scope, e);
    }
  }

  /** Of two operations of a run that were carried out and expected the same generation of a scope,
      the second came only after a third one in between had made that generation active again. So
      of several that expect a scope without any generation only one is ever carried out. */
  lemma OneWinnerInRun(w: World, d: Digests, customer: string, steps: seq<Step>, i: nat, j: nat, a: Request, b: Request)
    requires Reachable(w, customer) && forall k | 0 <= k < |steps| :: HonestStep(steps[k])
    requires i < j && Carried(w, d, customer, steps, i, a) && Carried(w, d, customer, steps, j, b)
    requires ScopeAsked(a) == ScopeAsked(b) && Expected(a) == Expected(b)
    ensures exists k :: i < k < j && Returns(w, d, customer, steps, k, ScopeAsked(a), Expected(a))
  {
    RunMoves(w, d, customer, steps, i, ScopeAsked(a));
    RunMoves(w, d, customer, steps, j, ScopeAsked(a));
    hide Run, HonestStep, Reachable, ActiveId, Returns;
    SomeReturns(w, d, customer, steps, i + 1, j, ScopeAsked(a), Expected(a));
  }

  /** A successful answer to a commit is about an operation that was carried out then, or that was
      stored before. */
  lemma AnsweredMeans(w: World, d: Digests, customer: string, steps: seq<Step>, k: nat)
    requires Reachable(w, customer) && k < |steps| && forall i | 0 <= i < |steps| :: HonestStep(steps[i])
    requires steps[k].Complete? && steps[k].client in Run(w, d, customer, steps[..k]).pending
    requires var before := Run(w, d, customer, steps[..k]);
      Commit(before.tables, d, customer, before.pending[steps[k].client], steps[k].fault).result.Ok?
    ensures var before := Run(w, d, customer, steps[..k]);
      var request := before.pending[steps[k].client];
      Carried(w, d, customer, steps, k, request) <==> RequestKey(customer, request) !in before.tables.operations
  {
    var before := Run(w, d, customer, steps[..k]);
    var step := steps[k];
    var request := before.pending[step.client];
    RunStep(w, d, customer, steps, k);
    hide *;
    RunKeeps(w, d, customer, steps[..k]);
    CompleteIs(before, d, customer, step.client, step.fault, step.cancelled);
    ReachableMeans(before, customer, step.client);
    SuccessMeans(before.tables, d, customer, request, step.fault);
    CarriedIs(w, d, customer, steps, k);
  }

  lemma RunStep(w: World, d: Digests, customer: string, steps: seq<Step>, k: nat)
    requires k < |steps|
    ensures Run(w, d, customer, steps[..k + 1]) == Advance(Run(w, d, customer, steps[..k]), d, customer, steps[k])
  {
    assert steps[..k + 1][..k] == steps[..k];
    hide Advance;
  }

  lemma ReachableMeans(w: World, customer: string, client: nat)
    requires Reachable(w, customer) && client in w.pending
    ensures Sound(w.tables) && HonestRequest(w.pending[client])
  {
    hide Sound, HonestRequest;
  }

  /** A commit that answers with success has changed the tables exactly if its operation was new. */
  lemma SuccessMeans(t: Tables, d: Digests, customer: string, request: Request, fault: Fault)
    requires Sound(t) && HonestRequest(request) && Commit(t, d, customer, request, fault).result.Ok?
    ensures Commit(t, d, customer, request, fault).tables != t <==> RequestKey(customer, request) !in t.operations
  {
    hide Commit, Sound, HonestRequest, NewEffect, RequestKey;
    CommitEffect(t, d, customer, request, fault);
  }

  lemma CarriedIs(w: World, d: Digests, customer: string, steps: seq<Step>, k: nat)
    requires k < |steps| && steps[k].Complete?
    requires steps[k].client in Run(w, d, customer, steps[..k]).pending
    ensures var before := Run(w, d, customer, steps[..k]);
      Carried(w, d, customer, steps, k, before.pending[steps[k].client])
      <==> Run(w, d, customer, steps[..k + 1]).tables != before.tables
  {
    hide Run;
  }
}
