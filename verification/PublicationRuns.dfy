/** Any number of clients publishing and rolling back through one repository. A client first
    looks its operation up and commits later, so other clients may commit in between; it may be
    cancelled at either point, with or without its transaction having been committed. */
module PublicationRuns {
  import opened Wrappers
  import opened Ordering
  import opened KnowledgeModels
  import opened Publication
  import opened PublicationSafety

  datatype Request =
    | ToPublish(plan: Plan, expected: Option<Uuid>)
    | ToRollBack(request: RollbackRequest, target: Uuid)

  datatype Answer = Answer(request: Request, result: Result<Outcome, Failure>)

  /** `pending` holds the requests whose early lookup found nothing. */
  datatype World = World(tables: Tables, pending: map<nat, Request>, answers: seq<Answer>)

  datatype Step =
    | Begin(client: nat, request: Request, fault: Fault)
    | Complete(client: nat, fault: Fault, cancelled: bool)
    | Abandon(client: nat)

  function OperationId(request: Request): string {
    match request
    case ToPublish(plan, _) => plan.context.operationId
    case ToRollBack(r, _) => r.context.operationId
  }

  function OperationDigest(request: Request): string {
    match request
    case ToPublish(plan, _) => plan.operationDigest
    case ToRollBack(r, _) => r.operationDigest
  }

  function ActionOf(request: Request): Action {
    if request.ToPublish? then Publish else Rollback
  }

  function Commit(t: Tables, d: Digests, customer: string, request: Request, fault: Fault): Attempt {
    match request
    case ToPublish(plan, expected) => CommitPublish(t, d, customer, plan, expected, fault)
    case ToRollBack(r, expected) => CommitRollback(t, customer, r, expected, fault)
  }

  /** The answer of the early lookup, if there is one. */
  function Early(t: Tables, customer: string, request: Request, fault: Fault): Option<Result<Outcome, Failure>> {
    if fault != NoFault then Some(Err(StorageUnavailable))
    else
      var found := LookUp(t, customer, OperationId(request));
      if found.Err? then Some(Err(found.error))
      else if found.value.None? then None
      else Some(Replayed(found.value.value, ActionOf(request), OperationDigest(request)))
  }

  function Advance(w: World, d: Digests, customer: string, step: Step): World {
    match step
    case Begin(client, request, fault) =>
      if client in w.pending then w
      else
        var early := Early(w.tables, customer, request, fault);
        if early.None? then w.(pending := w.pending[client := request])
        else w.(answers := w.answers + [Answer(request, early.value)])
    case Complete(client, fault, cancelled) =>
      if client !in w.pending then w
      else
        var request := w.pending[client];
        var attempt := Commit(w.tables, d, customer, request, fault);
        World(attempt.tables, w.pending - {client},
              if cancelled then w.answers else w.answers + [Answer(request, attempt.result)])
    case Abandon(client) => w.(pending := w.pending - {client})
  }

  function Run(w: World, d: Digests, customer: string, steps: seq<Step>): World {
    if steps == [] then w
    else Advance(Run(w, d, customer, steps[..|steps| - 1]), d, customer, steps[|steps| - 1])
  }

  function Provisioned(identity: Option<(string, nat)>): World {
    World(Tables(identity, map[], map[], map[], map[], map[], []), map[], [])
  }

  /** Every plan that a client submits carries an audit event about itself. */
  predicate HonestRequest(request: Request) {
    request.ToPublish? ==> EventMatches(request.plan)
  }

  predicate HonestStep(step: Step) {
    step.Begin? ==> HonestRequest(step.request)
  }

  // --- one commit ----------------------------------------------------------------------------

  function RequestKey(customer: string, request: Request): OperationKey {
    OperationKey(customer, OperationId(request))
  }

  function ScopeAsked(request: Request): Scope {
    match request
    case ToPublish(plan, _) => plan.manifest.scope
    case ToRollBack(r, _) => r.scope
  }

  /** The result speaks of the request that it answers. */
  predicate Answers(outcome: Outcome, request: Request) {
    && (outcome.Published? <==> request.ToPublish?) && outcome.operationDigest == OperationDigest(request)
    && outcome.scope == ScopeAsked(request)
  }

  /** A new operation with result `outcome` was carried out completely. */
  ghost predicate NewEffect(t: Tables, u: Tables, request: Request, outcome: Outcome) {
    var key := OperationKey(ScopeAsked(request).customer, OperationId(request));
    && Sound(u) && Identified(t, key.customer) && u.identity == t.identity
    && key !in t.operations && u.operations == t.operations[key := outcome] && Answers(outcome, request)
    && |u.outbox| == |t.outbox| + 1 && u.outbox[..|t.outbox|] == t.outbox
    && u.outbox[|t.outbox|].previous == Expected(request) && KeyOf(u.outbox[|t.outbox|]) == key
    && ScopeOf(u.outbox[|t.outbox|]) == ScopeAsked(request)
    && ContentKept(t, u)
  }

  /** A commit either changes nothing, or carries out a new operation completely. Then it answers
      with that operation's result, unless its confirmation was lost. */
  ghost predicate Effect(t: Tables, customer: string, request: Request, fault: Fault, attempt: Attempt) {
    var key := RequestKey(customer, request);
    if key !in t.operations && key in attempt.tables.operations then
      && ScopeAsked(request).customer == customer
      && NewEffect(t, attempt.tables, request, attempt.tables.operations[key])
      && attempt.result == if fault.ReplyLost? then Err(StorageUnavailable) else Ok(attempt.tables.operations[key])
    else
      && attempt.tables == t
      && (attempt.result.Ok? ==> key in t.operations && attempt.result.value == t.operations[key])
  }

  function Expected(request: Request): Option<Uuid> {
    match request
    case ToPublish(_, expected) => expected
    case ToRollBack(_, expected) => Some(expected)
  }

  /** Stored documents and chunks are never changed or removed, and of a generation only its status. */
  ghost predicate ContentKept(t: Tables, u: Tables) {
    && (forall k | k in t.documents :: k in u.documents && u.documents[k] == t.documents[k])
    && (forall k | k in t.chunks :: k in u.chunks && u.chunks[k] == t.chunks[k])
    && GenerationsKept(t, u)
  }

  ghost predicate GenerationsKept(t: Tables, u: Tables) {
    forall g | g in t.generations ::
      g in u.generations && u.generations[g] == t.generations[g].(status := u.generations[g].status)
  }

  lemma SwitchKeepsGenerations(t: Tables, u: Tables, scope: Scope, current: Option<Uuid>, next: Uuid, digest: string)
    requires forall g | g in t.generations :: g in u.generations && u.generations[g] == t.generations[g]
    requires GenerationKey(scope.customer, next) in u.generations
    ensures GenerationsKept(t, Switch(u, scope, current, next, digest))
  {
    SwitchStatuses(u, scope, current, next, digest);
    hide Switch;
  }

  lemma PersistParts(s: Tables, outcome: Outcome, row: OutboxRow)
    requires Persist(s, outcome, row).result.Ok?
    ensures var a := Persist(s, outcome, row);
      && a.result == Ok(outcome) && a.tables.identity == s.identity && a.tables.documents == s.documents
      && a.tables.chunks == s.chunks && a.tables.generations == s.generations && a.tables.outbox == s.outbox + [row]
      && OperationKey(outcome.scope.customer, outcome.operationId) !in s.operations
      && a.tables.operations == s.operations[OperationKey(outcome.scope.customer, outcome.operationId) := outcome]
  {
  }

  lemma FinishCases(before: Tables, attempt: Attempt, fault: Fault)
    ensures var r := Finish(before, attempt, fault);
      if attempt.result.Ok? && fault.NoFault? then r == attempt
      else if attempt.result.Ok? && fault.ReplyLost? then r == Attempt(attempt.tables, Err(StorageUnavailable))
      else r.tables == before && r.result.Err?
  {
  }

  lemma RecordedEffect(t: Tables, s: Tables, request: Request, outcome: Outcome, row: OutboxRow)
    requires Persist(s, outcome, row).result.Ok? && Sound(Persist(s, outcome, row).tables)
    requires s.operations == t.operations && s.outbox == t.outbox && s.identity == t.identity && ContentKept(t, s)
    requires KeyOf(row) == OperationKey(outcome.scope.customer, outcome.operationId)
    requires outcome.operationId == OperationId(request) && Answers(outcome, request)
    requires ScopeOf(row) == ScopeAsked(request) && row.previous == Expected(request)
    requires Identified(t, ScopeAsked(request).customer)
    ensures var a := Persist(s, outcome, row);
      a.result == Ok(outcome) && NewEffect(t, a.tables, request, outcome)
  {
    PersistParts(s, outcome, row);
    hide Persist, Sound;
  }

  lemma PublishKey(plan: Plan, expected: Option<Uuid>)
    requires EventMatches(plan)
    ensures var row := PublishRow(plan, expected);
      && KeyOf(row) == OperationKey(plan.manifest.scope.customer, plan.context.operationId)
      && row.previous == expected && ScopeOf(row) == plan.manifest.scope
    ensures var o := PublishOutcome(plan, expected);
      && o.operationId == plan.context.operationId && o.scope == plan.manifest.scope
      && o.generation == plan.manifest.generation && o.digest == plan.manifest.digest && o.previous == expected
      && Answers(o, ToPublish(plan, expected))
  {
  }

  lemma ExtendsKeeps(t: Tables, u: Tables, s: Tables, g: GenerationKey)
    requires Extends(t, u, g) && s.documents == u.documents && s.chunks == u.chunks && GenerationsKept(t, s)
    ensures ContentKept(t, s)
  {
  }

  lemma PublishNew(t: Tables, d: Digests, plan: Plan, expected: Option<Uuid>)
    requires Sound(t) && EventMatches(plan) && PublishStatements(t, d, plan, expected).result.Ok?
    requires OperationKey(plan.manifest.scope.customer, plan.context.operationId) !in t.operations
    ensures var a := PublishStatements(t, d, plan, expected);
      a.result.Ok? && NewEffect(t, a.tables, ToPublish(plan, expected), a.result.value)
  {
    var scope := plan.manifest.scope;
    var outcome, row := PublishOutcome(plan, expected), PublishRow(plan, expected);
    assert ContentComplete(t);
    hide *;
    PublishIdentified(t, d, plan, expected);
    PublishSteps(t, d, plan, expected);
    PublishKeeps(t, d, plan, expected);
    StoredSwitchKeeps(t, d, plan, expected);
    PublishKey(plan, expected);
    Asked(ToPublish(plan, expected));
    var s := Switch(StoreGeneration(t, d, plan).value, scope, expected, plan.manifest.generation, plan.manifest.digest);
    RecordedEffect(t, s, ToPublish(plan, expected), outcome, row);
  }

  /** Storing and switching leave everything recorded as it was. */
  lemma StoredSwitchKeeps(t: Tables, d: Digests, plan: Plan, current: Option<Uuid>)
    requires ContentComplete(t) && StoreGeneration(t, d, plan).Ok?
    ensures var s := Switch(StoreGeneration(t, d, plan).value, plan.manifest.scope, current, plan.manifest.generation,
                            plan.manifest.digest);
      ContentKept(t, s) && s.operations == t.operations && s.outbox == t.outbox && s.identity == t.identity
  {
    var m := plan.manifest;
    var stored := StoreGeneration(t, d, plan).value;
    hide *;
    StoreParts(t, d, plan);
    StoreHolds(t, d, plan);
    SwitchParts(stored, m.scope, current, m.generation, m.digest);
    SwitchKeepsGenerations(t, stored, m.scope, current, m.generation, m.digest);
    ExtendsKeeps(t, stored, Switch(stored, m.scope, current, m.generation, m.digest),
                 GenerationKey(m.scope.customer, m.generation));
  }

  lemma SwitchParts(t: Tables, scope: Scope, current: Option<Uuid>, next: Uuid, digest: string)
    ensures var s := Switch(t, scope, current, next, digest);
      && s.documents == t.documents && s.chunks == t.chunks && s.operations == t.operations && s.outbox == t.outbox
      && s.identity == t.identity
  {
  }

  lemma PublishIdentified(t: Tables, d: Digests, plan: Plan, expected: Option<Uuid>)
    requires PublishStatements(t, d, plan, expected).result.Ok?
    ensures Identified(t, plan.manifest.scope.customer)
  {
    hide StoreGeneration, Switch, Persist;
  }

  lemma Asked(request: Request)
    ensures request.ToPublish? ==>
      && OperationId(request) == request.plan.context.operationId && ScopeAsked(request) == request.plan.manifest.scope
      && Expected(request) == request.expected
    ensures request.ToRollBack? ==>
      && OperationId(request) == request.request.context.operationId && ScopeAsked(request) == request.request.scope
      && Expected(request) == Some(request.target)
  {
  }

  lemma PublishReplayed(t: Tables, d: Digests, plan: Plan, expected: Option<Uuid>)
    requires PublishStatements(t, d, plan, expected).result.Ok?
    requires OperationKey(plan.manifest.scope.customer, plan.context.operationId) in t.operations
    ensures PublishStatements(t, d, plan, expected)
         == Attempt(t, Ok(t.operations[OperationKey(plan.manifest.scope.customer, plan.context.operationId)]))
  {
    hide StoreGeneration, Persist, Switch;
  }

  /** The statements of a request, as one transaction. */
  function Statements(t: Tables, d: Digests, request: Request): Attempt {
    match request
    case ToPublish(plan, expected) => PublishStatements(t, d, plan, expected)
    case ToRollBack(r, expected) => RollbackStatements(t, r, expected)
  }

  lemma CommitIs(t: Tables, d: Digests, customer: string, request: Request, fault: Fault)
    ensures Commit(t, d, customer, request, fault) ==
      if ScopeAsked(request).customer != customer then Attempt(t, Err(IdentityMismatch))
      else Finish(t, Statements(t, d, request), fault)
  {
    hide PublishStatements, RollbackStatements, Finish;
  }

  lemma RollbackKey(r: RollbackRequest, expected: Uuid, digest: string)
    ensures var row := RollbackRow(r, Some(expected), digest);
      && KeyOf(row) == OperationKey(r.scope.customer, r.context.operationId)
      && row.previous == Some(expected) && ScopeOf(row) == r.scope
    ensures var o := RollbackOutcome(r, Some(expected), digest);
      && o.operationId == r.context.operationId && o.scope == r.scope
      && o.generation == r.target && o.digest == digest && o.previous == Some(expected)
      && Answers(o, ToRollBack(r, expected))
  {
  }

  lemma SameContentKept(t: Tables, s: Tables)
    requires s.documents == t.documents && s.chunks == t.chunks && GenerationsKept(t, s)
    ensures ContentKept(t, s)
  {
  }

  lemma RollbackNew(t: Tables, r: RollbackRequest, expected: Uuid)
    requires Sound(t) && RollbackStatements(t, r, expected).result.Ok?
    requires OperationKey(r.scope.customer, r.context.operationId) !in t.operations
    ensures var a := RollbackStatements(t, r, expected);
      a.result.Ok? && NewEffect(t, a.tables, ToRollBack(r, expected), a.result.value)
  {
    RollbackSteps(t, r, expected);
    assert GenerationKey(r.scope.customer, r.target) in t.generations;
    var digest := t.generations[GenerationKey(r.scope.customer, r.target)].digest;
    var outcome, row := RollbackOutcome(r, Some(expected), digest), RollbackRow(r, Some(expected), digest);
    hide *;
    RollbackIdentified(t, r, expected);
    RollbackKeeps(t, r, expected);
    RollbackKey(r, expected, digest);
    ActivationParts(t, outcome, row);
    var s := Switch(t, r.scope, Some(expected), r.target, digest);
    SwitchKeepsGenerations(t, t, r.scope, Some(expected), r.target, digest);
    SameContentKept(t, s);
    Asked(ToRollBack(r, expected));
    RecordedEffect(t, s, ToRollBack(r, expected), outcome, row);
  }

  lemma RollbackIdentified(t: Tables, r: RollbackRequest, expected: Uuid)
    requires RollbackStatements(t, r, expected).result.Ok?
    ensures Identified(t, r.scope.customer)
  {
    hide Switch, Persist;
  }

  lemma RollbackReplayed(t: Tables, r: RollbackRequest, expected: Uuid)
    requires RollbackStatements(t, r, expected).result.Ok?
    requires OperationKey(r.scope.customer, r.context.operationId) in t.operations
    ensures RollbackStatements(t, r, expected)
         == Attempt(t, Ok(t.operations[OperationKey(r.scope.customer, r.context.operationId)]))
  {
    hide Persist, Switch;
  }

  lemma StatementsEffect(t: Tables, d: Digests, request: Request)
    requires Sound(t) && HonestRequest(request) && Statements(t, d, request).result.Ok?
    ensures var p := Statements(t, d, request);
      var key := RequestKey(ScopeAsked(request).customer, request);
      if key in t.operations then p == Attempt(t, Ok(t.operations[key]))
      else NewEffect(t, p.tables, request, p.result.value)
  {
    match request
    case ToPublish(plan, expected) =>
      hide PublishStatements, Sound, NewEffect;
      if RequestKey(plan.manifest.scope.customer, request) in t.operations {
        PublishReplayed(t, d, plan, expected);
      } else {
        PublishNew(t, d, plan, expected);
      }
    case ToRollBack(r, expected) =>
      hide RollbackStatements, Sound, NewEffect;
      if RequestKey(r.scope.customer, request) in t.operations {
        RollbackReplayed(t, r, expected);
      } else {
        RollbackNew(t, r, expected);
      }
  }

  lemma NewEffectMeans(t: Tables, u: Tables, request: Request, outcome: Outcome)
    requires NewEffect(t, u, request, outcome)
    ensures var key := RequestKey(ScopeAsked(request).customer, request);
      key !in t.operations && key in u.operations && u.operations[key] == outcome && u != t
  {
    hide Sound, ContentKept, Identified;
  }

  lemma CommitEffect(t: Tables, d: Digests, customer: string, request: Request, fault: Fault)
    requires Sound(t) && HonestRequest(request)
    ensures Effect(t, customer, request, fault, Commit(t, d, customer, request, fault))
  {
    var p := Statements(t, d, request);
    hide HonestRequest, Statements, NewEffect, Sound, Commit, Finish;
    CommitIs(t, d, customer, request, fault);
    FinishCases(t, p, fault);
    if ScopeAsked(request).customer == customer && p.result.Ok? {
      StatementsEffect(t, d, request);
      if RequestKey(customer, request) !in t.operations {
        NewEffectMeans(t, p.tables, request, p.result.value);
      }
    }
  }

  /** When a failed attempt changes a table: exactly when its confirmation was lost, and the same
      attempt without that would have carried out a new operation. Then it has carried it out. */
  lemma FailureChangesNothing(t: Tables, d: Digests, customer: string, request: Request, fault: Fault)
    requires Sound(t) && HonestRequest(request) && Commit(t, d, customer, request, fault).result.Err?
    ensures Commit(t, d, customer, request, fault).tables == t <==>
      !(fault.ReplyLost? && RequestKey(customer, request) !in t.operations
        && Commit(t, d, customer, request, NoFault).result.Ok?)
    ensures Commit(t, d, customer, request, fault).tables in {t, Commit(t, d, customer, request, NoFault).tables}
  {
    var p := Statements(t, d, request);
    hide HonestRequest, Statements, NewEffect, Sound, Commit, Finish;
    CommitIs(t, d, customer, request, fault);
    CommitIs(t, d, customer, request, NoFault);
    FinishCases(t, p, fault);
    FinishCases(t, p, NoFault);
    if ScopeAsked(request).customer == customer && p.result.Ok? {
      StatementsEffect(t, d, request);
      if RequestKey(customer, request) !in t.operations {
        NewEffectMeans(t, p.tables, request, p.result.value);
      }
    }
  }

  // --- whole runs ----------------------------------------------------------------------------

  /** Every successful answer so far is the stored result of its operation. */
  ghost predicate AnswersStored(w: World, customer: string) {
    forall i | 0 <= i < |w.answers| && w.answers[i].result.Ok? ::
      var key := RequestKey(customer, w.answers[i].request);
      key in w.tables.operations && w.tables.operations[key] == w.answers[i].result.value
  }

  ghost predicate Reachable(w: World, customer: string) {
    && Sound(w.tables) && AnswersStored(w, customer)
    && forall c | c in w.pending :: HonestRequest(w.pending[c])
  }

  /** Operations, audit rows and content only ever grow. */
  ghost predicate Grows(t: Tables, u: Tables) {
    && u.identity == t.identity
    && (forall key | key in t.operations :: key in u.operations && u.operations[key] == t.operations[key])
    && |t.outbox| <= |u.outbox| && u.outbox[..|t.outbox|] == t.outbox
    && ContentKept(t, u)
  }

  lemma EffectGrows(t: Tables, customer: string, request: Request, fault: Fault, attempt: Attempt)
    requires Sound(t) && Effect(t, customer, request, fault, attempt)
    ensures Sound(attempt.tables) && Grows(t, attempt.tables)
    ensures attempt.result.Ok? ==>
      var key := RequestKey(customer, request);
      key in attempt.tables.operations && attempt.tables.operations[key] == attempt.result.value
  {
    hide Sound, KeyOf, ContentKept, Identified, ScopeOf, Answers;
    GrowsSelf(t);
  }

  lemma AnswersKept(w: World, customer: string, tables: Tables, pending: map<nat, Request>, more: seq<Answer>)
    requires AnswersStored(w, customer) && Grows(w.tables, tables) && |more| <= 1
    requires |more| == 1 && more[0].result.Ok? ==>
      var key := RequestKey(customer, more[0].request);
      key in tables.operations && tables.operations[key] == more[0].result.value
    ensures AnswersStored(World(tables, pending, w.answers + more), customer)
  {
    hide RequestKey, ContentKept;
    var v := World(tables, pending, w.answers + more);
    forall i | 0 <= i < |v.answers| && v.answers[i].result.Ok?
      ensures var key := RequestKey(customer, v.answers[i].request);
        key in v.tables.operations && v.tables.operations[key] == v.answers[i].result.value
    {
      if i < |w.answers| {
        assert v.answers[i] == w.answers[i];
      } else {
        assert v.answers[i] == more[0];
      }
    }
  }

  lemma GrowsSelf(t: Tables)
    ensures Grows(t, t)
  {
  }

  lemma EarlyIsStored(t: Tables, customer: string, request: Request, fault: Fault)
    requires Early(t, customer, request, fault).Some? && Early(t, customer, request, fault).value.Ok?
    ensures var key := RequestKey(customer, request);
      key in t.operations && t.operations[key] == Early(t, customer, request, fault).value.value
  {
  }

  lemma StepKeeps(w: World, d: Digests, customer: string, step: Step)
    requires Reachable(w, customer) && HonestStep(step)
    ensures Reachable(Advance(w, d, customer, step), customer)
    ensures Grows(w.tables, Advance(w, d, customer, step).tables)
  {
    var next := Advance(w, d, customer, step);
    GrowsSelf(w.tables);
    hide Sound, AnswersStored, Commit, Early, Grows, Effect, HonestRequest;
    match step
    case Begin(client, request, fault) =>
      if client !in w.pending && Early(w.tables, customer, request, fault).Some? {
        if Early(w.tables, customer, request, fault).value.Ok? {
          EarlyIsStored(w.tables, customer, request, fault);
        }
        AnswersKept(w, customer, w.tables, w.pending,
                    [Answer(request, Early(w.tables, customer, request, fault).value)]);
      } else {
        AnswersKept(w, customer, w.tables, next.pending, []);
        assert w.answers + [] == w.answers;
      }
    case Complete(client, fault, cancelled) =>
      if client in w.pending {
        var request := w.pending[client];
        var attempt := Commit(w.tables, d, customer, request, fault);
        CommitEffect(w.tables, d, customer, request, fault);
        EffectGrows(w.tables, customer, request, fault, attempt);
        AnswersKept(w, customer, attempt.tables, next.pending,
                    if cancelled then [] else [Answer(request, attempt.result)]);
        assert w.answers + [] == w.answers;
      }
    case Abandon(client) =>
      AnswersKept(w, customer, w.tables, next.pending, []);
      assert w.answers + [] == w.answers;
  }

  lemma GrowsTransitive(t: Tables, u: Tables, v: Tables)
    requires Grows(t, u) && Grows(u, v)
    ensures Grows(t, v)
  {
    assert v.outbox[..|t.outbox|] == v.outbox[..|u.outbox|][..|t.outbox|];
  }

  /** Every state of every run is sound, answers are stored results, and nothing recorded is
      ever lost or rewritten. */
  lemma {:induction false} RunKeeps(w: World, d: Digests, customer: string, steps: seq<Step>)
    requires Reachable(w, customer) && forall i | 0 <= i < |steps| :: HonestStep(steps[i])
    ensures Reachable(Run(w, d, customer, steps), customer)
    ensures Grows(w.tables, Run(w, d, customer, steps).tables)
  {
    hide Reachable, Grows, Advance, HonestStep;
    if steps == [] {
      GrowsSelf(w.tables);
    } else {
      var init := steps[..|steps| - 1];
      RunKeeps(w, d, customer, init);
      StepKeeps(Run(w, d, customer, init), d, customer, steps[|steps| - 1]);
      GrowsTransitive(w.tables, Run(w, d, customer, init).tables, Run(w, d, customer, steps).tables);
    }
  }

  lemma ProvisionedReachable(identity: Option<(string, nat)>, customer: string)
    ensures Reachable(Provisioned(identity), customer)
  {
  }

  /** From a fresh database every run stays sound. */
  lemma RunsAreSound(identity: Option<(string, nat)>, d: Digests, customer: string, steps: seq<Step>)
    requires forall i | 0 <= i < |steps| :: HonestStep(steps[i])
    ensures Sound(Run(Provisioned(identity), d, customer, steps).tables)
  {
    hide Sound, Run, Provisioned, HonestStep;
    ProvisionedReachable(identity, customer);
    RunKeeps(Provisioned(identity), d, customer, steps);
  }

  // --- consequences --------------------------------------------------------------------------

  /** Two generations of one scope are never both active. */
  lemma OneActivePerScope(t: Tables, a: GenerationKey, b: GenerationKey)
    requires Sound(t) && a in t.generations && b in t.generations
    requires t.generations[a].status == Active && t.generations[b].status == Active
    requires a.customer == b.customer && t.generations[a].namespace == t.generations[b].namespace
    ensures a == b
  {
    assert OnlyPointed(t);
    hide Sound;
  }

  /** All successful answers for one operation id are the same stored result, whichever client
      asked and whatever generation id its plan carried. */
  lemma OneResultPerOperation(identity: Option<(string, nat)>, d: Digests, customer: string, steps: seq<Step>,
                              i: nat, j: nat)
    requires forall k | 0 <= k < |steps| :: HonestStep(steps[k])
    requires var w := Run(Provisioned(identity), d, customer, steps);
      && i < |w.answers| && j < |w.answers| && w.answers[i].result.Ok? && w.answers[j].result.Ok?
      && OperationId(w.answers[i].request) == OperationId(w.answers[j].request)
    ensures var w := Run(Provisioned(identity), d, customer, steps);
      w.answers[i].result == w.answers[j].result
  {
    hide Sound, Run, Provisioned, HonestStep, OperationId;
    ProvisionedReachable(identity, customer);
    RunKeeps(Provisioned(identity), d, customer, steps);
    assert AnswersStored(Run(Provisioned(identity), d, customer, steps), customer);
  }

  /** An operation has taken effect exactly once if it is stored, and never otherwise. */
  lemma OneEffectPerOperation(t: Tables, key: OperationKey)
    requires Sound(t)
    ensures key in t.operations <==> Logged(t.outbox, key)
    ensures forall i, j | 0 <= i < |t.outbox| && 0 <= j < |t.outbox|
              && KeyOf(t.outbox[i]) == key && KeyOf(t.outbox[j]) == key :: i == j
  {
    assert AuditIsBijective(t);
    hide Sound, KeyOf, SameStory;
  }

  /** The audit row right before `j` in the same scope is what row `j` says it replaced. */
  lemma {:induction false} ChainEndIsRow(outbox: seq<OutboxRow>, scope: Scope)
    requires ChainEnd(outbox, scope).Some?
    ensures exists m :: LastOf(outbox, scope, m) && Some(outbox[m].activated) == ChainEnd(outbox, scope)
  {
    var n := |outbox| - 1;
    if ScopeOf(outbox[n]) == scope {
      assert LastOf(outbox, scope, n);
    } else {
      ChainEndIsRow(outbox[..n], scope);
      var m :| LastOf(outbox[..n], scope, m) && Some(outbox[..n][m].activated) == ChainEnd(outbox[..n], scope);
      assert forall k | m < k < n :: outbox[..n][k] == outbox[k];
      assert LastOf(outbox, scope, m);
    }
  }

  predicate LastOf(outbox: seq<OutboxRow>, scope: Scope, m: int) {
    0 <= m < |outbox| && ScopeOf(outbox[m]) == scope
    && forall k | m < k < |outbox| :: ScopeOf(outbox[k]) != scope
  }

  /** Of several operations that expected the same active generation, a second one succeeds only
      after some operation in between made that generation active again. */
  lemma OneWinner(t: Tables, i: nat, j: nat)
    requires Sound(t) && i < j < |t.outbox|
    requires ScopeOf(t.outbox[i]) == ScopeOf(t.outbox[j]) && t.outbox[i].previous == t.outbox[j].previous
    ensures exists m :: i < m < j && ScopeOf(t.outbox[m]) == ScopeOf(t.outbox[i])
              && Some(t.outbox[m].activated) == t.outbox[i].previous
  {
    var scope := ScopeOf(t.outbox[j]);
    var before := t.outbox[..j];
    assert Chained(t.outbox);
    hide Sound, ScopeOf;
    SomeRowEnds(before, scope, i);
    ChainEndIsRow(before, scope);
    var m :| LastOf(before, scope, m) && Some(before[m].activated) == ChainEnd(before, scope);
    assert before[m] == t.outbox[m] && before[i] == t.outbox[i];
    assert m != i;
  }

  lemma {:induction false} SomeRowEnds(outbox: seq<OutboxRow>, scope: Scope, i: nat)
    requires i < |outbox| && ScopeOf(outbox[i]) == scope
    ensures ChainEnd(outbox, scope).Some?
  {
    var n := |outbox| - 1;
    if ScopeOf(outbox[n]) != scope {
      SomeRowEnds(outbox[..n], scope, i);
    }
  }

  // --- the publisher -------------------------------------------------------------------------

  /** The publisher's own two steps, the early lookup and the commit, are a run of one client. */
  method PublishThrough(repository: Repository, plan: Plan, expected: Option<Uuid>, lookup: Fault, commit: Fault)
    returns (r: Result<Outcome, Failure>)
    modifies repository
    ensures var request := ToPublish(plan, expected);
      var w := Run(World(old(repository.Contents()), map[], []), repository.digests, repository.customer,
                   [Begin(0, request, lookup), Complete(0, commit, false)]);
      repository.Contents() == w.tables && w.answers == [Answer(request, r)]
    ensures var t := old(repository.Contents());
      var key := OperationKey(repository.customer, plan.context.operationId);
      lookup.NoFault? && t.identity == Some((repository.customer, 1)) && key in t.operations ==>
        && repository.Contents() == t
        && r == if t.operations[key].Published? && t.operations[key].operationDigest == plan.operationDigest
                then Ok(t.operations[key]) else Err(Conflict)
  {
    var found := repository.GetOperationResult(plan.context.operationId, lookup);
    TwoSteps(repository.Contents(), repository.digests, repository.customer, ToPublish(plan, expected), lookup, commit);
    hide Run;
    if found.Err? {
      return Err(found.error);
    }
    if found.value.Some? {
      return Replayed(found.value.value, Publish, plan.operationDigest);
    }
    r := repository.CommitGeneration(plan, expected, commit);
  }

  method RollbackThrough(repository: Repository, request: RollbackRequest, expected: Uuid, lookup: Fault, commit: Fault)
    returns (r: Result<Outcome, Failure>)
    modifies repository
    ensures var asked := ToRollBack(request, expected);
      var w := Run(World(old(repository.Contents()), map[], []), repository.digests, repository.customer,
                   [Begin(0, asked, lookup), Complete(0, commit, false)]);
      repository.Contents() == w.tables && w.answers == [Answer(asked, r)]
    ensures var t := old(repository.Contents());
      var key := OperationKey(repository.customer, request.context.operationId);
      lookup.NoFault? && t.identity == Some((repository.customer, 1)) && key in t.operations ==>
        && repository.Contents() == t
        && r == if t.operations[key].RolledBack? && t.operations[key].operationDigest == request.operationDigest
                then Ok(t.operations[key]) else Err(Conflict)
  {
    var found := repository.GetOperationResult(request.context.operationId, lookup);
    TwoSteps(repository.Contents(), repository.digests, repository.customer, ToRollBack(request, expected), lookup,
             commit);
    hide Run;
    if found.Err? {
      return Err(found.error);
    }
    if found.value.Some? {
      return Replayed(found.value.value, Rollback, request.operationDigest);
    }
    r := repository.CommitRollbackOf(request, expected, commit);
  }

  lemma TwoSteps(t: Tables, d: Digests, customer: string, request: Request, lookup: Fault, commit: Fault)
    ensures var w := Run(World(t, map[], []), d, customer, [Begin(0, request, lookup), Complete(0, commit, false)]);
      var early := Early(t, customer, request, lookup);
      if early.Some? then w.tables == t && w.answers == [Answer(request, early.value)]
      else
        var attempt := Commit(t, d, customer, request, commit);
        w.tables == attempt.tables && w.answers == [Answer(request, attempt.result)]
  {
    hide Commit, Early;
    var w := World(t, map[], []);
    var first := [Begin(0, request, lookup)];
    var both := first + [Complete(0, commit, false)];
    assert both[..1] == first && first[..0] == [];
    assert Run(w, d, customer, first) == Advance(w, d, customer, first[0]);
    assert Run(w, d, customer, both) == Advance(Run(w, d, customer, first), d, customer, both[1]);
  }
}
