/** What a request is answered with and what it leaves behind, spelled out on the tables: the
    comparison that makes operation ids safe to repeat, and every column that a new publication or
    rollback writes. */
module PublicationAnswers {
  import opened Wrappers
  import opened Ordering
  import opened KnowledgeModels
  import opened Publication
  import opened PublicationSafety
  import opened PublicationRuns
  import opened PublicationOutcome

  // --- operation ids that come again ---------------------------------------------------------

  /** The row under which a request finds its operation. */
  function KeyAsked(customer: string, request: Request): OperationKey {
    match request
    case ToPublish(plan, _) => OperationKey(customer, plan.context.operationId)
    case ToRollBack(r, _) => OperationKey(customer, r.context.operationId)
  }

  /** The stored result is that of the same kind of action with the same operation digest. */
  predicate SameOperation(o: Outcome, request: Request) {
    match request
    case ToPublish(plan, _) => o.Published? && o.operationDigest == plan.operationDigest
    case ToRollBack(r, _) => o.RolledBack? && o.operationDigest == r.operationDigest
  }

  predicate ForCustomer(request: Request, customer: string) {
    match request
    case ToPublish(plan, _) => plan.manifest.scope.customer == customer
    case ToRollBack(r, _) => r.scope.customer == customer
  }

  /** What the stored result `o` answers to a request under its id. */
  function Replay(o: Outcome, request: Request): Result<Outcome, Failure> {
    if SameOperation(o, request) then Ok(o) else Err(Conflict)
  }

  /** A request whose operation id is stored gets the stored result if kind and digest agree and a
      conflict otherwise, and changes nothing, whether it finds out early or only at commit. */
  lemma StoredDecides(w: World, d: Digests, customer: string, client: nat, request: Request)
    requires w.tables.identity == Some((customer, 1)) && ForCustomer(request, customer)
    requires KeyAsked(customer, request) in w.tables.operations
    ensures var answer := Replay(w.tables.operations[KeyAsked(customer, request)], request);
      && Commit(w.tables, d, customer, request, NoFault) == Attempt(w.tables, answer)
      && (client !in w.pending ==>
            Advance(w, d, customer, Begin(client, request, NoFault))
              == w.(answers := w.answers + [Answer(request, answer)]))
      && (client in w.pending && w.pending[client] == request ==>
            Advance(w, d, customer, Complete(client, NoFault, false))
              == World(w.tables, w.pending - {client}, w.answers + [Answer(request, answer)]))
  {
    hide StoreGeneration, Persist, Switch, CanReturnTo;
  }

  /** With a fault, too, a commit under a stored id changes nothing; and an early lookup answers
      exactly when it fails, the database is not the customer's, or the id is stored. */
  lemma StoredWithFault(t: Tables, d: Digests, customer: string, request: Request, fault: Fault)
    requires t.identity == Some((customer, 1)) && ForCustomer(request, customer)
    requires KeyAsked(customer, request) in t.operations
    ensures Commit(t, d, customer, request, fault) == Attempt(t,
      match fault
      case NoFault => Replay(t.operations[KeyAsked(customer, request)], request)
      case SerializationFailure => Err(Conflict)
      case OtherFailure => Err(StorageUnavailable)
      case ReplyLost =>
        if SameOperation(t.operations[KeyAsked(customer, request)], request) then Err(StorageUnavailable)
        else Err(Conflict))
  {
    hide StoreGeneration, Persist, Switch, CanReturnTo;
  }

  lemma EarlyAnswers(w: World, d: Digests, customer: string, client: nat, request: Request, fault: Fault)
    requires client !in w.pending
    ensures Advance(w, d, customer, Begin(client, request, fault)) ==
      if fault != NoFault then w.(answers := w.answers + [Answer(request, Err(StorageUnavailable))])
      else if w.tables.identity != Some((customer, 1)) then w.(answers := w.answers + [Answer(request, Err(IdentityMismatch))])
      else if KeyAsked(customer, request) in w.tables.operations then
        w.(answers := w.answers + [Answer(request, Replay(w.tables.operations[KeyAsked(customer, request)], request))])
      else w.(pending := w.pending[client := request])
  {
  }

  /** Every success speaks of its own request. */
  predicate AnswersOwn(answers: seq<Answer>) {
    forall i | 0 <= i < |answers| && answers[i].result.Ok? :: SameOperation(answers[i].result.value, answers[i].request)
  }

  lemma CommitOwn(t: Tables, d: Digests, customer: string, request: Request, fault: Fault)
    requires Commit(t, d, customer, request, fault).result.Ok?
    ensures SameOperation(Commit(t, d, customer, request, fault).result.value, request)
  {
    hide StoreGeneration, Switch, CanReturnTo, OutboxTaken;
  }

  lemma StepOwn(w: World, d: Digests, customer: string, step: Step)
    requires AnswersOwn(w.answers)
    ensures AnswersOwn(Advance(w, d, customer, step).answers)
  {
    match step
    case Begin(client, request, fault) =>
      if client !in w.pending {
        hide Advance;
        EarlyAnswers(w, d, customer, client, request, fault);
      }
    case Complete(client, fault, cancelled) =>
      hide Commit, SameOperation;
      if client in w.pending && Commit(w.tables, d, customer, w.pending[client], fault).result.Ok? {
        CommitOwn(w.tables, d, customer, w.pending[client], fault);
      }
    case Abandon(_) =>
  }

  /** In every run, whatever is in the tables at its start, each successful answer has the kind and
      the operation digest of the request that it was given for. */
  lemma {:induction false} SuccessesAreOwn(w: World, d: Digests, customer: string, steps: seq<Step>)
    requires AnswersOwn(w.answers)
    ensures AnswersOwn(Run(w, d, customer, steps).answers)
  {
    hide AnswersOwn, Advance;
    if steps != [] {
      SuccessesAreOwn(w, d, customer, steps[..|steps| - 1]);
      StepOwn(Run(w, d, customer, steps[..|steps| - 1]), d, customer, steps[|steps| - 1]);
    }
  }

  /** Two successes under one id speak of requests of the same kind with the same digest, so an id
      never succeeds for two different operations. */
  lemma OneOperationPerId(identity: Option<(string, nat)>, d: Digests, customer: string, steps: seq<Step>, i: nat, j: nat)
    requires forall k | 0 <= k < |steps| :: HonestStep(steps[k])
    requires var w := Run(Provisioned(identity), d, customer, steps);
      && i < |w.answers| && j < |w.answers| && w.answers[i].result.Ok? && w.answers[j].result.Ok?
      && KeyAsked(customer, w.answers[i].request) == KeyAsked(customer, w.answers[j].request)
    ensures var w := Run(Provisioned(identity), d, customer, steps);
      && w.answers[i].result == w.answers[j].result
      && SameOperation(w.answers[i].result.value, w.answers[j].request)
      && (w.answers[i].request.ToPublish? <==> w.answers[j].request.ToPublish?)
      && OperationDigest(w.answers[i].request) == OperationDigest(w.answers[j].request)
  {
    var w := Run(Provisioned(identity), d, customer, steps);
    assert AnswersOwn(Provisioned(identity).answers);
    hide Run, Provisioned, HonestStep;
    SuccessesAreOwn(Provisioned(identity), d, customer, steps);
    OneResultPerOperation(identity, d, customer, steps, i, j);
  }

  // --- every column that is written ----------------------------------------------------------

  /** The tables after a publication: a new active generation with its content, the one before it
      retired, the pointer moved, the result and the audit row recorded. */
  ghost predicate PublishedAs(t: Tables, u: Tables, d: Digests, plan: Plan, expected: Option<Uuid>) {
    var m := plan.manifest;
    var scope := m.scope;
    var g := GenerationKey(scope.customer, m.generation);
    && u.identity == t.identity && u.active == t.active[scope := Pointer(m.generation, m.digest)]
    && u.operations == t.operations[OperationKey(scope.customer, plan.context.operationId) :=
         Published(plan.context.operationId, scope, m.generation, expected, m.digest, plan.operationDigest)]
    && u.outbox == t.outbox + [OutboxRow(scope.customer, plan.event.outboxId, plan.event.operationId,
                                         plan.event.requestId, plan.event.actorId, plan.event.namespace, Publish,
                                         expected, plan.event.activated, plan.event.digest)]
    && Retires(t, u, scope, expected)
    && u.generations.Keys == t.generations.Keys + {g} && g !in t.generations
    && u.generations[g] == Generation(scope.namespace, m.digest, m.documentCount, m.chunkCount, m.totalBytes, Active)
    && Extends(t, u, g) && Holds(u, d, g, plan.bundles)
  }

  /** Of the generations that were there, the one that was expected to be active is retired now. */
  ghost predicate Retires(t: Tables, u: Tables, scope: Scope, expected: Option<Uuid>) {
    forall k | k in t.generations && k in u.generations ::
      if k.customer == scope.customer && Some(k.id) == expected
      then u.generations[k] == t.generations[k].(status := Retired)
      else u.generations[k] == t.generations[k]
  }

  /** The tables after a rollback: the target active again, the one before it retired. */
  ghost predicate RolledBackAs(t: Tables, u: Tables, r: RollbackRequest, expected: Uuid) {
    var g := GenerationKey(r.scope.customer, r.target);
    && g in t.generations && t.generations[g].namespace == r.scope.namespace && t.generations[g].status == Retired
    && u.identity == t.identity && u.active == t.active[r.scope := Pointer(r.target, t.generations[g].digest)]
    && u.operations == t.operations[OperationKey(r.scope.customer, r.context.operationId) :=
         RolledBack(r.context.operationId, r.scope, r.target, Some(expected), t.generations[g].digest,
                    r.operationDigest)]
    && u.outbox == t.outbox + [OutboxRow(r.scope.customer, r.outboxId, r.context.operationId, r.context.requestId,
                                         r.context.actorId, r.scope.namespace, Rollback, Some(expected), r.target,
                                         t.generations[g].digest)]
    && u.generations.Keys == t.generations.Keys && u.generations[g] == t.generations[g].(status := Active)
    && (forall k | k in t.generations && k != g ::
          if k == GenerationKey(r.scope.customer, expected) then u.generations[k] == t.generations[k].(status := Retired)
          else u.generations[k] == t.generations[k])
    && u.documents == t.documents && u.chunks == t.chunks
  }

  lemma PublishColumns(plan: Plan, expected: Option<Uuid>)
    ensures PublishOutcome(plan, expected)
         == Published(plan.context.operationId, plan.manifest.scope, plan.manifest.generation, expected,
                      plan.manifest.digest, plan.operationDigest)
    ensures PublishRow(plan, expected)
         == OutboxRow(plan.manifest.scope.customer, plan.event.outboxId, plan.event.operationId,
                      plan.event.requestId, plan.event.actorId, plan.event.namespace, Publish, expected,
                      plan.event.activated, plan.event.digest)
  {
  }

  lemma RollbackColumns(r: RollbackRequest, expected: Uuid, digest: string)
    ensures RollbackOutcome(r, Some(expected), digest)
         == RolledBack(r.context.operationId, r.scope, r.target, Some(expected), digest, r.operationDigest)
    ensures RollbackRow(r, Some(expected), digest)
         == OutboxRow(r.scope.customer, r.outboxId, r.context.operationId, r.context.requestId, r.context.actorId,
                      r.scope.namespace, Rollback, Some(expected), r.target, digest)
  {
  }

  /** A new publication that succeeds writes exactly these rows. */
  lemma PublishWrites(t: Tables, d: Digests, plan: Plan, expected: Option<Uuid>)
    requires Sound(t) && EventMatches(plan)
    requires OperationKey(plan.manifest.scope.customer, plan.context.operationId) !in t.operations
    requires PublishStatements(t, d, plan, expected).result.Ok?
    ensures PublishedAs(t, PublishStatements(t, d, plan, expected).tables, d, plan, expected)
    ensures PublishStatements(t, d, plan, expected).result.value
         == Published(plan.context.operationId, plan.manifest.scope, plan.manifest.generation, expected,
                      plan.manifest.digest, plan.operationDigest)
  {
    var m := plan.manifest;
    var p := PublishStatements(t, d, plan, expected);
    hide *;
    PublishSteps(t, d, plan, expected);
    PublishKeeps(t, d, plan, expected);
    StoreParts(t, d, plan);
    PublishColumns(plan, expected);
    var stored := StoreGeneration(t, d, plan).value;
    var outcome, row := PublishOutcome(plan, expected), PublishRow(plan, expected);
    ActivationParts(stored, outcome, row);
    SwitchStatuses(stored, m.scope, expected, m.generation, m.digest);
    PersistResult(Switch(stored, m.scope, expected, m.generation, m.digest), outcome, row);
    NotItself(t, m.scope, expected, m.generation);
    PublishedParts(t, stored, p.tables, d, plan, expected);
  }

  lemma PersistResult(s: Tables, outcome: Outcome, row: OutboxRow)
    requires Persist(s, outcome, row).result.Ok?
    ensures Persist(s, outcome, row).result.value == outcome
  {
  }

  /** A generation that does not exist is not the one that is active. */
  lemma NotItself(t: Tables, scope: Scope, expected: Option<Uuid>, next: Uuid)
    requires Sound(t) && ActiveId(t, scope) == expected && GenerationKey(scope.customer, next) !in t.generations
    ensures expected != Some(next)
  {
    assert PointersSound(t);
    hide Sound;
  }

  lemma PublishedParts(t: Tables, stored: Tables, u: Tables, d: Digests, plan: Plan, expected: Option<Uuid>)
    requires var m := plan.manifest;
      var g := GenerationKey(m.scope.customer, m.generation);
      && g !in t.generations && expected != Some(m.generation)
      && stored.generations == t.generations[g := Generation(m.scope.namespace, m.digest, m.documentCount, m.chunkCount,
                                                              m.totalBytes, Candidate)]
      && Switched(stored.generations, u.generations, m.scope, expected, m.generation)
      && u.identity == t.identity && u.active == t.active[m.scope := Pointer(m.generation, m.digest)]
      && u.operations == t.operations[OperationKey(m.scope.customer, plan.context.operationId) :=
           Published(plan.context.operationId, m.scope, m.generation, expected, m.digest, plan.operationDigest)]
      && u.outbox == t.outbox + [OutboxRow(m.scope.customer, plan.event.outboxId, plan.event.operationId,
                                           plan.event.requestId, plan.event.actorId, plan.event.namespace, Publish,
                                           expected, plan.event.activated, plan.event.digest)]
      && Extends(t, u, g) && Holds(u, d, g, plan.bundles)
    ensures PublishedAs(t, u, d, plan, expected)
  {
    hide Extends, Holds;
  }

  /** A new rollback that succeeds writes exactly these rows and no content. */
  lemma RollbackWrites(t: Tables, r: RollbackRequest, expected: Uuid)
    requires Sound(t)
    requires OperationKey(r.scope.customer, r.context.operationId) !in t.operations
    requires RollbackStatements(t, r, expected).result.Ok?
    ensures RolledBackAs(t, RollbackStatements(t, r, expected).tables, r, expected)
    ensures RollbackStatements(t, r, expected).result.value
         == RolledBack(r.context.operationId, r.scope, r.target, Some(expected),
                       t.generations[GenerationKey(r.scope.customer, r.target)].digest, r.operationDigest)
  {
    RollbackSteps(t, r, expected);
    assert CanReturnTo(t, r.scope, r.target);
    var g := GenerationKey(r.scope.customer, r.target);
    var digest := t.generations[g].digest;
    var u := RollbackStatements(t, r, expected).tables;
    hide *;
    RollbackColumns(r, expected, digest);
    var outcome, row := RollbackOutcome(r, Some(expected), digest), RollbackRow(r, Some(expected), digest);
    ActivationParts(t, outcome, row);
    SwitchStatuses(t, r.scope, Some(expected), r.target, digest);
    PersistResult(Switch(t, r.scope, Some(expected), r.target, digest), outcome, row);
    RolledBackParts(t, u, r, expected);
  }

  lemma RolledBackParts(t: Tables, u: Tables, r: RollbackRequest, expected: Uuid)
    requires CanReturnTo(t, r.scope, r.target)
    requires var g := GenerationKey(r.scope.customer, r.target);
      && u.identity == t.identity && u.active == t.active[r.scope := Pointer(r.target, t.generations[g].digest)]
      && u.operations == t.operations[OperationKey(r.scope.customer, r.context.operationId) :=
           RolledBack(r.context.operationId, r.scope, r.target, Some(expected), t.generations[g].digest,
                      r.operationDigest)]
      && u.outbox == t.outbox + [OutboxRow(r.scope.customer, r.outboxId, r.context.operationId, r.context.requestId,
                                           r.context.actorId, r.scope.namespace, Rollback, Some(expected), r.target,
                                           t.generations[g].digest)]
      && Switched(t.generations, u.generations, r.scope, Some(expected), r.target)
      && u.documents == t.documents && u.chunks == t.chunks
    ensures RolledBackAs(t, u, r, expected)
  {
  }
}
