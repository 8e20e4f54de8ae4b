/** When an attempt that answers an error has changed the tables all the same, in terms of what the
    tables hold and what the request asks for. */
module PublicationFailure {
  import opened Wrappers
  import opened KnowledgeModels
  import opened Publication
  import opened PublicationSafety
  import opened PublicationRuns
  import opened PublicationOutcome

  /** A new publication that nothing in the tables stands against. */
  ghost predicate Publishable(t: Tables, customer: string, plan: Plan, expected: Option<Uuid>) {
    && plan.manifest.scope.customer == customer && OperationKey(customer, plan.context.operationId) !in t.operations
    && Identified(t, customer) && ActiveId(t, plan.manifest.scope) == expected
    && GenerationKey(customer, plan.manifest.generation) !in t.generations
    && Storable(plan) && OutboxFree(t, PublishRow(plan, expected))
  }

  /** A new rollback that nothing in the tables stands against. */
  ghost predicate Returnable(t: Tables, customer: string, r: RollbackRequest, expected: Uuid) {
    && r.scope.customer == customer && OperationKey(customer, r.context.operationId) !in t.operations
    && Identified(t, customer) && ActiveId(t, r.scope) == Some(expected) && CanReturnTo(t, r.scope, r.target)
    && OutboxFree(t, RollbackRow(r, Some(expected), ""))
  }

  lemma FaultFreeIff(t: Tables, d: Digests, customer: string, request: Request)
    ensures Commit(t, d, customer, request, NoFault).result.Ok? <==>
      ScopeAsked(request).customer == customer && Statements(t, d, request).result.Ok?
  {
    CommitIs(t, d, customer, request, NoFault);
    FinishCases(t, Statements(t, d, request), NoFault);
    hide Commit, Statements, Finish;
  }

  /** A publication that answers an error has changed the tables exactly when it is a new one, the
      tables stand against nothing in it, and only the confirmation of its COMMIT was lost. */
  lemma FailedPublishChanges(t: Tables, d: Digests, customer: string, plan: Plan, expected: Option<Uuid>, fault: Fault)
    requires Sound(t) && EventMatches(plan)
    requires Commit(t, d, customer, ToPublish(plan, expected), fault).result.Err?
    ensures Commit(t, d, customer, ToPublish(plan, expected), fault).tables != t <==>
      fault.ReplyLost? && Publishable(t, customer, plan, expected)
  {
    var request := ToPublish(plan, expected);
    assert HonestRequest(request);
    hide Commit, Sound, Storable, OutboxFree, PublishStatements, EventMatches, HonestRequest;
    FailureChangesNothing(t, d, customer, request, fault);
    FaultFreeIff(t, d, customer, request);
    if plan.manifest.scope.customer == customer && RequestKey(customer, request) !in t.operations {
      PublishSucceedsIff(t, d, plan, expected);
    }
  }

  /** The same for a rollback. */
  lemma FailedRollbackChanges(t: Tables, d: Digests, customer: string, r: RollbackRequest, expected: Uuid, fault: Fault)
    requires Sound(t) && Commit(t, d, customer, ToRollBack(r, expected), fault).result.Err?
    ensures Commit(t, d, customer, ToRollBack(r, expected), fault).tables != t <==>
      fault.ReplyLost? && Returnable(t, customer, r, expected)
  {
    var request := ToRollBack(r, expected);
    assert HonestRequest(request);
    hide Commit, Sound, CanReturnTo, OutboxFree, RollbackStatements, HonestRequest;
    FailureChangesNothing(t, d, customer, request, fault);
    FaultFreeIff(t, d, customer, request);
    if r.scope.customer == customer && RequestKey(customer, request) !in t.operations {
      RollbackSucceedsIff(t, r, expected);
    }
  }

  // --- an instance ---------------------------------------------------------------------------

  /** A freshly provisioned database of customer "c". */
  function Empty(): Tables {
    Tables(Some(("c", 1)), map[], map[], map[], map[], map[], [])
  }

  /** A plan of one document with one chunk. */
  function OneChunkPlan(): Plan {
    var governance := Governance([], [], [], [], Public, "en", "t", 0, None);
    var manifest := Manifest("d", "1.0.0", "n", CustomerPolicy, Some("c"), None, "", "", "", None);
    var chunk := Chunk("k", "q", "d", "1.0.0", 0, "n", "s", "h", CustomerPolicy, Some("c"), governance, "x");
    Plan(Context("o", "r", "c", "a", "n", {}), GenerationManifest(1, Scope("c", "n"), "g", 1, 1, 1),
         [Bundle(manifest, [chunk], NewDocument, 1, 1)], "p", AuditEvent(2, "o", "r", "a", "n", 1, "g"))
  }

  lemma OneChunkPlanFits()
    ensures EventMatches(OneChunkPlan()) && Storable(OneChunkPlan())
  {
    var plan := OneChunkPlan();
    var bundle := plan.bundles[0];
    assert plan.bundles[..0] == [] && AllChunks([]) == [];
    assert AllChunks(plan.bundles) == bundle.chunks;
    assert HasDocument(plan.bundles, bundle.chunks[0].documentId);
  }

  lemma EmptyIsFresh()
    ensures Sound(Empty()) && Publishable(Empty(), "c", OneChunkPlan(), None)
  {
    OneChunkPlanFits();
    ProvisionedReachable(Some(("c", 1)), "c");
    hide Storable, Sound;
  }

  /** Publishing this plan into the empty database answers a storage error when the confirmation is
      lost, and the database holds the plan. */
  lemma LostReplyChanges(d: Digests)
    ensures var a := Commit(Empty(), d, "c", ToPublish(OneChunkPlan(), None), ReplyLost);
      && a.result == Err(StorageUnavailable) && a.tables != Empty()
      && Holds(a.tables, d, GenerationKey("c", 1), OneChunkPlan().bundles)
  {
    var t, plan := Empty(), OneChunkPlan();
    var request := ToPublish(plan, None);
    OneChunkPlanFits();
    EmptyIsFresh();
    assert plan.manifest.scope.customer == "c" && plan.manifest.generation == 1 && HonestRequest(request);
    hide Commit, Sound, Storable, OutboxFree, PublishStatements, Holds, OneChunkPlan, Empty, HonestRequest, NewEffect;
    PublishSucceedsIff(t, d, plan, None);
    CommitIs(t, d, "c", request, ReplyLost);
    FinishCases(t, Statements(t, d, request), ReplyLost);
    PublishKeeps(t, d, plan, None);
    FailedPublishChanges(t, d, "c", plan, None, ReplyLost);
  }
}
