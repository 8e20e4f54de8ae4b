/** One trusted chat request from its reference to the audited public answer. The resolver, the
    snapshot verifier, the route catalogue, the clock and the audit sink may answer anything. */
module Application {
  import opened Wrappers
  import opened ToolGateway
  import opened Orchestration

  type Time = int

  datatype Intent = Intent(requestId: string, customer: string, user: string, snapshot: string, code: string,
                           issuedAt: Time, expiresAt: Time)
  datatype Resolution = Resolution(context: Context, intent: Intent)
  datatype Resolver = Resolves(resolution: Resolution) | ResolverFails | ResolverCancelled

  /** A decision may name the request it is about. */
  datatype Decision = Decision(current: bool, request: Option<string>, customer: string, user: string, snapshot: string)
  datatype Verifier = Decides(decision: Decision) | VerifierFails | VerifierCancelled

  /** A clock reading without a time zone is no reading. */
  datatype Clock = Reads(now: Time) | Naive | ClockFails

  datatype ApplicationReason = Finished | InvalidInput | ResolutionFailed | ClockInvalid | LifetimeInvalid
                             | FutureIssued | Expired | BindingMismatch | SnapshotRejected
                             | SnapshotBindingMismatch | SnapshotUnavailable | RouteUnavailable | OrchestratorFailed

  datatype Setting = Setting(inputValid: bool, referenceId: string, resolver: Resolver, clock: Clock,
                             verifier: Verifier, catalog: string -> Option<Route>, audit: Sink,
                             maximumLifetime: Time)

  datatype Step =
    | Ran(happening: Happening)
    | ApplicationAudited(success: bool, reason: ApplicationReason, recorded: bool)

  /** The intent is alive at `now`, not older than allowed, and about this very request. */
  predicate IntentBound(x: Setting, r: Resolution, now: Time) {
    var i, c := r.intent, r.context;
    && i.issuedAt <= now < i.expiresAt && i.expiresAt - i.issuedAt <= x.maximumLifetime
    && i.requestId == x.referenceId && i.requestId == c.requestId && i.customer == c.customer
    && i.user == c.user && i.snapshot == c.snapshot
  }

  /** The snapshot is current, and the decision is about this request when it names one. */
  predicate SnapshotCurrent(d: Decision, c: Context) {
    d.current
    && (d.request.Some? ==>
          d.request.value == c.requestId && d.customer == c.customer && d.user == c.user && d.snapshot == c.snapshot)
  }

  /** Everything that must hold before the orchestrator is called. */
  predicate Cleared(x: Setting, r: Resolution, route: Route) {
    && x.inputValid && x.resolver == Resolves(r) && x.clock.Reads? && IntentBound(x, r, x.clock.now)
    && x.verifier.Decides? && SnapshotCurrent(x.verifier.decision, r.context)
    && x.catalog(r.intent.code) == Some(route)
  }

  // --- ending --------------------------------------------------------------------------------

  method Finish(result: PublicResult, reason: ApplicationReason, sink: Sink)
    returns (outcome: Outcome<PublicResult>, step: Step)
    ensures step == ApplicationAudited(result.Success?, reason, sink.Recorded?)
    ensures outcome == match sink
      case Recorded => Done(result)
      case SinkFails => Done(Failure(AgentAuditUnavailable))
      case SinkCancelled => Cancelled
  {
    step := ApplicationAudited(result.Success?, reason, sink.Recorded?);
    outcome := match sink
      case Recorded => Done(result)
      case SinkFails => Done(Failure(AgentAuditUnavailable))
      case SinkCancelled => Cancelled;
  }

  method Refuse(reason: ApplicationReason, sink: Sink) returns (outcome: Outcome<PublicResult>, s: seq<Step>)
    ensures s == [ApplicationAudited(false, reason, sink.Recorded?)]
    ensures outcome.Done? ==> outcome.value == Failure(if sink.Recorded? then AgentUnavailable else AgentAuditUnavailable)
    ensures !outcome.Raised?
  {
    var step: Step;
    outcome, step := Finish(Failure(AgentUnavailable), reason, sink);
    s := [step];
  }

  /** Why a resolution is refused; nothing when it is bound to the request. */
  method ResolutionReason(x: Setting, r: Resolution, now: Time) returns (reason: Option<ApplicationReason>)
    ensures reason.None? <==> IntentBound(x, r, now)
    ensures reason != Some(Finished)
    ensures var i := r.intent;
      && (reason == Some(LifetimeInvalid) <==>
            i.expiresAt <= i.issuedAt
            || (i.issuedAt <= now < i.expiresAt && i.expiresAt - i.issuedAt > x.maximumLifetime))
      && (reason == Some(FutureIssued) <==> now < i.issuedAt < i.expiresAt)
      && (reason == Some(Expired) <==> i.issuedAt < i.expiresAt <= now)
  {
    var i, c := r.intent, r.context;
    if i.expiresAt <= i.issuedAt {
      return Some(LifetimeInvalid);
    }
    if i.issuedAt > now {
      return Some(FutureIssued);
    }
    if i.expiresAt <= now {
      return Some(Expired);
    }
    if i.expiresAt - i.issuedAt > x.maximumLifetime {
      return Some(LifetimeInvalid);
    }
    if i.requestId != x.referenceId || i.requestId != c.requestId || i.customer != c.customer || i.user != c.user
       || i.snapshot != c.snapshot {
      return Some(BindingMismatch);
    }
    reason := None;
  }

  // --- the request ---------------------------------------------------------------------------

  function Steps(s: seq<Happening>): (r: seq<Step>)
    ensures |r| == |s| && forall i | 0 <= i < |s| :: r[i] == Ran(s[i])
  {
    seq(|s|, i requires 0 <= i < |s| => Ran(s[i]))
  }

  /** The happenings inside the orchestrator. */
  ghost predicate Inner(s: seq<Step>, happenings: seq<Happening>) {
    s == Steps(happenings) || exists a: Step :: a.ApplicationAudited? && s == Steps(happenings) + [a]
  }

  /** No handler runs unless the request was cleared for the route; answers are always audited
      last and once; a success carries the whole chain of recorded audits; and a failure is the
      one that its audit or the orchestrator's gives. */
  ghost predicate Trusted(g: Gateway, x: Setting, limits: Limits, w: World, outcome: Outcome<PublicResult>, s: seq<Step>) {
    && (forall t | t in s && t.ApplicationAudited? :: t == s[|s| - 1])
    && (outcome.Done? ==> s != [] && s[|s| - 1].ApplicationAudited?)
    && (outcome.Done? ==>
          (outcome.value.Success? <==> s[|s| - 1].success && s[|s| - 1].recorded))
    && (outcome.Done? && outcome.value.Failure? ==>
          && (!s[|s| - 1].recorded ==> outcome.value.error.AgentAuditUnavailable?)
          && (s[|s| - 1].recorded && !s[|s| - 1].reason.Finished? ==> outcome.value.error.AgentUnavailable?))
    && ((s == [] || (|s| == 1 && s[0].ApplicationAudited? && !s[0].success && !s[0].reason.Finished?))
        || exists r, route, happenings ::
             Cleared(x, r, route) && Inner(s, happenings) && Safe(w, g, r.context, route, happenings)
             && (outcome.Done? && s[|s| - 1].recorded && s[|s| - 1].reason.Finished? ==>
                   happenings != [] && Told(outcome, happenings[|happenings| - 1]))
             && (outcome.Done? && outcome.value.Success? ==>
                   && s == Steps(happenings) + [ApplicationAudited(true, Finished, true)]
                   && SucceededAs(w, g, r.context, route, limits, happenings, outcome.value)))
  }

  /** The request is cleared, its run may start, and the model and the tool do their part. */
  ghost predicate Answerable(g: Gateway, x: Setting, messageLength: nat, limits: Limits, w: World, r: Resolution,
                             route: Route) {
    && Cleared(x, r, route) && MayStart(g, r.context, messageLength, route, limits, w)
    && Cooperates(w, g, r.context, route, limits)
  }

  /** A success comes out exactly when the request is answerable and both audits are recorded. */
  method ExecuteRequest(g: Gateway, x: Setting, messageLength: nat, limits: Limits, w: World)
    returns (outcome: Outcome<PublicResult>, s: seq<Step>)
    ensures Trusted(g, x, limits, w, outcome, s)
    ensures outcome.Done? && outcome.value.Success? <==>
      (exists r, route :: Answerable(g, x, messageLength, limits, w, r, route)) && w.audit.Recorded? && x.audit.Recorded?
  {
    OneClearance(g, x, messageLength, limits, w);
    hide Answerable;
    hide IntentBound, SnapshotCurrent, Safe, SucceededAs, Steps;
    if !x.inputValid {
      outcome, s := Refuse(InvalidInput, x.audit);
      return;
    }
    var r: Resolution;
    match x.resolver {
      case Resolves(resolution) => r := resolution;
      case ResolverFails =>
        outcome, s := Refuse(ResolutionFailed, x.audit);
        return;
      case ResolverCancelled => return Cancelled, [];
    }
    var now: Time;
    match x.clock {
      case Reads(t) => now := t;
      case Naive =>
        outcome, s := Refuse(ClockInvalid, x.audit);
        return;
      case ClockFails => return Raised, [];
    }
    var reason := ResolutionReason(x, r, now);
    if reason.Some? {
      outcome, s := Refuse(reason.value, x.audit);
      return;
    }
    match x.verifier {
      case Decides(d) =>
        var problem := SnapshotReason(d, r.context);
        if problem.Some? {
          outcome, s := Refuse(problem.value, x.audit);
          return;
        }
      case VerifierFails =>
        outcome, s := Refuse(SnapshotUnavailable, x.audit);
        return;
      case VerifierCancelled => return Cancelled, [];
    }
    var route := x.catalog(r.intent.code);
    if route.None? {
      outcome, s := Refuse(RouteUnavailable, x.audit);
      return;
    }
    assert Cleared(x, r, route.value);
    hide *;
    outcome, s := Orchestrate(g, x, messageLength, limits, w, r, route.value);
  }

  /** A request is answerable in one way only: for the resolution and route that it is cleared for. */
  lemma OneClearance(g: Gateway, x: Setting, messageLength: nat, limits: Limits, w: World)
    ensures forall r, route, r', route' | Answerable(g, x, messageLength, limits, w, r, route) && Cleared(x, r', route') ::
      r == r' && route == route'
    ensures forall r, route | Answerable(g, x, messageLength, limits, w, r, route) :: Cleared(x, r, route)
  {
    hide MayStart, Cooperates, IntentBound, SnapshotCurrent;
  }

  method SnapshotReason(d: Decision, c: Context) returns (reason: Option<ApplicationReason>)
    ensures reason.None? <==> SnapshotCurrent(d, c)
    ensures reason == Some(SnapshotRejected) <==> !d.current
    ensures reason.Some? ==> reason.value in {SnapshotRejected, SnapshotBindingMismatch}
  {
    if !d.current {
      return Some(SnapshotRejected);
    }
    if d.request.Some? && (d.request.value != c.requestId || d.customer != c.customer || d.user != c.user
                           || d.snapshot != c.snapshot) {
      return Some(SnapshotBindingMismatch);
    }
    reason := None;
  }

  /** Run the orchestrator for a cleared request and audit what it returned. */
  method Orchestrate(g: Gateway, x: Setting, messageLength: nat, limits: Limits, w: World, r: Resolution, route: Route)
    returns (outcome: Outcome<PublicResult>, s: seq<Step>)
    requires Cleared(x, r, route)
    ensures Trusted(g, x, limits, w, outcome, s)
    ensures outcome.Done? && outcome.value.Success? <==>
      Answerable(g, x, messageLength, limits, w, r, route) && w.audit.Recorded? && x.audit.Recorded?
  {
    var step: Step;
    hide Cleared, Safe, SucceededAs, Steps, MayStart, Cooperates;
    var result, happenings := ExecuteRun(g, r.context, messageLength, route, limits, w);
    s := Steps(happenings);
    assert Safe(w, g, r.context, route, happenings);
    if result.Cancelled? {
      assert Inner(s, happenings);
      return Cancelled, s;
    }
    if result.Raised? {
      outcome, step := Finish(Failure(AgentUnavailable), OrchestratorFailed, x.audit);
    } else {
      outcome, step := Finish(result.value, Finished, x.audit);
    }
    s := s + [step];
    assert Inner(s, happenings);
  }

  // --- consequences --------------------------------------------------------------------------

  predicate CallsHandler(t: Step) {
    t.Ran? && IsHandler(t.happening)
  }

  /** The handler is called at most once, and only for a cleared request, the routed tool, a
      granted capability and arguments free of reserved names. */
  lemma HandlerOnlyWhenCleared(g: Gateway, x: Setting, limits: Limits, w: World, outcome: Outcome<PublicResult>, s: seq<Step>, i: nat)
    requires Trusted(g, x, limits, w, outcome, s) && i < |s| && CallsHandler(s[i])
    ensures forall j | 0 <= j < |s| && CallsHandler(s[j]) :: j == i
    ensures exists r, route ::
      && Cleared(x, r, route)
      && var call := s[i].happening.event.call;
         route == ExactRead(call.tool, call.version) && Permitted(g, r.context, call)
  {
    hide Cleared, Permitted, SucceededAs, TurnValid;
    var r, route, happenings :|
      Cleared(x, r, route) && Inner(s, happenings) && Safe(w, g, r.context, route, happenings);
    assert forall j | 0 <= j < |happenings| :: s[j] == Ran(happenings[j]);
    assert happenings[i] in happenings;
    forall j | 0 <= j < |s| && CallsHandler(s[j])
      ensures j == i
    {
      assert j < |happenings|;
      assert IsHandler(happenings[i]) && IsHandler(happenings[j]);
    }
  }

  /** A success reaches the caller only if the tool (when the route has one), the agent and the
      application recorded a success, once each and in that order. */
  lemma SuccessIsAudited(g: Gateway, x: Setting, limits: Limits, w: World, outcome: Outcome<PublicResult>, s: seq<Step>)
    requires Trusted(g, x, limits, w, outcome, s) && outcome.Done? && outcome.value.Success?
    ensures exists r, route ::
      && Cleared(x, r, route) && !route.Inconsistent?
      && Audits(s) == (if route.ExactRead? then [Ran(Gate(ToolAudited(true, true)))] else [])
                      + [Ran(AgentAudited(true, Completed, true)), ApplicationAudited(true, Finished, true)]
  {
    hide Cleared, Permitted, Speaks, Delivers, Safe;
    var r, route, happenings :|
      Cleared(x, r, route) && Inner(s, happenings)
      && s == Steps(happenings) + [ApplicationAudited(true, Finished, true)]
      && SucceededAs(w, g, r.context, route, limits, happenings, outcome.value);
    AuditsOf(w, g, r.context, route, limits, happenings, outcome.value);
    AuditsSnoc(Steps(happenings), ApplicationAudited(true, Finished, true));
  }

  function Audits(s: seq<Step>): seq<Step> {
    if s == [] then []
    else
      var last := s[|s| - 1];
      Audits(s[..|s| - 1])
      + if last.ApplicationAudited? || (last.Ran? && IsAudit(last.happening)) then [last] else []
  }

  lemma AuditsSnoc(s: seq<Step>, last: Step)
    ensures Audits(s + [last]) == Audits(s) + IfAudit(last)
  {
    assert (s + [last])[..|s|] == s;
  }

  lemma AuditsOf(w: World, g: Gateway, context: Context, route: Route, limits: Limits, happenings: seq<Happening>,
                 result: PublicResult)
    requires SucceededAs(w, g, context, route, limits, happenings, result)
    ensures !route.Inconsistent?
    ensures Audits(Steps(happenings)) ==
      (if route.ExactRead? then [Ran(Gate(ToolAudited(true, true)))] else [])
      + [Ran(AgentAudited(true, Completed, true))]
  {
    hide Permitted, Speaks, Delivers, Audits;
    var s := Steps(happenings);
    if route.GeneralOnly? {
      assert s == [s[0], s[1]];
      TwoAudits(s[0], s[1]);
    } else {
      var i: Interaction :| CallSucceeded(w, g, context, route, i, happenings[1..3]);
      assert happenings[1] == happenings[1..3][0] && happenings[2] == happenings[1..3][1];
      assert s == [s[0], s[1]] + [s[2], s[3], s[4]];
      FiveAudits(s[0], s[1], s[2], s[3], s[4]);
    }
  }

  /** The step itself, if it is an audit. */
  function IfAudit(t: Step): seq<Step> {
    if t.ApplicationAudited? || (t.Ran? && IsAudit(t.happening)) then [t] else []
  }

  lemma TwoAudits(a: Step, b: Step)
    ensures Audits([a, b]) == IfAudit(a) + IfAudit(b)
  {
    AuditsSnoc([], a);
    AuditsSnoc([a], b);
    assert [] + [a] == [a] && [a] + [b] == [a, b];
  }

  lemma FiveAudits(a: Step, b: Step, c: Step, d: Step, e: Step)
    ensures Audits([a, b] + [c, d, e]) == IfAudit(a) + IfAudit(b) + IfAudit(c) + IfAudit(d) + IfAudit(e)
  {
    TwoAudits(a, b);
    hide Audits, IfAudit;
    AuditsSnoc([a, b], c);
    AuditsSnoc([a, b] + [c], d);
    AuditsSnoc([a, b] + [c] + [d], e);
    assert [a, b] + [c] + [d] + [e] == [a, b] + [c, d, e];
  }

  /** What a successful answer may cite, given the output of the one successful call. */
  ghost predicate CitesOnly(tool: string, output: Output, citations: seq<Citation>) {
    if tool != KNOWLEDGE_TOOL then citations == []
    else
      && citations != [] && output.KnowledgeOutput?
      && forall c | c in citations :: exists e | e in output.excerpts :: e.citationId == c.id && e.metadata == c.metadata
  }

  /** The caller gets what the model said in the last turn: its text, and its citations in its order. */
  ghost predicate SaidLast(w: World, s: seq<Step>, result: PublicResult) {
    && result.Success? && |s| >= 3 && s[|s| - 3].Ran? && s[|s| - 3].happening.Asked?
    && (forall i | |s| - 3 < i < |s| && s[i].Ran? :: !s[i].happening.Asked?)
    && var reply := w.model(s[|s| - 3].happening.turn);
       && reply.Answers? && result.answer == reply.answer.text && |result.citations| == |reply.answer.citations|
       && forall i | 0 <= i < |result.citations| :: result.citations[i].id == reply.answer.citations[i]
  }

  /** Every successful answer is the model's last word and grounded: a general one ran no tool and
      cites nothing; a routed one rests on exactly one successful call, cites distinct excerpts of
      it with their metadata unchanged when it was a knowledge search, and nothing otherwise. */
  lemma SuccessIsGrounded(g: Gateway, x: Setting, limits: Limits, w: World, outcome: Outcome<PublicResult>, s: seq<Step>)
    requires Trusted(g, x, limits, w, outcome, s) && outcome.Done? && outcome.value.Success?
    ensures SaidLast(w, s, outcome.value) && CitationsUnique(outcome.value.citations)
    ensures (forall t | t in s :: !CallsHandler(t)) ==> outcome.value.citations == []
    ensures forall t | t in s && CallsHandler(t) ::
      var call := t.happening.event.call;
      && w.around.handler(call).Replied?
      && w.around.output(call.tool, w.around.handler(call).raw).VerifiedOutput?
      && CitesOnly(call.tool, w.around.output(call.tool, w.around.handler(call).raw).output, outcome.value.citations)
  {
    hide Cleared, Permitted, Safe, CitesOnly, CitationsUnique, Told;
    var r, route, happenings :|
      Cleared(x, r, route) && Inner(s, happenings)
      && s == Steps(happenings) + [ApplicationAudited(true, Finished, true)]
      && SucceededAs(w, g, r.context, route, limits, happenings, outcome.value);
    GroundedHistory(w, g, r.context, route, limits, happenings, outcome.value);
    LastWord(w, g, r.context, route, limits, happenings, outcome.value);
    hide SucceededAs;
    forall t | t in s && CallsHandler(t)
      ensures t.happening in happenings
    {
      var i :| 0 <= i < |s| && s[i] == t;
      assert s[i] == Ran(happenings[i]);
    }
    if route.ExactRead? {
      assert s[1] == Ran(happenings[1]);
      assert CallsHandler(s[1]) && s[1] in s;
    }
  }

  lemma LastWord(w: World, g: Gateway, context: Context, route: Route, limits: Limits, happenings: seq<Happening>,
                 result: PublicResult)
    requires SucceededAs(w, g, context, route, limits, happenings, result)
    ensures SaidLast(w, Steps(happenings) + [ApplicationAudited(true, Finished, true)], result)
    ensures CitationsUnique(result.citations)
  {
    hide CallSucceeded;
    if route.ExactRead? {
      var first := Turn([(route.tool, route.version)], RequiredTool(route.tool, route.version), [], 1);
      var i: Interaction :| happenings[3] == Asked(Turn([], FinalOnly, [i], 2))
        && Speaks(w, Turn([], FinalOnly, [i], 2), route, Some(i.result), i.call.callId, limits)
        && Delivers(w.model(Turn([], FinalOnly, [i], 2)).answer, Some(i.result), result);
    }
  }

  lemma GroundedHistory(w: World, g: Gateway, context: Context, route: Route, limits: Limits,
                        happenings: seq<Happening>, result: PublicResult)
    requires SucceededAs(w, g, context, route, limits, happenings, result)
    ensures route.GeneralOnly? ==> result.citations == [] && forall h | h in happenings :: !IsHandler(h)
    ensures route.ExactRead? ==> |happenings| == 5 && IsHandler(happenings[1])
    ensures forall h | h in happenings && IsHandler(h) ::
      && w.around.handler(h.event.call).Replied?
      && w.around.output(h.event.call.tool, w.around.handler(h.event.call).raw).VerifiedOutput?
      && CitesOnly(h.event.call.tool, w.around.output(h.event.call.tool, w.around.handler(h.event.call).raw).output,
                   result.citations)
  {
    hide Permitted, CitesOnly;
    if route.ExactRead? {
      var i: Interaction :| CallSucceeded(w, g, context, route, i, happenings[1..3])
        && happenings[3] == Asked(Turn([], FinalOnly, [i], 2))
        && Speaks(w, Turn([], FinalOnly, [i], 2), route, Some(i.result), i.call.callId, limits)
        && Delivers(w.model(Turn([], FinalOnly, [i], 2)).answer, Some(i.result), result);
      var invocation := Invocation(i.call.tool, i.call.version, i.call.arguments);
      assert happenings[1] == happenings[1..3][0] && happenings[2] == happenings[1..3][1];
      assert i.result == ToolSuccess(i.call.tool, i.call.version, i.result.output);
      CitesItsCall(w.model(Turn([], FinalOnly, [i], 2)).answer, route, i.result, i.call.callId, limits, result);
      hide Speaks, Delivers;
      forall h | h in happenings && IsHandler(h)
        ensures h == Gate(HandlerCalled(invocation))
      {
        var k :| 0 <= k < |happenings| && happenings[k] == h;
      }
    }
  }

  lemma CitesItsCall(a: FinalAnswer, route: Route, call: ToolResult, callId: string, limits: Limits, result: PublicResult)
    requires call.ToolSuccess? && MayAnswer(a, route, Some(call), callId, limits) && Delivers(a, Some(call), result)
    ensures CitesOnly(call.tool, call.output, result.citations)
  {
    if call.tool == KNOWLEDGE_TOOL {
      assert Citable(call, a.citations[0]);
      forall c | c in result.citations
        ensures exists e | e in call.output.excerpts :: e.citationId == c.id && e.metadata == c.metadata
      {
        var i :| 0 <= i < |result.citations| && result.citations[i] == c;
        assert result.citations[i].id == a.citations[i];
      }
    }
  }
}
