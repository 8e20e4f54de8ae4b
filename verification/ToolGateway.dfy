/** Capability access and the read-only tool gateway. Handlers, validation models and the audit
    sink are an environment that may answer anything. */
module ToolGateway {
  import opened Wrappers

  // --- what a request may see ----------------------------------------------------------------

  datatype Context = Context(requestId: string, customer: string, user: string, snapshot: string,
                             employee: Option<string>, modules: set<string>, permissions: set<string>,
                             roles: set<string>, purpose: string, locale: string)
  datatype Operation = Read | Command
  datatype Tool = Tool(name: string, version: string, operation: Operation, needsEmployee: bool,
                       permissions: set<string>, roles: set<string>, purposes: set<string>)
  datatype Capability = Capability(modules: set<string>, tools: seq<Tool>)
  type Registry = seq<Capability>

  datatype DenialReason = ModuleDisabled | CommandDisabled | EmployeeRequired | PermissionMissing | RoleMissing
                        | PurposeNotAllowed
  datatype Denial = Denial(capability: nat, tool: Option<string>, reason: DenialReason)

  /** Why a tool of an enabled capability is withheld in read-only mode, if it is. */
  function Withheld(tool: Tool, context: Context): Option<DenialReason> {
    if tool.operation.Command? then Some(CommandDisabled)
    else if tool.needsEmployee && context.employee.None? then Some(EmployeeRequired)
    else if !(tool.permissions <= context.permissions) then Some(PermissionMissing)
    else if tool.roles != {} && tool.roles !! context.roles then Some(RoleMissing)
    else if context.purpose !in tool.purposes then Some(PurposeNotAllowed)
    else None
  }

  /** What the request must bring for a tool of an enabled capability. */
  ghost predicate Usable(tool: Tool, context: Context) {
    && tool.operation.Read? && (tool.needsEmployee ==> context.employee.Some?)
    && tool.permissions <= context.permissions
    && (tool.roles == {} || exists r :: r in tool.roles && r in context.roles)
    && context.purpose in tool.purposes
  }

  /** The tool may be used by this request. */
  ghost predicate Granted(registry: Registry, context: Context, tool: Tool) {
    (exists c | c in registry :: c.modules <= context.modules && tool in c.tools) && Usable(tool, context)
  }

  /** The tool's own demands that the request does not meet, in the order they are reported. */
  ghost predicate Lacks(tool: Tool, context: Context, reason: DenialReason) {
    match reason
    case ModuleDisabled => false
    case CommandDisabled => tool.operation.Command?
    case EmployeeRequired => tool.needsEmployee && context.employee.None?
    case PermissionMissing => exists p :: p in tool.permissions && p !in context.permissions
    case RoleMissing => tool.roles != {} && forall r | r in tool.roles :: r !in context.roles
    case PurposeNotAllowed => context.purpose !in tool.purposes
  }

  /** Commands first, then the employee, permissions, roles and the purpose. */
  function Rank(reason: DenialReason): nat {
    match reason
    case ModuleDisabled => 0
    case CommandDisabled => 1
    case EmployeeRequired => 2
    case PermissionMissing => 3
    case RoleMissing => 4
    case PurposeNotAllowed => 5
  }

  /** A tool is withheld exactly for the first demand that is not met, and used when all are. */
  lemma WithheldIff(tool: Tool, context: Context, reason: DenialReason)
    ensures Withheld(tool, context) == Some(reason) <==>
      Lacks(tool, context, reason) && forall other: DenialReason | Rank(other) < Rank(reason) :: !Lacks(tool, context, other)
    ensures Withheld(tool, context).None? <==> Usable(tool, context)
  {
    assert tool.roles !! context.roles <==> forall r | r in tool.roles :: r !in context.roles;
    assert tool.permissions <= context.permissions <==> !Lacks(tool, context, PermissionMissing);
    assert Lacks(tool, context, CommandDisabled) <==> tool.operation.Command?;
    assert Lacks(tool, context, EmployeeRequired) <==> tool.needsEmployee && context.employee.None?;
    assert Lacks(tool, context, RoleMissing) <==> tool.roles != {} && tool.roles !! context.roles;
  }

  /** The usable tools of enabled capabilities, in registry order. */
  ghost function UsableOf(tools: seq<Tool>, context: Context): seq<Tool> {
    if tools == [] then []
    else
      var last := tools[|tools| - 1];
      UsableOf(tools[..|tools| - 1], context) + if Usable(last, context) then [last] else []
  }

  ghost function GrantedTools(registry: Registry, context: Context): seq<Tool> {
    if registry == [] then []
    else
      var last := registry[|registry| - 1];
      GrantedTools(registry[..|registry| - 1], context)
      + if last.modules <= context.modules then UsableOf(last.tools, context) else []
  }

  lemma {:induction false} UsableOfMembers(tools: seq<Tool>, context: Context, t: Tool)
    ensures t in UsableOf(tools, context) <==> t in tools && Usable(t, context)
  {
    hide Usable;
    if tools != [] {
      UsableOfMembers(tools[..|tools| - 1], context, t);
      assert tools == tools[..|tools| - 1] + [tools[|tools| - 1]];
    }
  }

  lemma {:induction false} GrantedToolsMembers(registry: Registry, context: Context, t: Tool)
    ensures t in GrantedTools(registry, context) <==> Granted(registry, context, t)
  {
    hide Usable;
    if registry != [] {
      var before, last := registry[..|registry| - 1], registry[|registry| - 1];
      assert registry == before + [last];
      GrantedToolsMembers(before, context, t);
      UsableOfMembers(last.tools, context, t);
      assert (exists c | c in registry :: c.modules <= context.modules && t in c.tools) <==>
        (exists c | c in before :: c.modules <= context.modules && t in c.tools)
        || (last.modules <= context.modules && t in last.tools);
    }
  }

  /** A denial that the first `n` capabilities justify: a module is disabled, or a tool of an
      enabled capability is withheld for that reason. */
  predicate Justified(d: Denial, registry: Registry, context: Context, n: nat)
    requires n <= |registry|
  {
    && d.capability < n
    && if d.tool.None? then d.reason == ModuleDisabled && !(registry[d.capability].modules <= context.modules)
       else
         && registry[d.capability].modules <= context.modules
         && exists j | 0 <= j < |registry[d.capability].tools| ::
              registry[d.capability].tools[j].name == d.tool.value
              && Withheld(registry[d.capability].tools[j], context) == Some(d.reason)
  }

  /** The denial that is due for the `j`-th tool of an enabled capability. */
  predicate ToolDenied(denials: seq<Denial>, i: nat, c: Capability, j: nat, context: Context)
    requires j < |c.tools|
  {
    Withheld(c.tools[j], context).Some? ==>
      Denial(i, Some(c.tools[j].name), Withheld(c.tools[j], context).value) in denials
  }

  /** Every denial that is due for a capability has been recorded. */
  predicate AllDenied(denials: seq<Denial>, i: nat, c: Capability, context: Context) {
    if !(c.modules <= context.modules) then Denial(i, None, ModuleDisabled) in denials
    else forall j | 0 <= j < |c.tools| :: ToolDenied(denials, i, c, j, context)
  }

  lemma MoreDenials(denials: seq<Denial>, d: Denial, i: nat, c: Capability, context: Context)
    ensures AllDenied(denials, i, c, context) ==> AllDenied(denials + [d], i, c, context)
    ensures forall j | 0 <= j < |c.tools| ::
      ToolDenied(denials, i, c, j, context) ==> ToolDenied(denials + [d], i, c, j, context)
  {
    forall j | 0 <= j < |c.tools| && ToolDenied(denials, i, c, j, context)
      ensures ToolDenied(denials + [d], i, c, j, context)
    {
    }
  }

  /** The usable tools of an enabled capability join, and the others are denied. */
  method EvaluateTools(i: nat, registry: Registry, context: Context, before: seq<Tool>, earlier: seq<Denial>)
    returns (tools: seq<Tool>, denials: seq<Denial>)
    requires i < |registry| && registry[i].modules <= context.modules
    requires forall d | d in earlier :: Justified(d, registry, context, i)
    requires forall k | 0 <= k < i :: AllDenied(earlier, k, registry[k], context)
    ensures tools == before + UsableOf(registry[i].tools, context)
    ensures forall d | d in denials :: Justified(d, registry, context, i + 1)
    ensures forall k | 0 <= k < i + 1 :: AllDenied(denials, k, registry[k], context)
  {
    hide Withheld, Usable, AllDenied, ToolDenied;
    var c := registry[i];
    tools, denials := before, earlier;
    for j := 0 to |c.tools|
      invariant tools == before + UsableOf(c.tools[..j], context)
      invariant forall d | d in denials :: Justified(d, registry, context, i + 1)
      invariant forall k | 0 <= k < i :: AllDenied(denials, k, registry[k], context)
      invariant forall k | 0 <= k < j :: ToolDenied(denials, i, c, k, context)
    {
      var reason := Withheld(c.tools[j], context);
      WithheldIff(c.tools[j], context, ModuleDisabled);
      assert c.tools[..j + 1][..j] == c.tools[..j];
      if reason.None? {
        tools := tools + [c.tools[j]];
        NoDenial(denials, i, c, j, context);
      } else {
        denials := Deny(denials, i, registry, j, context);
      }
    }
    assert c.tools[..|c.tools|] == c.tools;
    CapabilityDenied(denials, i, c, context);
  }

  /** Record that a tool is withheld. */
  method Deny(earlier: seq<Denial>, i: nat, registry: Registry, j: nat, context: Context) returns (denials: seq<Denial>)
    requires i < |registry| && registry[i].modules <= context.modules
    requires j < |registry[i].tools| && Withheld(registry[i].tools[j], context).Some?
    requires forall d | d in earlier :: Justified(d, registry, context, i + 1)
    requires forall k | 0 <= k < i :: AllDenied(earlier, k, registry[k], context)
    requires forall k | 0 <= k < j :: ToolDenied(earlier, i, registry[i], k, context)
    ensures forall d | d in denials :: Justified(d, registry, context, i + 1)
    ensures forall k | 0 <= k < i :: AllDenied(denials, k, registry[k], context)
    ensures forall k | 0 <= k < j + 1 :: ToolDenied(denials, i, registry[i], k, context)
  {
    hide Withheld, AllDenied;
    var c := registry[i];
    var denial := Denial(i, Some(c.tools[j].name), Withheld(c.tools[j], context).value);
    denials := earlier + [denial];
    forall k | 0 <= k < i
      ensures AllDenied(denials, k, registry[k], context)
    {
      MoreDenials(earlier, denial, k, registry[k], context);
    }
    MoreDenials(earlier, denial, i, c, context);
  }

  lemma NoDenial(denials: seq<Denial>, i: nat, c: Capability, j: nat, context: Context)
    requires j < |c.tools| && Withheld(c.tools[j], context).None?
    ensures ToolDenied(denials, i, c, j, context)
  {
  }

  lemma CapabilityDenied(denials: seq<Denial>, i: nat, c: Capability, context: Context)
    requires c.modules <= context.modules
    requires forall k | 0 <= k < |c.tools| :: ToolDenied(denials, i, c, k, context)
    ensures AllDenied(denials, i, c, context)
  {
    hide ToolDenied;
  }

  /** The granted tools in registry order, and exactly the denials that are due. */
  method EvaluateAccess(registry: Registry, context: Context) returns (tools: seq<Tool>, denials: seq<Denial>)
    ensures tools == GrantedTools(registry, context) && forall t :: t in tools <==> Granted(registry, context, t)
    ensures forall d | d in denials :: Justified(d, registry, context, |registry|)
    ensures forall i | 0 <= i < |registry| :: AllDenied(denials, i, registry[i], context)
  {
    hide Granted, UsableOf, ToolDenied, Withheld;
    tools, denials := [], [];
    for i := 0 to |registry|
      invariant tools == GrantedTools(registry[..i], context)
      invariant forall d | d in denials :: Justified(d, registry, context, i)
      invariant forall k | 0 <= k < i :: AllDenied(denials, k, registry[k], context)
    {
      assert registry[..i + 1][..i] == registry[..i];
      if registry[i].modules <= context.modules {
        tools, denials := EvaluateTools(i, registry, context, tools, denials);
      } else {
        var denial := Denial(i, None, ModuleDisabled);
        forall k | 0 <= k < i
          ensures AllDenied(denials + [denial], k, registry[k], context)
        {
          MoreDenials(denials, denial, k, registry[k], context);
        }
        denials := denials + [denial];
      }
    }
    assert registry[..|registry|] == registry;
    forall t
      ensures t in tools <==> Granted(registry, context, t)
    {
      GrantedToolsMembers(registry, context, t);
    }
  }

  // --- arguments -----------------------------------------------------------------------------

  /** A JSON value, as far as the gateway looks into it. */
  datatype Arg = Leaf(text: string) | List(items: seq<Arg>) | Dict(members: seq<Member>)
  datatype Member = Member(name: string, value: Arg)

  const RESERVED: set<string> := {"context_version", "customer_environment_id", "user_id", "employee_id", "roles",
    "permission_codes", "legal_entity_ids", "enabled_modules", "locale", "timezone", "purpose", "issued_at",
    "authorization_snapshot_id", "read_only_mode"}

  predicate ContainsReserved(v: Arg) {
    match v
    case Leaf(_) => false
    case List(items) => exists i | 0 <= i < |items| :: ContainsReserved(items[i])
    case Dict(members) => exists i | 0 <= i < |members| ::
      members[i].name in RESERVED || ContainsReserved(members[i].value)
  }

  /** Every member name that occurs anywhere inside a value. */
  function Names(v: Arg): set<string> {
    match v
    case Leaf(_) => {}
    case List(items) => NamesOfItems(items)
    case Dict(members) => NamesOfMembers(members)
  }

  function NamesOfItems(items: seq<Arg>): set<string> {
    if items == [] then {} else Names(items[0]) + NamesOfItems(items[1..])
  }

  function NamesOfMembers(members: seq<Member>): set<string> {
    if members == [] then {} else {members[0].name} + Names(members[0].value) + NamesOfMembers(members[1..])
  }

  /** No nesting hides a reserved name. */
  lemma {:induction false} ReservedIff(v: Arg)
    ensures ContainsReserved(v) <==> exists name :: name in Names(v) && name in RESERVED
    decreases v
  {
    match v
    case Leaf(_) =>
    case List(items) =>
      forall i | 0 <= i < |items|
        ensures ContainsReserved(items[i]) <==> exists name :: name in Names(items[i]) && name in RESERVED
      {
        ReservedIff(items[i]);
      }
      ItemsNames(items);
    case Dict(members) =>
      forall i | 0 <= i < |members|
        ensures ContainsReserved(members[i].value) <==> exists name :: name in Names(members[i].value) && name in RESERVED
      {
        ReservedIff(members[i].value);
      }
      MembersNames(members);
  }

  lemma {:induction false} ItemsNames(items: seq<Arg>)
    ensures forall name :: name in NamesOfItems(items) <==> exists i | 0 <= i < |items| :: name in Names(items[i])
  {
    if items != [] {
      ItemsNames(items[1..]);
      forall name | exists i | 0 <= i < |items| :: name in Names(items[i])
        ensures name in NamesOfItems(items)
      {
        var i :| 0 <= i < |items| && name in Names(items[i]);
        if i > 0 {
          assert name in Names(items[1..][i - 1]);
        }
      }
    }
  }

  lemma {:induction false} MembersNames(members: seq<Member>)
    ensures forall name :: name in NamesOfMembers(members) <==>
      exists i | 0 <= i < |members| :: name == members[i].name || name in Names(members[i].value)
  {
    if members != [] {
      MembersNames(members[1..]);
      forall name | exists i | 0 <= i < |members| :: name == members[i].name || name in Names(members[i].value)
        ensures name in NamesOfMembers(members)
      {
        var i :| 0 <= i < |members| && (name == members[i].name || name in Names(members[i].value));
        if i > 0 {
          assert members[1..][i - 1] == members[i];
        }
      }
    }
  }

  // --- the gateway ---------------------------------------------------------------------------

  datatype Invocation = Invocation(tool: string, version: string, arguments: Arg)
  datatype Excerpt = Excerpt(citationId: string, metadata: string, content: string)
  datatype Output = KnowledgeOutput(excerpts: seq<Excerpt>) | OtherOutput(text: string)
  datatype ToolError = ReadOnlyViolation | ToolUnavailable | InvalidArguments | ExecutionFailed | InvalidOutput
                     | AuditUnavailable
  datatype ToolResult =
    | ToolSuccess(tool: string, version: string, output: Output)
    | ToolFailure(tool: string, version: string, error: ToolError)

  /** How one call ends: with a value, with an exception nobody caught, or cancelled. */
  datatype Outcome<T> = Done(value: T) | Raised | Cancelled

  datatype Sink = Recorded | SinkFails | SinkCancelled
  datatype Check = Accepted | Refused | Crashed
  datatype Reply = Replied(raw: string) | HandlerFails | HandlerCancelled
  datatype Verified = VerifiedOutput(output: Output) | Unverified | VerifierCrashed

  /** Everything around the gateway that it does not decide itself. */
  datatype Surroundings = Surroundings(input: Invocation -> Check, handler: Invocation -> Reply,
                                       output: (string, string) -> Verified, audit: Sink)

  datatype Gateway = Gateway(registry: Registry, descriptors: map<string, Tool>, handlers: set<string>)

  /** What the outside can observe. */
  datatype Event =
    | HandlerCalled(call: Invocation)
    | ToolAudited(success: bool, recorded: bool)

  /** The conditions under which a handler may run. */
  ghost predicate Permitted(g: Gateway, context: Context, call: Invocation) {
    && call.tool in g.descriptors && g.descriptors[call.tool].operation.Read? && call.tool in g.handlers
    && call.version == g.descriptors[call.tool].version
    && (exists t :: Granted(g.registry, context, t) && t.name == call.tool)
    && !(exists name :: name in Names(call.arguments) && name in RESERVED)
  }

  /** What an invocation amounts to before it is audited. */
  datatype Course = Yields(output: Output) | FailsWith(error: ToolError) | Raises | IsCancelled

  /** Commands first, then whether the tool may be used, then the arguments, the handler and its
      output. */
  ghost predicate Runs(g: Gateway, context: Context, call: Invocation, around: Surroundings, course: Course) {
    if call.tool in g.descriptors && g.descriptors[call.tool].operation.Command? then course == FailsWith(ReadOnlyViolation)
    else if !Available(g, context, call) then course == FailsWith(ToolUnavailable)
    else if (exists name :: name in Names(call.arguments) && name in RESERVED) || around.input(call).Refused?
    then course == FailsWith(InvalidArguments)
    else if around.input(call).Crashed? then course == Raises
    else RunsHandler(call, around, course)
  }

  ghost predicate RunsHandler(call: Invocation, around: Surroundings, course: Course) {
    match around.handler(call)
    case HandlerFails => course == FailsWith(ExecutionFailed)
    case HandlerCancelled => course == IsCancelled
    case Replied(raw) =>
      match around.output(call.tool, raw)
      case VerifiedOutput(output) => course == Yields(output)
      case Unverified => course == FailsWith(InvalidOutput)
      case VerifierCrashed => course == Raises
  }

  ghost predicate Available(g: Gateway, context: Context, call: Invocation) {
    && call.tool in g.descriptors && call.tool in g.handlers && call.version == g.descriptors[call.tool].version
    && exists t :: Granted(g.registry, context, t) && t.name == call.tool
  }

  /** How a course ends once its audit has been offered to the sink. */
  predicate EndsAs(call: Invocation, course: Course, sink: Sink, outcome: Outcome<ToolResult>) {
    match course
    case Raises => outcome == Raised
    case IsCancelled => outcome == Cancelled
    case Yields(output) => Audited(ToolSuccess(call.tool, call.version, output), sink, outcome)
    case FailsWith(error) => Audited(ToolFailure(call.tool, call.version, error), sink, outcome)
  }

  /** A result that could not be recorded is replaced. */
  predicate Audited(result: ToolResult, sink: Sink, outcome: Outcome<ToolResult>) {
    match sink
    case Recorded => outcome == Done(result)
    case SinkFails => outcome == Done(ToolFailure(result.tool, result.version, AuditUnavailable))
    case SinkCancelled => outcome == Cancelled
  }

  /** At most one call of the handler and then at most one audit. */
  predicate Orderly(trace: seq<Event>, call: Invocation) {
    && |trace| <= 2
    && (forall i | 0 <= i < |trace| && trace[i].HandlerCalled? :: i == 0 && trace[i].call == call)
    && (|trace| == 2 ==> trace[0].HandlerCalled?)
  }

  method Record(result: ToolResult, success: bool, sink: Sink) returns (outcome: Outcome<ToolResult>, event: Event)
    ensures event == ToolAudited(success, sink.Recorded?)
    ensures sink.Recorded? ==> outcome == Done(result)
    ensures sink.SinkFails? ==> outcome == Done(ToolFailure(result.tool, result.version, AuditUnavailable))
    ensures sink.SinkCancelled? ==> outcome == Cancelled
  {
    event := ToolAudited(success, sink.Recorded?);
    outcome := match sink
      case Recorded => Done(result)
      case SinkFails => Done(ToolFailure(result.tool, result.version, AuditUnavailable))
      case SinkCancelled => Cancelled;
  }

  method Fail(call: Invocation, error: ToolError, sink: Sink) returns (outcome: Outcome<ToolResult>, event: Event)
    ensures event == ToolAudited(false, sink.Recorded?) && EndsAs(call, FailsWith(error), sink, outcome)
    ensures outcome.Done? ==>
      && outcome.value.ToolFailure? && outcome.value.tool == call.tool && outcome.value.version == call.version
      && outcome.value.error == if sink.Recorded? then error else AuditUnavailable
    ensures outcome.Done? <==> !sink.SinkCancelled?
  {
    outcome, event := Record(ToolFailure(call.tool, call.version, error), false, sink);
  }

  /** One invocation: whatever happens, a permitted handler runs at most once, and every result
      has been offered to the audit sink exactly once, after it. */
  method Execute(g: Gateway, context: Context, call: Invocation, around: Surroundings)
    returns (outcome: Outcome<ToolResult>, trace: seq<Event>)
    ensures exists course :: Runs(g, context, call, around, course) && EndsAs(call, course, around.audit, outcome)
    ensures outcome.Done? && outcome.value.ToolSuccess? <==>
      && Permitted(g, context, call) && around.input(call).Accepted? && around.handler(call).Replied?
      && around.output(call.tool, around.handler(call).raw).VerifiedOutput? && around.audit.Recorded?
    ensures Orderly(trace, call)
    ensures HandlerCalled(call) in trace <==> Permitted(g, context, call) && around.input(call).Accepted?
    ensures outcome.Done? ==>
      && trace != [] && trace[|trace| - 1].ToolAudited?
      && outcome.value.tool == call.tool && outcome.value.version == call.version
    ensures outcome.Done? && outcome.value.ToolSuccess? ==>
      && trace == [HandlerCalled(call), ToolAudited(true, true)]
      && around.handler(call).Replied?
      && around.output(call.tool, around.handler(call).raw) == VerifiedOutput(outcome.value.output)
    ensures outcome.Done? && outcome.value.ToolFailure? ==>
      (outcome.value.error == AuditUnavailable <==> trace[|trace| - 1] in {ToolAudited(true, false), ToolAudited(false, false)})
  {
    hide Granted, ContainsReserved, Names;
    var event: Event;
    trace := [];
    if call.tool in g.descriptors && g.descriptors[call.tool].operation.Command? {
      outcome, event := Fail(call, ReadOnlyViolation, around.audit);
      assert Runs(g, context, call, around, FailsWith(ReadOnlyViolation));
      return outcome, [event];
    }
    var tools, _ := EvaluateAccess(g.registry, context);
    if call.tool !in g.descriptors || call.tool !in g.handlers || call.version != g.descriptors[call.tool].version
       || !(exists t | t in tools :: t.name == call.tool) {
      outcome, event := Fail(call, ToolUnavailable, around.audit);
      assert Runs(g, context, call, around, FailsWith(ToolUnavailable));
      return outcome, [event];
    }
    ReservedIff(call.arguments);
    if ContainsReserved(call.arguments) {
      outcome, event := Fail(call, InvalidArguments, around.audit);
      assert Runs(g, context, call, around, FailsWith(InvalidArguments));
      return outcome, [event];
    }
    assert Permitted(g, context, call) && Available(g, context, call);
    hide Permitted, Available;
    match around.input(call) {
      case Accepted =>
      case Refused =>
        outcome, event := Fail(call, InvalidArguments, around.audit);
        assert Runs(g, context, call, around, FailsWith(InvalidArguments));
        return outcome, [event];
      case Crashed =>
        assert Runs(g, context, call, around, Raises);
        return Raised, [];
    }
    ghost var course: Course;
    outcome, trace, course := Call(call, around);
    assert Runs(g, context, call, around, course);
  }

  /** Run the handler, verify its output and audit. */
  method Call(call: Invocation, around: Surroundings) returns (outcome: Outcome<ToolResult>, trace: seq<Event>, ghost course: Course)
    ensures RunsHandler(call, around, course) && EndsAs(call, course, around.audit, outcome)
    ensures outcome.Done? && outcome.value.ToolSuccess? <==>
      && around.handler(call).Replied? && around.output(call.tool, around.handler(call).raw).VerifiedOutput?
      && around.audit.Recorded?
    ensures Orderly(trace, call) && HandlerCalled(call) in trace
    ensures outcome.Done? ==> |trace| == 2 && outcome.value.tool == call.tool && outcome.value.version == call.version
    ensures outcome.Done? && outcome.value.ToolSuccess? ==>
      && trace == [HandlerCalled(call), ToolAudited(true, true)]
      && around.handler(call).Replied?
      && around.output(call.tool, around.handler(call).raw) == VerifiedOutput(outcome.value.output)
    ensures outcome.Done? && outcome.value.ToolFailure? ==>
      (outcome.value.error == AuditUnavailable <==> trace[1] in {ToolAudited(true, false), ToolAudited(false, false)})
  {
    var event: Event;
    trace := [HandlerCalled(call)];
    var raw: string;
    course := Raises;
    match around.handler(call) {
      case Replied(text) => raw := text;
      case HandlerFails =>
        outcome, event := Fail(call, ExecutionFailed, around.audit);
        return outcome, [HandlerCalled(call), event], FailsWith(ExecutionFailed);
      case HandlerCancelled =>
        return Cancelled, [HandlerCalled(call)], IsCancelled;
    }
    match around.output(call.tool, raw) {
      case VerifiedOutput(output) =>
        outcome, event := Record(ToolSuccess(call.tool, call.version, output), true, around.audit);
        course := Yields(output);
        trace := [HandlerCalled(call), event];
      case Unverified =>
        outcome, event := Fail(call, InvalidOutput, around.audit);
        course := FailsWith(InvalidOutput);
        trace := [HandlerCalled(call), event];
      case VerifierCrashed =>
        outcome := Raised;
    }
  }
}
