/** The bounded run between a language model and the tool gateway: one turn without tools, or one
    required tool call and one final answer. The model, the gateway's surroundings and the audit
    sink may answer anything. */
module Orchestration {
  import opened Wrappers
  import opened Ordering
  import opened ToolGateway
  import T = Text

  const KNOWLEDGE_TOOL := "search_hr_knowledge"

  datatype Route = GeneralOnly | ExactRead(tool: string, version: string) | Inconsistent
  datatype Basis = General | Knowledge | ErpData | Mixed | NotABasis
  datatype Citation = Citation(id: string, metadata: string)

  datatype ToolCall = ToolCall(callId: string, tool: string, version: string, argumentsJson: string, arguments: Arg)
  datatype FinalAnswer = FinalAnswer(text: string, basis: Basis, evidence: seq<string>, citations: seq<string>)
  datatype ModelReply = Answers(answer: FinalAnswer) | Calls(call: ToolCall) | Junk | ModelFails | ModelCancelled

  datatype Interaction = Interaction(call: ToolCall, resultCallId: string, resultTool: string, result: ToolResult)
  datatype Selection = NoTools | RequiredTool(tool: string, version: string) | FinalOnly
  datatype Turn = Turn(tools: seq<(string, string)>, selection: Selection, interactions: seq<Interaction>, number: nat)

  datatype AgentError = AgentUnavailable | LimitReached | CatalogLimit | InvalidModelResponse | AgentAuditUnavailable
  datatype Reason = Completed | InvalidRoute | MessageTooLong | CatalogTooLarge | RouteNotAuthorized | RouteResourceLimit
                  | ToolCallLimit | DuplicateCallId | ArgumentLimit | InvalidTranscript | ResultSizeLimit
                  | ProviderFailed | RequiredCallMissing | AnswerTooLong | CitationsInvalid | InvalidReply
                  | CallNotAllowed | InvalidCall | RoutedToolMismatch | ToolAuditMissing | RoutedToolFailed
                  | CitationConflict | RouteNotCompleted
  datatype PublicResult = Success(answer: string, citations: seq<Citation>) | Failure(error: AgentError)

  datatype Limits = Limits(modelTurns: nat, toolCalls: nat, resultBytes: nat, messageCharacters: nat,
                           answerCharacters: nat, argumentBytes: nat, argumentDepth: nat, argumentNodes: nat,
                           modelTools: nat, catalogBytes: nat)

  /** The outside of one run. `parse` reads argument JSON, `resultSize` is the size of the JSON
      form of a result or nothing when it cannot be written, `revalidates` says whether a result
      passes its own validation again. */
  datatype World = World(model: Turn -> ModelReply, around: Surroundings, audit: Sink,
                         parse: string -> Option<Arg>, resultSize: ToolResult -> Option<nat>,
                         revalidates: ToolResult -> bool, catalogSize: seq<(string, string)> -> nat)

  datatype Happening =
    | Asked(turn: Turn)
    | Gate(event: Event)
    | AgentAudited(success: bool, reason: Reason, recorded: bool)

  datatype Evidence = Evidence(callId: string, isKnowledge: bool, citations: seq<string>)

  // --- budgets -------------------------------------------------------------------------------

  function Max(a: nat, b: nat): nat {
    if a < b then b else a
  }

  /** The depth of the deepest value, the outermost value being at `depth`. */
  function Depth(v: Arg, depth: nat): nat {
    match v
    case Leaf(_) => depth
    case List(items) => ItemsDepth(items, depth)
    case Dict(members) => MembersDepth(members, depth)
  }

  function ItemsDepth(items: seq<Arg>, depth: nat): nat {
    if items == [] then depth else Max(Depth(items[0], depth + 1), ItemsDepth(items[1..], depth))
  }

  function MembersDepth(members: seq<Member>, depth: nat): nat {
    if members == [] then depth else Max(Depth(members[0].value, depth + 1), MembersDepth(members[1..], depth))
  }

  function Nodes(v: Arg): nat {
    match v
    case Leaf(_) => 1
    case List(items) => 1 + ItemsNodes(items)
    case Dict(members) => 1 + MembersNodes(members)
  }

  function ItemsNodes(items: seq<Arg>): nat {
    if items == [] then 0 else Nodes(items[0]) + ItemsNodes(items[1..])
  }

  function MembersNodes(members: seq<Member>): nat {
    if members == [] then 0 else Nodes(members[0].value) + MembersNodes(members[1..])
  }

  predicate WithinArgumentLimits(call: ToolCall, limits: Limits) {
    && T.Utf8Size(call.argumentsJson) <= limits.argumentBytes
    && Depth(call.arguments, 1) <= limits.argumentDepth && Nodes(call.arguments) <= limits.argumentNodes
  }

  /** The values directly inside a value. */
  function Children(v: Arg): seq<Arg> {
    match v
    case Leaf(_) => []
    case List(items) => items
    case Dict(members) => seq(|members|, i requires 0 <= i < |members| => members[i].value)
  }

  /** A path of positions leads from a value to one inside it; the empty path to the value itself. */
  ghost predicate LeadsInto(v: Arg, path: seq<nat>)
    decreases |path|
  {
    path == [] || (path[0] < |Children(v)| && LeadsInto(Children(v)[path[0]], path[1..]))
  }

  lemma {:induction false} ItemsDepthIs(items: seq<Arg>, depth: nat, bound: nat)
    ensures ItemsDepth(items, depth) <= bound <==>
      depth <= bound && forall i | 0 <= i < |items| :: Depth(items[i], depth + 1) <= bound
  {
    if items != [] {
      ItemsDepthIs(items[1..], depth, bound);
      DepthAtLeast(items[0], depth + 1);
      assert (forall i | 0 <= i < |items| :: Depth(items[i], depth + 1) <= bound) <==>
        Depth(items[0], depth + 1) <= bound && forall i | 0 <= i < |items[1..]| :: Depth(items[1..][i], depth + 1) <= bound
        by {
        assert forall i | 0 < i < |items| :: items[i] == items[1..][i - 1];
      }
    }
  }

  lemma {:induction false} MembersDepthIs(members: seq<Member>, depth: nat)
    ensures MembersDepth(members, depth) == ItemsDepth(Children(Dict(members)), depth)
  {
    if members != [] {
      MembersDepthIs(members[1..], depth);
      assert Children(Dict(members))[1..] == Children(Dict(members[1..]));
    }
  }

  lemma {:induction false} DepthAtLeast(v: Arg, depth: nat)
    ensures depth <= Depth(v, depth)
    decreases v
  {
    match v
    case Leaf(_) =>
    case List(items) =>
      ItemsAtLeast(items, depth);
    case Dict(members) =>
      MembersDepthIs(members, depth);
      ItemsAtLeast(Children(v), depth);
  }

  lemma {:induction false} ItemsAtLeast(items: seq<Arg>, depth: nat)
    ensures depth <= ItemsDepth(items, depth)
  {
    if items != [] {
      ItemsAtLeast(items[1..], depth);
    }
  }

  lemma DepthOfChildren(v: Arg, depth: nat, bound: nat)
    ensures Depth(v, depth) <= bound <==>
      depth <= bound && forall i | 0 <= i < |Children(v)| :: Depth(Children(v)[i], depth + 1) <= bound
  {
    ItemsDepthIs(Children(v), depth, bound);
    if v.Dict? {
      MembersDepthIs(v.members, depth);
    }
  }

  /** The depth bounds the length of every path: no value lies deeper. */
  lemma {:induction false} DepthIff(v: Arg, depth: nat, bound: nat)
    ensures Depth(v, depth) <= bound <==> forall path | LeadsInto(v, path) :: depth + |path| <= bound
    decreases v
  {
    DepthOfChildren(v, depth, bound);
    var inside := Children(v);
    forall i | 0 <= i < |inside|
      ensures Depth(inside[i], depth + 1) <= bound <==>
        forall path | LeadsInto(inside[i], path) :: depth + 1 + |path| <= bound
    {
      DepthIff(inside[i], depth + 1, bound);
    }
    PathsInside(v, depth, bound);
  }

  lemma PathsInside(v: Arg, depth: nat, bound: nat)
    ensures (forall path | LeadsInto(v, path) :: depth + |path| <= bound) <==>
      && depth <= bound
      && forall i | 0 <= i < |Children(v)| :: forall path | LeadsInto(Children(v)[i], path) :: depth + 1 + |path| <= bound
  {
    hide Children;
    var inside := Children(v);
    if forall path | LeadsInto(v, path) :: depth + |path| <= bound {
      assert LeadsInto(v, []);
      forall i, path | 0 <= i < |inside| && LeadsInto(inside[i], path)
        ensures depth + 1 + |path| <= bound
      {
        var longer: seq<nat> := [i] + path;
        assert longer[1..] == path && LeadsInto(v, longer);
      }
    } else {
      var path: seq<nat> :| LeadsInto(v, path) && depth + |path| > bound;
      if path != [] {
        assert LeadsInto(inside[path[0]], path[1..]);
      }
    }
  }

  /** All paths into a value. */
  ghost function Paths(v: Arg): set<seq<nat>>
    decreases v
  {
    {[]} + PathsFrom(v, |Children(v)|)
  }

  /** The paths through the first `n` children. */
  ghost function PathsFrom(v: Arg, n: nat): set<seq<nat>>
    requires n <= |Children(v)|
    decreases v, n
  {
    if n == 0 then {} else PathsFrom(v, n - 1) + Prefixed(n - 1, Paths(Children(v)[n - 1]))
  }

  ghost function Prefixed(i: nat, paths: set<seq<nat>>): set<seq<nat>> {
    set path | path in paths :: [i] + path
  }

  lemma {:induction false} PrefixedCount(i: nat, paths: set<seq<nat>>)
    ensures |Prefixed(i, paths)| == |paths|
  {
    if paths != {} {
      var path :| path in paths;
      PrefixedCount(i, paths - {path});
      assert Prefixed(i, paths) == Prefixed(i, paths - {path}) + {[i] + path};
      forall other | other in paths - {path}
        ensures [i] + other != [i] + path
      {
        assert ([i] + other)[1..] == other && ([i] + path)[1..] == path;
      }
    }
  }

  lemma {:induction false} PathsMembers(v: Arg)
    ensures forall path :: path in Paths(v) <==> LeadsInto(v, path)
    decreases v
  {
    var inside := Children(v);
    forall i | 0 <= i < |inside|
      ensures forall path :: path in Paths(inside[i]) <==> LeadsInto(inside[i], path)
    {
      PathsMembers(inside[i]);
    }
    PathsFromMembers(v, |inside|);
  }

  lemma {:induction false} PathsFromMembers(v: Arg, n: nat)
    requires n <= |Children(v)|
    requires forall i | 0 <= i < n :: forall path :: path in Paths(Children(v)[i]) <==> LeadsInto(Children(v)[i], path)
    ensures forall path :: path in PathsFrom(v, n) <==> path != [] && path[0] < n && LeadsInto(v, path)
  {
    hide Children, Paths;
    if n > 0 {
      PathsFromMembers(v, n - 1);
      forall path: seq<nat>
        ensures path in Prefixed(n - 1, Paths(Children(v)[n - 1])) <==> path != [] && path[0] == n - 1 && LeadsInto(v, path)
      {
        if path != [] && path[0] == n - 1 {
          assert path == [n - 1] + path[1..];
          if path in Prefixed(n - 1, Paths(Children(v)[n - 1])) {
            var rest :| rest in Paths(Children(v)[n - 1]) && path == [n - 1] + rest;
            assert path[1..] == rest;
          }
        }
      }
    }
  }

  function NodesOf(items: seq<Arg>, n: nat): nat
    requires n <= |items|
  {
    if n == 0 then 0 else NodesOf(items, n - 1) + Nodes(items[n - 1])
  }

  lemma {:induction false} NodesOfTail(items: seq<Arg>, n: nat)
    requires 0 < n <= |items|
    ensures NodesOf(items, n) == Nodes(items[0]) + NodesOf(items[1..], n - 1)
  {
    hide Nodes;
    if n > 1 {
      NodesOfTail(items, n - 1);
    }
  }

  lemma {:induction false} ItemsNodesAre(items: seq<Arg>)
    ensures ItemsNodes(items) == NodesOf(items, |items|)
  {
    hide Nodes;
    if items != [] {
      ItemsNodesAre(items[1..]);
      NodesOfTail(items, |items|);
    }
  }

  lemma {:induction false} MembersNodesAre(members: seq<Member>)
    ensures MembersNodes(members) == ItemsNodes(Children(Dict(members)))
  {
    hide Nodes;
    if members != [] {
      MembersNodesAre(members[1..]);
      assert Children(Dict(members))[1..] == Children(Dict(members[1..]));
    }
  }

  /** The node count is the number of places inside a value, the value itself among them. */
  lemma {:induction false} NodesCount(v: Arg)
    ensures Nodes(v) == |Paths(v)|
    decreases v
  {
    var inside := Children(v);
    forall i | 0 <= i < |inside|
      ensures Nodes(inside[i]) == |Paths(inside[i])|
    {
      NodesCount(inside[i]);
    }
    PathsMembers(v);
    PathsFromCount(v, |inside|);
    PathsSplit(v);
    ItemsNodesAre(inside);
    if v.Dict? {
      MembersNodesAre(v.members);
    }
  }

  lemma PathsSplit(v: Arg)
    ensures |Paths(v)| == 1 + |PathsFrom(v, |Children(v)|)|
  {
    forall i | 0 <= i < |Children(v)|
      ensures forall path :: path in Paths(Children(v)[i]) <==> LeadsInto(Children(v)[i], path)
    {
      PathsMembers(Children(v)[i]);
    }
    PathsFromMembers(v, |Children(v)|);
    hide PathsFrom;
  }

  lemma {:induction false} PathsFromCount(v: Arg, n: nat)
    requires n <= |Children(v)|
    requires forall i | 0 <= i < n :: Nodes(Children(v)[i]) == |Paths(Children(v)[i])|
    ensures |PathsFrom(v, n)| == NodesOf(Children(v), n)
  {
    hide Children, Paths, Nodes;
    if n > 0 {
      hide PathsFrom;
      PathsFromCount(v, n - 1);
      PathsStep(v, n);
    }
  }

  lemma PathsStep(v: Arg, n: nat)
    requires 0 < n <= |Children(v)|
    ensures |PathsFrom(v, n)| == |PathsFrom(v, n - 1)| + |Paths(Children(v)[n - 1])|
  {
    hide Paths, Children, Prefixed;
    var last := Paths(Children(v)[n - 1]);
    assert PathsFrom(v, n) == PathsFrom(v, n - 1) + Prefixed(n - 1, last);
    hide *;
    PrefixedCount(n - 1, last);
    StartsBefore(v, n - 1);
    Apart(PathsFrom(v, n - 1), n - 1, last);
  }

  lemma Apart(earlier: set<seq<nat>>, n: nat, last: set<seq<nat>>)
    requires forall path | path in earlier :: path != [] && path[0] < n
    ensures |earlier + Prefixed(n, last)| == |earlier| + |Prefixed(n, last)|
  {
    assert earlier !! Prefixed(n, last);
  }

  lemma {:induction false} StartsBefore(v: Arg, n: nat)
    requires n <= |Children(v)|
    ensures forall path | path in PathsFrom(v, n) :: path != [] && path[0] < n
  {
    if n > 0 {
      StartsBefore(v, n - 1);
    }
  }

  /** What the budgets of a call's arguments bound: the bytes of their text, the length of every
      path into them, and the number of paths. */
  lemma ArgumentLimitsIff(call: ToolCall, limits: Limits)
    ensures WithinArgumentLimits(call, limits) <==>
      && T.Utf8Size(call.argumentsJson) <= limits.argumentBytes
      && (forall path | LeadsInto(call.arguments, path) :: 1 + |path| <= limits.argumentDepth)
      && |Paths(call.arguments)| <= limits.argumentNodes
    ensures forall path :: path in Paths(call.arguments) <==> LeadsInto(call.arguments, path)
  {
    hide Depth, Nodes, Paths, LeadsInto;
    DepthIff(call.arguments, 1, limits.argumentDepth);
    NodesCount(call.arguments);
    PathsMembers(call.arguments);
  }

  // --- the validators of the models ----------------------------------------------------------

  /** `ModelToolInteraction.pair_call_and_result`. */
  predicate PairValid(w: World, i: Interaction) {
    && w.parse(i.call.argumentsJson).Some? && w.revalidates(i.result)
    && i.call.callId == i.resultCallId && i.call.tool == i.resultTool
    && i.call.tool == i.result.tool && i.call.version == i.result.version
  }

  /** `ModelTurnRequest.validate_interactions`. */
  ghost predicate TurnValid(w: World, t: Turn) {
    && (forall i, j | 0 <= i < j < |t.interactions| ::
          t.interactions[i].call.callId != t.interactions[j].call.callId)
    && (forall i | 0 <= i < |t.interactions| :: PairValid(w, t.interactions[i]))
    && match t.selection
       case NoTools => t.tools == [] && t.interactions == []
       case RequiredTool(tool, version) => t.tools == [(tool, version)] && t.interactions == []
       case FinalOnly => t.tools == [] && |t.interactions| == 1 && t.interactions[0].result.ToolSuccess?
  }

  ghost predicate CitationsUnique(citations: seq<Citation>) {
    forall i, j | 0 <= i < j < |citations| :: citations[i].id != citations[j].id
  }

  // --- citations -----------------------------------------------------------------------------

  function CitationOf(e: Excerpt): Citation {
    Citation(e.citationId, e.metadata)
  }

  /** The excerpts that a result offers for citing. */
  function ExcerptsOf(result: ToolResult): seq<Excerpt> {
    if result.ToolSuccess? && result.tool == KNOWLEDGE_TOOL && result.output.KnowledgeOutput?
    then result.output.excerpts else []
  }

  function CitationIds(excerpts: seq<Excerpt>): (r: seq<string>)
    ensures |r| == |excerpts| && forall i | 0 <= i < |r| :: r[i] == excerpts[i].citationId
  {
    seq(|excerpts|, i requires 0 <= i < |excerpts| => excerpts[i].citationId)
  }

  ghost predicate NoConflict(excerpts: seq<Excerpt>) {
    forall i, j | 0 <= i < |excerpts| && 0 <= j < |excerpts| ::
      excerpts[i].citationId == excerpts[j].citationId ==> excerpts[i].metadata == excerpts[j].metadata
  }

  /** Remember the citations of one result: nothing when two excerpts disagree. */
  method ObserveCitations(result: ToolResult) returns (ids: Option<seq<string>>, observed: map<string, Citation>)
    ensures ids.Some? <==> NoConflict(ExcerptsOf(result))
    ensures ids.Some? ==>
      && ids.value == CitationIds(ExcerptsOf(result))
      && (forall id :: id in observed <==> id in ids.value)
      && (forall id | id in observed :: exists e | e in ExcerptsOf(result) :: observed[id] == CitationOf(e) && e.citationId == id)
  {
    var excerpts := ExcerptsOf(result);
    var listed: seq<string> := [];
    observed := map[];
    for i := 0 to |excerpts|
      invariant |listed| == i && forall j | 0 <= j < i :: listed[j] == excerpts[j].citationId
      invariant forall id :: id in observed <==> id in listed
      invariant forall j | 0 <= j < i :: observed[excerpts[j].citationId] == CitationOf(excerpts[j])
      invariant forall j, k | 0 <= j < i && 0 <= k < i ::
        excerpts[j].citationId == excerpts[k].citationId ==> excerpts[j].metadata == excerpts[k].metadata
    {
      var citation := CitationOf(excerpts[i]);
      if citation.id in observed && observed[citation.id] != citation {
        assert citation.id in listed;
        return None, observed;
      }
      observed := observed[citation.id := citation];
      listed := listed + [citation.id];
    }
    forall id | id in observed
      ensures exists e | e in excerpts :: observed[id] == CitationOf(e) && e.citationId == id
    {
      assert id in listed;
      var j :| 0 <= j < |listed| && listed[j] == id;
      assert excerpts[j] in excerpts;
    }
    assert listed == CitationIds(excerpts);
    ids := Some(listed);
  }

  /** The identifiers occur once each. */
  ghost predicate Unrepeated(ids: seq<string>) {
    forall i, j | 0 <= i < j < |ids| :: ids[i] != ids[j]
  }

  function Values(ids: seq<string>): set<string> {
    set i | 0 <= i < |ids| :: ids[i]
  }

  lemma {:induction false} RepeatShrinks(ids: seq<string>)
    ensures |Values(ids)| <= |ids| && (|Values(ids)| == |ids| <==> Unrepeated(ids))
  {
    if ids != [] {
      var n := |ids| - 1;
      RepeatShrinks(ids[..n]);
      ValuesLast(ids[..n], ids[n]);
      UnrepeatedLast(ids[..n], ids[n]);
      assert ids == ids[..n] + [ids[n]];
      hide Values, Unrepeated;
    }
  }

  lemma ValuesLast(ids: seq<string>, last: string)
    ensures Values(ids + [last]) == Values(ids) + {last}
    ensures last in Values(ids) <==> last in ids
  {
    var longer := ids + [last];
    assert forall i | 0 <= i < |ids| :: longer[i] == ids[i];
    assert longer[|ids|] == last;
  }

  lemma UnrepeatedLast(ids: seq<string>, last: string)
    ensures Unrepeated(ids + [last]) <==> Unrepeated(ids) && last !in ids
  {
    var longer := ids + [last];
    assert forall i | 0 <= i < |ids| :: longer[i] == ids[i];
    assert longer[|ids|] == last;
  }

  /** An answer that rests on the calls it names: on nothing when it is general, on knowledge
      searches and their citations, or on ERP reads without citations. */
  ghost predicate Grounded(a: FinalAnswer, calls: map<string, Evidence>) {
    && a.basis in {General, Knowledge, ErpData} && Unrepeated(a.evidence) && Unrepeated(a.citations)
    && |a.evidence| <= 4 && |a.citations| <= 20
    && (forall i | 0 <= i < |a.evidence| :: a.evidence[i] in calls)
    && (a.basis == General ==> a.evidence == [] && a.citations == [] && calls == map[])
    && (a.basis == Knowledge ==>
          && a.evidence != [] && a.citations != []
          && (forall i | 0 <= i < |a.evidence| :: calls[a.evidence[i]].isKnowledge)
          && (forall i | 0 <= i < |a.citations| :: Offers(a, calls, a.citations[i])))
    && (a.basis == ErpData ==>
          a.evidence != [] && a.citations == []
          && forall i | 0 <= i < |a.evidence| :: !calls[a.evidence[i]].isKnowledge)
  }

  /** One of the named knowledge calls returned this citation. */
  predicate Offers(a: FinalAnswer, calls: map<string, Evidence>, citation: string) {
    exists j | 0 <= j < |a.evidence| :: a.evidence[j] in calls && calls[a.evidence[j]].isKnowledge
      && citation in calls[a.evidence[j]].citations
  }

  /** The general grounding check, over the calls that succeeded so far. */
  method ValidateGrounding(a: FinalAnswer, calls: map<string, Evidence>, observed: map<string, Citation>)
    returns (citations: Option<seq<Citation>>)
    requires forall id | id in calls :: forall c | c in calls[id].citations :: c in observed
    ensures citations.Some? <==> Grounded(a, calls)
    ensures citations.Some? ==>
      |citations.value| == |a.citations|
      && forall i | 0 <= i < |a.citations| :: a.citations[i] in observed && citations.value[i] == observed[a.citations[i]]
  {
    RepeatShrinks(a.evidence);
    RepeatShrinks(a.citations);
    hide Unrepeated, Values;
    if a.basis.NotABasis? || |a.evidence| > 4 || |Values(a.evidence)| != |a.evidence|
       || |a.citations| > 20 || |Values(a.citations)| != |a.citations| {
      return None;
    }
    if exists i | 0 <= i < |a.evidence| :: a.evidence[i] !in calls {
      return None;
    }
    var usesKnowledge := exists i | 0 <= i < |a.evidence| :: calls[a.evidence[i]].isKnowledge;
    var usesErp := exists i | 0 <= i < |a.evidence| :: !calls[a.evidence[i]].isKnowledge;
    if a.evidence != [] {
      assert calls[a.evidence[0]].isKnowledge || !calls[a.evidence[0]].isKnowledge;
    }
    match a.basis {
      case General =>
        if a.evidence != [] || a.citations != [] || |calls| != 0 {
          return None;
        }
      case Knowledge =>
        if !usesKnowledge || usesErp || a.citations == [] {
          return None;
        }
      case ErpData =>
        if !usesErp || usesKnowledge || a.citations != [] {
          return None;
        }
      case _ =>
        return None;
    }
    if exists i | 0 <= i < |a.citations| :: !Offers(a, calls, a.citations[i]) {
      return None;
    }
    assert forall i | 0 <= i < |a.citations| :: Offers(a, calls, a.citations[i]) ==> a.citations[i] in observed;
    citations := Some(seq(|a.citations|, i requires 0 <= i < |a.citations| => observed[a.citations[i]]));
  }

  // --- the transcript ------------------------------------------------------------------------

  /** The size of all results together, unless one of them cannot be written. */
  function TotalSize(w: World, s: seq<Interaction>): Option<nat> {
    if s == [] then Some(0)
    else
      var before, last := TotalSize(w, s[..|s| - 1]), w.resultSize(s[|s| - 1].result);
      if before.None? || last.None? then None else Some(before.value + last.value)
  }

  /** A result answers its call: one call id, one tool, one version, and both can be read again. */
  ghost predicate Paired(w: World, i: Interaction) {
    && i.resultCallId == i.call.callId && i.resultTool == i.result.tool == i.call.tool
    && i.result.version == i.call.version && w.revalidates(i.result) && w.parse(i.call.argumentsJson).Some?
  }

  ghost predicate TranscriptOk(w: World, s: seq<Interaction>, limits: Limits) {
    && |s| <= limits.toolCalls
    && (forall i | 0 <= i < |s| :: Paired(w, s[i]) && WithinArgumentLimits(s[i].call, limits))
    && (forall i, j | 0 <= i < j < |s| :: s[i].call.callId != s[j].call.callId)
    && TotalSize(w, s).Some? && TotalSize(w, s).value <= limits.resultBytes
  }

  lemma NoneYet(w: World, s: seq<Interaction>)
    ensures s[..0] == [] && TotalSize(w, s[..0]) == Some(0)
  {
  }

  lemma OneMore(w: World, s: seq<Interaction>, i: nat)
    requires i < |s|
    ensures var before, one := TotalSize(w, s[..i]), w.resultSize(s[i].result);
      TotalSize(w, s[..i + 1]) == if before.None? || one.None? then None else Some(before.value + one.value)
  {
    assert s[..i + 1][..i] == s[..i];
  }

  lemma PairedIff(w: World, i: Interaction)
    ensures PairValid(w, i) <==> Paired(w, i)
  {
  }

  method TranscriptFailure(w: World, s: seq<Interaction>, limits: Limits)
    returns (problem: Option<(AgentError, Reason)>)
    ensures problem.None? <==> TranscriptOk(w, s, limits)
    ensures problem.Some? ==> Means(problem.value.1, problem.value.0) && problem.value.1 != RouteNotCompleted
  {
    hide WithinArgumentLimits, Paired, PairValid, TotalSize;
    NoneYet(w, s);
    if |s| > limits.toolCalls {
      return Some((LimitReached, ToolCallLimit));
    }
    var callIds: set<string> := {};
    var bytes := 0;
    for i := 0 to |s|
      invariant forall j | 0 <= j < i :: Paired(w, s[j]) && WithinArgumentLimits(s[j].call, limits)
      invariant forall id :: id in callIds <==> exists j | 0 <= j < i :: s[j].call.callId == id
      invariant forall j, k | 0 <= j < k < i :: s[j].call.callId != s[k].call.callId
      invariant TotalSize(w, s[..i]) == Some(bytes)
    {
      OneMore(w, s, i);
      PairedIff(w, s[i]);
      if !PairValid(w, s[i]) {
        return Some((InvalidModelResponse, InvalidTranscript));
      }
      if s[i].call.callId in callIds {
        return Some((InvalidModelResponse, DuplicateCallId));
      }
      callIds := callIds + {s[i].call.callId};
      if !WithinArgumentLimits(s[i].call, limits) {
        return Some((LimitReached, ArgumentLimit));
      }
      var size := w.resultSize(s[i].result);
      if size.None? {
        NoTotal(w, s, i + 1);
        return Some((InvalidModelResponse, InvalidTranscript));
      }
      bytes := bytes + size.value;
    }
    assert s[..|s|] == s;
    problem := if bytes > limits.resultBytes then Some((LimitReached, ResultSizeLimit)) else None;
  }

  lemma {:induction false} NoTotal(w: World, s: seq<Interaction>, i: nat)
    requires i <= |s| && TotalSize(w, s[..i]).None?
    ensures TotalSize(w, s).None?
    decreases |s| - i
  {
    if i == |s| {
      assert s[..i] == s;
    } else {
      assert s[..i + 1][..i] == s[..i];
      NoTotal(w, s, i + 1);
    }
  }

  // --- ending a run --------------------------------------------------------------------------

  /** The one terminal audit: a result that could not be recorded is replaced. */
  method Finish(result: PublicResult, reason: Reason, sink: Sink) returns (outcome: Outcome<PublicResult>, event: Happening)
    ensures event == AgentAudited(result.Success?, reason, sink.Recorded?)
    ensures outcome == match sink
      case Recorded => Done(result)
      case SinkFails => Done(Failure(AgentAuditUnavailable))
      case SinkCancelled => Cancelled
  {
    event := AgentAudited(result.Success?, reason, sink.Recorded?);
    outcome := match sink
      case Recorded => Done(result)
      case SinkFails => Done(Failure(AgentAuditUnavailable))
      case SinkCancelled => Cancelled;
  }

  /** The error that the caller is told for a reason that only the audit gives. */
  predicate Means(reason: Reason, error: AgentError) {
    match reason
    case Completed => false
    case ProviderFailed => error.AgentUnavailable?
    case RoutedToolFailed => error.AgentUnavailable?
    case ToolAuditMissing => error.AgentAuditUnavailable?
    case CatalogTooLarge => error.CatalogLimit?
    case MessageTooLong => error.LimitReached?
    case RouteResourceLimit => error.LimitReached?
    case ToolCallLimit => error.LimitReached?
    case ArgumentLimit => error.LimitReached?
    case ResultSizeLimit => error.LimitReached?
    case AnswerTooLong => error.LimitReached?
    case _ => error.InvalidModelResponse?
  }

  /** A failure that reaches the caller is the one its recorded audit gives, or says that there is
      no audit. */
  ghost predicate Told(outcome: Outcome<PublicResult>, last: Happening) {
    outcome.Done? ==>
      && last.AgentAudited?
      && (outcome.value.Failure? ==>
            if last.recorded then !last.success && Means(last.reason, outcome.value.error)
            else outcome.value.error.AgentAuditUnavailable?)
  }

  /** A run that did not succeed ends with one failure audit that gives its reason. */
  ghost predicate FailedWith(outcome: Outcome<PublicResult>, event: Happening, reason: Reason) {
    && event.AgentAudited? && !event.success && event.reason == reason
    && (outcome.Done? ==> outcome.value.Failure?) && !outcome.Raised? && Told(outcome, event)
  }

  method FinishFailure(error: AgentError, reason: Reason, sink: Sink)
    returns (outcome: Outcome<PublicResult>, event: Happening)
    requires Means(reason, error)
    ensures FailedWith(outcome, event, reason)
  {
    outcome, event := Finish(Failure(error), reason, sink);
  }

  // --- the final answer ----------------------------------------------------------------------

  /** A search result offers an excerpt under this id. */
  ghost predicate Citable(result: ToolResult, id: string) {
    result.ToolSuccess? && result.output.KnowledgeOutput? && exists e | e in result.output.excerpts :: e.citationId == id
  }

  /** The answer is short enough and rests on exactly what the run did: on nothing when it made no
      call; otherwise on its one call, citing excerpts of it when that was a knowledge search. */
  ghost predicate MayAnswer(a: FinalAnswer, route: Route, call: Option<ToolResult>, callId: string, limits: Limits) {
    && |a.text| <= limits.answerCharacters
    && match call
       case None => route.GeneralOnly? && a.basis.General? && a.evidence == [] && a.citations == []
       case Some(result) =>
         && route.ExactRead? && a.evidence == [callId]
         && if result.tool != KNOWLEDGE_TOOL then a.basis.ErpData? && a.citations == []
            else
              && a.basis.Knowledge? && 1 <= |a.citations| <= 20 && Unrepeated(a.citations)
              && forall id | id in a.citations :: Citable(result, id)
  }

  /** What the caller gets: the model's own text, and its citations in its own order, each with
      the metadata of an excerpt of that id. */
  ghost predicate Delivers(a: FinalAnswer, call: Option<ToolResult>, result: PublicResult) {
    && result.Success? && result.answer == a.text && |result.citations| == |a.citations|
    && forall i | 0 <= i < |a.citations| ::
         && result.citations[i].id == a.citations[i] && call.Some? && Citable(call.value, a.citations[i])
         && exists e | e in call.value.output.excerpts ::
              e.citationId == a.citations[i] && e.metadata == result.citations[i].metadata
  }

  /** What the run remembers of its one successful call, or of none. */
  ghost predicate Remembers(call: Option<ToolResult>, callId: string, calls: map<string, Evidence>,
                            observed: map<string, Citation>) {
    if call.None? then calls == map[] && observed == map[]
    else
      var excerpts := ExcerptsOf(call.value);
      var ids := CitationIds(excerpts);
      && calls == map[callId := Evidence(callId, call.value.tool == KNOWLEDGE_TOOL, ids)]
      && (forall id :: id in observed <==> id in ids)
      && (forall id | id in observed ::
            exists e | e in excerpts :: observed[id] == CitationOf(e) && e.citationId == id)
  }

  /** `_matches_exact_route_grounding`. */
  predicate MatchesExactRoute(a: FinalAnswer, calls: map<string, Evidence>) {
    |calls| == 1
    && exists id | id in calls ::
         a.evidence == [calls[id].callId] && a.basis == if calls[id].isKnowledge then Knowledge else ErpData
  }

  method AnswerTurn(a: FinalAnswer, route: Route, number: nat, limits: Limits, calls: map<string, Evidence>,
                    observed: map<string, Citation>, sink: Sink, ghost call: Option<ToolResult>, ghost callId: string)
    returns (outcome: Outcome<PublicResult>, event: Happening)
    requires Remembers(call, callId, calls, observed) && !route.Inconsistent? && number >= 1
    requires call.Some? <==> number == 2
    requires number == 2 ==> route.ExactRead?
    ensures !outcome.Raised? && event.AgentAudited? && event.reason != RouteNotCompleted
    ensures outcome.Done? && outcome.value.Success? <==> MayAnswer(a, route, call, callId, limits) && sink.Recorded?
    ensures outcome.Done? && outcome.value.Success? ==>
      event == AgentAudited(true, Completed, true) && Delivers(a, call, outcome.value)
    ensures Told(outcome, event)
    ensures event.reason == if route.ExactRead? && number == 1 then RequiredCallMissing
                            else if |a.text| > limits.answerCharacters then AnswerTooLong
                            else if MayAnswer(a, route, call, callId, limits) then Completed else CitationsInvalid
  {
    MayAnswerIff(a, route, call, callId, limits, calls, observed);
    hide MayAnswer, Delivers, Grounded;
    if route.ExactRead? && number == 1 {
      outcome, event := FinishFailure(InvalidModelResponse, RequiredCallMissing, sink);
      return;
    }
    if |a.text| > limits.answerCharacters {
      outcome, event := FinishFailure(LimitReached, AnswerTooLong, sink);
      return;
    }
    OneCall(call, callId, calls, observed);
    var citations := ValidateGrounding(a, calls, observed);
    if route.GeneralOnly? && (!a.basis.General? || a.evidence != [] || a.citations != []) {
      citations := None;
    }
    if route.ExactRead? && !MatchesExactRoute(a, calls) {
      citations := None;
    }
    if citations.None? {
      outcome, event := FinishFailure(InvalidModelResponse, CitationsInvalid, sink);
      return;
    }
    if call.Some? {
      AnswerIsDelivered(a, call.value, callId, calls, observed, citations.value);
    }
    NothingCited(a, call, citations.value);
    outcome, event := Finish(Success(a.text, citations.value), Completed, sink);
  }

  lemma OneCall(call: Option<ToolResult>, callId: string, calls: map<string, Evidence>, observed: map<string, Citation>)
    requires Remembers(call, callId, calls, observed)
    ensures forall id | id in calls :: calls[id].callId == id
    ensures forall id | id in calls :: forall c | c in calls[id].citations :: c in observed
    ensures call.Some? ==> calls.Keys == {callId} && |calls| == 1
  {
    if call.Some? {
      assert calls.Keys == {callId};
    }
  }

  /** What the two checks of the orchestrator amount to. */
  lemma MayAnswerIff(a: FinalAnswer, route: Route, call: Option<ToolResult>, callId: string, limits: Limits,
                     calls: map<string, Evidence>, observed: map<string, Citation>)
    requires Remembers(call, callId, calls, observed) && !route.Inconsistent?
    requires call.Some? ==> route.ExactRead?
    ensures MayAnswer(a, route, call, callId, limits) <==>
      && |a.text| <= limits.answerCharacters && Grounded(a, calls)
      && (route.GeneralOnly? ==> a.basis.General? && a.evidence == [] && a.citations == [])
      && (route.ExactRead? ==> call.Some? && MatchesExactRoute(a, calls))
  {
    if call.Some? {
      var result := call.value;
      var excerpts := ExcerptsOf(result);
      assert calls.Keys == {callId};
      forall id
        ensures id in CitationIds(excerpts) <==> result.tool == KNOWLEDGE_TOOL && Citable(result, id)
      {
        OffersCitable(result, id);
      }
      hide CitationIds, ExcerptsOf, Citable;
      if a.evidence == [callId] {
        assert a.evidence[0] == callId;
        assert forall i | 0 <= i < |a.citations| :: Offers(a, calls, a.citations[i]) <==>
          calls[callId].isKnowledge && a.citations[i] in calls[callId].citations;
        assert forall id | id in a.citations :: exists i | 0 <= i < |a.citations| :: a.citations[i] == id;
      }
    }
  }

  lemma OffersCitable(result: ToolResult, id: string)
    ensures id in CitationIds(ExcerptsOf(result)) <==> result.tool == KNOWLEDGE_TOOL && Citable(result, id)
  {
    var excerpts := ExcerptsOf(result);
    if result.tool == KNOWLEDGE_TOOL && Citable(result, id) {
      var e :| e in excerpts && e.citationId == id;
      var i :| 0 <= i < |excerpts| && excerpts[i] == e;
      assert CitationIds(excerpts)[i] == id;
    }
  }

  lemma AnswerIsDelivered(a: FinalAnswer, result: ToolResult, callId: string, calls: map<string, Evidence>,
                          observed: map<string, Citation>, citations: seq<Citation>)
    requires Remembers(Some(result), callId, calls, observed) && |citations| == |a.citations|
    requires forall i | 0 <= i < |a.citations| :: a.citations[i] in observed && citations[i] == observed[a.citations[i]]
    ensures Delivers(a, Some(result), Success(a.text, citations))
  {
    var excerpts := ExcerptsOf(result);
    forall i | 0 <= i < |a.citations|
      ensures citations[i].id == a.citations[i] && Citable(result, a.citations[i])
      ensures exists e | e in result.output.excerpts :: e.citationId == a.citations[i] && e.metadata == citations[i].metadata
    {
      assert a.citations[i] in observed && observed[a.citations[i]] == citations[i];
      var e :| e in excerpts && observed[a.citations[i]] == CitationOf(e) && e.citationId == a.citations[i];
    }
  }

  lemma NothingCited(a: FinalAnswer, call: Option<ToolResult>, citations: seq<Citation>)
    ensures a.citations == [] && citations == [] ==> Delivers(a, call, Success(a.text, citations))
  {
  }

  // --- the tool call -------------------------------------------------------------------------

  datatype CallEnd =
    | Ended(outcome: Outcome<PublicResult>)
    | Continues(interaction: Interaction, calls: map<string, Evidence>, observed: map<string, Citation>)

  /** The events of one call: at most the handler and its audit, perhaps followed by the end of
      the run. */
  ghost predicate CallEvents(g: Gateway, context: Context, tool: string, version: string, s: seq<Happening>) {
    && (forall h | h in s :: h.Asked? ==> false)
    && (forall i, j | 0 <= i < j < |s| :: !(IsHandler(s[i]) && IsHandler(s[j])))
    && (forall h | h in s && IsHandler(h) ::
          h.event.call.tool == tool && h.event.call.version == version && Permitted(g, context, h.event.call))
    && (forall h | h in s && h.AgentAudited? :: !h.success && h.reason != RouteNotCompleted)
  }

  predicate IsHandler(h: Happening) {
    h.Gate? && h.event.HandlerCalled?
  }

  function Events(s: seq<Event>): (r: seq<Happening>)
    ensures |r| == |s| && forall i | 0 <= i < |s| :: r[i] == Gate(s[i])
  {
    seq(|s|, i requires 0 <= i < |s| => Gate(s[i]))
  }

  /** What the run looks like after its one call succeeded. */
  ghost predicate CallSucceeded(w: World, g: Gateway, context: Context, route: Route, i: Interaction, s: seq<Happening>) {
    && route == ExactRead(i.call.tool, i.call.version) && i.result.ToolSuccess?
    && i.result.tool == i.call.tool && i.result.version == i.call.version
    && var invocation := Invocation(i.call.tool, i.call.version, i.call.arguments);
       && s == [Gate(HandlerCalled(invocation)), Gate(ToolAudited(true, true))]
       && Permitted(g, context, invocation)
       && w.around.handler(invocation).Replied?
       && w.around.output(i.call.tool, w.around.handler(invocation).raw) == VerifiedOutput(i.result.output)
  }

  /** The verified result of the tool, if the handler and its output are in order. */
  function ReplyTo(w: World, call: ToolCall): Option<ToolResult> {
    match w.around.handler(Invocation(call.tool, call.version, call.arguments))
    case HandlerFails => None
    case HandlerCancelled => None
    case Replied(raw) =>
      match w.around.output(call.tool, raw)
      case VerifiedOutput(output) => Some(ToolSuccess(call.tool, call.version, output))
      case Unverified => None
      case VerifierCrashed => None
  }

  /** A verified result can be taken in: it passes its own validation again, fits the budget, and
      no two of its excerpts disagree about one citation. */
  ghost predicate Takes(w: World, result: ToolResult, limits: Limits) {
    && w.revalidates(result) && limits.toolCalls >= 1
    && w.resultSize(result).Some? && w.resultSize(result).value <= limits.resultBytes
    && (result.tool == KNOWLEDGE_TOOL && result.ToolSuccess? && result.output.KnowledgeOutput? ==>
          NoConflict(result.output.excerpts))
  }

  /** The call leads on to the final turn: it is the routed one, well-formed and small enough, it
      may run, and its result is verified, recorded and taken in. */
  ghost predicate Leads(w: World, g: Gateway, context: Context, route: Route, limits: Limits, call: ToolCall) {
    var invocation := Invocation(call.tool, call.version, call.arguments);
    && route == ExactRead(call.tool, call.version)
    && w.parse(call.argumentsJson) == Some(call.arguments) && WithinArgumentLimits(call, limits)
    && Permitted(g, context, invocation) && w.around.input(invocation).Accepted?
    && ReplyTo(w, call).Some? && w.around.audit.Recorded? && Takes(w, ReplyTo(w, call).value, limits)
  }

  /** Validate the call that the model made, run it and take in its result. */
  method CallTurn(g: Gateway, context: Context, call: ToolCall, route: Route, number: nat, limits: Limits, w: World)
    returns (end: CallEnd, s: seq<Happening>)
    requires number == 1 ==> !route.Inconsistent?
    ensures CallEvents(g, context, call.tool, call.version, s)
    ensures (exists h | h in s :: IsHandler(h)) ==> route == ExactRead(call.tool, call.version) && number == 1
    ensures end.Ended? ==>
      (end.outcome.Done? ==> end.outcome.value.Failure? && s != [] && Told(end.outcome, s[|s| - 1]))
    ensures end.Continues? <==> number == 1 && Leads(w, g, context, route, limits, call)
    ensures end.Continues? ==>
      && CallSucceeded(w, g, context, route, end.interaction, s)
      && TranscriptOk(w, [end.interaction], limits)
      && ReplyTo(w, call).Some?
      && end.interaction == Interaction(call, call.callId, call.tool, ReplyTo(w, call).value)
      && Remembers(Some(end.interaction.result), call.callId, end.calls, end.observed)
  {
    var outcome: Outcome<PublicResult>;
    var event: Happening;
    LeadsParts(w, g, context, route, limits, call);
    hide Leads, Takes, ReplyTo, CallEvents, Permitted, WithinArgumentLimits, TranscriptOk, Remembers, FailedWith, CallSucceeded;
    NoEvents(g, context, call.tool, call.version);
    if route.GeneralOnly? || number != 1 {
      outcome, event := FinishFailure(InvalidModelResponse, CallNotAllowed, w.audit);
      FailureEvent(g, context, call.tool, call.version, [], outcome, event, CallNotAllowed);
      return Ended(outcome), [] + [event];
    }
    if w.parse(call.argumentsJson) != Some(call.arguments) {
      outcome, event := FinishFailure(InvalidModelResponse, InvalidCall, w.audit);
      FailureEvent(g, context, call.tool, call.version, [], outcome, event, InvalidCall);
      return Ended(outcome), [] + [event];
    }
    if call.tool != route.tool || call.version != route.version {
      outcome, event := FinishFailure(InvalidModelResponse, RoutedToolMismatch, w.audit);
      FailureEvent(g, context, call.tool, call.version, [], outcome, event, RoutedToolMismatch);
      return Ended(outcome), [] + [event];
    }
    if !WithinArgumentLimits(call, limits) {
      outcome, event := FinishFailure(LimitReached, ArgumentLimit, w.audit);
      FailureEvent(g, context, call.tool, call.version, [], outcome, event, ArgumentLimit);
      return Ended(outcome), [] + [event];
    }
    end, s := UseTool(g, context, call, route, limits, w);
  }

  lemma LeadsParts(w: World, g: Gateway, context: Context, route: Route, limits: Limits, call: ToolCall)
    ensures Leads(w, g, context, route, limits, call) ==>
      && route == ExactRead(call.tool, call.version) && w.parse(call.argumentsJson) == Some(call.arguments)
      && WithinArgumentLimits(call, limits)
  {
    hide Permitted, Takes, ReplyTo, WithinArgumentLimits;
  }

  /** Send the validated call through the gateway. */
  method UseTool(g: Gateway, context: Context, call: ToolCall, route: Route, limits: Limits, w: World)
    returns (end: CallEnd, s: seq<Happening>)
    requires route == ExactRead(call.tool, call.version) && w.parse(call.argumentsJson) == Some(call.arguments)
    requires WithinArgumentLimits(call, limits)
    ensures CallEvents(g, context, call.tool, call.version, s)
    ensures end.Ended? ==>
      (end.outcome.Done? ==> end.outcome.value.Failure? && s != [] && Told(end.outcome, s[|s| - 1]))
    ensures end.Continues? <==> Leads(w, g, context, route, limits, call)
    ensures end.Continues? ==>
      && CallSucceeded(w, g, context, route, end.interaction, s)
      && TranscriptOk(w, [end.interaction], limits)
      && ReplyTo(w, call).Some?
      && end.interaction == Interaction(call, call.callId, call.tool, ReplyTo(w, call).value)
      && Remembers(Some(end.interaction.result), call.callId, end.calls, end.observed)
  {
    var outcome: Outcome<PublicResult>;
    var event: Happening;
    var invocation := Invocation(call.tool, call.version, call.arguments);
    var result, events := Execute(g, context, invocation, w.around);
    s := Events(events);
    GatewayEvents(g, context, invocation, events, w.around);
    LeadsIff(w, g, context, route, limits, call);
    hide CallEvents, Permitted, TranscriptOk, Remembers, FailedWith, WithinArgumentLimits, Leads, Takes;
    if !result.Done? {
      return Ended(if result.Raised? then Raised else Cancelled), s;
    }
    if result.value.ToolFailure? {
      hide *;
      if result.value.error == AuditUnavailable {
        outcome, event := FinishFailure(AgentAuditUnavailable, ToolAuditMissing, w.audit);
        FailureEvent(g, context, call.tool, call.version, s, outcome, event, ToolAuditMissing);
      } else {
        outcome, event := FinishFailure(AgentUnavailable, RoutedToolFailed, w.audit);
        FailureEvent(g, context, call.tool, call.version, s, outcome, event, RoutedToolFailed);
      }
      return Ended(outcome), s + [event];
    }
    assert events == [HandlerCalled(invocation), ToolAudited(true, true)];
    assert CallSucceeded(w, g, context, route, Interaction(call, call.callId, call.tool, result.value), s);
    assert ReplyTo(w, call) == Some(result.value);
    assert w.parse(call.argumentsJson).Some?;
    hide *;
    end, s := TakeResult(g, context, call, route, limits, w, result.value, s);
  }

  lemma LeadsIff(w: World, g: Gateway, context: Context, route: Route, limits: Limits, call: ToolCall)
    requires route == ExactRead(call.tool, call.version) && w.parse(call.argumentsJson) == Some(call.arguments)
    requires WithinArgumentLimits(call, limits)
    ensures var invocation := Invocation(call.tool, call.version, call.arguments);
      Leads(w, g, context, route, limits, call) <==>
        && Permitted(g, context, invocation) && w.around.input(invocation).Accepted?
        && w.around.handler(invocation).Replied?
        && w.around.output(call.tool, w.around.handler(invocation).raw).VerifiedOutput? && w.around.audit.Recorded?
        && Takes(w, ToolSuccess(call.tool, call.version,
                                w.around.output(call.tool, w.around.handler(invocation).raw).output), limits)
  {
    hide Permitted, Takes, WithinArgumentLimits;
  }

  lemma NoEvents(g: Gateway, context: Context, tool: string, version: string)
    ensures CallEvents(g, context, tool, version, [])
    ensures !exists h | h in [] :: IsHandler(h)
  {
  }

  /** Ending a run with a failure adds one failure audit and nothing else. */
  lemma FailureEvent(g: Gateway, context: Context, tool: string, version: string, s: seq<Happening>,
                     outcome: Outcome<PublicResult>, event: Happening, reason: Reason)
    requires CallEvents(g, context, tool, version, s) && FailedWith(outcome, event, reason)
    requires reason != RouteNotCompleted
    ensures CallEvents(g, context, tool, version, s + [event])
    ensures (exists h | h in s + [event] :: IsHandler(h)) <==> (exists h | h in s :: IsHandler(h))
    ensures event.AgentAudited? && (outcome.Done? ==> outcome.value.Failure?) && !outcome.Raised? && Told(outcome, event)
  {
    hide Permitted;
    var all := s + [event];
    forall h
      ensures h in all <==> h in s || h == event
    {
    }
  }

  /** What the gateway does is what one call may do. */
  lemma GatewayEvents(g: Gateway, context: Context, call: Invocation, events: seq<Event>, around: Surroundings)
    requires Orderly(events, call)
    requires HandlerCalled(call) in events ==> Permitted(g, context, call)
    ensures CallEvents(g, context, call.tool, call.version, Events(events))
  {
    hide Permitted;
    var s := Events(events);
    forall h | h in s
      ensures h.Gate? && h.event in events
      ensures IsHandler(h) ==> h.event == HandlerCalled(call)
    {
      var i :| 0 <= i < |s| && s[i] == h;
      assert s[i] == Gate(events[i]);
    }
  }

  /** In the interaction that the orchestrator builds from a validated call and its successful
      result, ids, tool name and version always agree: it is valid exactly when the payload of the
      result passes its own validation again. */
  lemma PairsByConstruction(w: World, g: Gateway, context: Context, route: Route, call: ToolCall, result: ToolResult,
                            s: seq<Happening>)
    requires w.parse(call.argumentsJson).Some?
    requires CallSucceeded(w, g, context, route, Interaction(call, call.callId, call.tool, result), s)
    ensures PairValid(w, Interaction(call, call.callId, call.tool, result)) <==> w.revalidates(result)
  {
    hide Permitted;
  }

  /** Pair the call with its successful result and check the budgets and citations again. */
  method TakeResult(g: Gateway, context: Context, call: ToolCall, route: Route, limits: Limits, w: World,
                    result: ToolResult, events: seq<Happening>)
    returns (end: CallEnd, s: seq<Happening>)
    requires CallEvents(g, context, call.tool, call.version, events)
    requires CallSucceeded(w, g, context, route, Interaction(call, call.callId, call.tool, result), events)
    requires w.parse(call.argumentsJson).Some? && WithinArgumentLimits(call, limits)
    ensures end.Ended? && end.outcome.Raised? <==> !w.revalidates(result)
    ensures CallEvents(g, context, call.tool, call.version, s)
    ensures end.Ended? ==>
      (end.outcome.Done? ==> end.outcome.value.Failure? && s != [] && Told(end.outcome, s[|s| - 1]))
    ensures end.Continues? <==> Takes(w, result, limits)
    ensures end.Continues? ==>
      && CallSucceeded(w, g, context, route, end.interaction, s)
      && TranscriptOk(w, [end.interaction], limits)
      && end.interaction == Interaction(call, call.callId, call.tool, result)
      && Remembers(Some(end.interaction.result), call.callId, end.calls, end.observed)
  {
    TakesIff(w, call, result, limits);
    hide Takes, WithinArgumentLimits, NoConflict;
    hide CallEvents, Permitted, TranscriptOk, PairValid, CallSucceeded, FailedWith, Remembers;
    PairsByConstruction(w, g, context, route, call, result, events);
    var interaction := Interaction(call, call.callId, call.tool, result);
    s := events;
    if !PairValid(w, interaction) {
      return Ended(Raised), s;
    }
    var problem := TranscriptFailure(w, [interaction], limits);
    var event: Happening;
    var outcome: Outcome<PublicResult>;
    if problem.Some? {
      outcome, event := FinishFailure(problem.value.0, problem.value.1, w.audit);
      FailureEvent(g, context, call.tool, call.version, s, outcome, event, problem.value.1);
      return Ended(outcome), s + [event];
    }
    var ids, observed := ObserveCitations(result);
    if ids.None? {
      outcome, event := FinishFailure(InvalidModelResponse, CitationConflict, w.audit);
      FailureEvent(g, context, call.tool, call.version, s, outcome, event, CitationConflict);
      return Ended(outcome), s + [event];
    }
    SuccessTool(w, g, context, route, interaction, events);
    TakenIn(call, result, ids.value, observed);
    end := Continues(interaction,
                     map[call.callId := Evidence(call.callId, call.tool == KNOWLEDGE_TOOL, ids.value)], observed);
  }

  lemma TakesIff(w: World, call: ToolCall, result: ToolResult, limits: Limits)
    requires WithinArgumentLimits(call, limits)
    ensures var i := Interaction(call, call.callId, call.tool, result);
      (PairValid(w, i) <==> w.revalidates(result)) ==>
        (Takes(w, result, limits) <==>
           PairValid(w, i) && TranscriptOk(w, [i], limits) && NoConflict(ExcerptsOf(result)))
  {
    hide WithinArgumentLimits;
    var i := Interaction(call, call.callId, call.tool, result);
    assert [i][..0] == [] && TotalSize(w, []) == Some(0);
    assert TotalSize(w, [i]) == w.resultSize(result);
    assert NoConflict([]);
  }

  lemma TakenIn(call: ToolCall, result: ToolResult, ids: seq<string>, observed: map<string, Citation>)
    requires result.ToolSuccess? && result.tool == call.tool && NoConflict(ExcerptsOf(result))
    requires ids == CitationIds(ExcerptsOf(result)) && forall id :: id in observed <==> id in ids
    requires forall id | id in observed ::
      exists e | e in ExcerptsOf(result) :: observed[id] == CitationOf(e) && e.citationId == id
    ensures Remembers(Some(result), call.callId,
                      map[call.callId := Evidence(call.callId, call.tool == KNOWLEDGE_TOOL, ids)], observed)
  {
  }

  lemma SuccessTool(w: World, g: Gateway, context: Context, route: Route, i: Interaction, s: seq<Happening>)
    requires CallSucceeded(w, g, context, route, i, s)
    ensures i.result.tool == i.call.tool && i.result.ToolSuccess?
  {
  }

  // --- the whole run -------------------------------------------------------------------------

  function MaximumTurns(route: Route): nat {
    if route.GeneralOnly? then 1 else 2
  }

  /** The turn the orchestrator puts to the model. */
  function TurnOf(route: Route, number: nat, interactions: seq<Interaction>): Turn {
    match route
    case ExactRead(tool, version) =>
      if number == 1 then Turn([(tool, version)], RequiredTool(tool, version), interactions, number)
      else Turn([], FinalOnly, interactions, number)
    case _ => Turn([], NoTools, interactions, number)
  }

  predicate IsAudit(h: Happening) {
    h.AgentAudited? || (h.Gate? && h.event.ToolAudited?)
  }

  /** What every run keeps to, however it ends. */
  ghost predicate Safe(w: World, g: Gateway, context: Context, route: Route, s: seq<Happening>) {
    && (forall i, j | 0 <= i < j < |s| :: !(IsHandler(s[i]) && IsHandler(s[j])))
    && (forall h | h in s && IsHandler(h) ::
          route == ExactRead(h.event.call.tool, h.event.call.version) && Permitted(g, context, h.event.call))
    && (forall h | h in s && h.Asked? :: TurnValid(w, h.turn))
    && (forall h | h in s && h.AgentAudited? :: h.reason != RouteNotCompleted)
  }

  /** The model's reply to this turn is an answer that the run may give. */
  ghost predicate Speaks(w: World, turn: Turn, route: Route, call: Option<ToolResult>, callId: string, limits: Limits) {
    w.model(turn).Answers? && MayAnswer(w.model(turn).answer, route, call, callId, limits)
  }

  /** The complete history of a run that ended in a success, and what it said. */
  ghost predicate SucceededAs(w: World, g: Gateway, context: Context, route: Route, limits: Limits,
                              s: seq<Happening>, result: PublicResult) {
    match route
    case GeneralOnly =>
      var turn := Turn([], NoTools, [], 1);
      && s == [Asked(turn), AgentAudited(true, Completed, true)]
      && Speaks(w, turn, route, None, "", limits) && Delivers(w.model(turn).answer, None, result)
    case ExactRead(tool, version) =>
      var first := Turn([(tool, version)], RequiredTool(tool, version), [], 1);
      && |s| == 5 && s[0] == Asked(first) && s[4] == AgentAudited(true, Completed, true)
      && exists i: Interaction ::
           && w.model(first) == Calls(i.call) && CallSucceeded(w, g, context, route, i, s[1..3])
           && s[3] == Asked(Turn([], FinalOnly, [i], 2))
           && Speaks(w, Turn([], FinalOnly, [i], 2), route, Some(i.result), i.call.callId, limits)
           && Delivers(w.model(Turn([], FinalOnly, [i], 2)).answer, Some(i.result), result)
    case Inconsistent => false
  }

  /** The model and the tool do their part: without a tool the model answers at once; with one it
      makes the routed call, which leads on, and then it answers. */
  ghost predicate Cooperates(w: World, g: Gateway, context: Context, route: Route, limits: Limits) {
    match route
    case GeneralOnly => Speaks(w, Turn([], NoTools, [], 1), route, None, "", limits)
    case ExactRead(tool, version) =>
      var first := w.model(Turn([(tool, version)], RequiredTool(tool, version), [], 1));
      && first.Calls? && Leads(w, g, context, route, limits, first.call)
      && var result := ReplyTo(w, first.call).value;
         Concludes(w, route, Interaction(first.call, first.call.callId, first.call.tool, result), limits)
    case Inconsistent => false
  }

  ghost predicate Concludes(w: World, route: Route, i: Interaction, limits: Limits) {
    Speaks(w, Turn([], FinalOnly, [i], 2), route, Some(i.result), i.call.callId, limits)
  }

  /** From this turn on the run goes well, apart from its audit. */
  ghost predicate GoesWell(w: World, g: Gateway, context: Context, route: Route, limits: Limits, number: nat,
                           interactions: seq<Interaction>) {
    && TranscriptOk(w, interactions, limits)
    && if number == 1 then Cooperates(w, g, context, route, limits)
       else |interactions| == 1 && Concludes(w, route, interactions[0], limits)
  }

  /** The state in which turn `number` starts. */
  ghost predicate Ready(w: World, g: Gateway, context: Context, route: Route, limits: Limits, number: nat,
                        interactions: seq<Interaction>, calls: map<string, Evidence>, observed: map<string, Citation>,
                        s: seq<Happening>) {
    && !route.Inconsistent? && Safe(w, g, context, route, s)
    && (number == 1 || (number == 2 && route.ExactRead?))
    && (number == 1 ==> interactions == [] && s == [] && Remembers(None, "", calls, observed))
    && (number == 2 ==>
          && |interactions| == 1 && TranscriptOk(w, interactions, limits) && |s| == 3
          && s[0] == Asked(TurnOf(route, 1, [])) && w.model(TurnOf(route, 1, [])) == Calls(interactions[0].call)
          && CallSucceeded(w, g, context, route, interactions[0], s[1..])
          && Remembers(Some(interactions[0].result), interactions[0].call.callId, calls, observed))
  }

  lemma ReadyTurnIsValid(w: World, g: Gateway, context: Context, route: Route, limits: Limits, number: nat,
                         interactions: seq<Interaction>, calls: map<string, Evidence>,
                         observed: map<string, Citation>, s: seq<Happening>)
    requires Ready(w, g, context, route, limits, number, interactions, calls, observed, s)
    ensures TurnValid(w, TurnOf(route, number, interactions))
    ensures Safe(w, g, context, route, s + [Asked(TurnOf(route, number, interactions))])
  {
    hide Permitted, WithinArgumentLimits, Remembers, TotalSize;
    var turn := TurnOf(route, number, interactions);
    assert TurnValid(w, turn);
    SafeAsked(w, g, context, route, s, turn);
  }

  lemma SafeAsked(w: World, g: Gateway, context: Context, route: Route, s: seq<Happening>, turn: Turn)
    requires Safe(w, g, context, route, s) && TurnValid(w, turn)
    ensures Safe(w, g, context, route, s + [Asked(turn)])
  {
    hide Permitted, TurnValid;
    assert forall h :: h in s + [Asked(turn)] <==> h in s || h == Asked(turn);
  }

  lemma SafeAudited(w: World, g: Gateway, context: Context, route: Route, s: seq<Happening>, event: Happening)
    requires Safe(w, g, context, route, s) && event.AgentAudited? && event.reason != RouteNotCompleted
    ensures Safe(w, g, context, route, s + [event])
  {
    hide Permitted, TurnValid;
    assert forall h :: h in s + [event] <==> h in s || h == event;
  }

  lemma SafeCall(w: World, g: Gateway, context: Context, route: Route, s: seq<Happening>, tool: string,
                 version: string, more: seq<Happening>)
    requires Safe(w, g, context, route, s) && CallEvents(g, context, tool, version, more)
    requires (exists h | h in more :: IsHandler(h)) ==> route == ExactRead(tool, version)
    requires forall h | h in s :: !IsHandler(h)
    ensures Safe(w, g, context, route, s + more)
  {
    hide Permitted, TurnValid;
    var all := s + more;
    assert forall h :: h in all <==> h in s || h in more;
    forall i, j | 0 <= i < j < |all|
      ensures !(IsHandler(all[i]) && IsHandler(all[j]))
    {
      if i < |s| {
        assert all[i] in s;
      }
    }
  }

  /** Tools in order of their names. */
  function ByName(): ((string, string), (string, string)) -> bool {
    (a: (string, string), b: (string, string)) => StringLe(a.0, b.0)
  }

  /** A granted tool with a handler, by name and version. */
  ghost predicate Offered(g: Gateway, context: Context, name: string, version: string) {
    exists t :: Granted(g.registry, context, t) && t.name in g.handlers && t.name == name && t.version == version
  }

  /** Names and versions of the tools that have a handler. */
  ghost function Listing(g: Gateway, tools: seq<Tool>): seq<(string, string)> {
    if tools == [] then []
    else
      var last := tools[|tools| - 1];
      Listing(g, tools[..|tools| - 1]) + if last.name in g.handlers then [(last.name, last.version)] else []
  }

  /** What the model may see: the granted tools that have a handler, in order of their names. */
  ghost function CatalogOf(g: Gateway, context: Context): seq<(string, string)> {
    Sort(Listing(g, GrantedTools(g.registry, context)), ByName())
  }

  lemma {:induction false} ListingMembers(g: Gateway, tools: seq<Tool>, entry: (string, string))
    ensures entry in Listing(g, tools) <==>
      exists t :: t in tools && t.name in g.handlers && t.name == entry.0 && t.version == entry.1
  {
    if tools != [] {
      var before, last := tools[..|tools| - 1], tools[|tools| - 1];
      ListingMembers(g, before, entry);
      assert tools == before + [last];
      assert (exists t :: t in tools && t.name in g.handlers && t.name == entry.0 && t.version == entry.1) <==>
        (exists t :: t in before && t.name in g.handlers && t.name == entry.0 && t.version == entry.1)
        || (last.name in g.handlers && last.name == entry.0 && last.version == entry.1);
    }
  }

  lemma OfferedIff(g: Gateway, context: Context, entry: (string, string))
    ensures entry in CatalogOf(g, context) <==> Offered(g, context, entry.0, entry.1)
  {
    var tools := GrantedTools(g.registry, context);
    ListingMembers(g, tools, entry);
    SameElements(Sort(Listing(g, tools), ByName()), Listing(g, tools));
    forall t
      ensures t in tools <==> Granted(g.registry, context, t)
    {
      GrantedToolsMembers(g.registry, context, t);
    }
    hide Sort, Granted, GrantedTools, Listing;
  }

  /** The granted tools that have a handler, as the model may see them. */
  method AuthorizedCatalog(g: Gateway, context: Context) returns (catalog: seq<(string, string)>)
    ensures catalog == CatalogOf(g, context)
    ensures forall entry :: entry in catalog <==> Offered(g, context, entry.0, entry.1)
  {
    hide Granted, GrantedTools, Sort;
    var tools, _ := EvaluateAccess(g.registry, context);
    var listed: seq<(string, string)> := [];
    for i := 0 to |tools|
      invariant listed == Listing(g, tools[..i])
    {
      assert tools[..i + 1][..i] == tools[..i];
      if tools[i].name in g.handlers {
        listed := listed + [(tools[i].name, tools[i].version)];
      }
    }
    assert tools[..|tools|] == tools;
    catalog := Sort(listed, ByName());
    hide Offered;
    forall entry
      ensures entry in catalog <==> Offered(g, context, entry.0, entry.1)
    {
      OfferedIff(g, context, entry);
    }
  }

  function Occurrences(catalog: seq<(string, string)>, entry: (string, string)): nat {
    multiset(catalog)[entry]
  }

  /** All registered tools, whoever may use them. */
  function Registered(registry: Registry): seq<(string, string)> {
    if registry == [] then []
    else Registered(registry[..|registry| - 1]) + NamesAndVersions(registry[|registry| - 1].tools)
  }

  function NamesAndVersions(tools: seq<Tool>): seq<(string, string)> {
    seq(|tools|, i requires 0 <= i < |tools| => (tools[i].name, tools[i].version))
  }

  /** The `j`-th tool of the `c`-th capability has this name and version. */
  predicate IsAt(registry: Registry, entry: (string, string), c: nat, j: nat) {
    && c < |registry| && j < |registry[c].tools|
    && registry[c].tools[j].name == entry.0 && registry[c].tools[j].version == entry.1
  }

  /** Where a name and version are registered. */
  ghost function PlacesOf(registry: Registry, entry: (string, string), n: nat): set<(nat, nat)>
    requires n <= |registry|
  {
    set c: nat, j: nat | c < n && j < |registry[c].tools| && IsAt(registry, entry, c, j) :: (c, j)
  }

  ghost function PlacesIn(registry: Registry, entry: (string, string), c: nat, m: nat): set<(nat, nat)>
    requires c < |registry| && m <= |registry[c].tools|
  {
    set j: nat | j < m && IsAt(registry, entry, c, j) :: (c, j)
  }

  lemma {:induction false} CapabilityCount(registry: Registry, entry: (string, string), c: nat, m: nat)
    requires c < |registry| && m <= |registry[c].tools|
    ensures multiset(NamesAndVersions(registry[c].tools)[..m])[entry] == |PlacesIn(registry, entry, c, m)|
  {
    var named := NamesAndVersions(registry[c].tools);
    if m > 0 {
      CapabilityCount(registry, entry, c, m - 1);
      assert named[..m] == named[..m - 1] + [named[m - 1]];
      assert PlacesIn(registry, entry, c, m) ==
        PlacesIn(registry, entry, c, m - 1) + if IsAt(registry, entry, c, m - 1) then {(c, m - 1)} else {};
    }
  }

  /** How often a name and version occur among the registered tools. */
  lemma {:induction false} RegisteredCount(registry: Registry, entry: (string, string), n: nat)
    requires n <= |registry|
    ensures multiset(Registered(registry[..n]))[entry] == |PlacesOf(registry, entry, n)|
  {
    if n > 0 {
      RegisteredCount(registry, entry, n - 1);
      var tools := registry[n - 1].tools;
      assert registry[..n][..n - 1] == registry[..n - 1];
      assert Registered(registry[..n]) == Registered(registry[..n - 1]) + NamesAndVersions(tools);
      CapabilityCount(registry, entry, n - 1, |tools|);
      assert NamesAndVersions(tools)[..|tools|] == NamesAndVersions(tools);
      hide *;
      PlacesSplit(registry, entry, n);
    }
  }

  lemma PlacesSplit(registry: Registry, entry: (string, string), n: nat)
    requires 0 < n <= |registry|
    ensures |PlacesOf(registry, entry, n)|
         == |PlacesOf(registry, entry, n - 1)| + |PlacesIn(registry, entry, n - 1, |registry[n - 1].tools|)|
  {
    hide IsAt;
    var before, last := PlacesOf(registry, entry, n - 1), PlacesIn(registry, entry, n - 1, |registry[n - 1].tools|);
    assert PlacesOf(registry, entry, n) == before + last;
    assert before !! last;
  }

  /** A run may start: the message and the catalogue are within their limits, and a routed tool is
      in the catalogue once, registered once, and affordable. */
  ghost predicate MayStart(g: Gateway, context: Context, messageLength: nat, route: Route, limits: Limits, w: World) {
    && messageLength <= limits.messageCharacters
    && |CatalogOf(g, context)| <= limits.modelTools && w.catalogSize(CatalogOf(g, context)) <= limits.catalogBytes
    && match route
       case Inconsistent => false
       case GeneralOnly => true
       case ExactRead(tool, version) =>
         && limits.toolCalls >= 1 && limits.modelTurns >= 2
         && multiset(CatalogOf(g, context))[(tool, version)] == 1
         && |PlacesOf(g.registry, (tool, version), |g.registry|)| == 1
  }

  /** The checks before the first turn. */
  method Admit(g: Gateway, context: Context, messageLength: nat, route: Route, limits: Limits, w: World)
    returns (problem: Option<(AgentError, Reason)>)
    ensures problem.Some? ==> problem.value.1 != RouteNotCompleted && Means(problem.value.1, problem.value.0)
    ensures problem.None? <==> MayStart(g, context, messageLength, route, limits, w)
    ensures problem.None? && route.ExactRead? ==> Offered(g, context, route.tool, route.version)
  {
    hide CatalogOf, Registered, Offered, PlacesOf;
    if route.Inconsistent? {
      return Some((InvalidModelResponse, InvalidRoute));
    }
    if messageLength > limits.messageCharacters {
      return Some((LimitReached, MessageTooLong));
    }
    var catalog := AuthorizedCatalog(g, context);
    if |catalog| > limits.modelTools || w.catalogSize(catalog) > limits.catalogBytes {
      return Some((CatalogLimit, CatalogTooLarge));
    }
    if route.ExactRead? {
      var entry := (route.tool, route.version);
      RegisteredCount(g.registry, entry, |g.registry|);
      assert g.registry[..|g.registry|] == g.registry;
      if Occurrences(catalog, entry) != 1 || Occurrences(Registered(g.registry), entry) != 1 {
        return Some((InvalidModelResponse, RouteNotAuthorized));
      }
      assert entry in multiset(catalog);
      if limits.toolCalls < 1 || limits.modelTurns < 2 {
        return Some((LimitReached, RouteResourceLimit));
      }
    }
    problem := None;
  }

  /** How a run may end. */
  ghost predicate Ending(w: World, g: Gateway, context: Context, route: Route, limits: Limits,
                         outcome: Outcome<PublicResult>, s: seq<Happening>) {
    && Safe(w, g, context, route, s)
    && (outcome.Done? ==> s != [] && Told(outcome, s[|s| - 1]))
    && (outcome.Done? && outcome.value.Success? ==> SucceededAs(w, g, context, route, limits, s, outcome.value))
  }

  /** One run: at most one handler call, only the routed and permitted tool; every turn is a valid
      request; it never falls out of its loop; and a success has exactly one history. */
  method ExecuteRun(g: Gateway, context: Context, messageLength: nat, route: Route, limits: Limits, w: World)
    returns (outcome: Outcome<PublicResult>, s: seq<Happening>)
    ensures Ending(w, g, context, route, limits, outcome, s)
    ensures outcome.Done? && outcome.value.Success? <==>
      && MayStart(g, context, messageLength, route, limits, w) && Cooperates(w, g, context, route, limits)
      && w.audit.Recorded?
  {
    var event: Happening;
    var problem := Admit(g, context, messageLength, route, limits, w);
    if problem.Some? {
      outcome, event := FinishFailure(problem.value.0, problem.value.1, w.audit);
      EarlyEnding(w, g, context, route, limits, outcome, event, problem.value.1);
      return outcome, [event];
    }
    s := [];
    var interactions: seq<Interaction> := [];
    var calls: map<string, Evidence>, observed: map<string, Citation> := map[], map[];
    FirstTurn(w, g, context, route, limits);
    hide *;
    var number := 1;
    while number <= MaximumTurns(route)
      invariant Ready(w, g, context, route, limits, number, interactions, calls, observed, s)
      invariant GoesWell(w, g, context, route, limits, number, interactions) <==> Cooperates(w, g, context, route, limits)
      decreases MaximumTurns(route) + 1 - number
    {
      var ended: Option<Outcome<PublicResult>>;
      ended, interactions, calls, observed, s :=
        TakeTurn(g, context, route, limits, w, number, interactions, calls, observed, s);
      if ended.Some? {
        return ended.value, s;
      }
      number := number + 1;
    }
    ReadyMeansTurnLeft(w, g, context, route, limits, number, interactions, calls, observed, s);
    outcome, event := FinishFailure(InvalidModelResponse, RouteNotCompleted, w.audit);
    s := s + [event];
  }

  lemma EarlyEnding(w: World, g: Gateway, context: Context, route: Route, limits: Limits, outcome: Outcome<PublicResult>,
                    event: Happening, reason: Reason)
    requires FailedWith(outcome, event, reason) && reason != RouteNotCompleted
    ensures Ending(w, g, context, route, limits, outcome, [event])
  {
    hide Permitted, TurnValid;
  }

  lemma FirstTurn(w: World, g: Gateway, context: Context, route: Route, limits: Limits)
    requires !route.Inconsistent?
    ensures Ready(w, g, context, route, limits, 1, [], map[], map[], [])
    ensures GoesWell(w, g, context, route, limits, 1, []) <==> Cooperates(w, g, context, route, limits)
  {
    hide Cooperates;
  }

  /** A turn that starts is one of the allowed ones: the code after the loop is never reached. */
  lemma ReadyMeansTurnLeft(w: World, g: Gateway, context: Context, route: Route, limits: Limits, number: nat,
                           interactions: seq<Interaction>, calls: map<string, Evidence>,
                           observed: map<string, Citation>, s: seq<Happening>)
    requires Ready(w, g, context, route, limits, number, interactions, calls, observed, s)
    ensures 1 <= number <= MaximumTurns(route)
  {
  }

  /** One turn: ask the model and act on its answer. */
  method TakeTurn(g: Gateway, context: Context, route: Route, limits: Limits, w: World, number: nat,
                  interactions: seq<Interaction>, calls: map<string, Evidence>, observed: map<string, Citation>,
                  before: seq<Happening>)
    returns (ended: Option<Outcome<PublicResult>>, nextInteractions: seq<Interaction>,
             nextCalls: map<string, Evidence>, nextObserved: map<string, Citation>, s: seq<Happening>)
    requires Ready(w, g, context, route, limits, number, interactions, calls, observed, before)
    ensures ended.Some? ==>
      && Ending(w, g, context, route, limits, ended.value, s)
      && (ended.value.Done? && ended.value.value.Success? <==>
            GoesWell(w, g, context, route, limits, number, interactions) && w.audit.Recorded?)
    ensures ended.None? ==>
      && Ready(w, g, context, route, limits, number + 1, nextInteractions, nextCalls, nextObserved, s)
      && (GoesWell(w, g, context, route, limits, number, interactions) <==>
            GoesWell(w, g, context, route, limits, number + 1, nextInteractions))
  {
    var event: Happening;
    var outcome: Outcome<PublicResult>;
    nextInteractions, nextCalls, nextObserved := interactions, calls, observed;
    ReadyFacts(w, g, context, route, limits, number, interactions, calls, observed, before);
    ReadyTurnIsValid(w, g, context, route, limits, number, interactions, calls, observed, before);
    hide *;
    var problem := TranscriptFailure(w, interactions, limits);
    if problem.Some? {
      TranscriptNeeded(w, g, context, route, limits, number, interactions);
      outcome, event := FinishFailure(problem.value.0, problem.value.1, w.audit);
      FailedEnding(w, g, context, route, limits, before, outcome, event, problem.value.1);
      return Some(outcome), interactions, calls, observed, before + [event];
    }
    var turn := TurnOf(route, number, interactions);
    s := before + [Asked(turn)];
    match w.model(turn) {
      case ModelFails =>
        NothingSaid(w, g, context, route, limits, number, interactions);
        outcome, event := FinishFailure(AgentUnavailable, ProviderFailed, w.audit);
        FailedEnding(w, g, context, route, limits, s, outcome, event, ProviderFailed);
        return Some(outcome), interactions, calls, observed, s + [event];
      case ModelCancelled =>
        NothingSaid(w, g, context, route, limits, number, interactions);
        NotDone(w, g, context, route, limits, s, Cancelled);
        return Some(Cancelled), interactions, calls, observed, s;
      case Junk =>
        NothingSaid(w, g, context, route, limits, number, interactions);
        outcome, event := FinishFailure(InvalidModelResponse, InvalidReply, w.audit);
        FailedEnding(w, g, context, route, limits, s, outcome, event, InvalidReply);
        return Some(outcome), interactions, calls, observed, s + [event];
      case Answers(answer) =>
        ghost var (call, callId) := CallBefore(number, interactions);
        outcome, event := AnswerTurn(answer, route, number, limits, calls, observed, w.audit, call, callId);
        AnswerEnding(w, g, context, route, limits, number, interactions, calls, observed, before, answer, outcome,
                     event);
        return Some(outcome), interactions, calls, observed, s + [event];
      case Calls(call) =>
        var end, more := CallTurn(g, context, call, route, number, limits, w);
        CallKeepsSafe(w, g, context, route, limits, number, interactions, calls, observed, before, call.tool,
                      call.version, more);
        s := s + more;
        CallGoesWell(w, g, context, route, limits, number, interactions, call);
        match end {
          case Ended(o) =>
            CallEnding(w, g, context, route, limits, s, more, o);
            return Some(o), interactions, calls, observed, s;
          case Continues(interaction, newCalls, newObserved) =>
            nextInteractions, nextCalls, nextObserved := interactions + [interaction], newCalls, newObserved;
            SecondTurn(w, g, context, route, limits, interactions, calls, observed, before, interaction, newCalls,
                       newObserved, more);
            OneMoreTurn(w, g, context, route, limits, interaction);
            ended := None;
        }
    }
  }

  lemma TranscriptNeeded(w: World, g: Gateway, context: Context, route: Route, limits: Limits, number: nat,
                         interactions: seq<Interaction>)
    requires !TranscriptOk(w, interactions, limits)
    ensures !GoesWell(w, g, context, route, limits, number, interactions)
  {
    hide TranscriptOk;
  }

  lemma ReadyFacts(w: World, g: Gateway, context: Context, route: Route, limits: Limits, number: nat,
                   interactions: seq<Interaction>, calls: map<string, Evidence>, observed: map<string, Citation>,
                   s: seq<Happening>)
    requires Ready(w, g, context, route, limits, number, interactions, calls, observed, s)
    ensures Safe(w, g, context, route, s) && !route.Inconsistent? && number in {1, 2}
    ensures number == 2 ==> route.ExactRead? && |interactions| == 1
    ensures number == 1 ==> interactions == []
    ensures Remembers(CallBefore(number, interactions).0, CallBefore(number, interactions).1, calls, observed)
  {
    hide Safe, Remembers, TranscriptOk, CallSucceeded;
  }

  lemma FailedEnding(w: World, g: Gateway, context: Context, route: Route, limits: Limits, s: seq<Happening>,
                     outcome: Outcome<PublicResult>, event: Happening, reason: Reason)
    requires Safe(w, g, context, route, s) && FailedWith(outcome, event, reason) && reason != RouteNotCompleted
    ensures Ending(w, g, context, route, limits, outcome, s + [event])
  {
    SafeAudited(w, g, context, route, s, event);
    hide Safe;
  }

  lemma NotDone(w: World, g: Gateway, context: Context, route: Route, limits: Limits, s: seq<Happening>, outcome: Outcome<PublicResult>)
    requires Safe(w, g, context, route, s) && !outcome.Done?
    ensures Ending(w, g, context, route, limits, outcome, s)
  {
  }

  /** The result of the run's one call, and its id, when turn `number` starts. */
  ghost function CallBefore(number: nat, interactions: seq<Interaction>): (Option<ToolResult>, string) {
    if number == 2 && interactions != [] then (Some(interactions[0].result), interactions[0].call.callId)
    else (None, "")
  }

  lemma AnswerEnding(w: World, g: Gateway, context: Context, route: Route, limits: Limits, number: nat,
                     interactions: seq<Interaction>, calls: map<string, Evidence>, observed: map<string, Citation>,
                     before: seq<Happening>, answer: FinalAnswer, outcome: Outcome<PublicResult>, event: Happening)
    requires Ready(w, g, context, route, limits, number, interactions, calls, observed, before)
    requires w.model(TurnOf(route, number, interactions)) == Answers(answer)
    requires !outcome.Raised? && event.AgentAudited? && event.reason != RouteNotCompleted && Told(outcome, event)
    requires var (call, callId) := CallBefore(number, interactions);
      && (outcome.Done? && outcome.value.Success? <==> MayAnswer(answer, route, call, callId, limits) && w.audit.Recorded?)
      && (outcome.Done? && outcome.value.Success? ==>
            event == AgentAudited(true, Completed, true) && Delivers(answer, call, outcome.value))
    ensures Ending(w, g, context, route, limits, outcome,
                   before + [Asked(TurnOf(route, number, interactions))] + [event])
    ensures outcome.Done? && outcome.value.Success? <==>
      GoesWell(w, g, context, route, limits, number, interactions) && w.audit.Recorded?
  {
    var turn := TurnOf(route, number, interactions);
    var asked := before + [Asked(turn)];
    ReadyTurnIsValid(w, g, context, route, limits, number, interactions, calls, observed, before);
    SafeAudited(w, g, context, route, asked, event);
    ReadyFacts(w, g, context, route, limits, number, interactions, calls, observed, before);
    var (call, callId) := CallBefore(number, interactions);
    if number == 2 {
      assert before[0] == Asked(TurnOf(route, 1, [])) && w.model(TurnOf(route, 1, [])) == Calls(interactions[0].call);
      assert CallSucceeded(w, g, context, route, interactions[0], before[1..]);
      hide *;
      assert interactions == [interactions[0]];
      FinalAnswered(w, g, context, route, limits, interactions[0], before, answer, outcome, event);
      NowSpeaks(w, g, context, route, limits, number, interactions);
    } else {
      assert before == [] && interactions == [];
      hide *;
      assert before + [Asked(turn)] + [event] == [Asked(turn), event];
      FirstAnswered(w, g, context, route, limits, answer, outcome, event);
      NowSpeaks(w, g, context, route, limits, number, interactions);
    }
  }

  lemma NowSpeaks(w: World, g: Gateway, context: Context, route: Route, limits: Limits, number: nat,
                  interactions: seq<Interaction>)
    requires TranscriptOk(w, interactions, limits)
    ensures number == 1 ==>
      (GoesWell(w, g, context, route, limits, number, interactions) <==> Cooperates(w, g, context, route, limits))
    ensures number != 1 && |interactions| == 1 ==>
      (GoesWell(w, g, context, route, limits, number, interactions) <==> Concludes(w, route, interactions[0], limits))
  {
    hide TranscriptOk, Cooperates, Concludes;
  }

  lemma FirstAnswered(w: World, g: Gateway, context: Context, route: Route, limits: Limits, answer: FinalAnswer,
                      outcome: Outcome<PublicResult>, event: Happening)
    requires !route.Inconsistent? && w.model(TurnOf(route, 1, [])) == Answers(answer) && event.AgentAudited? && Told(outcome, event)
    requires Safe(w, g, context, route, [Asked(TurnOf(route, 1, [])), event])
    requires outcome.Done? && outcome.value.Success? <==> MayAnswer(answer, route, None, "", limits) && w.audit.Recorded?
    requires outcome.Done? && outcome.value.Success? ==>
      event == AgentAudited(true, Completed, true) && Delivers(answer, None, outcome.value)
    ensures Ending(w, g, context, route, limits, outcome, [Asked(TurnOf(route, 1, [])), event])
    ensures outcome.Done? && outcome.value.Success? <==> Cooperates(w, g, context, route, limits) && w.audit.Recorded?
  {
    hide Safe, Delivers, Leads, Concludes;
    assert MayAnswer(answer, route, None, "", limits) ==> route.GeneralOnly?;
    hide MayAnswer;
  }

  lemma FinalAnswered(w: World, g: Gateway, context: Context, route: Route, limits: Limits, i: Interaction,
                      before: seq<Happening>, answer: FinalAnswer, outcome: Outcome<PublicResult>, event: Happening)
    requires route.ExactRead? && |before| == 3 && before[0] == Asked(TurnOf(route, 1, []))
    requires w.model(TurnOf(route, 1, [])) == Calls(i.call) && CallSucceeded(w, g, context, route, i, before[1..])
    requires w.model(TurnOf(route, 2, [i])) == Answers(answer) && event.AgentAudited? && Told(outcome, event)
    requires Safe(w, g, context, route, before + [Asked(TurnOf(route, 2, [i]))] + [event])
    requires outcome.Done? && outcome.value.Success? <==>
      MayAnswer(answer, route, Some(i.result), i.call.callId, limits) && w.audit.Recorded?
    requires outcome.Done? && outcome.value.Success? ==>
      event == AgentAudited(true, Completed, true) && Delivers(answer, Some(i.result), outcome.value)
    ensures Ending(w, g, context, route, limits, outcome, before + [Asked(TurnOf(route, 2, [i]))] + [event])
    ensures outcome.Done? && outcome.value.Success? <==> Concludes(w, route, i, limits) && w.audit.Recorded?
  {
    hide Safe, Delivers, MayAnswer, CallSucceeded;
    var s := before + [Asked(TurnOf(route, 2, [i]))] + [event];
    assert s[1..3] == before[1..];
  }

  /** Neither an answer nor a call: the run cannot go well. */
  lemma NothingSaid(w: World, g: Gateway, context: Context, route: Route, limits: Limits, number: nat,
                    interactions: seq<Interaction>)
    requires number in {1, 2} && !route.Inconsistent? && (number == 1 ==> interactions == [])
    requires number == 2 ==> route.ExactRead?
    requires var reply := w.model(TurnOf(route, number, interactions)); !reply.Answers? && !reply.Calls?
    ensures !GoesWell(w, g, context, route, limits, number, interactions)
  {
    hide TranscriptOk, MayAnswer, Leads;
    if number == 2 && |interactions| == 1 {
      assert interactions == [interactions[0]];
    }
  }

  /** A call lets the run go well only as its first step. */
  lemma CallGoesWell(w: World, g: Gateway, context: Context, route: Route, limits: Limits, number: nat,
                     interactions: seq<Interaction>, call: ToolCall)
    requires number in {1, 2} && !route.Inconsistent? && (number == 1 ==> interactions == [])
    requires number == 2 ==> route.ExactRead?
    requires TranscriptOk(w, interactions, limits)
    requires w.model(TurnOf(route, number, interactions)) == Calls(call)
    ensures GoesWell(w, g, context, route, limits, number, interactions) <==>
      && number == 1 && Leads(w, g, context, route, limits, call)
      && ReplyTo(w, call).Some?
      && Concludes(w, route, Interaction(call, call.callId, call.tool, ReplyTo(w, call).value), limits)
  {
    LeadsParts(w, g, context, route, limits, call);
    assert Leads(w, g, context, route, limits, call) ==> ReplyTo(w, call).Some?;
    hide TranscriptOk, MayAnswer, Leads, ReplyTo;
    if number == 2 {
      hide Cooperates;
      if |interactions| == 1 {
        assert interactions == [interactions[0]];
      }
    } else {
      hide Concludes;
    }
  }

  /** The result was taken in: what is left is the final turn. */
  lemma OneMoreTurn(w: World, g: Gateway, context: Context, route: Route, limits: Limits, i: Interaction)
    requires TranscriptOk(w, [i], limits)
    ensures GoesWell(w, g, context, route, limits, 2, [i]) <==> Concludes(w, route, i, limits)
  {
    hide TranscriptOk, Concludes;
  }

  lemma CallKeepsSafe(w: World, g: Gateway, context: Context, route: Route, limits: Limits, number: nat,
                      interactions: seq<Interaction>, calls: map<string, Evidence>, observed: map<string, Citation>,
                      before: seq<Happening>, tool: string, version: string, more: seq<Happening>)
    requires Ready(w, g, context, route, limits, number, interactions, calls, observed, before)
    requires CallEvents(g, context, tool, version, more)
    requires (exists h | h in more :: IsHandler(h)) ==> route == ExactRead(tool, version) && number == 1
    ensures Safe(w, g, context, route, before + [Asked(TurnOf(route, number, interactions))] + more)
  {
    var turn := TurnOf(route, number, interactions);
    ReadyTurnIsValid(w, g, context, route, limits, number, interactions, calls, observed, before);
    hide TurnOf, Remembers, TranscriptOk, CallSucceeded;
    var asked := before + [Asked(turn)];
    if number == 1 {
      assert asked == [Asked(turn)];
      hide Safe, CallEvents;
      SafeCall(w, g, context, route, asked, tool, version, more);
    } else {
      NoHandlerKeepsSafe(w, g, context, route, asked, tool, version, more);
    }
  }

  lemma NoHandlerKeepsSafe(w: World, g: Gateway, context: Context, route: Route, s: seq<Happening>, tool: string,
                           version: string, more: seq<Happening>)
    requires Safe(w, g, context, route, s) && CallEvents(g, context, tool, version, more)
    requires !exists h | h in more :: IsHandler(h)
    ensures Safe(w, g, context, route, s + more)
  {
    hide Permitted, TurnValid;
    var all := s + more;
    assert forall h :: h in all <==> h in s || h in more;
    forall i, j | 0 <= i < j < |all|
      ensures !(IsHandler(all[i]) && IsHandler(all[j]))
    {
      if j >= |s| {
        assert all[j] in more;
      }
    }
  }

  lemma CallEnding(w: World, g: Gateway, context: Context, route: Route, limits: Limits, s: seq<Happening>, more: seq<Happening>,
                   outcome: Outcome<PublicResult>)
    requires Safe(w, g, context, route, s) && |more| <= |s| && s[|s| - |more|..] == more
    requires outcome.Done? ==> outcome.value.Failure? && more != [] && Told(outcome, more[|more| - 1])
    ensures Ending(w, g, context, route, limits, outcome, s)
  {
    hide Safe;
  }

  lemma SecondTurn(w: World, g: Gateway, context: Context, route: Route, limits: Limits,
                   interactions: seq<Interaction>, calls: map<string, Evidence>, observed: map<string, Citation>,
                   before: seq<Happening>, interaction: Interaction, newCalls: map<string, Evidence>,
                   newObserved: map<string, Citation>, more: seq<Happening>)
    requires Ready(w, g, context, route, limits, 1, interactions, calls, observed, before)
    requires Safe(w, g, context, route, before + [Asked(TurnOf(route, 1, interactions))] + more)
    requires CallSucceeded(w, g, context, route, interaction, more) && TranscriptOk(w, [interaction], limits)
    requires w.model(TurnOf(route, 1, interactions)) == Calls(interaction.call)
    requires Remembers(Some(interaction.result), interaction.call.callId, newCalls, newObserved)
    ensures Ready(w, g, context, route, limits, 2, interactions + [interaction], newCalls, newObserved,
                  before + [Asked(TurnOf(route, 1, interactions))] + more)
  {
    hide Safe, Remembers, TranscriptOk, TurnOf, Permitted;
    var s := before + [Asked(TurnOf(route, 1, interactions))] + more;
    assert s[1..] == more && interactions + [interaction] == [interaction];
  }
}
