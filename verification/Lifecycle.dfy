/** Opening and closing a tree of resources whose every operation may fail. The leaves are
    connection pools and clients; `Resources` records which of them are open, and the fields of
    the routers and aggregates by their identities. */
module Lifecycle {
  import opened Wrappers

  /** An ordinary exception, a cancellation, or any other way out that only `except
      BaseException` sees. */
  datatype Kind = Error | Cancel | Fatal

  /** A pool whose opening fails may be left half open; a client opens completely or not at all. */
  datatype Fault = Fine | Fails(kind: Kind, dirty: bool)
  datatype Faults = Faults(opens: nat -> Fault, verifies: nat -> Fault, closes: nat -> Fault)

  datatype Node =
    | Client(leaf: nat)
    | AuditRouter(id: nat, pools: seq<nat>)
    | KnowledgeRouter(id: nat, pools: seq<nat>)
    | Laravel(client: nat, downstream: Node)
    | Aggregate(id: nat, resources: seq<Node>)

  datatype State = Created | Opening | Ready | Failed | Closed
  type States = map<nat, State>
  type Held = map<nat, seq<nat>>

  function StateOf(states: States, id: nat): State {
    if id in states then states[id] else Created
  }

  function HeldBy(held: Held, id: nat): seq<nat> {
    if id in held then held[id] else []
  }

  function Members(pools: seq<nat>): set<nat> {
    set i | 0 <= i < |pools| :: pools[i]
  }

  function Reversed(pools: seq<nat>): (r: seq<nat>)
    ensures |r| == |pools| && forall i | 0 <= i < |r| :: r[i] == pools[|pools| - 1 - i]
  {
    seq(|pools|, i requires 0 <= i < |pools| => pools[|pools| - 1 - i])
  }

  function Leaves(n: Node): set<nat> {
    match n
    case Client(l) => {l}
    case AuditRouter(_, pools) => Members(pools)
    case KnowledgeRouter(_, pools) => Members(pools)
    case Laravel(c, d) => {c} + Leaves(d)
    case Aggregate(_, rs) => AllLeaves(rs)
  }

  function AllLeaves(rs: seq<Node>): set<nat> {
    set i, l | 0 <= i < |rs| && l in Leaves(rs[i]) :: l
  }

  function Ids(n: Node): set<nat> {
    match n
    case Client(_) => {}
    case AuditRouter(id, _) => {id}
    case KnowledgeRouter(id, _) => {id}
    case Laravel(_, d) => Ids(d)
    case Aggregate(id, rs) => {id} + AllIds(rs)
  }

  function AllIds(rs: seq<Node>): set<nat> {
    set i, id | 0 <= i < |rs| && id in Ids(rs[i]) :: id
  }

  /** No leaf and no identity occurs twice in a tree. */
  ghost predicate Proper(n: Node) {
    match n
    case Client(_) => true
    case AuditRouter(_, pools) => forall i, j | 0 <= i < j < |pools| :: pools[i] != pools[j]
    case KnowledgeRouter(_, pools) => forall i, j | 0 <= i < j < |pools| :: pools[i] != pools[j]
    case Laravel(c, d) => Proper(d) && c !in Leaves(d)
    case Aggregate(id, rs) => AllProper(rs) && id !in AllIds(rs)
  }

  ghost predicate AllProper(rs: seq<Node>) {
    && (forall i | 0 <= i < |rs| :: Proper(rs[i]))
    && (forall i, j | 0 <= i < j < |rs| :: Leaves(rs[i]) !! Leaves(rs[j]) && Ids(rs[i]) !! Ids(rs[j]))
  }

  // --- what opening and closing amount to ----------------------------------------------------

  /** How opening and verifying pools one by one ends, and which of them are open then. */
  function OneByOne(f: Faults, pools: seq<nat>): (Option<Kind>, set<nat>) {
    if pools == [] then (None, {})
    else
      var p := pools[0];
      if f.opens(p).Fails? then (Some(f.opens(p).kind), if f.opens(p).dirty then {p} else {})
      else if f.verifies(p).Fails? then (Some(f.verifies(p).kind), {p})
      else var (k, s) := OneByOne(f, pools[1..]); (k, {p} + s)
  }

  /** The first pool that fails to open decides; verification begins when all are open. */
  function OpenAll(f: Faults, pools: seq<nat>): (Option<Kind>, set<nat>) {
    if pools == [] then (None, {})
    else
      var p := pools[0];
      if f.opens(p).Fails? then (Some(f.opens(p).kind), if f.opens(p).dirty then {p} else {})
      else var (k, s) := OpenAll(f, pools[1..]); (k, {p} + s)
  }

  function VerifyAll(f: Faults, pools: seq<nat>): Option<Kind> {
    if pools == [] then None
    else if f.verifies(pools[0]).Fails? then Some(f.verifies(pools[0]).kind)
    else VerifyAll(f, pools[1..])
  }

  function AllThenVerify(f: Faults, pools: seq<nat>): (Option<Kind>, set<nat>) {
    var (k, s) := OpenAll(f, pools);
    if k.Some? then (k, s) else (VerifyAll(f, pools), s)
  }

  /** The pools of a router that closing them in this order gets to: it stops at a failure. */
  function UpToFailure(f: Faults, pools: seq<nat>): seq<nat> {
    if pools == [] then []
    else if f.closes(pools[0]).Fails? then [pools[0]]
    else [pools[0]] + UpToFailure(f, pools[1..])
  }

  /** The leaves that closing a tree tries to close, in order. */
  function Attempts(f: Faults, held: Held, states: States, n: Node): seq<nat> {
    match n
    case Client(l) => [l]
    case AuditRouter(id, _) => UpToFailure(f, HeldBy(held, id))
    case KnowledgeRouter(id, _) =>
      if StateOf(states, id) == Closed then [] else UpToFailure(f, Reversed(HeldBy(held, id)))
    case Laravel(c, d) => Attempts(f, held, states, d) + [c]
    case Aggregate(id, rs) => if StateOf(states, id) == Closed then [] else AttemptsInTurn(f, held, states, rs)
  }

  /** The last resource is closed first, and every one of them is. */
  function AttemptsInTurn(f: Faults, held: Held, states: States, rs: seq<Node>): seq<nat> {
    if rs == [] then [] else AttemptsInTurn(f, held, states, rs[1..]) + Attempts(f, held, states, rs[0])
  }

  /** A cancellation outweighs errors; anything else ends as an error. */
  function Worse(a: Option<Kind>, b: Option<Kind>): Option<Kind> {
    if a == Some(Cancel) || b == Some(Cancel) then Some(Cancel)
    else if a.Some? || b.Some? then Some(Error) else None
  }

  /** How closing pools in this order ends. */
  function PoolsEnd(f: Faults, pools: seq<nat>): Option<Kind> {
    if pools == [] then None
    else if f.closes(pools[0]).Fails? then Some(f.closes(pools[0]).kind)
    else PoolsEnd(f, pools[1..])
  }

  /** How closing a tree ends. */
  function CloseEnd(f: Faults, held: Held, states: States, n: Node): Option<Kind> {
    match n
    case Client(l) => PoolsEnd(f, [l])
    case AuditRouter(id, _) => PoolsEnd(f, HeldBy(held, id))
    case KnowledgeRouter(id, _) =>
      if StateOf(states, id) == Closed then None else PoolsEnd(f, Reversed(HeldBy(held, id)))
    case Laravel(c, d) => Worse(CloseEnd(f, held, states, d), PoolsEnd(f, [c]))
    case Aggregate(id, rs) => if StateOf(states, id) == Closed then None else CloseEndInTurn(f, held, states, rs)
  }

  function CloseEndInTurn(f: Faults, held: Held, states: States, rs: seq<Node>): Option<Kind> {
    if rs == [] then None
    else Worse(CloseEndInTurn(f, held, states, rs[1..]), CloseEnd(f, held, states, rs[0]))
  }

  /** The leaves among the attempts that really close. */
  function Closes(f: Faults, attempts: seq<nat>): set<nat> {
    set i | 0 <= i < |attempts| && f.closes(attempts[i]).Fine? :: attempts[i]
  }

  /** The leaves that closing a tree that is up tries to close, in order. */
  function AttemptsUp(f: Faults, n: Node): seq<nat> {
    match n
    case Client(l) => [l]
    case AuditRouter(_, pools) => UpToFailure(f, pools)
    case KnowledgeRouter(_, pools) => UpToFailure(f, Reversed(pools))
    case Laravel(c, d) => AttemptsUp(f, d) + [c]
    case Aggregate(_, rs) => AttemptsUpInTurn(f, rs)
  }

  function AttemptsUpInTurn(f: Faults, rs: seq<Node>): seq<nat> {
    if rs == [] then [] else AttemptsUpInTurn(f, rs[1..]) + AttemptsUp(f, rs[0])
  }

  /** What closing a tree that is up leaves open. */
  function Left(f: Faults, n: Node): set<nat> {
    Leaves(n) - Closes(f, AttemptsUp(f, n))
  }

  /** How many pools exist when opening and verifying one by one ends. */
  function Made(f: Faults, pools: seq<nat>): (n: nat)
    ensures n <= |pools|
  {
    if pools == [] then 0
    else if f.opens(pools[0]).Fails? || f.verifies(pools[0]).Fails? then 1
    else 1 + Made(f, pools[1..])
  }

  /** A router closes its pools after an exception or a cancellation, but not after anything else;
      a failing close ends that, and is what the caller sees. */
  function CleanedUp(f: Faults, run: (Option<Kind>, set<nat>), pools: seq<nat>): (Option<Kind>, set<nat>) {
    if run.0.None? || run.0 == Some(Fatal) then run
    else (if PoolsEnd(f, pools).Some? then PoolsEnd(f, pools) else run.0, run.1 - Closes(f, UpToFailure(f, pools)))
  }

  /** How opening a fresh tree ends, and which leaves it leaves open. */
  function Opened(f: Faults, n: Node): (Option<Kind>, set<nat>) {
    match n
    case Client(l) => if f.opens(l).Fails? then (Some(f.opens(l).kind), {}) else (None, {l})
    case AuditRouter(_, pools) => CleanedUp(f, AllThenVerify(f, pools), pools)
    case KnowledgeRouter(_, pools) => CleanedUp(f, OneByOne(f, pools), Reversed(pools[..Made(f, pools)]))
    case Laravel(c, d) =>
      if f.opens(c).Fails? then (Some(f.opens(c).kind), {})
      else
        var (k, s) := Opened(f, d);
        if k.Some? then (k, s + if f.closes(c).Fails? then {c} else {}) else (None, {c} + s)
    case Aggregate(_, rs) => OpenedInTurn(f, rs)
  }

  /** Resources before the one that fails are closed again, as far as that goes. */
  function OpenedInTurn(f: Faults, rs: seq<Node>): (Option<Kind>, set<nat>) {
    if rs == [] then (None, {})
    else
      var (k, s) := Opened(f, rs[0]);
      if k.Some? then (k, s)
      else
        var (k2, s2) := OpenedInTurn(f, rs[1..]);
        if k2.Some? then (k2, s2 + Left(f, rs[0])) else (None, s + s2)
  }

  ghost predicate ClosesNeverFail(f: Faults) {
    forall l :: f.closes(l).Fine?
  }

  /** Nothing in the tree has been opened yet. */
  ghost predicate Fresh(held: Held, states: States, n: Node) {
    forall id | id in Ids(n) :: id !in held && StateOf(states, id) == Created
  }

  ghost predicate AllFresh(held: Held, states: States, rs: seq<Node>) {
    forall id | id in AllIds(rs) :: id !in held && StateOf(states, id) == Created
  }

  /** Only identities in `ids` have changed. */
  ghost predicate Elsewhere(held: Held, states: States, held': Held, states': States, ids: set<nat>) {
    forall id | id !in ids ::
      (id in held <==> id in held') && (id in held ==> held'[id] == held[id])
      && StateOf(states', id) == StateOf(states, id)
  }

  // --- how closing ends ----------------------------------------------------------------------

  /** Some attempt fails in this way. */
  ghost predicate FailsAs(f: Faults, attempts: seq<nat>, kind: Kind) {
    exists l | l in attempts :: f.closes(l).Fails? && f.closes(l).kind == kind
  }

  ghost predicate AllFine(f: Faults, attempts: seq<nat>) {
    forall l | l in attempts :: f.closes(l).Fine?
  }

  /** How a chain of closes ends that goes on after a failure: as a cancellation when any attempt was
      cancelled, else as an error when any failed. */
  ghost predicate EndsAsWorst(f: Faults, attempts: seq<nat>, end: Option<Kind>) {
    && (end.None? <==> AllFine(f, attempts))
    && (end == Some(Cancel) <==> FailsAs(f, attempts, Cancel))
  }

  lemma WorstOfBoth(f: Faults, a: seq<nat>, x: Option<Kind>, b: seq<nat>, y: Option<Kind>)
    requires EndsAsWorst(f, a, x) && EndsAsWorst(f, b, y)
    ensures EndsAsWorst(f, a + b, Worse(x, y)) && Worse(x, y) != Some(Fatal)
  {
    assert forall l :: l in a + b <==> l in a || l in b;
  }

  lemma {:induction false} PoolsEndAs(f: Faults, pools: seq<nat>)
    ensures EndsAsWorst(f, UpToFailure(f, pools), PoolsEnd(f, pools))
  {
    if pools != [] && f.closes(pools[0]).Fine? {
      PoolsEndAs(f, pools[1..]);
      var rest := UpToFailure(f, pools[1..]);
      assert forall l :: l in [pools[0]] + rest <==> l == pools[0] || l in rest;
    } else if pools != [] {
      assert pools[0] in UpToFailure(f, pools);
    }
  }

  /** Closing a tree raises nothing exactly when every attempt that is made succeeds, and a
      cancellation exactly when one of them is cancelled. */
  lemma {:induction false} ClosingEnds(f: Faults, held: Held, states: States, n: Node)
    ensures EndsAsWorst(f, Attempts(f, held, states, n), CloseEnd(f, held, states, n))
    ensures n.Laravel? || n.Aggregate? ==> CloseEnd(f, held, states, n) != Some(Fatal)
    decreases n, 0
  {
    match n
    case Client(l) =>
      PoolsEndAs(f, [l]);
      assert UpToFailure(f, [l]) == [l];
    case AuditRouter(id, _) => PoolsEndAs(f, HeldBy(held, id));
    case KnowledgeRouter(id, _) => PoolsEndAs(f, Reversed(HeldBy(held, id)));
    case Laravel(c, d) =>
      ClosingEnds(f, held, states, d);
      PoolsEndAs(f, [c]);
      assert UpToFailure(f, [c]) == [c];
      WorstOfBoth(f, Attempts(f, held, states, d), CloseEnd(f, held, states, d), [c], PoolsEnd(f, [c]));
    case Aggregate(id, rs) => ClosingInTurnEnds(f, held, states, rs);
  }

  lemma {:induction false} ClosingInTurnEnds(f: Faults, held: Held, states: States, rs: seq<Node>)
    ensures EndsAsWorst(f, AttemptsInTurn(f, held, states, rs), CloseEndInTurn(f, held, states, rs))
    ensures CloseEndInTurn(f, held, states, rs) != Some(Fatal)
    decreases rs, 1
  {
    if rs != [] {
      ClosingEnds(f, held, states, rs[0]);
      ClosingInTurnEnds(f, held, states, rs[1..]);
      WorstOfBoth(f, AttemptsInTurn(f, held, states, rs[1..]), CloseEndInTurn(f, held, states, rs[1..]),
                  Attempts(f, held, states, rs[0]), CloseEnd(f, held, states, rs[0]));
    }
  }

  // --- frames --------------------------------------------------------------------------------

  lemma {:induction false} SameAttempts(f: Faults, held: Held, states: States, held': Held, states': States, n: Node,
                                        ids: set<nat>)
    requires Elsewhere(held, states, held', states', ids) && Ids(n) !! ids
    ensures Attempts(f, held', states', n) == Attempts(f, held, states, n)
    ensures CloseEnd(f, held', states', n) == CloseEnd(f, held, states, n)
    decreases n
  {
    match n
    case Client(_) =>
    case AuditRouter(id, _) => assert id in Ids(n);
    case KnowledgeRouter(id, _) => assert id in Ids(n);
    case Laravel(_, d) => SameAttempts(f, held, states, held', states', d, ids);
    case Aggregate(id, rs) =>
      assert id in Ids(n);
      SameAttemptsInTurn(f, held, states, held', states', rs, ids);
  }

  lemma {:induction false} SameAttemptsInTurn(f: Faults, held: Held, states: States, held': Held, states': States,
                                              rs: seq<Node>, ids: set<nat>)
    requires Elsewhere(held, states, held', states', ids) && AllIds(rs) !! ids
    ensures AttemptsInTurn(f, held', states', rs) == AttemptsInTurn(f, held, states, rs)
    ensures CloseEndInTurn(f, held', states', rs) == CloseEndInTurn(f, held, states, rs)
    decreases rs
  {
    if rs != [] {
      SameAttempts(f, held, states, held', states', rs[0], ids);
      SameAttemptsInTurn(f, held, states, held', states', rs[1..], ids);
    }
  }

  lemma ElsewhereChain(a: Held, s: States, b: Held, t: States, c: Held, u: States, x: set<nat>, y: set<nat>)
    requires Elsewhere(a, s, b, t, x) && Elsewhere(b, t, c, u, y)
    ensures Elsewhere(a, s, c, u, x + y)
  {
  }

  lemma ElsewhereMore(a: Held, s: States, b: Held, t: States, x: set<nat>, y: set<nat>)
    requires Elsewhere(a, s, b, t, x) && x <= y
    ensures Elsewhere(a, s, b, t, y)
  {
  }

  // --- attempts and leaves -------------------------------------------------------------------

  /** Held pools belong to their router. */
  ghost predicate HoldsOwn(held: Held, n: Node) {
    match n
    case Client(_) => true
    case AuditRouter(id, pools) => HeldBy(held, id) in {[], pools}
    case KnowledgeRouter(id, pools) => HeldBy(held, id) in {[], pools}
    case Laravel(_, d) => HoldsOwn(held, d)
    case Aggregate(_, rs) => AllHoldOwn(held, rs)
  }

  ghost predicate AllHoldOwn(held: Held, rs: seq<Node>) {
    forall i | 0 <= i < |rs| :: HoldsOwn(held, rs[i])
  }

  lemma {:induction false} UpToFailureMembers(f: Faults, pools: seq<nat>)
    ensures Members(UpToFailure(f, pools)) <= Members(pools)
    ensures ClosesNeverFail(f) ==> UpToFailure(f, pools) == pools
  {
    if pools != [] {
      UpToFailureMembers(f, pools[1..]);
      assert forall i | 0 <= i < |pools[1..]| :: pools[1..][i] == pools[i + 1];
      assert Members(pools) == {pools[0]} + Members(pools[1..]) by {
        assert forall i | 1 <= i < |pools| :: pools[i] == pools[1..][i - 1];
      }
      assert ClosesNeverFail(f) ==> [pools[0]] + pools[1..] == pools;
      MembersConcat([pools[0]], UpToFailure(f, pools[1..]));
    }
  }

  lemma MembersConcat(a: seq<nat>, b: seq<nat>)
    ensures Members(a + b) == Members(a) + Members(b)
  {
    var s := a + b;
    assert forall i | 0 <= i < |a| :: s[i] == a[i];
    assert forall i | 0 <= i < |b| :: s[|a| + i] == b[i];
    forall x
      ensures x in Members(s) <==> x in Members(a) || x in Members(b)
    {
      if x in Members(a) {
        var i :| 0 <= i < |a| && a[i] == x;
        assert s[i] == x;
      }
      if x in Members(b) {
        var i :| 0 <= i < |b| && b[i] == x;
        assert s[|a| + i] == x;
      }
    }
  }

  lemma MembersPrefix(pools: seq<nat>, n: nat)
    requires n <= |pools|
    ensures Members(pools[..n]) <= Members(pools)
  {
  }

  lemma MembersReversed(pools: seq<nat>)
    ensures Members(Reversed(pools)) == Members(pools)
  {
    var r := Reversed(pools);
    forall x
      ensures x in Members(r) <==> x in Members(pools)
    {
      if i :| 0 <= i < |pools| && pools[i] == x {
        assert r[|pools| - 1 - i] == x;
      }
    }
  }

  lemma {:induction false} AttemptsAreLeaves(f: Faults, held: Held, states: States, n: Node)
    requires HoldsOwn(held, n)
    ensures Members(Attempts(f, held, states, n)) <= Leaves(n)
    decreases n
  {
    match n
    case Client(_) =>
    case AuditRouter(id, pools) => UpToFailureMembers(f, HeldBy(held, id));
    case KnowledgeRouter(id, pools) =>
      UpToFailureMembers(f, Reversed(HeldBy(held, id)));
      MembersReversed(HeldBy(held, id));
    case Laravel(c, d) =>
      AttemptsAreLeaves(f, held, states, d);
      MembersConcat(Attempts(f, held, states, d), [c]);
    case Aggregate(_, rs) => AttemptsInTurnAreLeaves(f, held, states, rs);
  }

  lemma {:induction false} AttemptsInTurnAreLeaves(f: Faults, held: Held, states: States, rs: seq<Node>)
    requires AllHoldOwn(held, rs)
    ensures Members(AttemptsInTurn(f, held, states, rs)) <= AllLeaves(rs)
    decreases rs
  {
    if rs != [] {
      AttemptsAreLeaves(f, held, states, rs[0]);
      AttemptsInTurnAreLeaves(f, held, states, rs[1..]);
      MembersConcat(AttemptsInTurn(f, held, states, rs[1..]), Attempts(f, held, states, rs[0]));
    }
  }

  lemma ClosesConcat(f: Faults, a: seq<nat>, b: seq<nat>)
    ensures Closes(f, a + b) == Closes(f, a) + Closes(f, b)
  {
    var s := a + b;
    assert forall i | 0 <= i < |a| :: s[i] == a[i];
    assert forall i | 0 <= i < |b| :: s[|a| + i] == b[i];
    forall x
      ensures x in Closes(f, s) <==> x in Closes(f, a) || x in Closes(f, b)
    {
      if i :| 0 <= i < |a| && a[i] == x && f.closes(x).Fine? {
        assert s[i] == x;
      }
      if i :| 0 <= i < |b| && b[i] == x && f.closes(x).Fine? {
        assert s[|a| + i] == x;
      }
    }
  }

  lemma ClosesOne(f: Faults, l: nat)
    ensures Closes(f, []) == {}
    ensures Closes(f, [l]) == if f.closes(l).Fine? then {l} else {}
  {
    assert [l][0] == l;
  }

  lemma ClosesAll(f: Faults, attempts: seq<nat>)
    requires ClosesNeverFail(f)
    ensures Closes(f, attempts) == Members(attempts)
  {
  }

  // --- trees that are up ---------------------------------------------------------------------

  /** Everything in the tree was opened and not closed since. */
  ghost predicate Up(held: Held, states: States, n: Node) {
    match n
    case Client(_) => true
    case AuditRouter(id, pools) => HeldBy(held, id) == pools && StateOf(states, id) == Ready
    case KnowledgeRouter(id, pools) => HeldBy(held, id) == pools && StateOf(states, id) == Ready
    case Laravel(_, d) => Up(held, states, d)
    case Aggregate(id, rs) => StateOf(states, id) == Ready && AllUp(held, states, rs)
  }

  ghost predicate AllUp(held: Held, states: States, rs: seq<Node>) {
    forall i | 0 <= i < |rs| :: Up(held, states, rs[i])
  }

  lemma {:induction false} StaysUp(held: Held, states: States, held': Held, states': States, n: Node, ids: set<nat>)
    requires Up(held, states, n) && Elsewhere(held, states, held', states', ids) && Ids(n) !! ids
    ensures Up(held', states', n)
    decreases n
  {
    match n
    case Client(_) =>
    case AuditRouter(id, _) => assert id in Ids(n);
    case KnowledgeRouter(id, _) => assert id in Ids(n);
    case Laravel(_, d) => StaysUp(held, states, held', states', d, ids);
    case Aggregate(id, rs) =>
      assert id in Ids(n);
      forall i | 0 <= i < |rs|
        ensures Up(held', states', rs[i])
      {
        assert Ids(rs[i]) <= Ids(n);
        StaysUp(held, states, held', states', rs[i], ids);
      }
  }

  lemma {:induction false} StaysOwn(held: Held, states: States, held': Held, states': States, n: Node, ids: set<nat>)
    requires HoldsOwn(held, n) && Elsewhere(held, states, held', states', ids) && Ids(n) !! ids
    ensures HoldsOwn(held', n)
    decreases n
  {
    match n
    case Client(_) =>
    case AuditRouter(id, _) => assert id in Ids(n);
    case KnowledgeRouter(id, _) => assert id in Ids(n);
    case Laravel(_, d) => StaysOwn(held, states, held', states', d, ids);
    case Aggregate(id, rs) =>
      forall i | 0 <= i < |rs|
        ensures HoldsOwn(held', rs[i])
      {
        assert Ids(rs[i]) <= Ids(n);
        StaysOwn(held, states, held', states', rs[i], ids);
      }
  }

  /** What closing a tree that is up tries does not depend on the rest of the state. */
  lemma {:induction false} UpAttempts(f: Faults, held: Held, states: States, n: Node)
    requires Up(held, states, n)
    ensures Attempts(f, held, states, n) == AttemptsUp(f, n)
    decreases n
  {
    match n
    case Client(_) =>
    case AuditRouter(_, _) =>
    case KnowledgeRouter(_, _) =>
    case Laravel(_, d) => UpAttempts(f, held, states, d);
    case Aggregate(_, rs) => UpAttemptsInTurn(f, held, states, rs);
  }

  lemma {:induction false} UpAttemptsInTurn(f: Faults, held: Held, states: States, rs: seq<Node>)
    requires AllUp(held, states, rs)
    ensures AttemptsInTurn(f, held, states, rs) == AttemptsUpInTurn(f, rs)
    decreases rs
  {
    if rs != [] {
      UpAttempts(f, held, states, rs[0]);
      UpAttemptsInTurn(f, held, states, rs[1..]);
    }
  }

  lemma {:induction false} ClosesUpAreLeaves(f: Faults, n: Node)
    ensures Closes(f, AttemptsUp(f, n)) <= Leaves(n)
    ensures ClosesNeverFail(f) ==> Closes(f, AttemptsUp(f, n)) == Leaves(n)
    decreases n
  {
    match n
    case Client(l) => ClosesOne(f, l);
    case AuditRouter(id, pools) => ClosesWithin(f, pools);
    case KnowledgeRouter(id, pools) =>
      ClosesWithin(f, Reversed(pools));
      MembersReversed(pools);
    case Laravel(c, d) =>
      ClosesOne(f, c);
      ClosesUpAreLeaves(f, d);
      ClosesConcat(f, AttemptsUp(f, d), [c]);
    case Aggregate(_, rs) => ClosesUpInTurnAreLeaves(f, rs);
  }

  lemma {:induction false} ClosesUpInTurnAreLeaves(f: Faults, rs: seq<Node>)
    ensures Closes(f, AttemptsUpInTurn(f, rs)) <= AllLeaves(rs)
    ensures ClosesNeverFail(f) ==> Closes(f, AttemptsUpInTurn(f, rs)) == AllLeaves(rs)
    decreases rs
  {
    if rs != [] {
      ClosesUpAreLeaves(f, rs[0]);
      ClosesUpInTurnAreLeaves(f, rs[1..]);
      ClosesConcat(f, AttemptsUpInTurn(f, rs[1..]), AttemptsUp(f, rs[0]));
      LeavesCons(rs);
    }
  }

  lemma ClosesWithin(f: Faults, pools: seq<nat>)
    ensures Closes(f, UpToFailure(f, pools)) <= Members(pools)
    ensures ClosesNeverFail(f) ==> Closes(f, UpToFailure(f, pools)) == Members(pools)
  {
    UpToFailureMembers(f, pools);
    if ClosesNeverFail(f) {
      ClosesAll(f, pools);
    }
  }

  /** When closing never fails, closing a tree that is up closes every leaf of it. */
  lemma UpCloses(f: Faults, held: Held, states: States, n: Node)
    requires ClosesNeverFail(f) && Up(held, states, n)
    ensures Closes(f, Attempts(f, held, states, n)) == Leaves(n) && Left(f, n) == {}
  {
    UpAttempts(f, held, states, n);
    ClosesUpAreLeaves(f, n);
  }

  lemma UpClosesInTurn(f: Faults, held: Held, states: States, rs: seq<Node>)
    requires ClosesNeverFail(f) && AllUp(held, states, rs)
    ensures Closes(f, AttemptsInTurn(f, held, states, rs)) == AllLeaves(rs)
  {
    UpAttemptsInTurn(f, held, states, rs);
    ClosesUpInTurnAreLeaves(f, rs);
  }

  lemma LeavesCons(rs: seq<Node>)
    requires rs != []
    ensures AllLeaves(rs) == Leaves(rs[0]) + AllLeaves(rs[1..])
  {
    assert forall i | 1 <= i < |rs| :: rs[i] == rs[1..][i - 1];
  }

  lemma NextPool(f: Faults, pools: seq<nat>, i: nat)
    requires i < |pools|
    ensures pools[..i] + [pools[i]] == pools[..i + 1]
    ensures Closes(f, pools[..i + 1]) == Closes(f, pools[..i]) + Closes(f, [pools[i]])
    ensures UpToFailure(f, pools[i..]) ==
      if f.closes(pools[i]).Fails? then [pools[i]] else [pools[i]] + UpToFailure(f, pools[i + 1..])
    ensures pools[..i] + ([pools[i]] + UpToFailure(f, pools[i + 1..])) == pools[..i + 1] + UpToFailure(f, pools[i + 1..])
    ensures PoolsEnd(f, pools[i..]) ==
      if f.closes(pools[i]).Fails? then Some(f.closes(pools[i]).kind) else PoolsEnd(f, pools[i + 1..])
  {
    assert pools[i..][1..] == pools[i + 1..] && pools[..i + 1] == pools[..i] + [pools[i]];
    ClosesConcat(f, pools[..i], [pools[i]]);
  }

  lemma NotAllClose(f: Faults, l: nat)
    requires f.closes(l).Fails?
    ensures !ClosesNeverFail(f)
  {
  }

  lemma NoPools(f: Faults)
    ensures UpToFailure(f, []) == [] && PoolsEnd(f, []) == None
  {
  }

  lemma NextToClose(f: Faults, held: Held, states: States, rs: seq<Node>, i: nat)
    requires i < |rs|
    ensures var later := AttemptsInTurn(f, held, states, rs[i + 1..]);
      && AttemptsInTurn(f, held, states, rs[i..]) == later + Attempts(f, held, states, rs[i])
      && Closes(f, AttemptsInTurn(f, held, states, rs[i..]))
         == Closes(f, later) + Closes(f, Attempts(f, held, states, rs[i]))
      && CloseEndInTurn(f, held, states, rs[i..])
         == Worse(CloseEndInTurn(f, held, states, rs[i + 1..]), CloseEnd(f, held, states, rs[i]))
  {
    assert rs[i..][0] == rs[i] && rs[i..][1..] == rs[i + 1..];
    ClosesConcat(f, AttemptsInTurn(f, held, states, rs[i + 1..]), Attempts(f, held, states, rs[i]));
  }

  lemma NoneToClose(f: Faults, held: Held, states: States)
    ensures AttemptsInTurn(f, held, states, []) == [] && Closes(f, []) == {} && AllIds([]) == {}
    ensures CloseEndInTurn(f, held, states, []) == None && NoMoreInTurn(f, held, states, held, states, [])
  {
  }

  /** Closing the tree once more would close nothing that the first time did not. */
  ghost predicate NoMoreToClose(f: Faults, held: Held, states: States, held': Held, states': States, n: Node) {
    Closes(f, Attempts(f, held', states', n)) <= Closes(f, Attempts(f, held, states, n))
  }

  ghost predicate NoMoreInTurn(f: Faults, held: Held, states: States, held': Held, states': States, rs: seq<Node>) {
    Closes(f, AttemptsInTurn(f, held', states', rs)) <= Closes(f, AttemptsInTurn(f, held, states, rs))
  }

  lemma NoMoreNext(f: Faults, a: Held, s: States, b: Held, t: States, c: Held, u: States, rs: seq<Node>, i: nat)
    requires AllProper(rs) && i < |rs| && NoMoreInTurn(f, a, s, b, t, rs[i + 1..])
    requires NoMoreToClose(f, b, t, c, u, rs[i]) && Attempts(f, b, t, rs[i]) == Attempts(f, a, s, rs[i])
    requires Elsewhere(b, t, c, u, Ids(rs[i]))
    ensures NoMoreInTurn(f, a, s, c, u, rs[i..])
  {
    ApartFromLater(rs, i);
    hide Attempts, AttemptsInTurn, Ids, AllIds, Elsewhere, Closes, AllProper;
    SameAttemptsInTurn(f, b, t, c, u, rs[i + 1..], Ids(rs[i]));
    NextToClose(f, a, s, rs, i);
    NextToClose(f, c, u, rs, i);
  }

  lemma OneOf(held: Held, rs: seq<Node>, i: nat)
    requires AllProper(rs) && AllHoldOwn(held, rs) && i < |rs|
    ensures Proper(rs[i]) && HoldsOwn(held, rs[i])
  {
  }

  // --- the machine ---------------------------------------------------------------------------

  class Resources {
    const f: Faults
    var open: set<nat>
    var log: seq<nat>
    var held: Held
    var states: States

    constructor (f: Faults)
      ensures this.f == f && open == {} && log == [] && held == map[] && states == map[]
    {
      this.f, open, log, held, states := f, {}, [], map[], map[];
    }

    method OpenLeaf(l: nat, client: bool) returns (failed: Option<Kind>)
      modifies this`open
      ensures failed == if f.opens(l).Fails? then Some(f.opens(l).kind) else None
      ensures open == old(open) + if f.opens(l).Fine? || (f.opens(l).dirty && !client) then {l} else {}
    {
      match f.opens(l) {
        case Fine =>
          open := open + {l};
          failed := None;
        case Fails(kind, dirty) =>
          if dirty && !client {
            open := open + {l};
          }
          failed := Some(kind);
      }
    }

    method CloseLeaf(l: nat) returns (failed: Option<Kind>)
      modifies this`open, this`log
      ensures log == old(log) + [l]
      ensures failed == PoolsEnd(f, [l]) == if f.closes(l).Fails? then Some(f.closes(l).kind) else None
      ensures open == old(open) - Closes(f, [l])
    {
      ClosesOne(f, l);
      NoPools(f);
      assert [l][1..] == [];
      log := log + [l];
      match f.closes(l) {
        case Fine =>
          open := open - {l};
          failed := None;
        case Fails(kind, _) => failed := Some(kind);
      }
    }

    /** Close pools one after another; the first failure ends it. */
    method ClosePools(pools: seq<nat>) returns (failed: Option<Kind>)
      modifies this`open, this`log
      ensures log == old(log) + UpToFailure(f, pools)
      ensures open == old(open) - Closes(f, UpToFailure(f, pools))
      ensures failed == PoolsEnd(f, pools)
      ensures ClosesNeverFail(f) ==> failed.None? && open == old(open) - Members(pools)
    {
      ClosesOne(f, 0);
      assert pools[0..] == pools;
      hide *;
      for i := 0 to |pools|
        invariant log == old(log) + pools[..i]
        invariant open == old(open) - Closes(f, pools[..i])
        invariant UpToFailure(f, pools) == pools[..i] + UpToFailure(f, pools[i..])
        invariant PoolsEnd(f, pools) == PoolsEnd(f, pools[i..])
      {
        NextPool(f, pools, i);
        failed := CloseLeaf(pools[i]);
        if failed.Some? {
          NotAllClose(f, pools[i]);
          assert UpToFailure(f, pools) == pools[..i + 1];
          return;
        }
      }
      assert pools[..|pools|] == pools && pools[|pools|..] == [];
      NoPools(f);
      assert UpToFailure(f, pools) == pools;
      if ClosesNeverFail(f) {
        ClosesAll(f, pools);
      }
      failed := None;
    }

    // --- closing -----------------------------------------------------------------------------

    method CloseAuditRouter(id: nat) returns (failed: Option<Kind>)
      modifies this
      ensures log == old(log) + UpToFailure(f, HeldBy(old(held), id))
      ensures open == old(open) - Closes(f, UpToFailure(f, HeldBy(old(held), id)))
      ensures failed == PoolsEnd(f, HeldBy(old(held), id))
      ensures Elsewhere(old(held), old(states), held, states, {id}) && HeldBy(held, id) in {[], HeldBy(old(held), id)}
      ensures failed.None? ==> HeldBy(held, id) == []
      ensures failed.Some? ==> HeldBy(held, id) == HeldBy(old(held), id)
    {
      failed := ClosePools(HeldBy(held, id));
      if failed.None? {
        held, states := held - {id}, states[id := Created];
      }
    }

    method CloseKnowledgeRouter(id: nat) returns (failed: Option<Kind>)
      modifies this
      ensures var attempts := if StateOf(old(states), id) == Closed then []
                              else UpToFailure(f, Reversed(HeldBy(old(held), id)));
        log == old(log) + attempts && open == old(open) - Closes(f, attempts)
      ensures failed == if StateOf(old(states), id) == Closed then None
                        else PoolsEnd(f, Reversed(HeldBy(old(held), id)))
      ensures Elsewhere(old(held), old(states), held, states, {id}) && HeldBy(held, id) in {[], HeldBy(old(held), id)}
      ensures StateOf(states, id) == Closed
    {
      ClosesOne(f, 0);
      if StateOf(states, id) == Closed {
        return None;
      }
      var pools := HeldBy(held, id);
      held := held - {id};
      failed := ClosePools(Reversed(pools));
      states := states[id := Closed];
    }

    /** Close a tree: every attempt that its parts promise is made, whatever fails on the way. */
    method Close(n: Node) returns (failed: Option<Kind>)
      requires Proper(n) && HoldsOwn(held, n)
      modifies this
      ensures log == old(log) + Attempts(f, old(held), old(states), n)
      ensures open == old(open) - Closes(f, Attempts(f, old(held), old(states), n))
      ensures failed == CloseEnd(f, old(held), old(states), n)
      ensures EndsAsWorst(f, Attempts(f, old(held), old(states), n), failed)
      ensures Elsewhere(old(held), old(states), held, states, Ids(n)) && HoldsOwn(held, n)
      ensures NoMoreToClose(f, old(held), old(states), held, states, n)
      decreases n, 0
    {
      NoPools(f);
      ClosesOne(f, 0);
      hide EndsAsWorst;
      ClosingEnds(f, held, states, n);
      match n {
        case Client(l) => failed := CloseLeaf(l);
        case AuditRouter(id, _) => failed := CloseAuditRouter(id);
        case KnowledgeRouter(id, _) => failed := CloseKnowledgeRouter(id);
        case Laravel(c, d) =>
          var first := Close(d);
          var second := CloseLeaf(c);
          ClosesConcat(f, Attempts(f, old(held), old(states), d), [c]);
          ClosesConcat(f, Attempts(f, held, states, d), [c]);
          failed := Worse(first, second);
        case Aggregate(id, rs) =>
          if StateOf(states, id) == Closed {
            return None;
          }
          failed := CloseInTurn(rs);
          ghost var statesBefore := states;
          states := states[id := if failed.None? then Closed else Failed];
          assert Elsewhere(held, statesBefore, held, states, {id});
          SameAttemptsInTurn(f, held, statesBefore, held, states, rs, {id});
      }
    }

    /** The last resource first; a failure is remembered and the others are still closed. */
    method CloseInTurn(rs: seq<Node>) returns (failed: Option<Kind>)
      requires AllProper(rs) && AllHoldOwn(held, rs)
      modifies this
      ensures log == old(log) + AttemptsInTurn(f, old(held), old(states), rs)
      ensures open == old(open) - Closes(f, AttemptsInTurn(f, old(held), old(states), rs))
      ensures failed == CloseEndInTurn(f, old(held), old(states), rs)
      ensures EndsAsWorst(f, AttemptsInTurn(f, old(held), old(states), rs), failed) && failed != Some(Fatal)
      ensures Elsewhere(old(held), old(states), held, states, AllIds(rs)) && AllHoldOwn(held, rs)
      ensures NoMoreInTurn(f, old(held), old(states), held, states, rs)
      decreases rs, 1
    {
      failed := None;
      NoneToClose(f, held, states);
      assert rs[|rs|..] == [];
      ElsewhereSelf(held, states);
      hide *;
      var i := |rs|;
      while i > 0
        invariant 0 <= i <= |rs|
        invariant log == old(log) + AttemptsInTurn(f, old(held), old(states), rs[i..])
        invariant open == old(open) - Closes(f, AttemptsInTurn(f, old(held), old(states), rs[i..]))
        invariant failed == CloseEndInTurn(f, old(held), old(states), rs[i..])
        invariant Elsewhere(old(held), old(states), held, states, AllIds(rs[i..]))
        invariant AllHoldOwn(held, rs) && NoMoreInTurn(f, old(held), old(states), held, states, rs[i..])
      {
        i := i - 1;
        OneOf(held, rs, i);
        ApartFromLater(rs, i);
        SameAttempts(f, old(held), old(states), held, states, rs[i], AllIds(rs[i + 1..]));
        ghost var heldBefore, statesBefore := held, states;
        var one := Close(rs[i]);
        NextToClose(f, old(held), old(states), rs, i);
        ElsewhereChain(old(held), old(states), heldBefore, statesBefore, held, states, AllIds(rs[i + 1..]), Ids(rs[i]));
        ElsewhereMore(old(held), old(states), held, states, AllIds(rs[i + 1..]) + Ids(rs[i]), AllIds(rs[i..]));
        OthersStayOwn(heldBefore, statesBefore, held, states, rs, i);
        NoMoreNext(f, old(held), old(states), heldBefore, statesBefore, held, states, rs, i);
        failed := Worse(failed, one);
      }
      assert rs[0..] == rs;
      ClosingInTurnEnds(f, old(held), old(states), rs);
    }

    // --- opening -----------------------------------------------------------------------------

    /** Nothing of the tree is open or was ever opened. */
    ghost predicate Startable(n: Node)
      reads this
    {
      Fresh(held, states, n) && Leaves(n) !! open
    }

    method OpenKnowledgeRouter(id: nat, pools: seq<nat>) returns (failed: Option<Kind>)
      modifies this
      ensures Elsewhere(old(held), old(states), held, states, {id})
      ensures HeldBy(held, id) in {HeldBy(old(held), id), pools}
      ensures old(Startable(KnowledgeRouter(id, pools))) ==>
        && failed == Opened(f, KnowledgeRouter(id, pools)).0
        && open == old(open) + Opened(f, KnowledgeRouter(id, pools)).1
        && (if failed.None? then Up(held, states, KnowledgeRouter(id, pools)) else HeldBy(held, id) == [])
    {
      StartableRouter(id, pools, true);
      if StateOf(states, id) == Ready {
        return None;
      }
      if StateOf(states, id) != Created {
        return Some(Error);
      }
      states := states[id := Opening];
      var made: nat;
      failed, made := OpenOneByOne(pools);
      if failed == Some(Fatal) {
        return;
      }
      if failed.Some? {
        var problem := ClosePools(Reversed(pools[..made]));
        ClosesWithin(f, Reversed(pools[..made]));
        MembersReversed(pools[..made]);
        MembersPrefix(pools, made);
        if problem.Some? {
          return problem;
        }
        states := states[id := Failed];
        return;
      }
      held, states := held[id := pools], states[id := Ready];
    }

    /** Open and verify each pool in turn; `made` pools have been created when it ends. */
    method OpenOneByOne(pools: seq<nat>) returns (failed: Option<Kind>, made: nat)
      modifies this`open
      ensures failed == OneByOne(f, pools).0 && open == old(open) + OneByOne(f, pools).1
      ensures made == Made(f, pools) && OneByOne(f, pools).1 <= Members(pools[..made])
    {
      assert pools[0..] == pools;
      for i := 0 to |pools|
        invariant open == old(open) + Members(pools[..i])
        invariant Made(f, pools) == i + Made(f, pools[i..])
        invariant OneByOne(f, pools).0 == OneByOne(f, pools[i..]).0
        invariant OneByOne(f, pools).1 == Members(pools[..i]) + OneByOne(f, pools[i..]).1
      {
        NextMember(pools, i);
        failed := OpenLeaf(pools[i], false);
        if failed.Some? {
          return failed, i + 1;
        }
        if f.verifies(pools[i]).Fails? {
          return Some(f.verifies(pools[i]).kind), i + 1;
        }
      }
      assert pools[..|pools|] == pools && pools[|pools|..] == [];
      failed, made := None, |pools|;
    }

    method OpenAuditRouter(id: nat, pools: seq<nat>) returns (failed: Option<Kind>)
      modifies this
      ensures Elsewhere(old(held), old(states), held, states, {id})
      ensures HeldBy(held, id) in {HeldBy(old(held), id), pools}
      ensures old(Startable(AuditRouter(id, pools))) ==>
        && failed == Opened(f, AuditRouter(id, pools)).0
        && open == old(open) + Opened(f, AuditRouter(id, pools)).1
        && (if failed.None? then Up(held, states, AuditRouter(id, pools)) else HeldBy(held, id) == [])
    {
      StartableRouter(id, pools, false);
      if StateOf(states, id) == Ready {
        return None;
      }
      failed := OpenAllThenVerify(pools);
      if failed == Some(Fatal) {
        return;
      }
      if failed.Some? {
        var problem := ClosePools(pools);
        ClosesWithin(f, pools);
        if problem.Some? {
          return problem;
        }
        return;
      }
      held, states := held[id := pools], states[id := Ready];
    }

    method OpenAllThenVerify(pools: seq<nat>) returns (failed: Option<Kind>)
      modifies this`open
      ensures failed == AllThenVerify(f, pools).0 && open == old(open) + AllThenVerify(f, pools).1
      ensures AllThenVerify(f, pools).1 <= Members(pools)
    {
      assert pools[0..] == pools;
      for i := 0 to |pools|
        invariant open == old(open) + Members(pools[..i])
        invariant OpenAll(f, pools).0 == OpenAll(f, pools[i..]).0
        invariant OpenAll(f, pools).1 == Members(pools[..i]) + OpenAll(f, pools[i..]).1
      {
        NextMember(pools, i);
        failed := OpenLeaf(pools[i], false);
        if failed.Some? {
          return;
        }
      }
      assert pools[..|pools|] == pools && pools[|pools|..] == [];
      for i := 0 to |pools|
        invariant VerifyAll(f, pools) == VerifyAll(f, pools[i..])
      {
        assert pools[i..][1..] == pools[i + 1..];
        if f.verifies(pools[i]).Fails? {
          return Some(f.verifies(pools[i]).kind);
        }
      }
      failed := None;
    }

    /** Open a tree. When it can be started, it ends as its parts say, and only what could not be
        cleaned up stays open. */
    method Open(n: Node) returns (failed: Option<Kind>)
      requires Proper(n) && HoldsOwn(held, n)
      modifies this
      ensures Elsewhere(old(held), old(states), held, states, Ids(n)) && HoldsOwn(held, n)
      ensures old(Startable(n)) ==> OpensAs(old(open), n, failed)
      decreases n, 0
    {
      ClosesOne(f, 0);
      NoPools(f);
      match n {
        case Client(l) => failed := OpenLeaf(l, true);
        case AuditRouter(id, pools) => failed := OpenAuditRouter(id, pools);
        case KnowledgeRouter(id, pools) => failed := OpenKnowledgeRouter(id, pools);
        case Laravel(c, d) => failed := OpenLaravel(c, d);
        case Aggregate(id, rs) => failed := OpenAggregate(id, rs);
      }
    }

    /** The client first; when the rest fails, the client is closed again. */
    method OpenLaravel(c: nat, d: Node) returns (failed: Option<Kind>)
      requires Proper(Laravel(c, d)) && HoldsOwn(held, d)
      modifies this
      ensures Elsewhere(old(held), old(states), held, states, Ids(d)) && HoldsOwn(held, d)
      ensures old(Startable(Laravel(c, d))) ==> OpensAs(old(open), Laravel(c, d), failed)
      decreases d, 1
    {
      failed := OpenLeaf(c, true);
      if failed.Some? {
        return;
      }
      failed := Open(d);
      OpenedLeaves(f, d);
      LaravelOpened(f, c, d);
      hide Opened, Attempts, Closes, Fresh, Up, Elsewhere, HoldsOwn, Proper, Ids;
      if failed.Some? {
        var suppressed := CloseLeaf(c);
        ClosesOne(f, c);
        if Opened(f, d).0.Some? && Closes(f, Attempts(f, held, states, d)) !! Opened(f, d).1 {
          LaravelFailed(f, held, states, c, d);
        }
      } else {
        LaravelUp(held, states, c, d);
      }
    }

    method OpenAggregate(id: nat, rs: seq<Node>) returns (failed: Option<Kind>)
      requires Proper(Aggregate(id, rs)) && AllHoldOwn(held, rs)
      modifies this
      ensures Elsewhere(old(held), old(states), held, states, Ids(Aggregate(id, rs))) && AllHoldOwn(held, rs)
      ensures old(Startable(Aggregate(id, rs))) ==> OpensAs(old(open), Aggregate(id, rs), failed)
      decreases rs, 2
    {
      assert id in Ids(Aggregate(id, rs));
      AggregateStartable(id, rs);
      if StateOf(states, id) != Created {
        return Some(Error);
      }
      ghost var wasHeld, wereStates, wasOpen := held, states, open;
      ghost var startable := AllStartable(rs);
      failed := OpenInTurn(rs);
      ghost var heldBefore, statesBefore := held, states;
      states := states[id := if failed.Some? then Failed else Ready];
      AggregateEnds(f, wasHeld, wereStates, heldBefore, statesBefore, states, id, rs);
    }

    /** Resources in order; when one fails, those before it are closed again, last first. */
    method OpenInTurn(rs: seq<Node>) returns (failed: Option<Kind>)
      requires AllProper(rs) && AllHoldOwn(held, rs)
      modifies this
      ensures Elsewhere(old(held), old(states), held, states, AllIds(rs)) && AllHoldOwn(held, rs)
      ensures old(AllStartable(rs)) ==> OpensInTurnAs(old(open), rs, failed)
      decreases rs, 1
    {
      failed := None;
      ghost var startable := AllStartable(rs);
      StartInTurn(f, held, states, open, rs, startable);
      hide *;
      var i := 0;
      while i < |rs|
        invariant 0 <= i <= |rs| && AllHoldOwn(held, rs) && failed.None?
        invariant Elsewhere(old(held), old(states), held, states, AllIds(rs))
        invariant startable ==> OpenedUpTo(f, old(open), held, states, open, rs, i)
        decreases |rs| - i
      {
        OneOf(held, rs, i);
        NextIsStartable(rs, i, old(open), startable);
        ghost var heldBefore, statesBefore, openBefore := held, states, open;
        failed := Open(rs[i]);
        OthersStayOwn(heldBefore, statesBefore, held, states, rs, i);
        WithinAll(rs, i, old(held), old(states), heldBefore, statesBefore, held, states);
        if failed.Some? {
          ghost var heldFailed, statesFailed, openFailed := held, states, open;
          UpBefore(f, old(open), heldBefore, statesBefore, openBefore, rs, i, held, states, startable);
          CloseOpened(rs, i);
          WithinFirst(rs, i, old(held), old(states), heldFailed, statesFailed, held, states);
          if startable {
            FailedInTurn(i, old(open), heldBefore, statesBefore, openBefore, heldFailed, statesFailed, openFailed, rs,
                         failed);
          }
          return;
        }
        if startable {
          OpenedNext(f, old(open), heldBefore, statesBefore, openBefore, held, states, open, rs, i);
        }
        i := i + 1;
      }
      if startable {
        AllOpened(old(open), rs);
      }
    }

    /** Close the first `n` resources again, last first, whatever that raises. */
    method CloseOpened(rs: seq<Node>, n: nat)
      requires AllProper(rs) && AllHoldOwn(held, rs) && n <= |rs|
      modifies this
      ensures AllHoldOwn(held, rs) && Elsewhere(old(held), old(states), held, states, AllIds(rs[..n]))
      ensures log == old(log) + AttemptsInTurn(f, old(held), old(states), rs[..n])
      ensures open == old(open) - Closes(f, AttemptsInTurn(f, old(held), old(states), rs[..n]))
      ensures NoMoreInTurn(f, old(held), old(states), held, states, rs[..n])
    {
      FirstProper(held, rs, n);
      hide *;
      var suppressed := CloseInTurn(rs[..n]);
      FirstOwn(old(held), old(states), held, states, rs, n);
    }

    ghost predicate AllStartable(rs: seq<Node>)
      reads this
    {
      AllFresh(held, states, rs) && AllLeaves(rs) !! open
    }

    /** How `OpenInTurn` leaves resources that could be started. */
    ghost predicate OpensInTurnAs(before: set<nat>, rs: seq<Node>, failed: Option<Kind>)
      reads this
    {
      && failed == OpenedInTurn(f, rs).0 && open == before + OpenedInTurn(f, rs).1
      && (failed.None? ==> AllUp(held, states, rs))
      && (failed.Some? ==> Closes(f, AttemptsInTurn(f, held, states, rs)) !! OpenedInTurn(f, rs).1)
    }

    lemma AggregateStartable(id: nat, rs: seq<Node>)
      ensures Startable(Aggregate(id, rs)) ==> AllStartable(rs) && StateOf(states, id) == Created
    {
      var n := Aggregate(id, rs);
      assert id in Ids(n) && AllIds(rs) <= Ids(n);
    }

    lemma NextIsStartable(rs: seq<Node>, i: nat, before: set<nat>, startable: bool)
      requires i < |rs| && AllProper(rs)
      requires startable ==> OpenedUpTo(f, before, held, states, open, rs, i)
      ensures startable ==> Startable(rs[i])
    {
      if startable {
        forall j | 0 <= j < i
          ensures Leaves(rs[i]) !! Leaves(rs[j])
        {
        }
      }
    }

    /** A resource failed: what it and the closes before it could not clean up is left. */
    lemma FailedInTurn(i: nat, before: set<nat>, heldBefore: Held, statesBefore: States, openBefore: set<nat>,
                       heldFailed: Held, statesFailed: States, openFailed: set<nat>, rs: seq<Node>, failed: Option<Kind>)
      requires i < |rs| && AllProper(rs) && AllHoldOwn(heldFailed, rs) && AllHoldOwn(held, rs) && failed.Some?
      requires OpenedUpTo(f, before, heldBefore, statesBefore, openBefore, rs, i)
      requires UpTo(heldFailed, statesFailed, rs, i)
      requires failed == Opened(f, rs[i]).0 && openFailed == openBefore + Opened(f, rs[i]).1
      requires Closes(f, Attempts(f, heldFailed, statesFailed, rs[i])) !! Opened(f, rs[i]).1
      requires Elsewhere(heldFailed, statesFailed, held, states, AllIds(rs[..i]))
      requires open == openFailed - Closes(f, AttemptsInTurn(f, heldFailed, statesFailed, rs[..i]))
      requires NoMoreInTurn(f, heldFailed, statesFailed, held, states, rs[..i])
      ensures OpensInTurnAs(before, rs, failed)
    {
      assert Closes(f, AttemptsInTurn(f, held, states, rs[..i]))
          <= Closes(f, AttemptsInTurn(f, heldFailed, statesFailed, rs[..i]));
      hide *;
      OpenedMeans(f, before, heldBefore, statesBefore, openBefore, rs, i);
      FirstProper(heldFailed, rs, i);
      UpFirst(heldFailed, statesFailed, rs, i);
      UpAttemptsInTurn(f, heldFailed, statesFailed, rs[..i]);
      InTurnFails(f, rs, i);
      LeftInTurn(f, rs[..i]);
      FirstApart(rs, i);
      OpenedLeaves(f, rs[i]);
      ClosesUpInTurnAreLeaves(f, rs[..i]);
      LeftOver(before, AllLeaves(rs[..i]), Opened(f, rs[i]).1, Closes(f, AttemptsUpInTurn(f, rs[..i])));
      SameAttempts(f, heldFailed, statesFailed, held, states, rs[i], AllIds(rs[..i]));
      NothingClosesAgain(f, held, states, rs, i, Opened(f, rs[i]).1, Closes(f, AttemptsUpInTurn(f, rs[..i])));
      InTurnEnds(before, rs, failed);
    }

    lemma InTurnEnds(before: set<nat>, rs: seq<Node>, failed: Option<Kind>)
      requires failed.Some? && failed == OpenedInTurn(f, rs).0 && open == before + OpenedInTurn(f, rs).1
      requires Closes(f, AttemptsInTurn(f, held, states, rs)) !! OpenedInTurn(f, rs).1
      ensures OpensInTurnAs(before, rs, failed)
    {
      hide OpenedInTurn, AttemptsInTurn, Closes;
    }

    lemma AllOpened(before: set<nat>, rs: seq<Node>)
      requires OpenedUpTo(f, before, held, states, open, rs, |rs|)
      ensures OpensInTurnAs(before, rs, None)
    {
      assert rs[..|rs|] == rs;
      InTurnSucceeds(f, rs);
    }

    /** How `Open` leaves a tree that could be started. */
    ghost predicate OpensAs(before: set<nat>, n: Node, failed: Option<Kind>)
      reads this
    {
      && failed == Opened(f, n).0 && open == before + Opened(f, n).1
      && (failed.None? ==> Up(held, states, n))
      && (failed.Some? ==> Closes(f, Attempts(f, held, states, n)) !! Opened(f, n).1)
    }

    lemma StartableRouter(id: nat, pools: seq<nat>, knowledge: bool)
      ensures var n := if knowledge then KnowledgeRouter(id, pools) else AuditRouter(id, pools);
        Startable(n) ==>
          id !in held && StateOf(states, id) == Created && Members(pools) !! open
    {
      var n := if knowledge then KnowledgeRouter(id, pools) else AuditRouter(id, pools);
      assert id in Ids(n);
    }
  }

  lemma NextMember(pools: seq<nat>, i: nat)
    requires i < |pools|
    ensures Members(pools[..i + 1]) == Members(pools[..i]) + {pools[i]}
    ensures pools[i] in Members(pools) && pools[i..][0] == pools[i] && pools[i..][1..] == pools[i + 1..]
    ensures Members(pools[..i]) <= Members(pools)
  {
    assert pools[..i + 1] == pools[..i] + [pools[i]];
    MembersConcat(pools[..i], [pools[i]]);
    assert Members([pools[i]]) == {pools[i]} by {
      assert [pools[i]][0] == pools[i];
    }
  }

  // --- what the loops keep -------------------------------------------------------------------

  ghost predicate UpTo(held: Held, states: States, rs: seq<Node>, n: nat) {
    n <= |rs| && forall j | 0 <= j < n :: Up(held, states, rs[j])
  }

  /** The first `i` resources are up and the others untouched. */
  ghost predicate OpenedUpTo(f: Faults, before: set<nat>, held: Held, states: States, open: set<nat>, rs: seq<Node>,
                             i: nat) {
    && i <= |rs| && UpTo(held, states, rs, i) && AllLeaves(rs) !! before
    && (forall j | i <= j < |rs| :: Fresh(held, states, rs[j]))
    && open == before + AllLeaves(rs[..i])
    && (forall j | 0 <= j < i :: Opened(f, rs[j]).0.None?)
  }

  lemma StartInTurn(f: Faults, held: Held, states: States, open: set<nat>, rs: seq<Node>, startable: bool)
    requires startable ==> AllFresh(held, states, rs) && AllLeaves(rs) !! open
    ensures startable ==> OpenedUpTo(f, open, held, states, open, rs, 0)
    ensures Elsewhere(held, states, held, states, AllIds(rs))
  {
    assert rs[..0] == [];
    if startable {
      forall j | 0 <= j < |rs|
        ensures Fresh(held, states, rs[j])
      {
        assert Ids(rs[j]) <= AllIds(rs);
      }
    }
  }

  lemma WithinAll(rs: seq<Node>, i: nat, a: Held, s: States, b: Held, t: States, c: Held, u: States)
    requires i < |rs| && Elsewhere(a, s, b, t, AllIds(rs)) && Elsewhere(b, t, c, u, Ids(rs[i]))
    ensures Elsewhere(a, s, c, u, AllIds(rs))
  {
    ElsewhereChain(a, s, b, t, c, u, AllIds(rs), Ids(rs[i]));
    assert Ids(rs[i]) <= AllIds(rs);
  }

  lemma WithinFirst(rs: seq<Node>, i: nat, a: Held, s: States, b: Held, t: States, c: Held, u: States)
    requires i < |rs| && Elsewhere(a, s, b, t, AllIds(rs)) && Elsewhere(b, t, c, u, AllIds(rs[..i]))
    ensures Elsewhere(a, s, c, u, AllIds(rs))
  {
    ElsewhereChain(a, s, b, t, c, u, AllIds(rs), AllIds(rs[..i]));
    assert forall j | 0 <= j < i :: rs[..i][j] == rs[j];
    assert AllIds(rs[..i]) <= AllIds(rs);
  }

  lemma OthersStayUp(held: Held, states: States, held': Held, states': States, rs: seq<Node>, i: nat)
    requires AllProper(rs) && i < |rs| && UpTo(held, states, rs, i)
    requires Elsewhere(held, states, held', states', Ids(rs[i]))
    ensures UpTo(held', states', rs, i)
  {
    forall j | 0 <= j < i
      ensures Up(held', states', rs[j])
    {
      StaysUp(held, states, held', states', rs[j], Ids(rs[i]));
    }
  }

  lemma UpBefore(f: Faults, before: set<nat>, held: Held, states: States, open: set<nat>, rs: seq<Node>, i: nat,
                 held': Held, states': States, startable: bool)
    requires AllProper(rs) && i < |rs| && Elsewhere(held, states, held', states', Ids(rs[i]))
    requires startable ==> OpenedUpTo(f, before, held, states, open, rs, i)
    ensures startable ==> UpTo(held', states', rs, i)
  {
    if startable {
      OthersStayUp(held, states, held', states', rs, i);
    }
  }

  lemma LeavesSnoc(rs: seq<Node>, i: nat)
    requires i < |rs|
    ensures AllLeaves(rs[..i + 1]) == AllLeaves(rs[..i]) + Leaves(rs[i])
  {
    assert forall j | 0 <= j < i :: rs[..i + 1][j] == rs[..i][j];
    assert rs[..i + 1][i] == rs[i];
  }

  lemma OpenedNext(f: Faults, before: set<nat>, held: Held, states: States, open: set<nat>, held': Held,
                   states': States, open': set<nat>, rs: seq<Node>, i: nat)
    requires AllProper(rs) && i < |rs| && OpenedUpTo(f, before, held, states, open, rs, i)
    requires Elsewhere(held, states, held', states', Ids(rs[i])) && Up(held', states', rs[i])
    requires Opened(f, rs[i]).0.None? && open' == open + Opened(f, rs[i]).1
    ensures OpenedUpTo(f, before, held', states', open', rs, i + 1)
  {
    OthersStayUp(held, states, held', states', rs, i);
    OpenedLeaves(f, rs[i]);
    LeavesSnoc(rs, i);
    forall j | i + 1 <= j < |rs|
      ensures Fresh(held', states', rs[j])
    {
      assert Ids(rs[j]) !! Ids(rs[i]);
    }
  }

  /** A tree that opens leaves exactly its leaves open, and never anything else. */
  lemma {:induction false} OpenedLeaves(f: Faults, n: Node)
    ensures Opened(f, n).1 <= Leaves(n)
    ensures Opened(f, n).0.None? ==> Opened(f, n).1 == Leaves(n)
    decreases n
  {
    match n
    case Client(_) =>
    case AuditRouter(_, pools) => AllThenVerifyLeaves(f, pools);
    case KnowledgeRouter(_, pools) => OneByOneLeaves(f, pools);
    case Laravel(_, d) => OpenedLeaves(f, d);
    case Aggregate(_, rs) => InTurnLeaves(f, rs);
  }

  lemma {:induction false} InTurnLeaves(f: Faults, rs: seq<Node>)
    ensures OpenedInTurn(f, rs).1 <= AllLeaves(rs)
    ensures OpenedInTurn(f, rs).0.None? ==> OpenedInTurn(f, rs).1 == AllLeaves(rs)
    decreases rs
  {
    if rs != [] {
      OpenedLeaves(f, rs[0]);
      InTurnLeaves(f, rs[1..]);
      LeavesCons(rs);
    }
  }

  lemma MembersCons(pools: seq<nat>)
    requires pools != []
    ensures Members(pools) == {pools[0]} + Members(pools[1..])
  {
    assert forall i | 1 <= i < |pools| :: pools[i] == pools[1..][i - 1];
  }

  lemma {:induction false} OneByOneLeaves(f: Faults, pools: seq<nat>)
    ensures OneByOne(f, pools).1 <= Members(pools)
    ensures OneByOne(f, pools).0.None? ==> OneByOne(f, pools).1 == Members(pools)
  {
    if pools != [] {
      OneByOneLeaves(f, pools[1..]);
      MembersCons(pools);
    }
  }

  lemma {:induction false} AllThenVerifyLeaves(f: Faults, pools: seq<nat>)
    ensures AllThenVerify(f, pools).1 <= Members(pools)
    ensures AllThenVerify(f, pools).0.None? ==> AllThenVerify(f, pools).1 == Members(pools)
  {
    OpenAllLeaves(f, pools);
  }

  lemma {:induction false} OpenAllLeaves(f: Faults, pools: seq<nat>)
    ensures OpenAll(f, pools).1 <= Members(pools)
    ensures OpenAll(f, pools).0.None? ==> OpenAll(f, pools).1 == Members(pools)
  {
    if pools != [] {
      OpenAllLeaves(f, pools[1..]);
      MembersCons(pools);
    }
  }

  /** What closing several trees that are up leaves open. */
  function LeftAll(f: Faults, rs: seq<Node>): set<nat> {
    if rs == [] then {} else LeftAll(f, rs[1..]) + Left(f, rs[0])
  }

  lemma {:induction false} InTurnFails(f: Faults, rs: seq<Node>, i: nat)
    requires i < |rs| && Opened(f, rs[i]).0.Some? && forall j | 0 <= j < i :: Opened(f, rs[j]).0.None?
    ensures OpenedInTurn(f, rs) == (Opened(f, rs[i]).0, Opened(f, rs[i]).1 + LeftAll(f, rs[..i]))
    decreases i
  {
    hide Opened, Left;
    if i == 0 {
      var none: set<nat> := {};
      assert rs[..0] == [] && LeftAll(f, []) == none && Opened(f, rs[0]).1 + none == Opened(f, rs[0]).1;
    } else {
      assert rs[1..][i - 1] == rs[i] && forall j | 0 <= j < i - 1 :: rs[1..][j] == rs[j + 1];
      InTurnFails(f, rs[1..], i - 1);
      var earlier := LeftAll(f, rs[1..][..i - 1]);
      assert rs[..i][1..] == rs[1..][..i - 1];
      assert Opened(f, rs[i]).1 + earlier + Left(f, rs[0]) == Opened(f, rs[i]).1 + (earlier + Left(f, rs[0]));
    }
  }

  lemma {:induction false} LeftInTurn(f: Faults, rs: seq<Node>)
    requires AllProper(rs)
    ensures LeftAll(f, rs) == AllLeaves(rs) - Closes(f, AttemptsUpInTurn(f, rs))
    decreases rs
  {
    if rs != [] {
      var rest := rs[1..];
      RestProper(rs);
      LeftInTurn(f, rest);
      LeavesCons(rs);
      ClosesConcat(f, AttemptsUpInTurn(f, rest), AttemptsUp(f, rs[0]));
      ClosesUpAreLeaves(f, rs[0]);
      ClosesUpInTurnAreLeaves(f, rest);
      hide Leaves, AllLeaves, Closes, AttemptsUp, AllProper;
    }
  }

  lemma RestProper(rs: seq<Node>)
    requires AllProper(rs) && rs != []
    ensures AllProper(rs[1..]) && Leaves(rs[0]) !! AllLeaves(rs[1..])
  {
    assert forall j | 0 <= j < |rs[1..]| :: rs[1..][j] == rs[j + 1];
    hide Leaves, Ids, Proper;
  }

  lemma LeftOver(before: set<nat>, first: set<nat>, failing: set<nat>, closed: set<nat>)
    requires closed <= first && before !! first && failing !! first
    ensures before + first + failing - closed == before + (failing + (first - closed))
  {
  }

  lemma FirstProper(held: Held, rs: seq<Node>, n: nat)
    requires AllProper(rs) && AllHoldOwn(held, rs) && n <= |rs|
    ensures AllProper(rs[..n]) && AllHoldOwn(held, rs[..n])
  {
    hide Leaves, Ids, Proper, HoldsOwn;
  }

  lemma UpFirst(held: Held, states: States, rs: seq<Node>, n: nat)
    requires UpTo(held, states, rs, n)
    ensures AllUp(held, states, rs[..n])
  {
    hide Up;
  }

  lemma FirstOwn(a: Held, s: States, b: Held, t: States, rs: seq<Node>, n: nat)
    requires AllProper(rs) && AllHoldOwn(a, rs) && n <= |rs| && AllHoldOwn(b, rs[..n])
    requires Elsewhere(a, s, b, t, AllIds(rs[..n]))
    ensures AllHoldOwn(b, rs)
  {
    hide HoldsOwn, Leaves, Proper, Elsewhere;
    forall j | 0 <= j < |rs|
      ensures HoldsOwn(b, rs[j])
    {
      if j < n {
        assert rs[..n][j] == rs[j];
      } else {
        assert Ids(rs[j]) !! AllIds(rs[..n]);
        StaysOwn(a, s, b, t, rs[j], AllIds(rs[..n]));
      }
    }
  }

  lemma {:induction false} AttemptsOfBoth(f: Faults, held: Held, states: States, a: seq<Node>, b: seq<Node>)
    ensures AttemptsInTurn(f, held, states, a + b)
         == AttemptsInTurn(f, held, states, b) + AttemptsInTurn(f, held, states, a)
    decreases a
  {
    hide Attempts;
    if a == [] {
      assert a + b == b;
    } else {
      assert (a + b)[1..] == a[1..] + b;
      AttemptsOfBoth(f, held, states, a[1..], b);
    }
  }

  lemma ClosesAreLeaves(f: Faults, held: Held, states: States, n: Node)
    requires HoldsOwn(held, n)
    ensures Closes(f, Attempts(f, held, states, n)) <= Leaves(n)
  {
    AttemptsAreLeaves(f, held, states, n);
    hide Attempts, Leaves, HoldsOwn;
  }

  lemma ClosesInTurnAreLeaves(f: Faults, held: Held, states: States, rs: seq<Node>)
    requires AllHoldOwn(held, rs)
    ensures Closes(f, AttemptsInTurn(f, held, states, rs)) <= AllLeaves(rs)
  {
    AttemptsInTurnAreLeaves(f, held, states, rs);
    hide AttemptsInTurn, AllLeaves, AllHoldOwn;
  }

  /** Closing everything once more takes away nothing of what a failed opening left. */
  lemma NothingClosesAgain(f: Faults, held: Held, states: States, rs: seq<Node>, i: nat, failing: set<nat>,
                           closed: set<nat>)
    requires AllProper(rs) && AllHoldOwn(held, rs) && i < |rs| && failing <= Leaves(rs[i])
    requires Closes(f, Attempts(f, held, states, rs[i])) !! failing
    requires Closes(f, AttemptsInTurn(f, held, states, rs[..i])) <= closed
    ensures Closes(f, AttemptsInTurn(f, held, states, rs)) !! failing + (AllLeaves(rs[..i]) - closed)
  {
    var first, later := rs[..i], rs[i + 1..];
    FirstApart(rs, i);
    LaterApart(held, rs, i);
    FirstProper(held, rs, i);
    OneOf(held, rs, i);
    hide *;
    assert rs == first + ([rs[i]] + later);
    AttemptsOfBoth(f, held, states, first, [rs[i]] + later);
    AttemptsOfBoth(f, held, states, [rs[i]], later);
    AttemptsOfOne(f, held, states, rs[i]);
    ClosesConcat(f, AttemptsInTurn(f, held, states, later) + Attempts(f, held, states, rs[i]),
                 AttemptsInTurn(f, held, states, first));
    ClosesConcat(f, AttemptsInTurn(f, held, states, later), Attempts(f, held, states, rs[i]));
    ClosesInTurnAreLeaves(f, held, states, later);
    ClosesInTurnAreLeaves(f, held, states, first);
    ClosesAreLeaves(f, held, states, rs[i]);
  }

  lemma LaravelOpened(f: Faults, c: nat, d: Node)
    requires Proper(Laravel(c, d)) && f.opens(c).Fine?
    ensures Opened(f, Laravel(c, d)) ==
      if Opened(f, d).0.Some? then (Opened(f, d).0, Opened(f, d).1 + if f.closes(c).Fails? then {c} else {})
      else (None, {c} + Opened(f, d).1)
    ensures c !in Leaves(d) && Leaves(Laravel(c, d)) == {c} + Leaves(d) && Ids(Laravel(c, d)) == Ids(d)
  {
  }

  lemma LaravelFailed(f: Faults, held: Held, states: States, c: nat, d: Node)
    requires Proper(Laravel(c, d)) && HoldsOwn(held, d) && f.opens(c).Fine? && Opened(f, d).0.Some?
    requires Closes(f, Attempts(f, held, states, d)) !! Opened(f, d).1
    ensures Closes(f, Attempts(f, held, states, Laravel(c, d))) !! Opened(f, Laravel(c, d)).1
  {
    assert Attempts(f, held, states, Laravel(c, d)) == Attempts(f, held, states, d) + [c];
    LaravelOpened(f, c, d);
    hide Opened, Attempts, Closes, HoldsOwn, Proper, Leaves;
    OpenedLeaves(f, d);
    ClosesOne(f, c);
    ClosesConcat(f, Attempts(f, held, states, d), [c]);
    ClosesAreLeaves(f, held, states, d);
  }

  lemma LaravelUp(held: Held, states: States, c: nat, d: Node)
    ensures Up(held, states, Laravel(c, d)) <==> Up(held, states, d)
  {
  }

  lemma AttemptsOfOne(f: Faults, held: Held, states: States, n: Node)
    ensures AttemptsInTurn(f, held, states, [n]) == Attempts(f, held, states, n)
  {
    hide Attempts;
    assert [n][1..] == [] && AttemptsInTurn(f, held, states, []) == [];
  }

  lemma LaterApart(held: Held, rs: seq<Node>, i: nat)
    requires AllProper(rs) && AllHoldOwn(held, rs) && i < |rs|
    ensures AllHoldOwn(held, rs[i + 1..])
    ensures AllLeaves(rs[i + 1..]) !! Leaves(rs[i]) && AllLeaves(rs[i + 1..]) !! AllLeaves(rs[..i])
  {
    hide Leaves, Ids, Proper, HoldsOwn;
    var later := rs[i + 1..];
    assert forall j | 0 <= j < |later| :: later[j] == rs[i + 1 + j];
    assert forall j | 0 <= j < i :: rs[..i][j] == rs[j];
  }

  lemma {:induction false} InTurnSucceeds(f: Faults, rs: seq<Node>)
    requires forall j | 0 <= j < |rs| :: Opened(f, rs[j]).0.None?
    ensures OpenedInTurn(f, rs) == (None, AllLeaves(rs))
  {
    if rs == [] {
      assert AllLeaves(rs) == {};
    } else {
      OpenedLeaves(f, rs[0]);
      assert forall j | 0 <= j < |rs[1..]| :: rs[1..][j] == rs[j + 1];
      InTurnSucceeds(f, rs[1..]);
      LeavesCons(rs);
    }
  }

  lemma FirstApart(rs: seq<Node>, i: nat)
    requires AllProper(rs) && i < |rs|
    ensures Ids(rs[i]) !! AllIds(rs[..i]) && Leaves(rs[i]) !! AllLeaves(rs[..i])
  {
    assert forall j | 0 <= j < i :: rs[..i][j] == rs[j];
  }

  /** The aggregate's own state has no influence on its resources. */
  lemma AggregateEnds(f: Faults, a: Held, s: States, b: Held, t: States, u: States, id: nat, rs: seq<Node>)
    requires Proper(Aggregate(id, rs)) && Elsewhere(a, s, b, t, AllIds(rs)) && AllHoldOwn(b, rs)
    requires id in u && u == t[id := u[id]] && u[id] != Closed
    ensures Elsewhere(a, s, b, u, Ids(Aggregate(id, rs))) && HoldsOwn(b, Aggregate(id, rs))
    ensures Attempts(f, b, u, Aggregate(id, rs)) == AttemptsInTurn(f, b, t, rs)
    ensures AllUp(b, t, rs) ==> AllUp(b, u, rs)
  {
    assert Elsewhere(b, t, b, u, {id});
    ElsewhereChain(a, s, b, t, b, u, AllIds(rs), {id});
    SameAttemptsInTurn(f, b, t, b, u, rs, {id});
    if AllUp(b, t, rs) {
      forall i | 0 <= i < |rs|
        ensures Up(b, u, rs[i])
      {
        assert Ids(rs[i]) <= AllIds(rs);
        StaysUp(b, t, b, u, rs[i], {id});
      }
    }
  }

  lemma ElsewhereSelf(held: Held, states: States)
    ensures Elsewhere(held, states, held, states, {})
  {
  }

  lemma ApartFromLater(rs: seq<Node>, i: nat)
    requires AllProper(rs) && i < |rs|
    ensures Ids(rs[i]) !! AllIds(rs[i + 1..]) && AllIds(rs[i..]) == Ids(rs[i]) + AllIds(rs[i + 1..])
  {
    var later := rs[i + 1..];
    assert forall j | 0 <= j < |later| :: later[j] == rs[i + 1 + j];
    assert forall j | 0 <= j < |rs[i..]| :: rs[i..][j] == rs[i + j];
    forall id
      ensures id in AllIds(rs[i..]) <==> id in Ids(rs[i]) || id in AllIds(later)
    {
      if id in Ids(rs[i]) {
        assert rs[i..][0] == rs[i];
      }
      if id in AllIds(later) {
        var j :| 0 <= j < |later| && id in Ids(later[j]);
        assert rs[i..][j + 1] == later[j];
      }
      if id in AllIds(rs[i..]) {
        var j :| 0 <= j < |rs[i..]| && id in Ids(rs[i..][j]);
        assert j > 0 ==> rs[i..][j] == later[j - 1];
      }
    }
  }

  lemma OthersStayOwn(held: Held, states: States, held': Held, states': States, rs: seq<Node>, i: nat)
    requires AllProper(rs) && i < |rs| && AllHoldOwn(held, rs) && HoldsOwn(held', rs[i])
    requires Elsewhere(held, states, held', states', Ids(rs[i]))
    ensures AllHoldOwn(held', rs)
  {
    forall j | 0 <= j < |rs|
      ensures HoldsOwn(held', rs[j])
    {
      if j != i {
        assert Ids(rs[j]) !! Ids(rs[i]);
        StaysOwn(held, states, held', states', rs[j], Ids(rs[i]));
      }
    }
  }

  // --- the runtime ---------------------------------------------------------------------------

  /** Every pool before the `i`-th opens and verifies. */
  ghost predicate FineUpTo(f: Faults, pools: seq<nat>, i: nat) {
    i <= |pools| && forall j | 0 <= j < i :: f.opens(pools[j]).Fine? && f.verifies(pools[j]).Fine?
  }

  ghost predicate OpensUpTo(f: Faults, pools: seq<nat>, i: nat) {
    i <= |pools| && forall j | 0 <= j < i :: f.opens(pools[j]).Fine?
  }

  /** No operation on the way to a started tree fails. */
  ghost predicate NothingFails(f: Faults, n: Node) {
    match n
    case Client(l) => f.opens(l).Fine?
    case AuditRouter(_, pools) => FineUpTo(f, pools, |pools|)
    case KnowledgeRouter(_, pools) => FineUpTo(f, pools, |pools|)
    case Laravel(c, d) => f.opens(c).Fine? && NothingFails(f, d)
    case Aggregate(_, rs) => forall i | 0 <= i < |rs| :: NothingFails(f, rs[i])
  }

  /** Opening pool `i` is left by something other than an exception or a cancellation, while an
      earlier pool is open or this one stays half open. */
  predicate StrandsAtOpen(f: Faults, pools: seq<nat>, i: nat)
    requires i < |pools|
  {
    f.opens(pools[i]).Fails? && f.opens(pools[i]).kind == Fatal && (i > 0 || f.opens(pools[i]).dirty)
  }

  predicate StrandsAtVerify(f: Faults, pools: seq<nat>, i: nat)
    requires i < |pools|
  {
    f.verifies(pools[i]).Fails? && f.verifies(pools[i]).kind == Fatal
  }

  /** What the faults must be like for a failed opening to leave a pool open. The knowledge router
      verifies each pool when it has opened it, the audit router when all are open. */
  ghost predicate LeaksOnFailure(f: Faults, n: Node) {
    match n
    case Client(_) => false
    case AuditRouter(_, pools) =>
      || (exists i | 0 <= i < |pools| :: OpensUpTo(f, pools, i) && StrandsAtOpen(f, pools, i))
      || (exists i | 0 <= i < |pools| ::
            OpensUpTo(f, pools, |pools|) && FineUpTo(f, pools, i) && StrandsAtVerify(f, pools, i))
    case KnowledgeRouter(_, pools) =>
      exists i | 0 <= i < |pools| :: FineUpTo(f, pools, i)
        && (StrandsAtOpen(f, pools, i) || (f.opens(pools[i]).Fine? && StrandsAtVerify(f, pools, i)))
    case Laravel(c, d) => f.opens(c).Fine? && LeaksOnFailure(f, d)
    case Aggregate(_, rs) => LeaksInTurn(f, rs)
  }

  /** Some resource leaks, and nothing before it fails. */
  ghost predicate LeaksInTurn(f: Faults, rs: seq<Node>) {
    exists i | 0 <= i < |rs| :: LeaksOnFailure(f, rs[i]) && forall j | 0 <= j < i :: NothingFails(f, rs[j])
  }

  lemma MembersEmptyIff(pools: seq<nat>)
    ensures Members(pools) == {} <==> pools == []
  {
    if pools != [] {
      assert pools[0] in Members(pools);
    }
  }

  /** What is open when the first pool that fails is the `i`-th. */
  lemma {:induction false} OneByOneAt(f: Faults, pools: seq<nat>, i: nat)
    requires FineUpTo(f, pools, i) && i < |pools| && (f.opens(pools[i]).Fails? || f.verifies(pools[i]).Fails?)
    ensures OneByOne(f, pools) ==
      if f.opens(pools[i]).Fails?
      then (Some(f.opens(pools[i]).kind), Members(pools[..i]) + if f.opens(pools[i]).dirty then {pools[i]} else {})
      else (Some(f.verifies(pools[i]).kind), Members(pools[..i]) + {pools[i]})
    decreases i
  {
    var rest := pools[1..];
    if i == 0 {
      MembersEmptyIff(pools[..0]);
      var none, one: set<nat> := {}, {pools[0]};
      assert Members(pools[..0]) + none == none && Members(pools[..0]) + one == one;
    } else {
      assert forall j | 0 <= j < i :: rest[j] == pools[j + 1];
      OneByOneAt(f, rest, i - 1);
      MembersCons(pools[..i]);
      assert pools[..i][1..] == rest[..i - 1] && rest[i - 1] == pools[i];
      var none, one: set<nat> := {}, {pools[i]};
      assert {pools[0]} + (Members(rest[..i - 1]) + none) == Members(pools[..i]) + none;
      assert {pools[0]} + (Members(rest[..i - 1]) + one) == Members(pools[..i]) + one;
    }
  }

  lemma {:induction false} OneByOneFine(f: Faults, pools: seq<nat>)
    requires FineUpTo(f, pools, |pools|)
    ensures OneByOne(f, pools).0.None?
  {
    if pools != [] {
      assert forall j | 0 <= j < |pools[1..]| :: pools[1..][j] == pools[j + 1];
      OneByOneFine(f, pools[1..]);
    }
  }

  lemma {:induction false} OpenAllAt(f: Faults, pools: seq<nat>, i: nat)
    requires OpensUpTo(f, pools, i) && i < |pools| && f.opens(pools[i]).Fails?
    ensures OpenAll(f, pools)
         == (Some(f.opens(pools[i]).kind), Members(pools[..i]) + if f.opens(pools[i]).dirty then {pools[i]} else {})
    decreases i
  {
    var rest := pools[1..];
    if i == 0 {
      MembersEmptyIff(pools[..0]);
      var none, one: set<nat> := {}, {pools[0]};
      assert Members(pools[..0]) + none == none && Members(pools[..0]) + one == one;
    } else {
      assert forall j | 0 <= j < i :: rest[j] == pools[j + 1];
      OpenAllAt(f, rest, i - 1);
      MembersCons(pools[..i]);
      assert pools[..i][1..] == rest[..i - 1] && rest[i - 1] == pools[i];
      var none, one: set<nat> := {}, {pools[i]};
      assert {pools[0]} + (Members(rest[..i - 1]) + none) == Members(pools[..i]) + none;
      assert {pools[0]} + (Members(rest[..i - 1]) + one) == Members(pools[..i]) + one;
    }
  }

  lemma {:induction false} OpenAllFine(f: Faults, pools: seq<nat>)
    requires OpensUpTo(f, pools, |pools|)
    ensures OpenAll(f, pools) == (None, Members(pools))
  {
    OpenAllLeaves(f, pools);
    if pools != [] {
      assert forall j | 0 <= j < |pools[1..]| :: pools[1..][j] == pools[j + 1];
      OpenAllFine(f, pools[1..]);
    }
  }

  lemma {:induction false} VerifyAllAt(f: Faults, pools: seq<nat>, i: nat)
    requires i < |pools| && f.verifies(pools[i]).Fails? && forall j | 0 <= j < i :: f.verifies(pools[j]).Fine?
    ensures VerifyAll(f, pools) == Some(f.verifies(pools[i]).kind)
    decreases i
  {
    if i > 0 {
      assert forall j | 0 <= j < i :: pools[1..][j] == pools[j + 1];
      VerifyAllAt(f, pools[1..], i - 1);
    }
  }

  lemma {:induction false} VerifyAllFine(f: Faults, pools: seq<nat>)
    requires forall j | 0 <= j < |pools| :: f.verifies(pools[j]).Fine?
    ensures VerifyAll(f, pools).None?
  {
    if pools != [] {
      assert forall j | 0 <= j < |pools[1..]| :: pools[1..][j] == pools[j + 1];
      VerifyAllFine(f, pools[1..]);
    }
  }

  /** Some pool is the first that fails. */
  lemma FirstNotFine(f: Faults, pools: seq<nat>, n: nat)
    requires n <= |pools| && !FineUpTo(f, pools, n)
    ensures exists i | 0 <= i < n :: FineUpTo(f, pools, i) && (f.opens(pools[i]).Fails? || f.verifies(pools[i]).Fails?)
  {
    if FineUpTo(f, pools, n - 1) {
      assert f.opens(pools[n - 1]).Fails? || f.verifies(pools[n - 1]).Fails?;
    } else {
      FirstNotFine(f, pools, n - 1);
    }
  }

  lemma FirstNotOpen(f: Faults, pools: seq<nat>, n: nat)
    requires n <= |pools| && !OpensUpTo(f, pools, n)
    ensures exists i | 0 <= i < n :: OpensUpTo(f, pools, i) && f.opens(pools[i]).Fails?
  {
    if OpensUpTo(f, pools, n - 1) {
      assert f.opens(pools[n - 1]).Fails?;
    } else {
      FirstNotOpen(f, pools, n - 1);
    }
  }

  /** Leaving the knowledge router's loop in a way it does not catch, with a pool held. */
  lemma KnowledgeLeaksIff(f: Faults, id: nat, pools: seq<nat>)
    ensures OneByOne(f, pools).0.None? <==> FineUpTo(f, pools, |pools|)
    ensures LeaksOnFailure(f, KnowledgeRouter(id, pools)) <==>
      OneByOne(f, pools).0 == Some(Fatal) && OneByOne(f, pools).1 != {}
  {
    hide OneByOne, Members;
    if FineUpTo(f, pools, |pools|) {
      OneByOneFine(f, pools);
    } else {
      FirstNotFine(f, pools, |pools|);
      var i :| 0 <= i < |pools| && FineUpTo(f, pools, i) && (f.opens(pools[i]).Fails? || f.verifies(pools[i]).Fails?);
      OneByOneAt(f, pools, i);
      MembersEmptyIff(pools[..i]);
      assert forall k | 0 <= k < |pools| && FineUpTo(f, pools, k) && (f.opens(pools[k]).Fails? || f.verifies(pools[k]).Fails?) :: k == i;
    }
  }

  lemma AuditLeaksIff(f: Faults, id: nat, pools: seq<nat>)
    ensures AllThenVerify(f, pools).0.None? <==> FineUpTo(f, pools, |pools|)
    ensures LeaksOnFailure(f, AuditRouter(id, pools)) <==>
      AllThenVerify(f, pools).0 == Some(Fatal) && AllThenVerify(f, pools).1 != {}
  {
    hide OpenAll, VerifyAll, Members;
    if !OpensUpTo(f, pools, |pools|) {
      FirstNotOpen(f, pools, |pools|);
      var i :| 0 <= i < |pools| && OpensUpTo(f, pools, i) && f.opens(pools[i]).Fails?;
      OpenAllAt(f, pools, i);
      MembersEmptyIff(pools[..i]);
      assert forall k | 0 <= k < |pools| && OpensUpTo(f, pools, k) && f.opens(pools[k]).Fails? :: k == i;
    } else {
      OpenAllFine(f, pools);
      MembersEmptyIff(pools);
      if FineUpTo(f, pools, |pools|) {
        VerifyAllFine(f, pools);
      } else {
        FirstNotFine(f, pools, |pools|);
        var i :| 0 <= i < |pools| && FineUpTo(f, pools, i) && (f.opens(pools[i]).Fails? || f.verifies(pools[i]).Fails?);
        VerifyAllAt(f, pools, i);
        assert forall k | 0 <= k < |pools| && FineUpTo(f, pools, k) && f.verifies(pools[k]).Fails? :: k == i;
      }
    }
  }

  /** Opening succeeds exactly when nothing fails on the way. Faults that make a router be left in a
      way it does not catch always leave a leaf open, and when closing never fails, nothing else
      does. */
  lemma {:induction false} LeaksIff(f: Faults, n: Node)
    ensures NothingFails(f, n) <==> Opened(f, n).0.None?
    ensures LeaksOnFailure(f, n) ==> Opened(f, n).0 == Some(Fatal) && Opened(f, n).1 != {}
    ensures ClosesNeverFail(f) ==> (LeaksOnFailure(f, n) <==> Opened(f, n).0.Some? && Opened(f, n).1 != {})
    decreases n
  {
    match n
    case Client(_) =>
    case AuditRouter(id, pools) =>
      AuditLeaksIff(f, id, pools);
      OpenAllLeaves(f, pools);
      ClosesWithin(f, pools);
    case KnowledgeRouter(id, pools) =>
      KnowledgeLeaksIff(f, id, pools);
      MadeHolds(f, pools);
      ClosesWithin(f, Reversed(pools[..Made(f, pools)]));
      MembersReversed(pools[..Made(f, pools)]);
    case Laravel(_, d) => LeaksIff(f, d);
    case Aggregate(_, rs) => LeaksInTurnIff(f, rs);
  }

  lemma {:induction false} MadeHolds(f: Faults, pools: seq<nat>)
    ensures OneByOne(f, pools).1 <= Members(pools[..Made(f, pools)])
  {
    if pools != [] {
      var n := Made(f, pools);
      MembersCons(pools[..n]);
      if n > 1 || !(f.opens(pools[0]).Fails? || f.verifies(pools[0]).Fails?) {
        MadeHolds(f, pools[1..]);
        assert pools[..n][1..] == pools[1..][..n - 1];
      }
    }
  }

  lemma {:induction false} LeaksInTurnIff(f: Faults, rs: seq<Node>)
    ensures (forall i | 0 <= i < |rs| :: NothingFails(f, rs[i])) <==> OpenedInTurn(f, rs).0.None?
    ensures LeaksInTurn(f, rs) ==> OpenedInTurn(f, rs).0 == Some(Fatal) && OpenedInTurn(f, rs).1 != {}
    ensures ClosesNeverFail(f) ==> (LeaksInTurn(f, rs) <==> OpenedInTurn(f, rs).0.Some? && OpenedInTurn(f, rs).1 != {})
    decreases rs
  {
    if rs != [] {
      LeaksIff(f, rs[0]);
      LeaksInTurnIff(f, rs[1..]);
      LeaksInTurnStep(f, rs);
      ClosesUpAreLeaves(f, rs[0]);
      hide NothingFails, LeaksOnFailure, LeaksInTurn, Opened, AttemptsUp, Leaves, ClosesNeverFail;
    }
  }

  lemma LeaksInTurnStep(f: Faults, rs: seq<Node>)
    requires rs != []
    ensures LeaksInTurn(f, rs) <==> LeaksOnFailure(f, rs[0]) || (NothingFails(f, rs[0]) && LeaksInTurn(f, rs[1..]))
    ensures (forall i | 0 <= i < |rs| :: NothingFails(f, rs[i])) <==>
      NothingFails(f, rs[0]) && forall i | 0 <= i < |rs[1..]| :: NothingFails(f, rs[1..][i])
  {
    var rest := rs[1..];
    assert forall i | 1 <= i < |rs| :: rs[i] == rest[i - 1];
    hide LeaksOnFailure, NothingFails;
    if LeaksInTurn(f, rs) {
      var i :| 0 <= i < |rs| && LeaksOnFailure(f, rs[i]) && forall j | 0 <= j < i :: NothingFails(f, rs[j]);
      if i > 0 {
        assert LeaksOnFailure(f, rest[i - 1]) && forall j | 0 <= j < i - 1 :: NothingFails(f, rest[j]);
      }
    }
    if NothingFails(f, rs[0]) && LeaksInTurn(f, rest) {
      var i :| 0 <= i < |rest| && LeaksOnFailure(f, rest[i]) && forall j | 0 <= j < i :: NothingFails(f, rest[j]);
      assert LeaksOnFailure(f, rs[i + 1]) && forall j | 0 <= j < i + 1 :: NothingFails(f, rs[j]);
    }
  }

  datatype RuntimeState = Unstarted | Starting | Running | Stopping | Stopped | Broken

  /** The top-level lifecycle over its three resources. */
  class Runtime {
    const resources: Resources
    const audit: Node
    const erp: Node
    const providers: Node
    var state: RuntimeState
    var rolledBack: bool
    var shutdownAttempted: bool

    constructor (resources: Resources, audit: Node, erp: Node, providers: Node)
      ensures this.resources == resources && this.audit == audit && this.erp == erp && this.providers == providers
      ensures state == Unstarted && !rolledBack && !shutdownAttempted
    {
      this.resources, this.audit, this.erp, this.providers := resources, audit, erp, providers;
      state, rolledBack, shutdownAttempted := Unstarted, false, false;
    }

    function Parts(): seq<Node> {
      [audit, erp, providers]
    }

    ghost predicate Valid()
      reads this, resources
    {
      AllProper(Parts()) && AllHoldOwn(resources.held, Parts())
    }

    /** Everything is fresh and nothing is open. */
    ghost predicate Startable()
      reads this, resources
    {
      Valid() && AllFresh(resources.held, resources.states, Parts()) && resources.open == {}
    }

    /** Part `i` is the first that fails, and only a cancellation is passed on as it is. */
    ghost predicate StoppedAt(i: int, kind: Kind) {
      && FailsFirst(resources.f, Parts(), i)
      && kind == if Opened(resources.f, Parts()[i]).0 == Some(Cancel) then Cancel else Error
    }

    /** Start everything, or close what was started again. */
    method Startup() returns (failed: Option<Kind>)
      requires Valid()
      modifies this, resources
      ensures Valid()
      ensures old(state) != Unstarted ==> failed == Some(Error) && state == old(state)
      ensures old(state) == Unstarted ==> state == if failed.None? then Running else Broken
      ensures old(state) == Unstarted ==> rolledBack == (old(rolledBack) || failed.Some?)
      ensures shutdownAttempted == old(shutdownAttempted)
      ensures old(state == Unstarted && Startable()) ==>
        && (failed.None? <==> forall i | 0 <= i < |Parts()| :: NothingFails(resources.f, Parts()[i]))
        && (failed.None? ==> resources.open == AllLeaves(Parts())
                             && AllUp(resources.held, resources.states, Parts()))
        && (failed.Some? ==> LeaksInTurn(resources.f, Parts()) ==> resources.open != {})
        && (failed.Some? && ClosesNeverFail(resources.f) ==>
              (resources.open == {} <==> !LeaksInTurn(resources.f, Parts())))
        && (failed.Some? ==> resources.open == OpenedInTurn(resources.f, Parts()).1)
        && (failed.Some? ==> exists i :: StoppedAt(i, failed.value))
    {
      if state != Unstarted {
        return Some(Error);
      }
      state := Starting;
      ghost var startable := Startable();
      var parts := Parts();
      failed := StartParts(parts);
      if failed.Some? {
        rolledBack, state := true, Broken;
        failed := if failed == Some(Cancel) then Some(Cancel) else Some(Error);
      } else {
        state := Running;
      }
      if startable {
        StartedAs(resources.f, parts);
        if failed.Some? {
          var i :| FailsFirst(resources.f, parts, i)
                   && OpenedInTurn(resources.f, parts).0 == Opened(resources.f, parts[i]).0;
          assert StoppedAt(i, failed.value);
        }
      }
    }

    /** Open the parts in order; at a failure, close every part that was begun, last first. */
    method StartParts(parts: seq<Node>) returns (failed: Option<Kind>)
      requires AllProper(parts) && AllHoldOwn(resources.held, parts)
      modifies resources
      ensures AllHoldOwn(resources.held, parts)
      ensures old(resources.AllStartable(parts)) ==>
        && failed == OpenedInTurn(resources.f, parts).0
        && resources.open == old(resources.open) + OpenedInTurn(resources.f, parts).1
        && (failed.None? ==> AllUp(resources.held, resources.states, parts))
    {
      failed := None;
      ghost var startable := resources.AllStartable(parts);
      ghost var before := resources.open;
      StartInTurn(resources.f, resources.held, resources.states, resources.open, parts, startable);
      hide *;
      var i := 0;
      while i < |parts|
        invariant 0 <= i <= |parts| && AllHoldOwn(resources.held, parts) && failed.None?
        invariant startable ==> OpenedUpTo(resources.f, before, resources.held, resources.states, resources.open, parts, i)
        decreases |parts| - i
      {
        OneOf(resources.held, parts, i);
        resources.NextIsStartable(parts, i, before, startable);
        ghost var heldBefore, statesBefore, openBefore := resources.held, resources.states, resources.open;
        failed := resources.Open(parts[i]);
        OthersStayOwn(heldBefore, statesBefore, resources.held, resources.states, parts, i);
        if failed.Some? {
          UpBefore(resources.f, before, heldBefore, statesBefore, openBefore, parts, i, resources.held,
                   resources.states, startable);
          CloseBegun(parts, i, before, heldBefore, statesBefore, openBefore, failed, startable);
          return;
        }
        if startable {
          OpenedNext(resources.f, before, heldBefore, statesBefore, openBefore, resources.held, resources.states,
                     resources.open, parts, i);
        }
        i := i + 1;
      }
      if startable {
        resources.AllOpened(before, parts);
      }
    }

    /** Close the part that failed and then those before it. */
    method CloseBegun(parts: seq<Node>, i: nat, ghost before: set<nat>, ghost heldBefore: Held,
                      ghost statesBefore: States, ghost openBefore: set<nat>, ghost failed: Option<Kind>,
                      ghost startable: bool)
      requires AllProper(parts) && i < |parts| && AllHoldOwn(resources.held, parts)
      requires startable ==>
        && OpenedUpTo(resources.f, before, heldBefore, statesBefore, openBefore, parts, i)
        && UpTo(resources.held, resources.states, parts, i)
        && failed.Some? && failed == Opened(resources.f, parts[i]).0
        && resources.open == openBefore + Opened(resources.f, parts[i]).1
        && Closes(resources.f, Attempts(resources.f, resources.held, resources.states, parts[i]))
             !! Opened(resources.f, parts[i]).1
      modifies resources
      ensures AllHoldOwn(resources.held, parts)
      ensures startable ==>
        && failed == OpenedInTurn(resources.f, parts).0
        && resources.open == before + OpenedInTurn(resources.f, parts).1
    {
      ghost var heldFailed, statesFailed, openFailed := resources.held, resources.states, resources.open;
      OneOf(resources.held, parts, i);
      ClosesAreLeaves(resources.f, resources.held, resources.states, parts[i]);
      var suppressed := resources.Close(parts[i]);
      OthersStayOwn(heldFailed, statesFailed, resources.held, resources.states, parts, i);
      ghost var heldMid, statesMid := resources.held, resources.states;
      if startable {
        OthersStayUp(heldFailed, statesFailed, heldMid, statesMid, parts, i);
      }
      resources.CloseOpened(parts, i);
      if startable {
        BegunClosed(resources.f, before, openBefore, openFailed, heldBefore, statesBefore, heldFailed, statesFailed,
                    heldMid, statesMid, resources.open, parts, i);
      }
    }

    /** Stop everything: the three resources are closed once each, in reverse order, whatever any
        of them raises. */
    method Shutdown() returns (failed: Option<Kind>)
      requires Valid()
      modifies this, resources
      ensures Valid()
      ensures old(shutdownAttempted || state == Stopped) ==>
        failed == Some(Error) && resources.log == old(resources.log) && state == old(state)
      ensures !old(shutdownAttempted || state == Stopped) && (old(state) == Unstarted || old(rolledBack)) ==>
        failed == None && state == Stopped && resources.log == old(resources.log)
        && resources.open == old(resources.open)
      ensures !old(shutdownAttempted || state == Stopped || state == Unstarted || rolledBack) ==>
        && resources.log == old(resources.log)
             + old(Attempts(resources.f, resources.held, resources.states, providers)
                   + Attempts(resources.f, resources.held, resources.states, erp)
                   + Attempts(resources.f, resources.held, resources.states, audit))
        && EndsAsWorst(resources.f, old(Attempts(resources.f, resources.held, resources.states, providers)
                                        + Attempts(resources.f, resources.held, resources.states, erp)
                                        + Attempts(resources.f, resources.held, resources.states, audit)), failed)
        && failed != Some(Fatal)
        && state == (if failed.None? then Stopped else Broken)
        && (old(AllUp(resources.held, resources.states, Parts())) && ClosesNeverFail(resources.f) ==>
              resources.open == old(resources.open) - AllLeaves(Parts()))
    {
      if shutdownAttempted || state == Stopped {
        return Some(Error);
      }
      shutdownAttempted := true;
      if state == Unstarted || rolledBack {
        state := Stopped;
        return None;
      }
      state := Stopping;
      ghost var up := AllUp(resources.held, resources.states, Parts()) && ClosesNeverFail(resources.f);
      ThreeAttempts(resources.f, resources.held, resources.states, audit, erp, providers);
      if up {
        UpClosesInTurn(resources.f, resources.held, resources.states, Parts());
      }
      hide *;
      failed := resources.CloseInTurn(Parts());
      state := if failed.None? then Stopped else Broken;
    }
  }

  lemma ThreeAttempts(f: Faults, held: Held, states: States, audit: Node, erp: Node, providers: Node)
    ensures AttemptsInTurn(f, held, states, [audit, erp, providers])
         == Attempts(f, held, states, providers) + Attempts(f, held, states, erp) + Attempts(f, held, states, audit)
    ensures CloseEndInTurn(f, held, states, [audit, erp, providers]) != Some(Fatal)
    ensures EndsAsWorst(f, AttemptsInTurn(f, held, states, [audit, erp, providers]),
                        CloseEndInTurn(f, held, states, [audit, erp, providers]))
  {
    var parts := [audit, erp, providers];
    hide *;
    ClosingInTurnEnds(f, held, states, parts);
    NextToClose(f, held, states, parts, 0);
    NextToClose(f, held, states, parts, 1);
    NextToClose(f, held, states, parts, 2);
    NoneToClose(f, held, states);
    assert parts[0..] == parts && parts[3..] == [];
    assert [] + Attempts(f, held, states, providers) == Attempts(f, held, states, providers);
  }

  /** Closing the failed part again takes nothing away that was not closed. */
  lemma BegunClosed(f: Faults, before: set<nat>, openBefore: set<nat>, openFailed: set<nat>, heldBefore: Held,
                    statesBefore: States, heldFailed: Held, statesFailed: States, heldMid: Held, statesMid: States,
                    open: set<nat>, parts: seq<Node>, i: nat)
    requires AllProper(parts) && i < |parts| && AllHoldOwn(heldFailed, parts) && UpTo(heldMid, statesMid, parts, i)
    requires OpenedUpTo(f, before, heldBefore, statesBefore, openBefore, parts, i)
    requires openFailed == openBefore + Opened(f, parts[i]).1 && Opened(f, parts[i]).0.Some?
    requires Closes(f, Attempts(f, heldFailed, statesFailed, parts[i])) !! Opened(f, parts[i]).1
    requires open == openFailed - Closes(f, Attempts(f, heldFailed, statesFailed, parts[i]))
                     - Closes(f, AttemptsInTurn(f, heldMid, statesMid, parts[..i]))
    ensures OpenedInTurn(f, parts).0 == Opened(f, parts[i]).0
    ensures open == before + OpenedInTurn(f, parts).1
  {
    var again := Closes(f, Attempts(f, heldFailed, statesFailed, parts[i]));
    var closed := Closes(f, AttemptsUpInTurn(f, parts[..i]));
    OneOf(heldFailed, parts, i);
    OpenedMeans(f, before, heldBefore, statesBefore, openBefore, parts, i);
    FirstProper(heldFailed, parts, i);
    UpFirst(heldMid, statesMid, parts, i);
    hide *;
    UpAttemptsInTurn(f, heldMid, statesMid, parts[..i]);
    InTurnFails(f, parts, i);
    LeftInTurn(f, parts[..i]);
    FirstApart(parts, i);
    OpenedLeaves(f, parts[i]);
    ClosesAreLeaves(f, heldFailed, statesFailed, parts[i]);
    ClosesUpInTurnAreLeaves(f, parts[..i]);
    LeftOver(before, AllLeaves(parts[..i]), Opened(f, parts[i]).1, closed);
    assert openFailed - again == openFailed;
  }

  lemma OpenedMeans(f: Faults, before: set<nat>, held: Held, states: States, open: set<nat>, rs: seq<Node>, i: nat)
    requires i < |rs| && OpenedUpTo(f, before, held, states, open, rs, i)
    ensures open == before + AllLeaves(rs[..i]) && AllLeaves(rs) !! before
    ensures forall j | 0 <= j < i :: Opened(f, rs[j]).0.None?
    ensures AllLeaves(rs[..i]) <= AllLeaves(rs) && Leaves(rs[i]) <= AllLeaves(rs)
  {
    hide Opened, Up, Fresh, Leaves;
    assert forall j | 0 <= j < i :: rs[..i][j] == rs[j];
  }

  /** Resource `i` is the first that fails. */
  ghost predicate FailsFirst(f: Faults, rs: seq<Node>, i: int) {
    0 <= i < |rs| && !NothingFails(f, rs[i]) && forall j | 0 <= j < i :: NothingFails(f, rs[j])
  }

  lemma {:induction false} SomeFailsFirst(f: Faults, rs: seq<Node>, n: nat)
    requires n <= |rs| && !forall i | 0 <= i < n :: NothingFails(f, rs[i])
    ensures exists i :: FailsFirst(f, rs, i)
  {
    hide NothingFails;
    if forall i | 0 <= i < n - 1 :: NothingFails(f, rs[i]) {
      assert FailsFirst(f, rs, n - 1);
    } else {
      SomeFailsFirst(f, rs, n - 1);
    }
  }

  /** How opening resources in turn ends, by their faults. */
  lemma StartedAs(f: Faults, rs: seq<Node>)
    ensures var r := OpenedInTurn(f, rs);
      && (r.0.None? <==> forall i | 0 <= i < |rs| :: NothingFails(f, rs[i]))
      && (r.0.None? ==> r.1 == AllLeaves(rs))
      && (LeaksInTurn(f, rs) ==> r.1 != {})
      && (r.0.Some? && ClosesNeverFail(f) ==> (r.1 == {} <==> !LeaksInTurn(f, rs)))
      && (r.0.Some? ==> exists i :: FailsFirst(f, rs, i) && r.0 == Opened(f, rs[i]).0)
  {
    LeaksInTurnIff(f, rs);
    InTurnLeaves(f, rs);
    hide NothingFails, LeaksInTurn, Opened, OpenedInTurn, AllLeaves;
    if OpenedInTurn(f, rs).0.Some? {
      SomeFailsFirst(f, rs, |rs|);
      var i :| FailsFirst(f, rs, i);
      forall j | 0 <= j <= i
        ensures NothingFails(f, rs[j]) <==> Opened(f, rs[j]).0.None?
      {
        LeaksIff(f, rs[j]);
      }
      InTurnFails(f, rs, i);
    }
  }

  /** Such a leak does happen: an exit that is neither an exception nor a cancellation, while the
      second pool of a router opens, leaves the first one open. */
  lemma FatalExitLeaks()
    ensures exists f: Faults ::
      && ClosesNeverFail(f) && LeaksOnFailure(f, KnowledgeRouter(0, [1, 2]))
      && Opened(f, KnowledgeRouter(0, [1, 2])).1 == {1}
  {
    var f := Faults((l: nat) => if l == 2 then Fails(Fatal, false) else Fine, (l: nat) => Fine, (l: nat) => Fine);
    var pools := [1, 2];
    assert pools[1..] == [2];
    assert OneByOne(f, [2]) == (Some(Fatal), {});
    var one: set<nat> := {1};
    assert one + {} == one;
    assert OneByOne(f, pools) == (Some(Fatal), one + {});
    assert ClosesNeverFail(f);
    assert LeaksOnFailure(f, KnowledgeRouter(0, [1, 2]));
  }

  /** Three parts, the last of them over a router of two pools. */
  function ThreeParts(): seq<Node> {
    [AuditRouter(0, [1]), Client(2), Aggregate(1, [KnowledgeRouter(2, [3, 4])])]
  }

  lemma LastPartFits()
    ensures var last := Aggregate(1, [KnowledgeRouter(2, [3, 4])]);
      Proper(last) && HoldsOwn(map[], last) && Ids(last) <= {1, 2} && Leaves(last) <= {3, 4}
  {
    var inner := [KnowledgeRouter(2, [3, 4])];
    assert AllIds(inner) <= {2} && AllLeaves(inner) <= {3, 4};
    assert AllProper(inner) && AllHoldOwn(map[], inner);
  }

  lemma ThreePartsFit()
    ensures AllProper(ThreeParts()) && AllHoldOwn(map[], ThreeParts()) && AllFresh(map[], map[], ThreeParts())
  {
    var parts := ThreeParts();
    LastPartFits();
    assert Proper(parts[0]) && HoldsOwn(map[], parts[0]) && Ids(parts[0]) <= {0} && Leaves(parts[0]) <= {1};
    assert Proper(parts[1]) && HoldsOwn(map[], parts[1]) && Ids(parts[1]) <= {} && Leaves(parts[1]) <= {2};
    hide Proper, HoldsOwn, Ids, Leaves;
  }

  /** The second pool of the router is left in a way that the router does not catch. */
  predicate FourthIsFatal(f: Faults) {
    && f.opens(1).Fine? && f.opens(2).Fine? && f.opens(3).Fine? && f.opens(4) == Fails(Fatal, false)
    && f.verifies(1).Fine? && f.verifies(3).Fine?
  }

  lemma FatalRouter(f: Faults)
    requires FourthIsFatal(f)
    ensures Opened(f, KnowledgeRouter(2, [3, 4])) == (Some(Fatal), {3})
  {
    var pools := [3, 4];
    assert FineUpTo(f, pools, 1);
    OneByOneAt(f, pools, 1);
    var three: set<nat> := {3};
    assert pools[..1] == [3];
    assert Members([3]) == three by { assert [3][0] == 3; }
    assert three + {} == three;
  }

  lemma {:induction false} NothingLeft(f: Faults, rs: seq<Node>)
    requires ClosesNeverFail(f)
    ensures LeftAll(f, rs) == {}
    decreases rs
  {
    if rs != [] {
      ClosesUpAreLeaves(f, rs[0]);
      NothingLeft(f, rs[1..]);
    }
  }

  lemma FatalParts(f: Faults)
    requires FourthIsFatal(f) && ClosesNeverFail(f)
    ensures OpenedInTurn(f, ThreeParts()) == (Some(Fatal), {3})
    ensures !forall i | 0 <= i < |ThreeParts()| :: NothingFails(f, ThreeParts()[i])
    ensures forall i :: FailsFirst(f, ThreeParts(), i) ==> Opened(f, ThreeParts()[i]).0 == Some(Fatal)
  {
    var parts := ThreeParts();
    LeaksInTurnIff(f, parts);
    var inner := [KnowledgeRouter(2, [3, 4])];
    FatalRouter(f);
    InTurnFails(f, inner, 0);
    NothingLeft(f, inner[..0]);
    NothingLeft(f, parts[..2]);
    var three: set<nat> := {3};
    assert inner[..0] == [] && AllLeaves([]) == {} && three + {} == three;
    assert FineUpTo(f, [1], 1);
    LeaksIff(f, parts[0]);
    LeaksIff(f, parts[1]);
    hide Leaves, Ids, OneByOne, AllThenVerify, LeaksOnFailure;
    InTurnFails(f, parts, 2);
    forall i | FailsFirst(f, parts, i)
      ensures i == 2
    {
      assert NothingFails(f, parts[0]) && NothingFails(f, parts[1]);
    }
  }

  method NewFatalRuntime() returns (runtime: Runtime)
    ensures fresh(runtime) && fresh(runtime.resources) && runtime.Startable() && runtime.Parts() == ThreeParts()
    ensures runtime.state == Unstarted && FourthIsFatal(runtime.resources.f) && ClosesNeverFail(runtime.resources.f)
  {
    var f := Faults((l: nat) => if l == 4 then Fails(Fatal, false) else Fine, (l: nat) => Fine, (l: nat) => Fine);
    var resources := new Resources(f);
    var parts := ThreeParts();
    runtime := new Runtime(resources, parts[0], parts[1], parts[2]);
    assert runtime.Parts() == parts;
    ThreePartsFit();
    hide ThreeParts, AllProper, AllHoldOwn, AllFresh;
  }

  /** And it happens to a whole startup: the first pool of the knowledge router stays open. */
  method FatalStartupLeaks() returns (runtime: Runtime, failed: Option<Kind>)
    ensures ClosesNeverFail(runtime.resources.f) && failed == Some(Error)
    ensures runtime.state == Broken && runtime.rolledBack && runtime.resources.open == {3}
  {
    runtime := NewFatalRuntime();
    hide ThreeParts, AllProper, AllHoldOwn, AllFresh, OpenedInTurn, LeaksInTurn, NothingFails, FailsFirst, Opened,
      AllLeaves, AllUp, ClosesNeverFail, FourthIsFatal;
    FatalParts(runtime.resources.f);
    failed := runtime.Startup();
    ghost var i :| runtime.StoppedAt(i, failed.value);
    assert FailsFirst(runtime.resources.f, ThreeParts(), i);
  }

  /** Exceptions and cancellations never leak when closing never fails. */
  lemma OnlyFatalLeaks(f: Faults, n: Node)
    requires Opened(f, n).0.Some? && Opened(f, n).0 != Some(Fatal)
    ensures !LeaksOnFailure(f, n)
    ensures ClosesNeverFail(f) ==> Opened(f, n).1 == {}
  {
    LeaksIff(f, n);
    hide Opened, LeaksOnFailure, ClosesNeverFail;
  }
}
