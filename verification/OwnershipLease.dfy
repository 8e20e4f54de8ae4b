/** Ownership of one provider lifecycle by one runtime. */
module OwnershipLease {
  import opened Wrappers

  /** Tokens are fresh identities: `issued` counts those handed out. */
  datatype LeaseState = LeaseState(token: Option<nat>, committed: bool, issued: nat)
  datatype Call = Claims | Releases(given: nat) | Commits(given: nat)

  /** What one operation does to the lease, and whether it succeeds. */
  function Step(s: LeaseState, c: Call): (LeaseState, bool) {
    match c
    case Claims =>
      if s.token.Some? || s.committed then (s.(issued := s.issued + 1), false)
      else (LeaseState(Some(s.issued), false, s.issued + 1), true)
    case Releases(given) =>
      if s.token == Some(given) && !s.committed then (s.(token := None), true) else (s, false)
    case Commits(given) =>
      if s.token == Some(given) && !s.committed then (s.(committed := true), true) else (s, false)
  }

  class Lease {
    var token: Option<nat>
    var committed: bool
    var issued: nat

    function State(): LeaseState
      reads this
    {
      LeaseState(token, committed, issued)
    }

    constructor ()
      ensures State() == LeaseState(None, false, 0)
    {
      token, committed, issued := None, false, 0;
    }

    method Claim() returns (r: Option<nat>)
      modifies this
      ensures (State(), r.Some?) == Step(old(State()), Claims)
      ensures r.Some? ==> r == token
    {
      var minted := issued;
      issued := issued + 1;
      if token.Some? || committed {
        return None;
      }
      token := Some(minted);
      r := Some(minted);
    }

    method Release(given: nat) returns (ok: bool)
      modifies this
      ensures (State(), ok) == Step(old(State()), Releases(given))
    {
      if token != Some(given) || committed {
        return false;
      }
      token := None;
      ok := true;
    }

    method Commit(given: nat) returns (ok: bool)
      modifies this
      ensures (State(), ok) == Step(old(State()), Commits(given))
    {
      if token != Some(given) || committed {
        return false;
      }
      committed := true;
      ok := true;
    }
  }

  function Run(s: LeaseState, calls: seq<Call>): LeaseState {
    if calls == [] then s else Step(Run(s, calls[..|calls| - 1]), calls[|calls| - 1]).0
  }

  predicate CommitsAt(s: LeaseState, calls: seq<Call>, i: nat) {
    i < |calls| && calls[i].Commits? && Step(Run(s, calls[..i]), calls[i]).1
  }

  lemma {:induction false} StaysCommitted(s: LeaseState, calls: seq<Call>, i: nat)
    requires i <= |calls| && Run(s, calls[..i]).committed
    ensures Run(s, calls).committed && Run(s, calls).token == Run(s, calls[..i]).token
    decreases |calls| - i
  {
    if i == |calls| {
      assert calls[..i] == calls;
    } else {
      assert calls[..i + 1][..i] == calls[..i];
      StaysCommitted(s, calls, i + 1);
    }
  }

  lemma CommitBlocks(s: LeaseState, calls: seq<Call>, i: nat, j: nat)
    requires CommitsAt(s, calls, i) && i < j < |calls|
    ensures !Step(Run(s, calls[..j]), calls[j]).1
  {
    assert calls[..i + 1][..i] == calls[..i];
    assert calls[..j][..i + 1] == calls[..i + 1];
    StaysCommitted(s, calls[..j], i + 1);
  }

  /** In any run of claims, releases and commits, by any number of runtimes, at most one commit
      ever succeeds, and nothing succeeds after it. */
  lemma OneCommit(s: LeaseState, calls: seq<Call>, i: nat, j: nat)
    requires CommitsAt(s, calls, i) && j < |calls| && Step(Run(s, calls[..j]), calls[j]).1
    ensures j <= i && (CommitsAt(s, calls, j) ==> i == j)
  {
    if i < j {
      CommitBlocks(s, calls, i, j);
    } else if j < i && CommitsAt(s, calls, j) {
      CommitBlocks(s, calls, j, i);
    }
  }
}
