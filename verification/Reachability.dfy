/** States reached from a first one by moves of a relation. */
module Reachability {
  /** `s` is reached from `first` in `n` moves. */
  ghost predicate Reaches<S(!new)>(first: S, moves: (S, S) -> bool, n: nat, s: S)
    decreases n, 2
  {
    if n == 0 then s == first else Follows(first, moves, n, s)
  }

  ghost predicate Follows<S(!new)>(first: S, moves: (S, S) -> bool, n: nat, s: S)
    requires n > 0
    decreases n, 1
  {
    HasCause(first, moves, n, s)
  }

  ghost predicate HasCause<S(!new)>(first: S, moves: (S, S) -> bool, n: nat, s: S)
    requires n > 0
    decreases n, 0
  {
    exists before :: Reaches(first, moves, n - 1, before) && moves(before, s)
  }

  lemma OneMove<S(!new)>(first: S, moves: (S, S) -> bool, n: nat, s: S, t: S)
    requires Reaches(first, moves, n, s) && moves(s, t)
    ensures Reaches(first, moves, n + 1, t)
  {
    assert HasCause(first, moves, n + 1, t);
    assert Follows(first, moves, n + 1, t);
  }

  lemma LastMove<S(!new)>(first: S, moves: (S, S) -> bool, n: nat, s: S) returns (before: S)
    requires n > 0 && Reaches(first, moves, n, s)
    ensures Reaches(first, moves, n - 1, before) && moves(before, s)
  {
    assert Follows(first, moves, n, s);
    assert HasCause(first, moves, n, s);
    before :| Reaches(first, moves, n - 1, before) && moves(before, s);
  }
}
