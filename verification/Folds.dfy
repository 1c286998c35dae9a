/** Machines that read a sequence from its start. */
module Folds {

  function Fold<R, E>(f: (R, E) -> R, x: R, s: seq<E>): R {
    if s == [] then x else f(Fold(f, x, s[..|s| - 1]), s[|s| - 1])
  }

  lemma {:induction false} FoldConcat<R, E>(f: (R, E) -> R, x: R, s: seq<E>, t: seq<E>)
    ensures Fold(f, x, s + t) == Fold(f, Fold(f, x, s), t)
  {
    if t == [] {
      assert s + t == s;
    } else {
      FoldConcat(f, x, s, t[..|t| - 1]);
      assert (s + t)[..|s + t| - 1] == s + t[..|t| - 1];
    }
  }

  lemma FoldOne<R, E>(f: (R, E) -> R, x: R, s: seq<E>, e: E)
    ensures Fold(f, x, s + [e]) == f(Fold(f, x, s), e)
  {
    assert (s + [e])[..|s|] == s;
  }
}
