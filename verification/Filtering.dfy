/** What it means that a loop keeps some of its inputs, in order, each in a new form. */
module Filtering {
  /** How many of the first `k` are to be kept. */
  ghost function Count<T>(xs: seq<T>, keep: T -> bool, k: nat): nat
    requires k <= |xs|
  {
    if k == 0 then 0 else Count(xs, keep, k - 1) + if keep(xs[k - 1]) then 1 else 0
  }

  /** Exactly those that are to be kept, in order, each related to its input by `form`. */
  ghost predicate Keeps<S, T>(kept: seq<S>, xs: seq<T>, keep: T -> bool, form: (S, T) -> bool) {
    && |kept| == Count(xs, keep, |xs|)
    && forall k :: 0 <= k < |xs| && keep(xs[k]) ==>
         Count(xs, keep, k) < |kept| && form(kept[Count(xs, keep, k)], xs[k])
  }

  lemma {:induction false} CountPrefix<T>(xs: seq<T>, keep: T -> bool, m: nat, k: nat)
    requires k <= m <= |xs|
    ensures Count(xs[..m], keep, k) == Count(xs, keep, k)
    decreases k
  {
    if k > 0 {
      CountPrefix(xs, keep, m, k - 1);
    }
  }

  lemma {:induction false} CountAll<T>(xs: seq<T>, keep: T -> bool, k: nat)
    requires k <= |xs| && forall i :: 0 <= i < |xs| ==> keep(xs[i])
    ensures Count(xs, keep, k) == k
    decreases k
  {
    if k > 0 {
      CountAll(xs, keep, k - 1);
    }
  }

  lemma OneMore<S, T>(before: seq<S>, kept: seq<S>, xs: seq<T>, keep: T -> bool, form: (S, T) -> bool, n: S)
    requires xs != [] && Keeps(before, xs[..|xs| - 1], keep, form)
    requires if keep(xs[|xs| - 1]) then kept == before + [n] && form(n, xs[|xs| - 1]) else kept == before
    ensures Keeps(kept, xs, keep, form)
  {
    var last := |xs| - 1;
    CountPrefix(xs, keep, last, last);
    forall k | 0 <= k < |xs| && keep(xs[k])
      ensures Count(xs, keep, k) < |kept| && form(kept[Count(xs, keep, k)], xs[k])
    {
      if k < last {
        CountPrefix(xs, keep, last, k);
        assert xs[..last][k] == xs[k];
      }
    }
  }

  lemma OneSkipped<S, T>(kept: seq<S>, xs: seq<T>, keep: T -> bool, form: (S, T) -> bool)
    requires xs != [] && Keeps(kept, xs[..|xs| - 1], keep, form) && !keep(xs[|xs| - 1])
    ensures Keeps(kept, xs, keep, form)
  {
    var last := |xs| - 1;
    CountPrefix(xs, keep, last, last);
    forall k | 0 <= k < |xs| && keep(xs[k])
      ensures Count(xs, keep, k) < |kept| && form(kept[Count(xs, keep, k)], xs[k])
    {
      CountPrefix(xs, keep, last, k);
      assert xs[..last][k] == xs[k];
    }
  }
}
