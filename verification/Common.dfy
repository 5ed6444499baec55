/** Option and Result, used wherever the program returns None or raises, and facts about sequences. */
module Common {
  datatype Option<+T> = None | Some(value: T)

  datatype Result<+T, +E> = Ok(value: T) | Err(error: E)

  /** No two places hold the same value. */
  predicate Distinct<T(==)>(xs: seq<T>) {
    forall i, j :: 0 <= i < j < |xs| ==> xs[i] != xs[j]
  }

  /** One more element of a slice. */
  lemma Snoc<T>(a: seq<T>, b: seq<T>, k: nat)
    requires k < |b|
    ensures a + b[..k + 1] == a + b[..k] + [b[k]]
    ensures a + b == a + b[..k] + [b[k]] + b[k + 1..]
  {
    assert b == b[..k] + [b[k]] + b[k + 1..];
  }

  /** The elements that satisfy the predicate, in their order. */
  function Filter<T>(xs: seq<T>, keep: T -> bool): seq<T> {
    if xs == [] then []
    else if keep(xs[0]) then [xs[0]] + Filter(xs[1..], keep)
    else Filter(xs[1..], keep)
  }

  lemma {:induction false} FilterSame<T>(xs: seq<T>, p: T -> bool, q: T -> bool)
    requires forall x :: x in xs ==> p(x) == q(x)
    ensures Filter(xs, p) == Filter(xs, q)
  {
    if xs != [] {
      FilterSame(xs[1..], p, q);
    }
  }

  lemma {:induction false} FilterSnoc<T>(xs: seq<T>, last: T, keep: T -> bool)
    ensures Filter(xs + [last], keep) == if keep(last) then Filter(xs, keep) + [last] else Filter(xs, keep)
  {
    if xs == [] {
      assert xs + [last] == [last];
    } else {
      FilterSnoc(xs[1..], last, keep);
      assert (xs + [last])[1..] == xs[1..] + [last];
    }
  }

  /** Each value once, at its first place. */
  function Firsts<T(==)>(xs: seq<T>): seq<T> {
    if xs == [] then []
    else
      var before, last := Firsts(xs[..|xs| - 1]), xs[|xs| - 1];
      if last in before then before else before + [last]
  }

  lemma FirstsMore<T>(xs: seq<T>, last: T)
    ensures Firsts(xs + [last]) == if last in Firsts(xs) then Firsts(xs) else Firsts(xs) + [last]
  {
    assert (xs + [last])[..|xs|] == xs;
  }
}
