/** Generic queries over a table held as a sequence of rows.

    A table is an immutable `seq<T>` in storage order; a `filter_by(...)`
    condition is a predicate `T -> bool`; `.first()` is `FirstWhere` and
    `.count()` is `Count`.
 */
module Seqs {
  import opened Wrappers

  /** `j` is the position of the first row of `xs` that satisfies `p`. */
  ghost predicate IsFirst<T>(xs: seq<T>, p: T -> bool, j: int)
  {
    && 0 <= j < |xs|
    && p(xs[j])
    && forall k :: 0 <= k < j ==> !p(xs[k])
  }

  /** The first row satisfying `p`, or `None` when no row does. */
  function FirstWhere<T>(xs: seq<T>, p: T -> bool): Option<T>
  {
    if |xs| == 0 then None
    else if p(xs[0]) then Some(xs[0])
    else FirstWhere(xs[1..], p)
  }

  /** `FirstWhere` finds nothing exactly when no row matches; otherwise it
      returns the row at the first matching position. */
  lemma {:induction false} FirstWhereSpec<T>(xs: seq<T>, p: T -> bool)
    ensures FirstWhere(xs, p).None? <==> forall j :: 0 <= j < |xs| ==> !p(xs[j])
    ensures FirstWhere(xs, p).Some? ==> exists j :: IsFirst(xs, p, j) && xs[j] == FirstWhere(xs, p).value
    ensures forall j :: IsFirst(xs, p, j) ==> FirstWhere(xs, p) == Some(xs[j])
  {
    if |xs| > 0 && !p(xs[0]) {
      FirstWhereSpec(xs[1..], p);
      assert forall j :: IsFirst(xs[1..], p, j) <==> IsFirst(xs, p, j + 1);
      if FirstWhere(xs, p).Some? {
        var j :| IsFirst(xs[1..], p, j) && xs[1..][j] == FirstWhere(xs, p).value;
        assert IsFirst(xs, p, j + 1);
      }
      forall j | IsFirst(xs, p, j)
        ensures FirstWhere(xs, p) == Some(xs[j])
      {
        assert j > 0;
        assert IsFirst(xs[1..], p, j - 1);
      }
    } else if |xs| > 0 {
      assert IsFirst(xs, p, 0);
    }
  }

  /** Number of rows satisfying `p`. */
  function Count<T>(xs: seq<T>, p: T -> bool): (n: nat)
    ensures n <= |xs|
  {
    if |xs| == 0 then 0
    else Count(xs[..|xs| - 1], p) + (if p(xs[|xs| - 1]) then 1 else 0)
  }

  /** No row is counted exactly when no row matches, and every row is
      counted exactly when every row matches. */
  lemma {:induction false} CountExtremes<T>(xs: seq<T>, p: T -> bool)
    ensures Count(xs, p) == 0 <==> forall j :: 0 <= j < |xs| ==> !p(xs[j])
    ensures Count(xs, p) == |xs| <==> forall j :: 0 <= j < |xs| ==> p(xs[j])
  {
    if |xs| > 0 {
      var init := xs[..|xs| - 1];
      CountExtremes(init, p);
      assert forall j :: 0 <= j < |init| ==> init[j] == xs[j];
    }
  }

  /** Counting one more row of a prefix adds one exactly when that row matches. */
  lemma CountPrefixStep<T>(xs: seq<T>, i: int, p: T -> bool)
    requires 0 <= i < |xs|
    ensures Count(xs[..i + 1], p) == Count(xs[..i], p) + (if p(xs[i]) then 1 else 0)
  {
    assert xs[..i + 1][..i] == xs[..i];
  }

  /** Predicates that agree on every row give the same count. */
  lemma {:induction false} CountCongruent<T>(xs: seq<T>, p: T -> bool, q: T -> bool)
    requires forall j :: 0 <= j < |xs| ==> p(xs[j]) == q(xs[j])
    ensures Count(xs, p) == Count(xs, q)
  {
    if |xs| > 0 {
      CountCongruent(xs[..|xs| - 1], p, q);
    }
  }

  /** A weaker predicate never counts fewer rows. */
  lemma {:induction false} CountMonotone<T>(xs: seq<T>, p: T -> bool, q: T -> bool)
    requires forall j :: 0 <= j < |xs| ==> p(xs[j]) ==> q(xs[j])
    ensures Count(xs, p) <= Count(xs, q)
  {
    if |xs| > 0 {
      CountMonotone(xs[..|xs| - 1], p, q);
    }
  }

  /** Three mutually exclusive predicates together count at most every row once. */
  lemma {:induction false} CountDisjoint3<T>(xs: seq<T>, p: T -> bool, q: T -> bool, r: T -> bool)
    requires forall j :: 0 <= j < |xs| ==> !(p(xs[j]) && q(xs[j]))
    requires forall j :: 0 <= j < |xs| ==> !(p(xs[j]) && r(xs[j]))
    requires forall j :: 0 <= j < |xs| ==> !(q(xs[j]) && r(xs[j]))
    ensures Count(xs, p) + Count(xs, q) + Count(xs, r) <= |xs|
  {
    if |xs| > 0 {
      CountDisjoint3(xs[..|xs| - 1], p, q, r);
    }
  }

  /** `xs` with every occurrence of `x` deleted. */
  function RemoveAll<T(==,!new)>(xs: seq<T>, x: T): (ys: seq<T>)
    ensures forall y :: y != x ==> (y in ys <==> y in xs)
    ensures x !in ys
    ensures |ys| <= |xs|
    ensures x in xs ==> |ys| < |xs|
  {
    if |xs| == 0 then []
    else
      var rest := RemoveAll(xs[1..], x);
      assert forall y :: y in xs <==> y == xs[0] || y in xs[1..];
      if xs[0] == x then rest else [xs[0]] + rest
  }
}
