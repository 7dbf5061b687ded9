/**
 * Counting how many entries of a rendered list match the current state:
 * the pages highlight an item by comparing its key with one state field,
 * so "exactly one item is highlighted" is "the key occurs exactly once".
 */
module Selection {

  /** How many entries of `xs` are equal to `x`. */
  function Count<T(==)>(xs: seq<T>, x: T): (n: nat)
    ensures n <= |xs|
    ensures n == 0 <==> x !in xs
  {
    if xs == [] then 0 else (if xs[0] == x then 1 else 0) + Count(xs[1..], x)
  }

  /** Counting over a concatenation adds the counts of the two parts. */
  lemma {:induction false} CountAppend<T>(xs: seq<T>, ys: seq<T>, x: T)
    ensures Count(xs + ys, x) == Count(xs, x) + Count(ys, x)
  {
    if xs != [] {
      assert (xs + ys)[0] == xs[0];
      assert (xs + ys)[1..] == xs[1..] + ys;
      CountAppend(xs[1..], ys, x);
    } else {
      assert xs + ys == ys;
    }
  }

  /** No entry of `xs` appears twice. */
  predicate Distinct<T(==)>(xs: seq<T>) {
    forall i, j :: 0 <= i < j < |xs| ==> xs[i] != xs[j]
  }

  /** In a list without repeats, a present key matches exactly once and an absent key never. */
  lemma {:induction false} CountDistinct<T>(xs: seq<T>, x: T)
    requires Distinct(xs)
    ensures Count(xs, x) == if x in xs then 1 else 0
  {
    if xs != [] {
      assert Distinct(xs[1..]) by {
        forall i, j | 0 <= i < j < |xs| - 1 ensures xs[1..][i] != xs[1..][j] {
          assert xs[i + 1] != xs[j + 1];
        }
      }
      CountDistinct(xs[1..], x);
      if xs[0] == x {
        assert x !in xs[1..] by {
          forall k | 0 <= k < |xs| - 1 ensures xs[1..][k] != x {
            assert xs[0] != xs[k + 1];
          }
        }
      } else {
        assert x in xs ==> x in xs[1..];
      }
    }
  }
}
