/**
 * Counting facts about sets of integers drawn from an interval.
 *
 * Both the ticket filler and the caller draw values without replacement
 * from [1, range]; these lemmas say when a fresh value still exists and
 * when the interval has been used up.
 */
module Numbers {

  /** A set whose elements all lie in [lo, lo + n) has at most n elements. */
  lemma {:induction false} BoundedSetSize(s: set<int>, lo: int, n: nat)
    requires forall x :: x in s ==> lo <= x < lo + n
    ensures |s| <= n
  {
    if n == 0 {
      assert forall x :: x !in s;
      assert s == {};
    } else {
      BoundedSetSize(s - {lo + n - 1}, lo, n - 1);
    }
  }

  /**
   * While fewer than n values of [lo, lo + n) are used, some value of the
   * interval is still unused: the retry loops that draw a fresh number
   * can end.
   */
  lemma {:induction false} FreshInRange(s: set<int>, lo: int, n: nat)
    requires forall x :: x in s ==> lo <= x < lo + n
    requires |s| < n
    ensures exists v :: lo <= v < lo + n && v !in s
  {
    var top := lo + n - 1;
    if top in s {
      FreshInRange(s - {top}, lo, n - 1);
    } else {
      assert lo <= top < lo + n && top !in s;
    }
  }

  /** Once n values of [lo, lo + n) are used, every value of the interval is used. */
  lemma {:induction false} FullRange(s: set<int>, lo: int, n: nat)
    requires forall x :: x in s ==> lo <= x < lo + n
    requires |s| >= n
    ensures forall v :: lo <= v < lo + n ==> v in s
  {
    if n > 0 {
      var top := lo + n - 1;
      assert top in s by {
        if top !in s {
          BoundedSetSize(s, lo, n - 1);
          assert false;
        }
      }
      FullRange(s - {top}, lo, n - 1);
    }
  }
}
