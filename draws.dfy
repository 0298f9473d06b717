/**
  The numerical and random primitives the scripts call into numpy and Python's
  random module for. Every random draw is an input: a uniform value u in [0, 1)
  (for random(), uniform, binomial, multinomial and randint) or a standard-normal
  value (for normal), supplied by the caller.
 */
module Draws {

  /** A uniform draw from the half-open unit interval. */
  predicate UnitDraw(u: real) {
    0.0 <= u < 1.0
  }

  predicate UnitDraws(us: seq<real>) {
    forall k :: 0 <= k < |us| ==> UnitDraw(us[k])
  }

  /** np.maximum(np.minimum(x, hi), lo) on one element. */
  function Clamp(x: real, lo: real, hi: real): (r: real)
    ensures lo <= hi ==> lo <= r <= hi
    ensures lo <= x <= hi ==> r == x
    ensures x <= lo ==> r == lo
    ensures lo <= hi <= x ==> r == hi
  {
    var m := if x < hi then x else hi;
    if m < lo then lo else m
  }

  /** A number drawn by np.random.uniform(lo, hi) from the unit draw u. */
  function Uniform(lo: real, hi: real, u: real): (r: real)
    requires UnitDraw(u)
    ensures lo <= hi ==> lo <= r <= hi
    ensures lo < hi ==> r < hi
  {
    UniformBelow(lo, hi, u);
    lo + (hi - lo) * u
  }

  lemma UniformBelow(lo: real, hi: real, u: real)
    requires UnitDraw(u)
    ensures lo <= hi ==> 0.0 <= (hi - lo) * u <= hi - lo
    ensures lo < hi ==> (hi - lo) * u < hi - lo
  {
    var d, w := hi - lo, 1.0 - u;
    if lo <= hi {
      assert 0.0 <= d * u && 0.0 <= d * w;
      assert d * u + d * w == d;
    }
    if lo < hi {
      assert 0.0 < d * w;
    }
  }

  /** np.random.binomial(1, p): one success with probability p, decided by the unit draw u. */
  function Bernoulli(p: real, u: real): (r: int)
    ensures r == 0 || r == 1
    ensures r == 1 <==> u < p
    ensures UnitDraw(u) && 1.0 <= p ==> r == 1
    ensures UnitDraw(u) && p <= 0.0 ==> r == 0
  {
    if u < p then 1 else 0
  }

  /**
    np.random.multinomial(1, pvals=[p0, 1 - p0]): a one-hot vector. numpy draws the
    first cell as a binomial with probability p0 and gives the rest to the last cell.
   */
  function Multinomial1(p0: real, u: real): (v: seq<int>)
    ensures |v| == 2 && v[0] + v[1] == 1
    ensures v[0] == 0 || v[0] == 1
    ensures v[0] == 1 <==> u < p0
  {
    var b := Bernoulli(p0, u);
    [b, 1 - b]
  }

  /** np.argmax of a pair of integers: the first position holding the largest value. */
  function ArgmaxInt(v: seq<int>): (i: nat)
    requires |v| == 2
    ensures i < 2 && v[i] >= v[1 - i]
    ensures v[0] == v[1] ==> i == 0
  {
    if v[0] >= v[1] then 0 else 1
  }

  /**
    np.argmax of a pair of reals: the first position holding the largest value.
    It is the same rule as ArgmaxInt, stated again for the real transition
    probabilities (twostepcore.py:263), whereas ArgmaxInt reads the integer
    multinomial outcome; Dafny has no function generic over both ordered types.
   */
  function ArgmaxReal(v: seq<real>): (i: nat)
    requires |v| == 2
    ensures i < 2 && v[i] >= v[1 - i]
    ensures v[0] == v[1] ==> i == 0
  {
    if v[0] >= v[1] then 0 else 1
  }

  /** numpy's randint(high) for high > 0: an index in 0..high-1 taken from the unit draw u. */
  function RandInt(high: nat, u: real): (j: nat)
    requires 0 < high && UnitDraw(u)
    ensures j < high
  {
    FloorBelow(u, high);
    (u * high as real).Floor
  }

  lemma FloorBelow(u: real, n: nat)
    requires 0 < n && UnitDraw(u)
    ensures 0 <= (u * n as real).Floor < n
  {
    assert 0.0 <= u * n as real;
    assert u * n as real < 1.0 * n as real;
  }

  /**
    The index Python 2's random.shuffle swaps with position i:
    j = int(random() * (i + 1)).
   */
  function ShuffleIndex(u: real, i: nat): (j: nat)
    requires UnitDraw(u)
    ensures j <= i
  {
    RandInt(i + 1, u)
  }

  function Swap<T>(s: seq<T>, i: nat, j: nat): (r: seq<T>)
    requires i < |s| && j < |s|
    ensures |r| == |s| && r[i] == s[j] && r[j] == s[i]
    ensures forall k :: 0 <= k < |s| && k != i && k != j ==> r[k] == s[k]
  {
    s[i := s[j]][j := s[i]]
  }

  lemma SwapPermutes<T>(s: seq<T>, i: nat, j: nat)
    requires i < |s| && j < |s|
    ensures multiset(Swap(s, i, j)) == multiset(s)
  {
  }

  /** The number of unit draws random.shuffle consumes on a list of n elements. */
  function DrawsFor(n: nat): nat {
    if n == 0 then 0 else n - 1
  }

  /**
    The swaps random.shuffle still has to do when it is about to handle position i:
    positions i, i-1, ..., 1, position i taking draw us[|us| - i].
   */
  function ShuffleFrom<T>(s: seq<T>, i: nat, us: seq<real>): (r: seq<T>)
    requires i < |s| || i == 0
    requires i <= |us| && UnitDraws(us)
    ensures |r| == |s|
    decreases i
  {
    if i == 0 then s
    else ShuffleFrom(Swap(s, i, ShuffleIndex(us[|us| - i], i)), i - 1, us)
  }

  /** The swaps only rearrange the list. */
  lemma {:induction false} ShuffleFromPermutes<T>(s: seq<T>, i: nat, us: seq<real>)
    requires i < |s| || i == 0
    requires i <= |us| && UnitDraws(us)
    ensures multiset(ShuffleFrom(s, i, us)) == multiset(s)
    decreases i
  {
    if i > 0 {
      var j := ShuffleIndex(us[|us| - i], i);
      SwapPermutes(s, i, j);
      ShuffleFromPermutes(Swap(s, i, j), i - 1, us);
    }
  }

  /** The list random.shuffle leaves behind, given the draws it consumed. */
  function Shuffled<T>(s: seq<T>, us: seq<real>): (r: seq<T>)
    requires |us| == DrawsFor(|s|) && UnitDraws(us)
    ensures |r| == |s|
  {
    ShuffleFrom(s, |us|, us)
  }

  /** random.shuffle only rearranges the list. */
  lemma ShuffledPermutes<T>(s: seq<T>, us: seq<real>)
    requires |us| == DrawsFor(|s|) && UnitDraws(us)
    ensures multiset(Shuffled(s, us)) == multiset(s)
  {
    ShuffleFromPermutes(s, |us|, us);
  }

  /** Python 2's random.shuffle, in place. */
  method Shuffle<T>(a: array<T>, us: seq<real>)
    requires |us| == DrawsFor(a.Length) && UnitDraws(us)
    modifies a
    ensures a[..] == Shuffled(old(a[..]), us)
    ensures multiset(a[..]) == multiset(old(a[..]))
  {
    var i: nat := |us|;
    while i > 0
      invariant i < a.Length || i == 0
      invariant i <= |us|
      invariant ShuffleFrom(a[..], i, us) == Shuffled(old(a[..]), us)
      decreases i
    {
      var j := ShuffleIndex(us[|us| - i], i);
      SwapAt(a, i, j);
      i := i - 1;
    }
    ShuffledPermutes(old(a[..]), us);
  }

  /** x[i], x[j] = x[j], x[i] */
  method SwapAt<T>(a: array<T>, i: nat, j: nat)
    requires i < a.Length && j < a.Length
    modifies a
    ensures a[..] == Swap(old(a[..]), i, j)
  {
    a[i], a[j] := a[j], a[i];
  }

  /** A two-element shuffle (one draw) either keeps or swaps the pair. */
  lemma {:induction false} ShufflePair<T>(x: T, y: T, u: real)
    requires UnitDraw(u)
    ensures Shuffled([x, y], [u]) == (if u < 0.5 then [y, x] else [x, y])
  {
    var j := ShuffleIndex(u, 1);
    assert j == 0 <==> u < 0.5 by {
      FloorBelow(u, 2);
      var f := (u * 2 as real).Floor;
      assert f as real <= u * 2.0 < f as real + 1.0;
    }
    assert Shuffled([x, y], [u]) == ShuffleFrom(Swap([x, y], 1, j), 0, [u]);
  }
}
