/**
 * Bitmasks of the reaching-definitions analysis.
 *
 * The source keeps every mask in an unbounded Python int. A mask is modelled
 * as the finite set of the positions of its 1 bits: `1 << i` is `{i}`, `a | b`
 * is `a + b`, `a & b` is `a * b` and `a & ~b` is `a - b`. `Value` gives back
 * the integer, and the lemmas below tie the two views together where the
 * source compares masks as integers.
 */
module Masks {
  type Mask = set<nat>

  /** `1 << i` as a mask. */
  function Bit(i: nat): Mask { {i} }

  /** The positions 0 .. n-1, that is the mask `(1 << n) - 1`. */
  function Below(n: nat): (r: set<nat>)
    ensures forall i: nat :: i in r <==> i < n
  {
    if n == 0 then {} else Below(n - 1) + {n - 1}
  }

  function Pow2(i: nat): (r: nat)
    ensures r >= 1
  {
    if i == 0 then 1 else 2 * Pow2(i - 1)
  }

  /** The largest position of a non-empty mask. */
  ghost function Max(m: Mask): (k: nat)
    requires m != {}
    ensures k in m && forall j :: j in m ==> j <= k
  {
    var x :| x in m;
    if m == {x} then x
    else
      var k' := Max(m - {x});
      assert forall j :: j in m ==> j == x || j in m - {x};
      if x <= k' then k' else x
  }

  /** One past the largest position; 0 for the empty mask. */
  ghost function Top(m: Mask): (t: nat)
    ensures forall j :: j in m ==> j < t
  {
    if m == {} then 0 else Max(m) + 1
  }

  /** The integer whose 1 bits are the positions in `m`. */
  ghost function Value(m: Mask): nat
    decreases |m|
  {
    if m == {} then 0 else Pow2(Max(m)) + Value(m - {Max(m)})
  }

  lemma {:induction false} Pow2Monotone(i: nat, j: nat)
    requires i <= j
    ensures Pow2(i) <= Pow2(j)
  {
    if i < j {
      Pow2Monotone(i, j - 1);
    }
  }

  /** A mask with all its bits below position `k` is smaller than `1 << k`. */
  lemma {:induction false} ValueBelow(m: Mask, k: nat)
    requires forall j :: j in m ==> j < k
    ensures Value(m) < Pow2(k)
    decreases |m|
  {
    if m != {} {
      var top := Max(m);
      ValueBelow(m - {top}, top);
      Pow2Monotone(top + 1, k);
    }
  }

  /**
   * `(1 << i) <= mask` holds exactly when the mask has a 1 bit at position `i`
   * or above: the loop guard of code_node.py's get_node_deps.
   */
  lemma {:induction false} GuardMeansBitAtOrAbove(m: Mask, i: nat)
    ensures Pow2(i) <= Value(m) <==> exists j :: j in m && j >= i
  {
    if exists j :: j in m && j >= i {
      var top := Max(m);
      Pow2Monotone(i, top);
    } else {
      ValueBelow(m, i);
    }
  }

  lemma {:induction false} ValueOfBit(i: nat)
    ensures Value(Bit(i)) == Pow2(i)
  {
    assert Max({i}) == i;
    assert {i} - {i} == {};
  }

  /** A subset of a finite set is no larger than it. */
  lemma {:induction false} SubsetCard<T>(a: set<T>, b: set<T>)
    requires a <= b
    ensures |a| <= |b|
    decreases |b|
  {
    if a != {} {
      var x :| x in a;
      SubsetCard(a - {x}, b - {x});
    }
  }

  lemma {:induction false} BelowCard(n: nat)
    ensures |Below(n)| == n
  {
    if n > 0 {
      BelowCard(n - 1);
    }
  }

  /** Every mask inside `Below(n)` has at most `n` bits. */
  lemma MaskCardBound(m: Mask, n: nat)
    requires m <= Below(n)
    ensures |m| <= n
  {
    SubsetCard(m, Below(n));
    BelowCard(n);
  }
}
