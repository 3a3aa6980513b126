/** Targets and the weight of a chain (types/target.go,
    modules/consensus/processedblock.go).

    A target is a 256-bit number; its inverse is a difficulty. The rationals of
    the source are reals here, and every floor and cap is kept. */
module Targets {

  const ROOT_DEPTH: nat := 0xFFFFFFFF_FFFFFFFF_FFFFFFFF_FFFFFFFF_FFFFFFFF_FFFFFFFF_FFFFFFFF_FFFFFFFF

  /** IntToTarget: overflow gives the maximum, and a negative number the zero target. */
  function IntToTarget(i: int): (t: nat)
    ensures t <= ROOT_DEPTH
    ensures 0 <= i <= ROOT_DEPTH ==> t == i
  {
    if i < 0 then 0 else if i > ROOT_DEPTH then ROOT_DEPTH else i
  }

  function RatToTarget(r: real): (t: nat)
    ensures t <= ROOT_DEPTH
  {
    if r < 0.0 then 0 else IntToTarget(r.Floor)
  }

  /** 1/(1/x + 1/y). The source divides by zero, and panics, on a zero target. */
  function AddDifficulties(x: nat, y: nat): nat
    requires x > 0 && y > 0
  {
    RatToTarget(1.0 / (1.0 / (x as real) + 1.0 / (y as real)))
  }

  /** x/y. */
  function MulDifficulty(x: nat, y: real): nat
    requires x > 0 && y > 0.0
  {
    RatToTarget(1.0 / (y * (1.0 / (x as real))))
  }

  const SURPASS_THRESHOLD: real := 20.0 / 100.0

  /** What a block must weigh less than to replace a tip. */
  function Requirement(depth: nat, childTarget: nat): nat
    requires depth > 0 && childTarget > 0
  {
    AddDifficulties(depth, MulDifficulty(childTarget, SURPASS_THRESHOLD))
  }

  /** heavierThan: the smaller depth is the heavier one. */
  predicate HeavierThan(depth: nat, cmpDepth: nat, cmpChildTarget: nat)
    requires cmpDepth > 0 && cmpChildTarget > 0
  {
    Requirement(cmpDepth, cmpChildTarget) > depth
  }

  // ---------------------------------------------------------------- what the sums do

  lemma InverseSum(x: real, y: real)
    requires x > 0.0 && y > 0.0
    ensures 1.0 / x + 1.0 / y > 0.0
    ensures 0.0 < 1.0 / (1.0 / x + 1.0 / y) < x
  {
    var p, q := 1.0 / x, 1.0 / y;
    assert p > 0.0 && q > 0.0;
    assert p * x == 1.0;
    ProductGrows(p, p + q, x);
    var r := 1.0 / (p + q);
    assert r * (p + q) == 1.0;
    assert r > 0.0;
    if r >= x {
      ProductGrowsWeakly(x, r, p + q);
      assert false;
    }
  }

  lemma ProductGrows(a: real, b: real, c: real)
    requires a < b && c > 0.0
    ensures a * c < b * c
  {
  }

  lemma ProductGrowsWeakly(a: real, b: real, c: real)
    requires a <= b && c >= 0.0
    ensures a * c <= b * c
  {
  }

  /** Adding difficulty strictly lowers a target. */
  lemma AddDifficultiesBelow(x: nat, y: nat)
    requires 0 < x && 0 < y
    ensures AddDifficulties(x, y) < x
    ensures x <= ROOT_DEPTH ==> AddDifficulties(x, y) == (1.0 / (1.0 / (x as real) + 1.0 / (y as real))).Floor
  {
    InverseSum(x as real, y as real);
  }

  /** A positive target keeps a positive product. */
  lemma MulDifficultyIs(x: nat, y: real)
    requires x > 0 && y > 0.0
    ensures MulDifficulty(x, y) == RatToTarget(x as real / y)
    ensures MulDifficulty(x, y) as real <= x as real / y
    ensures MulDifficulty(x, y) < ROOT_DEPTH ==> MulDifficulty(x, y) as real > x as real / y - 1.0
    ensures y <= 1.0 ==> MulDifficulty(x, y) > 0
  {
    var v := x as real;
    assert y * (1.0 / v) * (v / y) == 1.0 by {
      assert y * (1.0 / v) == y / v;
      assert (y / v) * (v / y) == 1.0;
    }
    assert y * (1.0 / v) > 0.0;
    Reciprocal(y * (1.0 / v), v / y);
    if y <= 1.0 {
      QuotientIsLarger(v, y);
    }
  }

  lemma QuotientIsLarger(v: real, y: real)
    requires v > 0.0 && 0.0 < y <= 1.0
    ensures v / y >= v
  {
    var q := v / y;
    assert q * y == v;
    if q < v {
      ProductIsSmaller(q, y);
    }
  }

  lemma ProductIsSmaller(q: real, y: real)
    requires 0.0 < y <= 1.0 && q * y > 0.0
    ensures q * y <= q
  {
    assert q > 0.0;
    assert q - q * y == q * (1.0 - y);
  }

  lemma Reciprocal(a: real, b: real)
    requires a > 0.0 && a * b == 1.0
    ensures 1.0 / a == b
  {
  }

  // ---------------------------------------------------------------- heavierThan is a strict order

  lemma {:induction false} RequirementBelow(depth: nat, childTarget: nat)
    requires depth > 0 && childTarget > 0
    ensures Requirement(depth, childTarget) < depth
  {
    MulDifficultyIs(childTarget, SURPASS_THRESHOLD);
    AddDifficultiesBelow(depth, MulDifficulty(childTarget, SURPASS_THRESHOLD));
  }

  /** Replacing the tip strictly lowers its depth. */
  lemma {:induction false} HeavierIsDeeper(depth: nat, cmpDepth: nat, cmpChildTarget: nat)
    requires cmpDepth > 0 && cmpChildTarget > 0 && HeavierThan(depth, cmpDepth, cmpChildTarget)
    ensures depth < cmpDepth
  {
    RequirementBelow(cmpDepth, cmpChildTarget);
  }

  /** heavierThan is irreflexive, asymmetric and transitive, whatever the child targets. */
  lemma {:induction false} HeavierIsAStrictOrder(a: nat, ta: nat, b: nat, tb: nat, c: nat, tc: nat)
    requires a > 0 && ta > 0 && b > 0 && tb > 0 && c > 0 && tc > 0
    ensures !HeavierThan(a, a, ta)
    ensures HeavierThan(a, b, tb) ==> !HeavierThan(b, a, ta)
    ensures HeavierThan(a, b, tb) && HeavierThan(b, c, tc) ==> HeavierThan(a, c, tc)
  {
    RequirementBelow(a, ta);
    RequirementBelow(b, tb);
    RequirementBelow(c, tc);
  }
}
