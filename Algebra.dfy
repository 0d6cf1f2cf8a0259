// Facts of real arithmetic used by the intersection proofs, stated over
// scalars so that each step stays small for the solver.

module Algebra {

  lemma ZeroProduct(a: real, b: real)
    requires a * b == 0.0 && b != 0.0
    ensures a == 0.0
  {
  }

  lemma PositiveProduct(a: real, b: real)
    requires a > 0.0 && b > 0.0
    ensures a * b > 0.0
  {
  }

  lemma PositiveSquareRoot(a: real, b: real)
    requires a > 0.0 && b > 0.0 && a * a == b * b
    ensures a == b
  {
    assert (a - b) * (a + b) == a * a - b * b;
    ZeroProduct(a - b, a + b);
  }

  lemma ParallelComponents(ux: real, uy: real, vx: real, vy: real)
    requires ux * vy - uy * vx == 0.0
    ensures ux * (vx * vx + vy * vy) == (ux * vx + uy * vy) * vx
    ensures uy * (vx * vx + vy * vy) == (ux * vx + uy * vy) * vy
  {
    var c := ux * vy - uy * vx;
    assert ux * (vx * vx + vy * vy) - (ux * vx + uy * vy) * vx == vy * c;
    assert uy * (vx * vx + vy * vy) - (ux * vx + uy * vy) * vy == -vx * c;
  }

  lemma ScaledNorm(ux: real, uy: real, vx: real, vy: real, k: real)
    requires ux == k * vx && uy == k * vy
    ensures ux * ux + uy * uy == (k * k) * (vx * vx + vy * vy)
  {
  }

  lemma DivideOut(x: real, n: real, d: real, v: real)
    requires n != 0.0 && x * n == d * v
    ensures x == (d / n) * v
  {
    assert (d / n) * v * n == d * v;
  }

  /** The unique solution of `t * d == n` for nonzero `d` is `n / d`. */
  lemma Quotient(t: real, d: real, n: real)
    requires d != 0.0 && t * d == n
    ensures t == n / d
  {
  }

  lemma CancelFactor(a: real, b: real, k: real)
    requires b != 0.0 && k != 0.0
    ensures (k * a) / (k * b) == a / b
  {
  }

  lemma Rescale(a: real, m: real, b: real, n: real)
    requires m != 0.0 && n != 0.0 && a / m == b / n
    ensures b == (n / m) * a
  {
    assert b == n * (b / n) == n * (a / m);
  }

  lemma SameImpliesUnitEqual(ux: real, uy: real, vx: real, vy: real, um: real, vm: real)
    requires um > 0.0 && um * um == ux * ux + uy * uy
    requires vm > 0.0 && vm * vm == vx * vx + vy * vy
    requires ux * vy - uy * vx == 0.0 && ux * vx + uy * vy > 0.0
    ensures ux / um == vx / vm && uy / um == vy / vm
  {
    var n := vx * vx + vy * vy;
    var d := ux * vx + uy * vy;
    var k := d / n;
    assert k > 0.0;
    ParallelComponents(ux, uy, vx, vy);
    DivideOut(ux, n, d, vx);
    DivideOut(uy, n, d, vy);
    ScaledNorm(ux, uy, vx, vy, k);
    var w := k * vm;
    assert w * w == (k * k) * (vm * vm);
    PositiveSquareRoot(um, w);
    CancelFactor(vx, vm, k);
    CancelFactor(vy, vm, k);
  }

  lemma UnitEqualImpliesSame(ux: real, uy: real, vx: real, vy: real, um: real, vm: real)
    requires um > 0.0 && um * um == ux * ux + uy * uy
    requires vm > 0.0
    requires ux / um == vx / vm && uy / um == vy / vm
    ensures ux * vy - uy * vx == 0.0 && ux * vx + uy * vy > 0.0
  {
    var r := vm / um;
    Rescale(ux, um, vx, vm);
    Rescale(uy, um, vy, vm);
    assert vx == r * ux && vy == r * uy;
    assert ux * vy - uy * vx == r * (ux * uy - uy * ux);
    assert ux * vx + uy * vy == r * (ux * ux + uy * uy);
    assert r * (um * um) == vm * um;
    PositiveProduct(vm, um);
  }

  lemma UnitVectorsEqual(ux: real, uy: real, vx: real, vy: real, um: real, vm: real)
    requires um > 0.0 && um * um == ux * ux + uy * uy
    requires vm > 0.0 && vm * vm == vx * vx + vy * vy
    ensures (ux / um == vx / vm && uy / um == vy / vm) <==> (ux * vy - uy * vx == 0.0 && ux * vx + uy * vy > 0.0)
  {
    if ux / um == vx / vm && uy / um == vy / vm {
      UnitEqualImpliesSame(ux, uy, vx, vy, um, vm);
    }
    if ux * vy - uy * vx == 0.0 && ux * vx + uy * vy > 0.0 {
      SameImpliesUnitEqual(ux, uy, vx, vy, um, vm);
    }
  }

  /** From the x equation and the defining equation of T2, the y equation follows. */
  lemma SolveYFromX(rpx: real, rpy: real, rdx: real, rdy: real, spx: real, spy: real, sdx: real, sdy: real, t1: real, t2: real)
    requires rdx != 0.0
    requires rdx * t1 == spx + sdx * t2 - rpx
    requires t2 * (sdx * rdy - sdy * rdx) == rdx * (spy - rpy) + rdy * (rpx - spx)
    ensures rpy + t1 * rdy == spy + t2 * sdy
  {
    assert rdx * (rpy + t1 * rdy) == rdx * rpy + rdy * (rdx * t1);
    assert rdx * (rpy + t1 * rdy) == rdx * (spy + t2 * sdy);
  }

  /** For a vertical ray, the defining equation of T2 is the x equation. */
  lemma SolveXFromY(rpx: real, spx: real, rdy: real, sdx: real, t2: real)
    requires rdy != 0.0
    requires t2 * (sdx * rdy) == rdy * (rpx - spx)
    ensures rpx == spx + t2 * sdx
  {
    assert rdy * (t2 * sdx) == rdy * (rpx - spx);
  }

  /** Eliminating T1 from the two coordinate equations gives the defining equation of T2. */
  lemma EliminateRayParameter(rpx: real, rpy: real, rdx: real, rdy: real, spx: real, spy: real, sdx: real, sdy: real, t1: real, t2: real)
    requires rpx + t1 * rdx == spx + t2 * sdx
    requires rpy + t1 * rdy == spy + t2 * sdy
    ensures t2 * (sdx * rdy - sdy * rdx) == rdx * (spy - rpy) + rdy * (rpx - spx)
  {
    assert rdy * (rpx + t1 * rdx) - rdx * (rpy + t1 * rdy) == rdy * (spx + t2 * sdx) - rdx * (spy + t2 * sdy);
  }
}
