/**
 * The GSL random number generator (gsl_rng) as the code uses it, and the
 * Brownian displacement built on it.
 *
 * A generator is a pair of caller-supplied variate streams, standard normal
 * and uniform on [0, 1), read through one cursor.  gsl_ran_gaussian(r, sigma)
 * is sigma times a standard normal variate, which is how GSL computes it; how
 * many raw generator words each variate consumes is not modelled.
 */
module Random {
  import opened Geometry

  type Unit = u: real | 0.0 <= u < 1.0

  class Rng {
    /** The standard normal variates, in draw order. */
    const normal: nat -> real
    /** The variates of gsl_rng_uniform, in draw order. */
    const uniform: nat -> Unit
    /** How many variates have been drawn. */
    var drawn: nat

    constructor (normal: nat -> real, uniform: nat -> Unit)
      ensures this.normal == normal && this.uniform == uniform
      ensures drawn == 0
    {
      this.normal := normal;
      this.uniform := uniform;
      drawn := 0;
    }

    /** gsl_ran_gaussian(r, sigma). */
    method Gaussian(sigma: real) returns (x: real)
      modifies this
      ensures x == sigma * normal(old(drawn))
      ensures drawn == old(drawn) + 1
    {
      x := sigma * normal(drawn);
      drawn := drawn + 1;
    }

    /** gsl_rng_uniform(r). */
    method Uniform() returns (u: Unit)
      modifies this
      ensures u == uniform(old(drawn))
      ensures drawn == old(drawn) + 1
    {
      u := uniform(drawn);
      drawn := drawn + 1;
    }
  }

  /**
   * One brownianMotion step: each coordinate moves by a Gaussian draw of
   * standard deviation sigma, x first, then y, then z, using the variates
   * k, k + 1 and k + 2.
   */
  function BrownianStep(p: Point, normal: nat -> real, k: nat, sigma: real): Point
  {
    Point(p.x + sigma * normal(k), p.y + sigma * normal(k + 1), p.z + sigma * normal(k + 2))
  }

  /** The position after n Brownian steps from start, the first step using variate `first`. */
  function Path(start: Point, normal: nat -> real, first: nat, sigma: real, n: nat): Point
  {
    if n == 0 then start
    else BrownianStep(Path(start, normal, first, sigma, n - 1), normal, first + 3 * (n - 1), sigma)
  }

  /** The positions before each of n Brownian steps: Path(0), ..., Path(n - 1). */
  function PathPrefix(start: Point, normal: nat -> real, first: nat, sigma: real, n: nat): (ps: seq<Point>)
    ensures |ps| == n
  {
    if n == 0 then []
    else PathPrefix(start, normal, first, sigma, n - 1) + [Path(start, normal, first, sigma, n - 1)]
  }

  /** Every recorded position is the path position of its index, and the walk starts at start. */
  lemma {:induction false} PathPrefixAt(start: Point, normal: nat -> real, first: nat, sigma: real, n: nat)
    ensures forall i :: 0 <= i < n ==> PathPrefix(start, normal, first, sigma, n)[i] == Path(start, normal, first, sigma, i)
    ensures n > 0 ==> PathPrefix(start, normal, first, sigma, n)[0] == start
  {
    if n > 0 {
      PathPrefixAt(start, normal, first, sigma, n - 1);
    }
  }

  /** Consecutive recorded positions differ by exactly one Brownian step of the next three variates. */
  lemma PathSteps(start: Point, normal: nat -> real, first: nat, sigma: real, n: nat)
    ensures forall i :: 0 <= i < n - 1 ==>
      PathPrefix(start, normal, first, sigma, n)[i + 1] ==
      BrownianStep(PathPrefix(start, normal, first, sigma, n)[i], normal, first + 3 * i, sigma)
  {
    PathPrefixAt(start, normal, first, sigma, n);
    forall i | 0 <= i < n - 1
      ensures PathPrefix(start, normal, first, sigma, n)[i + 1] ==
              BrownianStep(PathPrefix(start, normal, first, sigma, n)[i], normal, first + 3 * i, sigma)
    {
      assert Path(start, normal, first, sigma, i + 1) ==
             BrownianStep(Path(start, normal, first, sigma, i), normal, first + 3 * i, sigma);
    }
  }

  /** A walk with zero spread stays where it started. */
  lemma {:induction false} PathWithoutSpread(start: Point, normal: nat -> real, first: nat, n: nat)
    ensures Path(start, normal, first, 0.0, n) == start
  {
    if n > 0 {
      PathWithoutSpread(start, normal, first, n - 1);
    }
  }
}
