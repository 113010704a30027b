/** The numbers the calculators take from numpy and the Python runtime: the constant pi,
    the real cube root (written `x ** (1/3)` in the source), tan and exp. They are not
    defined here; a `Transcendentals` value carries them, and `Sound()` states the only
    facts about them that the proofs rely on. Every result of the model holds for every
    sound choice, in particular for the true pi, cube root, tangent and exponential. */
module Numerics {
  import opened Algebra

  datatype Option<T> = None | Some(value: T)

  datatype Transcendentals = Transcendentals(
    pi: real,
    cbrt: real -> real,
    tan: real -> real,
    exp: real -> real)
  {
    /** tan(pi / n), the tangent in the area of a regular n-gon. */
    function TanPiOver(n: int): real
      requires n != 0
    {
      tan(pi / n as real)
    }

    /** The cube root of a positive number is positive and cubes back to it. */
    predicate CubesBack(x: real) {
      x > 0.0 ==> cbrt(x) > 0.0 && Cube(cbrt(x)) == x
    }

    ghost predicate Sound() {
      && pi > 0.0
      && (forall x: real :: CubesBack(x))
      && (forall n: int :: n >= 3 ==> TanPiOver(n) > 0.0)
      && exp(0.0) == 1.0
      && (forall x: real :: exp(x) > 0.0)
      && (forall x: real, y: real :: x < y ==> exp(x) < exp(y))
    }
  }

  /** The cube root of a positive number is positive and cubes back to it. */
  lemma CubeRoot(t: Transcendentals, x: real)
    requires t.Sound() && x > 0.0
    ensures t.cbrt(x) > 0.0 && Cube(t.cbrt(x)) == x
  {
    assert t.CubesBack(x);
  }

  /** A non-positive exponent gives a factor in (0, 1]. */
  lemma ExpOfNonPositive(t: Transcendentals, x: real)
    requires t.Sound() && x <= 0.0
    ensures 0.0 < t.exp(x) <= 1.0
  {
    if x < 0.0 {
      assert t.exp(x) < t.exp(0.0);
    }
  }
}
