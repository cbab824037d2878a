/** The rotation buttons of the editor (`rotateImage` and `rotateImageFine`
    in src/App.tsx), as the pure updater functions those handlers pass to
    `setRotation`. Rotation is a real number of degrees. `setRotationExact`
    stores a plain value and is modelled by the `App` module alone. */
module Rotation {

  datatype Direction = Left | Right

  /** Degrees added by one quarter-turn button press. */
  const QuarterStep: real := 90.0

  /** Degrees added by one fine-rotation button press. */
  const FineStep: real := 1.0

  /** The period used to normalise quarter turns. */
  const FullTurn: real := 360.0

  /** `v` is a whole number. */
  predicate IsWhole(v: real) {
    v.Floor as real == v
  }

  /** Truncation toward zero (`Math.trunc`). */
  function Trunc(v: real): (k: int)
    ensures v >= 0.0 ==> 0.0 <= v - k as real < 1.0
    ensures v < 0.0 ==> -1.0 < v - k as real <= 0.0
  {
    if v >= 0.0 then v.Floor else -((-v).Floor)
  }

  /** JavaScript's `n % 360`: the remainder of truncating division, whose
      sign follows the dividend (unlike Dafny's Euclidean `%`). The result is
      strictly inside one full turn, has the dividend's sign, and differs from
      the dividend by a whole number of full turns. */
  function Rem360(n: real): (r: real)
    ensures -FullTurn < r < FullTurn
    ensures n >= 0.0 ==> r >= 0.0
    ensures n <= 0.0 ==> r <= 0.0
    ensures IsWhole((n - r) / FullTurn)
  {
    var k := Trunc(n / FullTurn);
    assert (n - (n - FullTurn * (k as real))) / FullTurn == k as real;
    n - FullTurn * (k as real)
  }

  /** The three properties of `Rem360` pin it down: no other value has them. */
  lemma Rem360Unique(n: real, r: real)
    requires -FullTurn < r < FullTurn
    requires n >= 0.0 ==> r >= 0.0
    requires n <= 0.0 ==> r <= 0.0
    requires IsWhole((n - r) / FullTurn)
    ensures r == Rem360(n)
  {
    var s := Rem360(n);
    var i := ((n - r) / FullTurn).Floor;
    var j := ((n - s) / FullTurn).Floor;
    assert n - r == FullTurn * (i as real);
    assert n - s == FullTurn * (j as real);
    // r and s lie on the same side of zero and both within one full turn of
    // it, so they differ by less than a full turn: by no whole turn at all.
    assert s - r == FullTurn * ((i - j) as real);
    assert -FullTurn < s - r < FullTurn;
    assert i - j == 0;
  }

  /** On whole degrees `Rem360` is Dafny's `%` applied to the magnitude, with
      the dividend's sign put back. */
  lemma Rem360OfWhole(n: int)
    ensures Rem360(n as real) ==
      if n >= 0 then (n % 360) as real else -(((-n) % 360) as real)
  {
    var r: real := if n >= 0 then (n % 360) as real else -(((-n) % 360) as real);
    var q: int := if n >= 0 then n / 360 else -((-n) / 360);
    assert n - q * 360 == (if n >= 0 then n % 360 else -((-n) % 360));
    assert ((n as real) - r) / FullTurn == q as real;
    Rem360Unique(n as real, r);
  }

  /** `rotateImage`: add or subtract a quarter turn, then take the truncating
      remainder by 360. */
  function QuarterTurn(prev: real, dir: Direction): (r: real)
    ensures -FullTurn < r < FullTurn
  {
    var turned := if dir == Left then prev - QuarterStep else prev + QuarterStep;
    Rem360(turned)
  }

  /** `rotateImageFine`: add or subtract one degree, with no normalisation. */
  function FineTurn(prev: real, dir: Direction): (r: real)
    ensures r - prev == FineStep || prev - r == FineStep
  {
    if dir == Left then prev - FineStep else prev + FineStep
  }

  /** A quarter turn lands strictly inside (-360, 360), on the side of zero of
      `prev ± 90`, and at an angle equal to `prev ± 90` modulo a whole number
      of full turns. */
  lemma QuarterTurnNormalised(prev: real, dir: Direction)
    ensures var turned := if dir == Left then prev - QuarterStep else prev + QuarterStep;
      var r := QuarterTurn(prev, dir);
      && -FullTurn < r < FullTurn
      && (turned >= 0.0 ==> r >= 0.0)
      && (turned <= 0.0 ==> r <= 0.0)
      && IsWhole((turned - r) / FullTurn)
  {
  }

  /** A fine step moves the rotation by exactly one degree each way, even past
      a full turn. */
  lemma FineTurnExact(prev: real)
    ensures FineTurn(prev, Right) - prev == 1.0
    ensures prev - FineTurn(prev, Left) == 1.0
    ensures FineTurn(FineTurn(prev, Right), Left) == prev
    ensures FineTurn(FineTurn(prev, Left), Right) == prev
  {
  }

  /** The angles that quarter turns alone reach from 0: the multiples of 90
      strictly inside (-360, 360). */
  predicate IsQuarterAngle(a: real) {
    a in {-270.0, -180.0, -90.0, 0.0, 90.0, 180.0, 270.0}
  }

  /** Quarter turns keep the rotation on a quarter angle: starting from the
      initial 0, the quarter-turn buttons never produce any other value. */
  lemma QuarterTurnKeepsQuarterAngle(prev: real, dir: Direction)
    requires IsQuarterAngle(prev)
    ensures IsQuarterAngle(QuarterTurn(prev, dir))
  {
    var k: int :| k in {-3, -2, -1, 0, 1, 2, 3} && prev == QuarterStep * (k as real);
    var turned: int := if dir == Left then 90 * k - 90 else 90 * k + 90;
    assert (if dir == Left then prev - QuarterStep else prev + QuarterStep) == turned as real;
    Rem360OfWhole(turned);
  }

  /** Rotating left from 0 gives -90, not 270: the remainder keeps the sign. */
  lemma LeftFromZeroIsNegative()
    ensures QuarterTurn(0.0, Left) == -90.0
  {
    Rem360OfWhole(-90);
  }

  /** A full turn by quarter steps comes back to 0, but a fine step from 359
      reaches 360 and stays there. */
  lemma FullTurnScenarios()
    ensures QuarterTurn(270.0, Right) == 0.0
    ensures FineTurn(359.0, Right) == 360.0
  {
    Rem360OfWhole(360);
  }
}
