/** What the lever shows of the moment difference: the beam's tilt and the
    balance indicator. All weights are whole numbers, so the difference is a whole
    number and both are computed exactly in integers. */
module Display {
  import opened Balance

  /** Maximum tilt of the beam, in half-degrees (12 degrees). */
  const MaxTilt: int := 24

  function Min(x: int, y: int): int { if x <= y then x else y }

  function Max(x: int, y: int): int { if x >= y then x else y }

  /** Beam tilt in half-degrees: 1.5 degrees (3 half-degrees) per unit of moment
      difference, saturating at 12 degrees either way. */
  function RotationHalfDegrees(difference: int): (r: int)
    ensures -MaxTilt <= r <= MaxTilt
    ensures -8 <= difference <= 8 ==> r == 3 * difference
    ensures difference >= 8 ==> r == MaxTilt
    ensures difference <= -8 ==> r == -MaxTilt
  {
    Max(-MaxTilt, Min(MaxTilt, difference * 3))
  }

  /** A heavier left side never tilts the beam the other way. */
  lemma RotationMonotone(d1: int, d2: int)
    requires d1 <= d2
    ensures RotationHalfDegrees(d1) <= RotationHalfDegrees(d2)
  {
  }

  /** Mirroring the board mirrors the tilt, and a balanced beam is level. */
  lemma RotationOdd(d: int)
    ensures RotationHalfDegrees(-d) == -RotationHalfDegrees(d)
    ensures RotationHalfDegrees(d) == 0 <==> d == 0
  {
  }

  datatype Indicator = Balanced | Close | Far

  /** The balance indicator: balanced when the absolute difference is below 0.01
      (that is, 100 * |d| < 1), close below 2, far otherwise. */
  function BalanceState(difference: int): (s: Indicator)
    ensures s == Balanced <==> difference == 0
    ensures s == Close <==> (difference == 1 || difference == -1)
    ensures s == Far <==> Abs(difference) >= 2
  {
    var abs := Abs(difference);
    if abs * 100 < 1 then Balanced
    else if abs < 2 then Close
    else Far
  }

  function Severity(s: Indicator): nat
  {
    match s
    case Balanced => 0
    case Close => 1
    case Far => 2
  }

  /** The indicator only gets worse as the difference grows in size. */
  lemma BalanceStateMonotone(d1: int, d2: int)
    requires Abs(d1) <= Abs(d2)
    ensures Severity(BalanceState(d1)) <= Severity(BalanceState(d2))
  {
  }
}
