/** The rules both versions of the game share: the square hit test and the
    truncated remaining-time arithmetic. Time is in integer milliseconds; a
    difficulty factor f is carried as the integer 2 * f ("halves"). */
module Rules {

  /** A pixel coordinate (x, y) in the camera frame. */
  type Point = (int, int)

  /** An RGB triple. */
  type Color = (int, int, int)

  /** Half the side of the square around the target in which a fingertip
      scores; the target is drawn as a disc of this radius. */
  const HalfSide: int := 25

  function Abs(n: int): nat {
    if n < 0 then -n else n
  }

  /** True when p lies in the closed box [xLo, xHi] x [yLo, yHi]: the range of
      two calls random.randint(xLo, xHi) and random.randint(yLo, yHi). */
  predicate InBox(p: Point, xLo: int, xHi: int, yLo: int, yHi: int) {
    xLo <= p.0 <= xHi && yLo <= p.1 <= yHi
  }

  /** The collision rule: both axis offsets strictly below HalfSide. */
  predicate IsHit(tip: Point, enemy: Point) {
    Abs(tip.0 - enemy.0) < HalfSide && Abs(tip.1 - enemy.1) < HalfSide
  }

  /** An independent reference for the hit region: the Chebyshev distance. */
  function ChebyshevDistance(p: Point, q: Point): (d: nat)
    ensures d >= Abs(p.0 - q.0) && d >= Abs(p.1 - q.1)
    ensures d == Abs(p.0 - q.0) || d == Abs(p.1 - q.1)
  {
    var dx, dy := Abs(p.0 - q.0), Abs(p.1 - q.1);
    if dx < dy then dy else dx
  }

  /** A hit is exactly a Chebyshev distance below HalfSide: the hit region is
      the square of side 2 * HalfSide - 1 pixels centred on the target. */
  lemma HitIsChebyshevBall(tip: Point, enemy: Point)
    ensures IsHit(tip, enemy) <==> ChebyshevDistance(tip, enemy) < HalfSide
  {
  }

  /** The test is strict on both axes and in both directions. */
  lemma HitBoundary(enemy: Point)
    ensures IsHit((enemy.0 + HalfSide - 1, enemy.1), enemy)
    ensures IsHit((enemy.0 - HalfSide + 1, enemy.1), enemy)
    ensures IsHit((enemy.0, enemy.1 + HalfSide - 1), enemy)
    ensures IsHit((enemy.0, enemy.1 - HalfSide + 1), enemy)
    ensures !IsHit((enemy.0 + HalfSide, enemy.1), enemy)
    ensures !IsHit((enemy.0 - HalfSide, enemy.1), enemy)
    ensures !IsHit((enemy.0, enemy.1 + HalfSide), enemy)
    ensures !IsHit((enemy.0, enemy.1 - HalfSide), enemy)
  {
  }

  /** Swapping fingertip and target does not change the verdict. */
  lemma HitIsSymmetric(p: Point, q: Point)
    ensures IsHit(p, q) <==> IsHit(q, p)
  {
  }

  /** The region is a square, not the drawn disc: a corner point scores
      although its Euclidean distance to the centre exceeds the radius. */
  lemma CornerHitsOutsideDisc(enemy: Point)
    ensures var corner := (enemy.0 + HalfSide - 1, enemy.1 + HalfSide - 1);
            IsHit(corner, enemy) &&
            (corner.0 - enemy.0) * (corner.0 - enemy.0) + (corner.1 - enemy.1) * (corner.1 - enemy.1) > HalfSide * HalfSide
  {
  }

  /** Division truncating toward zero, as Python's int() does to a float. */
  function TruncDiv(n: int, d: int): (q: int)
    requires d > 0
    ensures n >= 0 ==> q >= 0 && q * d <= n < q * d + d
    ensures n < 0 ==> q <= 0 && q * d - d < n <= q * d
  {
    if n >= 0 then n / d else -((-n) / d)
  }

  /** int(timeLimit - elapsed * factor), with elapsed = nowMs - startMs in
      milliseconds and factor = factorHalves / 2. The exact value in seconds is
      (2000 * timeLimit - elapsed * factorHalves) / 2000. */
  function RemainingSeconds(timeLimit: int, startMs: int, nowMs: int, factorHalves: int): int {
    TruncDiv(2000 * timeLimit - (nowMs - startMs) * factorHalves, 2000)
  }

  /** Truncation means a session goes on while at least one whole second is
      left: the remaining time is positive exactly when the scaled elapsed time
      is at most timeLimit - 1 seconds. */
  lemma {:induction false} RemainingPositiveIff(timeLimit: int, startMs: int, nowMs: int, factorHalves: int)
    ensures RemainingSeconds(timeLimit, startMs, nowMs, factorHalves) > 0
        <==> (nowMs - startMs) * factorHalves <= 2000 * timeLimit - 2000
  {
    var n := 2000 * timeLimit - (nowMs - startMs) * factorHalves;
    var q := TruncDiv(n, 2000);
    if n >= 2000 {
      assert q >= 1;
    } else if n >= 0 {
      assert q * 2000 <= n < 2000;
      assert q == 0;
    }
  }
}
