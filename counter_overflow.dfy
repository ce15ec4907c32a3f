/**
 * The line counter exactly as Mapper.java declares and uses it (lines 45 and
 * 72-87): a 32-bit `int` that `++` wraps from 2147483647 to -2147483648, and a
 * `switch` on `counter % 4` whose Java remainder takes the sign of the
 * dividend and which has no `default` branch.
 */
module CounterOverflow {
  const IntMin: int := -0x8000_0000
  const IntMax: int := 0x7fff_ffff
  const Modulus: int := 0x1_0000_0000

  predicate IsInt32(x: int) {
    IntMin <= x <= IntMax
  }

  /** Two's-complement wrap-around of a mathematical integer into 32 bits. */
  function Wrap32(x: int): (r: int)
    ensures IsInt32(r)
    ensures IsInt32(x) ==> r == x
    ensures x == IntMax + 1 ==> r == IntMin
  {
    (x - IntMin) % Modulus + IntMin
  }

  /** Java's `/` on integers: the quotient rounded toward zero. */
  function JavaDiv(a: int, b: int): int
    requires b > 0
  {
    if a >= 0 then a / b else -((-a) / b)
  }

  /**
   * Java's `%`: the remainder of truncating division, so that
   * `(a / b) * b + a % b == a`; it lies strictly between -b and b and takes
   * the sign of `a`.
   */
  function JavaRem(a: int, b: int): (r: int)
    requires b > 0
    ensures JavaDiv(a, b) * b + r == a
    ensures -b < r < b
    ensures a >= 0 ==> 0 <= r
    ensures a <= 0 ==> r <= 0
  {
    if a >= 0 then a % b else -((-a) % b)
  }

  /**
   * One call of `process` on the counter. Below the top of the range a case
   * runs and the remainder moves one step round the cycle; at the top the
   * wrap to IntMin lands on remainder 0; a negative counter with remainder 0
   * runs case 0 and advances to remainder -3; a negative remainder matches no
   * case and leaves the counter as it was.
   */
  function JavaStep(counter: int): (next: int)
    requires IsInt32(counter)
    ensures IsInt32(next)
    ensures 0 <= counter < IntMax ==> next == counter + 1 && JavaRem(next, 4) == (JavaRem(counter, 4) + 1) % 4
    ensures counter == IntMax ==> next == IntMin && JavaRem(next, 4) == 0
    ensures counter < 0 && JavaRem(counter, 4) == 0 ==> next == counter + 1 && JavaRem(next, 4) == -3
    ensures JavaRem(counter, 4) < 0 ==> next == counter
  {
    if 0 <= JavaRem(counter, 4) then Wrap32(counter + 1) else counter
  }

  /** The counter after `n` lines, starting from its initial value 0. */
  function JavaCounterAfter(n: nat): (c: int)
    ensures IsInt32(c)
  {
    if n == 0 then 0 else JavaStep(JavaCounterAfter(n - 1))
  }

  /** Up to 2^31 - 1 lines, the Java counter is the line count. */
  lemma {:induction false} CounterExactBeforeOverflow(n: nat)
    requires n <= IntMax
    ensures JavaCounterAfter(n) == n
  {
    if n > 0 {
      CounterExactBeforeOverflow(n - 1);
    }
  }

  /**
   * Counterexample to "every line advances the counter": after 2^31 + 1
   * lines the counter is -2147483647, whose Java remainder by 4 is -3, so no
   * case of the switch matches and every later line is dropped without
   * advancing the counter or building a read.
   */
  lemma {:induction false} CounterSticksAfterOverflow(k: nat)
    ensures JavaCounterAfter(IntMax + 2 + k) == IntMin + 1
    ensures JavaRem(JavaCounterAfter(IntMax + 2 + k), 4) == -3
  {
    if k == 0 {
      CounterExactBeforeOverflow(IntMax);
      assert JavaRem(IntMax, 4) == 3;
      assert JavaCounterAfter(IntMax + 1) == IntMin;
      assert JavaRem(IntMin, 4) == 0;
    } else {
      CounterSticksAfterOverflow(k - 1);
    }
  }
}
