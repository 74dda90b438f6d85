/** Number helpers of JavaScript that several components use. */
module Numbers {

  /** `Math.max(0, n)` */
  function AtLeastZero(n: int): nat { if n > 0 then n else 0 }

  /** `Math.max`, on whole numbers and on any. */
  function Max(a: int, b: int): int { if a >= b then a else b }
  function MaxReal(x: real, y: real): real { if x < y then y else x }
}
