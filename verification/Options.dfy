/** Option and Result, and the two comparisons on reals the sources call max and min. */
module Options {

  datatype Option<+T> = None | Some(value: T) {
    function GetOr(default: T): T {
      if Some? then value else default
    }
  }

  datatype Result<+T, +E> = Ok(value: T) | Err(error: E)

  function Max(x: real, y: real): (m: real)
    ensures m >= x && m >= y && (m == x || m == y)
  {
    if x >= y then x else y
  }

  function Min(x: real, y: real): (m: real)
    ensures m <= x && m <= y && (m == x || m == y)
  {
    if x <= y then x else y
  }

  /** The least integer that is not below x. */
  function Ceil(x: real): (c: int)
    ensures (c - 1) as real < x <= c as real
  {
    -((-x).Floor)
  }

  /** 2^n. */
  function Pow2(n: nat): (p: nat)
    ensures p >= 1
  {
    if n == 0 then 1 else 2 * Pow2(n - 1)
  }
}
