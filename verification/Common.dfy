/** Small definitions and arithmetic facts shared by the other modules. */
module Common {
  datatype Option<+T> = None | Some(value: T)

  function Abs(n: int): int {
    if n < 0 then -n else n
  }

  function Max(a: int, b: int): int {
    if a < b then b else a
  }

  function Min(a: int, b: int): int {
    if a < b then a else b
  }

  lemma MulKeepsOrder(c: int, p: int, q: int)
    requires 0 <= c && p <= q
    ensures c * p <= c * q
  {
  }

  lemma CancelFactor(c: int, p: int, q: int)
    requires 0 < c && c * p < c * q
    ensures p < q
  {
  }
}
