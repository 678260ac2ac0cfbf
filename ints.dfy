/** Small integer helpers shared by the slicing and aggregation steps. */
module Ints {

  /** Python's min() on two integers. */
  function Min(a: int, b: int): (m: int)
    ensures m <= a && m <= b && (m == a || m == b)
  {
    if a <= b then a else b
  }
}
