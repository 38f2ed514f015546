/** What several models need: Go's machine integers, and values that may be absent. */
module Common {

  const MAX_INT64 := 0x7FFF_FFFF_FFFF_FFFF
  const MAX_INT32 := 0x7FFF_FFFF
  const TWO64 := 0x1_0000_0000_0000_0000

  predicate Fits64(n: int) {
    -MAX_INT64 - 1 <= n <= MAX_INT64
  }

  type Int64 = n: int | Fits64(n)

  /** The int64 that a mathematical result wraps around to. */
  function Wrap(n: int): (w: int)
    ensures Fits64(w) && (Fits64(n) ==> w == n)
  {
    (n + MAX_INT64 + 1) % TWO64 - MAX_INT64 - 1
  }

  /** The platform's math.MaxInt. */
  predicate IsMaxInt(maxInt: int) {
    maxInt == MAX_INT32 || maxInt == MAX_INT64
  }

  predicate FitsInt(maxInt: int, n: int) {
    -maxInt - 1 <= n <= maxInt
  }

  /** The int that a mathematical result wraps around to, and that Go's int(n) makes of an int64. */
  function Narrow(maxInt: int, n: int): (r: int)
    requires IsMaxInt(maxInt)
    ensures FitsInt(maxInt, r) && (FitsInt(maxInt, n) ==> r == n)
  {
    (n + maxInt + 1) % (2 * maxInt + 2) - maxInt - 1
  }

  function Min(a: int, b: int): int {
    if a < b then a else b
  }

  datatype Option<T> = None | Some(value: T)
}
