/** Shared vocabulary: optional values, and time arithmetic as Go does it. */
module Base {
  datatype Option<+T> = None | Some(value: T)

  datatype Result<+T, +E> = Ok(value: T) | Err(error: E)

  /** How long upstream may take to report usage after a rejection or a reset. */
  const GRACE_MS := 45000

  /** The largest time. */
  const NEVER := 0x7fff_ffff_ffff_ffff

  function Max(a: int, b: int): int { if a < b then b else a }

  function Min(a: int, b: int): int { if a < b then a else b }

  /** Integer division truncating toward zero, as Go's `/`. */
  function Quotient(n: int, d: int): int
    requires d > 0
  {
    if n < 0 then -((-n) / d) else n / d
  }

  /** Milliseconds to whole seconds. */
  function Seconds(ms: int): int { Quotient(ms, 1000) }
}
