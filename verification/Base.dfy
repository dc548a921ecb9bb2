/** Shared vocabulary: optional values, u64 bounds and saturating subtraction. */
module Base {

  datatype Option<+T> = None | Some(value: T)

  const U64_MAX: nat := 0xFFFF_FFFF_FFFF_FFFF

  function Min(a: nat, b: nat): nat { if a < b then a else b }

  function Max(a: nat, b: nat): nat { if a < b then b else a }

  /** `now.saturating_sub(then)`. */
  function Since(now: nat, start: nat): nat { if now < start then 0 else now - start }
}
