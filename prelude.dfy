/** Small value types shared by the modules of the hexite model. */
module Prelude {

  /** `undefined`-or-value, as the TypeScript sources use `T | undefined`. */
  datatype Option<+T> = None | Some(value: T)

  /** An element of a `Uint8Array` or `ArrayBuffer`. */
  newtype byte = x: int | 0 <= x < 256

  function Min(a: int, b: int): int { if a <= b then a else b }

  function Max(a: int, b: int): int { if a <= b then b else a }
}
