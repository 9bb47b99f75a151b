/** Machine words and the option type the other modules share. */
module Words {
  type byte = x: int | 0 <= x < 0x100
  const WRAP := 0x1_0000_0000

  type u32 = x: int | 0 <= x < WRAP

  datatype Option<+T> = None | Some(value: T)

  /** Unsigned modular subtraction of two millisecond counters: a counter that wraps at 2^32 needs
      no special case. Dafny's `%` is never negative, which is what the unsigned subtraction does. */
  function Elapsed(now: u32, start: u32): u32 {
    (now - start) % WRAP
  }

  function Min(a: int, b: int): int {
    if a < b then a else b
  }
}
