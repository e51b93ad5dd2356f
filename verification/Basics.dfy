/** Small datatypes and helpers shared by every module. */
module Basics {

  datatype Option<+T> = None | Some(value: T)

  /** Python's `text or fallback` on strings. */
  function OrDefault(text: string, fallback: string): string {
    if text == "" then fallback else text
  }

  function Max(a: int, b: int): int {
    if a < b then b else a
  }
}
