/** Small datatypes shared by every module. */
module Util {

  datatype Option<+T> = None | Some(value: T)

  /** The `PartialOrd` order of Rust options: `None` is below every `Some`. */
  predicate OptionLe(a: Option<nat>, b: Option<nat>) {
    a.None? || (b.Some? && a.value <= b.value)
  }

  function Min(a: nat, b: nat): nat {
    if a < b then a else b
  }
}
