/** The value tree of the `toml` crate, as far as configuration loading
    inspects it. */
module Toml {
  import opened Wrappers

  const I64_MIN: int := -0x8000_0000_0000_0000
  const I64_MAX: int := 0x7FFF_FFFF_FFFF_FFFF

  /** TOML integers are 64-bit signed. */
  type Int64 = i: int | I64_MIN <= i <= I64_MAX

  /** A TOML float. Floating point is not modelled: a float carries the
      three things the program takes from it, its `Display` text, the value
      of `f as u64` and the value of `((f % 1.0) * 1e9) as u32`. */
  datatype Float64 = Float64(display: string, asU64: nat, fractionNanos: nat)

  datatype Value =
    | String(s: string)
    | Integer(i: Int64)
    | Float(f: Float64)
    | Boolean(b: bool)
    /** A TOML date-time, carrying its `Display` text. */
    | Datetime(display: string)
    | Array(elements: seq<Value>)
    | Table(entries: map<string, Value>)

  /** `Value::get(key)`: the entry of a table, and None for a missing key
      or for a value that is not a table. */
  function Get(v: Value, key: string): Option<Value> {
    match v
    case Table(t) => if key in t then Some(t[key]) else None
    case _ => None
  }
}
