/**
 Primitive types of the ink! environment the real-estate registry runs in:
 Rust's `u32`, the 32-byte `AccountId` with its all-zero `Default`, the
 contract's `Error` enum and `Result` alias, and the read side of an ink!
 `Mapping` (`get` returning an `Option`, `unwrap_or_default` on the result).
 */
module Types {

  /** Rust's `u32`; prices and property identifiers have this width. */
  newtype u32 = x: int | 0 <= x < 0x1_0000_0000

  /** `PropertyId` is a plain alias of `u32` in the contract. */
  type PropertyId = u32

  /** An ink! `AccountId`: 32 opaque bytes. */
  type AccountId = a: seq<bv8> | |a| == 32 witness
    [0, 0, 0, 0, 0, 0, 0, 0, 0, 0, 0, 0, 0, 0, 0, 0,
     0, 0, 0, 0, 0, 0, 0, 0, 0, 0, 0, 0, 0, 0, 0, 0]

  /** `AccountId::default()`: the all-zero account. */
  const DefaultAccount: AccountId :=
    [0, 0, 0, 0, 0, 0, 0, 0, 0, 0, 0, 0, 0, 0, 0, 0,
     0, 0, 0, 0, 0, 0, 0, 0, 0, 0, 0, 0, 0, 0, 0, 0]

  datatype Option<+T> = None | Some(value: T) {

    /** Rust's `unwrap_or`; `unwrap_or_default` passes the type's default. */
    function UnwrapOr(default: T): T {
      match this
      case Some(v) => v
      case None => default
    }
  }

  /** The three failures a message of the contract can report. */
  datatype Error = NotTheGovernanceError | PropertyNotApproved | PriceTooLess

  /** The contract's `Result<T> = core::result::Result<T, Error>`. */
  datatype Result<+T> = Ok(value: T) | Err(error: Error)

  /** `Mapping::get`: the stored value at `k`, if any. */
  function Get<K, V>(m: map<K, V>, k: K): Option<V> {
    if k in m then Some(m[k]) else None
  }
}
