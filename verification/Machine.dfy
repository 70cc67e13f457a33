/** Machine integers, addresses and call outcomes shared by the contracts. */
module Machine {
  const I128_MAX: int := 0x7FFF_FFFF_FFFF_FFFF_FFFF_FFFF_FFFF_FFFF
  const I128_MIN: int := -I128_MAX - 1
  const U64_MAX: int := 0xFFFF_FFFF_FFFF_FFFF
  const U32_MAX: int := 0xFFFF_FFFF

  type i128 = x: int | I128_MIN <= x <= I128_MAX
  type u64 = x: int | 0 <= x <= U64_MAX
  type u32 = x: int | 0 <= x <= U32_MAX

  datatype Address = Address(key: nat)
  type Symbol = string

  datatype Option<+T> = None | Some(value: T)

  /** Why the host aborted a call instead of returning one of its error codes. */
  datatype Cause = Unauthorized | NoSuchToken | TransferRefused | ArithmeticOverflow

  /** A contract call returns a value, returns an error code, or traps.
      The host undoes every effect of a call that does not return a value. */
  datatype Outcome<+T, +E> = Ok(value: T) | Err(error: E) | Trap(cause: Cause) {
    predicate IsFailure() {
      !Ok?
    }

    function PropagateFailure<U>(): Outcome<U, E>
      requires !Ok?
    {
      match this
      case Err(e) => Err(e)
      case Trap(c) => Trap(c)
    }

    function Extract(): T
      requires Ok?
    {
      value
    }
  }

  /** What the host supplies to a call: who signed it, and the ledger it runs in. */
  datatype Env = Env(signers: set<Address>, timestamp: u64, sequence: u32)
}
