/** Vocabulary shared by the contracts: 128-bit amounts, accounts and the three ways a call can end. */
module Common {

  const U128_MAX: nat := 0xFFFF_FFFF_FFFF_FFFF_FFFF_FFFF_FFFF_FFFF
  const U64_MAX: nat := 0xFFFF_FFFF_FFFF_FFFF
  const U256_RANGE: nat := 0x1_0000_0000_0000_0000_0000_0000_0000_0000_0000_0000_0000_0000_0000_0000_0000_0000

  // One token is 10^18 attos.
  const ONE_TOKEN: nat := 1_000_000_000_000_000_000

  /** A token amount in attos, as wide as the contracts' `Amount`. */
  type Amount = x: nat | x <= U128_MAX

  /** A point in time in microseconds. */
  type Timestamp = x: nat | x <= U64_MAX

  type ChainId = nat
  type ApplicationId = nat

  datatype AccountOwner = Chain | Address32(hash: nat) | Address20(bytes: nat)

  datatype Account = Account(chainId: ChainId, owner: AccountOwner)

  /** An application owns an account under its own 32-byte identifier. */
  function ApplicationOwner(app: ApplicationId): AccountOwner {
    Address32(app)
  }

  datatype Option<+T> = None | Some(value: T) {
    function GetOr(default: T): T {
      if Some? then value else default
    }
  }

  /**
   * How a state-changing call ends, on values. `Err` keeps the state as far as the call had written it,
   * because a caller may catch the error and commit; a `Panic` always discards the block.
   */
  datatype Outcome<+S, +T> = Ok(state: S, value: T) | Err(state: S) | Panic {
    predicate IsFailure() {
      !Ok?
    }

    function PropagateFailure<U>(): Outcome<S, U>
      requires IsFailure()
    {
      match this
      case Err(s) => Err(s)
      case Panic => Panic
    }

    function Extract(): (S, T)
      requires Ok?
    {
      (state, value)
    }
  }

  /** How a method of one of the stateful classes ends. After `Panicked` the caller restores the committed state. */
  datatype Status<+T> = Done(value: T) | Failed | Panicked {
    predicate IsFailure() {
      !Done?
    }

    function PropagateFailure<U>(): Status<U>
      requires IsFailure()
    {
      match this
      case Failed => Failed
      case Panicked => Panicked
    }

    function Extract(): T
      requires Done?
    {
      value
    }
  }

  /** A method that ended with `status` in state `after` did what the specification `outcome` says. */
  predicate Matches<S(==), T(==)>(outcome: Outcome<S, T>, after: S, status: Status<T>) {
    match outcome
    case Ok(s, v) => status == Done(v) && after == s
    case Err(s) => status == Failed && after == s
    case Panic => status == Panicked
  }

  function Min(a: nat, b: nat): nat {
    if a <= b then a else b
  }

  function Max(a: nat, b: nat): nat {
    if a <= b then b else a
  }

  /** Addition that stops at the largest timestamp. */
  function SaturatingAdd(t: Timestamp, delta: nat): Timestamp {
    Min(t + delta, U64_MAX)
  }
}
