// Machine integers and the three ways a run of the contract can end.
module Machine {
  const U32_SPAN: int := 0x1_0000_0000
  const U64_SPAN: int := 0x1_0000_0000_0000_0000
  const U128_SPAN: int := 0x1_0000_0000_0000_0000_0000_0000_0000_0000

  type u8 = x: int | 0 <= x < 256
  type u32 = x: int | 0 <= x < U32_SPAN
  type u64 = x: int | 0 <= x < U64_SPAN
  type u128 = x: int | 0 <= x < U128_SPAN
  type i64 = x: int | -0x8000_0000_0000_0000 <= x < 0x8000_0000_0000_0000

  type Bytes = seq<u8>
  type Bytes32 = b: Bytes | |b| == 32 witness seq(32, _ => 0)

  datatype Option<+T> = None | Some(value: T) {
    predicate IsFailure() { None? }

    function PropagateFailure<U>(): Option<U>
      requires None?
    {
      None
    }

    function Extract(): T
      requires Some?
    {
      value
    }
  }

  datatype Error =
    | BadOrderMatch
    | ChannelCellNotInDep
    | ChannelCapacityMismatch
    | ChannelCreatedBeforeOrder
    | OrderDataNotSet
    | BadXudtAmount
    | BadExtractionAmount
    | MatchDataNotSet
    | HeaderNotSet
    | BadMatchDataUpdate
    | BadMatchUpdate
    | MatchNotExhausted
    | RentPerBlockMismatch
    | BadArgsLength
    | BuyerAuthMissing
    | SellerAuthMissing
    | AuthorizationMissing
    | UnexpectedBranch
    | UnknownState
    // Failures outside the contract: the script is not in the transaction, or a
    // transaction builder could not resolve or adjust a cell.
    | NotExecuted
    | BuildFailed

  /** Outcome of a computation with overflow checks on: a value, a reported
      error, or the trap that an arithmetic overflow raises. */
  datatype Exec<+T> = Ok(value: T) | Err(error: Error) | Trap {
    predicate IsFailure() { !Ok? }

    function PropagateFailure<U>(): Exec<U>
      requires !Ok?
    {
      match this
      case Err(e) => Err(e)
      case Trap => Trap
    }

    function Extract(): T
      requires Ok?
    {
      value
    }
  }

  function Require(condition: bool, error: Error): Exec<()> {
    if condition then Ok(()) else Err(error)
  }

  /** Saturating subtraction of unsigned integers. */
  function SatSub(a: nat, b: nat): nat {
    if a >= b then a - b else 0
  }

  lemma ProductNonNegative(a: nat, b: nat)
    ensures a * b >= 0
  {
  }

  /** Multiplication that traps on overflow. */
  function CheckedMul(a: u64, b: u64): Exec<u64> {
    ProductNonNegative(a, b);
    if a * b < U64_SPAN then Ok(a * b) else Trap
  }
}
