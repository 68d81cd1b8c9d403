/** Machine integers, error codes and checked arithmetic shared by the vault programs.

    Every instruction of the programs either commits or rolls back as a whole, so an
    instruction is modelled as a function into `Result`: `Err` leaves the state alone.
 */
module Common {

  const U64_MAX: int := 0xFFFF_FFFF_FFFF_FFFF
  const U128_MAX: int := 0xFFFF_FFFF_FFFF_FFFF_FFFF_FFFF_FFFF_FFFF
  const I64_MAX: int := 0x7FFF_FFFF_FFFF_FFFF

  type u8 = x: int | 0 <= x <= 0xFF
  type u16 = x: int | 0 <= x <= 0xFFFF
  type u64 = x: int | 0 <= x <= U64_MAX
  type i64 = x: int | -I64_MAX - 1 <= x <= I64_MAX

  /** An account address. */
  type Pubkey = nat

  const DEFAULT_PUBKEY: Pubkey := 0

  /** Smallest deposit the share vaults accept, in units of the asset. */
  const MIN_DEPOSIT_AMOUNT: u64 := 1000

  const BPS_DENOMINATOR: u64 := 10_000

  datatype VaultError =
    | ZeroAmount
    | DepositTooSmall
    | VaultPaused
    | VaultNotPaused
    | VaultWiped
    | MathOverflow
    | DivisionByZero
    | SlippageExceeded
    | InsufficientShares
    | InsufficientAssets
    | InsufficientLiquidity
    | InsufficientAllocation
    | Unauthorized
    | OperatorNotApproved
    | RequestNotPending
    | RequestNotFulfilled
    | RequestExpired
    | OracleDeviationExceeded
    | InvalidParameter
    | InvalidAddress
    | StreamTooShort
    | StreamStillActive
    | CapExceeded
    | SubordinationBreach
    | TotalLoss
    | YieldCooldownNotElapsed
    | WrongTrancheCount
    | SharesMismatch
    | MaxTranchesReached
    | DuplicatePriority
    | InvalidSubordinationConfig
    | InvalidCapConfig
    | InvalidYieldConfig
    | IndexOutOfBounds
    | AccountMissing        // the runtime finds no account at a derived address
    | AccountExists         // the runtime refuses to create an account twice
    | AccountNotSystemOwned // the framework refuses the account of another program
    | TokenError            // the token program refuses a transfer, mint or burn

  datatype Option<+T> = None | Some(value: T)

  datatype Result<+T> = Ok(value: T) | Err(error: VaultError) {
    predicate IsFailure() { Err? }

    function PropagateFailure<U>(): Result<U>
      requires Err?
    {
      Err(error)
    }

    function Extract(): T
      requires Ok?
    {
      value
    }
  }

  datatype Guard = Pass | Refuse(error: VaultError) {
    predicate IsFailure() { Refuse? }

    function PropagateFailure<U>(): Result<U>
      requires Refuse?
    {
      Err(error)
    }
  }

  /** The programs' `require!`. */
  function Require(condition: bool, error: VaultError): Guard {
    if condition then Pass else Refuse(error)
  }

  function CheckedAdd(a: u64, b: u64): Result<u64> {
    if a + b <= U64_MAX then Ok(a + b) else Err(MathOverflow)
  }

  function CheckedSub(a: u64, b: u64): Result<u64> {
    if b <= a then Ok(a - b) else Err(MathOverflow)
  }

  /** A token account receiving, or a mint issuing, `b` more units. */
  function TokenAdd(a: u64, b: u64): Result<u64> {
    if a + b <= U64_MAX then Ok(a + b) else Err(TokenError)
  }

  /** A token account sending, or a mint burning, `b` units. */
  function TokenSub(a: u64, b: u64): Result<u64> {
    if b <= a then Ok(a - b) else Err(TokenError)
  }

  function Min(a: int, b: int): int {
    if a <= b then a else b
  }

  /** The amount recorded for `k`; an absent entry holds nothing. */
  function Get<K>(m: map<K, u64>, k: K): u64 {
    if k in m then m[k] else 0
  }
}
