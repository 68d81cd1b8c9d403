/** The streaming vault (SVS-5) as transitions between account states.

    Yield handed to the vault accrues linearly from the start of a stream to its end. A
    checkpoint moves what has accrued into the base that shares are priced at.
 */
module StreamLedger {
  import opened Common
  import opened Conversion

  const MIN_STREAM_DURATION: i64 := 60

  /** `distributed` is the part of `amount` that checkpoints have already moved to the base. */
  datatype Stream = Stream(amount: u64, start: i64, end: i64, distributed: u64)

  const IDLE := Stream(0, 0, 0, 0)

  datatype Config = Config(authority: Pubkey, decimalsOffset: u8, paused: bool)

  datatype State = State(
    config: Config,
    base: u64,
    stream: Stream,
    lastCheckpoint: i64,
    balance: u64,                 // asset token account of the vault
    supply: u64,                  // supply of the share mint
    holdings: map<Pubkey, u64>)   // share token accounts

  /** A committed instruction: the new state and the amounts exchanged. */
  datatype Commit = Commit(state: State, assets: u64, shares: u64)

  function Initial(authority: Pubkey, decimalsOffset: u8, now: i64): State {
    State(Config(authority, decimalsOffset, false), 0, IDLE, now, 0, 0, map[])
  }

  function SubTime(a: i64, b: i64): Result<i64> {
    if -I64_MAX - 1 <= a - b <= I64_MAX then Ok(a - b) else Err(MathOverflow)
  }

  /** The base and what has accrued on top of it by `now`. */
  function EffectiveTotalAssets(s: State, now: i64): Result<u64> {
    var stream := s.stream;
    if stream.amount == 0 || now <= stream.start then Ok(s.base)
    else if now >= stream.end then
      var remaining :- CheckedSub(stream.amount, stream.distributed);
      CheckedAdd(s.base, remaining)
    else
      var accrued :- Interpolate(stream, now);
      OnTopOf(s.base, accrued, stream.distributed)
  }

  /** The part of the stream that falls to the time elapsed. */
  function Interpolate(stream: Stream, now: i64): Result<u64> {
    var elapsed :- SubTime(now, stream.start);
    :- Require(elapsed >= 0, MathOverflow);
    var duration :- SubTime(stream.end, stream.start);
    :- Require(duration > 0, MathOverflow);
    MulDiv(stream.amount, elapsed, duration, Floor)
  }

  function OnTopOf(base: u64, accrued: u64, distributed: u64): Result<u64> {
    var incremental :- CheckedSub(accrued, distributed);
    CheckedAdd(base, incremental)
  }

  function Checkpoint(s: State, now: i64): Result<State> {
    if s.stream.amount == 0 then Ok(s)
    else
      var effective :- EffectiveTotalAssets(s, now);
      var accrued :- CheckedSub(effective, s.base);
      if accrued == 0 then Ok(s)
      else
        var distributed :- CheckedAdd(s.stream.distributed, accrued);
        var stream := if now >= s.stream.end then IDLE else s.stream.(distributed := distributed);
        Ok(s.(base := effective, stream := stream, lastCheckpoint := now))
  }

  function Enter(s: State, user: Pubkey, assets: u64, shares: u64): Result<Commit> {
    var balance :- TokenAdd(s.balance, assets);
    var supply :- TokenAdd(s.supply, shares);
    var held :- TokenAdd(Get(s.holdings, user), shares);
    var base :- CheckedAdd(s.base, assets);
    Ok(Commit(s.(balance := balance, supply := supply, holdings := s.holdings[user := held], base := base), assets, shares))
  }

  function Leave(s: State, user: Pubkey, assets: u64, shares: u64): Result<Commit> {
    var held :- TokenSub(Get(s.holdings, user), shares);
    var supply :- TokenSub(s.supply, shares);
    var balance :- TokenSub(s.balance, assets);
    var base :- CheckedSub(s.base, assets);
    Ok(Commit(s.(balance := balance, supply := supply, holdings := s.holdings[user := held], base := base), assets, shares))
  }

  function ToShares(s: State, assets: u64, rounding: Rounding): Result<u64> {
    ConvertToShares(assets, s.base, s.supply, s.config.decimalsOffset, rounding)
  }

  function ToAssets(s: State, shares: u64, rounding: Rounding): Result<u64> {
    ConvertToAssets(shares, s.base, s.supply, s.config.decimalsOffset, rounding)
  }

  function Deposit(s: State, user: Pubkey, assets: u64, minShares: u64, now: i64): Result<Commit> {
    var config := s.config;
    :- Require(!config.paused, VaultPaused);
    :- Require(assets > 0, ZeroAmount);
    :- Require(assets >= MIN_DEPOSIT_AMOUNT, DepositTooSmall);
    var c :- Checkpoint(s, now);
    var shares :- ToShares(c, assets, Floor);
    :- Require(shares > 0, ZeroAmount);
    :- Require(shares >= minShares, SlippageExceeded);
    Enter(c, user, assets, shares)
  }

  function Mint(s: State, user: Pubkey, shares: u64, maxAssets: u64, now: i64): Result<Commit> {
    var config := s.config;
    :- Require(!config.paused, VaultPaused);
    :- Require(shares > 0, ZeroAmount);
    var c :- Checkpoint(s, now);
    var assets :- ToAssets(c, shares, Ceiling);
    :- Require(assets <= maxAssets, SlippageExceeded);
    Enter(c, user, assets, shares)
  }

  function Withdraw(s: State, user: Pubkey, assets: u64, maxShares: u64, now: i64): Result<Commit> {
    var config := s.config;
    :- Require(!config.paused, VaultPaused);
    :- Require(assets > 0, ZeroAmount);
    var c :- Checkpoint(s, now);
    :- Require(assets <= c.base, InsufficientAssets);
    :- Require(assets <= c.balance, InsufficientAssets);
    var shares :- ToShares(c, assets, Ceiling);
    :- Require(shares <= maxShares, SlippageExceeded);
    :- Require(shares <= Get(c.holdings, user), InsufficientShares);
    Leave(c, user, assets, shares)
  }

  function Redeem(s: State, user: Pubkey, shares: u64, minAssets: u64, now: i64): Result<Commit> {
    var config := s.config;
    :- Require(!config.paused, VaultPaused);
    :- Require(shares > 0, ZeroAmount);
    :- Require(shares <= Get(s.holdings, user), InsufficientShares);
    var c :- Checkpoint(s, now);
    var assets :- ToAssets(c, shares, Floor);
    :- Require(assets >= minAssets, SlippageExceeded);
    :- Require(assets <= c.base, InsufficientAssets);
    :- Require(assets <= c.balance, InsufficientAssets);
    Leave(c, user, assets, shares)
  }

  /** Starts a stream over `duration` seconds, once the previous one has ended. */
  function DistributeYield(s: State, caller: Pubkey, amount: u64, duration: i64, now: i64): Result<State> {
    var config := s.config;
    :- Require(caller == config.authority, Unauthorized);
    :- Require(!config.paused, VaultPaused);
    :- Require(amount > 0, ZeroAmount);
    :- Require(duration >= MIN_STREAM_DURATION, StreamTooShort);
    :- Require(now >= s.stream.end || s.stream.amount == 0, StreamStillActive);
    var c :- Checkpoint(s, now);
    var remaining :- CheckedSub(c.stream.amount, c.stream.distributed);
    var base :- if remaining > 0 then CheckedAdd(c.base, remaining) else Ok(c.base);
    var balance :- TokenAdd(c.balance, amount);
    :- Require(now + duration <= I64_MAX, MathOverflow);
    Ok(c.(base := base, balance := balance, stream := Stream(amount, now, now + duration, 0)))
  }

  function SetPaused(s: State, caller: Pubkey, paused: bool): Result<State> {
    var config := s.config;
    :- Require(caller == config.authority, Unauthorized);
    :- Require(config.paused != paused, if paused then VaultPaused else VaultNotPaused);
    Ok(s.(config := s.config.(paused := paused)))
  }

  // Token transfers outside the program.

  function Donate(s: State, amount: u64): Result<State> {
    var balance :- TokenAdd(s.balance, amount);
    Ok(s.(balance := balance))
  }

  function Transfer(s: State, from: Pubkey, to: Pubkey, amount: u64): Result<State> {
    var held :- TokenSub(Get(s.holdings, from), amount);
    var debited := s.holdings[from := held];
    var received :- TokenAdd(Get(debited, to), amount);
    Ok(s.(holdings := debited[to := received]))
  }

  function Burn(s: State, from: Pubkey, amount: u64): Result<State> {
    var held :- TokenSub(Get(s.holdings, from), amount);
    var supply :- TokenSub(s.supply, amount);
    Ok(s.(holdings := s.holdings[from := held], supply := supply))
  }

  // Read-only previews.

  function PreviewDeposit(s: State, assets: u64, now: i64): Result<u64> {
    var total :- EffectiveTotalAssets(s, now);
    ConvertToShares(assets, total, s.supply, s.config.decimalsOffset, Floor)
  }

  function PreviewMint(s: State, shares: u64, now: i64): Result<u64> {
    var total :- EffectiveTotalAssets(s, now);
    ConvertToAssets(shares, total, s.supply, s.config.decimalsOffset, Ceiling)
  }

  function PreviewWithdraw(s: State, assets: u64, now: i64): Result<u64> {
    var total :- EffectiveTotalAssets(s, now);
    ConvertToShares(assets, total, s.supply, s.config.decimalsOffset, Ceiling)
  }

  function PreviewRedeem(s: State, shares: u64, now: i64): Result<u64> {
    var total :- EffectiveTotalAssets(s, now);
    ConvertToAssets(shares, total, s.supply, s.config.decimalsOffset, Floor)
  }

  datatype Op =
    | DepositOp(user: Pubkey, assets: u64, minShares: u64, now: i64)
    | MintOp(user: Pubkey, shares: u64, maxAssets: u64, now: i64)
    | WithdrawOp(user: Pubkey, assets: u64, maxShares: u64, now: i64)
    | RedeemOp(user: Pubkey, shares: u64, minAssets: u64, now: i64)
    | CheckpointOp(now: i64)
    | DistributeYieldOp(caller: Pubkey, amount: u64, duration: i64, now: i64)
    | SetPausedOp(caller: Pubkey, paused: bool)
    | DonateOp(amount: u64)
    | TransferOp(from: Pubkey, to: Pubkey, amount: u64)
    | BurnOp(from: Pubkey, amount: u64)

  function Plain(r: Result<State>): Result<Commit> {
    var s :- r;
    Ok(Commit(s, 0, 0))
  }

  function Step(s: State, op: Op): Result<Commit> {
    match op
    case DepositOp(user, assets, minShares, now) => Deposit(s, user, assets, minShares, now)
    case MintOp(user, shares, maxAssets, now) => Mint(s, user, shares, maxAssets, now)
    case WithdrawOp(user, assets, maxShares, now) => Withdraw(s, user, assets, maxShares, now)
    case RedeemOp(user, shares, minAssets, now) => Redeem(s, user, shares, minAssets, now)
    case CheckpointOp(now) => Plain(Checkpoint(s, now))
    case DistributeYieldOp(caller, amount, duration, now) => Plain(DistributeYield(s, caller, amount, duration, now))
    case SetPausedOp(caller, paused) => Plain(SetPaused(s, caller, paused))
    case DonateOp(amount) => Plain(Donate(s, amount))
    case TransferOp(from, to, amount) => Plain(Transfer(s, from, to, amount))
    case BurnOp(from, amount) => Plain(Burn(s, from, amount))
  }

  function Run(s: State, ops: seq<Op>): Result<State>
    decreases |ops|
  {
    if ops == [] then Ok(s)
    else
      var next :- Step(s, ops[0]);
      Run(next.state, ops[1..])
  }
}
