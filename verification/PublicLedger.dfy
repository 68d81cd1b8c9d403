/** The public share vaults as transitions between account states.

    SVS-1 (`Live`) prices shares at the balance of its asset account, SVS-2 (`Stored`) at the
    total it recorded, which outside transfers reach only through `Sync`.
 */
module PublicLedger {
  import opened Common
  import opened Conversion

  datatype Model = Live | Stored

  datatype Config = Config(model: Model, authority: Pubkey, decimalsOffset: u8, paused: bool)

  datatype State = State(
    config: Config,
    recorded: u64,                // total assets in the vault account; SVS-1 leaves it alone
    balance: u64,                 // asset token account of the vault
    supply: u64,                  // supply of the share mint
    holdings: map<Pubkey, u64>)   // share token accounts

  /** A committed instruction: the new state and the amounts exchanged. */
  datatype Commit = Commit(state: State, assets: u64, shares: u64)

  function Initial(model: Model, authority: Pubkey, decimalsOffset: u8): State {
    State(Config(model, authority, decimalsOffset, false), 0, 0, 0, map[])
  }

  /** The assets shares are priced at. */
  function Total(s: State): u64 {
    match s.config.model
    case Live => s.balance
    case Stored => s.recorded
  }

  function VirtualOf(s: State): (vs: nat)
    ensures vs >= 1
  {
    Pow10(s.config.decimalsOffset)
  }

  function Enter(s: State, user: Pubkey, assets: u64, shares: u64): Result<Commit> {
    var balance :- TokenAdd(s.balance, assets);
    var supply :- TokenAdd(s.supply, shares);
    var held :- TokenAdd(Get(s.holdings, user), shares);
    var recorded :- if s.config.model.Stored? then CheckedAdd(s.recorded, assets) else Ok(s.recorded);
    Ok(Commit(s.(balance := balance, supply := supply, holdings := s.holdings[user := held], recorded := recorded), assets, shares))
  }

  function Leave(s: State, user: Pubkey, assets: u64, shares: u64): Result<Commit> {
    var held :- TokenSub(Get(s.holdings, user), shares);
    var supply :- TokenSub(s.supply, shares);
    var balance :- TokenSub(s.balance, assets);
    var recorded :- if s.config.model.Stored? then CheckedSub(s.recorded, assets) else Ok(s.recorded);
    Ok(Commit(s.(balance := balance, supply := supply, holdings := s.holdings[user := held], recorded := recorded), assets, shares))
  }

  function ToShares(s: State, assets: u64, rounding: Rounding): Result<u64> {
    ConvertToShares(assets, Total(s), s.supply, s.config.decimalsOffset, rounding)
  }

  function ToAssets(s: State, shares: u64, rounding: Rounding): Result<u64> {
    ConvertToAssets(shares, Total(s), s.supply, s.config.decimalsOffset, rounding)
  }

  function Deposit(s: State, user: Pubkey, assets: u64, minShares: u64): Result<Commit> {
    var config := s.config;
    :- Require(!config.paused, VaultPaused);
    :- Require(assets > 0, ZeroAmount);
    :- Require(assets >= MIN_DEPOSIT_AMOUNT, DepositTooSmall);
    var shares :- ToShares(s, assets, Floor);
    :- Require(shares >= minShares, SlippageExceeded);
    Enter(s, user, assets, shares)
  }

  function Mint(s: State, user: Pubkey, shares: u64, maxAssets: u64): Result<Commit> {
    var config := s.config;
    :- Require(!config.paused, VaultPaused);
    :- Require(shares > 0, ZeroAmount);
    var assets :- ToAssets(s, shares, Ceiling);
    :- Require(assets >= MIN_DEPOSIT_AMOUNT, DepositTooSmall);
    :- Require(assets <= maxAssets, SlippageExceeded);
    Enter(s, user, assets, shares)
  }

  function Withdraw(s: State, user: Pubkey, assets: u64, maxShares: u64): Result<Commit> {
    var config := s.config;
    :- Require(!config.paused, VaultPaused);
    :- Require(assets > 0, ZeroAmount);
    :- Require(assets <= Total(s), InsufficientAssets);
    var shares :- ToShares(s, assets, Ceiling);
    :- Require(shares <= maxShares, SlippageExceeded);
    :- Require(shares <= Get(s.holdings, user), InsufficientShares);
    Leave(s, user, assets, shares)
  }

  function Redeem(s: State, user: Pubkey, shares: u64, minAssets: u64): Result<Commit> {
    var config := s.config;
    :- Require(!config.paused, VaultPaused);
    :- Require(shares > 0, ZeroAmount);
    :- Require(shares <= Get(s.holdings, user), InsufficientShares);
    var assets :- ToAssets(s, shares, Floor);
    :- Require(assets >= minAssets, SlippageExceeded);
    :- Require(assets <= Total(s), InsufficientAssets);
    Leave(s, user, assets, shares)
  }

  /** SVS-2 only. */
  function Sync(s: State, caller: Pubkey): Result<Commit> {
    var config := s.config;
    :- Require(config.model.Stored?, InvalidParameter);
    :- Require(caller == config.authority, Unauthorized);
    Ok(Commit(s.(recorded := s.balance), 0, 0))
  }

  function SetPaused(s: State, caller: Pubkey, paused: bool): Result<Commit> {
    var config := s.config;
    :- Require(caller == config.authority, Unauthorized);
    :- Require(config.paused != paused, if paused then VaultPaused else VaultNotPaused);
    Ok(Commit(s.(config := s.config.(paused := paused)), 0, 0))
  }

  // Token transfers outside the programs.

  function Donate(s: State, amount: u64): Result<Commit> {
    var balance :- TokenAdd(s.balance, amount);
    Ok(Commit(s.(balance := balance), 0, 0))
  }

  function Transfer(s: State, from: Pubkey, to: Pubkey, amount: u64): Result<Commit> {
    var held :- TokenSub(Get(s.holdings, from), amount);
    var debited := s.holdings[from := held];
    var received :- TokenAdd(Get(debited, to), amount);
    Ok(Commit(s.(holdings := debited[to := received]), 0, 0))
  }

  function Burn(s: State, from: Pubkey, amount: u64): Result<Commit> {
    var held :- TokenSub(Get(s.holdings, from), amount);
    var supply :- TokenSub(s.supply, amount);
    Ok(Commit(s.(holdings := s.holdings[from := held], supply := supply), 0, 0))
  }

  datatype Op =
    | DepositOp(user: Pubkey, assets: u64, minShares: u64)
    | MintOp(user: Pubkey, shares: u64, maxAssets: u64)
    | WithdrawOp(user: Pubkey, assets: u64, maxShares: u64)
    | RedeemOp(user: Pubkey, shares: u64, minAssets: u64)
    | SyncOp(caller: Pubkey)
    | SetPausedOp(caller: Pubkey, paused: bool)
    | DonateOp(amount: u64)
    | TransferOp(from: Pubkey, to: Pubkey, amount: u64)
    | BurnOp(from: Pubkey, amount: u64)

  function Step(s: State, op: Op): Result<Commit> {
    match op
    case DepositOp(user, assets, minShares) => Deposit(s, user, assets, minShares)
    case MintOp(user, shares, maxAssets) => Mint(s, user, shares, maxAssets)
    case WithdrawOp(user, assets, maxShares) => Withdraw(s, user, assets, maxShares)
    case RedeemOp(user, shares, minAssets) => Redeem(s, user, shares, minAssets)
    case SyncOp(caller) => Sync(s, caller)
    case SetPausedOp(caller, paused) => SetPaused(s, caller, paused)
    case DonateOp(amount) => Donate(s, amount)
    case TransferOp(from, to, amount) => Transfer(s, from, to, amount)
    case BurnOp(from, amount) => Burn(s, from, amount)
  }

  /** Committed transactions of any users in any order. */
  function Run(s: State, ops: seq<Op>): Result<State>
    decreases |ops|
  {
    if ops == [] then Ok(s)
    else
      var next :- Step(s, ops[0]);
      Run(next.state, ops[1..])
  }

  /** What a run paid in and out, and what reached the vault from outside. */
  datatype Flow = Flow(paidIn: nat, paidOut: nat, donated: nat)

  function Add(a: Flow, b: Flow): Flow {
    Flow(a.paidIn + b.paidIn, a.paidOut + b.paidOut, a.donated + b.donated)
  }

  function StepFlow(s: State, op: Op): Flow
    requires Step(s, op).Ok?
  {
    var assets := Step(s, op).value.assets;
    match op
    case DepositOp(_, _, _) => Flow(assets, 0, 0)
    case MintOp(_, _, _) => Flow(assets, 0, 0)
    case WithdrawOp(_, _, _) => Flow(0, assets, 0)
    case RedeemOp(_, _, _) => Flow(0, assets, 0)
    case DonateOp(amount) => Flow(0, 0, amount)
    case _ => Flow(0, 0, 0)
  }

  function RunFlow(s: State, ops: seq<Op>): Flow
    requires Run(s, ops).Ok?
    decreases |ops|
  {
    if ops == [] then Flow(0, 0, 0)
    else Add(StepFlow(s, ops[0]), RunFlow(Step(s, ops[0]).value.state, ops[1..]))
  }
}
