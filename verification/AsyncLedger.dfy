/** The request, fulfil, claim protocol of SVS-10 as transitions between account states.

    A state holds every account the instructions can touch: the vault account, the asset
    vault, the share mint and escrow, the holders' share accounts, and per owner at most one
    deposit request, one redeem request and one claimable-tokens account.
 */
module AsyncLedger {
  import opened Common
  import opened Conversion

  /** Oracle prices are assets per share, scaled by this. */
  const PRICE_SCALE: u64 := 1_000_000_000

  datatype Status = Pending | Fulfilled

  datatype DepositRequest = DepositRequest(
    receiver: Pubkey, assetsLocked: u64, sharesClaimable: u64,
    status: Status, requestedAt: i64, fulfilledAt: i64)

  datatype RedeemRequest = RedeemRequest(
    receiver: Pubkey, sharesLocked: u64, assetsClaimable: u64,
    status: Status, requestedAt: i64, fulfilledAt: i64)

  datatype Approval = Approval(canFulfillDeposit: bool, canFulfillRedeem: bool, canClaim: bool)

  const NO_APPROVAL := Approval(false, false, false)

  /** The fields of the vault account that only its authority changes. */
  datatype Config = Config(
    authority: Pubkey, operator: Pubkey, decimalsOffset: u8,
    paused: bool, maxDeviationBps: u16, cancelAfter: i64)

  datatype State = State(
    config: Config,
    totalAssets: u64,
    totalShares: u64,
    totalPendingDeposits: u64,
    totalFulfilledDeposits: u64,
    totalPendingRedeems: u64,
    assetVault: u64,                          // asset token account of the vault
    sharesSupply: u64,                        // supply of the share mint
    shareEscrow: u64,                         // share token account of the vault
    holdings: map<Pubkey, u64>,               // share token accounts of the holders
    claimable: map<Pubkey, u64>,              // claimable-tokens accounts, by request owner
    deposits: map<Pubkey, DepositRequest>,
    redeems: map<Pubkey, RedeemRequest>,
    approvals: map<(Pubkey, Pubkey), Approval>,  // by owner and operator
    programOwned: set<Pubkey>)                // addresses that belong to a program, not to the system

  /** A vault as `initialize` leaves it, for an asset of 9 - decimalsOffset decimals. Addresses that
      belong to a program by then are those a run assigns first. */
  function Initial(authority: Pubkey, operator: Pubkey, decimalsOffset: u8): State {
    State(Config(authority, operator, decimalsOffset, false, 500, 0),
          0, 0, 0, 0, 0, 0, 0, 0, map[], map[], map[], map[], map[], {})
  }

  function ApprovalOf(s: State, owner: Pubkey, caller: Pubkey): Approval {
    if (owner, caller) in s.approvals then s.approvals[(owner, caller)] else NO_APPROVAL
  }

  /** A positive `cancelAfter` gives the operator that long, in seconds, to fulfil a request. */
  function CheckDeadline(cancelAfter: i64, requestedAt: i64, now: i64): Guard {
    if cancelAfter <= 0 then Pass
    else if requestedAt + cancelAfter > I64_MAX then Refuse(MathOverflow)
    else Require(now < requestedAt + cancelAfter, RequestExpired)
  }

  // ---------------------------------------------------------------- pricing

  function Nav(s: State): Result<u64> {
    var n :- CheckedAdd(s.totalAssets, s.totalPendingDeposits);
    CheckedAdd(n, s.totalFulfilledDeposits)
  }

  /** The oracle price is compared with the price of a pool of `shares` backed by the NAV. */
  function ExpectedPrice(s: State, shares: u64): Result<u64> {
    var nav :- Nav(s);
    if nav > 0 || shares > 0
    then ConvertToAssets(PRICE_SCALE, nav, shares, s.config.decimalsOffset, Floor)
    else Ok(PRICE_SCALE)
  }

  function CheckDeviation(price: u64, expected: u64, maxDeviationBps: u16): Guard {
    if expected == 0 then Require(price == 0, OracleDeviationExceeded)
    else
      var diff := if price > expected then price - expected else expected - price;
      Require(Quotient(diff * BPS_DENOMINATOR, expected, Floor) <= maxDeviationBps, OracleDeviationExceeded)
  }

  function DepositShares(s: State, assets: u64, oraclePrice: Option<u64>): Result<u64> {
    match oraclePrice
    case None => ConvertToShares(assets, s.totalAssets, s.totalShares, s.config.decimalsOffset, Floor)
    case Some(price) =>
      :- Require(price != 0, ZeroAmount);
      var expected :- ExpectedPrice(s, s.totalShares);
      :- CheckDeviation(price, expected, s.config.maxDeviationBps);
      MulDiv(assets, PRICE_SCALE, price, Floor)
  }

  /** `liveShares` is the mint supply less the escrowed shares of pending redeems. */
  function RedeemAssets(s: State, shares: u64, liveShares: u64, oraclePrice: Option<u64>): Result<u64> {
    match oraclePrice
    case None => ConvertToAssets(shares, s.totalAssets, liveShares, s.config.decimalsOffset, Floor)
    case Some(price) =>
      :- Require(price != 0, ZeroAmount);
      var expected :- ExpectedPrice(s, liveShares);
      :- CheckDeviation(price, expected, s.config.maxDeviationBps);
      MulDiv(shares, price, PRICE_SCALE, Floor)
  }

  // ---------------------------------------------------------------- deposits

  function RequestDeposit(s: State, user: Pubkey, assets: u64, receiver: Pubkey, now: i64): Result<State> {
    var config := s.config;
    :- Require(!config.paused, VaultPaused);
    :- Require(user !in s.deposits, AccountExists);
    :- Require(assets > 0, ZeroAmount);
    :- Require(assets >= MIN_DEPOSIT_AMOUNT, DepositTooSmall);
    var balance :- TokenAdd(s.assetVault, assets);
    var pending :- CheckedAdd(s.totalPendingDeposits, assets);
    Ok(s.(assetVault := balance, totalPendingDeposits := pending,
          deposits := s.deposits[user := DepositRequest(receiver, assets, 0, Pending, now, 0)]))
  }

  /** The shares an operator's fulfilment grants, or why it is refused. */
  function QuoteDeposit(s: State, caller: Pubkey, owner: Pubkey, oraclePrice: Option<u64>, maxPrice: u64, now: i64): Result<u64> {
    var config := s.config;
    :- Require(!config.paused, VaultPaused);
    :- Require(owner in s.deposits, AccountMissing);
    var request := s.deposits[owner];
    :- Require(request.status.Pending?, RequestNotPending);
    :- Require(caller == config.operator || ApprovalOf(s, owner, caller).canFulfillDeposit, OperatorNotApproved);
    :- CheckDeadline(s.config.cancelAfter, request.requestedAt, now);
    var shares :- DepositShares(s, request.assetsLocked, oraclePrice);
    var price :- if maxPrice > 0 && shares > 0 then MulDiv(request.assetsLocked, PRICE_SCALE, shares, Floor) else Ok(maxPrice);
    :- Require(price <= maxPrice, SlippageExceeded);
    :- Require(shares > 0, ZeroAmount);
    Ok(shares)
  }

  /** Totals move at claim time; fulfilment only moves the assets between buckets. */
  function AcceptDeposit(s: State, owner: Pubkey, shares: u64, now: i64): Result<State>
    requires owner in s.deposits
  {
    var request := s.deposits[owner];
    var pending :- CheckedSub(s.totalPendingDeposits, request.assetsLocked);
    var fulfilled :- CheckedAdd(s.totalFulfilledDeposits, request.assetsLocked);
    Ok(s.(totalPendingDeposits := pending, totalFulfilledDeposits := fulfilled,
          deposits := s.deposits[owner := request.(sharesClaimable := shares, status := Fulfilled, fulfilledAt := now)]))
  }

  function FulfillDeposit(s: State, caller: Pubkey, owner: Pubkey, oraclePrice: Option<u64>, maxPrice: u64, now: i64): Result<State> {
    var shares :- QuoteDeposit(s, caller, owner, oraclePrice, maxPrice, now);
    AcceptDeposit(s, owner, shares, now)
  }

  /** Mints the granted shares and counts the deposit in the vault's totals. */
  function IssueShares(s: State, owner: Pubkey): Result<State>
    requires owner in s.deposits
  {
    var request := s.deposits[owner];
    var supply :- TokenAdd(s.sharesSupply, request.sharesClaimable);
    var held :- TokenAdd(Get(s.holdings, request.receiver), request.sharesClaimable);
    var fulfilled :- CheckedSub(s.totalFulfilledDeposits, request.assetsLocked);
    var assets :- CheckedAdd(s.totalAssets, request.assetsLocked);
    var shares :- CheckedAdd(s.totalShares, request.sharesClaimable);
    Ok(s.(sharesSupply := supply, holdings := s.holdings[request.receiver := held],
          totalFulfilledDeposits := fulfilled, totalAssets := assets, totalShares := shares,
          deposits := s.deposits - {owner}))
  }

  /** Settles even while the vault is paused. */
  function ClaimDeposit(s: State, claimant: Pubkey, owner: Pubkey): Result<State> {
    var requests := s.deposits;
    :- Require(owner in requests, AccountMissing);
    var request := requests[owner];
    :- Require(owner !in s.programOwned && request.receiver !in s.programOwned, AccountNotSystemOwned);
    :- Require(request.status.Fulfilled?, RequestNotFulfilled);
    :- Require(claimant == request.receiver || ApprovalOf(s, owner, claimant).canClaim, OperatorNotApproved);
    IssueShares(s, owner)
  }

  function CancelDeposit(s: State, user: Pubkey, now: i64): Result<State> {
    var config := s.config;
    :- Require(!config.paused, VaultPaused);
    :- Require(user in s.deposits, AccountMissing);
    var request := s.deposits[user];
    :- Require(request.status.Pending?, RequestNotPending);
    :- Require(config.cancelAfter > 0 ==> now > request.requestedAt, RequestNotPending);
    var balance :- TokenSub(s.assetVault, request.assetsLocked);
    var pending :- CheckedSub(s.totalPendingDeposits, request.assetsLocked);
    Ok(s.(assetVault := balance, totalPendingDeposits := pending, deposits := s.deposits - {user}))
  }

  // ---------------------------------------------------------------- redeems

  function RequestRedeem(s: State, user: Pubkey, shares: u64, receiver: Pubkey, now: i64): Result<State> {
    var config := s.config;
    :- Require(!config.paused, VaultPaused);
    :- Require(user !in s.redeems, AccountExists);
    :- Require(shares > 0, ZeroAmount);
    var held :- TokenSub(Get(s.holdings, user), shares);
    var escrow :- TokenAdd(s.shareEscrow, shares);
    var pending :- CheckedAdd(s.totalPendingRedeems, shares);
    Ok(s.(holdings := s.holdings[user := held], shareEscrow := escrow, totalPendingRedeems := pending,
          redeems := s.redeems[user := RedeemRequest(receiver, shares, 0, Pending, now, 0)]))
  }

  /** The assets an operator's fulfilment pays, or why it is refused. */
  function QuoteRedeem(s: State, caller: Pubkey, owner: Pubkey, oraclePrice: Option<u64>, minPrice: u64, now: i64): Result<u64> {
    var config := s.config;
    :- Require(!config.paused, VaultPaused);
    :- Require(owner in s.redeems, AccountMissing);
    var request := s.redeems[owner];
    :- Require(request.status.Pending?, RequestNotPending);
    :- Require(owner !in s.claimable, AccountExists);
    var live :- CheckedSub(s.sharesSupply, s.totalPendingRedeems);
    :- Require(caller == config.operator || ApprovalOf(s, owner, caller).canFulfillRedeem, OperatorNotApproved);
    :- CheckDeadline(s.config.cancelAfter, request.requestedAt, now);
    var assets :- RedeemAssets(s, request.sharesLocked, live, oraclePrice);
    var price :- if minPrice > 0 && request.sharesLocked > 0 then MulDiv(assets, PRICE_SCALE, request.sharesLocked, Floor) else Ok(minPrice);
    :- Require(price >= minPrice, SlippageExceeded);
    :- Require(assets > 0, ZeroAmount);
    Ok(assets)
  }

  /** Burns the escrowed shares and sets the assets aside for the owner. */
  function SettleRedeem(s: State, owner: Pubkey, assets: u64, now: i64): Result<State>
    requires owner in s.redeems
  {
    var request := s.redeems[owner];
    var unpending :- CheckedSub(s.assetVault, s.totalPendingDeposits);
    var available :- CheckedSub(unpending, s.totalFulfilledDeposits);
    :- Require(available >= assets, InsufficientLiquidity);
    var escrow :- TokenSub(s.shareEscrow, request.sharesLocked);
    var supply :- TokenSub(s.sharesSupply, request.sharesLocked);
    var balance :- TokenSub(s.assetVault, assets);
    var total :- CheckedSub(s.totalAssets, assets);
    var shares :- CheckedSub(s.totalShares, request.sharesLocked);
    var pending :- CheckedSub(s.totalPendingRedeems, request.sharesLocked);
    Ok(s.(shareEscrow := escrow, sharesSupply := supply, assetVault := balance,
          claimable := s.claimable[owner := assets],
          totalAssets := total, totalShares := shares, totalPendingRedeems := pending,
          redeems := s.redeems[owner := request.(assetsClaimable := assets, status := Fulfilled, fulfilledAt := now)]))
  }

  function FulfillRedeem(s: State, caller: Pubkey, owner: Pubkey, oraclePrice: Option<u64>, minPrice: u64, now: i64): Result<State> {
    var assets :- QuoteRedeem(s, caller, owner, oraclePrice, minPrice, now);
    SettleRedeem(s, owner, assets, now)
  }

  /** Settles even while the vault is paused. The emptied claimable account is closed. */
  function ClaimRedeem(s: State, claimant: Pubkey, owner: Pubkey): Result<State> {
    var requests := s.redeems;
    :- Require(owner in requests, AccountMissing);
    var request := requests[owner];
    :- Require(owner !in s.programOwned, AccountNotSystemOwned);
    :- Require(owner in s.claimable, AccountMissing);
    :- Require(request.receiver !in s.programOwned, AccountNotSystemOwned);
    :- Require(request.status.Fulfilled?, RequestNotFulfilled);
    :- Require(claimant == request.receiver || ApprovalOf(s, owner, claimant).canClaim, OperatorNotApproved);
    var rest :- TokenSub(s.claimable[owner], request.assetsClaimable);
    :- Require(rest == 0, TokenError);
    Ok(s.(claimable := s.claimable - {owner}, redeems := s.redeems - {owner}))
  }

  function CancelRedeem(s: State, user: Pubkey): Result<State> {
    var config := s.config;
    :- Require(!config.paused, VaultPaused);
    :- Require(user in s.redeems, AccountMissing);
    var request := s.redeems[user];
    :- Require(request.status.Pending?, RequestNotPending);
    var escrow :- TokenSub(s.shareEscrow, request.sharesLocked);
    var held :- TokenAdd(Get(s.holdings, user), request.sharesLocked);
    var pending :- CheckedSub(s.totalPendingRedeems, request.sharesLocked);
    Ok(s.(shareEscrow := escrow, holdings := s.holdings[user := held], totalPendingRedeems := pending,
          redeems := s.redeems - {user}))
  }

  // ---------------------------------------------------------------- administration

  datatype Setting =
    | Pause
    | Unpause
    | Operator(operator: Pubkey)
    | MaxDeviationBps(bps: u16)
    | CancelAfter(seconds: i64)

  function Set(c: Config, setting: Setting): Result<Config> {
    match setting
    case Pause =>
      :- Require(!c.paused, VaultPaused);
      Ok(c.(paused := true))
    case Unpause =>
      :- Require(c.paused, VaultNotPaused);
      Ok(c.(paused := false))
    case Operator(operator) =>
      :- Require(operator != DEFAULT_PUBKEY, InvalidAddress);
      Ok(c.(operator := operator))
    case MaxDeviationBps(bps) =>
      :- Require(0 < bps <= 10_000, InvalidParameter);
      Ok(c.(maxDeviationBps := bps))
    case CancelAfter(seconds) =>
      :- Require(seconds >= 0, InvalidParameter);
      Ok(c.(cancelAfter := seconds))
  }

  function Configure(s: State, caller: Pubkey, setting: Setting): Result<State> {
    var config := s.config;
    :- Require(caller == config.authority, Unauthorized);
    var changed :- Set(config, setting);
    Ok(s.(config := changed))
  }

  datatype Delegation = Approve(approval: Approval) | Update(approval: Approval) | Revoke

  function Delegate(s: State, owner: Pubkey, operator: Pubkey, change: Delegation): Result<State> {
    var key := (owner, operator);
    match change
    case Approve(approval) =>
      :- Require(key !in s.approvals, AccountExists);
      Ok(s.(approvals := s.approvals[key := approval]))
    case Update(approval) =>
      :- Require(key in s.approvals, AccountMissing);
      Ok(s.(approvals := s.approvals[key := approval]))
    case Revoke =>
      :- Require(key in s.approvals, AccountMissing);
      Ok(s.(approvals := s.approvals - {key}))
  }

  // ---------------------------------------------------------------- outside the program

  function DonateAssets(s: State, amount: u64): Result<State> {
    var balance :- TokenAdd(s.assetVault, amount);
    Ok(s.(assetVault := balance))
  }

  /** Into a claimable-tokens account, which any holder of the asset can send to once it exists. */
  function DonateClaimable(s: State, owner: Pubkey, amount: u64): Result<State> {
    var accounts := s.claimable;
    :- Require(owner in accounts, AccountMissing);
    var balance :- TokenAdd(accounts[owner], amount);
    Ok(s.(claimable := accounts[owner := balance]))
  }

  function TransferShares(s: State, from: Pubkey, to: Pubkey, amount: u64): Result<State> {
    var held :- TokenSub(Get(s.holdings, from), amount);
    var debited := s.holdings[from := held];
    var received :- TokenAdd(Get(debited, to), amount);
    Ok(s.(holdings := debited[to := received]))
  }

  function DonateShares(s: State, from: Pubkey, amount: u64): Result<State> {
    var held :- TokenSub(Get(s.holdings, from), amount);
    var escrow :- TokenAdd(s.shareEscrow, amount);
    Ok(s.(holdings := s.holdings[from := held], shareEscrow := escrow))
  }

  function BurnShares(s: State, from: Pubkey, amount: u64): Result<State> {
    var held :- TokenSub(Get(s.holdings, from), amount);
    var supply :- TokenSub(s.sharesSupply, amount);
    Ok(s.(holdings := s.holdings[from := held], sharesSupply := supply))
  }

  /** An address is assigned to a program, or returned to the system when its account is closed. */
  function Reassign(s: State, account: Pubkey, toProgram: bool): Result<State> {
    var others := s.programOwned - {account};
    Ok(s.(programOwned := if toProgram then others + {account} else others))
  }

  // ---------------------------------------------------------------- runs

  /** One committed transaction. */
  datatype Op =
    | RequestDepositOp(user: Pubkey, assets: u64, receiver: Pubkey, now: i64)
    | FulfillDepositOp(caller: Pubkey, owner: Pubkey, oraclePrice: Option<u64>, maxPrice: u64, now: i64)
    | ClaimDepositOp(caller: Pubkey, owner: Pubkey)
    | CancelDepositOp(user: Pubkey, now: i64)
    | RequestRedeemOp(user: Pubkey, shares: u64, receiver: Pubkey, now: i64)
    | FulfillRedeemOp(caller: Pubkey, owner: Pubkey, oraclePrice: Option<u64>, minPrice: u64, now: i64)
    | ClaimRedeemOp(caller: Pubkey, owner: Pubkey)
    | CancelRedeemOp(user: Pubkey)
    | ConfigureOp(caller: Pubkey, setting: Setting)
    | DelegateOp(owner: Pubkey, operator: Pubkey, change: Delegation)
    | DonateAssetsOp(amount: u64)
    | DonateClaimableOp(owner: Pubkey, amount: u64)
    | TransferSharesOp(from: Pubkey, to: Pubkey, amount: u64)
    | DonateSharesOp(from: Pubkey, amount: u64)
    | BurnSharesOp(from: Pubkey, amount: u64)
    | ReassignOp(account: Pubkey, toProgram: bool)

  predicate DepositSide(op: Op) {
    op.RequestDepositOp? || op.FulfillDepositOp? || op.ClaimDepositOp? || op.CancelDepositOp?
  }

  predicate RedeemSide(op: Op) {
    op.RequestRedeemOp? || op.FulfillRedeemOp? || op.ClaimRedeemOp? || op.CancelRedeemOp?
  }

  function DepositStep(s: State, op: Op): Result<State>
    requires DepositSide(op)
  {
    match op
    case RequestDepositOp(user, assets, receiver, now) => RequestDeposit(s, user, assets, receiver, now)
    case FulfillDepositOp(caller, owner, oracle, maxPrice, now) => FulfillDeposit(s, caller, owner, oracle, maxPrice, now)
    case ClaimDepositOp(caller, owner) => ClaimDeposit(s, caller, owner)
    case CancelDepositOp(user, now) => CancelDeposit(s, user, now)
  }

  function RedeemStep(s: State, op: Op): Result<State>
    requires RedeemSide(op)
  {
    match op
    case RequestRedeemOp(user, shares, receiver, now) => RequestRedeem(s, user, shares, receiver, now)
    case FulfillRedeemOp(caller, owner, oracle, minPrice, now) => FulfillRedeem(s, caller, owner, oracle, minPrice, now)
    case ClaimRedeemOp(caller, owner) => ClaimRedeem(s, caller, owner)
    case CancelRedeemOp(user) => CancelRedeem(s, user)
  }

  function OtherStep(s: State, op: Op): Result<State>
    requires !DepositSide(op) && !RedeemSide(op)
  {
    match op
    case ConfigureOp(caller, setting) => Configure(s, caller, setting)
    case DelegateOp(owner, operator, change) => Delegate(s, owner, operator, change)
    case DonateAssetsOp(amount) => DonateAssets(s, amount)
    case DonateClaimableOp(owner, amount) => DonateClaimable(s, owner, amount)
    case TransferSharesOp(from, to, amount) => TransferShares(s, from, to, amount)
    case DonateSharesOp(from, amount) => DonateShares(s, from, amount)
    case BurnSharesOp(from, amount) => BurnShares(s, from, amount)
    case ReassignOp(account, toProgram) => Reassign(s, account, toProgram)
  }

  function Step(s: State, op: Op): Result<State> {
    if DepositSide(op) then DepositStep(s, op)
    else if RedeemSide(op) then RedeemStep(s, op)
    else OtherStep(s, op)
  }

  /** Committed transactions in any interleaving of users, operators and clock values.
      A transaction that fails changes nothing and so does not appear in a run. */
  function Run(s: State, ops: seq<Op>): Result<State>
    decreases |ops|
  {
    if ops == [] then Ok(s)
    else
      var next :- Step(s, ops[0]);
      Run(next, ops[1..])
  }
}
