/** The tranched vault (SVS-12) as transitions between account states.

    Instructions that look at all tranches take their accounts from the caller, refuse a wrong
    number of them, and sort them by priority. The state keeps them in that order, and a tranche
    is named by its place in it.
 */
module TrancheLedger {
  import opened Common
  import opened Conversion
  import opened Waterfall

  const MAX_TRANCHES := 4
  const PRIORITIES: u8 := 8
  const MIN_YIELD_COOLDOWN: i64 := 3600

  datatype Mode = Sequential | ProRataYieldSequentialLoss

  datatype Tranche = Tranche(
    priority: u8, subordinationBps: u16, targetYieldBps: u16, capBps: u16,
    allocation: u64, totalShares: u64,
    supply: u64,                  // supply of the tranche's share mint
    holdings: map<Pubkey, u64>)   // share token accounts of that mint

  datatype Config = Config(authority: Pubkey, manager: Pubkey, decimalsOffset: u8, mode: Mode, paused: bool)

  datatype State = State(
    config: Config,
    wiped: bool,
    totalAssets: u64,
    lastYield: i64,
    balance: u64,                 // asset token account of the vault
    tranches: seq<Tranche>)       // most senior first

  /** A committed instruction: the new state and the amounts exchanged. */
  datatype Commit = Commit(state: State, assets: u64, shares: u64)

  function Initial(authority: Pubkey, decimalsOffset: u8, mode: Mode): State {
    State(Config(authority, authority, decimalsOffset, mode, false), false, 0, 0, 0, [])
  }

  function Allocations(ts: seq<Tranche>): (a: seq<u64>)
    ensures |a| == |ts| && forall i | 0 <= i < |ts| :: a[i] == ts[i].allocation
  {
    seq(|ts|, i requires 0 <= i < |ts| => ts[i].allocation)
  }

  function Subordinations(ts: seq<Tranche>): (b: seq<u16>)
    ensures |b| == |ts| && forall i | 0 <= i < |ts| :: b[i] == ts[i].subordinationBps
  {
    seq(|ts|, i requires 0 <= i < |ts| => ts[i].subordinationBps)
  }

  function Targets(ts: seq<Tranche>): (b: seq<u16>)
    ensures |b| == |ts| && forall i | 0 <= i < |ts| :: b[i] == ts[i].targetYieldBps
  {
    seq(|ts|, i requires 0 <= i < |ts| => ts[i].targetYieldBps)
  }

  function WithAllocations(ts: seq<Tranche>, a: seq<u64>): (us: seq<Tranche>)
    requires |a| == |ts|
    ensures |us| == |ts| && forall i | 0 <= i < |ts| :: us[i] == ts[i].(allocation := a[i])
  {
    seq(|ts|, i requires 0 <= i < |ts| => ts[i].(allocation := a[i]))
  }

  function CheckTranches(ts: seq<Tranche>, totalAssets: u64): Result<()> {
    CheckSubordinationFrom(Allocations(ts), Subordinations(ts), totalAssets, 0)
  }

  function CapLimit(totalAssets: u64, capBps: u16): Result<u64> {
    MulMono(0, totalAssets, capBps);
    var limit := Quotient(totalAssets * capBps, BPS_DENOMINATOR, Floor);
    :- Require(limit <= U64_MAX, MathOverflow);
    Ok(limit)
  }

  function Deposit(s: State, at: nat, user: Pubkey, assets: u64, minShares: u64): Result<Commit> {
    var config := s.config;
    :- Require(!config.paused, VaultPaused);
    :- Require(!s.wiped, VaultWiped);
    :- Require(at < |s.tranches|, AccountMissing);
    :- Require(assets > 0, ZeroAmount);
    var t := s.tranches[at];
    var shares :- ConvertToShares(assets, t.allocation, t.totalShares, s.config.decimalsOffset, Floor);
    :- Require(shares > 0, ZeroAmount);
    :- Require(shares >= minShares, SlippageExceeded);
    Admit(s, at, user, assets, shares)
  }

  function Admit(s: State, at: nat, user: Pubkey, assets: u64, shares: u64): Result<Commit>
    requires at < |s.tranches|
  {
    var t := s.tranches[at];
    var allocation :- CheckedAdd(t.allocation, assets);
    var totalShares :- CheckedAdd(t.totalShares, shares);
    var totalAssets :- CheckedAdd(s.totalAssets, assets);
    var limit :- CapLimit(totalAssets, t.capBps);
    :- Require(allocation <= limit, CapExceeded);
    var _ :- CheckTranches(s.tranches[at := t.(allocation := allocation)], totalAssets);
    var balance :- TokenAdd(s.balance, assets);
    var supply :- TokenAdd(t.supply, shares);
    var held :- TokenAdd(Get(t.holdings, user), shares);
    :- Require(totalShares == supply, SharesMismatch);
    var u := t.(allocation := allocation, totalShares := totalShares, supply := supply, holdings := t.holdings[user := held]);
    Ok(Commit(s.(totalAssets := totalAssets, balance := balance, tranches := s.tranches[at := u]), assets, shares))
  }

  function Redeem(s: State, at: nat, user: Pubkey, shares: u64, minAssets: u64): Result<Commit> {
    var config := s.config;
    :- Require(!config.paused, VaultPaused);
    :- Require(at < |s.tranches|, AccountMissing);
    :- Require(shares > 0, ZeroAmount);
    var t := s.tranches[at];
    :- Require(shares <= Get(t.holdings, user), InsufficientShares);
    var assets :- ConvertToAssets(shares, t.allocation, t.totalShares, s.config.decimalsOffset, Floor);
    :- Require(assets > 0, ZeroAmount);
    :- Require(assets >= minAssets, SlippageExceeded);
    Release(s, at, user, assets, shares)
  }

  function Release(s: State, at: nat, user: Pubkey, assets: u64, shares: u64): Result<Commit>
    requires at < |s.tranches|
  {
    var t := s.tranches[at];
    :- Require(assets <= s.balance, InsufficientLiquidity);
    var allocation :- CheckedSub(t.allocation, assets);
    var totalShares :- CheckedSub(t.totalShares, shares);
    var totalAssets :- CheckedSub(s.totalAssets, assets);
    var _ :- CheckTranches(s.tranches[at := t.(allocation := allocation)], totalAssets);
    var held :- TokenSub(Get(t.holdings, user), shares);
    var supply :- TokenSub(t.supply, shares);
    var u := t.(allocation := allocation, totalShares := totalShares, supply := supply, holdings := t.holdings[user := held]);
    Ok(Commit(s.(totalAssets := totalAssets, balance := s.balance - assets, tranches := s.tranches[at := u]), assets, shares))
  }

  /** How the vault's mode splits a yield. */
  function Split(mode: Mode, amount: u64, ts: seq<Tranche>): (r: Result<seq<u64>>)
    ensures r.Ok? ==> |r.value| == |ts|
  {
    match mode
    case Sequential => SequentialYield(amount, Allocations(ts), Targets(ts))
    case ProRataYieldSequentialLoss => ProRataYield(amount, Allocations(ts))
  }

  function Credit(a: seq<u64>, y: seq<u64>): Result<seq<u64>>
    requires |y| == |a|
  {
    if exists i | 0 <= i < |a| :: a[i] + y[i] > U64_MAX then Err(MathOverflow)
    else Ok(seq(|a|, i requires 0 <= i < |a| => a[i] + y[i]))
  }

  function DistributeYield(s: State, caller: Pubkey, amount: u64, now: i64): Result<State> {
    var config := s.config;
    :- Require(caller == config.manager, Unauthorized);
    :- Require(!config.paused, VaultPaused);
    :- Require(amount > 0, ZeroAmount);
    :- Require(s.lastYield + MIN_YIELD_COOLDOWN <= I64_MAX, MathOverflow);
    :- Require(now >= s.lastYield + MIN_YIELD_COOLDOWN, YieldCooldownNotElapsed);
    var a := Allocations(s.tranches);
    :- Require(Total(a) <= U64_MAX, MathOverflow);
    :- Require(Total(a) > 0, ZeroAmount);
    :- Require(amount <= Total(a), CapExceeded);
    var y :- Split(s.config.mode, amount, s.tranches);
    var balance :- TokenAdd(s.balance, amount);
    var b :- Credit(a, y);
    var totalAssets :- CheckedAdd(s.totalAssets, amount);
    Ok(s.(totalAssets := totalAssets, lastYield := now, balance := balance, tranches := WithAllocations(s.tranches, b)))
  }

  /** A write-down; no tokens move. */
  function RecordLoss(s: State, caller: Pubkey, loss: u64): Result<State> {
    var config := s.config;
    :- Require(caller == config.manager, Unauthorized);
    :- Require(!config.paused, VaultPaused);
    :- Require(loss > 0, ZeroAmount);
    :- Require(loss <= s.totalAssets, TotalLoss);
    var a := Allocations(s.tranches);
    :- Require(loss <= Total(a), TotalLoss);
    var totalAssets := s.totalAssets - loss;
    Ok(s.(wiped := s.wiped || totalAssets == 0, totalAssets := totalAssets,
          tranches := WithAllocations(s.tranches, AfterLosses(a, loss))))
  }

  /** Passing one tranche as both sides gives the program two copies of it, and one of the other
      tranches, `omitted`, must be left out to keep the count. */
  function Presented(ts: seq<Tranche>, from: nat, to: nat, omitted: nat, amount: u64): Result<seq<Tranche>>
    requires from < |ts| && to < |ts| && amount <= ts[from].allocation && ts[to].allocation + amount <= U64_MAX
  {
    var paying := ts[from].(allocation := ts[from].allocation - amount);
    var paid := ts[to].(allocation := ts[to].allocation + amount);
    if from != to then Ok(ts[from := paying][to := paid])
    else
      :- Require(omitted < |ts| && omitted != from, WrongTrancheCount);
      Ok(if omitted < from then ts[..omitted] + ts[omitted + 1..from] + [paying, paid] + ts[from + 1..]
         else ts[..from] + [paying, paid] + ts[from + 1..omitted] + ts[omitted + 1..])
  }

  /** Each account is written back in turn, so of two copies the second one stays. */
  function Rebalance(s: State, caller: Pubkey, from: nat, to: nat, omitted: nat, amount: u64): Result<State> {
    var config := s.config;
    :- Require(caller == config.manager, Unauthorized);
    :- Require(!config.paused, VaultPaused);
    :- Require(from < |s.tranches| && to < |s.tranches|, AccountMissing);
    :- Require(amount > 0, ZeroAmount);
    :- Require(!s.wiped, VaultWiped);
    var payer, payee := s.tranches[from], s.tranches[to];
    :- Require(amount <= payer.allocation, InsufficientAllocation);
    var allocation :- CheckedAdd(payee.allocation, amount);
    var presented :- Presented(s.tranches, from, to, omitted, amount);
    var _ :- CheckTranches(presented, s.totalAssets);
    var limit :- if s.totalAssets > 0 then CapLimit(s.totalAssets, payee.capBps) else Ok(allocation);
    :- Require(allocation <= limit, CapExceeded);
    Ok(s.(tranches := s.tranches[from := payer.(allocation := payer.allocation - amount)][to := payee.(allocation := allocation)]))
  }

  function Insert(ts: seq<Tranche>, t: Tranche): seq<Tranche> {
    if ts == [] || t.priority < ts[0].priority then [t] + ts
    else [ts[0]] + Insert(ts[1..], t)
  }

  function AddTranche(s: State, caller: Pubkey, priority: u8, subordinationBps: u16, targetYieldBps: u16, capBps: u16): Result<State> {
    var config := s.config;
    :- Require(caller == config.authority, Unauthorized);
    :- Require(!config.paused, VaultPaused);
    :- Require(!s.wiped, VaultWiped);
    :- Require(|s.tranches| < MAX_TRANCHES, MaxTranchesReached);
    :- Require(subordinationBps <= 10_000, InvalidSubordinationConfig);
    :- Require(0 < capBps <= 10_000, InvalidCapConfig);
    :- Require(targetYieldBps <= 10_000, InvalidYieldConfig);
    :- Require(priority < PRIORITIES, DuplicatePriority);
    :- Require(forall i | 0 <= i < |s.tranches| :: s.tranches[i].priority != priority, DuplicatePriority);
    Ok(s.(tranches := Insert(s.tranches, Tranche(priority, subordinationBps, targetYieldBps, capBps, 0, 0, 0, map[]))))
  }

  function UpdateTranche(s: State, caller: Pubkey, at: nat, targetYieldBps: Option<u16>, capBps: Option<u16>, subordinationBps: Option<u16>): Result<State> {
    var config := s.config;
    :- Require(caller == config.authority, Unauthorized);
    :- Require(at < |s.tranches|, AccountMissing);
    :- Require(targetYieldBps.Some? ==> targetYieldBps.value <= 10_000, InvalidYieldConfig);
    :- Require(capBps.Some? ==> 0 < capBps.value <= 10_000, InvalidCapConfig);
    :- Require(subordinationBps.Some? ==> subordinationBps.value <= 10_000, InvalidSubordinationConfig);
    var t := s.tranches[at];
    var u := t.(targetYieldBps := if targetYieldBps.Some? then targetYieldBps.value else t.targetYieldBps,
                capBps := if capBps.Some? then capBps.value else t.capBps,
                subordinationBps := if subordinationBps.Some? then subordinationBps.value else t.subordinationBps);
    var ts := s.tranches[at := u];
    var _ :- CheckTranches(ts, s.totalAssets);
    Ok(s.(tranches := ts))
  }

  function SetPaused(s: State, caller: Pubkey, paused: bool): Result<State> {
    var config := s.config;
    :- Require(caller == config.authority, Unauthorized);
    :- Require(config.paused != paused, if paused then VaultPaused else VaultNotPaused);
    Ok(s.(config := s.config.(paused := paused)))
  }

  // Token transfers outside the program.

  function Donate(s: State, amount: u64): Result<State> {
    var balance :- TokenAdd(s.balance, amount);
    Ok(s.(balance := balance))
  }

  function Transfer(s: State, at: nat, from: Pubkey, to: Pubkey, amount: u64): Result<State> {
    var ts := s.tranches;
    :- Require(at < |ts|, AccountMissing);
    var t := ts[at];
    var held :- TokenSub(Get(t.holdings, from), amount);
    var debited := t.holdings[from := held];
    var received :- TokenAdd(Get(debited, to), amount);
    Ok(s.(tranches := s.tranches[at := t.(holdings := debited[to := received])]))
  }

  function Burn(s: State, at: nat, from: Pubkey, amount: u64): Result<State> {
    var ts := s.tranches;
    :- Require(at < |ts|, AccountMissing);
    var t := ts[at];
    var held :- TokenSub(Get(t.holdings, from), amount);
    var supply :- TokenSub(t.supply, amount);
    Ok(s.(tranches := s.tranches[at := t.(holdings := t.holdings[from := held], supply := supply)]))
  }

  datatype Op =
    | DepositOp(at: nat, user: Pubkey, assets: u64, minShares: u64)
    | RedeemOp(at: nat, user: Pubkey, shares: u64, minAssets: u64)
    | DistributeYieldOp(caller: Pubkey, amount: u64, now: i64)
    | RecordLossOp(caller: Pubkey, loss: u64)
    | RebalanceOp(caller: Pubkey, from: nat, to: nat, omitted: nat, amount: u64)
    | AddTrancheOp(caller: Pubkey, priority: u8, subordinationBps: u16, targetYieldBps: u16, capBps: u16)
    | UpdateTrancheOp(caller: Pubkey, at: nat, newTargetYieldBps: Option<u16>, newCapBps: Option<u16>, newSubordinationBps: Option<u16>)
    | SetPausedOp(caller: Pubkey, paused: bool)
    | DonateOp(amount: u64)
    | TransferOp(at: nat, sender: Pubkey, receiver: Pubkey, amount: u64)
    | BurnOp(at: nat, sender: Pubkey, amount: u64)

  function Plain(r: Result<State>): Result<Commit> {
    var s :- r;
    Ok(Commit(s, 0, 0))
  }

  function Step(s: State, op: Op): Result<Commit> {
    match op
    case DepositOp(at, user, assets, minShares) => Deposit(s, at, user, assets, minShares)
    case RedeemOp(at, user, shares, minAssets) => Redeem(s, at, user, shares, minAssets)
    case DistributeYieldOp(caller, amount, now) => Plain(DistributeYield(s, caller, amount, now))
    case RecordLossOp(caller, loss) => Plain(RecordLoss(s, caller, loss))
    case RebalanceOp(caller, from, to, omitted, amount) => Plain(Rebalance(s, caller, from, to, omitted, amount))
    case AddTrancheOp(caller, priority, sub, target, cap) => Plain(AddTranche(s, caller, priority, sub, target, cap))
    case UpdateTrancheOp(caller, at, target, cap, sub) => Plain(UpdateTranche(s, caller, at, target, cap, sub))
    case SetPausedOp(caller, paused) => Plain(SetPaused(s, caller, paused))
    case DonateOp(amount) => Plain(Donate(s, amount))
    case TransferOp(at, sender, receiver, amount) => Plain(Transfer(s, at, sender, receiver, amount))
    case BurnOp(at, sender, amount) => Plain(Burn(s, at, sender, amount))
  }

  function Run(s: State, ops: seq<Op>): Result<State>
    decreases |ops|
  {
    if ops == [] then Ok(s)
    else
      var next :- Step(s, ops[0]);
      Run(next.state, ops[1..])
  }
}
