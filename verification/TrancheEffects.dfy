/** What the instructions of the tranched vault do: exactly when the manager's and the authority's
    commit, which tranche each changes by how much, and whose shares. */
module TrancheEffects {
  import opened Common
  import opened Conversion
  import Sums
  import opened Waterfall
  import opened TrancheLedger
  import opened TrancheRuns
  import opened TrancheGuarantees

  // ---------------------------------------------------------------- exchanges

  predicate Exchange(op: Op) {
    op.DepositOp? || op.RedeemOp?
  }

  /** The amount named by the user is exchanged at the price of the one tranche, rounded down. */
  lemma ExchangePriced(s: State, op: Op)
    requires Exchange(op) && Step(s, op).Ok?
    ensures op.at < |s.tranches|
    ensures var c := Step(s, op).value; var p, t := s.tranches[op.at].allocation + 1, s.tranches[op.at].totalShares + VirtualOf(s);
            && (op.DepositOp? ==> c.assets == op.assets && Rounded(op.assets * t, p, Floor, c.shares) && op.minShares <= c.shares)
            && (op.RedeemOp? ==> c.shares == op.shares && Rounded(op.shares * p, t, Floor, c.assets) && op.minAssets <= c.assets)
  {
    ExchangeParts(s, op);
    ExchangeBounds(s, op);
    var c, x := Step(s, op).value, s.tranches[op.at];
    if op.DepositOp? {
      ToSharesRounded(c.assets, x.allocation, x.totalShares, s.config.decimalsOffset, Floor);
    } else {
      ToAssetsRounded(c.shares, x.allocation, x.totalShares, s.config.decimalsOffset, Floor);
    }
  }

  lemma ExchangeBounds(s: State, op: Op)
    requires Exchange(op) && Step(s, op).Ok?
    ensures op.DepositOp? ==> op.minShares <= Step(s, op).value.shares
    ensures op.RedeemOp? ==> op.minAssets <= Step(s, op).value.assets
  {}

  /** `assets` and `shares`, negative when they leave, are booked to the vault, to tranche `at` and to
      `user`, and to nothing else. */
  ghost predicate Booked(s: State, t: State, at: nat, user: Pubkey, assets: int, shares: int) {
    && t == s.(totalAssets := t.totalAssets, balance := t.balance, tranches := t.tranches)
    && t.totalAssets == s.totalAssets + assets && t.balance == s.balance + assets
    && at < |s.tranches| == |t.tranches| && t.tranches == s.tranches[at := t.tranches[at]]
    && var x, y := s.tranches[at], t.tranches[at];
    && y == x.(allocation := y.allocation, totalShares := y.totalShares, supply := y.supply, holdings := y.holdings)
    && y.allocation == x.allocation + assets && y.totalShares == x.totalShares + shares && y.supply == x.supply + shares
    && forall u :: Get(y.holdings, u) == Get(x.holdings, u) + if u == user then shares else 0
  }

  lemma AdmitBooked(s: State, at: nat, user: Pubkey, assets: u64, shares: u64)
    requires at < |s.tranches| && Admit(s, at, user, assets, shares).Ok?
    ensures Booked(s, Admit(s, at, user, assets, shares).value.state, at, user, assets, shares)
  {}

  lemma ReleaseBooked(s: State, at: nat, user: Pubkey, assets: u64, shares: u64)
    requires at < |s.tranches| && Release(s, at, user, assets, shares).Ok?
    ensures Booked(s, Release(s, at, user, assets, shares).value.state, at, user, 0 - assets, 0 - shares)
  {}

  lemma ExchangeBooked(s: State, op: Op)
    requires Exchange(op) && Step(s, op).Ok?
    ensures var c := Step(s, op).value;
            if op.DepositOp? then Booked(s, c.state, op.at, op.user, c.assets, c.shares)
            else Booked(s, c.state, op.at, op.user, 0 - c.assets, 0 - c.shares)
  {
    ExchangeParts(s, op);
    var c := Step(s, op).value;
    if op.DepositOp? {
      AdmitBooked(s, op.at, op.user, c.assets, c.shares);
    } else {
      ReleaseBooked(s, op.at, op.user, c.assets, c.shares);
    }
  }

  // ---------------------------------------------------------------- reasons

  /** The tranche and the vault can count the assets and the shares of a deposit. */
  predicate Roomy(s: State, at: nat, assets: u64, shares: u64)
    requires at < |s.tranches|
  {
    var t := s.tranches[at];
    t.allocation + assets <= U64_MAX && t.totalShares + shares <= U64_MAX && s.totalAssets + assets <= U64_MAX
  }

  /** The deposit leaves the tranche within its cap of the new total. */
  predicate WithinNewCap(s: State, at: nat, assets: u64)
    requires at < |s.tranches|
  {
    BPS_DENOMINATOR * (s.tranches[at].allocation + assets) <= (s.totalAssets + assets) * s.tranches[at].capBps
  }

  /** The deposit leaves some tranche unprotected of the new total. */
  predicate Breaches(s: State, at: nat, assets: u64)
    requires at < |s.tranches|
  {
    s.tranches[at].allocation + assets <= U64_MAX && !Subordinated(PaidIn(s, at, assets), Subordinations(s.tranches), s.totalAssets + assets)
  }

  /** The deposit makes a sum of the check leave 64 bits. */
  predicate Oversized(s: State, at: nat, assets: u64)
    requires at < |s.tranches|
  {
    s.tranches[at].allocation + assets <= U64_MAX && !Summable(PaidIn(s, at, assets), Subordinations(s.tranches))
  }

  /** What a refused deposit of `assets` for `shares`, once quoted, tells; the last two, that an amount leaves
      64 bits, or a sum of the check. */
  predicate AdmitTells(s: State, at: nat, assets: u64, shares: u64, e: VaultError)
    requires at < |s.tranches|
  {
    match e
    case CapExceeded => !WithinNewCap(s, at, assets)
    case SharesMismatch => Burned(s.tranches[at]) > 0
    case SubordinationBreach => Breaches(s, at, assets)
    case TokenError => U64_MAX < s.balance + assets
    case MathOverflow => !Roomy(s, at, assets, shares) || Oversized(s, at, assets)
    case _ => false
  }

  /** The same of a redeem; only after a rebalance of a tranche with itself can the total not suffice. */
  predicate ReleaseTells(s: State, at: nat, assets: u64, e: VaultError)
    requires at < |s.tranches|
  {
    var x := s.tranches[at];
    match e
    case InsufficientLiquidity => s.balance < assets
    case SubordinationBreach =>
      assets <= x.allocation && !Subordinated(PaidOut(s, at, assets), Subordinations(s.tranches), s.totalAssets - assets)
    case MathOverflow => x.allocation < assets || s.totalAssets < assets || !Summable(PaidOut(s, at, assets), Subordinations(s.tranches))
    case _ => false
  }

  lemma {:induction false} BreachIff(a: seq<u64>, bps: seq<u16>, total: u64, i: nat)
    requires |bps| == |a| && i <= |a| && forall k | 0 <= k < |a| :: bps[k] <= BPS_DENOMINATOR
    ensures var r := CheckSubordinationFrom(a, bps, total, i);
            && (r == Err(SubordinationBreach) ==> exists k | i <= k < |a| :: !Protects(a, bps, total, k))
            && (r.Err? ==> r.error == SubordinationBreach || (r.error == MathOverflow && !Summable(a, bps)))
    decreases |a| - i
  {
    if i < |a| {
      CheckOneIff(a, bps, total, i);
      OneErrors(a, bps, total, i);
      BreachIff(a, bps, total, i + 1);
    }
  }

  lemma OneErrors(a: seq<u64>, bps: seq<u16>, total: u64, i: nat)
    requires |bps| == |a| && i < |a|
    ensures CheckOne(a, bps, total, i).Err? ==> CheckOne(a, bps, total, i).error == SubordinationBreach || CheckOne(a, bps, total, i).error == MathOverflow
    ensures CheckOne(a, bps, total, i) == Err(SubordinationBreach) ==> SumChecked(a, bps, i)
  {}

  /** What the check tells of tranche `at` holding `y`. */
  lemma CheckTells(s: State, at: nat, y: u64, total: u64)
    requires WellFormed(s) && at < |s.tranches|
    ensures var r, a := CheckTranches(s.tranches[at := s.tranches[at].(allocation := y)], total), Allocations(s.tranches)[at := y];
            && (r == Err(SubordinationBreach) ==> !Subordinated(a, Subordinations(s.tranches), total))
            && (r.Err? ==> r.error == SubordinationBreach || (r.error == MathOverflow && !Summable(a, Subordinations(s.tranches))))
  {
    var u := s.tranches[at].(allocation := y);
    AllocatedUpdate(s.tranches, at, u);
    SameTranches(s.tranches, at, u);
    forall k | 0 <= k < |s.tranches| ensures Subordinations(s.tranches)[k] <= BPS_DENOMINATOR {
      assert Configured(s.tranches[k]);
    }
    BreachIff(Allocations(s.tranches)[at := y], Subordinations(s.tranches), total, 0);
  }

  lemma HeldWithin(s: State, at: nat, user: Pubkey)
    requires WellFormed(s) && at < |s.tranches|
    ensures var t := s.tranches[at]; Get(t.holdings, user) <= t.supply <= t.totalShares && t.capBps <= BPS_DENOMINATOR
  {
    assert Configured(s.tranches[at]) && Issued(s.tranches[at]);
    Sums.HoldingsStep(s.tranches[at].holdings, user, 0);
  }

  /** The program's checks of a quoted deposit, in order, on the cap's limit and the subordination check. */
  predicate AdmitFails(s: State, at: nat, assets: u64, shares: u64, limit: Result<u64>, check: Result<()>, e: VaultError)
    requires at < |s.tranches|
  {
    if !Roomy(s, at, assets, shares) then e == MathOverflow
    else if limit.Err? then e == limit.error
    else if limit.value < s.tranches[at].allocation + assets then e == CapExceeded
    else if check.Err? then e == check.error
    else if U64_MAX < s.balance + assets then e == TokenError
    else e == SharesMismatch && Burned(s.tranches[at]) > 0
  }

  lemma AdmitStages(s: State, at: nat, user: Pubkey, assets: u64, shares: u64)
    requires WellFormed(s) && at < |s.tranches| && Roomy(s, at, assets, shares) && Admit(s, at, user, assets, shares).Err?
    ensures var t := s.tranches[at];
            AdmitFails(s, at, assets, shares, CapLimit(s.totalAssets + assets, t.capBps),
                       CheckTranches(s.tranches[at := t.(allocation := t.allocation + assets)], s.totalAssets + assets),
                       Admit(s, at, user, assets, shares).error)
  {
    HeldWithin(s, at, user);
  }

  lemma LimitTells(s: State, at: nat, assets: u64) returns (limit: Result<u64>)
    requires WellFormed(s) && at < |s.tranches| && s.totalAssets + assets <= U64_MAX
    ensures limit == CapLimit(s.totalAssets + assets, s.tranches[at].capBps)
    ensures limit.Ok? && (s.tranches[at].allocation + assets <= limit.value <==> WithinNewCap(s, at, assets))
  {
    HeldWithin(s, at, 0);
    limit := CapLimit(s.totalAssets + assets, s.tranches[at].capBps);
    CapIff(s.totalAssets + assets, s.tranches[at].capBps, s.tranches[at].allocation + assets);
  }

  lemma CheckReason(s: State, at: nat, assets: u64) returns (check: Result<()>)
    requires WellFormed(s) && at < |s.tranches| && s.totalAssets + assets <= U64_MAX && s.tranches[at].allocation + assets <= U64_MAX
    ensures check == CheckTranches(s.tranches[at := s.tranches[at].(allocation := s.tranches[at].allocation + assets)], s.totalAssets + assets)
    ensures check == Err(SubordinationBreach) ==> Breaches(s, at, assets)
    ensures check.Err? ==> check.error == SubordinationBreach || (check.error == MathOverflow && Oversized(s, at, assets))
  {
    var t := s.tranches[at];
    check := CheckTranches(s.tranches[at := t.(allocation := t.allocation + assets)], s.totalAssets + assets);
    CheckTells(s, at, t.allocation + assets, s.totalAssets + assets);
  }

  lemma AdmitReason(s: State, at: nat, assets: u64, shares: u64, limit: Result<u64>, check: Result<()>, e: VaultError)
    requires at < |s.tranches| && Roomy(s, at, assets, shares) && AdmitFails(s, at, assets, shares, limit, check, e)
    requires limit.Ok? && (s.tranches[at].allocation + assets <= limit.value <==> WithinNewCap(s, at, assets))
    requires check == Err(SubordinationBreach) ==> Breaches(s, at, assets)
    requires check.Err? ==> check.error == SubordinationBreach || (check.error == MathOverflow && Oversized(s, at, assets))
    ensures AdmitTells(s, at, assets, shares, e)
  {}

  lemma AdmitCrowded(s: State, at: nat, user: Pubkey, assets: u64, shares: u64)
    requires at < |s.tranches| && !Roomy(s, at, assets, shares)
    ensures Admit(s, at, user, assets, shares) == Err(MathOverflow)
  {}

  lemma AdmitErrors(s: State, at: nat, user: Pubkey, assets: u64, shares: u64)
    requires WellFormed(s) && at < |s.tranches| && Admit(s, at, user, assets, shares).Err?
    ensures AdmitTells(s, at, assets, shares, Admit(s, at, user, assets, shares).error)
  {
    if Roomy(s, at, assets, shares) {
      AdmitStages(s, at, user, assets, shares);
      var limit := LimitTells(s, at, assets);
      var check := CheckReason(s, at, assets);
      AdmitReason(s, at, assets, shares, limit, check, Admit(s, at, user, assets, shares).error);
    } else {
      AdmitCrowded(s, at, user, assets, shares);
    }
  }

  lemma ReleaseErrors(s: State, at: nat, user: Pubkey, assets: u64, shares: u64)
    requires WellFormed(s) && at < |s.tranches| && shares <= Get(s.tranches[at].holdings, user) && Release(s, at, user, assets, shares).Err?
    ensures ReleaseTells(s, at, assets, Release(s, at, user, assets, shares).error)
  {
    HeldWithin(s, at, user);
    if assets <= s.tranches[at].allocation && assets <= s.totalAssets {
      CheckTells(s, at, s.tranches[at].allocation - assets, s.totalAssets - assets);
    }
  }

  /** Every refused deposit gives the reason it was refused for. */
  lemma DepositTells(s: State, at: nat, user: Pubkey, assets: u64, minShares: u64)
    requires WellFormed(s) && at < |s.tranches| && Deposit(s, at, user, assets, minShares).Err?
    ensures var x, e := s.tranches[at], Deposit(s, at, user, assets, minShares).error;
            var quote := ConvertToShares(assets, x.allocation, x.totalShares, s.config.decimalsOffset, Floor);
            match e
            case VaultPaused => s.config.paused
            case VaultWiped => s.wiped
            case ZeroAmount => assets == 0 || quote == Ok(0)
            case SlippageExceeded => quote.Ok? && quote.value < minShares
            case _ => if quote.Ok? then AdmitTells(s, at, assets, quote.value, e) else e == quote.error
  {
    var x := s.tranches[at];
    var quote := ConvertToShares(assets, x.allocation, x.totalShares, s.config.decimalsOffset, Floor);
    QuoteOverflows(assets, x.allocation, x.totalShares, s.config.decimalsOffset);
    if quote.Ok? && Admit(s, at, user, assets, quote.value).Err? { AdmitErrors(s, at, user, assets, quote.value); }
  }

  lemma QuoteOverflows(amount: u64, a: u64, supply: u64, offset: u8)
    ensures ConvertToShares(amount, a, supply, offset, Floor).Err? ==> ConvertToShares(amount, a, supply, offset, Floor).error == MathOverflow
    ensures ConvertToAssets(amount, a, supply, offset, Floor).Err? ==> ConvertToAssets(amount, a, supply, offset, Floor).error == MathOverflow
  {}

  lemma RedeemTells(s: State, at: nat, user: Pubkey, shares: u64, minAssets: u64)
    requires WellFormed(s) && at < |s.tranches| && Redeem(s, at, user, shares, minAssets).Err?
    ensures var x, e, quote := s.tranches[at], Redeem(s, at, user, shares, minAssets).error, Quote(s, at, shares);
            match e
            case VaultPaused => s.config.paused
            case ZeroAmount => shares == 0 || quote == Ok(0)
            case InsufficientShares => Get(x.holdings, user) < shares
            case SlippageExceeded => quote.Ok? && quote.value < minAssets
            case _ => if quote.Ok? then ReleaseTells(s, at, quote.value, e) else e == quote.error
  {
    var quote := Quote(s, at, shares);
    QuoteOverflows(shares, s.tranches[at].allocation, s.tranches[at].totalShares, s.config.decimalsOffset);
    if quote.Ok? && shares <= Get(s.tranches[at].holdings, user) && Release(s, at, user, quote.value, shares).Err? {
      ReleaseErrors(s, at, user, quote.value, shares);
    }
  }

  // ---------------------------------------------------------------- yield

  /** Tranche for tranche, `t` differs from `s` in what is allocated, and nothing else. */
  ghost predicate Reallocated(s: State, t: State) {
    && |t.tranches| == |s.tranches|
    && forall i | 0 <= i < |s.tranches| :: t.tranches[i] == s.tranches[i].(allocation := t.tranches[i].allocation)
  }

  /** What tranche `i` gained. */
  function Rise(s: State, t: State, i: nat): int
    requires i < |s.tranches| && i < |t.tranches|
  {
    t.tranches[i].allocation - s.tranches[i].allocation
  }

  /** Exactly when a yield is distributed, while amounts fit in 64 bits. */
  lemma DistributeYieldIff(s: State, caller: Pubkey, amount: u64, now: i64)
    requires Valid(s) && s.balance + amount <= U64_MAX && Allocated(s) + amount <= U64_MAX
    ensures DistributeYield(s, caller, amount, now).Ok? <==>
              && caller == s.config.manager && !s.config.paused
              && 0 < amount <= Allocated(s) && s.lastYield + MIN_YIELD_COOLDOWN <= now
  {
    if caller == s.config.manager && !s.config.paused && 0 < amount && s.lastYield + MIN_YIELD_COOLDOWN <= now {
      RecoveryIff(s, amount, now);
    }
  }

  /** The yield is booked to the vault and to the allocations, all of it, and to nothing else. */
  lemma YieldBooked(s: State, caller: Pubkey, amount: u64, now: i64)
    requires DistributeYield(s, caller, amount, now).Ok?
    ensures var t := DistributeYield(s, caller, amount, now).value;
            && t == s.(totalAssets := s.totalAssets + amount, balance := s.balance + amount, lastYield := now, tranches := t.tranches)
            && Reallocated(s, t) && Allocated(t) == Allocated(s) + amount
  {
    CreditAllocated(s, caller, amount, now);
  }

  lemma YieldRises(s: State, caller: Pubkey, amount: u64, now: i64, i: nat)
    requires DistributeYield(s, caller, amount, now).Ok? && i < |s.tranches|
    ensures var t, y := DistributeYield(s, caller, amount, now).value, Split(s.config.mode, amount, s.tranches);
            y.Ok? && i < |t.tranches| && Rise(s, t, i) == y.value[i]
  {}

  /** In a pro-rata vault every tranche gains its proportion of the yield, rounded down; only the last can
      gain more, by what the others' roundings left. */
  lemma ProRataByAllocation(s: State, caller: Pubkey, amount: u64, now: i64, i: nat)
    requires DistributeYield(s, caller, amount, now).Ok? && s.config.mode == ProRataYieldSequentialLoss && i < |s.tranches|
    ensures var t := DistributeYield(s, caller, amount, now).value;
            && i < |t.tranches|
            && var a, y := s.tranches[i].allocation, Rise(s, t, i);
            && amount * a < (y + 1) * Allocated(s)
            && (i < |s.tranches| - 1 ==> y * Allocated(s) <= amount * a)
            && y * Allocated(s) < amount * a + |s.tranches| * Allocated(s)
  {
    YieldRises(s, caller, amount, now, i);
    ProRataFair(amount, Allocations(s.tranches), i);
  }

  lemma SequentialRise(s: State, caller: Pubkey, amount: u64, now: i64, i: nat)
    requires DistributeYield(s, caller, amount, now).Ok? && s.config.mode == Sequential && i < |s.tranches|
    ensures var t := DistributeYield(s, caller, amount, now).value;
            i < |t.tranches| && Rise(s, t, i) == Yields(amount, Allocations(s.tranches), Targets(s.tranches))[i]
  {
    YieldRises(s, caller, amount, now, i);
  }

  /** In a sequential vault a tranche gains anything only if every more senior one has a target and gained
      exactly it, rounded down; and none with a target gains more than it, save the last. */
  lemma SequentialByPriority(s: State, caller: Pubkey, amount: u64, now: i64, i: nat, j: nat)
    requires DistributeYield(s, caller, amount, now).Ok? && s.config.mode == Sequential && i < j < |s.tranches|
    ensures var t := DistributeYield(s, caller, amount, now).value;
            && j < |t.tranches|
            && var x := s.tranches[i];
            && 0 <= Rise(s, t, i) && 0 <= Rise(s, t, j)
            && (Rise(s, t, j) > 0 ==> x.targetYieldBps > 0 && Rounded(x.allocation * x.targetYieldBps, BPS_DENOMINATOR, Floor, Rise(s, t, i)))
            && (x.targetYieldBps > 0 ==> Rise(s, t, i) * BPS_DENOMINATOR <= x.allocation * x.targetYieldBps)
  {
    var a, targets := Allocations(s.tranches), Targets(s.tranches);
    SequentialRise(s, caller, amount, now, i);
    SequentialRise(s, caller, amount, now, j);
    EntitledAtMost(amount, a, targets, i);
    if targets[i] > 0 { MulMono(Yields(amount, a, targets)[i], Entitled(a, targets, i), BPS_DENOMINATOR); }
    if Yields(amount, a, targets)[j] > 0 { SeniorFirst(amount, a, targets, i, j); }
  }

  /** The clock of the last distribution is kept, and the next must be an hour later. */
  lemma StepLastYield(s: State, op: Op)
    requires Step(s, op).Ok?
    ensures Step(s, op).value.state.lastYield == if op.DistributeYieldOp? then op.now else s.lastYield
    ensures op.DistributeYieldOp? ==> s.lastYield + MIN_YIELD_COOLDOWN <= op.now
  {
    if Exchange(op) { ExchangeBooked(s, op); }
  }

  lemma {:induction false} LaterYield(s: State, ops: seq<Op>, k: nat)
    requires Run(s, ops).Ok? && k < |ops| && ops[k].DistributeYieldOp?
    ensures s.lastYield + MIN_YIELD_COOLDOWN <= ops[k].now
    decreases k
  {
    StepLastYield(s, ops[0]);
    if k > 0 { LaterYield(Step(s, ops[0]).value.state, ops[1..], k - 1); }
  }

  lemma {:induction false} RunSuffix(s: State, ops: seq<Op>, i: nat) returns (m: State)
    requires Run(s, ops).Ok? && i < |ops|
    ensures Run(m, ops[i..]) == Run(s, ops)
    decreases i
  {
    if i == 0 {
      m := s;
      assert ops[0..] == ops;
    } else {
      m := RunSuffix(Step(s, ops[0]).value.state, ops[1..], i - 1);
      assert ops[1..][i - 1..] == ops[i..];
    }
  }

  lemma FirstYield(s: State, ops: seq<Op>, k: nat)
    requires Run(s, ops).Ok? && 0 < k < |ops| && ops[0].DistributeYieldOp? && ops[k].DistributeYieldOp?
    ensures ops[0].now + MIN_YIELD_COOLDOWN <= ops[k].now
  {
    StepLastYield(s, ops[0]);
    LaterYield(Step(s, ops[0]).value.state, ops[1..], k - 1);
  }

  /** Over any run, whoever manages the vault, any two distributions are an hour apart, in order. */
  lemma RunCooldown(s: State, ops: seq<Op>, i: nat, j: nat)
    requires Run(s, ops).Ok? && i < j < |ops| && ops[i].DistributeYieldOp? && ops[j].DistributeYieldOp?
    ensures ops[i].now + MIN_YIELD_COOLDOWN <= ops[j].now
  {
    var m := RunSuffix(s, ops, i);
    FirstYield(m, ops[i..], j - i);
  }

  // ---------------------------------------------------------------- losses

  /** Exactly when a loss is recorded, and that nothing but the total, the allocations and the flag of a
      total loss change. */
  lemma RecordLossIff(s: State, caller: Pubkey, loss: u64)
    requires Valid(s)
    ensures RecordLoss(s, caller, loss).Ok? <==> caller == s.config.manager && !s.config.paused && 0 < loss <= s.totalAssets
    ensures RecordLoss(s, caller, loss).Ok? ==>
              var t := RecordLoss(s, caller, loss).value;
              && t == s.(totalAssets := s.totalAssets - loss, wiped := s.wiped || loss == s.totalAssets, tranches := t.tranches)
              && Reallocated(s, t) && Allocated(t) == Allocated(s) - loss
  {
    if RecordLoss(s, caller, loss).Ok? { LossAllocated(s, caller, loss); }
  }

  /** No tranche gains, and one loses anything only if every more junior one is left with nothing. */
  lemma LossJuniorFirst(s: State, caller: Pubkey, loss: u64, i: nat, j: nat)
    requires RecordLoss(s, caller, loss).Ok? && i < j < |s.tranches|
    ensures var t := RecordLoss(s, caller, loss).value;
            && j < |t.tranches| && Rise(s, t, i) <= 0 && Rise(s, t, j) <= 0
            && (Rise(s, t, i) < 0 ==> t.tranches[j].allocation == 0)
  {
    var a := Allocations(s.tranches);
    if Losses(a, loss)[i] > 0 { JuniorFirst(a, loss, i, j); }
  }

  // ---------------------------------------------------------------- rebalances

  /** What each tranche holds after `amount` went from one to another. */
  function MovedBetween(ts: seq<Tranche>, from: nat, to: nat, amount: u64): seq<u64>
    requires from < |ts| && to < |ts| && amount <= ts[from].allocation && ts[to].allocation + amount <= U64_MAX
  {
    Allocations(ts)[from := ts[from].allocation - amount][to := ts[to].allocation + amount]
  }

  /** The tranche that pays holds `amount` less, the one that is paid `amount` more, and nothing else changes;
      a tranche that is both holds `amount` more. */
  lemma RebalanceMoves(s: State, caller: Pubkey, from: nat, to: nat, omitted: nat, amount: u64)
    requires Rebalance(s, caller, from, to, omitted, amount).Ok?
    ensures var t := Rebalance(s, caller, from, to, omitted, amount).value;
            && t == s.(tranches := t.tranches) && Reallocated(s, t) && from < |s.tranches| && to < |s.tranches|
            && Rise(s, t, to) == amount && (from != to ==> Rise(s, t, from) == 0 - amount)
            && forall i | 0 <= i < |s.tranches| && i != from && i != to :: Rise(s, t, i) == 0
  {}

  /** Whether the assets paid in keep the tranche within its cap of the total, if there is any. */
  predicate WithinCap(s: State, to: nat, amount: u64)
    requires to < |s.tranches|
  {
    s.totalAssets > 0 ==> BPS_DENOMINATOR * (s.tranches[to].allocation + amount) <= s.totalAssets * s.tranches[to].capBps
  }

  lemma WithinCapIff(s: State, to: nat, amount: u64)
    requires WellFormed(s) && to < |s.tranches| && s.tranches[to].allocation + amount <= U64_MAX
    ensures WithinCap(s, to, amount) <==>
              var allocation := s.tranches[to].allocation + amount;
              var limit := if s.totalAssets > 0 then CapLimit(s.totalAssets, s.tranches[to].capBps) else Ok(allocation);
              limit.Ok? && allocation <= limit.value
    ensures s.totalAssets > 0 ==> CapLimit(s.totalAssets, s.tranches[to].capBps).Ok?
  {
    assert Configured(s.tranches[to]);
    CapIff(s.totalAssets, s.tranches[to].capBps, s.tranches[to].allocation + amount);
  }

  /** Exactly when assets are moved between two tranches. */
  lemma RebalanceIff(s: State, caller: Pubkey, from: nat, to: nat, omitted: nat, amount: u64)
    requires WellFormed(s) && from < |s.tranches| && to < |s.tranches| && from != to
    ensures Rebalance(s, caller, from, to, omitted, amount).Ok? <==>
              && caller == s.config.manager && !s.config.paused && !s.wiped
              && 0 < amount <= s.tranches[from].allocation && s.tranches[to].allocation + amount <= U64_MAX
              && WithinCap(s, to, amount)
              && Subordinated(MovedBetween(s.tranches, from, to, amount), Subordinations(s.tranches), s.totalAssets)
              && Summable(MovedBetween(s.tranches, from, to, amount), Subordinations(s.tranches))
  {
    if amount <= s.tranches[from].allocation && s.tranches[to].allocation + amount <= U64_MAX {
      WithinCapIff(s, to, amount);
      PresentedIff(s, from, to, omitted, amount);
    }
  }

  lemma PresentedIff(s: State, from: nat, to: nat, omitted: nat, amount: u64)
    requires from < |s.tranches| && to < |s.tranches| && from != to
    requires amount <= s.tranches[from].allocation && s.tranches[to].allocation + amount <= U64_MAX
    ensures var presented := Presented(s.tranches, from, to, omitted, amount);
            && presented.Ok?
            && (CheckTranches(presented.value, s.totalAssets).Ok? <==>
                  && Subordinated(MovedBetween(s.tranches, from, to, amount), Subordinations(s.tranches), s.totalAssets)
                  && Summable(MovedBetween(s.tranches, from, to, amount), Subordinations(s.tranches)))
  {
    var ts := Presented(s.tranches, from, to, omitted, amount).value;
    assert Allocations(ts) == MovedBetween(s.tranches, from, to, amount);
    assert Subordinations(ts) == Subordinations(s.tranches);
    CheckTranchesIff(ts, s.totalAssets);
  }

  /** Element `i` of the sequence that has `x, y` in place of the element at `at` of `a`, and lacks the
      element at `omitted`. */
  function CopyAt<T>(a: seq<T>, at: nat, x: T, y: T, omitted: nat, i: nat): T
    requires at < |a| && omitted < |a| && omitted != at && i < |a|
  {
    var first := if omitted < at then at - 1 else at;
    if i == first then x
    else if i == first + 1 then y
    else if omitted <= i < first then a[i + 1]
    else if first + 1 < i <= omitted then a[i - 1]
    else a[i]
  }

  function Doubled<T>(a: seq<T>, at: nat, x: T, y: T, omitted: nat): (d: seq<T>)
    requires at < |a| && omitted < |a| && omitted != at
    ensures |d| == |a| && forall i | 0 <= i < |a| :: d[i] == CopyAt(a, at, x, y, omitted, i)
  {
    seq(|a|, i requires 0 <= i < |a| => CopyAt(a, at, x, y, omitted, i))
  }

  function Copied(s: State, at: nat, omitted: nat, amount: u64): seq<u64>
    requires at < |s.tranches| && omitted < |s.tranches| && omitted != at
    requires amount <= s.tranches[at].allocation && s.tranches[at].allocation + amount <= U64_MAX
  {
    var a: u64 := s.tranches[at].allocation;
    Doubled<u64>(Allocations(s.tranches), at, a - amount, a + amount, omitted)
  }

  function CopiedBps(s: State, at: nat, omitted: nat): seq<u16>
    requires at < |s.tranches| && omitted < |s.tranches| && omitted != at
  {
    var bps := s.tranches[at].subordinationBps;
    Doubled<u16>(Subordinations(s.tranches), at, bps, bps, omitted)
  }

  lemma PresentedDoubled(ts: seq<Tranche>, at: nat, omitted: nat, amount: u64)
    requires at < |ts| && omitted < |ts| && omitted != at
    requires amount <= ts[at].allocation && ts[at].allocation + amount <= U64_MAX
    ensures var paying, paid := ts[at].(allocation := ts[at].allocation - amount), ts[at].(allocation := ts[at].allocation + amount);
            Presented(ts, at, at, omitted, amount) == Ok(Doubled(ts, at, paying, paid, omitted))
  {
    var paying, paid := ts[at].(allocation := ts[at].allocation - amount), ts[at].(allocation := ts[at].allocation + amount);
    var us, ds := Presented(ts, at, at, omitted, amount).value, Doubled(ts, at, paying, paid, omitted);
    assert |us| == |ds|;
    forall i | 0 <= i < |ds| ensures us[i] == ds[i] {
      assert ds[i] == CopyAt(ts, at, paying, paid, omitted, i);
    }
    assert us == ds;
  }

  lemma DoubledColumns(ts: seq<Tranche>, at: nat, x: Tranche, y: Tranche, omitted: nat)
    requires at < |ts| && omitted < |ts| && omitted != at
    ensures Allocations(Doubled(ts, at, x, y, omitted)) == Doubled<u64>(Allocations(ts), at, x.allocation, y.allocation, omitted)
    ensures Subordinations(Doubled(ts, at, x, y, omitted)) == Doubled<u16>(Subordinations(ts), at, x.subordinationBps, y.subordinationBps, omitted)
  {}

  lemma CopiesIff(s: State, at: nat, omitted: nat, amount: u64)
    requires at < |s.tranches| && omitted < |s.tranches| && omitted != at
    requires amount <= s.tranches[at].allocation && s.tranches[at].allocation + amount <= U64_MAX
    ensures |Copied(s, at, omitted, amount)| == |CopiedBps(s, at, omitted)|
    ensures var presented := Presented(s.tranches, at, at, omitted, amount);
            && presented.Ok?
            && (CheckTranches(presented.value, s.totalAssets).Ok? <==>
                  && Subordinated(Copied(s, at, omitted, amount), CopiedBps(s, at, omitted), s.totalAssets)
                  && Summable(Copied(s, at, omitted, amount), CopiedBps(s, at, omitted)))
  {
    var x := s.tranches[at];
    var paying, paid := x.(allocation := x.allocation - amount), x.(allocation := x.allocation + amount);
    var ts := Doubled(s.tranches, at, paying, paid, omitted);
    PresentedDoubled(s.tranches, at, omitted, amount);
    DoubledColumns(s.tranches, at, paying, paid, omitted);
    assert Allocations(ts) == Copied(s, at, omitted, amount) && Subordinations(ts) == CopiedBps(s, at, omitted);
    CheckTranchesIff(ts, s.totalAssets);
  }

  /** Exactly when a tranche is rebalanced with itself: another one is left out, and the rest are subordinated
      with a paying and a paid copy of the tranche in its place. */
  lemma SelfRebalanceIff(s: State, caller: Pubkey, at: nat, omitted: nat, amount: u64)
    requires WellFormed(s) && at < |s.tranches|
    ensures omitted < |s.tranches| && omitted != at ==> |CopiedBps(s, at, omitted)| == |s.tranches|
    ensures Rebalance(s, caller, at, at, omitted, amount).Ok? <==>
              && caller == s.config.manager && !s.config.paused && !s.wiped
              && 0 < amount <= s.tranches[at].allocation && s.tranches[at].allocation + amount <= U64_MAX
              && WithinCap(s, at, amount) && omitted < |s.tranches| && omitted != at
              && |Copied(s, at, omitted, amount)| == |CopiedBps(s, at, omitted)|
              && Subordinated(Copied(s, at, omitted, amount), CopiedBps(s, at, omitted), s.totalAssets)
              && Summable(Copied(s, at, omitted, amount), CopiedBps(s, at, omitted))
  {
    if amount <= s.tranches[at].allocation && s.tranches[at].allocation + amount <= U64_MAX {
      WithinCapIff(s, at, amount);
      if omitted < |s.tranches| && omitted != at { CopiesIff(s, at, omitted, amount); }
    }
  }

  // ---------------------------------------------------------------- configuration

  /** Exactly when a tranche is added. */
  lemma AddTrancheIff(s: State, caller: Pubkey, priority: u8, sub: u16, target: u16, cap: u16)
    ensures AddTranche(s, caller, priority, sub, target, cap).Ok? <==>
              && caller == s.config.authority && !s.config.paused && !s.wiped && |s.tranches| < MAX_TRANCHES
              && Configured(Tranche(priority, sub, target, cap, 0, 0, 0, map[]))
              && forall i | 0 <= i < |s.tranches| :: s.tranches[i].priority != priority
  {}

  lemma {:induction false} InsertAt(ts: seq<Tranche>, t: Tranche) returns (k: nat)
    ensures k <= |ts| && Insert(ts, t) == ts[..k] + [t] + ts[k..]
    ensures (forall i | 0 <= i < k :: ts[i].priority <= t.priority) && (k < |ts| ==> t.priority < ts[k].priority)
  {
    if ts == [] || t.priority < ts[0].priority {
      k := 0;
    } else {
      k := InsertAt(ts[1..], t);
      k := k + 1;
      assert ts[..k] == [ts[0]] + ts[1..][..k - 1] && ts[k..] == ts[1..][k - 1..];
    }
  }

  /** It is empty, takes the place its priority gives it, and the others keep everything. */
  lemma AddTrancheInserts(s: State, caller: Pubkey, priority: u8, sub: u16, target: u16, cap: u16) returns (k: nat)
    requires AddTranche(s, caller, priority, sub, target, cap).Ok?
    ensures var t := AddTranche(s, caller, priority, sub, target, cap).value;
            && t == s.(tranches := t.tranches) && k <= |s.tranches| && |t.tranches| == |s.tranches| + 1
            && t.tranches[k] == Tranche(priority, sub, target, cap, 0, 0, 0, map[])
            && t.tranches[..k] == s.tranches[..k] && t.tranches[k + 1..] == s.tranches[k..]
            && (forall i | 0 <= i < k :: s.tranches[i].priority < priority) && (k < |s.tranches| ==> priority < s.tranches[k].priority)
  {
    k := InsertAt(s.tranches, Tranche(priority, sub, target, cap, 0, 0, 0, map[]));
  }

  function OrElse(x: Option<u16>, y: u16): u16 {
    if x.Some? then x.value else y
  }

  /** Exactly when a tranche is reconfigured, even while paused: the fractions are fractions, and every tranche
      is protected under the new ones; and that only they change. */
  lemma UpdateTrancheIff(s: State, caller: Pubkey, at: nat, target: Option<u16>, cap: Option<u16>, sub: Option<u16>)
    requires WellFormed(s) && at < |s.tranches|
    ensures var u := s.tranches[at].(targetYieldBps := OrElse(target, s.tranches[at].targetYieldBps),
                                     capBps := OrElse(cap, s.tranches[at].capBps),
                                     subordinationBps := OrElse(sub, s.tranches[at].subordinationBps));
            && (UpdateTranche(s, caller, at, target, cap, sub).Ok? <==>
                  && caller == s.config.authority && Configured(u)
                  && Subordinated(Allocations(s.tranches), Subordinations(s.tranches)[at := u.subordinationBps], s.totalAssets)
                  && Summable(Allocations(s.tranches), Subordinations(s.tranches)[at := u.subordinationBps]))
            && (UpdateTranche(s, caller, at, target, cap, sub).Ok? ==>
                  UpdateTranche(s, caller, at, target, cap, sub).value == s.(tranches := s.tranches[at := u]))
  {
    var x := s.tranches[at];
    assert Configured(x);
    var u := x.(targetYieldBps := OrElse(target, x.targetYieldBps), capBps := OrElse(cap, x.capBps),
                subordinationBps := OrElse(sub, x.subordinationBps));
    assert Allocations(s.tranches[at := u]) == Allocations(s.tranches);
    assert Subordinations(s.tranches[at := u]) == Subordinations(s.tranches)[at := u.subordinationBps];
    CheckTranchesIff(s.tranches[at := u], s.totalAssets);
  }

  /** A paused vault exchanges nothing, and its manager can do nothing. */
  lemma PausedRefuses(s: State, op: Op)
    requires s.config.paused
    ensures Exchange(op) ==> Step(s, op) == Err(VaultPaused)
    ensures op.DistributeYieldOp? || op.RecordLossOp? || op.RebalanceOp? || op.AddTrancheOp? ==> Step(s, op).Err?
  {}

  /** Nothing but a pause or its end by the authority changes the configuration. */
  lemma AdminIff(s: State, op: Op)
    ensures op.SetPausedOp? ==> (Step(s, op).Ok? <==> op.caller == s.config.authority && op.paused != s.config.paused)
    ensures op.SetPausedOp? && Step(s, op).Ok? ==> Step(s, op).value.state == s.(config := s.config.(paused := op.paused))
    ensures Step(s, op).Ok? && !op.SetPausedOp? ==> Step(s, op).value.state.config == s.config
  {
    if Exchange(op) && Step(s, op).Ok? { ExchangeBooked(s, op); }
  }

  // ---------------------------------------------------------------- holders, over whole runs

  /** What `u` holds of the tranche with this priority. */
  function HeldIn(ts: seq<Tranche>, priority: u8, u: Pubkey): nat {
    if ts == [] then 0
    else if ts[0].priority == priority then Get(ts[0].holdings, u)
    else HeldIn(ts[1..], priority, u)
  }

  lemma {:induction false} HeldAt(ts: seq<Tranche>, at: nat, u: Pubkey)
    requires at < |ts| && Ordered(ts)
    ensures HeldIn(ts, ts[at].priority, u) == Get(ts[at].holdings, u)
    decreases |ts|
  {
    if at > 0 { HeldAt(ts[1..], at - 1, u); }
  }

  lemma {:induction false} HeldNowhere(ts: seq<Tranche>, priority: u8, u: Pubkey)
    requires forall i | 0 <= i < |ts| :: ts[i].priority != priority
    ensures HeldIn(ts, priority, u) == 0
  {
    if ts != [] { HeldNowhere(ts[1..], priority, u); }
  }

  lemma {:induction false} HeldElsewhere(ts: seq<Tranche>, at: nat, t: Tranche, priority: u8, u: Pubkey)
    requires at < |ts| && t.priority == ts[at].priority && (t.priority == priority ==> Get(t.holdings, u) == Get(ts[at].holdings, u))
    ensures HeldIn(ts[at := t], priority, u) == HeldIn(ts, priority, u)
    decreases |ts|
  {
    if at > 0 {
      assert ts[at := t][1..] == ts[1..][at - 1 := t];
      HeldElsewhere(ts[1..], at - 1, t, priority, u);
    } else {
      assert ts[at := t][1..] == ts[1..];
    }
  }

  lemma {:induction false} HeldSame(ts: seq<Tranche>, us: seq<Tranche>, priority: u8, u: Pubkey)
    requires |us| == |ts| && forall i | 0 <= i < |ts| :: us[i].priority == ts[i].priority && us[i].holdings == ts[i].holdings
    ensures HeldIn(us, priority, u) == HeldIn(ts, priority, u)
  {
    if ts != [] { HeldSame(ts[1..], us[1..], priority, u); }
  }

  lemma {:induction false} HeldInserted(ts: seq<Tranche>, t: Tranche, priority: u8, u: Pubkey)
    requires t.holdings == map[] && forall i | 0 <= i < |ts| :: ts[i].priority != t.priority
    ensures HeldIn(Insert(ts, t), priority, u) == HeldIn(ts, priority, u)
  {
    if ts == [] || t.priority < ts[0].priority {
      assert ([t] + ts)[1..] == ts;
      if priority == t.priority { HeldNowhere(ts, priority, u); }
    } else {
      HeldInserted(ts[1..], t, priority, u);
    }
  }

  /** What a step adds to the shares `u` holds of the tranche with this priority. */
  function Gained(s: State, op: Op, priority: u8, u: Pubkey): int
    requires Step(s, op).Ok?
  {
    var shares := Step(s, op).value.shares;
    if (op.DepositOp? || op.RedeemOp? || op.TransferOp? || op.BurnOp?) && op.at < |s.tranches| && s.tranches[op.at].priority == priority then
      match op
      case DepositOp(_, user, _, _) => if user == u then shares else 0
      case RedeemOp(_, user, _, _) => if user == u then 0 - shares else 0
      case TransferOp(_, from, to, amount) => (if to == u then amount else 0) - (if from == u then amount else 0)
      case BurnOp(_, from, amount) => if from == u then 0 - amount else 0
      case _ => 0
    else 0
  }

  function RunGained(s: State, ops: seq<Op>, priority: u8, u: Pubkey): int
    requires Run(s, ops).Ok?
    decreases |ops|
  {
    if ops == [] then 0
    else Gained(s, ops[0], priority, u) + RunGained(Step(s, ops[0]).value.state, ops[1..], priority, u)
  }

  lemma HeldChanged(ts: seq<Tranche>, at: nat, t: Tranche, priority: u8, u: Pubkey)
    requires at < |ts| && Ordered(ts) && t.priority == ts[at].priority
    ensures HeldIn(ts[at := t], priority, u) == HeldIn(ts, priority, u)
            + if priority == t.priority then Get(t.holdings, u) - Get(ts[at].holdings, u) else 0
  {
    if priority == t.priority {
      HeldAt(ts, at, u);
      HeldAt(ts[at := t], at, u);
    } else {
      HeldElsewhere(ts, at, t, priority, u);
    }
  }

  lemma OutsideTranche(s: State, op: Op, u: Pubkey)
    requires (op.TransferOp? || op.BurnOp?) && Step(s, op).Ok?
    ensures op.at < |s.tranches|
    ensures var t := Step(s, op).value.state;
            && |t.tranches| == |s.tranches| && t.tranches == s.tranches[op.at := t.tranches[op.at]]
            && t.tranches[op.at].priority == s.tranches[op.at].priority
            && Get(t.tranches[op.at].holdings, u) == Get(s.tranches[op.at].holdings, u) + Gained(s, op, s.tranches[op.at].priority, u)
  {}

  lemma HoldingsKept(s: State, op: Op)
    requires op.DistributeYieldOp? || op.RecordLossOp? || op.RebalanceOp? || op.UpdateTrancheOp? || op.SetPausedOp? || op.DonateOp?
    requires Step(s, op).Ok?
    ensures var us := Step(s, op).value.state.tranches;
            && |us| == |s.tranches|
            && forall i | 0 <= i < |us| :: us[i].priority == s.tranches[i].priority && us[i].holdings == s.tranches[i].holdings
  {}

  lemma StepHoldings(s: State, op: Op, priority: u8, u: Pubkey)
    requires Ordered(s.tranches) && Step(s, op).Ok?
    ensures HeldIn(Step(s, op).value.state.tranches, priority, u) == HeldIn(s.tranches, priority, u) + Gained(s, op, priority, u)
  {
    var t := Step(s, op).value.state;
    if Exchange(op) {
      ExchangeBooked(s, op);
      HeldChanged(s.tranches, op.at, t.tranches[op.at], priority, u);
    } else if op.TransferOp? || op.BurnOp? {
      OutsideTranche(s, op, u);
      HeldChanged(s.tranches, op.at, t.tranches[op.at], priority, u);
    } else if op.AddTrancheOp? {
      HeldInserted(s.tranches, Tranche(op.priority, op.subordinationBps, op.targetYieldBps, op.capBps, 0, 0, 0, map[]), priority, u);
    } else {
      HoldingsKept(s, op);
      HeldSame(s.tranches, t.tranches, priority, u);
    }
  }

  /** Over any run, wherever the tranche is sorted to, an account holds of it what it bought and was sent,
      less what it sold, sent and burned. */
  lemma {:induction false} RunHoldings(s: State, ops: seq<Op>, priority: u8, u: Pubkey)
    requires WellFormed(s) && Run(s, ops).Ok?
    ensures HeldIn(Run(s, ops).value.tranches, priority, u) == HeldIn(s.tranches, priority, u) + RunGained(s, ops, priority, u)
    decreases |ops|
  {
    if ops != [] {
      StepHoldings(s, ops[0], priority, u);
      StepWellFormed(s, ops[0]);
      RunHoldings(Step(s, ops[0]).value.state, ops[1..], priority, u);
    }
  }
}
