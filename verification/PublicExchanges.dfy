/** What the instructions of a public vault answer: exactly when each commits, for which amounts, and
    whose accounts it changes by how much. */
module PublicExchanges {
  import opened Common
  import opened Conversion
  import Sums
  import opened PublicLedger
  import opened PublicPricing
  import PublicRuns

  // ---------------------------------------------------------------- acceptance

  /** The asset account has room for the assets and the mint for the shares; the other accounts then do. */
  lemma EnterIff(s: State, user: Pubkey, assets: u64, shares: u64)
    requires Valid(s)
    ensures Enter(s, user, assets, shares).Ok? <==> s.balance + assets <= U64_MAX && s.supply + shares <= U64_MAX
  {
    Sums.HoldingsStep(s.holdings, user, 0);
  }

  /** Exactly when a deposit succeeds: not paused, large enough, worth the least shares asked for and no
      more than the mint has room for. */
  lemma DepositIff(s: State, user: Pubkey, assets: u64, minShares: u64)
    requires Valid(s) && PublicRuns.Priceable(s)
    ensures var p, t := Total(s) + 1, s.supply + VirtualOf(s);
            Deposit(s, user, assets, minShares).Ok? <==>
              && !s.config.paused && MIN_DEPOSIT_AMOUNT <= assets && s.balance + assets <= U64_MAX
              && minShares * p <= assets * t < (U64_MAX - s.supply + 1) * p
  {
    ToSharesWithin(assets, Total(s), s.supply, s.config.decimalsOffset, Floor, minShares, U64_MAX - s.supply);
    if ToShares(s, assets, Floor).Ok? {
      EnterIff(s, user, assets, ToShares(s, assets, Floor).value);
    }
  }

  /** Exactly when a mint succeeds: the price of the shares is at least the smallest deposit, at most
      what the user would pay, and fits the vault's account. */
  lemma MintIff(s: State, user: Pubkey, shares: u64, maxAssets: u64)
    requires Valid(s) && PublicRuns.Priceable(s)
    ensures var p, t := Total(s) + 1, s.supply + VirtualOf(s);
            Mint(s, user, shares, maxAssets).Ok? <==>
              && !s.config.paused && 0 < shares && s.supply + shares <= U64_MAX
              && (MIN_DEPOSIT_AMOUNT - 1) * t < shares * p <= Min(maxAssets, U64_MAX - s.balance) * t
  {
    ToAssetsWithin(shares, Total(s), s.supply, s.config.decimalsOffset, Ceiling, MIN_DEPOSIT_AMOUNT, Min(maxAssets, U64_MAX - s.balance));
    if ToAssets(s, shares, Ceiling).Ok? {
      EnterIff(s, user, ToAssets(s, shares, Ceiling).value, shares);
    }
  }

  /** Exactly when a withdrawal succeeds: the vault is priced at as much, and the user holds, and would
      give, shares worth it. */
  lemma WithdrawIff(s: State, user: Pubkey, assets: u64, maxShares: u64)
    requires Valid(s) && PublicRuns.Priceable(s)
    ensures var p, t := Total(s) + 1, s.supply + VirtualOf(s);
            Withdraw(s, user, assets, maxShares).Ok? <==>
              && !s.config.paused && 0 < assets <= Total(s)
              && assets * t <= Min(maxShares, Get(s.holdings, user)) * p
  {
    ProductNonNegative(assets, s.supply + VirtualOf(s));
    ToSharesWithin(assets, Total(s), s.supply, s.config.decimalsOffset, Ceiling, 0, Min(maxShares, Get(s.holdings, user)));
    if assets <= Total(s) && ToShares(s, assets, Ceiling).Ok? && ToShares(s, assets, Ceiling).value <= Get(s.holdings, user) {
      LeaveEnabled(s, user, assets, ToShares(s, assets, Ceiling).value);
    }
  }

  // ---------------------------------------------------------------- amounts and accounts

  /** The amounts named by the user are exchanged, and for them the other ones at the price before the
      exchange: rounded down what the user gets, rounded up what the user gives. */
  predicate Priced(s: State, op: Op, assets: u64, shares: u64) {
    var p, t := Total(s) + 1, s.supply + VirtualOf(s);
    match op
    case DepositOp(_, d, minShares) => assets == d && Rounded(d * t, p, Floor, shares) && minShares <= shares
    case MintOp(_, n, maxAssets) => shares == n && Rounded(n * p, t, Ceiling, assets) && assets <= maxAssets
    case WithdrawOp(_, x, maxShares) => assets == x && Rounded(x * t, p, Ceiling, shares) && shares <= maxShares
    case RedeemOp(_, n, minAssets) => shares == n && Rounded(n * p, t, Floor, assets) && minAssets <= assets
    case _ => assets == 0 && shares == 0
  }

  lemma ExchangePriced(s: State, op: Op)
    requires Exchange(op) && Step(s, op).Ok?
    ensures Priced(s, op, Step(s, op).value.assets, Step(s, op).value.shares)
  {
    match op
    case DepositOp(_, assets, _) => ToSharesRounded(assets, Total(s), s.supply, s.config.decimalsOffset, Floor);
    case MintOp(_, shares, _) => ToAssetsRounded(shares, Total(s), s.supply, s.config.decimalsOffset, Ceiling);
    case WithdrawOp(_, assets, _) => ToSharesRounded(assets, Total(s), s.supply, s.config.decimalsOffset, Ceiling);
    case RedeemOp(_, shares, _) => ToAssetsRounded(shares, Total(s), s.supply, s.config.decimalsOffset, Floor);
  }

  /** `assets` and `shares`, negative when they leave, are booked to the vault and to `user`, and to
      nobody else. */
  ghost predicate Booked(s: State, t: State, user: Pubkey, assets: int, shares: int) {
    && t.config == s.config && t.balance == s.balance + assets && t.supply == s.supply + shares
    && t.recorded == s.recorded + (if s.config.model.Stored? then assets else 0)
    && forall u :: Get(t.holdings, u) == Get(s.holdings, u) + if u == user then shares else 0
  }

  lemma EnterBooked(s: State, user: Pubkey, assets: u64, shares: u64)
    requires Enter(s, user, assets, shares).Ok?
    ensures Booked(s, Enter(s, user, assets, shares).value.state, user, assets, shares)
  {}

  lemma LeaveBooked(s: State, user: Pubkey, assets: u64, shares: u64)
    requires Leave(s, user, assets, shares).Ok?
    ensures Booked(s, Leave(s, user, assets, shares).value.state, user, 0 - assets, 0 - shares)
  {}

  lemma ExchangeBooked(s: State, op: Op)
    requires Exchange(op) && Step(s, op).Ok?
    ensures var c := Step(s, op).value;
            if op.DepositOp? || op.MintOp? then Booked(s, c.state, op.user, c.assets, c.shares)
            else Booked(s, c.state, op.user, 0 - c.assets, 0 - c.shares)
  {
    var c := Step(s, op).value;
    ExchangeParts(s, op);
    if op.DepositOp? || op.MintOp? {
      EnterBooked(s, op.user, c.assets, c.shares);
    } else {
      LeaveBooked(s, op.user, c.assets, c.shares);
    }
  }

  /** What a step adds to the shares of `u`. */
  function Gained(s: State, op: Op, u: Pubkey): int
    requires Step(s, op).Ok?
  {
    var shares := Step(s, op).value.shares;
    match op
    case DepositOp(user, _, _) => if user == u then shares else 0
    case MintOp(user, _, _) => if user == u then shares else 0
    case WithdrawOp(user, _, _) => if user == u then 0 - shares else 0
    case RedeemOp(user, _, _) => if user == u then 0 - shares else 0
    case TransferOp(from, to, amount) => (if to == u then amount else 0) - (if from == u then amount else 0)
    case BurnOp(from, amount) => if from == u then 0 - amount else 0
    case _ => 0
  }

  function RunGained(s: State, ops: seq<Op>, u: Pubkey): int
    requires Run(s, ops).Ok?
    decreases |ops|
  {
    if ops == [] then 0 else Gained(s, ops[0], u) + RunGained(Step(s, ops[0]).value.state, ops[1..], u)
  }

  lemma StepHoldings(s: State, op: Op, u: Pubkey)
    requires Step(s, op).Ok?
    ensures Get(Step(s, op).value.state.holdings, u) == Get(s.holdings, u) + Gained(s, op, u)
  {
    if Exchange(op) { ExchangeBooked(s, op); }
  }

  /** Over any run an account holds what it bought and was sent, less what it sold, sent and burned. */
  lemma {:induction false} RunHoldings(s: State, ops: seq<Op>, u: Pubkey)
    requires Run(s, ops).Ok?
    ensures Get(Run(s, ops).value.holdings, u) == Get(s.holdings, u) + RunGained(s, ops, u)
    decreases |ops|
  {
    if ops != [] {
      StepHoldings(s, ops[0], u);
      RunHoldings(Step(s, ops[0]).value.state, ops[1..], u);
    }
  }

  // ---------------------------------------------------------------- reasons

  /** What an error of an exchange tells its user, at the price `p` per `t` shares: the last two, that the
      converted amount leaves 64 bits, or the account it goes to. */
  predicate Tells(s: State, op: Op, e: VaultError) {
    var p, t, held := Total(s) + 1, s.supply + VirtualOf(s), if Exchange(op) then Get(s.holdings, op.user) else 0;
    match e
    case VaultPaused => s.config.paused
    case ZeroAmount => if op.DepositOp? || op.WithdrawOp? then op.assets == 0 else (op.MintOp? || op.RedeemOp?) && op.shares == 0
    case DepositTooSmall =>
      (op.DepositOp? && op.assets < MIN_DEPOSIT_AMOUNT) || (op.MintOp? && op.shares * p <= (MIN_DEPOSIT_AMOUNT - 1) * t)
    case InsufficientShares => (op.WithdrawOp? && held * p < op.assets * t) || (op.RedeemOp? && held < op.shares)
    case InsufficientAssets => op.WithdrawOp? && Total(s) < op.assets
    case SlippageExceeded =>
      || (op.DepositOp? && op.assets * t < op.minShares * p) || (op.MintOp? && op.maxAssets * t < op.shares * p)
      || (op.WithdrawOp? && op.maxShares * p < op.assets * t) || (op.RedeemOp? && op.shares * p < op.minAssets * t)
    case MathOverflow =>
      || (op.DepositOp? && (U64_MAX + 1) * p <= op.assets * t) || (op.MintOp? && U64_MAX * t < op.shares * p)
      || (op.WithdrawOp? && U64_MAX * p < op.assets * t)
    case TokenError =>
      || (op.DepositOp? && (U64_MAX < s.balance + op.assets || (U64_MAX - s.supply + 1) * p <= op.assets * t))
      || (op.MintOp? && (U64_MAX < s.supply + op.shares || (U64_MAX - s.balance) * t < op.shares * p))
    case _ => false
  }

  lemma EnterErrors(s: State, user: Pubkey, assets: u64, shares: u64)
    requires Valid(s)
    ensures Enter(s, user, assets, shares).Err? ==>
              Enter(s, user, assets, shares).error == TokenError && (U64_MAX < s.balance + assets || U64_MAX < s.supply + shares)
  {
    Sums.HoldingsStep(s.holdings, user, 0);
  }

  lemma DepositTells(s: State, op: Op)
    requires Valid(s) && PublicRuns.Priceable(s) && op.DepositOp? && Step(s, op).Err?
    ensures Tells(s, op, Step(s, op).error)
  {
    var n, p := op.assets * (s.supply + VirtualOf(s)), Total(s) + 1;
    var shares := ToShares(s, op.assets, Floor);
    ProductNonNegative(op.assets, s.supply + VirtualOf(s));
    ToSharesWithin(op.assets, Total(s), s.supply, s.config.decimalsOffset, Floor, 0, U64_MAX);
    if shares.Ok? {
      ToSharesRounded(op.assets, Total(s), s.supply, s.config.decimalsOffset, Floor);
      FloorAtLeast(n, p, shares.value, op.minShares);
      FloorAtLeast(n, p, shares.value, U64_MAX - s.supply + 1);
      EnterErrors(s, op.user, op.assets, shares.value);
    }
  }

  lemma MintTells(s: State, op: Op)
    requires Valid(s) && PublicRuns.Priceable(s) && op.MintOp? && Step(s, op).Err?
    ensures Tells(s, op, Step(s, op).error)
  {
    var n, t := op.shares * (Total(s) + 1), s.supply + VirtualOf(s);
    var assets := ToAssets(s, op.shares, Ceiling);
    ProductNonNegative(op.shares, Total(s) + 1);
    ToAssetsWithin(op.shares, Total(s), s.supply, s.config.decimalsOffset, Ceiling, 0, U64_MAX);
    if assets.Ok? {
      ToAssetsRounded(op.shares, Total(s), s.supply, s.config.decimalsOffset, Ceiling);
      CeilingAtMost(n, t, assets.value, MIN_DEPOSIT_AMOUNT - 1);
      CeilingAtMost(n, t, assets.value, op.maxAssets);
      CeilingAtMost(n, t, assets.value, U64_MAX - s.balance);
      EnterErrors(s, op.user, assets.value, op.shares);
    }
  }

  lemma WithdrawTells(s: State, op: Op)
    requires Valid(s) && PublicRuns.Priceable(s) && op.WithdrawOp? && Step(s, op).Err?
    ensures Tells(s, op, Step(s, op).error)
  {
    var n, p, held := op.assets * (s.supply + VirtualOf(s)), Total(s) + 1, Get(s.holdings, op.user);
    var shares := ToShares(s, op.assets, Ceiling);
    ProductNonNegative(op.assets, s.supply + VirtualOf(s));
    ToSharesWithin(op.assets, Total(s), s.supply, s.config.decimalsOffset, Ceiling, 0, U64_MAX);
    if shares.Ok? {
      ToSharesRounded(op.assets, Total(s), s.supply, s.config.decimalsOffset, Ceiling);
      CeilingAtMost(n, p, shares.value, op.maxShares);
      CeilingAtMost(n, p, shares.value, held);
      if op.assets <= Total(s) && shares.value <= held { LeaveEnabled(s, op.user, op.assets, shares.value); }
    }
  }

  lemma RedeemTells(s: State, op: Op)
    requires Valid(s) && PublicRuns.Priceable(s) && op.RedeemOp? && Step(s, op).Err?
    ensures Tells(s, op, Step(s, op).error)
  {
    var assets := ToAssets(s, op.shares, Floor);
    PublicRuns.RedeemIff(s, op.user, op.shares, op.minAssets);
    Sums.HoldingsStep(s.holdings, op.user, 0);
    if op.shares <= Get(s.holdings, op.user) {
      RedeemSucceeds(op.shares, Total(s), s.supply, s.config.decimalsOffset);
      ToAssetsRounded(op.shares, Total(s), s.supply, s.config.decimalsOffset, Floor);
      FloorAtLeast(op.shares * (Total(s) + 1), s.supply + VirtualOf(s), assets.value, op.minAssets);
      if assets.value <= Total(s) { LeaveEnabled(s, op.user, assets.value, op.shares); }
    }
  }

  /** Every refused exchange of a reachable vault gives the reason it was refused for; only a withdrawal can
      find the vault short of assets, and only for more than all of them. */
  lemma ErrorTells(s: State, op: Op)
    requires Valid(s) && PublicRuns.Priceable(s) && Exchange(op) && Step(s, op).Err?
    ensures Tells(s, op, Step(s, op).error)
  {
    if op.DepositOp? {
      DepositTells(s, op);
    } else if op.MintOp? {
      MintTells(s, op);
    } else if op.WithdrawOp? {
      WithdrawTells(s, op);
    } else {
      RedeemTells(s, op);
    }
  }

  // ---------------------------------------------------------------- administration

  /** A paused vault exchanges nothing, and neither does one whose virtual totals leave 64 bits. */
  lemma PausedRefuses(s: State, op: Op)
    requires Exchange(op)
    ensures s.config.paused ==> Step(s, op) == Err(VaultPaused)
    ensures !PublicRuns.Priceable(s) ==> Step(s, op).Err?
  {}

  /** The configuration changes by its authority's pausing and unpausing only, and the recorded total by
      an exchange or by a sync, of its authority and in SVS-2, to the whole balance. */
  lemma AdminIff(s: State, op: Op)
    requires !Exchange(op)
    ensures op.SetPausedOp? ==> (Step(s, op).Ok? <==> op.caller == s.config.authority && op.paused != s.config.paused)
    ensures op.SyncOp? ==> (Step(s, op).Ok? <==> op.caller == s.config.authority && s.config.model.Stored?)
    ensures Step(s, op).Ok? ==>
              var t := Step(s, op).value.state;
              && t.config == s.config.(paused := if op.SetPausedOp? then op.paused else s.config.paused)
              && t.recorded == (if op.SyncOp? then s.balance else s.recorded)
              && t.balance == s.balance + (if op.DonateOp? then op.amount else 0)
              && t.supply == s.supply - (if op.BurnOp? then op.amount else 0)
  {}
}
