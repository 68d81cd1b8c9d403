/** What the instructions of the streaming vault answer at any moment of a stream: exactly when each
    commits, for which amounts, and whose accounts it changes by how much. */
module StreamExchanges {
  import opened Common
  import opened Conversion
  import Sums
  import opened StreamLedger
  import opened StreamAccrual
  import opened StreamRuns

  // ---------------------------------------------------------------- checkpoints

  /** A checkpoint, and with it every exchange, is refused exactly when the clock has run backwards, within
      the stream, past what an earlier checkpoint released. */
  lemma CheckpointIff(s: State, now: i64, donated: nat)
    requires Backed(s, donated)
    ensures Checkpoint(s, now).Ok? <==> Timely(s, now) || now <= s.stream.start
  {
    if now > s.stream.start {
      RefusedOnlyBackwards(s, now, donated);
      if Timely(s, now) { CheckpointKeepsWorth(s, now, donated); }
    }
  }

  /** What is moved to the base is marked as distributed, at this time, and an ended stream is cleared; if
      nothing was released since, nothing changes. */
  lemma CheckpointMarks(s: State, now: i64, donated: nat)
    requires Backed(s, donated) && Timely(s, now)
    ensures Checkpoint(s, now).Ok?
    ensures var c, moved := Checkpoint(s, now).value, Worth(s, now) - s.base;
            if moved == 0 then c == s
            else
              && c.base == s.base + moved && c.lastCheckpoint == now
              && c.stream == if now >= s.stream.end then IDLE else s.stream.(distributed := s.stream.distributed + moved)
  {
    CheckpointKeepsWorth(s, now, donated);
    EffectiveIsWorth(s, now, donated);
  }

  // ---------------------------------------------------------------- acceptance

  lemma EnterIff(s: State, user: Pubkey, assets: u64, shares: u64, donated: nat)
    requires Backed(s, donated)
    ensures Enter(s, user, assets, shares).Ok? <==> s.balance + assets <= U64_MAX && s.supply + shares <= U64_MAX
  {
    Sums.HoldingsStep(s.holdings, user, 0);
  }

  /** The checks of a deposit into the checkpointed vault `c`. */
  lemma DepositInto(c: State, user: Pubkey, assets: u64, minShares: u64, donated: nat)
    requires Backed(c, donated) && Priceable(c)
    ensures var shares, p, t := ToShares(c, assets, Floor), c.base + 1, c.supply + VirtualOf(c);
            && (shares.Ok? && minShares <= shares.value <= U64_MAX - c.supply <==> minShares * p <= assets * t < (U64_MAX - c.supply + 1) * p)
            && (shares.Ok? && 1 <= shares.value <= U64_MAX - c.supply <==> p <= assets * t < (U64_MAX - c.supply + 1) * p)
            && (shares.Ok? ==> (Enter(c, user, assets, shares.value).Ok? <==> c.balance + assets <= U64_MAX && c.supply + shares.value <= U64_MAX))
  {
    ToSharesWithin(assets, c.base, c.supply, c.config.decimalsOffset, Floor, minShares, U64_MAX - c.supply);
    ToSharesWithin(assets, c.base, c.supply, c.config.decimalsOffset, Floor, 1, U64_MAX - c.supply);
    if ToShares(c, assets, Floor).Ok? {
      EnterIff(c, user, assets, ToShares(c, assets, Floor).value, donated);
    }
  }

  lemma MintInto(c: State, user: Pubkey, shares: u64, maxAssets: u64, donated: nat)
    requires Backed(c, donated) && Priceable(c)
    ensures var assets, p, t := ToAssets(c, shares, Ceiling), c.base + 1, c.supply + VirtualOf(c);
            && (assets.Ok? && 0 <= assets.value <= Min(maxAssets, U64_MAX - c.balance) <==> shares * p <= Min(maxAssets, U64_MAX - c.balance) * t)
            && (assets.Ok? ==> (Enter(c, user, assets.value, shares).Ok? <==> c.balance + assets.value <= U64_MAX && c.supply + shares <= U64_MAX))
  {
    ProductNonNegative(shares, c.base + 1);
    ToAssetsWithin(shares, c.base, c.supply, c.config.decimalsOffset, Ceiling, 0, Min(maxAssets, U64_MAX - c.balance));
    if ToAssets(c, shares, Ceiling).Ok? {
      EnterIff(c, user, ToAssets(c, shares, Ceiling).value, shares, donated);
    }
  }

  lemma WithdrawFrom(c: State, user: Pubkey, assets: u64, maxShares: u64, donated: nat)
    requires Backed(c, donated) && Priceable(c) && assets <= c.base
    ensures var shares, p, t := ToShares(c, assets, Ceiling), c.base + 1, c.supply + VirtualOf(c);
            && (shares.Ok? && 0 <= shares.value <= Min(maxShares, Get(c.holdings, user)) <==> assets * t <= Min(maxShares, Get(c.holdings, user)) * p)
            && (shares.Ok? && shares.value <= Get(c.holdings, user) ==> Leave(c, user, assets, shares.value).Ok?)
  {
    ProductNonNegative(assets, c.supply + VirtualOf(c));
    ToSharesWithin(assets, c.base, c.supply, c.config.decimalsOffset, Ceiling, 0, Min(maxShares, Get(c.holdings, user)));
    if ToShares(c, assets, Ceiling).Ok? && ToShares(c, assets, Ceiling).value <= Get(c.holdings, user) {
      LeaveEnabled(c, user, assets, ToShares(c, assets, Ceiling).value, donated);
    }
  }

  /** What an exchange at `now` starts from. */
  lemma Checkpointed(s: State, now: i64, donated: nat)
    requires Valid(s, now, donated) && Priceable(s)
    ensures Checkpoint(s, now).Ok?
    ensures var c := Checkpoint(s, now).value;
            && Backed(c, donated) && Priceable(c) && c.base == Worth(s, now) && c.config == s.config
            && c.balance == s.balance && c.supply == s.supply && c.holdings == s.holdings
  {
    CheckpointKeepsWorth(s, now, donated);
    CheckpointBacked(s, now, donated);
  }

  /** Exactly when a deposit succeeds: it must be worth a share, and as many as asked for, at what the vault
      is then worth. */
  lemma DepositIff(s: State, user: Pubkey, assets: u64, minShares: u64, now: i64, donated: nat)
    requires Valid(s, now, donated) && Priceable(s)
    ensures var p, t := Worth(s, now) + 1, s.supply + VirtualOf(s);
            Deposit(s, user, assets, minShares, now).Ok? <==>
              && !s.config.paused && MIN_DEPOSIT_AMOUNT <= assets && s.balance + assets <= U64_MAX
              && p <= assets * t && minShares * p <= assets * t < (U64_MAX - s.supply + 1) * p
  {
    Checkpointed(s, now, donated);
    DepositInto(Checkpoint(s, now).value, user, assets, minShares, donated);
  }

  /** A mint has no smallest amount here. */
  lemma MintIff(s: State, user: Pubkey, shares: u64, maxAssets: u64, now: i64, donated: nat)
    requires Valid(s, now, donated) && Priceable(s)
    ensures var p, t := Worth(s, now) + 1, s.supply + VirtualOf(s);
            Mint(s, user, shares, maxAssets, now).Ok? <==>
              && !s.config.paused && 0 < shares && s.supply + shares <= U64_MAX
              && shares * p <= Min(maxAssets, U64_MAX - s.balance) * t
  {
    Checkpointed(s, now, donated);
    MintInto(Checkpoint(s, now).value, user, shares, maxAssets, donated);
  }

  lemma WithdrawIff(s: State, user: Pubkey, assets: u64, maxShares: u64, now: i64, donated: nat)
    requires Valid(s, now, donated) && Priceable(s)
    ensures var p, t := Worth(s, now) + 1, s.supply + VirtualOf(s);
            Withdraw(s, user, assets, maxShares, now).Ok? <==>
              && !s.config.paused && 0 < assets <= Worth(s, now)
              && assets * t <= Min(maxShares, Get(s.holdings, user)) * p
  {
    Checkpointed(s, now, donated);
    if assets <= Worth(s, now) {
      WithdrawFrom(Checkpoint(s, now).value, user, assets, maxShares, donated);
    }
  }

  // ---------------------------------------------------------------- amounts and accounts

  /** The amounts named by the user are exchanged, and for them the other ones at what the vault is worth at
      that time: rounded down what the user gets, rounded up what the user gives. */
  predicate Priced(worth: int, t: int, op: Op, assets: u64, shares: u64) {
    var p := worth + 1;
    match op
    case DepositOp(_, d, minShares, _) => assets == d && Rounded(d * t, p, Floor, shares) && minShares <= shares
    case MintOp(_, n, maxAssets, _) => shares == n && Rounded(n * p, t, Ceiling, assets) && assets <= maxAssets
    case WithdrawOp(_, x, maxShares, _) => assets == x && Rounded(x * t, p, Ceiling, shares) && shares <= maxShares
    case RedeemOp(_, n, minAssets, _) => shares == n && Rounded(n * p, t, Floor, assets) && minAssets <= assets
    case _ => assets == 0 && shares == 0
  }

  lemma EntryPriced(s: State, op: Op)
    requires Entry(op) && Step(s, op).Ok?
    ensures Checkpoint(s, op.now).Ok?
    ensures var c, x := Checkpoint(s, op.now).value, Step(s, op).value;
            Priced(c.base, c.supply + VirtualOf(c), op, x.assets, x.shares)
  {
    EntryParts(s, op);
    var c, x := Checkpoint(s, op.now).value, Step(s, op).value;
    if op.DepositOp? {
      ToSharesRounded(x.assets, c.base, c.supply, c.config.decimalsOffset, Floor);
    } else {
      ToAssetsRounded(x.shares, c.base, c.supply, c.config.decimalsOffset, Ceiling);
    }
  }

  lemma ExitPriced(s: State, op: Op)
    requires Exchange(op) && !Entry(op) && Step(s, op).Ok?
    ensures Checkpoint(s, op.now).Ok?
    ensures var c, x := Checkpoint(s, op.now).value, Step(s, op).value;
            Priced(c.base, c.supply + VirtualOf(c), op, x.assets, x.shares)
  {
    ExitParts(s, op);
    var c, x := Checkpoint(s, op.now).value, Step(s, op).value;
    if op.WithdrawOp? {
      ToSharesRounded(x.assets, c.base, c.supply, c.config.decimalsOffset, Ceiling);
    } else {
      ToAssetsRounded(x.shares, c.base, c.supply, c.config.decimalsOffset, Floor);
    }
  }

  lemma ExchangePriced(s: State, op: Op, donated: nat)
    requires Exchange(op) && Valid(s, op.now, donated) && Step(s, op).Ok?
    ensures var x := Step(s, op).value; Priced(Worth(s, op.now), s.supply + VirtualOf(s), op, x.assets, x.shares)
  {
    CheckpointKeepsWorth(s, op.now, donated);
    CheckpointBacked(s, op.now, donated);
    if Entry(op) { EntryPriced(s, op); } else { ExitPriced(s, op); }
  }

  /** `assets` and `shares`, negative when they leave, are booked to the checkpointed vault `c` and to
      `user`, and to nobody else. */
  ghost predicate Booked(c: State, t: State, user: Pubkey, assets: int, shares: int) {
    && t.config == c.config && t.stream == c.stream && t.lastCheckpoint == c.lastCheckpoint
    && t.base == c.base + assets && t.balance == c.balance + assets && t.supply == c.supply + shares
    && forall u :: Get(t.holdings, u) == Get(c.holdings, u) + if u == user then shares else 0
  }

  lemma EnterBooked(c: State, user: Pubkey, assets: u64, shares: u64)
    requires Enter(c, user, assets, shares).Ok?
    ensures Booked(c, Enter(c, user, assets, shares).value.state, user, assets, shares)
  {}

  lemma LeaveBooked(c: State, user: Pubkey, assets: u64, shares: u64)
    requires Leave(c, user, assets, shares).Ok?
    ensures Booked(c, Leave(c, user, assets, shares).value.state, user, 0 - assets, 0 - shares)
  {}

  lemma ExchangeBooked(s: State, op: Op)
    requires Exchange(op) && Step(s, op).Ok?
    ensures Checkpoint(s, op.now).Ok?
    ensures var c, x := Checkpoint(s, op.now).value, Step(s, op).value;
            if Entry(op) then Booked(c, x.state, op.user, x.assets, x.shares)
            else Booked(c, x.state, op.user, 0 - x.assets, 0 - x.shares)
  {
    var x := Step(s, op).value;
    if Entry(op) {
      EntryParts(s, op);
      EnterBooked(Checkpoint(s, op.now).value, op.user, x.assets, x.shares);
    } else {
      ExitParts(s, op);
      LeaveBooked(Checkpoint(s, op.now).value, op.user, x.assets, x.shares);
    }
  }

  /** What a step adds to the shares of `u`. */
  function Gained(s: State, op: Op, u: Pubkey): int
    requires Step(s, op).Ok?
  {
    var shares := Step(s, op).value.shares;
    match op
    case DepositOp(user, _, _, _) => if user == u then shares else 0
    case MintOp(user, _, _, _) => if user == u then shares else 0
    case WithdrawOp(user, _, _, _) => if user == u then 0 - shares else 0
    case RedeemOp(user, _, _, _) => if user == u then 0 - shares else 0
    case TransferOp(from, to, amount) => (if to == u then amount else 0) - (if from == u then amount else 0)
    case BurnOp(from, amount) => if from == u then 0 - amount else 0
    case _ => 0
  }

  function RunGained(s: State, ops: seq<Op>, u: Pubkey): int
    requires Run(s, ops).Ok?
    decreases |ops|
  {
    if ops == [] then 0 else Gained(s, ops[0], u) + RunGained(Step(s, ops[0]).value.state, ops[1..], u)
  }

  lemma CheckpointHoldings(s: State, now: i64)
    requires Checkpoint(s, now).Ok?
    ensures Checkpoint(s, now).value.holdings == s.holdings
  {}

  lemma StepHoldings(s: State, op: Op, u: Pubkey)
    requires Step(s, op).Ok?
    ensures Get(Step(s, op).value.state.holdings, u) == Get(s.holdings, u) + Gained(s, op, u)
  {
    if Exchange(op) {
      ExchangeBooked(s, op);
      CheckpointHoldings(s, op.now);
    }
  }

  /** Over any run, whatever the clock does, an account holds what it bought and was sent, less what it sold,
      sent and burned. */
  lemma {:induction false} RunHoldings(s: State, ops: seq<Op>, u: Pubkey)
    requires Run(s, ops).Ok?
    ensures Get(Run(s, ops).value.holdings, u) == Get(s.holdings, u) + RunGained(s, ops, u)
    decreases |ops|
  {
    if ops != [] {
      StepHoldings(s, ops[0], u);
      RunHoldings(Step(s, ops[0]).value.state, ops[1..], u);
    }
  }

  // ---------------------------------------------------------------- reasons

  /** What an error of an exchange tells its user, when the vault is worth `worth`: the last two, that the
      converted amount leaves 64 bits, or the account it goes to. */
  predicate Tells(s: State, worth: int, op: Op, e: VaultError)
    requires Exchange(op)
  {
    var p, t, held := worth + 1, s.supply + VirtualOf(s), Get(s.holdings, op.user);
    match e
    case VaultPaused => s.config.paused
    case ZeroAmount =>
      || (op.DepositOp? && (op.assets == 0 || op.assets * t < p)) || (op.WithdrawOp? && op.assets == 0)
      || ((op.MintOp? || op.RedeemOp?) && op.shares == 0)
    case DepositTooSmall => op.DepositOp? && op.assets < MIN_DEPOSIT_AMOUNT
    case InsufficientShares => (op.WithdrawOp? && held * p < op.assets * t) || (op.RedeemOp? && held < op.shares)
    case InsufficientAssets => op.WithdrawOp? && worth < op.assets
    case SlippageExceeded =>
      || (op.DepositOp? && op.assets * t < op.minShares * p) || (op.MintOp? && op.maxAssets * t < op.shares * p)
      || (op.WithdrawOp? && op.maxShares * p < op.assets * t) || (op.RedeemOp? && op.shares * p < op.minAssets * t)
    case MathOverflow =>
      || (op.DepositOp? && (U64_MAX + 1) * p <= op.assets * t) || (op.MintOp? && U64_MAX * t < op.shares * p)
      || (op.WithdrawOp? && U64_MAX * p < op.assets * t)
    case TokenError =>
      || (op.DepositOp? && (U64_MAX < s.balance + op.assets || (U64_MAX - s.supply + 1) * p <= op.assets * t))
      || (op.MintOp? && (U64_MAX < s.supply + op.shares || (U64_MAX - s.balance) * t < op.shares * p))
    case _ => false
  }

  /** The conversion of an exchange with the checkpointed vault `c`. */
  function Quoted(c: State, op: Op): Result<u64>
    requires Exchange(op)
  {
    match op
    case DepositOp(_, assets, _, _) => ToShares(c, assets, Floor)
    case MintOp(_, shares, _, _) => ToAssets(c, shares, Ceiling)
    case WithdrawOp(_, assets, _, _) => ToShares(c, assets, Ceiling)
    case RedeemOp(_, shares, _, _) => ToAssets(c, shares, Floor)
  }

  /** The program's checks, on that conversion. */
  predicate Caused(c: State, op: Op, e: VaultError)
    requires Exchange(op)
  {
    var quote, held := Quoted(c, op), Get(c.holdings, op.user);
    match e
    case VaultPaused => c.config.paused
    case ZeroAmount =>
      || (op.DepositOp? && (op.assets == 0 || quote == Ok(0))) || (op.WithdrawOp? && op.assets == 0)
      || ((op.MintOp? || op.RedeemOp?) && op.shares == 0)
    case DepositTooSmall => op.DepositOp? && op.assets < MIN_DEPOSIT_AMOUNT
    case InsufficientShares => (op.WithdrawOp? && quote.Ok? && held < quote.value) || (op.RedeemOp? && held < op.shares)
    case InsufficientAssets => op.WithdrawOp? && c.base < op.assets
    case SlippageExceeded =>
      quote.Ok? && ((op.DepositOp? && quote.value < op.minShares) || (op.MintOp? && op.maxAssets < quote.value)
                    || (op.WithdrawOp? && op.maxShares < quote.value) || (op.RedeemOp? && quote.value < op.minAssets))
    case MathOverflow => quote.Err? && !op.RedeemOp?
    case TokenError =>
      && quote.Ok?
      && ((op.DepositOp? && (U64_MAX < c.balance + op.assets || U64_MAX < c.supply + quote.value))
          || (op.MintOp? && (U64_MAX < c.supply + op.shares || U64_MAX < c.balance + quote.value)))
    case _ => false
  }

  lemma EnterErrors(c: State, user: Pubkey, assets: u64, shares: u64, donated: nat)
    requires Backed(c, donated) && Enter(c, user, assets, shares).Err?
    ensures Enter(c, user, assets, shares).error == TokenError && (U64_MAX < c.balance + assets || U64_MAX < c.supply + shares)
  {
    Sums.HoldingsStep(c.holdings, user, 0);
  }

  lemma QuoteErrors(c: State, op: Op)
    requires Exchange(op) && c.base < U64_MAX && c.supply + VirtualOf(c) <= U64_MAX && Quoted(c, op).Err?
    ensures Quoted(c, op).error == MathOverflow
  {}

  lemma DepositCaused(s: State, op: Op, donated: nat)
    requires op.DepositOp? && Valid(s, op.now, donated) && Priceable(s) && Step(s, op).Err?
    ensures Checkpoint(s, op.now).Ok? && Caused(Checkpoint(s, op.now).value, op, Step(s, op).error)
  {
    Checkpointed(s, op.now, donated);
    var c := Checkpoint(s, op.now).value;
    var shares := ToShares(c, op.assets, Floor);
    if shares.Err? {
      QuoteErrors(c, op);
    } else if Enter(c, op.user, op.assets, shares.value).Err? {
      EnterErrors(c, op.user, op.assets, shares.value, donated);
    }
  }

  lemma MintCaused(s: State, op: Op, donated: nat)
    requires op.MintOp? && Valid(s, op.now, donated) && Priceable(s) && Step(s, op).Err?
    ensures Checkpoint(s, op.now).Ok? && Caused(Checkpoint(s, op.now).value, op, Step(s, op).error)
  {
    Checkpointed(s, op.now, donated);
    var c := Checkpoint(s, op.now).value;
    var assets := ToAssets(c, op.shares, Ceiling);
    if assets.Err? {
      QuoteErrors(c, op);
    } else if Enter(c, op.user, assets.value, op.shares).Err? {
      EnterErrors(c, op.user, assets.value, op.shares, donated);
    }
  }

  lemma WithdrawCaused(s: State, op: Op, donated: nat)
    requires op.WithdrawOp? && Valid(s, op.now, donated) && Priceable(s) && Step(s, op).Err?
    ensures Checkpoint(s, op.now).Ok? && Caused(Checkpoint(s, op.now).value, op, Step(s, op).error)
  {
    Checkpointed(s, op.now, donated);
    var c := Checkpoint(s, op.now).value;
    var shares := ToShares(c, op.assets, Ceiling);
    if shares.Ok? && op.assets <= c.base && shares.value <= Get(c.holdings, op.user) {
      LeaveEnabled(c, op.user, op.assets, shares.value, donated);
    }
  }

  lemma RedeemCaused(s: State, op: Op, donated: nat)
    requires op.RedeemOp? && Valid(s, op.now, donated) && Priceable(s) && Step(s, op).Err?
    ensures Checkpoint(s, op.now).Ok? && Caused(Checkpoint(s, op.now).value, op, Step(s, op).error)
  {
    Checkpointed(s, op.now, donated);
    RedeemNeverShort(s, op.user, op.shares, op.minAssets, op.now, donated);
    var c := Checkpoint(s, op.now).value;
    var assets := ToAssets(c, op.shares, Floor);
    Sums.HoldingsStep(c.holdings, op.user, 0);
    if op.shares <= Get(c.holdings, op.user) {
      RedeemSucceeds(op.shares, c.base, c.supply, c.config.decimalsOffset);
      if assets.value <= c.base { LeaveEnabled(c, op.user, assets.value, op.shares, donated); }
    }
  }

  lemma EntryTells(c: State, op: Op, e: VaultError)
    requires Entry(op) && Caused(c, op, e) && c.base < U64_MAX && c.supply + VirtualOf(c) <= U64_MAX
    ensures Tells(c, c.base, op, e)
  {
    var quote, p, t := Quoted(c, op), c.base + 1, c.supply + VirtualOf(c);
    if op.DepositOp? {
      ProductNonNegative(op.assets, t);
      ToSharesWithin(op.assets, c.base, c.supply, c.config.decimalsOffset, Floor, 0, U64_MAX);
      if quote.Ok? { FloorTells(op.assets * t, p, quote.value, op.minShares, U64_MAX - c.supply); }
    } else {
      ProductNonNegative(op.shares, p);
      ToAssetsWithin(op.shares, c.base, c.supply, c.config.decimalsOffset, Ceiling, 0, U64_MAX);
      if quote.Ok? { CeilingTells(op.shares * p, t, quote.value, op.maxAssets, U64_MAX - c.balance); }
    }
  }

  lemma FloorTells(n: int, d: int, q: int, low: int, high: int)
    requires d > 0 && Rounded(n, d, Floor, q)
    ensures q < low <==> n < low * d
    ensures high < q <==> (high + 1) * d <= n
    ensures q < 1 <==> n < d
  {
    FloorAtLeast(n, d, q, low);
    FloorAtLeast(n, d, q, high + 1);
    FloorAtLeast(n, d, q, 1);
  }

  lemma CeilingTells(n: int, d: int, q: int, a: int, b: int)
    requires d > 0 && Rounded(n, d, Ceiling, q)
    ensures a < q <==> a * d < n
    ensures b < q <==> b * d < n
  {
    CeilingAtMost(n, d, q, a);
    CeilingAtMost(n, d, q, b);
  }

  lemma ExitTells(c: State, op: Op, e: VaultError)
    requires Exchange(op) && !Entry(op) && Caused(c, op, e) && c.base < U64_MAX && c.supply + VirtualOf(c) <= U64_MAX
    ensures Tells(c, c.base, op, e)
  {
    var quote, p, t := Quoted(c, op), c.base + 1, c.supply + VirtualOf(c);
    if op.WithdrawOp? {
      ProductNonNegative(op.assets, t);
      ToSharesWithin(op.assets, c.base, c.supply, c.config.decimalsOffset, Ceiling, 0, U64_MAX);
      if quote.Ok? { CeilingTells(op.assets * t, p, quote.value, op.maxShares, Get(c.holdings, op.user)); }
    } else if quote.Ok? {
      FloorTells(op.shares * p, t, quote.value, op.minAssets, 0);
    }
  }

  lemma ExchangeCaused(s: State, op: Op, donated: nat)
    requires Exchange(op) && Valid(s, op.now, donated) && Priceable(s) && Step(s, op).Err?
    ensures Checkpoint(s, op.now).Ok? && Caused(Checkpoint(s, op.now).value, op, Step(s, op).error)
  {
    match op
    case DepositOp(_, _, _, _) => DepositCaused(s, op, donated);
    case MintOp(_, _, _, _) => MintCaused(s, op, donated);
    case WithdrawOp(_, _, _, _) => WithdrawCaused(s, op, donated);
    case RedeemOp(_, _, _, _) => RedeemCaused(s, op, donated);
  }

  lemma SameTells(c: State, s: State, op: Op, e: VaultError)
    requires c.config == s.config && c.balance == s.balance && c.supply == s.supply && c.holdings == s.holdings
    requires Exchange(op) && Tells(c, c.base, op, e)
    ensures Tells(s, c.base, op, e)
  {}

  /** Every refused exchange of a reachable vault, at any moment of a stream, gives the reason it was refused
      for; only a withdrawal can find it short of assets, and only for more than it is worth. */
  lemma ErrorTells(s: State, op: Op, donated: nat)
    requires Exchange(op) && Valid(s, op.now, donated) && Priceable(s) && Step(s, op).Err?
    ensures Tells(s, Worth(s, op.now), op, Step(s, op).error)
  {
    Checkpointed(s, op.now, donated);
    ExchangeCaused(s, op, donated);
    var c, e := Checkpoint(s, op.now).value, Step(s, op).error;
    if Entry(op) { EntryTells(c, op, e); } else { ExitTells(c, op, e); }
    SameTells(c, s, op, e);
  }

  // ---------------------------------------------------------------- administration

  /** A paused vault exchanges nothing and starts no stream. */
  lemma PausedRefuses(s: State, op: Op)
    requires s.config.paused
    ensures Exchange(op) ==> Step(s, op) == Err(VaultPaused)
    ensures op.DistributeYieldOp? && op.caller == s.config.authority ==> Step(s, op) == Err(VaultPaused)
  {}

  /** Only the authority pauses, unpauses and starts streams; nothing else changes the configuration. */
  lemma AdminIff(s: State, op: Op)
    ensures op.SetPausedOp? ==> (Step(s, op).Ok? <==> op.caller == s.config.authority && op.paused != s.config.paused)
    ensures op.SetPausedOp? && Step(s, op).Ok? ==> Step(s, op).value.state == s.(config := s.config.(paused := op.paused))
    ensures (op.SetPausedOp? || op.DistributeYieldOp?) && op.caller != s.config.authority ==> Step(s, op) == Err(Unauthorized)
    ensures Step(s, op).Ok? && !op.SetPausedOp? ==> Step(s, op).value.state.config == s.config
  {
    if Exchange(op) && Step(s, op).Ok? { ExchangeBooked(s, op); }
  }
}
