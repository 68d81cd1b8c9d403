/** What the share price of a public vault guarantees over whole runs. */
module PublicPricing {
  import opened Common
  import opened Conversion
  import Sums
  import opened PublicLedger

  /** The mint's supply is what the holders have, and SVS-2 records no more than it holds. */
  ghost predicate Valid(s: State) {
    && s.supply == Sums.Sum(s.holdings, Sums.Amount)
    && Total(s) <= s.balance
  }

  /** Assets held but not priced. */
  function Surplus(s: State): int {
    s.balance - Total(s)
  }

  predicate PriceKept(s: State, t: State) {
    && t.config.decimalsOffset == s.config.decimalsOffset
    && PriceAtLeast(Total(s), s.supply, Total(t), t.supply, VirtualOf(s))
  }

  lemma EnterEffect(s: State, user: Pubkey, assets: u64, shares: u64)
    requires Valid(s) && Enter(s, user, assets, shares).Ok?
    ensures var t := Enter(s, user, assets, shares).value.state;
            && Valid(t) && t.config == s.config && t.supply == s.supply + shares
            && t.balance == s.balance + assets && Total(t) == Total(s) + assets
  {
    Sums.HoldingsStep(s.holdings, user, Get(s.holdings, user) + shares);
  }

  lemma LeaveEffect(s: State, user: Pubkey, assets: u64, shares: u64)
    requires Valid(s) && Leave(s, user, assets, shares).Ok?
    ensures var t := Leave(s, user, assets, shares).value.state;
            && Valid(t) && t.config == s.config && t.supply == s.supply - shares
            && t.balance == s.balance - assets && Total(t) == Total(s) - assets
  {
    Sums.HoldingsStep(s.holdings, user, Get(s.holdings, user) - shares);
  }

  /** In a reachable state a payment up to the priced total always settles. */
  lemma LeaveEnabled(s: State, user: Pubkey, assets: u64, shares: u64)
    requires Valid(s) && assets <= Total(s) && shares <= Get(s.holdings, user)
    ensures Leave(s, user, assets, shares).Ok?
  {
    Sums.HoldingsStep(s.holdings, user, 0);
  }

  // ---------------------------------------------------------------- one step

  /** What every committed step keeps: the invariant, the price, and the flow of assets. */
  ghost predicate Keeps(s: State, op: Op)
    requires Step(s, op).Ok?
  {
    var t, f := Step(s, op).value.state, StepFlow(s, op);
    && Valid(t) && PriceKept(s, t)
    && t.balance == s.balance + f.paidIn - f.paidOut + f.donated
  }

  lemma EntryKeeps(s: State, op: Op)
    requires Valid(s) && Step(s, op).Ok? && (op.DepositOp? || op.MintOp?)
    ensures Keeps(s, op)
  {
    var c := Step(s, op).value;
    EnterEffect(s, op.user, c.assets, c.shares);
    if op.DepositOp? {
      DepositFavoursPool(op.assets, Total(s), s.supply, s.config.decimalsOffset);
    } else {
      MintFavoursPool(op.shares, Total(s), s.supply, s.config.decimalsOffset);
    }
    FavoursPoolIffPriceKept(Total(s), s.supply, VirtualOf(s), c.assets, c.shares);
  }

  lemma ExitKeeps(s: State, op: Op)
    requires Valid(s) && Step(s, op).Ok? && (op.WithdrawOp? || op.RedeemOp?)
    ensures Keeps(s, op)
  {
    var c := Step(s, op).value;
    LeaveEffect(s, op.user, c.assets, c.shares);
    if op.WithdrawOp? {
      WithdrawFavoursPool(op.assets, Total(s), s.supply, s.config.decimalsOffset);
    } else {
      RedeemFavoursPool(op.shares, Total(s), s.supply, s.config.decimalsOffset);
    }
    FavoursPoolIffPriceKept(Total(s), s.supply, VirtualOf(s), 0 - c.assets, 0 - c.shares);
  }

  predicate Exchange(op: Op) {
    op.DepositOp? || op.MintOp? || op.WithdrawOp? || op.RedeemOp?
  }

  lemma ExchangeParts(s: State, op: Op)
    requires Exchange(op) && Step(s, op).Ok?
    ensures var c := Step(s, op).value;
            Step(s, op) == if op.DepositOp? || op.MintOp? then Enter(s, op.user, c.assets, c.shares) else Leave(s, op.user, c.assets, c.shares)
  {}

  lemma TransferEffect(s: State, from: Pubkey, to: Pubkey, amount: u64)
    requires Valid(s) && Transfer(s, from, to, amount).Ok?
    ensures Valid(Transfer(s, from, to, amount).value.state)
  {
    var debited := s.holdings[from := Get(s.holdings, from) - amount];
    Sums.HoldingsStep(s.holdings, from, Get(s.holdings, from) - amount);
    Sums.HoldingsStep(debited, to, Get(debited, to) + amount);
  }

  lemma BurnEffect(s: State, from: Pubkey, amount: u64)
    requires Valid(s) && Burn(s, from, amount).Ok?
    ensures Valid(Burn(s, from, amount).value.state)
  {
    Sums.HoldingsStep(s.holdings, from, Get(s.holdings, from) - amount);
  }

  lemma OutsideEffect(s: State, op: Op)
    requires Valid(s) && Step(s, op).Ok? && !Exchange(op)
    ensures var t, f := Step(s, op).value.state, StepFlow(s, op);
            && Valid(t) && t.config.decimalsOffset == s.config.decimalsOffset
            && Total(s) <= Total(t) && t.supply <= s.supply
            && t.balance == s.balance + f.donated && f.paidIn == f.paidOut == 0
  {
    match op
    case TransferOp(from, to, amount) => TransferEffect(s, from, to, amount);
    case BurnOp(from, amount) => BurnEffect(s, from, amount);
    case _ =>
  }

  lemma OutsideKeeps(s: State, op: Op)
    requires Valid(s) && Step(s, op).Ok? && !Exchange(op)
    ensures Keeps(s, op)
  {
    OutsideEffect(s, op);
    var t := Step(s, op).value.state;
    PriceMonotone(Total(s), s.supply, Total(t), t.supply, VirtualOf(s));
  }

  lemma StepKeeps(s: State, op: Op)
    requires Valid(s) && Step(s, op).Ok?
    ensures Keeps(s, op)
  {
    if op.DepositOp? || op.MintOp? {
      EntryKeeps(s, op);
    } else if op.WithdrawOp? || op.RedeemOp? {
      ExitKeeps(s, op);
    } else {
      OutsideKeeps(s, op);
    }
  }

  // ---------------------------------------------------------------- whole runs

  /** The share price never falls, and the vault's balance is what came in less what went out. */
  lemma {:induction false} RunKeeps(s: State, ops: seq<Op>)
    requires Valid(s) && Run(s, ops).Ok?
    ensures var t, f := Run(s, ops).value, RunFlow(s, ops);
            Valid(t) && PriceKept(s, t) && t.balance == s.balance + f.paidIn - f.paidOut + f.donated
    decreases |ops|
  {
    if ops != [] {
      StepKeeps(s, ops[0]);
      var m := Step(s, ops[0]).value.state;
      RunKeeps(m, ops[1..]);
      var t := Run(m, ops[1..]).value;
      PriceTransitive(Total(s), s.supply, Total(m), m.supply, Total(t), t.supply, VirtualOf(s));
    }
  }

  /** A run that ends with the shares it began with pays out no more than it took in and was
      given. In particular a single user among idle holders who ends where they began, with any
      mix of the four operations, gains nothing. */
  lemma NoFreeAssets(s: State, ops: seq<Op>)
    requires Valid(s) && Run(s, ops).Ok? && Run(s, ops).value.supply >= s.supply
    ensures var f := RunFlow(s, ops); f.paidOut <= f.paidIn + f.donated + Surplus(s)
  {
    RunKeeps(s, ops);
    var t := Run(s, ops).value;
    PriceBacked(Total(s), s.supply, Total(t), t.supply, VirtualOf(s));
  }

  lemma InitialValid(model: Model, authority: Pubkey, offset: u8)
    ensures Valid(Initial(model, authority, offset)) && Surplus(Initial(model, authority, offset)) == 0
  {}
}
