/** What users of a public vault can count on: no gain from acting alone, an exit for everyone,
    a bound on what a full exit leaves behind, and no profit from inflating the price. */
module PublicRuns {
  import opened Common
  import opened Conversion
  import Sums
  import opened PublicLedger
  import opened PublicPricing

  // ---------------------------------------------------------------- acting alone

  /** Only `u` exchanges or burns shares, and nobody transfers any. */
  predicate OnlyActor(op: Op, u: Pubkey) {
    match op
    case BurnOp(from, _) => from == u
    case TransferOp(_, _, _) => false
    case SyncOp(_) => true
    case SetPausedOp(_, _) => true
    case DonateOp(_) => true
    case _ => op.user == u
  }

  lemma OthersHoldStep(s: State, op: Op, u: Pubkey)
    requires Step(s, op).Ok? && OnlyActor(op, u)
    ensures var t := Step(s, op).value.state;
            t.supply - Get(t.holdings, u) == s.supply - Get(s.holdings, u)
  {
    if Exchange(op) {
      ExchangeParts(s, op);
    }
  }

  lemma {:induction false} OthersHold(s: State, ops: seq<Op>, u: Pubkey)
    requires Run(s, ops).Ok? && forall op | op in ops :: OnlyActor(op, u)
    ensures var t := Run(s, ops).value;
            t.supply - Get(t.holdings, u) == s.supply - Get(s.holdings, u)
    decreases |ops|
  {
    if ops != [] {
      assert ops[0] in ops;
      OthersHoldStep(s, ops[0], u);
      OthersHold(Step(s, ops[0]).value.state, ops[1..], u);
    }
  }

  /** A user who acts alone and ends with at least the shares they began with has been paid no
      more than they paid in and the vault was given. */
  lemma ActingAloneGainsNothing(s: State, ops: seq<Op>, u: Pubkey)
    requires Valid(s) && Run(s, ops).Ok? && forall op | op in ops :: OnlyActor(op, u)
    requires Get(Run(s, ops).value.holdings, u) >= Get(s.holdings, u)
    ensures var f := RunFlow(s, ops); f.paidOut <= f.paidIn + f.donated + Surplus(s)
  {
    OthersHold(s, ops, u);
    NoFreeAssets(s, ops);
  }

  // ---------------------------------------------------------------- exits

  /** The virtual totals fit in 64 bits. */
  predicate Priceable(s: State) {
    Total(s) < U64_MAX && s.supply + VirtualOf(s) <= U64_MAX
  }

  /** A holder's redeem is refused for a pause, a zero amount, missing shares or slippage, and
      never for want of assets: that check of the programs cannot fail. */
  lemma {:induction false} RedeemIff(s: State, user: Pubkey, shares: u64, minAssets: u64)
    requires Valid(s) && Priceable(s)
    ensures Redeem(s, user, shares, minAssets).Ok? <==>
              && !s.config.paused && 0 < shares <= Get(s.holdings, user)
              && minAssets * (s.supply + VirtualOf(s)) <= shares * (Total(s) + 1)
    ensures Redeem(s, user, shares, minAssets) != Err(InsufficientAssets)
    ensures Redeem(s, user, shares, minAssets).Ok? ==> Redeem(s, user, shares, minAssets).value.assets <= Total(s)
  {
    Sums.HoldingsStep(s.holdings, user, 0);
    if shares <= Get(s.holdings, user) {
      RedeemSucceeds(shares, Total(s), s.supply, s.config.decimalsOffset);
      RedeemSolvent(shares, Total(s), s.supply, s.config.decimalsOffset);
      ToAssetsRounded(shares, Total(s), s.supply, s.config.decimalsOffset, Floor);
      var r := ToAssets(s, shares, Floor).value;
      FloorAtLeast(shares * (Total(s) + 1), s.supply + VirtualOf(s), r, minAssets);
      LeaveEnabled(s, user, r, shares);
    }
  }

  /** Shares `u` redeems in `ops`. */
  function Redeemed(ops: seq<Op>, u: Pubkey): nat {
    if ops == [] then 0
    else (if ops[0].RedeemOp? && ops[0].user == u then ops[0].shares else 0) + Redeemed(ops[1..], u)
  }

  predicate Exits(ops: seq<Op>) {
    forall op | op in ops :: op.RedeemOp? && op.shares > 0 && op.minAssets == 0
  }

  /** From any state, holders can redeem one after another, in any order and any split, and
      are paid at most the priced total between them. */
  lemma {:induction false} EveryoneCanLeave(s: State, ops: seq<Op>)
    requires Valid(s) && Priceable(s) && !s.config.paused
    requires Exits(ops) && forall u :: Redeemed(ops, u) <= Get(s.holdings, u)
    ensures Run(s, ops).Ok? && RunFlow(s, ops).paidOut == Total(s) - Total(Run(s, ops).value)
    decreases |ops|
  {
    if ops != [] {
      assert ops[0] in ops;
      var user, shares := ops[0].user, ops[0].shares;
      assert Redeemed(ops, user) <= Get(s.holdings, user);
      MulMono(0, shares, Total(s) + 1);
      RedeemIff(s, user, shares, 0);
      var c := Step(s, ops[0]).value;
      LeaveEffect(s, user, c.assets, c.shares);
      forall u ensures Redeemed(ops[1..], u) <= Get(c.state.holdings, u) {
        assert Redeemed(ops, u) <= Get(s.holdings, u);
      }
      EveryoneCanLeave(c.state, ops[1..]);
    }
  }

  // ---------------------------------------------------------------- dust

  /** After `k` redeems from a pool priced (p0, t0): rounding has kept less than `k` assets. */
  predicate DustBound(p0: int, t0: int, p: int, t: int, k: int) {
    p * t0 <= p0 * t + k * t0 && (k > 0 ==> p * t0 < p0 * t + k * t0)
  }

  lemma RedeemRemainder(p: int, t: int, b: int, r: int)
    requires Rounded(b * p, t, Floor, r)
    ensures (p - r) * t < p * (t - b) + t
  {
    assert (p - r) * t == p * t - r * t;
    assert (r + 1) * t == r * t + t;
    assert p * (t - b) == p * t - b * p;
  }

  lemma DustScaled(a: int, b: int, c: int, d: int, e: int, t0: int)
    requires a < b + c && 0 < t0
    requires d == a * t0 && e == b * t0 + c * t0
    ensures d < e
  {
    MulLess(a, b + c, t0);
    assert (b + c) * t0 == b * t0 + c * t0;
  }

  lemma KeptScaled(x: int, y: int, kept: int, t: int, u: int)
    requires x <= y * t + kept && 0 <= u <= t && 0 <= kept
    ensures x * u <= (y * u) * t + kept * t
  {
    MulMono(x, y * t + kept, u);
    assert (y * t + kept) * u == (y * u) * t + kept * u;
    MulMono(u, t, kept);
    assert u * kept == kept * u && t * kept == kept * t;
  }

  lemma DustScale(q: int, p: int, t: int, u: int, p0: int, t0: int, kept: int)
    requires q * t < p * u + t && p * t0 <= p0 * t + kept
    requires 0 <= u <= t && 0 < t && 0 < t0 && 0 <= kept
    ensures q * t0 < p0 * u + kept + t0
  {
    assert (q * t) * t0 == (q * t0) * t && (p * u) * t0 == (p * t0) * u && t * t0 == t0 * t;
    DustScaled(q * t, p * u, t, (q * t0) * t, (p * t0) * u + t0 * t, t0);
    KeptScaled(p * t0, p0, kept, t, u);
    assert (p0 * u + kept + t0) * t == (p0 * u) * t + kept * t + t0 * t;
    CancelLess(q * t0, p0 * u + kept + t0, t);
  }

  lemma DustStep(p0: int, t0: int, p: int, t: int, k: nat, b: nat, r: int)
    requires 0 < p0 && 0 < t <= t0 && b < t && DustBound(p0, t0, p, t, k) && Rounded(b * p, t, Floor, r)
    ensures DustBound(p0, t0, p - r, t - b, k + 1)
  {
    RedeemRemainder(p, t, b, r);
    MulMono(0, k, t0);
    DustScale(p - r, p, t, t - b, p0, t0, k * t0);
    assert (k + 1) * t0 == k * t0 + t0;
  }

  /** Induction over a run that counts its steps. */
  lemma {:induction false} RunInduction(s: State, ops: seq<Op>, k: nat, admitted: Op -> bool, inv: (State, nat) -> bool)
    requires Run(s, ops).Ok? && inv(s, k)
    requires forall op | op in ops :: admitted(op)
    requires forall a, op, j: nat | inv(a, j) && admitted(op) && Step(a, op).Ok? :: inv(Step(a, op).value.state, j + 1)
    ensures inv(Run(s, ops).value, k + |ops|)
    decreases |ops|
  {
    if ops != [] {
      assert ops[0] in ops;
      RunInduction(Step(s, ops[0]).value.state, ops[1..], k + 1, admitted, inv);
    }
  }

  ghost predicate Dusty(s: State, p0: nat, t0: nat, config: Config, k: nat) {
    && Valid(s) && s.config == config && 0 < p0 && s.supply + VirtualOf(s) <= t0
    && DustBound(p0, t0, Total(s) + 1, s.supply + VirtualOf(s), k)
  }

  lemma DustRedeem(s: State, op: Op, p0: nat, t0: nat, config: Config, k: nat)
    requires Dusty(s, p0, t0, config, k) && op.RedeemOp? && Step(s, op).Ok?
    ensures Dusty(Step(s, op).value.state, p0, t0, config, k + 1)
  {
    var c := Step(s, op).value;
    ToAssetsRounded(op.shares, Total(s), s.supply, s.config.decimalsOffset, Floor);
    LeaveEffect(s, op.user, c.assets, c.shares);
    DustStep(p0, t0, Total(s) + 1, s.supply + VirtualOf(s), k, op.shares, c.assets);
  }

  lemma DustStart(s: State)
    requires Valid(s)
    ensures Dusty(s, Total(s) + 1, s.supply + VirtualOf(s), s.config, 0)
  {}

  lemma {:induction false} DustRun(s: State, ops: seq<Op>, p0: nat, t0: nat, config: Config)
    requires Dusty(s, p0, t0, config, 0) && Run(s, ops).Ok?
    requires forall op | op in ops :: op.RedeemOp?
    ensures Dusty(Run(s, ops).value, p0, t0, config, |ops|)
  {
    forall a, op: Op, j: nat | Dusty(a, p0, t0, config, j) && op.RedeemOp? && Step(a, op).Ok?
      ensures Dusty(Step(a, op).value.state, p0, t0, config, j + 1)
    {
      DustRedeem(a, op, p0, t0, config, j);
    }
    RunInduction(s, ops, 0, (op: Op) => op.RedeemOp?, (a: State, j: nat) => Dusty(a, p0, t0, config, j));
  }

  /** What the virtual shares are worth, rounded up, less the virtual asset. */
  function Residue(a: nat, s: nat, vs: nat): int
    requires vs > 0
  {
    MulMono(0, vs, a + 1);
    Quotient(vs * (a + 1), s + vs, Ceiling) - 1
  }

  lemma DustLeft(a0: nat, s0: nat, a: nat, vs: nat, n: nat)
    requires vs > 0 && n > 0
    requires PriceAtLeast(a0, s0, a, 0, vs) && DustBound(a0 + 1, s0 + vs, a + 1, 0 + vs, n)
    ensures var c := Residue(a0, s0, vs); c <= a <= c + n - 1
  {
    var p0, t0 := a0 + 1, s0 + vs;
    var c := Residue(a0, s0, vs);
    MulMono(0, vs, p0);
    assert p0 * vs == vs * p0;
    CancelLess(c, a + 1, t0);
    assert (a + 1 - n) * t0 == (a + 1) * t0 - n * t0;
    CancelLess(a + 1 - n, c + 1, t0);
  }

  /** When `n` redeems return the whole supply, the vault is left with the value of the virtual
      shares and at most one unit more for every redeem but the first. */
  lemma {:induction false} DrainDust(s: State, ops: seq<Op>)
    requires Valid(s) && ops != [] && Run(s, ops).Ok? && Run(s, ops).value.supply == 0
    requires forall op | op in ops :: op.RedeemOp?
    ensures var c := Residue(Total(s), s.supply, VirtualOf(s));
            c <= Total(Run(s, ops).value) <= c + |ops| - 1
  {
    var t := Run(s, ops).value;
    RunKeeps(s, ops);
    DustStart(s);
    DustRun(s, ops, Total(s) + 1, s.supply + VirtualOf(s), s.config);
    DustLeft(Total(s), s.supply, Total(Run(s, ops).value), VirtualOf(s), |ops|);
  }
}
