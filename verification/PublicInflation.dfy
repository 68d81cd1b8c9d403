/** The virtual offset against price inflation, and the vault whose price nobody moved. */
module PublicInflation {
  import opened Common
  import opened Conversion
  import opened PublicLedger
  import opened PublicPricing
  import PublicRuns

  // ---------------------------------------------------------------- inflation

  /** A step of the others: deposits and mints by others than `u`, with donations and syncs by anyone. */
  predicate VictimStep(op: Op, u: Pubkey) {
    ((op.DepositOp? || op.MintOp?) && op.user != u) || op.DonateOp? || op.SyncOp?
  }

  function Count(op: Op): nat {
    if op.DepositOp? then 1 else 0
  }

  /** What a step can add to the holder's worth: a donation, or the unit a mint rounds up to. */
  function Gift(op: Op): nat {
    if op.DonateOp? then op.amount else if op.MintOp? then 1 else 0
  }

  function Deposits(ops: seq<Op>): nat {
    if ops == [] then 0 else Count(ops[0]) + Deposits(ops[1..])
  }

  /** The donations, and one unit for every mint. */
  function Gifts(ops: seq<Op>): nat {
    if ops == [] then 0 else Gift(ops[0]) + Gifts(ops[1..])
  }

  /** The shares `n` held before `k` deposits of others are worth no more than `p0` assets, up
      to one share for each deposit. */
  predicate WorthAtMost(n: int, k: int, p0: int, p: int, t: int) {
    && 0 < p0 <= p && k <= n <= t
    && p * (n - k) <= p0 * t
    && (k > 0 ==> p * (n - k) < p0 * t)
  }

  lemma DepositScaled(p0: int, p: int, t: int, v: int, q: int, x: int, y: int)
    requires 0 < p0 && v * t < (q + 1) * p && x == p0 * t && y == p0 * q
    ensures x * v < y * p + p0 * p
  {
    MulLess(v * t, (q + 1) * p, p0);
    assert (q + 1) * p * p0 == (p0 * q) * p + p0 * p;
    assert v * t * p0 == (p0 * t) * v;
  }

  lemma WorthScaled(m: int, p0: int, p: int, v: int, x: int, w: int)
    requires 0 < p0 <= p && 0 <= v && p * m <= x && w == (p + v) * (m - 1)
    ensures w * p + p0 * p <= x * p + x * v
  {
    MulMono(p * m, x, p + v);
    assert x * (p + v) == x * p + x * v;
    MulMono(p0, p + v, p);
    assert ((p + v) * (m - 1)) * p == (p * m) * (p + v) - (p + v) * p;
  }

  lemma Cancelled(w: int, x: int, y: int, z: int, xv: int, p: int)
    requires 0 < p && xv < y * p + z && w * p + z <= x * p + xv
    ensures w < x + y
  {
    assert (x + y) * p == x * p + y * p;
    CancelLess(w, x + y, p);
  }

  lemma WorthStep(m: int, p0: int, p: int, t: int, v: int, q: int)
    requires 0 < p0 <= p && 0 <= v && v * t < (q + 1) * p && p * m <= p0 * t
    ensures (p + v) * (m - 1) < p0 * t + p0 * q
  {
    DepositScaled(p0, p, t, v, q, p0 * t, p0 * q);
    WorthScaled(m, p0, p, v, p0 * t, (p + v) * (m - 1));
    Cancelled((p + v) * (m - 1), p0 * t, p0 * q, p0 * p, (p0 * t) * v, p);
  }

  lemma WorthAfterDeposit(n: int, k: nat, p0: int, p: int, t: int, v: nat, q: nat)
    requires WorthAtMost(n, k, p0, p, t) && k + 1 <= n && Rounded(v * t, p, Floor, q)
    ensures WorthAtMost(n, k + 1, p0, p + v, t + q)
  {
    WorthStep(n - k, p0, p, t, v, q);
    assert n - k - 1 == n - (k + 1);
    assert p0 * (t + q) == p0 * t + p0 * q;
  }

  lemma WorthAfterGift(n: int, k: nat, p0: int, p: int, t: int, d: nat)
    requires WorthAtMost(n, k, p0, p, t)
    ensures WorthAtMost(n, k, p0 + d, p + d, t)
  {
    MulMono(n - k, t, d);
    assert (p + d) * (n - k) == p * (n - k) + (n - k) * d;
    assert (p0 + d) * t == p0 * t + t * d;
  }

  lemma MintScaled(x: int, t: int, m: int, p: int, w: int, p0: int)
    requires 0 < t && 0 <= w && x * t < m * p + t && 0 <= m && p * w <= p0 * t
    ensures x * w <= m * p0 + w
  {
    MulMono(x * t, m * p + t, w);
    MulMono(p * w, p0 * t, m);
    assert (x * w) * t == x * t * w;
    assert (m * p + t) * w == (p * w) * m + w * t;
    assert (m * p0 + w) * t == (p0 * t) * m + w * t;
    CancelLeq(x * w, m * p0 + w, t);
  }

  lemma WorthAfterMint(n: int, k: nat, p0: int, p: int, t: int, m: nat, x: int)
    requires WorthAtMost(n, k, p0, p, t) && 0 < m && 0 < t && Rounded(m * p, t, Ceiling, x)
    ensures WorthAtMost(n, k, p0 + 1, p + x, t + m)
  {
    var w := n - k;
    assert (x - 1) * t == x * t - t;
    MulMono(1, m, p);
    CancelLess(0, x, t);
    MintScaled(x, t, m, p, w, p0);
    assert (p + x) * w == p * w + x * w;
    assert (p0 + 1) * (t + m) == p0 * t + m * p0 + t + m;
  }

  /** `WorthAtMost` for a holder whose stake, with every gift so far, is `stake` assets. */
  ghost predicate Contained(s: State, n: int, k: nat, stake: int) {
    && Valid(s)
    && WorthAtMost(n, k, stake + 1 - Surplus(s), Total(s) + 1, s.supply + VirtualOf(s))
  }

  lemma {:induction false} DepositContained(s: State, user: Pubkey, assets: u64, minShares: u64, n: int, k: nat, stake: int)
    requires Contained(s, n, k, stake) && Deposit(s, user, assets, minShares).Ok? && k + 1 <= n
    ensures Contained(Deposit(s, user, assets, minShares).value.state, n, k + 1, stake)
  {
    var c := Deposit(s, user, assets, minShares).value;
    EnterEffect(s, user, assets, c.shares);
    ToSharesRounded(assets, Total(s), s.supply, s.config.decimalsOffset, Floor);
    WorthAfterDeposit(n, k, stake + 1 - Surplus(s), Total(s) + 1, s.supply + VirtualOf(s), assets, c.shares);
  }

  lemma MintContained(s: State, user: Pubkey, shares: u64, maxAssets: u64, n: int, k: nat, stake: int)
    requires Contained(s, n, k, stake) && Mint(s, user, shares, maxAssets).Ok?
    ensures Contained(Mint(s, user, shares, maxAssets).value.state, n, k, stake + 1)
  {
    var c := Mint(s, user, shares, maxAssets).value;
    EnterEffect(s, user, c.assets, shares);
    ToAssetsRounded(shares, Total(s), s.supply, s.config.decimalsOffset, Ceiling);
    WorthAfterMint(n, k, stake + 1 - Surplus(s), Total(s) + 1, s.supply + VirtualOf(s), shares, c.assets);
  }

  lemma GiftContained(s: State, op: Op, n: int, k: nat, stake: int)
    requires Contained(s, n, k, stake) && (op.DonateOp? || op.SyncOp?) && Step(s, op).Ok?
    ensures Contained(Step(s, op).value.state, n, k, stake + Gift(op))
  {
    WorthAfterGift(n, k, stake + 1 - Surplus(s), Total(s) + 1, s.supply + VirtualOf(s), Total(Step(s, op).value.state) - Total(s));
  }

  lemma VictimStepContained(s: State, op: Op, u: Pubkey, n: int, k: nat, stake: int)
    requires Contained(s, n, k, stake) && VictimStep(op, u) && Step(s, op).Ok?
    requires k + Count(op) <= n
    ensures var t := Step(s, op).value.state;
            && t.config == s.config && Get(t.holdings, u) == Get(s.holdings, u)
            && Contained(t, n, k + Count(op), stake + Gift(op))
  {
    if op.DepositOp? {
      DepositContained(s, op.user, op.assets, op.minShares, n, k, stake);
    } else if op.MintOp? {
      MintContained(s, op.user, op.shares, op.maxAssets, n, k, stake);
    } else {
      GiftContained(s, op, n, k, stake);
    }
  }

  lemma {:induction false} VictimsInduction(s: State, ops: seq<Op>, u: Pubkey, n: int, k: nat, stake: int, inv: (State, int, int) -> bool)
    requires inv(s, k, stake) && Run(s, ops).Ok? && k + Deposits(ops) <= n
    requires forall op | op in ops :: VictimStep(op, u)
    requires forall a, op, j: nat, e | inv(a, j, e) && VictimStep(op, u) && Step(a, op).Ok? && j + Count(op) <= n ::
               inv(Step(a, op).value.state, j + Count(op), e + Gift(op))
    ensures inv(Run(s, ops).value, k + Deposits(ops), stake + Gifts(ops))
    decreases |ops|
  {
    if ops != [] {
      assert ops[0] in ops;
      VictimsInduction(Step(s, ops[0]).value.state, ops[1..], u, n, k + Count(ops[0]), stake + Gift(ops[0]), inv);
    }
  }

  ghost predicate Watched(s: State, u: Pubkey, config: Config, held: nat, n: int, k: int, stake: int) {
    0 <= k && Contained(s, n, k, stake) && s.config == config && Get(s.holdings, u) == held
  }

  lemma VictimStepWatched(s: State, op: Op, u: Pubkey, config: Config, held: nat, n: int, k: nat, stake: int)
    requires Watched(s, u, config, held, n, k, stake) && VictimStep(op, u) && Step(s, op).Ok? && k + Count(op) <= n
    ensures Watched(Step(s, op).value.state, u, config, held, n, k + Count(op), stake + Gift(op))
  {
    VictimStepContained(s, op, u, n, k, stake);
  }

  lemma {:induction false} VictimsContained(s: State, ops: seq<Op>, u: Pubkey, config: Config, held: nat, n: int, stake: int)
    requires Watched(s, u, config, held, n, 0, stake) && Run(s, ops).Ok? && Deposits(ops) <= n
    requires forall op | op in ops :: VictimStep(op, u)
    ensures Watched(Run(s, ops).value, u, config, held, n, Deposits(ops), stake + Gifts(ops))
  {
    forall a, op, j: nat, e | Watched(a, u, config, held, n, j, e) && VictimStep(op, u) && Step(a, op).Ok? && j + Count(op) <= n
      ensures Watched(Step(a, op).value.state, u, config, held, n, j + Count(op), e + Gift(op))
    {
      VictimStepWatched(a, op, u, config, held, n, j, e);
    }
    VictimsInduction(s, ops, u, n, 0, stake, (a: State, j: int, e: int) => Watched(a, u, config, held, n, j, e));
  }

  lemma PayoutBelow(n: int, k: nat, vs: nat, p0: int, p: int, t: int, b: int, r: int)
    requires WorthAtMost(n, k, p0, p, t) && k <= vs && 0 < vs && b == n - vs && Rounded(b * p, t, Floor, r)
    ensures r < p0
  {
    MulMono(b, n - k, p);
    assert (n - k) * p == p * (n - k);
    if k == 0 { MulLess(b, n, p); }
    CancelLess(r, p0, t);
  }

  lemma PayoutScaled(r: int, t: int, bp: int, m: int, b: int, pm: int, p0t: int)
    requires r * t <= bp && 0 <= m && 0 <= b && pm <= p0t && bp * m == pm * b
    ensures r * t * m <= p0t * b
  {
    MulMono(r * t, bp, m);
    MulMono(pm, p0t, b);
  }

  lemma CancelTotal(r: int, m: int, t: int, b: int, p0: int)
    requires 0 < t && r * t * m <= p0 * t * b
    ensures r * m <= b * p0
  {
    assert (r * m) * t == r * t * m;
    assert (b * p0) * t == p0 * t * b;
    CancelLeq(r * m, b * p0, t);
  }

  lemma Commute(b: int, p: int, m: int)
    ensures b * p * m == p * m * b
  {}

  lemma PayoutBounded(n: int, k: nat, b: int, p0: int, p: int, t: int, r: int, stake: int)
    requires WorthAtMost(n, k, p0, p, t) && 0 <= b && Rounded(b * p, t, Floor, r) && 0 < t && p0 <= stake
    ensures r * (n - k) <= b * stake
  {
    var m := n - k;
    Commute(b, p, m);
    PayoutScaled(r, t, b * p, m, b, p * m, p0 * t);
    CancelTotal(r, m, t, b, p0);
    MulMono(p0, stake, b);
    assert p0 * b == b * p0 && stake * b == b * stake;
  }

  /** After any number `k` of deposits of others, the holder of the whole supply `S` redeems for at
      most `S / (S + 10^offset - k)` of what the vault held and was given, and one unit. A mint of
      others counts as a gift of the unit it rounds up to, and their number is not limited. */
  lemma {:induction false} SoleHolderBound(s: State, ops: seq<Op>, u: Pubkey, minAssets: u64)
    requires Valid(s) && s.supply == Get(s.holdings, u)
    requires Run(s, ops).Ok? && Deposits(ops) <= s.supply + VirtualOf(s) && forall op | op in ops :: VictimStep(op, u)
    requires Redeem(Run(s, ops).value, u, s.supply, minAssets).Ok?
    ensures Redeem(Run(s, ops).value, u, s.supply, minAssets).value.assets * (s.supply + VirtualOf(s) - Deposits(ops))
            <= s.supply * (s.balance + Gifts(ops) + 1)
  {
    var t := Run(s, ops).value;
    var n, k, stake := s.supply + VirtualOf(s), Deposits(ops), s.balance + Gifts(ops);
    VictimsContained(s, ops, u, s.config, s.supply, n, s.balance);
    ToAssetsRounded(s.supply, Total(t), t.supply, t.config.decimalsOffset, Floor);
    PayoutBounded(n, k, s.supply, stake + 1 - Surplus(t), Total(t) + 1, t.supply + VirtualOf(s),
                  Redeem(t, u, s.supply, minAssets).value.assets, stake + 1);
  }

  /** Whoever holds the whole supply, and however much they or others then donate, gets back at
      most what the vault held plus the gifts, after any mints of others and as many deposits of
      others as there are virtual shares. */
  lemma {:induction false} SoleHolderGainsNothing(s: State, ops: seq<Op>, u: Pubkey, minAssets: u64)
    requires Valid(s) && s.supply == Get(s.holdings, u)
    requires Run(s, ops).Ok? && Deposits(ops) <= VirtualOf(s) && forall op | op in ops :: VictimStep(op, u)
    requires Redeem(Run(s, ops).value, u, s.supply, minAssets).Ok?
    ensures Redeem(Run(s, ops).value, u, s.supply, minAssets).value.assets <= s.balance + Gifts(ops)
  {
    var t := Run(s, ops).value;
    var n, k, stake := s.supply + VirtualOf(s), Deposits(ops), s.balance + Gifts(ops);
    VictimsContained(s, ops, u, s.config, s.supply, n, s.balance);
    ToAssetsRounded(s.supply, Total(t), t.supply, t.config.decimalsOffset, Floor);
    PayoutBelow(n, k, VirtualOf(s), stake + 1 - Surplus(t), Total(t) + 1, t.supply + VirtualOf(s), s.supply,
                Redeem(t, u, s.supply, minAssets).value.assets);
  }

  /** Inflating the price does not pay: a user who is first into a new vault and prepares it in any
      way, lets others deposit and mint, and redeems everything receives in all at most what they
      paid in and what was given. `PublicTightness` shows that the bound on the deposits is exact. */
  lemma InflationUnprofitable(model: Model, authority: Pubkey, offset: u8, before: seq<Op>, victims: seq<Op>, u: Pubkey, minAssets: u64)
    requires var s0 := Initial(model, authority, offset);
             && Run(s0, before).Ok? && (forall op | op in before :: PublicRuns.OnlyActor(op, u))
             && var s := Run(s0, before).value;
                && Run(s, victims).Ok? && Deposits(victims) <= Pow10(offset) && (forall op | op in victims :: VictimStep(op, u))
                && Redeem(Run(s, victims).value, u, s.supply, minAssets).Ok?
    ensures var s0 := Initial(model, authority, offset);
            var s := Run(s0, before).value;
            var f := RunFlow(s0, before);
            f.paidOut + Redeem(Run(s, victims).value, u, s.supply, minAssets).value.assets
            <= f.paidIn + f.donated + Gifts(victims)
  {
    var s0 := Initial(model, authority, offset);
    InitialValid(model, authority, offset);
    PublicRuns.OthersHold(s0, before, u);
    RunKeeps(s0, before);
    SoleHolderGainsNothing(Run(s0, before).value, victims, u, minAssets);
  }

  // ---------------------------------------------------------------- exactness

  /** Every `10^offset` shares are backed by exactly one asset. */
  predicate Exact(s: State) {
    s.supply == Total(s) * VirtualOf(s)
  }

  /** A step in whole assets that leaves the price to the program. */
  predicate WholeStep(op: Op, vs: nat)
    requires vs > 0
  {
    match op
    case DepositOp(_, _, _) => true
    case WithdrawOp(_, _, _) => true
    case MintOp(_, shares, _) => shares % vs == 0
    case RedeemOp(_, shares, _) => shares % vs == 0
    case TransferOp(_, _, _) => true
    case SetPausedOp(_, _) => true
    case _ => false
  }

  /** In an exact vault every exchange is at `10^offset` shares per asset, with no rounding. */
  lemma ExactExchange(s: State, op: Op)
    requires Exact(s) && Exchange(op) && WholeStep(op, VirtualOf(s)) && Step(s, op).Ok?
    ensures Step(s, op).value.shares == Step(s, op).value.assets * VirtualOf(s)
  {
    match op
    case DepositOp(_, assets, _) => ExactToShares(assets, Total(s), s.supply, s.config.decimalsOffset, Floor);
    case WithdrawOp(_, assets, _) => ExactToShares(assets, Total(s), s.supply, s.config.decimalsOffset, Ceiling);
    case MintOp(_, shares, _) => ExactToAssets(shares, Total(s), s.supply, s.config.decimalsOffset, Ceiling);
    case RedeemOp(_, shares, _) => ExactToAssets(shares, Total(s), s.supply, s.config.decimalsOffset, Floor);
  }

  lemma RateKept(a: int, n: int, da: int, dn: int, c: int)
    requires n == a * c && dn == da * c
    ensures n + dn == (a + da) * c && n - dn == (a - da) * c
  {}

  lemma ExactEnter(s: State, user: Pubkey, assets: u64, shares: u64)
    requires Valid(s) && Exact(s) && shares == assets * VirtualOf(s) && Enter(s, user, assets, shares).Ok?
    ensures var t := Enter(s, user, assets, shares).value.state; Valid(t) && Exact(t) && VirtualOf(t) == VirtualOf(s)
  {
    RateKept(Total(s), s.supply, assets, shares, VirtualOf(s));
    EnterEffect(s, user, assets, shares);
  }

  lemma ExactLeave(s: State, user: Pubkey, assets: u64, shares: u64)
    requires Valid(s) && Exact(s) && shares == assets * VirtualOf(s) && Leave(s, user, assets, shares).Ok?
    ensures var t := Leave(s, user, assets, shares).value.state; Valid(t) && Exact(t) && VirtualOf(t) == VirtualOf(s)
  {
    RateKept(Total(s), s.supply, assets, shares, VirtualOf(s));
    LeaveEffect(s, user, assets, shares);
  }

  lemma ExactExchangeKept(s: State, op: Op)
    requires Valid(s) && Exact(s) && Exchange(op) && WholeStep(op, VirtualOf(s)) && Step(s, op).Ok?
    ensures var t := Step(s, op).value.state; Valid(t) && Exact(t) && VirtualOf(t) == VirtualOf(s)
  {
    var c := Step(s, op).value;
    ExactExchange(s, op);
    if op.DepositOp? || op.MintOp? {
      ExactEnter(s, op.user, c.assets, c.shares);
    } else {
      ExactLeave(s, op.user, c.assets, c.shares);
    }
  }

  lemma ExactStep(s: State, op: Op)
    requires Valid(s) && Exact(s) && WholeStep(op, VirtualOf(s)) && Step(s, op).Ok?
    ensures var t := Step(s, op).value.state; Valid(t) && Exact(t) && VirtualOf(t) == VirtualOf(s)
  {
    if Exchange(op) {
      ExactExchangeKept(s, op);
    } else {
      OutsideEffect(s, op);
    }
  }

  /** With no yield and whole amounts the rate never changes, over any run of any users; so when
      the last share has been redeemed no asset is left. */
  lemma {:induction false} ExactRun(s: State, ops: seq<Op>)
    requires Valid(s) && Exact(s) && Run(s, ops).Ok?
    requires forall op | op in ops :: WholeStep(op, VirtualOf(s))
    ensures Exact(Run(s, ops).value) && VirtualOf(Run(s, ops).value) == VirtualOf(s)
    ensures Run(s, ops).value.supply == 0 ==> Total(Run(s, ops).value) == 0
    decreases |ops|
  {
    if ops != [] {
      assert ops[0] in ops;
      ExactStep(s, ops[0]);
      ExactRun(Step(s, ops[0]).value.state, ops[1..]);
    } else {
      assert s.supply == 0 ==> Total(s) == 0 by {
        if Total(s) > 0 { MulMono(1, Total(s), VirtualOf(s)); }
      }
    }
  }
}
