/** The bound of `InflationUnprofitable` on the deposits of others is exact: with one deposit more
    than there are virtual shares there is a run in which the first holder gains. */
module PublicTightness {
  import opened Common
  import opened Conversion
  import opened PublicLedger
  import opened PublicInflation
  import PublicRuns

  /** The most deposits of others in any of these runs, 1000 each, and the room for them. */
  const FOLLOWERS := 1_000_000_055
  const ROOM := 1000 * FOLLOWERS

  // ---------------------------------------------------------------- the amounts

  lemma {:induction false} Pow10Monotone(e: nat, f: nat)
    requires e <= f
    ensures Pow10(e) <= Pow10(f)
    decreases f
  {
    if e < f { Pow10Monotone(e, f - 1); }
  }

  lemma VirtualBounded(offset: u8)
    requires offset <= 8
    ensures 1 <= Pow10(offset) <= 100_000_000
  {
    Pow10Monotone(offset, 8);
    assert Pow10(4) == 10_000 && Pow10(8) == 10_000 * Pow10(4);
  }

  lemma SquareBounded(v: nat)
    requires v <= 100_000_000
    ensures 0 <= v * v <= 10_000_000_000_000_000
  {
    MulMono(v, 100_000_000, v);
    MulMono(0, v, v);
  }

  /** What the first holder's shares are worth against `1000 * t`, all that was ever put in. */
  lemma WorthMore(v: int, t: int, p: int)
    requires t == v * v + 1000 * v && p == 1000 * t + 1000 * v + 1001 && 0 <= v
    ensures (1000 * t + 1) * t <= (t - v) * p
  {
    assert (t - v) * p == t * p - v * p;
    assert t * p == t * (1000 * t + 1) + 1000 * (v * t) + 1000 * t;
    assert v * p == 1000 * (v * t) + 1000 * (v * v) + 1001 * v;
  }

  lemma FirstShares(deposit: u64, held: u64, offset: u8)
    requires Pow10(offset) <= 1_000_000_000 && deposit * Pow10(offset) == held
    ensures ConvertToShares(deposit, 0, 0, offset, Floor) == Ok(held)
  {
    RoundedUnique(held, 1, Floor, Quotient(held, 1, Floor), held);
  }

  lemma QuoteAtLeast(held: u64, assets: u64, offset: u8, m: nat)
    requires assets < U64_MAX && held + Pow10(offset) <= U64_MAX
    requires m * (held + Pow10(offset)) <= held * (assets + 1)
    ensures ConvertToAssets(held, assets, held, offset, Floor).Ok?
    ensures m <= ConvertToAssets(held, assets, held, offset, Floor).value <= assets
  {
    RedeemSucceeds(held, assets, held, offset);
    RedeemSolvent(held, assets, held, offset);
    ToAssetsRounded(held, assets, held, offset, Floor);
    FloorAtLeast(held * (assets + 1), held + Pow10(offset), ConvertToAssets(held, assets, held, offset, Floor).value, m);
  }

  lemma Sizes(v: nat) returns (deposit: u64, held: u64, stake: u64)
    requires 1 <= v <= 100_000_000
    ensures 1000 <= deposit <= stake <= U64_MAX - ROOM && 0 < held
    ensures deposit * v == held && stake == 1000 * (held + v)
    ensures (stake + 1) * (held + v) <= held * (stake + 1000 * (v + 1) + 1)
  {
    SquareBounded(v);
    var square := v * v;
    deposit, held, stake := v + 999, square + 999 * v, 1000 * (square + 1000 * v);
    assert deposit * v == held;
    WorthMore(v, held + v, stake + 1000 * (v + 1) + 1);
  }

  /** For the virtual shares of an offset: the first deposit, the shares it buys, and the assets to
      which a donation brings them, 1000 a virtual total share. */
  lemma Amounts(offset: u8) returns (deposit: u64, held: u64, stake: u64)
    requires offset <= 8
    ensures 1000 <= deposit <= stake <= U64_MAX - ROOM && 0 < held && 1 <= Pow10(offset) <= 100_000_000
    ensures stake == 1000 * (held + Pow10(offset))
    ensures ConvertToShares(deposit, 0, 0, offset, Floor) == Ok(held)
    ensures var assets := stake + 1000 * (Pow10(offset) + 1);
            && ConvertToAssets(held, assets, held, offset, Floor).Ok?
            && stake < ConvertToAssets(held, assets, held, offset, Floor).value <= assets
  {
    VirtualBounded(offset);
    deposit, held, stake := Sizes(Pow10(offset));
    FirstShares(deposit, held, offset);
    QuoteAtLeast(held, stake + 1000 * (Pow10(offset) + 1), offset, stake + 1);
  }

  // ---------------------------------------------------------------- the run

  /** The first holder's vault after `k` deposits of 1000 by `w` that earned no share. */
  function Inflated(authority: Pubkey, offset: u8, u: Pubkey, w: Pubkey, held: u64, stake: u64, k: nat): State
    requires k <= FOLLOWERS && stake <= U64_MAX - ROOM
  {
    State(Config(Live, authority, offset, false), 0, stake + 1000 * k, held,
          if k == 0 then map[u := held] else map[u := held, w := 0])
  }

  function Preparation(u: Pubkey, deposit: u64, stake: u64): seq<Op>
    requires deposit <= stake
  {
    [DepositOp(u, deposit, 0), DonateOp(stake - deposit)]
  }

  function Followers(w: Pubkey, k: nat): seq<Op> {
    if k == 0 then [] else [DepositOp(w, 1000, 0)] + Followers(w, k - 1)
  }

  lemma {:induction false} FollowersAre(w: Pubkey, k: nat, u: Pubkey)
    requires u != w
    ensures Deposits(Followers(w, k)) == k && Gifts(Followers(w, k)) == 0
    ensures forall op | op in Followers(w, k) :: VictimStep(op, u)
  {
    if k > 0 {
      FollowersAre(w, k - 1, u);
      assert Followers(w, k)[1..] == Followers(w, k - 1);
    }
  }

  lemma {:induction false} RunOne(s: State, op: Op, ops: seq<Op>)
    requires Step(s, op).Ok?
    ensures Run(s, [op] + ops) == Run(Step(s, op).value.state, ops)
    ensures Run(s, [op] + ops).Ok? ==> RunFlow(s, [op] + ops) == Add(StepFlow(s, op), RunFlow(Step(s, op).value.state, ops))
  {
    assert ([op] + ops)[1..] == ops;
  }

  lemma {:induction false} PreparationRun(authority: Pubkey, offset: u8, u: Pubkey, w: Pubkey, deposit: u64, held: u64, stake: u64)
    requires 1000 <= deposit <= stake <= U64_MAX - ROOM && ConvertToShares(deposit, 0, 0, offset, Floor) == Ok(held)
    ensures var s0, before := Initial(Live, authority, offset), Preparation(u, deposit, stake);
            && Run(s0, before) == Ok(Inflated(authority, offset, u, w, held, stake, 0))
            && RunFlow(s0, before).paidOut == 0
            && RunFlow(s0, before).paidIn + RunFlow(s0, before).donated == stake
  {
    var s0 := Initial(Live, authority, offset);
    var s1 := s0.(balance := deposit, supply := held, holdings := map[u := held]);
    var op0, op1 := DepositOp(u, deposit, 0), DonateOp(stake - deposit);
    assert s0.holdings[u := held] == s1.holdings;
    assert Step(s0, op0) == Ok(Commit(s1, deposit, held));
    assert Step(s1, op1) == Ok(Commit(Inflated(authority, offset, u, w, held, stake, 0), 0, 0));
    RunOne(s1, op1, []);
    RunOne(s0, op0, [op1]);
    assert [op1] + [] == [op1] && [op0] + [op1] == Preparation(u, deposit, stake);
  }

  lemma NoShare(assets: u64, supply: u64, offset: u8, base: nat)
    requires supply + Pow10(offset) <= U64_MAX && 1000 * (supply + Pow10(offset)) == base <= assets < U64_MAX
    ensures ConvertToShares(1000, assets, supply, offset, Floor) == Ok(0)
  {
    RoundedUnique(base, assets + 1, Floor, Quotient(base, assets + 1, Floor), 0);
  }

  lemma DepositNoShare(s: State, w: Pubkey)
    requires !s.config.paused && s.config.model.Live? && s.balance + 1000 <= U64_MAX && ToShares(s, 1000, Floor) == Ok(0)
    ensures Deposit(s, w, 1000, 0) == Ok(Commit(s.(balance := s.balance + 1000, holdings := s.holdings[w := Get(s.holdings, w)]), 1000, 0))
  {}

  /** At the inflated price a deposit of 1000 earns no share. */
  lemma FollowerStep(authority: Pubkey, offset: u8, u: Pubkey, w: Pubkey, held: u64, stake: u64, k: nat)
    requires k < FOLLOWERS && u != w
    requires held + Pow10(offset) <= U64_MAX && 1000 * (held + Pow10(offset)) == stake <= U64_MAX - ROOM
    ensures Step(Inflated(authority, offset, u, w, held, stake, k), DepositOp(w, 1000, 0))
            == Ok(Commit(Inflated(authority, offset, u, w, held, stake, k + 1), 1000, 0))
  {
    var s, t := Inflated(authority, offset, u, w, held, stake, k), Inflated(authority, offset, u, w, held, stake, k + 1);
    NoShare(s.balance, held, offset, stake);
    DepositNoShare(s, w);
    assert s.holdings[w := Get(s.holdings, w)] == t.holdings;
  }

  lemma {:induction false} FollowersInduction(w: Pubkey, state: nat -> State, k: nat, more: nat)
    requires forall j: nat | k <= j < k + more :: Step(state(j), DepositOp(w, 1000, 0)) == Ok(Commit(state(j + 1), 1000, 0))
    ensures Run(state(k), Followers(w, more)) == Ok(state(k + more))
    decreases more
  {
    if more > 0 {
      assert Step(state(k), DepositOp(w, 1000, 0)) == Ok(Commit(state(k + 1), 1000, 0));
      RunOne(state(k), DepositOp(w, 1000, 0), Followers(w, more - 1));
      FollowersInduction(w, state, k + 1, more - 1);
      assert k + 1 + (more - 1) == k + more;
    }
  }

  lemma FollowersRun(authority: Pubkey, offset: u8, u: Pubkey, w: Pubkey, held: u64, stake: u64, k: nat)
    requires k <= FOLLOWERS && u != w
    requires held + Pow10(offset) <= U64_MAX && 1000 * (held + Pow10(offset)) == stake <= U64_MAX - ROOM
    ensures Run(Inflated(authority, offset, u, w, held, stake, 0), Followers(w, k))
            == Ok(Inflated(authority, offset, u, w, held, stake, k))
  {
    var state := (j: nat) => if j <= FOLLOWERS then Inflated(authority, offset, u, w, held, stake, j) else Initial(Live, authority, offset);
    forall j: nat | 0 <= j < 0 + k ensures Step(state(j), DepositOp(w, 1000, 0)) == Ok(Commit(state(j + 1), 1000, 0)) {
      FollowerStep(authority, offset, u, w, held, stake, j);
      assert state(j) == Inflated(authority, offset, u, w, held, stake, j);
      assert state(j + 1) == Inflated(authority, offset, u, w, held, stake, j + 1);
    }
    FollowersInduction(w, state, 0, k);
    assert state(0) == Inflated(authority, offset, u, w, held, stake, 0);
    assert state(0 + k) == Inflated(authority, offset, u, w, held, stake, k);
  }

  lemma RedeemAll(s: State, u: Pubkey, m: nat)
    requires !s.config.paused && s.config.model.Live? && 0 < s.supply == Get(s.holdings, u)
    requires ToAssets(s, s.supply, Floor).Ok? && m <= ToAssets(s, s.supply, Floor).value <= s.balance
    ensures Redeem(s, u, s.supply, 0).Ok? && m <= Redeem(s, u, s.supply, 0).value.assets
  {}

  /** The premises of `InflationUnprofitable` but for the number of deposits, and not its conclusion. */
  predicate Profitable(authority: Pubkey, offset: u8, before: seq<Op>, others: seq<Op>, u: Pubkey) {
    var s0 := Initial(Live, authority, offset);
    && Run(s0, before).Ok? && (forall op | op in before :: PublicRuns.OnlyActor(op, u))
    && var s := Run(s0, before).value;
    && Run(s, others).Ok? && (forall op | op in others :: VictimStep(op, u))
    && Redeem(Run(s, others).value, u, s.supply, 0).Ok?
    && var f := RunFlow(s0, before);
    f.paidIn + f.donated + Gifts(others) < f.paidOut + Redeem(Run(s, others).value, u, s.supply, 0).value.assets
  }

  lemma FirstHolderGains(authority: Pubkey, offset: u8, u: Pubkey, w: Pubkey, deposit: u64, held: u64, stake: u64, k: nat)
    requires u != w && 1000 <= deposit <= stake <= U64_MAX - ROOM && 0 < held && k <= FOLLOWERS
    requires held + Pow10(offset) <= U64_MAX && stake == 1000 * (held + Pow10(offset))
    requires ConvertToShares(deposit, 0, 0, offset, Floor) == Ok(held)
    requires ConvertToAssets(held, stake + 1000 * k, held, offset, Floor).Ok?
    requires stake < ConvertToAssets(held, stake + 1000 * k, held, offset, Floor).value <= stake + 1000 * k
    ensures Profitable(authority, offset, Preparation(u, deposit, stake), Followers(w, k), u)
  {
    PreparationRun(authority, offset, u, w, deposit, held, stake);
    FollowersAre(w, k, u);
    FollowersRun(authority, offset, u, w, held, stake, k);
    HolderRedeems(authority, offset, u, w, held, stake, k);
  }

  lemma HolderRedeems(authority: Pubkey, offset: u8, u: Pubkey, w: Pubkey, held: u64, stake: u64, k: nat)
    requires u != w && 0 < held && k <= FOLLOWERS && stake <= U64_MAX - ROOM
    requires ConvertToAssets(held, stake + 1000 * k, held, offset, Floor).Ok?
    requires stake < ConvertToAssets(held, stake + 1000 * k, held, offset, Floor).value <= stake + 1000 * k
    ensures var r := Redeem(Inflated(authority, offset, u, w, held, stake, k), u, held, 0);
            r.Ok? && stake < r.value.assets
  {
    RedeemAll(Inflated(authority, offset, u, w, held, stake, k), u, stake + 1);
  }

  /** For every offset up to 8 there is a run with one deposit of others more than there are virtual
      shares in which the first holder gains. */
  lemma InflationBoundTight(authority: Pubkey, offset: u8, u: Pubkey, w: Pubkey) returns (before: seq<Op>, others: seq<Op>)
    requires offset <= 8 && u != w
    ensures Deposits(others) == Pow10(offset) + 1 && Profitable(authority, offset, before, others, u)
  {
    var k := Pow10(offset) + 1;
    var deposit, held, stake := Amounts(offset);
    before, others := Preparation(u, deposit, stake), Followers(w, k);
    FollowersAre(w, k, u);
    FirstHolderGains(authority, offset, u, w, deposit, held, stake, k);
  }

  lemma AmountsWithoutDecimals() returns (deposit: u64, held: u64, stake: u64)
    ensures 1000 <= deposit <= stake <= U64_MAX - ROOM && 0 < held && Pow10(9) == 1_000_000_000
    ensures stake == 1000 * (held + Pow10(9))
    ensures ConvertToShares(deposit, 0, 0, 9, Floor) == Ok(held)
    ensures var assets := stake + 1000 * FOLLOWERS;
            && ConvertToAssets(held, assets, held, 9, Floor).Ok?
            && stake < ConvertToAssets(held, assets, held, 9, Floor).value <= assets
  {
    assert Pow10(4) == 10_000 && Pow10(8) == 10_000 * Pow10(4) && Pow10(9) == 10 * Pow10(8);
    deposit, held := 18_446_742, 18_446_742_000_000_000;
    stake := 1000 * (held + 1_000_000_000);
    FirstShares(deposit, held, 9);
    QuoteAtLeast(held, stake + 1000 * FOLLOWERS, 9, stake + 1);
  }

  /** For an asset without decimals, offset 9, the amounts of that run leave 64 bits. There 55 deposits
      more than virtual shares are enough. */
  lemma InflationBoundWithoutDecimals(authority: Pubkey, u: Pubkey, w: Pubkey) returns (before: seq<Op>, others: seq<Op>)
    requires u != w
    ensures Deposits(others) == Pow10(9) + 55 && Profitable(authority, 9, before, others, u)
  {
    var deposit, held, stake := AmountsWithoutDecimals();
    before, others := Preparation(u, deposit, stake), Followers(w, FOLLOWERS);
    FollowersAre(w, FOLLOWERS, u);
    FirstHolderGains(authority, 9, u, w, deposit, held, stake, FOLLOWERS);
  }
}
