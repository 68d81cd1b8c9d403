/** Runs of new tranched vaults that reach the states in which their description fails. */
module TrancheWitnesses {
  import opened Common
  import opened Conversion
  import opened Waterfall
  import opened TrancheLedger
  import TrancheRuns
  import opened TrancheGuarantees
  import opened TrancheExits

  // ---------------------------------------------------------------- a senior and a junior tranche

  /** A senior tranche that wants `bps` of the total below it, and is entitled to 5%. */
  function Senior(bps: u16, assets: u64, shares: u64, holdings: map<Pubkey, u64>): Tranche {
    Tranche(0, bps, 500, 10_000, assets, shares, shares, holdings)
  }

  function Junior(assets: u64, shares: u64, holdings: map<Pubkey, u64>): Tranche {
    Tranche(1, 0, 0, 10_000, assets, shares, shares, holdings)
  }

  /** A vault of two tranches that holds what its tranches do. */
  function Vault(authority: Pubkey, total: u64, senior: Tranche, junior: Tranche): State {
    State(Config(authority, authority, 3, Sequential, false), false, total, 0, total, [senior, junior])
  }

  function SetUp(authority: Pubkey, bps: u16): seq<Op> {
    [AddTrancheOp(authority, 0, bps, 500, 10_000), AddTrancheOp(authority, 1, 0, 0, 10_000)]
  }

  lemma TwoTotal(x: int, y: int)
    ensures Total([x, y]) == x + y
  {
    assert [y][1..] == [] && Total([y]) == y;
    assert [x, y][1..] == [y];
  }

  lemma RunCons(s: State, op: Op, t: State, ops: seq<Op>)
    requires Step(s, op).Ok? && Step(s, op).value.state == t
    ensures Run(s, [op] + ops) == Run(t, ops)
  {
    assert ([op] + ops)[1..] == ops;
  }

  lemma RunTwo(s: State, a: Op, t: State, b: Op, u: State)
    requires Step(s, a).Ok? && Step(s, a).value.state == t && Step(t, b).Ok? && Step(t, b).value.state == u
    ensures Run(s, [a, b]) == Ok(u)
  {
    RunCons(t, b, u, []);
    RunCons(s, a, t, [b]);
    assert [b] + [] == [b] && [a] + [b] == [a, b];
  }

  lemma {:induction false} RunConcat(s: State, a: seq<Op>, b: seq<Op>)
    requires Run(s, a).Ok?
    ensures Run(s, a + b) == Run(Run(s, a).value, b)
    decreases |a|
  {
    if a == [] {
      assert a + b == b;
    } else {
      assert a + b == [a[0]] + (a[1..] + b);
      var t := Step(s, a[0]).value.state;
      RunCons(s, a[0], t, a[1..] + b);
      RunConcat(t, a[1..], b);
    }
  }

  lemma ThenStep(s0: State, ops: seq<Op>, s: State, op: Op, t: State)
    requires Run(s0, ops) == Ok(s) && Step(s, op).Ok? && Step(s, op).value.state == t
    ensures Run(s0, ops + [op]) == Ok(t)
  {
    RunCons(s, op, t, []);
    assert [op] + [] == [op];
    RunConcat(s0, ops, [op]);
  }

  lemma SetUpRun(authority: Pubkey, bps: u16)
    requires bps <= 10_000
    ensures Run(Initial(authority, 3, Sequential), SetUp(authority, bps))
            == Ok(Vault(authority, 0, Senior(bps, 0, 0, map[]), Junior(0, 0, map[])))
  {
    var s0, x, y := Initial(authority, 3, Sequential), Senior(bps, 0, 0, map[]), Junior(0, 0, map[]);
    assert Insert([], x) == [x];
    assert Insert([x], y) == [x, y] by { assert [x][1..] == [] && Insert([], y) == [y]; }
    RunTwo(s0, SetUp(authority, bps)[0], s0.(tranches := [x]), SetUp(authority, bps)[1], Vault(authority, 0, x, y));
  }

  /** Only the senior tranche asks for anything, and only of the junior one. */
  lemma CheckTwo(x: Tranche, y: Tranche, total: u64)
    requires y.subordinationBps == 0 && x.subordinationBps <= 10_000
    ensures CheckTranches([x, y], total)
            == if total * x.subordinationBps <= 10_000 * y.allocation then Ok(()) else Err(SubordinationBreach)
  {
    var a, b := Allocations([x, y]), Subordinations([x, y]);
    assert a[1..] == [y.allocation] && Total(a[1..]) == y.allocation by { assert [y.allocation][1..] == []; }
    MulMono(x.subordinationBps, 10_000, total);
    assert CheckSubordinationFrom(a, b, total, 2) == Ok(());
    assert CheckSubordinationFrom(a, b, total, 1) == Ok(());
    assert CheckSubordinationFrom(a, b, total, 0) == CheckOne(a, b, total, 0);
    OneIff(a, b, total, y.allocation);
  }

  lemma OneIff(a: seq<u64>, b: seq<u16>, total: u64, junior: u64)
    requires |a| == |b| == 2 && Total(a[1..]) == junior && b[0] <= 10_000
    ensures CheckOne(a, b, total, 0) == if total * b[0] <= 10_000 * junior then Ok(()) else Err(SubordinationBreach)
  {
    ProductNonNegative(total, b[0]);
    FractionAbove(total, b[0]);
  }

  lemma FractionAbove(total: u64, bps: u16)
    requires bps <= 10_000
    ensures Required(total, bps) <= total
  {
    MulMono(bps, 10_000, total);
    ProductNonNegative(total, bps);
    CancelLess(Required(total, bps) - 1, total, 10_000);
  }

  /** A deposit into a tranche that is still at the initial rate. */
  lemma DepositAt(s: State, at: nat, user: Pubkey, assets: u64)
    requires s.config.decimalsOffset == 3 && !s.config.paused && !s.wiped && s.balance == s.totalAssets <= 100_000
    requires |s.tranches| == 2 && s.tranches[1].subordinationBps == 0 && s.tranches[0].subordinationBps <= 10_000
    requires at < 2 && 0 < assets <= 100_000
    requires var t := s.tranches[at];
             && t.capBps == 10_000 && t.supply == t.totalShares == t.allocation * 1000
             && t.allocation <= s.totalAssets && Get(t.holdings, user) <= t.supply
    requires (s.totalAssets + assets) * s.tranches[0].subordinationBps
             <= 10_000 * (s.tranches[1].allocation + if at == 1 then assets else 0)
    ensures var t := s.tranches[at];
            var u := t.(allocation := t.allocation + assets, totalShares := t.totalShares + assets * 1000,
                        supply := t.supply + assets * 1000, holdings := t.holdings[user := Get(t.holdings, user) + assets * 1000]);
            Deposit(s, at, user, assets, 0)
            == Ok(Commit(s.(totalAssets := s.totalAssets + assets, balance := s.balance + assets,
                            tranches := s.tranches[at := u]), assets, assets * 1000))
  {
    var t := s.tranches[at];
    assert Pow10(3) == 1000 by { assert Pow10(1) == 10; }
    InitialRate(assets, t.allocation);
    var checked := s.tranches[at := t.(allocation := t.allocation + assets)];
    assert checked == [checked[0], checked[1]];
    CheckTwo(checked[0], checked[1], s.totalAssets + assets);
    assert CapLimit(s.totalAssets + assets, 10_000) == Ok(s.totalAssets + assets);
    assert Admit(s, at, user, assets, assets * 1000).Ok?;
  }

  lemma InitialRate(assets: u64, allocation: u64)
    requires assets <= 100_000 && allocation <= 100_000
    ensures ConvertToShares(assets, allocation, allocation * 1000, 3, Floor) == Ok(assets * 1000)
  {
    assert Pow10(3) == 1000 by { assert Pow10(1) == 10; }
    var n, d: int := assets * (allocation * 1000 + 1000), allocation + 1;
    assert n == assets * 1000 * d;
    ProductNonNegative(assets, allocation * 1000 + 1000);
    RoundedUnique(n, d, Floor, Quotient(n, d, Floor), assets * 1000);
  }

  // ---------------------------------------------------------------- after a loss

  function Lost(authority: Pubkey, u: Pubkey, w: Pubkey): State
    requires u != w
  {
    Vault(authority, 8000, Senior(2000, 8000, 8_000_000, map[u := 4_000_000, w := 4_000_000]), Junior(0, 2_000_000, map[u := 2_000_000])).(
      balance := 10_000)
  }

  /** Two seniors of 4000 each over a junior of 2000, which a loss then takes. */
  function LossRun(authority: Pubkey, u: Pubkey, w: Pubkey): seq<Op> {
    SetUp(authority, 2000) + FirstTwo(u, 2000, 4000) + [DepositOp(0, w, 4000, 0), RecordLossOp(authority, 2000)]
  }

  /** The first two deposits into a new vault, the junior's first. */
  function FirstTwo(u: Pubkey, junior: u64, senior: u64): seq<Op> {
    [DepositOp(1, u, junior, 0), DepositOp(0, u, senior, 0)]
  }

  function Funded(authority: Pubkey, u: Pubkey, junior: u64, senior: u64): State
    requires junior <= 10_000 && senior <= 10_000
  {
    Vault(authority, junior + senior, Senior(2000, senior, senior * 1000, map[u := senior * 1000]),
          Junior(junior, junior * 1000, map[u := junior * 1000]))
  }

  lemma FundedRun(authority: Pubkey, u: Pubkey, junior: u64, senior: u64)
    requires 0 < junior <= 10_000 && 0 < senior <= 10_000 && (junior + senior) * 2000 <= 10_000 * junior
    ensures Run(Initial(authority, 3, Sequential), SetUp(authority, 2000) + FirstTwo(u, junior, senior))
            == Ok(Funded(authority, u, junior, senior))
  {
    var s2, s4 := Vault(authority, 0, Senior(2000, 0, 0, map[]), Junior(0, 0, map[])), Funded(authority, u, junior, senior);
    var s3 := Vault(authority, junior, Senior(2000, 0, 0, map[]), s4.tranches[1]);
    SetUpRun(authority, 2000);
    DepositAt(s2, 1, u, junior);
    assert s2.tranches[1 := s3.tranches[1]] == s3.tranches && map[][u := junior * 1000] == s3.tranches[1].holdings;
    DepositAt(s3, 0, u, senior);
    assert s3.tranches[0 := s4.tranches[0]] == s4.tranches && map[][u := senior * 1000] == s4.tranches[0].holdings;
    RunTwo(s2, DepositOp(1, u, junior, 0), s3, DepositOp(0, u, senior, 0), s4);
    RunConcat(Initial(authority, 3, Sequential), SetUp(authority, 2000), FirstTwo(u, junior, senior));
  }

  lemma LossRunReaches(authority: Pubkey, u: Pubkey, w: Pubkey)
    requires u != w
    ensures Run(Initial(authority, 3, Sequential), LossRun(authority, u, w)) == Ok(Lost(authority, u, w))
  {
    var s4, deposit, loss := Funded(authority, u, 2000, 4000), DepositOp(0, w, 4000, 0), RecordLossOp(authority, 2000);
    var s5 := Vault(authority, 10_000, Senior(2000, 8000, 8_000_000, map[u := 4_000_000, w := 4_000_000]), s4.tranches[1]);
    FundedRun(authority, u, 2000, 4000);
    DepositAt(s4, 0, w, 4000);
    assert s4.tranches[0 := s5.tranches[0]] == s5.tranches && s4.tranches[0].holdings[w := 4_000_000] == s5.tranches[0].holdings;
    LossStep(authority, u, w, s5);
    RunTwo(s4, deposit, s5, loss, Lost(authority, u, w));
    RunConcat(Initial(authority, 3, Sequential), SetUp(authority, 2000) + FirstTwo(u, 2000, 4000), [deposit, loss]);
  }

  lemma LossStep(authority: Pubkey, u: Pubkey, w: Pubkey, s: State)
    requires u != w
    requires s == Vault(authority, 10_000, Senior(2000, 8000, 8_000_000, map[u := 4_000_000, w := 4_000_000]), Junior(2000, 2_000_000, map[u := 2_000_000]))
    ensures RecordLoss(s, authority, 2000) == Ok(Lost(authority, u, w))
  {
    var a := Allocations(s.tranches);
    assert a == [8000, 2000] && a[1..] == [2000] && a[2..] == [] && [2000][1..] == [];
    assert LossAt(a, 2000, 0) == 0 && LossAt(a, 2000, 1) == 2000;
    assert WithAllocations(s.tranches, AfterLosses(a, 2000)) == Lost(authority, u, w).tranches;
  }

  /** After a recorded loss the holders cannot redeem one after another in any order: with half of the
      senior shares left behind, the other half is refused. Only all of them together can be paid. */
  lemma LossTrapsSeniors(authority: Pubkey, u: Pubkey, w: Pubkey)
    requires u != w
    ensures var s0 := Initial(authority, 3, Sequential);
            Run(s0, LossRun(authority, u, w)).Ok?
            && var s := Run(s0, LossRun(authority, u, w)).value;
            && |s.tranches| == 2 && Get(s.tranches[0].holdings, u) == Get(s.tranches[0].holdings, w) == 4_000_000
            && s.tranches[0].totalShares == 8_000_000 && s.totalAssets == 8000
            && Redeem(s, 0, u, 4_000_000, 0) == Err(SubordinationBreach)
            && Redeem(s, 0, w, 4_000_000, 0) == Err(SubordinationBreach)
            && Payable(PoolOf(s), Subordinations(s.tranches), Exit(0, 8_000_000), 1000)
  {
    LossRunReaches(authority, u, w);
    AllPayable8000(authority, u, w);
    HalfRefused(authority, u, w, u);
    HalfRefused(authority, u, w, w);
  }

  lemma AllPayable8000(authority: Pubkey, u: Pubkey, w: Pubkey)
    requires u != w
    ensures var s := Lost(authority, u, w); Payable(PoolOf(s), Subordinations(s.tranches), Exit(0, 8_000_000), 1000)
  {
    var s := Lost(authority, u, w);
    var a := PoolOf(s).assets;
    assert a == [8000, 0];
    TwoTotal(8000, 0);
    assert a[1..] == [0] && a[2..] == [];
    assert Worth(PoolOf(s), Exit(0, 8_000_000), 1000) == 8000;
  }

  lemma HalfRefused(authority: Pubkey, u: Pubkey, w: Pubkey, holder: Pubkey)
    requires u != w && (holder == u || holder == w)
    ensures Redeem(Lost(authority, u, w), 0, holder, 4_000_000, 0) == Err(SubordinationBreach)
  {
    assert Pow10(3) == 1000 by { assert Pow10(1) == 10; }
    var s := Lost(authority, u, w);
    assert ConvertToAssets(4_000_000, 8000, 8_000_000, 3, Floor) == Ok(4000);
    var checked := s.tranches[0 := s.tranches[0].(allocation := 4000)];
    assert checked == [checked[0], checked[1]];
    CheckTwo(checked[0], checked[1], 4000);
  }

  /** In the documented example of 8000 senior and 4000 junior at 20%, the junior holder can redeem any
      shares worth something up to 2000, and no more: the requirement falls with the total that is paid out. */
  lemma JuniorLimit(authority: Pubkey, u: Pubkey, shares: u64)
    requires 0 < shares <= 4_000_000
    ensures var s0, ops := Initial(authority, 3, Sequential), SetUp(authority, 2000) + FirstTwo(u, 4000, 8000);
            Run(s0, ops).Ok?
            && var s := Run(s0, ops).value;
            && |s.tranches| == 2 && s.tranches[0].allocation == 8000 && s.tranches[1].allocation == 4000
            && Get(s.tranches[1].holdings, u) == 4_000_000
            && Quote(s, 1, shares) == Ok(shares / 1000)
            && (Redeem(s, 1, u, shares, 0).Ok? <==> 1 <= shares / 1000 <= 2000)
  {
    var s := Funded(authority, u, 4000, 8000);
    FundedRun(authority, u, 4000, 8000);
    TrancheRuns.ReachableValid(authority, 3, Sequential, SetUp(authority, 2000) + FirstTwo(u, 4000, 8000));
    JuniorQuote(authority, u, shares);
    assert Allocations(s.tranches) == [8000, 4000] && Subordinations(s.tranches) == [2000, 0];
    TwoTotal(8000, 4000);
    ExitWhileSumIff(s, 1, u, shares);
    JuniorFits(shares / 1000);
  }

  lemma JuniorQuote(authority: Pubkey, u: Pubkey, shares: u64)
    requires 0 < shares <= 4_000_000
    ensures Quote(Funded(authority, u, 4000, 8000), 1, shares) == Ok(shares / 1000)
  {
    assert Pow10(3) == 1000 by { assert Pow10(1) == 10; }
    var n, d: int := shares * 4001, 4_001_000;
    RoundedUnique(n, d, Floor, Quotient(n, d, Floor), shares / 1000);
  }

  lemma JuniorFits(paid: u64)
    requires paid <= 4000
    ensures SeniorsFit([8000, 4000], [2000, 0], 0, 12_000 - paid, 1) <==> paid <= 2000
    ensures JuniorsProtect([8000, 4000], [2000, 0], 12_000 - paid, 1)
  {
    var a: seq<u64>, bps: seq<u16> := [8000, 4000], [2000, 0];
    assert a[..1] == [8000] && [8000][1..] == [];
    assert Fits(a, bps, 0, 12_000 - paid, 0) <==> paid <= 2000;
    Undemanding(a, bps, 0, 12_000 - paid, 1);
  }

  // ---------------------------------------------------------------- after the seniors have left

  /** A yield, all of it the senior's, and then the senior leaves. */
  function DustRun(authority: Pubkey, u: Pubkey): seq<Op> {
    SetUp(authority, 2000) + FirstTwo(u, 1000, 1000) + [DistributeYieldOp(authority, 50, 3600), RedeemOp(0, u, 1_000_000, 0)]
  }

  function Dusty(authority: Pubkey, u: Pubkey): State {
    Vault(authority, 1001, Senior(2000, 1, 0, map[u := 0]), Junior(1000, 1_000_000, map[u := 1_000_000])).(lastYield := 3600)
  }

  lemma DustRunReaches(authority: Pubkey, u: Pubkey)
    ensures Run(Initial(authority, 3, Sequential), DustRun(authority, u)) == Ok(Dusty(authority, u))
  {
    var s4, pay, leave := Funded(authority, u, 1000, 1000), DistributeYieldOp(authority, 50, 3600), RedeemOp(0, u, 1_000_000, 0);
    var s5 := Vault(authority, 2050, Senior(2000, 1050, 1_000_000, map[u := 1_000_000]), s4.tranches[1]).(lastYield := 3600);
    FundedRun(authority, u, 1000, 1000);
    YieldStep(authority, u, s4, s5);
    SeniorLeaves(authority, u, s5);
    RunTwo(s4, pay, s5, leave, Dusty(authority, u));
    RunConcat(Initial(authority, 3, Sequential), SetUp(authority, 2000) + FirstTwo(u, 1000, 1000), [pay, leave]);
  }

  lemma YieldStep(authority: Pubkey, u: Pubkey, s: State, t: State)
    requires s == Vault(authority, 2000, Senior(2000, 1000, 1_000_000, map[u := 1_000_000]), Junior(1000, 1_000_000, map[u := 1_000_000]))
    requires t == Vault(authority, 2050, Senior(2000, 1050, 1_000_000, map[u := 1_000_000]), Junior(1000, 1_000_000, map[u := 1_000_000])).(lastYield := 3600)
    ensures DistributeYield(s, authority, 50, 3600) == Ok(t)
  {
    var a, targets := Allocations(s.tranches), Targets(s.tranches);
    assert a == [1000, 1000] && a[1..] == [1000] && [1000][1..] == [];
    assert Entitled(a, targets, 0) == 50;
    var e := Entitlements(a, targets);
    assert e[..0] == [] && e[..1] == [50] && [50][1..] == [];
    assert YieldAt(50, a, targets, 0) == 50 && YieldAt(50, a, targets, 1) == 0;
    assert Yields(50, a, targets) == [50, 0];
    NoOverflowUpTo100Percent(50, a, targets);
    assert Split(Sequential, 50, s.tranches) == Ok([50, 0]);
    var y: seq<u64> := [50, 0];
    assert Credit(a, y).Ok? && Credit(a, y).value == [1050, 1000];
    TwoTotal(1000, 1000);
    assert WithAllocations(s.tranches, [1050, 1000]) == t.tranches;
  }

  lemma SeniorLeaves(authority: Pubkey, u: Pubkey, s: State)
    requires s == Vault(authority, 2050, Senior(2000, 1050, 1_000_000, map[u := 1_000_000]), Junior(1000, 1_000_000, map[u := 1_000_000])).(lastYield := 3600)
    ensures Redeem(s, 0, u, 1_000_000, 0) == Ok(Commit(Dusty(authority, u), 1049, 1_000_000))
  {
    assert Pow10(3) == 1000 by { assert Pow10(1) == 10; }
    assert ConvertToAssets(1_000_000, 1050, 1_000_000, 3, Floor) == Ok(1049);
    var checked := s.tranches[0 := s.tranches[0].(allocation := 1)];
    assert checked == [checked[0], checked[1]];
    CheckTwo(checked[0], checked[1], 1001);
    assert s.tranches[0].holdings[u := 0] == map[u := 0];
    assert s.tranches[0 := Dusty(authority, u).tranches[0]] == Dusty(authority, u).tranches;
  }

  /** With every senior gone and every tranche protected, the dust left in the senior tranche refuses
      the redeem that would empty the junior one. */
  lemma DustTrapsJuniors(authority: Pubkey, u: Pubkey)
    ensures var s0 := Initial(authority, 3, Sequential);
            Run(s0, DustRun(authority, u)).Ok?
            && var s := Run(s0, DustRun(authority, u)).value;
            && |s.tranches| == 2 && s.tranches[0].supply == 0 && s.tranches[0].allocation == 1 && Protected(s)
            && Get(s.tranches[1].holdings, u) == s.tranches[1].supply == 1_000_000
            && Redeem(s, 1, u, 1_000_000, 0) == Err(SubordinationBreach)
  {
    DustRunReaches(authority, u);
    var s := Dusty(authority, u);
    assert Pow10(3) == 1000 by { assert Pow10(1) == 10; }
    assert ConvertToAssets(1_000_000, 1000, 1_000_000, 3, Floor) == Ok(1000);
    var checked := s.tranches[1 := s.tranches[1].(allocation := 0)];
    assert checked == [checked[0], checked[1]];
    CheckTwo(checked[0], checked[1], 1);
    CheckTwo(s.tranches[0], s.tranches[1], 1001);
    assert Allocations(s.tranches) == [1, 1000];
    TwoTotal(1, 1000);
    assert s.tranches == [s.tranches[0], s.tranches[1]];
    CheckTranchesIff(s.tranches, 1001);
  }

  // ---------------------------------------------------------------- a wipe

  /** A loss of everything wipes the vault, and no yield can then be distributed. */
  lemma WipeReached(authority: Pubkey, u: Pubkey)
    ensures var s0, ops := Initial(authority, 3, Sequential), SetUp(authority, 0) + [DepositOp(1, u, 1000, 0), RecordLossOp(authority, 1000)];
            Run(s0, ops).Ok?
            && var s := Run(s0, ops).value;
            Finished(s) && Final(s) && forall caller, amount, now :: DistributeYield(s, caller, amount, now).Err?
  {
    var s0, loss := Initial(authority, 3, Sequential), RecordLossOp(authority, 1000);
    var ops := SetUp(authority, 0) + [DepositOp(1, u, 1000, 0), loss];
    var s2 := Vault(authority, 0, Senior(0, 0, 0, map[]), Junior(0, 0, map[]));
    var s3 := Vault(authority, 1000, Senior(0, 0, 0, map[]), Junior(1000, 1_000_000, map[u := 1_000_000]));
    SetUpRun(authority, 0);
    DepositAt(s2, 1, u, 1000);
    assert s2.tranches[1 := s3.tranches[1]] == s3.tranches && map[][u := 1_000_000] == map[u := 1_000_000];
    assert Allocations(s3.tranches) == [0, 1000];
    TwoTotal(0, 1000);
    var s := RecordLoss(s3, authority, 1000).value;
    RunTwo(s2, DepositOp(1, u, 1000, 0), s3, loss, s);
    RunConcat(s0, SetUp(authority, 0), [DepositOp(1, u, 1000, 0), loss]);
    WipedEmptyKept(s0, ops);
    WipedFinalIff(s);
    forall caller, amount, now ensures DistributeYield(s, caller, amount, now).Err? {
      FinishedRefuses(s, DistributeYieldOp(caller, amount, now));
    }
  }

  // ---------------------------------------------------------------- a tranche rebalanced with itself

  /** The program accepts moving `amount` from a tranche to itself, and the tranche gains it. */
  lemma SelfRebalanceAccepted(s: State, amount: u64)
    requires |s.tranches| == 2 && s.tranches[0].subordinationBps == 0 && s.tranches[0].capBps == 10_000
    requires !s.config.paused && !s.wiped
    requires 0 < amount <= s.tranches[0].allocation && s.tranches[0].allocation + amount <= s.totalAssets
    ensures var t := s.tranches[0];
            Rebalance(s, s.config.manager, 0, 0, 1, amount)
            == Ok(s.(tranches := [t.(allocation := t.allocation + amount), s.tranches[1]]))
  {
    var t := s.tranches[0];
    var presented := [t.(allocation := t.allocation - amount), t.(allocation := t.allocation + amount)];
    assert s.tranches[..0] + presented + s.tranches[1..1] + s.tranches[2..] == presented;
    assert Presented(s.tranches, 0, 0, 1, amount) == Ok(presented);
    CheckTwo(presented[0], presented[1], s.totalAssets);
    assert presented == [presented[0], presented[1]];
    assert CapLimit(s.totalAssets, 10_000) == Ok(s.totalAssets);
    assert s.tranches[0 := presented[0]][0 := presented[1]] == [presented[1], s.tranches[1]];
  }

  /** A senior and a junior of 1000 each, without requirements; then half of the senior's is moved from
      its tranche to itself. */
  function SelfRun(authority: Pubkey, u: Pubkey, w: Pubkey): seq<Op> {
    SetUp(authority, 0) + [DepositOp(0, u, 1000, 0), DepositOp(1, w, 1000, 0)] + [RebalanceOp(authority, 0, 0, 1, 500)]
  }

  function Inflated(authority: Pubkey, u: Pubkey, w: Pubkey): State {
    Vault(authority, 2000, Senior(0, 1500, 1_000_000, map[u := 1_000_000]), Junior(1000, 1_000_000, map[w := 1_000_000]))
  }

  lemma DepositsReach(authority: Pubkey, u: Pubkey, w: Pubkey) returns (s: State)
    ensures s == Vault(authority, 2000, Senior(0, 1000, 1_000_000, map[u := 1_000_000]), Junior(1000, 1_000_000, map[w := 1_000_000]))
    ensures Run(Initial(authority, 3, Sequential), SetUp(authority, 0) + [DepositOp(0, u, 1000, 0), DepositOp(1, w, 1000, 0)]) == Ok(s)
  {
    var senior, junior := DepositOp(0, u, 1000, 0), DepositOp(1, w, 1000, 0);
    var s2 := Vault(authority, 0, Senior(0, 0, 0, map[]), Junior(0, 0, map[]));
    var s3 := Vault(authority, 1000, Senior(0, 1000, 1_000_000, map[u := 1_000_000]), Junior(0, 0, map[]));
    s := Vault(authority, 2000, s3.tranches[0], Junior(1000, 1_000_000, map[w := 1_000_000]));
    SetUpRun(authority, 0);
    DepositAt(s2, 0, u, 1000);
    assert map[][u := 1_000_000] == map[u := 1_000_000] && s2.tranches[0 := s3.tranches[0]] == s3.tranches;
    DepositAt(s3, 1, w, 1000);
    assert map[][w := 1_000_000] == map[w := 1_000_000] && s3.tranches[1 := s.tranches[1]] == s.tranches;
    RunTwo(s2, senior, s3, junior, s);
    RunConcat(Initial(authority, 3, Sequential), SetUp(authority, 0), [senior, junior]);
  }

  lemma SelfRunReaches(authority: Pubkey, u: Pubkey, w: Pubkey)
    ensures Run(Initial(authority, 3, Sequential), SelfRun(authority, u, w)) == Ok(Inflated(authority, u, w))
    ensures TrancheRuns.Valid(Inflated(authority, u, w)) && TrancheRuns.Allocated(Inflated(authority, u, w)) == 2500
  {
    var s0, op := Initial(authority, 3, Sequential), RebalanceOp(authority, 0, 0, 1, 500);
    var s := DepositsReach(authority, u, w);
    SelfRebalanceAccepted(s, 500);
    ThenStep(s0, SetUp(authority, 0) + [DepositOp(0, u, 1000, 0), DepositOp(1, w, 1000, 0)], s, op, Inflated(authority, u, w));
    TrancheRuns.ReachableValid(authority, 3, Sequential, SelfRun(authority, u, w));
    assert Allocations(Inflated(authority, u, w).tranches) == [1500, 1000];
    TwoTotal(1500, 1000);
  }

  /** A run after which the reported total is no longer the sum of the tranches. */
  lemma SelfRebalanceBreaksSum(authority: Pubkey, u: Pubkey, w: Pubkey)
    ensures var s0 := Initial(authority, 3, Sequential);
            Run(s0, SelfRun(authority, u, w)).Ok?
            && var s := Run(s0, SelfRun(authority, u, w)).value;
            s.totalAssets == 2000 && TrancheRuns.Allocated(s) == 2500
  {
    SelfRunReaches(authority, u, w);
  }

  /** Then, without a loss or a requirement, the senior leaves with 1499 and takes the junior's assets along:
      of the junior's 1000 only 501 are left, and the junior is refused. */
  lemma SelfRebalanceTrapsJuniors(authority: Pubkey, u: Pubkey, w: Pubkey)
    ensures var s0, ops := Initial(authority, 3, Sequential), SelfRun(authority, u, w) + [RedeemOp(0, u, 1_000_000, 0)];
            Run(s0, ops).Ok?
            && var s := Run(s0, ops).value;
            && |s.tranches| == 2 && Get(s.tranches[1].holdings, w) == s.tranches[1].supply == 1_000_000
            && Quote(s, 1, 1_000_000) == Ok(1000) && s.totalAssets == s.balance == 501
            && Redeem(s, 1, w, 1_000_000, 0) == Err(InsufficientLiquidity)
  {
    var s0, op := Initial(authority, 3, Sequential), RedeemOp(0, u, 1_000_000, 0);
    var s5 := Inflated(authority, u, w);
    var s6 := Vault(authority, 501, Senior(0, 1, 0, map[u := 0]), s5.tranches[1]);
    SelfRunReaches(authority, u, w);
    assert Pow10(3) == 1000 by { assert Pow10(1) == 10; }
    assert Quote(s5, 0, 1_000_000) == Ok(1499);
    var checked := s5.tranches[0 := s5.tranches[0].(allocation := 1)];
    assert checked == [checked[0], checked[1]];
    CheckTwo(checked[0], checked[1], 501);
    assert map[u := 1_000_000][u := 0] == map[u := 0] && s5.tranches[0 := s6.tranches[0]] == s6.tranches;
    assert Redeem(s5, 0, u, 1_000_000, 0) == Ok(Commit(s6, 1499, 1_000_000));
    ThenStep(s0, SelfRun(authority, u, w), s5, op, s6);
    assert Quote(s6, 1, 1_000_000) == Ok(1000);
  }

  /** A loss of the whole total then wipes the vault but not the senior tranche, and the manager can
      distribute as much as that still holds. */
  lemma WipeRecovers(authority: Pubkey, u: Pubkey, w: Pubkey)
    ensures var s0, ops := Initial(authority, 3, Sequential), SelfRun(authority, u, w) + [RecordLossOp(authority, 2000)];
            Run(s0, ops).Ok?
            && var s := Run(s0, ops).value;
            && s.wiped && s.totalAssets == 0 && TrancheRuns.Allocated(s) == 500
            && DistributeYield(s, authority, 500, 3600).Ok? && !Final(s)
  {
    var s0, op := Initial(authority, 3, Sequential), RecordLossOp(authority, 2000);
    var s5 := Inflated(authority, u, w);
    SelfRunReaches(authority, u, w);
    var s6 := RecordLoss(s5, authority, 2000).value;
    TrancheRuns.LossAllocated(s5, authority, 2000);
    ThenStep(s0, SelfRun(authority, u, w), s5, op, s6);
    TrancheRuns.ReachableValid(authority, 3, Sequential, SelfRun(authority, u, w) + [op]);
    RecoveryIff(s6, 500, 3600);
    WipedFinalIff(s6);
  }
}
