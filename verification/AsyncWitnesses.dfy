/** Runs of new SVS-10 vaults that reach the states in which its description fails. */
module AsyncWitnesses {
  import opened Common
  import opened Conversion
  import opened AsyncLedger
  import AsyncConservation
  import opened AsyncSettlement
  import AsyncPricing

  // ---------------------------------------------------------------- one user, up to a redeem request

  /** A new vault, beside the addresses that belong to programs. */
  function Start(authority: Pubkey, operator: Pubkey, owned: set<Pubkey>): State {
    Initial(authority, operator, 3).(programOwned := owned)
  }

  predicate Started(s: State, operator: Pubkey) {
    s == Start(s.config.authority, operator, s.programOwned)
  }

  function AfterRequest(s: State, user: Pubkey, receiver: Pubkey, assets: u64): State {
    s.(assetVault := assets, totalPendingDeposits := assets,
       deposits := map[user := DepositRequest(receiver, assets, 0, Pending, 0, 0)])
  }

  function AfterFulfil(s: State, user: Pubkey, receiver: Pubkey, assets: u64): State
    requires assets <= 1_000_000
  {
    s.(assetVault := assets, totalFulfilledDeposits := assets,
       deposits := map[user := DepositRequest(receiver, assets, assets * 1000, Fulfilled, 0, 0)])
  }

  function AfterClaim(s: State, user: Pubkey, assets: u64): State
    requires assets <= 1_000_000
  {
    s.(assetVault := assets, totalAssets := assets, totalShares := assets * 1000, sharesSupply := assets * 1000,
       holdings := map[user := assets * 1000])
  }

  function AfterEscrow(s: State, user: Pubkey, receiver: Pubkey, assets: u64, shares: u64): State
    requires assets <= 1_000_000 && shares <= assets * 1000
  {
    AfterClaim(s, user, assets).(
      totalPendingRedeems := shares, shareEscrow := shares, holdings := map[user := assets * 1000 - shares],
      redeems := map[user := RedeemRequest(receiver, shares, 0, Pending, 0, 0)])
  }

  lemma FirstShares(assets: u64)
    requires assets <= 1_000_000
    ensures ConvertToShares(assets, 0, 0, 3, Floor) == Ok(assets * 1000)
  {
    assert Pow10(3) == 1000 by { assert Pow10(1) == 10; }
    assert Quotient(assets * 1000, 1, Floor) == assets * 1000;
  }

  lemma RequestStep(s: State, operator: Pubkey, user: Pubkey, receiver: Pubkey, assets: u64)
    requires Started(s, operator) && 1000 <= assets
    ensures RequestDeposit(s, user, assets, receiver, 0) == Ok(AfterRequest(s, user, receiver, assets))
  {}

  lemma FulfilStep(s: State, operator: Pubkey, user: Pubkey, receiver: Pubkey, assets: u64)
    requires Started(s, operator) && 0 < assets <= 1_000_000
    ensures FulfillDeposit(AfterRequest(s, user, receiver, assets), operator, user, None, 0, 0) == Ok(AfterFulfil(s, user, receiver, assets))
  {
    FirstShares(assets);
    var t, u := AfterRequest(s, user, receiver, assets), AfterFulfil(s, user, receiver, assets);
    assert t.deposits[user := u.deposits[user]] == u.deposits;
  }

  lemma ClaimStep(s: State, operator: Pubkey, user: Pubkey, assets: u64)
    requires Started(s, operator) && assets <= 1_000_000 && user !in s.programOwned
    ensures ClaimDeposit(AfterFulfil(s, user, user, assets), user, user) == Ok(AfterClaim(s, user, assets))
  {
    var t, u := AfterFulfil(s, user, user, assets), AfterClaim(s, user, assets);
    assert t.deposits - {user} == u.deposits && t.holdings[user := assets * 1000] == u.holdings;
  }

  lemma EscrowStep(s: State, operator: Pubkey, user: Pubkey, receiver: Pubkey, assets: u64, shares: u64)
    requires Started(s, operator) && assets <= 1_000_000 && 0 < shares <= assets * 1000
    ensures RequestRedeem(AfterClaim(s, user, assets), user, shares, receiver, 0) == Ok(AfterEscrow(s, user, receiver, assets, shares))
  {
    var t, u := AfterClaim(s, user, assets), AfterEscrow(s, user, receiver, assets, shares);
    assert t.holdings[user := assets * 1000 - shares] == u.holdings && t.redeems[user := u.redeems[user]] == u.redeems;
  }

  /** A user deposits into a new vault, claims, and requests to redeem some of the shares. */
  function Requested(operator: Pubkey, user: Pubkey, receiver: Pubkey, assets: u64, shares: u64): seq<Op> {
    [RequestDepositOp(user, assets, user, 0), FulfillDepositOp(operator, user, None, 0, 0)]
    + [ClaimDepositOp(user, user), RequestRedeemOp(user, shares, receiver, 0)]
  }

  lemma RequestedReached(s: State, operator: Pubkey, user: Pubkey, receiver: Pubkey, assets: u64, shares: u64)
    requires Started(s, operator) && user !in s.programOwned
    requires 1000 <= assets <= 1_000_000 && 0 < shares <= assets * 1000
    ensures Run(s, Requested(operator, user, receiver, assets, shares)) == Ok(AfterEscrow(s, user, receiver, assets, shares))
  {
    var t := AfterFulfil(s, user, user, assets);
    var op0, op1 := RequestDepositOp(user, assets, user, 0), FulfillDepositOp(operator, user, None, 0, 0);
    var op2, op3 := ClaimDepositOp(user, user), RequestRedeemOp(user, shares, receiver, 0);
    RequestStep(s, operator, user, user, assets);
    FulfilStep(s, operator, user, user, assets);
    RunTwo(s, op0, AfterRequest(s, user, user, assets), op1, t);
    ClaimStep(s, operator, user, assets);
    EscrowStep(s, operator, user, receiver, assets, shares);
    RunTwo(t, op2, AfterClaim(s, user, assets), op3, AfterEscrow(s, user, receiver, assets, shares));
    RunConcat(s, [op0, op1], [op2, op3]);
  }

  lemma RunTwo(s: State, a: Op, t: State, b: Op, u: State)
    requires Step(s, a) == Ok(t) && Step(t, b) == Ok(u)
    ensures Run(s, [a, b]) == Ok(u)
  {
    RunCons(t, b, []);
    RunCons(s, a, [b]);
    assert [b] + [] == [b] && [a] + [b] == [a, b];
  }

  lemma {:induction false} RunConcat(s: State, a: seq<Op>, b: seq<Op>)
    requires Run(s, a).Ok?
    ensures Run(s, a + b) == Run(Run(s, a).value, b)
    decreases |a|
  {
    if a == [] {
      assert a + b == b;
    } else {
      assert a + b == [a[0]] + (a[1..] + b);
      RunCons(s, a[0], a[1..] + b);
      RunConcat(Step(s, a[0]).value, a[1..], b);
    }
  }

  lemma ThenStep(s: State, ops: seq<Op>, op: Op)
    requires Run(s, ops).Ok? && Step(Run(s, ops).value, op).Ok?
    ensures Run(s, ops + [op]) == Step(Run(s, ops).value, op)
  {
    RunCons(Run(s, ops).value, op, []);
    assert [op] + [] == [op];
    RunConcat(s, ops, [op]);
  }

  // ---------------------------------------------------------------- the full drain

  /** The state of `FullDrainRefused` is reached by a single user's deposit and request to redeem it. */
  lemma FullDrainReached(authority: Pubkey, operator: Pubkey, user: Pubkey)
    ensures var ops := Requested(operator, user, user, 1000, 1_000_000);
            Run(Initial(authority, operator, 3), ops).Ok?
            && var s := Run(Initial(authority, operator, 3), ops).value;
            s.totalAssets == 1000 && s.totalShares == s.totalAssets * AsyncPricing.VirtualOf(s)
            && user in s.redeems && s.redeems[user].status.Pending? && s.redeems[user].sharesLocked == s.totalShares
            && FulfillRedeem(s, operator, user, None, 0, 0).Err?
  {
    assert Pow10(3) == 1000 by { assert Pow10(1) == 10; }
    var ops := Requested(operator, user, user, 1000, 1_000_000);
    RequestedReached(Initial(authority, operator, 3), operator, user, user, 1000, 1_000_000);
    AsyncConservation.RunConserved(authority, operator, 3, ops);
    AsyncPricing.FullDrainRefused(Run(Initial(authority, operator, 3), ops).value, operator, user, 0, 0, AsyncConservation.Effects(ops));
  }

  // ---------------------------------------------------------------- an overpaid redeem

  function AfterPayout(s: State, user: Pubkey, receiver: Pubkey): State {
    s.(assetVault := 1334, totalAssets := 1334, totalShares := 1_500_000, sharesSupply := 1_500_000,
       holdings := map[user := 1_500_000], claimable := map[user := 666],
       redeems := map[user := RedeemRequest(receiver, 500_000, 666, Fulfilled, 0, 0)])
  }

  lemma PayoutStep(s: State, operator: Pubkey, user: Pubkey, receiver: Pubkey)
    requires Started(s, operator)
    ensures FulfillRedeem(AfterEscrow(s, user, receiver, 2000, 500_000), operator, user, None, 0, 0) == Ok(AfterPayout(s, user, receiver))
  {
    assert Pow10(3) == 1000 by { assert Pow10(1) == 10; }
    var t, u := AfterEscrow(s, user, receiver, 2000, 500_000), AfterPayout(s, user, receiver);
    assert ConvertToAssets(500_000, 2000, 1_500_000, 3, Floor) == Ok(666);
    assert QuoteRedeem(t, operator, user, None, 0, 0) == Ok(666);
    assert t.claimable[user := 666] == u.claimable && t.redeems[user := u.redeems[user]] == u.redeems;
  }

  /** Two thousand deposited, and a quarter of the shares redeemed. */
  function PaidOut(operator: Pubkey, user: Pubkey, receiver: Pubkey): seq<Op> {
    Requested(operator, user, receiver, 2000, 500_000) + [FulfillRedeemOp(operator, user, None, 0, 0)]
  }

  lemma PaidOutReached(s: State, operator: Pubkey, user: Pubkey, receiver: Pubkey)
    requires Started(s, operator) && user !in s.programOwned
    ensures Run(s, PaidOut(operator, user, receiver)) == Ok(AfterPayout(s, user, receiver))
  {
    RequestedReached(s, operator, user, receiver, 2000, 500_000);
    PayoutStep(s, operator, user, receiver);
    ThenStep(s, Requested(operator, user, receiver, 2000, 500_000), FulfillRedeemOp(operator, user, None, 0, 0));
  }

  /** A reachable redeem that is paid more than its shares are worth and lowers the price: a quarter
      of the shares of a vault of 2000 assets takes 666 of them. */
  lemma OverpaidReached(authority: Pubkey, operator: Pubkey, user: Pubkey)
    ensures var ops := Requested(operator, user, user, 2000, 500_000);
            Run(Initial(authority, operator, 3), ops).Ok?
            && var s := Run(Initial(authority, operator, 3), ops).value;
            s.totalAssets == 2000 && s.totalShares == 2_000_000
            && user in s.redeems && s.redeems[user].sharesLocked == 500_000
            && FulfillRedeem(s, operator, user, None, 0, 0).Ok?
            && var t := FulfillRedeem(s, operator, user, None, 0, 0).value;
            Get(t.claimable, user) == 666
            && !PriceAtLeast(s.totalAssets, s.totalShares, t.totalAssets, t.totalShares, AsyncPricing.VirtualOf(s))
  {
    assert Pow10(3) == 1000 by { assert Pow10(1) == 10; }
    RequestedReached(Initial(authority, operator, 3), operator, user, user, 2000, 500_000);
    PayoutStep(Initial(authority, operator, 3), operator, user, user);
  }

  // ---------------------------------------------------------------- requests nobody can claim

  /** One unit sent to the claimable account of a fulfilled redeem and no claim of it succeeds. */
  lemma OneUnitOverfunds(s: State, o: Pubkey, claimant: Pubkey, x: AsyncConservation.External)
    requires AsyncConservation.Conserved(s, x) && o in s.redeems && s.redeems[o].status.Fulfilled? && s.claimable[o] < U64_MAX
    ensures DonateClaimable(s, o, 1).Ok? && Overfunded(DonateClaimable(s, o, 1).value, o)
    ensures ClaimRedeem(DonateClaimable(s, o, 1).value, claimant, o).Err?
  {}

  /** Such a state is reached from a new vault. */
  lemma OverfundedReached(authority: Pubkey, operator: Pubkey, user: Pubkey)
    ensures var s0, ops := Initial(authority, operator, 3), PaidOut(operator, user, user) + [DonateClaimableOp(user, 1)];
            Run(s0, ops).Ok?
            && var s := Run(s0, ops).value;
            Overfunded(s, user) && s.redeems[user].assetsClaimable == 666 && s.claimable[user] == 667
  {
    var s0 := Initial(authority, operator, 3);
    PaidOutReached(s0, operator, user, user);
    ThenStep(s0, PaidOut(operator, user, user), DonateClaimableOp(user, 1));
  }

  /** A run from a new vault to a fulfilled redeem whose receiver `w`, say the vault, belongs to a program. */
  lemma ProgramRedeemReached(authority: Pubkey, operator: Pubkey, user: Pubkey, w: Pubkey)
    requires user != w
    ensures var s0, ops := Initial(authority, operator, 3), [ReassignOp(w, true)] + PaidOut(operator, user, w);
            Run(s0, ops).Ok?
            && var s := Run(s0, ops).value;
            ProgramRedeem(s, user, w) && s.redeems[user].receiver == w && s.redeems[user].assetsClaimable == 666
  {
    AssignFirst(authority, operator, w, PaidOut(operator, user, w));
    PaidOutReached(Start(authority, operator, {w}), operator, user, w);
  }

  /** And to such a deposit. */
  lemma ProgramDepositReached(authority: Pubkey, operator: Pubkey, user: Pubkey, w: Pubkey)
    ensures var s0, ops := Initial(authority, operator, 3),
                           [ReassignOp(w, true)] + [RequestDepositOp(user, 1000, w, 0), FulfillDepositOp(operator, user, None, 0, 0)];
            Run(s0, ops).Ok?
            && var s := Run(s0, ops).value;
            ProgramDeposit(s, user, w) && s.deposits[user].receiver == w && s.deposits[user].sharesClaimable == 1_000_000
  {
    var request, fulfil := RequestDepositOp(user, 1000, w, 0), FulfillDepositOp(operator, user, None, 0, 0);
    var s := Start(authority, operator, {w});
    AssignFirst(authority, operator, w, [request, fulfil]);
    RequestStep(s, operator, user, w, 1000);
    FulfilStep(s, operator, user, w, 1000);
    RunTwo(s, request, AfterRequest(s, user, w, 1000), fulfil, AfterFulfil(s, user, w, 1000));
  }

  lemma AssignFirst(authority: Pubkey, operator: Pubkey, w: Pubkey, ops: seq<Op>)
    ensures Run(Initial(authority, operator, 3), [ReassignOp(w, true)] + ops) == Run(Start(authority, operator, {w}), ops)
  {
    assert {} - {w} + {w} == {w};
    RunCons(Initial(authority, operator, 3), ReassignOp(w, true), ops);
  }
}
