/** What the tranched vault promises its investors: subordination and caps at every voluntary
    step, when a holder can leave, a tranche price that only losses and rebalances lower, and when a
    wipe is final. */
module TrancheGuarantees {
  import opened Common
  import opened Conversion
  import Sums
  import opened Waterfall
  import opened TrancheLedger
  import opened TrancheRuns

  function VirtualOf(s: State): (vs: nat)
    ensures vs >= 1
  {
    Pow10(s.config.decimalsOffset)
  }

  predicate Protected(s: State) {
    Subordinated(Allocations(s.tranches), Subordinations(s.tranches), s.totalAssets)
  }

  // ---------------------------------------------------------------- gates

  lemma CheckTranchesIff(ts: seq<Tranche>, totalAssets: u64)
    ensures CheckTranches(ts, totalAssets).Ok? <==>
              Subordinated(Allocations(ts), Subordinations(ts), totalAssets) && Summable(Allocations(ts), Subordinations(ts))
  {
    CheckSubordinationIff(Allocations(ts), Subordinations(ts), totalAssets, 0);
  }

  lemma SameTranches(ts: seq<Tranche>, at: nat, t: Tranche)
    requires at < |ts| && t.subordinationBps == ts[at].subordinationBps
    ensures Allocations(ts[at := t]) == Allocations(ts[at := ts[at].(allocation := t.allocation)])
    ensures Subordinations(ts[at := t]) == Subordinations(ts)
    ensures Subordinations(ts[at := ts[at].(allocation := t.allocation)]) == Subordinations(ts)
  {}

  predicate Capped(s: State, at: nat)
    requires at < |s.tranches|
  {
    BPS_DENOMINATOR * s.tranches[at].allocation <= s.totalAssets * s.tranches[at].capBps
  }

  lemma AdmitProtected(s: State, at: nat, user: Pubkey, assets: u64, shares: u64)
    requires at < |s.tranches| && Admit(s, at, user, assets, shares).Ok?
    ensures var t := Admit(s, at, user, assets, shares).value.state;
            Protected(t) && Capped(t, at)
  {
    var t := Admit(s, at, user, assets, shares).value.state;
    SameTranches(s.tranches, at, t.tranches[at]);
    CheckTranchesIff(s.tranches[at := s.tranches[at].(allocation := t.tranches[at].allocation)], t.totalAssets);
  }

  lemma ReleaseProtected(s: State, at: nat, user: Pubkey, assets: u64, shares: u64)
    requires at < |s.tranches| && Release(s, at, user, assets, shares).Ok?
    ensures Protected(Release(s, at, user, assets, shares).value.state)
  {
    var t := Release(s, at, user, assets, shares).value.state;
    SameTranches(s.tranches, at, t.tranches[at]);
    CheckTranchesIff(s.tranches[at := s.tranches[at].(allocation := t.tranches[at].allocation)], t.totalAssets);
  }

  lemma SelfRebalanceGates(s: State, caller: Pubkey, at: nat, omitted: nat, amount: u64)
    requires Rebalance(s, caller, at, at, omitted, amount).Ok? && Protected(s)
    ensures Protected(Rebalance(s, caller, at, at, omitted, amount).value)
  {
    var t := Rebalance(s, caller, at, at, omitted, amount).value;
    assert Subordinations(t.tranches) == Subordinations(s.tranches);
    MoreProtects(Allocations(s.tranches), Allocations(t.tranches), Subordinations(s.tranches), s.totalAssets);
  }

  lemma RebalanceProtected(s: State, caller: Pubkey, from: nat, to: nat, omitted: nat, amount: u64)
    requires from != to && Rebalance(s, caller, from, to, omitted, amount).Ok?
    ensures Protected(Rebalance(s, caller, from, to, omitted, amount).value)
  {
    CheckTranchesIff(Rebalance(s, caller, from, to, omitted, amount).value.tranches, s.totalAssets);
  }

  /** A rebalance leaves the paid tranche under its cap; one of a tranche with itself takes no
      protection away. */
  lemma RebalanceGates(s: State, caller: Pubkey, from: nat, to: nat, omitted: nat, amount: u64)
    requires Rebalance(s, caller, from, to, omitted, amount).Ok?
    ensures var t := Rebalance(s, caller, from, to, omitted, amount).value;
            && (from != to ==> Protected(t))
            && (from == to && Protected(s) ==> Protected(t))
            && (s.totalAssets > 0 ==> to < |t.tranches| && Capped(t, to))
  {
    if from != to {
      RebalanceProtected(s, caller, from, to, omitted, amount);
    } else if Protected(s) {
      SelfRebalanceGates(s, caller, from, omitted, amount);
    }
  }

  /** Every committed deposit, redeem, rebalance between two tranches and configuration change
      leaves each tranche protected by its share of the total in more junior ones, and a rebalance of
      a tranche with itself takes no protection away; a deposit or a rebalance leaves the tranche it
      pays into under its cap. */
  lemma GatesProtect(s: State, op: Op)
    requires Step(s, op).Ok?
    requires op.DepositOp? || op.RedeemOp? || op.UpdateTrancheOp? || op.RebalanceOp?
    ensures var t := Step(s, op).value.state;
            && ((SelfRebalance(op) ==> Protected(s)) ==> Protected(t))
            && (op.DepositOp? ==> Capped(t, op.at))
            && (op.RebalanceOp? && s.totalAssets > 0 ==> op.to < |t.tranches| && Capped(t, op.to))
  {
    var c := Step(s, op).value;
    if op.DepositOp? {
      ExchangeParts(s, op);
      AdmitProtected(s, op.at, op.user, c.assets, c.shares);
    } else if op.RedeemOp? {
      ExchangeParts(s, op);
      ReleaseProtected(s, op.at, op.user, c.assets, c.shares);
    } else if op.UpdateTrancheOp? {
      CheckTranchesIff(c.state.tranches, s.totalAssets);
    } else {
      RebalanceGates(s, op.caller, op.from, op.to, op.omitted, op.amount);
    }
  }

  // ---------------------------------------------------------------- exits

  /** The tranches after `at` has paid out `assets`. */
  function PaidOut(s: State, at: nat, assets: u64): seq<u64>
    requires at < |s.tranches| && assets <= s.tranches[at].allocation
  {
    Allocations(s.tranches)[at := s.tranches[at].allocation - assets]
  }

  lemma AllocationBelow(s: State, at: nat)
    requires at < |s.tranches|
    ensures s.tranches[at].allocation <= Allocated(s)
  {
    var a := Allocations(s.tranches);
    TotalSplit(a, at);
    TotalNonNegative(a[..at]);
    TotalNonNegative(a[at + 1..]);
  }

  /** `assets` of tranche `at` are within the total, and paying them leaves every tranche protected of
      the rest, by sums the program can form. */
  predicate Affordable(s: State, at: nat, assets: u64)
    requires at < |s.tranches| && assets <= s.tranches[at].allocation
  {
    && assets <= s.totalAssets
    && Subordinated(PaidOut(s, at, assets), Subordinations(s.tranches), s.totalAssets - assets)
    && Summable(PaidOut(s, at, assets), Subordinations(s.tranches))
  }

  lemma PaidOutIff(s: State, at: nat, assets: u64)
    requires at < |s.tranches| && assets <= s.tranches[at].allocation && assets <= s.totalAssets
    ensures var t := s.tranches[at];
            CheckTranches(s.tranches[at := t.(allocation := t.allocation - assets)], s.totalAssets - assets).Ok?
            <==> Affordable(s, at, assets)
  {
    var u := s.tranches[at].(allocation := s.tranches[at].allocation - assets);
    AllocatedUpdate(s.tranches, at, u);
    SameTranches(s.tranches, at, u);
    CheckTranchesIff(s.tranches[at := u], s.totalAssets - assets);
  }

  /** When a quoted payment is settled. */
  lemma ReleaseIff(s: State, at: nat, user: Pubkey, assets: u64, shares: u64)
    requires Valid(s) && at < |s.tranches|
    requires assets <= s.tranches[at].allocation && shares <= Get(s.tranches[at].holdings, user)
    ensures Release(s, at, user, assets, shares).Ok? <==> Affordable(s, at, assets)
  {
    Sums.HoldingsStep(s.tranches[at].holdings, user, 0);
    if assets <= s.totalAssets {
      PaidOutIff(s, at, assets);
    }
  }

  /** Subordination of the rest, in terms of what the tranches held before. */
  lemma AffordableIff(s: State, at: nat, assets: u64)
    requires at < |s.tranches| && assets <= s.tranches[at].allocation
    ensures var a, bps := Allocations(s.tranches), Subordinations(s.tranches);
            Affordable(s, at, assets) <==>
              && assets <= s.totalAssets
              && SeniorsFit(a, bps, Excess(s), s.totalAssets - assets, at)
              && JuniorsProtect(a, bps, s.totalAssets - assets, at)
              && Summable(PaidOut(s, at, assets), bps)
  {
    ExitAllowedIff(Allocations(s.tranches), Subordinations(s.tranches), s.totalAssets, at, assets);
  }

  /** While the total is the sum of the tranches, the assets for a payment are there. */
  lemma AssetsThere(s: State, at: nat, assets: u64)
    requires SumHolds(s) && at < |s.tranches| && assets <= s.tranches[at].allocation
    ensures assets <= s.totalAssets && Summable(PaidOut(s, at, assets), Subordinations(s.tranches))
  {
    AllocationBelow(s, at);
    TotalUpdate(Allocations(s.tranches), at, s.tranches[at].allocation - assets);
    SummableBelow(PaidOut(s, at, assets), Subordinations(s.tranches));
  }

  function Quote(s: State, at: nat, shares: u64): Result<u64>
    requires at < |s.tranches|
  {
    ConvertToAssets(shares, s.tranches[at].allocation, s.tranches[at].totalShares, s.config.decimalsOffset, Floor)
  }

  lemma QuoteWithin(s: State, at: nat, user: Pubkey, shares: u64)
    requires WellFormed(s) && at < |s.tranches| && shares <= Get(s.tranches[at].holdings, user)
    ensures shares <= s.tranches[at].totalShares
    ensures Quote(s, at, shares).Ok? ==> Quote(s, at, shares).value <= s.tranches[at].allocation
  {
    var t := s.tranches[at];
    Sums.HoldingsStep(t.holdings, user, 0);
    if Quote(s, at, shares).Ok? {
      RedeemSolvent(shares, t.allocation, t.totalShares, s.config.decimalsOffset);
    }
  }

  /** When a holder's redeem succeeds, in every reachable state: only a pause, rounding to nothing,
      slippage, a total below the payment and subordination stand in the way. */
  lemma RedeemIff(s: State, at: nat, user: Pubkey, shares: u64, minAssets: u64)
    requires Valid(s) && at < |s.tranches| && 0 < shares <= Get(s.tranches[at].holdings, user)
    ensures var quote := Quote(s, at, shares);
            && (quote.Ok? ==> quote.value <= s.tranches[at].allocation)
            && (Redeem(s, at, user, shares, minAssets).Ok? <==>
                  && !s.config.paused && quote.Ok? && 0 < quote.value && minAssets <= quote.value
                  && Affordable(s, at, quote.value))
  {
    QuoteWithin(s, at, user, shares);
    if Quote(s, at, shares).Ok? {
      ReleaseIff(s, at, user, Quote(s, at, shares).value, shares);
    }
  }

  /** Exactly when a holder can leave with `shares`, in every reachable state and so also after a loss or
      a rebalance of a tranche with itself. */
  lemma ExitIff(s: State, at: nat, user: Pubkey, shares: u64)
    requires Valid(s) && !s.config.paused && at < |s.tranches| && 0 < shares <= Get(s.tranches[at].holdings, user)
    ensures var a, bps, quote := Allocations(s.tranches), Subordinations(s.tranches), Quote(s, at, shares);
            && (quote.Ok? ==> quote.value <= s.tranches[at].allocation)
            && (Redeem(s, at, user, shares, 0).Ok? <==>
                  && quote.Ok? && 0 < quote.value <= s.totalAssets
                  && SeniorsFit(a, bps, Excess(s), s.totalAssets - quote.value, at)
                  && JuniorsProtect(a, bps, s.totalAssets - quote.value, at)
                  && Summable(PaidOut(s, at, quote.value), bps))
  {
    RedeemIff(s, at, user, shares, 0);
    if Quote(s, at, shares).Ok? {
      AffordableIff(s, at, Quote(s, at, shares).value);
    }
  }

  /** While the total is the sum of the tranches nothing but subordination can refuse a payment. */
  lemma ExitWhileSumIff(s: State, at: nat, user: Pubkey, shares: u64)
    requires Valid(s) && SumHolds(s) && !s.config.paused
    requires at < |s.tranches| && 0 < shares <= Get(s.tranches[at].holdings, user)
    ensures var a, bps, quote := Allocations(s.tranches), Subordinations(s.tranches), Quote(s, at, shares);
            Redeem(s, at, user, shares, 0).Ok? <==>
              && quote.Ok? && 0 < quote.value
              && SeniorsFit(a, bps, 0, s.totalAssets - quote.value, at)
              && JuniorsProtect(a, bps, s.totalAssets - quote.value, at)
  {
    ExitIff(s, at, user, shares);
    if Quote(s, at, shares).Ok? {
      AssetsThere(s, at, Quote(s, at, shares).value);
    }
  }

  /** From a protected state, only what more senior tranches still hold, if only dust, can refuse an
      exit for subordination. */
  lemma SeniorsCanLeave(s: State, at: nat, user: Pubkey, shares: u64)
    requires Valid(s) && Protected(s) && !s.config.paused
    requires at < |s.tranches| && 0 < shares <= Get(s.tranches[at].holdings, user)
    ensures var a, bps, quote := Allocations(s.tranches), Subordinations(s.tranches), Quote(s, at, shares);
            && (quote.Ok? ==> quote.value <= s.tranches[at].allocation)
            && (Redeem(s, at, user, shares, 0).Ok? <==>
                  && quote.Ok? && 0 < quote.value <= s.totalAssets
                  && SeniorsFit(a, bps, Excess(s), s.totalAssets - quote.value, at)
                  && Summable(PaidOut(s, at, quote.value), bps))
  {
    RedeemIff(s, at, user, shares, 0);
    if Quote(s, at, shares).Ok? {
      ProtectedExitIff(Allocations(s.tranches), Subordinations(s.tranches), s.totalAssets, at, Quote(s, at, shares).value);
    }
  }

  /** Once they hold nothing, nothing refuses it. */
  lemma EmptySeniorsFit(s: State, at: nat, paid: nat)
    requires Valid(s) && at < |s.tranches| && paid <= s.totalAssets
    requires forall k | 0 <= k < at :: s.tranches[k].allocation == 0
    ensures SeniorsFit(Allocations(s.tranches), Subordinations(s.tranches), Excess(s), s.totalAssets - paid, at)
  {
    forall k | 0 <= k < at ensures Subordinations(s.tranches)[k] <= BPS_DENOMINATOR {
      assert Configured(s.tranches[k]);
    }
    EmptyFits(Allocations(s.tranches), Subordinations(s.tranches), Excess(s), s.totalAssets - paid, at);
  }

  // ---------------------------------------------------------------- prices

  predicate TranchePriceKept(s: State, t: State, i: nat)
    requires i < |s.tranches| && i < |t.tranches|
  {
    PriceAtLeast(s.tranches[i].allocation, s.tranches[i].totalShares, t.tranches[i].allocation, t.tranches[i].totalShares, VirtualOf(s))
  }

  lemma ExchangePrice(s: State, op: Op, i: nat)
    requires (op.DepositOp? || op.RedeemOp?) && Step(s, op).Ok? && i < |s.tranches|
    ensures |Step(s, op).value.state.tranches| == |s.tranches|
    ensures TranchePriceKept(s, Step(s, op).value.state, i)
  {
    ExchangeParts(s, op);
    var c, t := Step(s, op).value, s.tranches[op.at];
    var u := c.state.tranches[op.at];
    if op.DepositOp? {
      DepositFavoursPool(c.assets, t.allocation, t.totalShares, s.config.decimalsOffset);
      FavoursPoolIffPriceKept(t.allocation, t.totalShares, VirtualOf(s), c.assets, c.shares);
    } else {
      RedeemFavoursPool(c.shares, t.allocation, t.totalShares, s.config.decimalsOffset);
      FavoursPoolIffPriceKept(t.allocation, t.totalShares, VirtualOf(s), 0 - c.assets, 0 - c.shares);
    }
    if i != op.at { assert c.state.tranches[i] == s.tranches[i]; }
  }

  /** No exchange, yield or outside transfer lowers any tranche's price. */
  lemma PriceFallsOnlyByLossOrRebalance(s: State, op: Op, i: nat)
    requires Step(s, op).Ok? && i < |s.tranches|
    requires !op.RecordLossOp? && !op.RebalanceOp? && !op.AddTrancheOp?
    ensures |Step(s, op).value.state.tranches| == |s.tranches|
    ensures TranchePriceKept(s, Step(s, op).value.state, i)
  {
    if op.DepositOp? || op.RedeemOp? {
      ExchangePrice(s, op, i);
    } else {
      var t := Step(s, op).value.state;
      assert t.tranches[i].totalShares == s.tranches[i].totalShares && s.tranches[i].allocation <= t.tranches[i].allocation;
      PriceMonotone(s.tranches[i].allocation, s.tranches[i].totalShares, t.tranches[i].allocation, t.tranches[i].totalShares, VirtualOf(s));
    }
  }

  // ---------------------------------------------------------------- losses

  /** Recording two losses in turn does what recording their sum does. */
  lemma RecordLossCompose(s: State, caller: Pubkey, l1: u64, l2: u64)
    requires 0 < l1 && 0 < l2 && l1 + l2 <= U64_MAX
    ensures RecordLoss(s, caller, l1 + l2).Ok? <==>
              RecordLoss(s, caller, l1).Ok? && RecordLoss(RecordLoss(s, caller, l1).value, caller, l2).Ok?
    ensures RecordLoss(s, caller, l1 + l2).Ok? ==>
              RecordLoss(RecordLoss(s, caller, l1).value, caller, l2) == RecordLoss(s, caller, l1 + l2)
  {
    var a := Allocations(s.tranches);
    if RecordLoss(s, caller, l1).Ok? {
      var m := RecordLoss(s, caller, l1).value;
      LossAllocated(s, caller, l1);
      LossesCompose(a, l1, l2);
      assert Allocations(m.tranches) == AfterLosses(a, l1);
      if RecordLoss(m, caller, l2).Ok? {
        assert RecordLoss(m, caller, l2).value.tranches == RecordLoss(s, caller, l1 + l2).value.tranches;
      }
    }
  }

  /** A wiped vault whose tranches hold nothing. */
  ghost predicate Finished(s: State) {
    Valid(s) && s.wiped && Allocated(s) == 0
  }

  lemma EmptyPaysNothing(shares: u64, totalShares: u64, offset: u8)
    requires shares <= totalShares
    ensures ConvertToAssets(shares, 0, totalShares, offset, Floor).Ok? ==> ConvertToAssets(shares, 0, totalShares, offset, Floor).value == 0
  {
    if ConvertToAssets(shares, 0, totalShares, offset, Floor).Ok? {
      RedeemSolvent(shares, 0, totalShares, offset);
      ToAssetsRounded(shares, 0, totalShares, offset, Floor);
    }
  }

  lemma FinishedPaysNothing(s: State, at: nat, user: Pubkey, shares: u64, minAssets: u64)
    requires Finished(s)
    ensures Redeem(s, at, user, shares, minAssets).Err?
  {
    if at < |s.tranches| && shares <= Get(s.tranches[at].holdings, user) {
      QuoteWithin(s, at, user, shares);
      AllocationBelow(s, at);
      EmptyPaysNothing(shares, s.tranches[at].totalShares, s.config.decimalsOffset);
    }
  }

  /** Instructions that move assets, booked or not. */
  predicate MovesAssets(op: Op) {
    op.DepositOp? || op.RedeemOp? || op.DistributeYieldOp? || op.RecordLossOp? || op.RebalanceOp?
  }

  lemma FinishedRefuses(s: State, op: Op)
    requires Finished(s) && (MovesAssets(op) || op.AddTrancheOp?)
    ensures Step(s, op).Err?
  {
    if op.RedeemOp? {
      FinishedPaysNothing(s, op.at, op.user, op.shares, op.minAssets);
    }
  }

  lemma WipeFlag(s: State, op: Op)
    requires Step(s, op).Ok?
    ensures var t := Step(s, op).value.state;
            && (s.wiped ==> t.wiped)
            && (t.wiped && !s.wiped ==> t.totalAssets == 0)
            && (!MovesAssets(op) ==> t.totalAssets == s.totalAssets)
  {
    if op.DepositOp? || op.RedeemOp? {
      ExchangeParts(s, op);
    }
  }

  lemma StepValid(s: State, op: Op)
    requires Valid(s) && Step(s, op).Ok?
    ensures Valid(Step(s, op).value.state)
  {
    StepWellFormed(s, op);
    StepExcess(s, op);
    StepBalance(s, op);
  }

  lemma FinishedStep(s: State, op: Op)
    requires Finished(s) && Step(s, op).Ok?
    ensures Finished(Step(s, op).value.state) && !MovesAssets(op) && !op.AddTrancheOp?
  {
    if MovesAssets(op) || op.AddTrancheOp? {
      FinishedRefuses(s, op);
    } else {
      StepValid(s, op);
      StepExcess(s, op);
      WipeFlag(s, op);
    }
  }

  /** No instruction of the run moves an asset or adds a tranche. */
  predicate Still(ops: seq<Op>) {
    forall op | op in ops :: !MovesAssets(op) && !op.AddTrancheOp?
  }

  /** No run of a wiped vault whose tranches hold nothing ever moves an asset or adds a tranche again. */
  lemma {:induction false} WipedFinal(s: State, ops: seq<Op>)
    requires Finished(s) && Run(s, ops).Ok?
    ensures Finished(Run(s, ops).value) && Still(ops)
    decreases |ops|
  {
    if ops != [] {
      FinishedStep(s, ops[0]);
      WipedFinal(Step(s, ops[0]).value.state, ops[1..]);
      assert forall op | op in ops :: op == ops[0] || op in ops[1..];
    }
  }

  /** The wipe flag is only up when nothing is left. */
  ghost predicate WipedEmpty(s: State) {
    Valid(s) && SumHolds(s) && (s.wiped ==> Finished(s))
  }

  lemma WipedStep(s: State, op: Op)
    requires WipedEmpty(s) && Step(s, op).Ok? && !SelfRebalance(op)
    ensures WipedEmpty(Step(s, op).value.state)
  {
    StepValid(s, op);
    StepExcess(s, op);
    WipeFlag(s, op);
    if s.wiped { FinishedStep(s, op); }
  }

  lemma {:induction false} WipedEmptyKept(s: State, ops: seq<Op>)
    requires WipedEmpty(s) && Run(s, ops).Ok? && forall op | op in ops :: !SelfRebalance(op)
    ensures WipedEmpty(Run(s, ops).value)
    decreases |ops|
  {
    if ops != [] {
      assert ops[0] in ops;
      WipedStep(s, ops[0]);
      WipedEmptyKept(Step(s, ops[0]).value.state, ops[1..]);
    }
  }

  lemma SplitSucceeds(mode: Mode, amount: u64, ts: seq<Tranche>)
    requires 0 < Total(Allocations(ts)) <= U64_MAX && forall i | 0 <= i < |ts| :: Configured(ts[i])
    ensures Split(mode, amount, ts).Ok? && Total(Split(mode, amount, ts).value) == amount
  {
    if mode.Sequential? {
      NoOverflowUpTo100Percent(amount, Allocations(ts), Targets(ts));
      YieldsConserve(amount, Allocations(ts), Targets(ts));
    } else {
      ProRataFair(amount, Allocations(ts), 0);
    }
  }

  lemma CreditSucceeds(a: seq<u64>, y: seq<u64>)
    requires |y| == |a| && Total(a) + Total(y) <= U64_MAX
    ensures Credit(a, y).Ok?
  {
    forall i | 0 <= i < |a| ensures a[i] + y[i] <= U64_MAX {
      MemberBelow(a, i);
      MemberBelow(y, i);
    }
  }

  /** While amounts fit in 64 bits, the manager can distribute a yield exactly up to what the tranches
      still hold, whatever the vault reports as its total. */
  lemma RecoveryIff(s: State, amount: u64, now: i64)
    requires Valid(s) && !s.config.paused && 0 < amount && s.balance + amount <= U64_MAX && Allocated(s) + amount <= U64_MAX
    requires s.lastYield + MIN_YIELD_COOLDOWN <= now
    ensures DistributeYield(s, s.config.manager, amount, now).Ok? <==> amount <= Allocated(s)
  {
    var a := Allocations(s.tranches);
    if amount <= Allocated(s) {
      SplitSucceeds(s.config.mode, amount, s.tranches);
      CreditSucceeds(a, Split(s.config.mode, amount, s.tranches).value);
    }
  }

  /** No run ever moves an asset or adds a tranche. */
  ghost predicate Final(s: State) {
    forall ops | Run(s, ops).Ok? :: Still(ops)
  }

  lemma YieldRun(s: State) returns (ops: seq<Op>)
    requires Valid(s) && 0 < Allocated(s) < U64_MAX && s.balance < U64_MAX && s.lastYield + MIN_YIELD_COOLDOWN <= I64_MAX
    ensures Run(s, ops).Ok? && !Still(ops)
  {
    var t := s.(config := s.config.(paused := false));
    var pay := DistributeYieldOp(s.config.manager, 1, s.lastYield + MIN_YIELD_COOLDOWN);
    RecoveryIff(t, 1, s.lastYield + MIN_YIELD_COOLDOWN);
    assert [pay][1..] == [];
    assert Run(t, [pay]).Ok? && MovesAssets(pay);
    if s.config.paused {
      ops := [SetPausedOp(s.config.authority, false), pay];
      assert ops[1..] == [pay] && pay in ops;
    } else {
      ops := [pay];
      assert pay in ops;
    }
  }

  /** A wiped vault is final if and only if its tranches hold nothing. */
  lemma WipedFinalIff(s: State)
    requires Valid(s) && s.wiped
    requires Allocated(s) < U64_MAX && s.balance < U64_MAX && s.lastYield + MIN_YIELD_COOLDOWN <= I64_MAX
    ensures Final(s) <==> Allocated(s) == 0
  {
    if Allocated(s) == 0 {
      forall ops | Run(s, ops).Ok? ensures Still(ops) {
        WipedFinal(s, ops);
      }
    } else {
      var _ := YieldRun(s);
    }
  }

  /** So, of a new vault that a run has wiped to a zero total, the wipe is final if and only if that run
      rebalanced no tranche with itself. */
  lemma WipeFinalIffNoSelfRebalance(authority: Pubkey, decimalsOffset: u8, mode: Mode, ops: seq<Op>)
    requires Run(Initial(authority, decimalsOffset, mode), ops).Ok?
    requires var s := Run(Initial(authority, decimalsOffset, mode), ops).value;
             && s.wiped && s.totalAssets == 0
             && Allocated(s) < U64_MAX && s.balance < U64_MAX && s.lastYield + MIN_YIELD_COOLDOWN <= I64_MAX
    ensures Final(Run(Initial(authority, decimalsOffset, mode), ops).value) <==> forall op | op in ops :: !SelfRebalance(op)
  {
    RunConserves(Initial(authority, decimalsOffset, mode), ops);
    ReachableValid(authority, decimalsOffset, mode, ops);
    WipedFinalIff(Run(Initial(authority, decimalsOffset, mode), ops).value);
  }

  // ---------------------------------------------------------------- deposits

  /** The tranches after `at` has taken in `assets`. */
  function PaidIn(s: State, at: nat, assets: u64): seq<u64>
    requires at < |s.tranches| && s.tranches[at].allocation + assets <= U64_MAX
  {
    Allocations(s.tranches)[at := s.tranches[at].allocation + assets]
  }

  /** Paying `assets` in keeps the tranche within its cap of the new total and every tranche protected
      of it, by sums the program can form. */
  predicate Acceptable(s: State, at: nat, assets: u64)
    requires at < |s.tranches|
  {
    var t := s.tranches[at];
    && BPS_DENOMINATOR * (t.allocation + assets) <= (s.totalAssets + assets) * t.capBps
    && t.allocation + assets <= U64_MAX
    && Subordinated(PaidIn(s, at, assets), Subordinations(s.tranches), s.totalAssets + assets)
    && Summable(PaidIn(s, at, assets), Subordinations(s.tranches))
  }

  /** When a quoted deposit is admitted. */
  lemma {:induction false} AdmitIff(s: State, at: nat, user: Pubkey, assets: u64, shares: u64)
    requires Valid(s) && at < |s.tranches| && s.balance + assets <= U64_MAX && s.tranches[at].totalShares + shares <= U64_MAX
    ensures var t := s.tranches[at];
            Admit(s, at, user, assets, shares).Ok? <==>
              && t.supply == t.totalShares && Acceptable(s, at, assets)
  {
    var t := s.tranches[at];
    CapIff(s.totalAssets + assets, t.capBps, t.allocation + assets);
    Sums.HoldingsStep(t.holdings, user, 0);
    if t.allocation + assets <= U64_MAX {
      var u := t.(allocation := t.allocation + assets);
      AllocatedUpdate(s.tranches, at, u);
      SameTranches(s.tranches, at, u);
      CheckTranchesIff(s.tranches[at := u], s.totalAssets + assets);
    }
  }

  lemma CapIff(total: u64, capBps: u16, allocation: nat)
    requires capBps <= BPS_DENOMINATOR
    ensures CapLimit(total, capBps).Ok?
    ensures allocation <= CapLimit(total, capBps).value <==> BPS_DENOMINATOR * allocation <= total * capBps
  {
    ProductNonNegative(total, capBps);
    FractionBelow(total, capBps, BPS_DENOMINATOR);
    var q := Quotient(total * capBps, BPS_DENOMINATOR, Floor);
    assert q * BPS_DENOMINATOR <= total * capBps < (q + 1) * BPS_DENOMINATOR;
  }

  /** Exactly when a deposit succeeds, while amounts fit in 64 bits. The last condition is the
      program's reconciliation: it fails once any share of the tranche was burned outside. */
  lemma DepositIff(s: State, at: nat, user: Pubkey, assets: u64, minShares: u64)
    requires Valid(s) && at < |s.tranches| && s.balance + assets <= U64_MAX
    ensures var t := s.tranches[at];
            var quote := ConvertToShares(assets, t.allocation, t.totalShares, s.config.decimalsOffset, Floor);
            quote.Ok? && t.totalShares + quote.value <= U64_MAX ==>
              (Deposit(s, at, user, assets, minShares).Ok? <==>
                 && !s.config.paused && !s.wiped && 0 < assets && 0 < quote.value && minShares <= quote.value
                 && Acceptable(s, at, assets) && t.supply == t.totalShares)
  {
    var t := s.tranches[at];
    var quote := ConvertToShares(assets, t.allocation, t.totalShares, s.config.decimalsOffset, Floor);
    if quote.Ok? && t.totalShares + quote.value <= U64_MAX {
      AdmitIff(s, at, user, assets, quote.value);
    }
  }

  /** Shares the tranche counts that its mint does not: those burned outside. */
  function Burned(t: Tranche): int {
    t.totalShares - t.supply
  }

  lemma BurnedRefused(s: State, at: nat, user: Pubkey, assets: u64, minShares: u64)
    requires at < |s.tranches| && Burned(s.tranches[at]) > 0
    ensures Deposit(s, at, user, assets, minShares).Err?
  {}

  // ---------------------------------------------------------------- one tranche over a run

  lemma {:induction false} InsertKeeps(ts: seq<Tranche>, t: Tranche, i: nat) returns (j: nat)
    requires i < |ts|
    ensures j < |Insert(ts, t)| && Insert(ts, t)[j] == ts[i]
  {
    if ts == [] || t.priority < ts[0].priority {
      j := i + 1;
    } else if i == 0 {
      j := 0;
    } else {
      j := InsertKeeps(ts[1..], t, i - 1);
      j := j + 1;
    }
  }

  predicate KeepsPrices(op: Op) {
    !op.RecordLossOp? && !op.RebalanceOp?
  }

  /** `u` is the same tranche as `t`, with no burned share restored and, if so asked, at no lower price. */
  predicate Follows(t: Tranche, u: Tranche, vs: nat, priced: bool) {
    && u.priority == t.priority && Burned(t) <= Burned(u)
    && (priced ==> PriceAtLeast(t.allocation, t.totalShares, u.allocation, u.totalShares, vs))
  }

  lemma AdmitBurned(s: State, at: nat, user: Pubkey, assets: u64, shares: u64, i: nat)
    requires at < |s.tranches| && i < |s.tranches| && Admit(s, at, user, assets, shares).Ok?
    ensures var t := Admit(s, at, user, assets, shares).value.state;
            && t.config == s.config && |t.tranches| == |s.tranches|
            && t.tranches[i].priority == s.tranches[i].priority && Burned(t.tranches[i]) == Burned(s.tranches[i])
  {}

  lemma ReleaseBurned(s: State, at: nat, user: Pubkey, assets: u64, shares: u64, i: nat)
    requires at < |s.tranches| && i < |s.tranches| && Release(s, at, user, assets, shares).Ok?
    ensures var t := Release(s, at, user, assets, shares).value.state;
            && t.config == s.config && |t.tranches| == |s.tranches|
            && t.tranches[i].priority == s.tranches[i].priority && Burned(t.tranches[i]) == Burned(s.tranches[i])
  {}

  lemma StepBurned(s: State, op: Op, i: nat)
    requires Step(s, op).Ok? && !op.AddTrancheOp? && i < |s.tranches|
    ensures var t := Step(s, op).value.state;
            && |t.tranches| == |s.tranches| && t.config.decimalsOffset == s.config.decimalsOffset
            && t.tranches[i].priority == s.tranches[i].priority
            && Burned(s.tranches[i]) <= Burned(t.tranches[i])
  {
    if op.DepositOp? {
      ExchangeParts(s, op);
      AdmitBurned(s, op.at, op.user, Step(s, op).value.assets, Step(s, op).value.shares, i);
    } else if op.RedeemOp? {
      ExchangeParts(s, op);
      ReleaseBurned(s, op.at, op.user, Step(s, op).value.assets, Step(s, op).value.shares, i);
    }
  }

  lemma StepFollows(s: State, op: Op, i: nat) returns (j: nat)
    requires Step(s, op).Ok? && i < |s.tranches|
    ensures var t := Step(s, op).value.state;
            && j < |t.tranches| && t.config.decimalsOffset == s.config.decimalsOffset
            && Follows(s.tranches[i], t.tranches[j], VirtualOf(s), KeepsPrices(op))
  {
    if op.AddTrancheOp? {
      var added := Tranche(op.priority, op.subordinationBps, op.targetYieldBps, op.capBps, 0, 0, 0, map[]);
      j := InsertKeeps(s.tranches, added, i);
    } else {
      j := i;
      StepBurned(s, op, i);
      if KeepsPrices(op) {
        PriceFallsOnlyByLossOrRebalance(s, op, i);
      }
    }
  }

  /** Every tranche stays in the vault under its priority, over any run, wherever it is sorted to; a
      burned share is never restored; and without losses and rebalances its price never falls. */
  lemma {:induction false} RunFollows(s: State, ops: seq<Op>, i: nat) returns (j: nat)
    requires Run(s, ops).Ok? && i < |s.tranches|
    ensures var t := Run(s, ops).value;
            && j < |t.tranches|
            && Follows(s.tranches[i], t.tranches[j], VirtualOf(s), forall op | op in ops :: KeepsPrices(op))
    decreases |ops|
  {
    if ops == [] {
      j := i;
    } else {
      var k := StepFollows(s, ops[0], i);
      var m := Step(s, ops[0]).value.state;
      j := RunFollows(m, ops[1..], k);
      if forall op | op in ops :: KeepsPrices(op) {
        assert ops[0] in ops;
        var t, u, w := s.tranches[i], m.tranches[k], Run(s, ops).value.tranches[j];
        PriceTransitive(t.allocation, t.totalShares, u.allocation, u.totalShares, w.allocation, w.totalShares, VirtualOf(s));
      }
    }
  }

  /** Once a share of a tranche has been burned outside, no run ever reaches a state in which anyone
      can deposit into it. */
  lemma BurnedForever(s: State, ops: seq<Op>, i: nat) returns (j: nat)
    requires Run(s, ops).Ok? && i < |s.tranches| && Burned(s.tranches[i]) > 0
    ensures var t := Run(s, ops).value;
            && j < |t.tranches| && t.tranches[j].priority == s.tranches[i].priority
            && forall user, assets, minShares :: Deposit(t, j, user, assets, minShares).Err?
  {
    j := RunFollows(s, ops, i);
    forall user, assets, minShares ensures Deposit(Run(s, ops).value, j, user, assets, minShares).Err? {
      BurnedRefused(Run(s, ops).value, j, user, assets, minShares);
    }
  }
}
