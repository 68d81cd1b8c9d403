/** What every run of the tranched vault keeps. */
module TrancheRuns {
  import opened Common
  import opened Conversion
  import Sums
  import opened Waterfall
  import opened TrancheLedger

  function Allocated(s: State): int {
    Total(Allocations(s.tranches))
  }

  /** The tranche's mint and its holders agree, and nobody holds shares the tranche does not count. */
  ghost predicate Issued(t: Tranche) {
    t.supply == Sums.Sum(t.holdings, Sums.Amount) && t.supply <= t.totalShares
  }

  /** At most four tranches, each with its own priority, in order, with fractions up to 100%. */
  ghost predicate WellFormed(s: State) {
    && |s.tranches| <= MAX_TRANCHES
    && Ordered(s.tranches)
    && (forall i | 0 <= i < |s.tranches| :: Configured(s.tranches[i]) && Issued(s.tranches[i]))
  }

  predicate Configured(t: Tranche) {
    t.priority < PRIORITIES && t.subordinationBps <= 10_000 && t.targetYieldBps <= 10_000 && 0 < t.capBps <= 10_000
  }

  // ---------------------------------------------------------------- well-formedness

  lemma AdmitWellFormed(s: State, at: nat, user: Pubkey, assets: u64, shares: u64)
    requires WellFormed(s) && at < |s.tranches| && Admit(s, at, user, assets, shares).Ok?
    ensures WellFormed(Admit(s, at, user, assets, shares).value.state)
  {
    var t := s.tranches[at];
    Sums.HoldingsStep(t.holdings, user, Get(t.holdings, user) + shares);
  }

  lemma ReleaseWellFormed(s: State, at: nat, user: Pubkey, assets: u64, shares: u64)
    requires WellFormed(s) && at < |s.tranches| && Release(s, at, user, assets, shares).Ok?
    ensures WellFormed(Release(s, at, user, assets, shares).value.state)
  {
    var t := s.tranches[at];
    Sums.HoldingsStep(t.holdings, user, Get(t.holdings, user) - shares);
  }

  predicate Ordered(ts: seq<Tranche>) {
    forall i, j | 0 <= i < j < |ts| :: ts[i].priority < ts[j].priority
  }

  lemma {:induction false} InsertMembers(ts: seq<Tranche>, t: Tranche)
    ensures |Insert(ts, t)| == |ts| + 1 && forall u | u in Insert(ts, t) :: u in ts || u == t
  {
    if ts != [] && t.priority >= ts[0].priority {
      InsertMembers(ts[1..], t);
    }
  }

  lemma {:induction false} InsertOrdered(ts: seq<Tranche>, t: Tranche)
    requires Ordered(ts) && forall i | 0 <= i < |ts| :: ts[i].priority != t.priority
    ensures Ordered(Insert(ts, t))
  {
    if ts != [] && t.priority >= ts[0].priority {
      var rest := Insert(ts[1..], t);
      InsertOrdered(ts[1..], t);
      InsertMembers(ts[1..], t);
      forall j | 0 <= j < |rest| ensures ts[0].priority < rest[j].priority {
        assert rest[j] in rest;
      }
    }
  }

  lemma {:induction false} InsertTotal(ts: seq<Tranche>, t: Tranche)
    ensures Total(Allocations(Insert(ts, t))) == Total(Allocations(ts)) + t.allocation
  {
    var us := Insert(ts, t);
    if ts == [] || t.priority < ts[0].priority {
      assert Allocations(us) == [t.allocation] + Allocations(ts);
    } else {
      InsertTotal(ts[1..], t);
      assert Allocations(us) == [ts[0].allocation] + Allocations(Insert(ts[1..], t));
      assert Allocations(ts) == [ts[0].allocation] + Allocations(ts[1..]);
    }
  }

  lemma AddTrancheWellFormed(s: State, caller: Pubkey, priority: u8, sub: u16, target: u16, cap: u16)
    requires WellFormed(s) && AddTranche(s, caller, priority, sub, target, cap).Ok?
    ensures WellFormed(AddTranche(s, caller, priority, sub, target, cap).value)
    ensures Allocated(AddTranche(s, caller, priority, sub, target, cap).value) == Allocated(s)
  {
    var t := Tranche(priority, sub, target, cap, 0, 0, 0, map[]);
    InsertMembers(s.tranches, t);
    InsertOrdered(s.tranches, t);
    InsertTotal(s.tranches, t);
    var ts := Insert(s.tranches, t);
    forall i | 0 <= i < |ts| ensures Configured(ts[i]) && Issued(ts[i]) {
      assert ts[i] in ts;
    }
  }

  /** Moving assets between tranches does not concern their configuration or shares. */
  lemma ReallocatedWellFormed(s: State, t: State)
    requires WellFormed(s) && |t.tranches| == |s.tranches|
    requires forall i | 0 <= i < |s.tranches| :: t.tranches[i] == s.tranches[i].(allocation := t.tranches[i].allocation)
    ensures WellFormed(t)
  {
    forall i | 0 <= i < |s.tranches| ensures Configured(t.tranches[i]) && Issued(t.tranches[i]) {
      assert Configured(s.tranches[i]) && Issued(s.tranches[i]);
    }
  }

  lemma UpdateTrancheWellFormed(s: State, caller: Pubkey, at: nat, target: Option<u16>, cap: Option<u16>, sub: Option<u16>)
    requires WellFormed(s) && UpdateTranche(s, caller, at, target, cap, sub).Ok?
    ensures WellFormed(UpdateTranche(s, caller, at, target, cap, sub).value)
  {}

  lemma TransferWellFormed(s: State, at: nat, from: Pubkey, to: Pubkey, amount: u64)
    requires WellFormed(s) && Transfer(s, at, from, to, amount).Ok?
    ensures WellFormed(Transfer(s, at, from, to, amount).value)
  {
    var t := s.tranches[at];
    var debited := t.holdings[from := Get(t.holdings, from) - amount];
    Sums.HoldingsStep(t.holdings, from, Get(t.holdings, from) - amount);
    Sums.HoldingsStep(debited, to, Get(debited, to) + amount);
  }

  lemma BurnWellFormed(s: State, at: nat, from: Pubkey, amount: u64)
    requires WellFormed(s) && Burn(s, at, from, amount).Ok?
    ensures WellFormed(Burn(s, at, from, amount).value)
  {
    var t := s.tranches[at];
    Sums.HoldingsStep(t.holdings, from, Get(t.holdings, from) - amount);
  }

  lemma ExchangeWellFormed(s: State, op: Op)
    requires WellFormed(s) && (op.DepositOp? || op.RedeemOp?) && Step(s, op).Ok?
    ensures WellFormed(Step(s, op).value.state)
  {
    ExchangeParts(s, op);
    var c := Step(s, op).value;
    if op.DepositOp? {
      AdmitWellFormed(s, op.at, op.user, c.assets, c.shares);
    } else {
      ReleaseWellFormed(s, op.at, op.user, c.assets, c.shares);
    }
  }

  /** An exchange converts at the tranche's price and then moves the amounts. */
  lemma ExchangeParts(s: State, op: Op)
    requires (op.DepositOp? || op.RedeemOp?) && Step(s, op).Ok?
    ensures op.at < |s.tranches| && !s.config.paused
    ensures var c, t := Step(s, op).value, s.tranches[op.at];
            && c.assets > 0 && c.shares > 0
            && (op.DepositOp? ==>
                  && Step(s, op) == Admit(s, op.at, op.user, c.assets, c.shares) && c.assets == op.assets
                  && ConvertToShares(c.assets, t.allocation, t.totalShares, s.config.decimalsOffset, Floor) == Ok(c.shares))
            && (op.RedeemOp? ==>
                  && Step(s, op) == Release(s, op.at, op.user, c.assets, c.shares) && c.shares == op.shares
                  && ConvertToAssets(c.shares, t.allocation, t.totalShares, s.config.decimalsOffset, Floor) == Ok(c.assets))
  {}

  lemma DistributeWellFormed(s: State, caller: Pubkey, amount: u64, now: i64)
    requires WellFormed(s) && DistributeYield(s, caller, amount, now).Ok?
    ensures WellFormed(DistributeYield(s, caller, amount, now).value)
  {
    ReallocatedWellFormed(s, DistributeYield(s, caller, amount, now).value);
  }

  lemma RecordLossWellFormed(s: State, caller: Pubkey, loss: u64)
    requires WellFormed(s) && RecordLoss(s, caller, loss).Ok?
    ensures WellFormed(RecordLoss(s, caller, loss).value)
  {
    ReallocatedWellFormed(s, RecordLoss(s, caller, loss).value);
  }

  lemma RebalanceWellFormed(s: State, caller: Pubkey, from: nat, to: nat, omitted: nat, amount: u64)
    requires WellFormed(s) && Rebalance(s, caller, from, to, omitted, amount).Ok?
    ensures WellFormed(Rebalance(s, caller, from, to, omitted, amount).value)
  {
    ReallocatedWellFormed(s, Rebalance(s, caller, from, to, omitted, amount).value);
  }

  lemma StepWellFormed(s: State, op: Op)
    requires WellFormed(s) && Step(s, op).Ok?
    ensures WellFormed(Step(s, op).value.state)
  {
    match op
    case DepositOp(_, _, _, _) => ExchangeWellFormed(s, op);
    case RedeemOp(_, _, _, _) => ExchangeWellFormed(s, op);
    case DistributeYieldOp(caller, amount, now) => DistributeWellFormed(s, caller, amount, now);
    case RecordLossOp(caller, loss) => RecordLossWellFormed(s, caller, loss);
    case RebalanceOp(caller, from, to, omitted, amount) => RebalanceWellFormed(s, caller, from, to, omitted, amount);
    case AddTrancheOp(caller, priority, sub, target, cap) => AddTrancheWellFormed(s, caller, priority, sub, target, cap);
    case UpdateTrancheOp(caller, at, target, cap, sub) => UpdateTrancheWellFormed(s, caller, at, target, cap, sub);
    case TransferOp(at, sender, receiver, amount) => TransferWellFormed(s, at, sender, receiver, amount);
    case BurnOp(at, sender, amount) => BurnWellFormed(s, at, sender, amount);
    case SetPausedOp(_, _) =>
    case DonateOp(_) =>
  }

  // ---------------------------------------------------------------- conservation

  /** What the tranches hold beyond the total the vault reports. */
  function Excess(s: State): int {
    Allocated(s) - s.totalAssets
  }

  /** The total the vault reports is what its tranches hold. */
  predicate SumHolds(s: State) {
    Excess(s) == 0
  }

  lemma AllocatedUpdate(ts: seq<Tranche>, at: nat, t: Tranche)
    requires at < |ts|
    ensures Allocations(ts[at := t]) == Allocations(ts)[at := t.allocation]
    ensures Total(Allocations(ts[at := t])) == Total(Allocations(ts)) - ts[at].allocation + t.allocation
  {
    assert Allocations(ts[at := t]) == Allocations(ts)[at := t.allocation];
    TotalUpdate(Allocations(ts), at, t.allocation);
  }

  lemma AdmitAllocated(s: State, at: nat, user: Pubkey, assets: u64, shares: u64)
    requires at < |s.tranches| && Admit(s, at, user, assets, shares).Ok?
    ensures var t := Admit(s, at, user, assets, shares).value.state;
            Allocated(t) == Allocated(s) + assets && t.totalAssets == s.totalAssets + assets && t.balance == s.balance + assets
  {
    AllocatedUpdate(s.tranches, at, Admit(s, at, user, assets, shares).value.state.tranches[at]);
  }

  lemma ReleaseAllocated(s: State, at: nat, user: Pubkey, assets: u64, shares: u64)
    requires at < |s.tranches| && Release(s, at, user, assets, shares).Ok?
    ensures var t := Release(s, at, user, assets, shares).value.state;
            Allocated(t) == Allocated(s) - assets && t.totalAssets == s.totalAssets - assets && t.balance == s.balance - assets
  {
    AllocatedUpdate(s.tranches, at, Release(s, at, user, assets, shares).value.state.tranches[at]);
  }

  lemma ExchangeAllocated(s: State, op: Op)
    requires (op.DepositOp? || op.RedeemOp?) && Step(s, op).Ok?
    ensures var c := Step(s, op).value;
            var x := if op.DepositOp? then c.assets else 0 - c.assets;
            && Allocated(c.state) == Allocated(s) + x
            && c.state.totalAssets == s.totalAssets + x
            && c.state.balance == s.balance + x
  {
    ExchangeParts(s, op);
    var c := Step(s, op).value;
    if op.DepositOp? {
      AdmitAllocated(s, op.at, op.user, c.assets, c.shares);
    } else {
      ReleaseAllocated(s, op.at, op.user, c.assets, c.shares);
    }
  }

  lemma CreditAllocated(s: State, caller: Pubkey, amount: u64, now: i64)
    requires DistributeYield(s, caller, amount, now).Ok?
    ensures Allocated(DistributeYield(s, caller, amount, now).value) == Allocated(s) + amount
  {
    var ts, a := s.tranches, Allocations(s.tranches);
    var y := Split(s.config.mode, amount, ts).value;
    var b := Credit(a, y).value;
    assert Allocations(WithAllocations(ts, b)) == b;
    TotalSum(a, y, b);
    if s.config.mode.Sequential? {
      YieldsConserve(amount, a, Targets(ts));
    } else {
      ProRataFair(amount, a, 0);
    }
  }

  lemma LossAllocated(s: State, caller: Pubkey, loss: u64)
    requires RecordLoss(s, caller, loss).Ok?
    ensures Allocated(RecordLoss(s, caller, loss).value) == Allocated(s) - loss
  {
    var a := Allocations(s.tranches);
    assert Allocations(WithAllocations(s.tranches, AfterLosses(a, loss))) == AfterLosses(a, loss);
    LossesConserve(a, loss);
  }

  /** A rebalance conserves the sum exactly when it moves assets between two tranches. */
  lemma RebalanceConservesIff(s: State, caller: Pubkey, from: nat, to: nat, omitted: nat, amount: u64)
    requires Rebalance(s, caller, from, to, omitted, amount).Ok?
    ensures var t := Rebalance(s, caller, from, to, omitted, amount).value;
            && (Allocated(t) == Allocated(s) <==> from != to)
            && (from == to ==> Allocated(t) == Allocated(s) + amount)
            && t.totalAssets == s.totalAssets && t.balance == s.balance
  {
    var payer, payee := s.tranches[from], s.tranches[to];
    var paying := payer.(allocation := payer.allocation - amount);
    AllocatedUpdate(s.tranches, from, paying);
    AllocatedUpdate(s.tranches[from := paying], to, payee.(allocation := payee.allocation + amount));
  }

  /** The one step that can part the reported total from the tranches. */
  predicate SelfRebalance(op: Op) {
    op.RebalanceOp? && op.from == op.to
  }

  lemma UpdateAllocated(s: State, op: Op)
    requires (op.UpdateTrancheOp? || op.TransferOp? || op.BurnOp?) && Step(s, op).Ok?
    ensures Allocated(Step(s, op).value.state) == Allocated(s)
    ensures Step(s, op).value.state.totalAssets == s.totalAssets && Step(s, op).value.state.balance == s.balance
  {
    AllocatedUpdate(s.tranches, op.at, Step(s, op).value.state.tranches[op.at]);
  }

  function SelfMoved(op: Op): nat {
    if SelfRebalance(op) then op.amount else 0
  }

  /** What a run's rebalances of a tranche with itself moved, all told. */
  function SelfRebalanced(ops: seq<Op>): nat {
    if ops == [] then 0 else SelfMoved(ops[0]) + SelfRebalanced(ops[1..])
  }

  /** No step but a rebalance of a tranche with itself parts the total from the tranches, and that one
      by its amount, which is not zero. */
  lemma StepExcess(s: State, op: Op)
    requires WellFormed(s) && Step(s, op).Ok?
    ensures Excess(Step(s, op).value.state) == Excess(s) + SelfMoved(op)
    ensures SelfRebalance(op) <==> SelfMoved(op) > 0
  {
    match op
    case DepositOp(_, _, _, _) => ExchangeAllocated(s, op);
    case RedeemOp(_, _, _, _) => ExchangeAllocated(s, op);
    case DistributeYieldOp(caller, amount, now) => CreditAllocated(s, caller, amount, now);
    case RecordLossOp(caller, loss) => LossAllocated(s, caller, loss);
    case RebalanceOp(caller, from, to, omitted, amount) => RebalanceConservesIff(s, caller, from, to, omitted, amount);
    case AddTrancheOp(caller, priority, sub, target, cap) => AddTrancheWellFormed(s, caller, priority, sub, target, cap);
    case SetPausedOp(_, _) =>
    case DonateOp(_) =>
    case _ => UpdateAllocated(s, op);
  }

  /** What left the vault's books without leaving its account, and what came without being booked. */
  datatype Unbooked = Unbooked(losses: nat, donations: nat)

  function StepUnbooked(op: Op): Unbooked {
    match op
    case RecordLossOp(_, loss) => Unbooked(loss, 0)
    case DonateOp(amount) => Unbooked(0, amount)
    case _ => Unbooked(0, 0)
  }

  function RunUnbooked(ops: seq<Op>): Unbooked {
    if ops == [] then Unbooked(0, 0)
    else
      var a, b := StepUnbooked(ops[0]), RunUnbooked(ops[1..]);
      Unbooked(a.losses + b.losses, a.donations + b.donations)
  }

  lemma StepBalance(s: State, op: Op)
    requires Step(s, op).Ok?
    ensures var t, u := Step(s, op).value.state, StepUnbooked(op);
            t.balance - t.totalAssets == s.balance - s.totalAssets + u.losses + u.donations
  {
    match op
    case DepositOp(_, _, _, _) => ExchangeAllocated(s, op);
    case RedeemOp(_, _, _, _) => ExchangeAllocated(s, op);
    case RebalanceOp(caller, from, to, omitted, amount) => RebalanceConservesIff(s, caller, from, to, omitted, amount);
    case UpdateTrancheOp(_, _, _, _, _) => UpdateAllocated(s, op);
    case TransferOp(_, _, _, _) => UpdateAllocated(s, op);
    case BurnOp(_, _, _) => UpdateAllocated(s, op);
    case _ =>
  }

  /** In every run the account gains on the reported total exactly the recorded losses and the
      donations, and the tranches gain on it exactly what was rebalanced from a tranche to itself. So a
      total that was the sum of the tranches is so at the end if and only if the run had no such rebalance. */
  lemma {:induction false} RunConserves(s: State, ops: seq<Op>)
    requires WellFormed(s) && Run(s, ops).Ok?
    ensures var t, u := Run(s, ops).value, RunUnbooked(ops);
            && WellFormed(t)
            && t.balance - t.totalAssets == s.balance - s.totalAssets + u.losses + u.donations
            && Excess(t) == Excess(s) + SelfRebalanced(ops)
            && (SumHolds(s) ==> (SumHolds(t) <==> forall op | op in ops :: !SelfRebalance(op)))
    decreases |ops|
  {
    RunExcess(s, ops);
    if ops != [] {
      StepWellFormed(s, ops[0]);
      StepBalance(s, ops[0]);
      RunConserves(Step(s, ops[0]).value.state, ops[1..]);
    }
  }

  lemma {:induction false} RunExcess(s: State, ops: seq<Op>)
    requires WellFormed(s) && Run(s, ops).Ok?
    ensures Excess(Run(s, ops).value) == Excess(s) + SelfRebalanced(ops)
    ensures SelfRebalanced(ops) == 0 <==> forall op | op in ops :: !SelfRebalance(op)
    decreases |ops|
  {
    if ops != [] {
      StepWellFormed(s, ops[0]);
      StepExcess(s, ops[0]);
      RunExcess(Step(s, ops[0]).value.state, ops[1..]);
      assert forall op | op in ops :: op == ops[0] || op in ops[1..];
      assert ops[0] in ops;
    }
  }

  /** What every state has that a new vault can reach. */
  ghost predicate Valid(s: State) {
    WellFormed(s) && s.totalAssets <= s.balance && s.totalAssets <= Allocated(s)
  }

  lemma RunValid(s: State, ops: seq<Op>)
    requires Valid(s) && Run(s, ops).Ok?
    ensures Valid(Run(s, ops).value)
  {
    RunConserves(s, ops);
  }

  /** Every reachable state is valid. */
  lemma ReachableValid(authority: Pubkey, decimalsOffset: u8, mode: Mode, ops: seq<Op>)
    requires Run(Initial(authority, decimalsOffset, mode), ops).Ok?
    ensures Valid(Run(Initial(authority, decimalsOffset, mode), ops).value)
  {
    RunValid(Initial(authority, decimalsOffset, mode), ops);
  }
}
