/** What every run of the SVS-10 protocol conserves. */
module AsyncConservation {
  import opened Common
  import opened Sums
  import opened AsyncLedger

  // ---------------------------------------------------------------- what the requests hold

  function PendingAssets(r: DepositRequest): nat { if r.status.Pending? then r.assetsLocked else 0 }

  function FulfilledAssets(r: DepositRequest): nat { if r.status.Fulfilled? then r.assetsLocked else 0 }

  function PendingShares(r: RedeemRequest): nat { if r.status.Pending? then r.sharesLocked else 0 }

  function ClaimableAssets(r: RedeemRequest): nat { if r.status.Fulfilled? then r.assetsClaimable else 0 }

  /** Tokens that reached or left the vault's accounts outside the program. */
  datatype External = External(assetsDonated: nat, claimablesDonated: nat, sharesDonated: nat, sharesBurned: nat)

  const NOTHING := External(0, 0, 0, 0)

  function Effect(op: Op): External {
    match op
    case DonateAssetsOp(amount) => External(amount, 0, 0, 0)
    case DonateClaimableOp(_, amount) => External(0, amount, 0, 0)
    case DonateSharesOp(_, amount) => External(0, 0, amount, 0)
    case BurnSharesOp(_, amount) => External(0, 0, 0, amount)
    case _ => NOTHING
  }

  function Plus(a: External, b: External): External {
    External(a.assetsDonated + b.assetsDonated, a.claimablesDonated + b.claimablesDonated,
             a.sharesDonated + b.sharesDonated, a.sharesBurned + b.sharesBurned)
  }

  function Effects(ops: seq<Op>): External {
    if ops == [] then NOTHING else Plus(Effect(ops[0]), Effects(ops[1..]))
  }

  /** The claimable account of a fulfilled redeem holds at least what its owner may claim, and no
      other claimable account exists. */
  ghost predicate ClaimablesMatch(claimable: map<Pubkey, u64>, redeems: map<Pubkey, RedeemRequest>) {
    && (forall o | o in claimable ::
          o in redeems && redeems[o].status.Fulfilled? && redeems[o].assetsClaimable <= claimable[o])
    && (forall o | o in redeems :: redeems[o].status.Fulfilled? ==> o in claimable)
  }

  /** Every counter of the vault account equals what the accounts it summarises hold. */
  ghost predicate Conserved(s: State, x: External) {
    && s.assetVault == s.totalAssets + s.totalPendingDeposits + s.totalFulfilledDeposits + x.assetsDonated
    && s.totalPendingDeposits == Sum(s.deposits, PendingAssets)
    && s.totalFulfilledDeposits == Sum(s.deposits, FulfilledAssets)
    && s.totalPendingRedeems == Sum(s.redeems, PendingShares)
    && s.shareEscrow == s.totalPendingRedeems + x.sharesDonated
    && s.sharesSupply == Sum(s.holdings, Amount) + s.shareEscrow
    && s.totalShares == s.sharesSupply + x.sharesBurned
    && ClaimablesMatch(s.claimable, s.redeems)
    && Sum(s.claimable, Amount) == Sum(s.redeems, ClaimableAssets) + x.claimablesDonated
  }

  lemma InitialConserved(authority: Pubkey, operator: Pubkey, offset: u8)
    ensures Conserved(Initial(authority, operator, offset), NOTHING)
  {}

  lemma DepositsStep(m: map<Pubkey, DepositRequest>, o: Pubkey, r: DepositRequest)
    ensures Sum(m[o := r], PendingAssets) + (if o in m then PendingAssets(m[o]) else 0) == Sum(m, PendingAssets) + PendingAssets(r)
    ensures Sum(m[o := r], FulfilledAssets) + (if o in m then FulfilledAssets(m[o]) else 0) == Sum(m, FulfilledAssets) + FulfilledAssets(r)
    ensures o in m ==> Sum(m, PendingAssets) == PendingAssets(m[o]) + Sum(m - {o}, PendingAssets)
    ensures o in m ==> Sum(m, FulfilledAssets) == FulfilledAssets(m[o]) + Sum(m - {o}, FulfilledAssets)
  {
    SumUpdate(m, o, r, PendingAssets);
    SumUpdate(m, o, r, FulfilledAssets);
    if o in m {
      SumRemove(m, o, PendingAssets);
      SumRemove(m, o, FulfilledAssets);
    }
  }

  lemma RedeemsStep(m: map<Pubkey, RedeemRequest>, o: Pubkey, r: RedeemRequest)
    ensures Sum(m[o := r], PendingShares) + (if o in m then PendingShares(m[o]) else 0) == Sum(m, PendingShares) + PendingShares(r)
    ensures o in m ==> Sum(m, PendingShares) == PendingShares(m[o]) + Sum(m - {o}, PendingShares)
  {
    SumUpdate(m, o, r, PendingShares);
    if o in m {
      SumRemove(m, o, PendingShares);
    }
  }

  lemma ClaimablesStep(m: map<Pubkey, RedeemRequest>, o: Pubkey, r: RedeemRequest)
    ensures Sum(m[o := r], ClaimableAssets) + (if o in m then ClaimableAssets(m[o]) else 0) == Sum(m, ClaimableAssets) + ClaimableAssets(r)
    ensures o in m ==> Sum(m, ClaimableAssets) == ClaimableAssets(m[o]) + Sum(m - {o}, ClaimableAssets)
  {
    SumUpdate(m, o, r, ClaimableAssets);
    if o in m {
      SumRemove(m, o, ClaimableAssets);
    }
  }

  /** Pending requests have no claimable account, so they come and go without one. */
  lemma PendingMatch(claimable: map<Pubkey, u64>, redeems: map<Pubkey, RedeemRequest>, o: Pubkey, r: RedeemRequest)
    requires ClaimablesMatch(claimable, redeems) && r.status.Pending?
    ensures o !in redeems ==> ClaimablesMatch(claimable, redeems[o := r])
    ensures o in redeems && redeems[o].status.Pending? ==> ClaimablesMatch(claimable, redeems - {o})
  {}

  lemma RequestDepositConserved(s: State, user: Pubkey, assets: u64, receiver: Pubkey, now: i64, x: External)
    requires Conserved(s, x) && RequestDeposit(s, user, assets, receiver, now).Ok?
    ensures Conserved(RequestDeposit(s, user, assets, receiver, now).value, x)
  {
    DepositsStep(s.deposits, user, DepositRequest(receiver, assets, 0, Pending, now, 0));
  }

  lemma AcceptDepositConserved(s: State, owner: Pubkey, shares: u64, now: i64, x: External)
    requires Conserved(s, x) && owner in s.deposits && s.deposits[owner].status.Pending?
    requires AcceptDeposit(s, owner, shares, now).Ok?
    ensures Conserved(AcceptDeposit(s, owner, shares, now).value, x)
  {
    DepositsStep(s.deposits, owner, s.deposits[owner].(sharesClaimable := shares, status := Fulfilled, fulfilledAt := now));
  }

  lemma IssueSharesConserved(s: State, owner: Pubkey, x: External)
    requires Conserved(s, x) && owner in s.deposits && s.deposits[owner].status.Fulfilled?
    requires IssueShares(s, owner).Ok?
    ensures Conserved(IssueShares(s, owner).value, x)
  {
    var request := s.deposits[owner];
    DepositsStep(s.deposits, owner, request);
    HoldingsStep(s.holdings, request.receiver, Get(s.holdings, request.receiver) + request.sharesClaimable);
  }

  lemma ClaimDepositConserved(s: State, claimant: Pubkey, owner: Pubkey, x: External)
    requires Conserved(s, x) && ClaimDeposit(s, claimant, owner).Ok?
    ensures Conserved(ClaimDeposit(s, claimant, owner).value, x)
  {
    IssueSharesConserved(s, owner, x);
  }

  lemma CancelDepositConserved(s: State, user: Pubkey, now: i64, x: External)
    requires Conserved(s, x) && CancelDeposit(s, user, now).Ok?
    ensures Conserved(CancelDeposit(s, user, now).value, x)
  {
    DepositsStep(s.deposits, user, s.deposits[user]);
  }

  lemma RequestRedeemConserved(s: State, user: Pubkey, shares: u64, receiver: Pubkey, now: i64, x: External)
    requires Conserved(s, x) && RequestRedeem(s, user, shares, receiver, now).Ok?
    ensures Conserved(RequestRedeem(s, user, shares, receiver, now).value, x)
  {
    RedeemsStep(s.redeems, user, RedeemRequest(receiver, shares, 0, Pending, now, 0));
    ClaimablesStep(s.redeems, user, RedeemRequest(receiver, shares, 0, Pending, now, 0));
    PendingMatch(s.claimable, s.redeems, user, RedeemRequest(receiver, shares, 0, Pending, now, 0));
    HoldingsStep(s.holdings, user, Get(s.holdings, user) - shares);
  }

  lemma SettleRedeemConserved(s: State, owner: Pubkey, assets: u64, now: i64, x: External)
    requires Conserved(s, x) && owner in s.redeems && s.redeems[owner].status.Pending?
    requires SettleRedeem(s, owner, assets, now).Ok?
    ensures Conserved(SettleRedeem(s, owner, assets, now).value, x)
  {
    RedeemsStep(s.redeems, owner, s.redeems[owner].(assetsClaimable := assets, status := Fulfilled, fulfilledAt := now));
    ClaimablesStep(s.redeems, owner, s.redeems[owner].(assetsClaimable := assets, status := Fulfilled, fulfilledAt := now));
    HoldingsStep(s.claimable, owner, assets);
  }

  lemma ClaimRedeemConserved(s: State, claimant: Pubkey, owner: Pubkey, x: External)
    requires Conserved(s, x) && ClaimRedeem(s, claimant, owner).Ok?
    ensures Conserved(ClaimRedeem(s, claimant, owner).value, x)
  {
    RedeemsStep(s.redeems, owner, s.redeems[owner]);
    ClaimablesStep(s.redeems, owner, s.redeems[owner]);
    SumRemove(s.claimable, owner, Amount);
  }

  /** Giving pending shares back to their owner, however the instruction came to do it. */
  lemma UnescrowConserved(s: State, user: Pubkey, t: State, x: External)
    requires Conserved(s, x) && user in s.redeems && s.redeems[user].status.Pending?
    requires var shares, held := s.redeems[user].sharesLocked, Get(s.holdings, user);
             && shares <= s.shareEscrow && shares <= s.totalPendingRedeems && held + shares <= U64_MAX
             && t == s.(shareEscrow := s.shareEscrow - shares, holdings := s.holdings[user := held + shares],
                        totalPendingRedeems := s.totalPendingRedeems - shares, redeems := s.redeems - {user})
    ensures Conserved(t, x)
  {
    var request := s.redeems[user];
    RedeemsStep(s.redeems, user, request);
    ClaimablesStep(s.redeems, user, request);
    PendingMatch(s.claimable, s.redeems, user, request);
    HoldingsStep(s.holdings, user, Get(s.holdings, user) + request.sharesLocked);
  }

  lemma CancelRedeemConserved(s: State, user: Pubkey, x: External)
    requires Conserved(s, x) && CancelRedeem(s, user).Ok?
    ensures Conserved(CancelRedeem(s, user).value, x)
  {
    UnescrowConserved(s, user, CancelRedeem(s, user).value, x);
  }

  lemma DonateClaimableConserved(s: State, owner: Pubkey, amount: u64, x: External)
    requires Conserved(s, x) && DonateClaimable(s, owner, amount).Ok?
    ensures Conserved(DonateClaimable(s, owner, amount).value, x.(claimablesDonated := x.claimablesDonated + amount))
  {
    HoldingsStep(s.claimable, owner, s.claimable[owner] + amount);
  }

  lemma TransferSharesConserved(s: State, from: Pubkey, to: Pubkey, amount: u64, x: External)
    requires Conserved(s, x) && TransferShares(s, from, to, amount).Ok?
    ensures Conserved(TransferShares(s, from, to, amount).value, x)
  {
    var debited := s.holdings[from := Get(s.holdings, from) - amount];
    HoldingsStep(s.holdings, from, Get(s.holdings, from) - amount);
    HoldingsStep(debited, to, Get(debited, to) + amount);
  }

  lemma DonateSharesConserved(s: State, from: Pubkey, amount: u64, x: External)
    requires Conserved(s, x) && DonateShares(s, from, amount).Ok?
    ensures Conserved(DonateShares(s, from, amount).value, x.(sharesDonated := x.sharesDonated + amount))
  {
    HoldingsStep(s.holdings, from, Get(s.holdings, from) - amount);
  }

  lemma BurnSharesConserved(s: State, from: Pubkey, amount: u64, x: External)
    requires Conserved(s, x) && BurnShares(s, from, amount).Ok?
    ensures Conserved(BurnShares(s, from, amount).value, x.(sharesBurned := x.sharesBurned + amount))
  {
    HoldingsStep(s.holdings, from, Get(s.holdings, from) - amount);
  }

  lemma FulfillDepositConserved(s: State, caller: Pubkey, owner: Pubkey, oracle: Option<u64>, maxPrice: u64, now: i64, x: External)
    requires Conserved(s, x) && FulfillDeposit(s, caller, owner, oracle, maxPrice, now).Ok?
    ensures Conserved(FulfillDeposit(s, caller, owner, oracle, maxPrice, now).value, x)
  {
    AcceptDepositConserved(s, owner, QuoteDeposit(s, caller, owner, oracle, maxPrice, now).value, now, x);
  }

  lemma FulfillRedeemConserved(s: State, caller: Pubkey, owner: Pubkey, oracle: Option<u64>, minPrice: u64, now: i64, x: External)
    requires Conserved(s, x) && FulfillRedeem(s, caller, owner, oracle, minPrice, now).Ok?
    ensures Conserved(FulfillRedeem(s, caller, owner, oracle, minPrice, now).value, x)
  {
    SettleRedeemConserved(s, owner, QuoteRedeem(s, caller, owner, oracle, minPrice, now).value, now, x);
  }

  lemma DepositStepConserved(s: State, op: Op, x: External)
    requires Conserved(s, x) && Step(s, op).Ok?
    requires DepositSide(op)
    ensures Conserved(Step(s, op).value, x)
  {
    match op
    case RequestDepositOp(user, assets, receiver, now) => RequestDepositConserved(s, user, assets, receiver, now, x);
    case FulfillDepositOp(caller, owner, oracle, maxPrice, now) => FulfillDepositConserved(s, caller, owner, oracle, maxPrice, now, x);
    case ClaimDepositOp(caller, owner) => ClaimDepositConserved(s, caller, owner, x);
    case CancelDepositOp(user, now) => CancelDepositConserved(s, user, now, x);
  }

  lemma RedeemStepConserved(s: State, op: Op, x: External)
    requires Conserved(s, x) && Step(s, op).Ok?
    requires RedeemSide(op)
    ensures Conserved(Step(s, op).value, x)
  {
    match op
    case RequestRedeemOp(user, shares, receiver, now) => RequestRedeemConserved(s, user, shares, receiver, now, x);
    case FulfillRedeemOp(caller, owner, oracle, minPrice, now) => FulfillRedeemConserved(s, caller, owner, oracle, minPrice, now, x);
    case ClaimRedeemOp(caller, owner) => ClaimRedeemConserved(s, caller, owner, x);
    case CancelRedeemOp(user) => CancelRedeemConserved(s, user, x);
  }

  lemma ConfigureConserved(s: State, caller: Pubkey, setting: Setting, x: External)
    requires Conserved(s, x) && Configure(s, caller, setting).Ok?
    ensures Conserved(Configure(s, caller, setting).value, x)
  {}

  lemma DelegateConserved(s: State, owner: Pubkey, operator: Pubkey, change: Delegation, x: External)
    requires Conserved(s, x) && Delegate(s, owner, operator, change).Ok?
    ensures Conserved(Delegate(s, owner, operator, change).value, x)
  {}

  lemma ReassignConserved(s: State, account: Pubkey, toProgram: bool, x: External)
    requires Conserved(s, x)
    ensures Conserved(Reassign(s, account, toProgram).value, x)
  {}

  lemma AdminStepConserved(s: State, op: Op, x: External)
    requires Conserved(s, x) && Step(s, op).Ok?
    requires op.ConfigureOp? || op.DelegateOp? || op.ReassignOp?
    ensures Conserved(Step(s, op).value, x)
  {
    match op
    case ConfigureOp(caller, setting) => ConfigureConserved(s, caller, setting, x);
    case DelegateOp(owner, operator, change) => DelegateConserved(s, owner, operator, change, x);
    case ReassignOp(account, toProgram) => ReassignConserved(s, account, toProgram, x);
  }

  lemma DonateAssetsConserved(s: State, amount: u64, x: External)
    requires Conserved(s, x) && DonateAssets(s, amount).Ok?
    ensures Conserved(DonateAssets(s, amount).value, x.(assetsDonated := x.assetsDonated + amount))
  {}

  lemma DonationConserved(s: State, op: Op, x: External)
    requires Conserved(s, x) && Step(s, op).Ok?
    requires op.DonateAssetsOp? || op.DonateClaimableOp? || op.DonateSharesOp?
    ensures Conserved(Step(s, op).value, Plus(x, Effect(op)))
  {
    match op
    case DonateAssetsOp(amount) => DonateAssetsConserved(s, amount, x);
    case DonateClaimableOp(owner, amount) => DonateClaimableConserved(s, owner, amount, x);
    case DonateSharesOp(from, amount) => DonateSharesConserved(s, from, amount, x);
  }

  lemma HolderStepConserved(s: State, op: Op, x: External)
    requires Conserved(s, x) && Step(s, op).Ok?
    requires op.TransferSharesOp? || op.BurnSharesOp?
    ensures Conserved(Step(s, op).value, Plus(x, Effect(op)))
  {
    match op
    case TransferSharesOp(from, to, amount) => TransferSharesConserved(s, from, to, amount, x);
    case BurnSharesOp(from, amount) => BurnSharesConserved(s, from, amount, x);
  }

  lemma StepConserved(s: State, op: Op, x: External)
    requires Conserved(s, x) && Step(s, op).Ok?
    ensures Conserved(Step(s, op).value, Plus(x, Effect(op)))
  {
    if DepositSide(op) {
      DepositStepConserved(s, op, x);
    } else if RedeemSide(op) {
      RedeemStepConserved(s, op, x);
    } else if op.ConfigureOp? || op.DelegateOp? || op.ReassignOp? {
      AdminStepConserved(s, op, x);
    } else if op.TransferSharesOp? || op.BurnSharesOp? {
      HolderStepConserved(s, op, x);
    } else {
      DonationConserved(s, op, x);
    }
  }

  lemma {:induction false} RunConservedFrom(s: State, ops: seq<Op>, x: External)
    requires Conserved(s, x) && Run(s, ops).Ok?
    ensures Conserved(Run(s, ops).value, Plus(x, Effects(ops)))
    decreases |ops|
  {
    if ops != [] {
      StepConserved(s, ops[0], x);
      RunConservedFrom(Step(s, ops[0]).value, ops[1..], Plus(x, Effect(ops[0])));
    }
  }

  /** Global conservation, in every state any run reaches. */
  lemma RunConserved(authority: Pubkey, operator: Pubkey, offset: u8, ops: seq<Op>)
    requires Run(Initial(authority, operator, offset), ops).Ok?
    ensures Conserved(Run(Initial(authority, operator, offset), ops).value, Effects(ops))
  {
    InitialConserved(authority, operator, offset);
    RunConservedFrom(Initial(authority, operator, offset), ops, NOTHING);
  }
}
