/** Who may leave the SVS-10 protocol, when, and with how much. */
module AsyncSettlement {
  import opened Common
  import Sums
  import opened AsyncLedger
  import opened AsyncConservation

  // ---------------------------------------------------------------- exits

  /** In a reachable state a deposit can be cancelled exactly when the vault is not paused and
      the request is still pending (and, under a deadline, at least one second old). */
  lemma CancelDepositEnabled(s: State, user: Pubkey, now: i64, x: External)
    requires Conserved(s, x)
    ensures CancelDeposit(s, user, now).Ok? <==>
              !s.config.paused && user in s.deposits && s.deposits[user].status.Pending?
              && (s.config.cancelAfter > 0 ==> now > s.deposits[user].requestedAt)
    ensures CancelDeposit(s, user, now).Ok? ==>
              CancelDeposit(s, user, now).value.assetVault == s.assetVault - s.deposits[user].assetsLocked
  {
    if user in s.deposits {
      DepositsStep(s.deposits, user, s.deposits[user]);
    }
  }

  lemma CancelRedeemEnabled(s: State, user: Pubkey, x: External)
    requires Conserved(s, x)
    ensures CancelRedeem(s, user).Ok? <==> !s.config.paused && user in s.redeems && s.redeems[user].status.Pending?
    ensures CancelRedeem(s, user).Ok? ==>
              Get(CancelRedeem(s, user).value.holdings, user) == Get(s.holdings, user) + s.redeems[user].sharesLocked
  {
    if user in s.redeems {
      RedeemsStep(s.redeems, user, s.redeems[user]);
      Sums.HoldingsStep(s.holdings, user, 0);
    }
  }

  /** A fulfilled redeem can be claimed, paused or not, by whoever has authority over it, exactly
      while neither its owner nor its receiver belongs to a program and its claimable account holds nothing but what is
      claimed: the program closes the account after paying, and the token program closes no account
      that still holds tokens. */
  lemma ClaimRedeemEnabled(s: State, claimant: Pubkey, owner: Pubkey, x: External)
    requires Conserved(s, x)
    ensures ClaimRedeem(s, claimant, owner).Ok? <==>
              owner in s.redeems && s.redeems[owner].status.Fulfilled?
              && (claimant == s.redeems[owner].receiver || ApprovalOf(s, owner, claimant).canClaim)
              && owner !in s.programOwned && s.redeems[owner].receiver !in s.programOwned
              && s.claimable[owner] == s.redeems[owner].assetsClaimable
  {}

  lemma ClaimDepositEnabled(s: State, claimant: Pubkey, owner: Pubkey, x: External)
    requires Conserved(s, x)
    ensures ClaimDeposit(s, claimant, owner).Ok? <==>
              owner in s.deposits && s.deposits[owner].status.Fulfilled?
              && (claimant == s.deposits[owner].receiver || ApprovalOf(s, owner, claimant).canClaim)
              && owner !in s.programOwned && s.deposits[owner].receiver !in s.programOwned
              && s.totalShares + s.deposits[owner].sharesClaimable <= U64_MAX
  {
    if owner in s.deposits {
      DepositsStep(s.deposits, owner, s.deposits[owner]);
      Sums.HoldingsStep(s.holdings, s.deposits[owner].receiver, 0);
    }
  }

  // ---------------------------------------------------------------- an account that was sent too much

  /** The account of a fulfilled redeem has been sent more than what is claimed. */
  predicate Overfunded(s: State, o: Pubkey) {
    o in s.redeems && s.redeems[o].status.Fulfilled? && o in s.claimable && s.redeems[o].assetsClaimable < s.claimable[o]
  }

  /** Nobody can then claim it, and its owner cannot request another redeem. */
  lemma OverfundedRefused(s: State, o: Pubkey, claimant: Pubkey, shares: u64, receiver: Pubkey, now: i64)
    requires Overfunded(s, o)
    ensures ClaimRedeem(s, claimant, o).Err? && CancelRedeem(s, o).Err?
    ensures RequestRedeem(s, o, shares, receiver, now).Err?
  {}

  lemma OverfundedStep(s: State, op: Op, o: Pubkey)
    requires Overfunded(s, o) && Step(s, op).Ok?
    ensures Overfunded(Step(s, op).value, o) && Step(s, op).value.redeems[o] == s.redeems[o]
    ensures !(op.ClaimRedeemOp? && op.owner == o)
  {
    if DepositSide(op) {
      DepositStepFrame(s, op);
    }
  }

  /** And so for good: no run takes anything out of such an account or settles its request. */
  lemma {:induction false} OverfundedForever(s: State, ops: seq<Op>, o: Pubkey)
    requires Overfunded(s, o) && Run(s, ops).Ok?
    ensures Overfunded(Run(s, ops).value, o) && Run(s, ops).value.redeems[o] == s.redeems[o]
    ensures forall op | op in ops :: !(op.ClaimRedeemOp? && op.owner == o)
    decreases |ops|
  {
    if ops != [] {
      OverfundedStep(s, ops[0], o);
      OverfundedForever(Step(s, ops[0]).value, ops[1..], o);
      assert forall op | op in ops :: op == ops[0] || op in ops[1..];
    }
  }

  // ---------------------------------------------------------------- an address that belongs to a program

  /** A fulfilled deposit of owner `o` whose owner or receiver is `a`, an address of a program. */
  predicate ProgramDeposit(s: State, o: Pubkey, a: Pubkey) {
    o in s.deposits && s.deposits[o].status.Fulfilled? && (a == o || a == s.deposits[o].receiver) && a in s.programOwned
  }

  predicate ProgramRedeem(s: State, o: Pubkey, a: Pubkey) {
    o in s.redeems && s.redeems[o].status.Fulfilled? && (a == o || a == s.redeems[o].receiver) && a in s.programOwned
  }

  /** A request may name any receiver and be fulfilled, but a claim wants one of the system's. Until then
      nobody can claim or cancel it, and its owner cannot make another. */
  lemma ProgramRefused(s: State, o: Pubkey, a: Pubkey, claimant: Pubkey, amount: u64, receiver: Pubkey, now: i64)
    ensures ProgramDeposit(s, o, a) ==>
              ClaimDeposit(s, claimant, o).Err? && CancelDeposit(s, o, now).Err? && RequestDeposit(s, o, amount, receiver, now).Err?
    ensures ProgramRedeem(s, o, a) ==>
              ClaimRedeem(s, claimant, o).Err? && CancelRedeem(s, o).Err? && RequestRedeem(s, o, amount, receiver, now).Err?
  {}

  /** `a` is returned to the system. */
  predicate Returns(op: Op, a: Pubkey) {
    op.ReassignOp? && op.account == a && !op.toProgram
  }

  lemma OwnershipStep(s: State, op: Op, a: Pubkey)
    requires Step(s, op).Ok? && a in s.programOwned && !Returns(op, a)
    ensures a in Step(s, op).value.programOwned
  {}

  lemma ProgramDepositStep(s: State, op: Op, o: Pubkey, a: Pubkey)
    requires ProgramDeposit(s, o, a) && Step(s, op).Ok? && !Returns(op, a)
    ensures ProgramDeposit(Step(s, op).value, o, a) && Step(s, op).value.deposits[o] == s.deposits[o]
    ensures !(op.ClaimDepositOp? && op.owner == o)
  {
    OwnershipStep(s, op, a);
    if RedeemSide(op) {
      RedeemStepFrame(s, op);
    }
  }

  lemma ProgramRedeemStep(s: State, op: Op, o: Pubkey, a: Pubkey)
    requires ProgramRedeem(s, o, a) && Step(s, op).Ok? && !Returns(op, a)
    ensures ProgramRedeem(Step(s, op).value, o, a) && Step(s, op).value.redeems[o] == s.redeems[o]
    ensures !(op.ClaimRedeemOp? && op.owner == o)
  {
    OwnershipStep(s, op, a);
    if DepositSide(op) {
      DepositStepFrame(s, op);
    }
  }

  /** Over any run the shares of such a deposit are never claimed while the address belongs to a program,
      which a vault's own address does for good. */
  lemma {:induction false} ProgramDepositStays(s: State, ops: seq<Op>, o: Pubkey, a: Pubkey)
    requires ProgramDeposit(s, o, a) && Run(s, ops).Ok? && forall op | op in ops :: !Returns(op, a)
    ensures ProgramDeposit(Run(s, ops).value, o, a) && Run(s, ops).value.deposits[o] == s.deposits[o]
    ensures forall op | op in ops :: !(op.ClaimDepositOp? && op.owner == o)
    decreases |ops|
  {
    if ops != [] {
      assert ops[0] in ops;
      ProgramDepositStep(s, ops[0], o, a);
      ProgramDepositStays(Step(s, ops[0]).value, ops[1..], o, a);
      assert forall op | op in ops :: op == ops[0] || op in ops[1..];
    }
  }

  /** Nor are the assets of such a redeem. */
  lemma {:induction false} ProgramRedeemStays(s: State, ops: seq<Op>, o: Pubkey, a: Pubkey)
    requires ProgramRedeem(s, o, a) && Run(s, ops).Ok? && forall op | op in ops :: !Returns(op, a)
    ensures ProgramRedeem(Run(s, ops).value, o, a) && Run(s, ops).value.redeems[o] == s.redeems[o]
    ensures forall op | op in ops :: !(op.ClaimRedeemOp? && op.owner == o)
    decreases |ops|
  {
    if ops != [] {
      assert ops[0] in ops;
      ProgramRedeemStep(s, ops[0], o, a);
      ProgramRedeemStays(Step(s, ops[0]).value, ops[1..], o, a);
      assert forall op | op in ops :: op == ops[0] || op in ops[1..];
    }
  }

  // ---------------------------------------------------------------- expiry

  predicate Expired(s: State, requestedAt: i64, now: i64) {
    s.config.cancelAfter > 0 && requestedAt + s.config.cancelAfter <= now
  }

  lemma ExpiredNeverFulfilled(s: State, caller: Pubkey, owner: Pubkey, oracle: Option<u64>, bound: u64, now: i64)
    ensures owner in s.deposits && Expired(s, s.deposits[owner].requestedAt, now) ==>
              FulfillDeposit(s, caller, owner, oracle, bound, now).Err?
    ensures owner in s.redeems && Expired(s, s.redeems[owner].requestedAt, now) ==>
              FulfillRedeem(s, caller, owner, oracle, bound, now).Err?
  {
    if owner in s.deposits && Expired(s, s.deposits[owner].requestedAt, now) {
      assert CheckDeadline(s.config.cancelAfter, s.deposits[owner].requestedAt, now) == Refuse(RequestExpired);
    }
    if owner in s.redeems && Expired(s, s.redeems[owner].requestedAt, now) {
      assert CheckDeadline(s.config.cancelAfter, s.redeems[owner].requestedAt, now) == Refuse(RequestExpired);
    }
  }

  /** The documented escape hatch (an expired request can be cancelled, paused or not) holds of
      the code exactly while the vault is not paused. */
  lemma ExpiredCancelIffUnpaused(s: State, user: Pubkey, now: i64, x: External)
    requires Conserved(s, x)
    ensures user in s.deposits && s.deposits[user].status.Pending? && Expired(s, s.deposits[user].requestedAt, now) ==>
              (CancelDeposit(s, user, now).Ok? <==> !s.config.paused)
    ensures user in s.redeems && s.redeems[user].status.Pending? && Expired(s, s.redeems[user].requestedAt, now) ==>
              (CancelRedeem(s, user).Ok? <==> !s.config.paused)
  {
    CancelDepositEnabled(s, user, now, x);
    CancelRedeemEnabled(s, user, x);
  }

  /** A reachable state in which an expired deposit can neither be fulfilled, by anyone at any price
      and time, nor cancelled. */
  lemma ExpiredButPaused(authority: Pubkey, operator: Pubkey, user: Pubkey)
    ensures var ops := [ConfigureOp(authority, CancelAfter(2)), RequestDepositOp(user, 1000, user, 100), ConfigureOp(authority, Pause)];
            Run(Initial(authority, operator, 3), ops).Ok?
            && var s := Run(Initial(authority, operator, 3), ops).value;
            user in s.deposits && s.deposits[user].status.Pending?
            && (forall now: i64 | 102 <= now :: Expired(s, s.deposits[user].requestedAt, now) && CancelDeposit(s, user, now) == Err(VaultPaused))
            && (forall caller, oracle, bound, now: i64 | 102 <= now :: FulfillDeposit(s, caller, user, oracle, bound, now).Err?)
  {
    var s0 := Initial(authority, operator, 3);
    var op0, op1, op2 := ConfigureOp(authority, CancelAfter(2)), RequestDepositOp(user, 1000, user, 100), ConfigureOp(authority, Pause);
    var s1 := Step(s0, op0).value;
    var s2 := Step(s1, op1).value;
    var s3 := Step(s2, op2).value;
    RunCons(s2, op2, []);
    RunCons(s1, op1, [op2]);
    RunCons(s0, op0, [op1, op2]);
    assert [op0] + [op1, op2] == [op0, op1, op2] && [op1] + [op2] == [op1, op2] && [op2] + [] == [op2];
    assert s3.deposits[user].requestedAt == 100 && s3.config.cancelAfter == 2 && s3.config.paused;
  }

  lemma RunCons(s: State, op: Op, ops: seq<Op>)
    requires Step(s, op).Ok?
    ensures Run(s, [op] + ops) == Run(Step(s, op).value, ops)
  {
    assert ([op] + ops)[1..] == ops;
  }

  /** Nobody moves the deadline period, and `o`'s requests are only offered for fulfilment
      from `deadline` on. */
  predicate PastDeadline(ops: seq<Op>, o: Pubkey, deadline: int) {
    forall op | op in ops ::
      && !(op.ConfigureOp? && op.setting.CancelAfter?)
      && (op.FulfillDepositOp? && op.owner == o ==> deadline <= op.now)
      && (op.FulfillRedeemOp? && op.owner == o ==> deadline <= op.now)
  }

  lemma DepositStepKeeps(s: State, op: Op, o: Pubkey)
    requires DepositSide(op) && DepositStep(s, op).Ok?
    ensures var t := DepositStep(s, op).value;
            && t.config == s.config
            && (o in s.redeems ==> o in t.redeems && t.redeems[o] == s.redeems[o])
            && (o in s.deposits && s.deposits[o].status.Pending? && !(op.CancelDepositOp? && op.user == o)
                && (op.FulfillDepositOp? && op.owner == o ==> Expired(s, s.deposits[o].requestedAt, op.now)) ==>
                  o in t.deposits && t.deposits[o] == s.deposits[o])
  {
    if op.FulfillDepositOp? {
      ExpiredNeverFulfilled(s, op.caller, op.owner, op.oraclePrice, op.maxPrice, op.now);
    }
  }

  lemma RedeemStepKeeps(s: State, op: Op, o: Pubkey)
    requires RedeemSide(op) && RedeemStep(s, op).Ok?
    ensures var t := RedeemStep(s, op).value;
            && t.config == s.config
            && (o in s.deposits ==> o in t.deposits && t.deposits[o] == s.deposits[o])
            && (o in s.redeems && s.redeems[o].status.Pending? && !(op.CancelRedeemOp? && op.user == o)
                && (op.FulfillRedeemOp? && op.owner == o ==> Expired(s, s.redeems[o].requestedAt, op.now)) ==>
                  o in t.redeems && t.redeems[o] == s.redeems[o])
  {
    if op.FulfillRedeemOp? {
      ExpiredNeverFulfilled(s, op.caller, op.owner, op.oraclePrice, op.minPrice, op.now);
    }
  }

  lemma OtherStepKeeps(s: State, op: Op, o: Pubkey)
    requires !DepositSide(op) && !RedeemSide(op) && OtherStep(s, op).Ok?
    ensures var t := OtherStep(s, op).value;
            && (!(op.ConfigureOp? && op.setting.CancelAfter?) ==> t.config.cancelAfter == s.config.cancelAfter)
            && (o in s.deposits ==> o in t.deposits && t.deposits[o] == s.deposits[o])
            && (o in s.redeems ==> o in t.redeems && t.redeems[o] == s.redeems[o])
  {}

  /** Once expired, a pending deposit leaves the protocol by its owner's cancellation or not at all. */
  lemma {:induction false} ExpiredDepositLeavesByCancel(s: State, ops: seq<Op>, o: Pubkey)
    requires Run(s, ops).Ok? && s.config.cancelAfter > 0
    requires o in s.deposits && s.deposits[o].status.Pending?
    requires PastDeadline(ops, o, s.deposits[o].requestedAt + s.config.cancelAfter)
    requires forall op | op in ops :: !(op.CancelDepositOp? && op.user == o)
    ensures o in Run(s, ops).value.deposits && Run(s, ops).value.deposits[o] == s.deposits[o]
    decreases |ops|
  {
    if ops != [] {
      assert ops[0] in ops;
      if DepositSide(ops[0]) {
        DepositStepKeeps(s, ops[0], o);
      } else if RedeemSide(ops[0]) {
        RedeemStepKeeps(s, ops[0], o);
      } else {
        OtherStepKeeps(s, ops[0], o);
      }
      ExpiredDepositLeavesByCancel(Step(s, ops[0]).value, ops[1..], o);
    }
  }

  /** The same of a pending redeem. */
  lemma {:induction false} ExpiredRedeemLeavesByCancel(s: State, ops: seq<Op>, o: Pubkey)
    requires Run(s, ops).Ok? && s.config.cancelAfter > 0
    requires o in s.redeems && s.redeems[o].status.Pending?
    requires PastDeadline(ops, o, s.redeems[o].requestedAt + s.config.cancelAfter)
    requires forall op | op in ops :: !(op.CancelRedeemOp? && op.user == o)
    ensures o in Run(s, ops).value.redeems && Run(s, ops).value.redeems[o] == s.redeems[o]
    decreases |ops|
  {
    if ops != [] {
      assert ops[0] in ops;
      if DepositSide(ops[0]) {
        DepositStepKeeps(s, ops[0], o);
      } else if RedeemSide(ops[0]) {
        RedeemStepKeeps(s, ops[0], o);
      } else {
        OtherStepKeeps(s, ops[0], o);
      }
      ExpiredRedeemLeavesByCancel(Step(s, ops[0]).value, ops[1..], o);
    }
  }

  // ---------------------------------------------------------------- settlement

  /** Where a deposit request's assets, or a redeem request's shares, went. */
  datatype Flow = Flow(requested: nat, returned: nat, settled: nat)

  function AddFlow(a: Flow, b: Flow): Flow {
    Flow(a.requested + b.requested, a.returned + b.returned, a.settled + b.settled)
  }

  function LockedAssets(s: State, o: Pubkey): nat {
    if o in s.deposits then s.deposits[o].assetsLocked else 0
  }

  function LockedShares(s: State, o: Pubkey): nat {
    if o in s.redeems then PendingShares(s.redeems[o]) else 0
  }

  function PromisedAssets(s: State, o: Pubkey): nat {
    if o in s.redeems then ClaimableAssets(s.redeems[o]) else 0
  }

  /** Assets requested by, returned to (cancel) and turned into shares of (claim) owner `o`. */
  function DepositFlow(s: State, op: Op, o: Pubkey): Flow {
    match op
    case RequestDepositOp(user, assets, _, _) => if user == o then Flow(assets, 0, 0) else Flow(0, 0, 0)
    case CancelDepositOp(user, _) => if user == o then Flow(0, LockedAssets(s, o), 0) else Flow(0, 0, 0)
    case ClaimDepositOp(_, owner) => if owner == o then Flow(0, 0, LockedAssets(s, o)) else Flow(0, 0, 0)
    case _ => Flow(0, 0, 0)
  }

  /** Shares escrowed by, returned to (cancel) and burned for (fulfil) owner `o`. */
  function ShareFlow(s: State, op: Op, o: Pubkey): Flow {
    match op
    case RequestRedeemOp(user, shares, _, _) => if user == o then Flow(shares, 0, 0) else Flow(0, 0, 0)
    case CancelRedeemOp(user) => if user == o then Flow(0, LockedShares(s, o), 0) else Flow(0, 0, 0)
    case FulfillRedeemOp(_, owner, _, _, _) => if owner == o then Flow(0, 0, LockedShares(s, o)) else Flow(0, 0, 0)
    case _ => Flow(0, 0, 0)
  }

  /** Assets promised to (fulfil) and paid out to the receiver of (claim) owner `o`. */
  function PayoutFlow(s: State, op: Op, o: Pubkey): Flow {
    match op
    case FulfillRedeemOp(caller, owner, oracle, minPrice, now) =>
      var quote := QuoteRedeem(s, caller, owner, oracle, minPrice, now);
      if owner == o && quote.Ok? then Flow(quote.value, 0, 0) else Flow(0, 0, 0)
    case ClaimRedeemOp(_, owner) => if owner == o then Flow(0, 0, PromisedAssets(s, o)) else Flow(0, 0, 0)
    case _ => Flow(0, 0, 0)
  }

  function TotalFlow(s: State, ops: seq<Op>, o: Pubkey, flow: (State, Op, Pubkey) -> Flow): Flow
    requires Run(s, ops).Ok?
    decreases |ops|
  {
    if ops == [] then Flow(0, 0, 0)
    else AddFlow(flow(s, ops[0], o), TotalFlow(Step(s, ops[0]).value, ops[1..], o, flow))
  }

  lemma {:induction false} DepositStepFrame(s: State, op: Op)
    requires DepositSide(op) && DepositStep(s, op).Ok?
    ensures DepositStep(s, op).value.redeems == s.redeems && DepositStep(s, op).value.claimable == s.claimable
  {}

  lemma {:induction false} RedeemStepFrame(s: State, op: Op)
    requires RedeemSide(op) && RedeemStep(s, op).Ok?
    ensures RedeemStep(s, op).value.deposits == s.deposits
  {}

  lemma OtherStepFrame(s: State, op: Op, o: Pubkey)
    requires !DepositSide(op) && !RedeemSide(op) && OtherStep(s, op).Ok?
    ensures var t := OtherStep(s, op).value;
            LockedAssets(t, o) == LockedAssets(s, o) && LockedShares(t, o) == LockedShares(s, o)
            && PromisedAssets(t, o) == PromisedAssets(s, o)
  {
    match op
    case ConfigureOp(_, _) =>
    case DelegateOp(_, _, _) =>
    case _ =>
  }

  lemma DepositFlowStep(s: State, op: Op, o: Pubkey)
    requires Step(s, op).Ok?
    ensures var f := DepositFlow(s, op, o);
            LockedAssets(s, o) + f.requested == LockedAssets(Step(s, op).value, o) + f.returned + f.settled
  {
    if !DepositSide(op) {
      if RedeemSide(op) { RedeemStepFrame(s, op); } else { OtherStepFrame(s, op, o); }
    }
  }

  lemma ShareFlowStep(s: State, op: Op, o: Pubkey)
    requires Step(s, op).Ok?
    ensures var f := ShareFlow(s, op, o);
            LockedShares(s, o) + f.requested == LockedShares(Step(s, op).value, o) + f.returned + f.settled
  {
    if !RedeemSide(op) {
      if DepositSide(op) { DepositStepFrame(s, op); } else { OtherStepFrame(s, op, o); }
    }
  }

  lemma PayoutFlowStep(s: State, op: Op, o: Pubkey)
    requires Step(s, op).Ok?
    ensures var f := PayoutFlow(s, op, o);
            PromisedAssets(s, o) + f.requested == PromisedAssets(Step(s, op).value, o) + f.returned + f.settled
  {
    if !RedeemSide(op) {
      if DepositSide(op) { DepositStepFrame(s, op); } else { OtherStepFrame(s, op, o); }
    }
  }

  lemma {:induction false} FlowsBalance(s: State, ops: seq<Op>, o: Pubkey, held: (State, Pubkey) -> nat, flow: (State, Op, Pubkey) -> Flow)
    requires Run(s, ops).Ok?
    requires forall a, op | Step(a, op).Ok? ::
               held(a, o) + flow(a, op, o).requested == held(Step(a, op).value, o) + flow(a, op, o).returned + flow(a, op, o).settled
    ensures var f := TotalFlow(s, ops, o, flow);
            held(s, o) + f.requested == held(Run(s, ops).value, o) + f.returned + f.settled
    decreases |ops|
  {
    if ops != [] {
      FlowsBalance(Step(s, ops[0]).value, ops[1..], o, held, flow);
    }
  }

  /** Every asset an owner requests to deposit leaves the request exactly once, returned by a
      cancellation or settled by a claim, and until then is still held for that owner. */
  lemma DepositsSettledOnce(s: State, ops: seq<Op>, o: Pubkey)
    requires Run(s, ops).Ok?
    ensures var f := TotalFlow(s, ops, o, DepositFlow);
            LockedAssets(s, o) + f.requested == LockedAssets(Run(s, ops).value, o) + f.returned + f.settled
  {
    forall a, op | Step(a, op).Ok?
      ensures LockedAssets(a, o) + DepositFlow(a, op, o).requested
              == LockedAssets(Step(a, op).value, o) + DepositFlow(a, op, o).returned + DepositFlow(a, op, o).settled
    {
      DepositFlowStep(a, op, o);
    }
    FlowsBalance(s, ops, o, LockedAssets, DepositFlow);
  }

  /** Every share an owner escrows is returned by a cancellation or burned by a fulfilment,
      once, and until then is still held for that owner. */
  lemma EscrowSettledOnce(s: State, ops: seq<Op>, o: Pubkey)
    requires Run(s, ops).Ok?
    ensures var f := TotalFlow(s, ops, o, ShareFlow);
            LockedShares(s, o) + f.requested == LockedShares(Run(s, ops).value, o) + f.returned + f.settled
  {
    forall a, op | Step(a, op).Ok?
      ensures LockedShares(a, o) + ShareFlow(a, op, o).requested
              == LockedShares(Step(a, op).value, o) + ShareFlow(a, op, o).returned + ShareFlow(a, op, o).settled
    {
      ShareFlowStep(a, op, o);
    }
    FlowsBalance(s, ops, o, LockedShares, ShareFlow);
  }

  /** Every asset a fulfilment promises an owner is paid out by a claim, once, and until then is
      still promised. */
  lemma PayoutsSettledOnce(s: State, ops: seq<Op>, o: Pubkey)
    requires Run(s, ops).Ok?
    ensures var f := TotalFlow(s, ops, o, PayoutFlow);
            PromisedAssets(s, o) + f.requested == PromisedAssets(Run(s, ops).value, o) + f.returned + f.settled
  {
    forall a, op | Step(a, op).Ok?
      ensures PromisedAssets(a, o) + PayoutFlow(a, op, o).requested
              == PromisedAssets(Step(a, op).value, o) + PayoutFlow(a, op, o).returned + PayoutFlow(a, op, o).settled
    {
      PayoutFlowStep(a, op, o);
    }
    FlowsBalance(s, ops, o, PromisedAssets, PayoutFlow);
  }
}
