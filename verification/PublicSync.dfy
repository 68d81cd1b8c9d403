/** The stored-balance vault (SVS-2) against the live-balance vault (SVS-1).

    A stored vault that syncs after every outside transfer does, step by step, what the live
    vault does. One that never syncs behaves as if the transfers had not happened.
 */
module PublicSync {
  import opened Common
  import opened Conversion
  import opened PublicLedger
  import PublicPricing

  /** The live vault over the accounts of `s`. */
  function AsLive(s: State): State {
    s.(config := s.config.(model := Live), recorded := 0)
  }

  function LiveCommit(r: Result<Commit>): Result<Commit> {
    match r
    case Ok(c) => Ok(Commit(AsLive(c.state), c.assets, c.shares))
    case Err(e) => Err(e)
  }

  predicate Synced(s: State) {
    s.config.model.Stored? && s.recorded == s.balance
  }

  /** The amounts the exchanges of a run reported, in order. */
  function Receipts(s: State, ops: seq<Op>): seq<(u64, u64)>
    requires Run(s, ops).Ok?
    decreases |ops|
  {
    if ops == [] then []
    else
      var c := Step(s, ops[0]).value;
      (if PublicPricing.Exchange(ops[0]) then [(c.assets, c.shares)] else []) + Receipts(c.state, ops[1..])
  }

  // ---------------------------------------------------------------- synced

  lemma EnterSynced(s: State, user: Pubkey, assets: u64, shares: u64)
    requires Synced(s)
    ensures Enter(AsLive(s), user, assets, shares) == LiveCommit(Enter(s, user, assets, shares))
    ensures Enter(s, user, assets, shares).Ok? ==> Synced(Enter(s, user, assets, shares).value.state)
  {}

  lemma LeaveSynced(s: State, user: Pubkey, assets: u64, shares: u64)
    requires Synced(s)
    ensures Leave(AsLive(s), user, assets, shares) == LiveCommit(Leave(s, user, assets, shares))
    ensures Leave(s, user, assets, shares).Ok? ==> Synced(Leave(s, user, assets, shares).value.state)
  {}

  /** Every instruction succeeds on both vaults or fails on both with the same error, exchanges
      the same amounts and leaves the accounts alike. */
  lemma SyncedStep(s: State, op: Op)
    requires Synced(s) && !op.SyncOp? && !op.DonateOp?
    ensures Step(AsLive(s), op) == LiveCommit(Step(s, op))
    ensures Step(s, op).Ok? ==> Synced(Step(s, op).value.state) && Step(s, op).value.state.config.authority == s.config.authority
  {
    match op
    case DepositOp(user, assets, _) =>
      var shares := ToShares(s, assets, Floor);
      if shares.Ok? { EnterSynced(s, user, assets, shares.value); }
    case MintOp(user, shares, _) =>
      var assets := ToAssets(s, shares, Ceiling);
      if assets.Ok? { EnterSynced(s, user, assets.value, shares); }
    case WithdrawOp(user, assets, _) =>
      var shares := ToShares(s, assets, Ceiling);
      if shares.Ok? { LeaveSynced(s, user, assets, shares.value); }
    case RedeemOp(user, shares, _) =>
      var assets := ToAssets(s, shares, Floor);
      if assets.Ok? { LeaveSynced(s, user, assets.value, shares); }
    case _ =>
  }

  lemma SyncedDonation(s: State, amount: u64)
    requires Synced(s)
    ensures Donate(AsLive(s), amount).Ok? <==> Donate(s, amount).Ok?
    ensures Donate(s, amount).Ok? ==>
              var synced := Sync(Donate(s, amount).value.state, s.config.authority);
              && synced.Ok? && Synced(synced.value.state)
              && synced.value.state.config == s.config
              && Donate(AsLive(s), amount).value.state == AsLive(synced.value.state)
  {}

  /** The operator's discipline: a sync directly after every donation. */
  function WithSyncs(ops: seq<Op>, authority: Pubkey): seq<Op> {
    if ops == [] then []
    else if ops[0].DonateOp? then [ops[0], SyncOp(authority)] + WithSyncs(ops[1..], authority)
    else [ops[0]] + WithSyncs(ops[1..], authority)
  }

  lemma {:induction false} RunCons(s: State, op: Op, ops: seq<Op>)
    ensures Run(s, [op] + ops) == (match Step(s, op) case Ok(c) => Run(c.state, ops) case Err(e) => Err(e))
    ensures Run(s, [op] + ops).Ok? ==>
              var c := Step(s, op).value;
              Receipts(s, [op] + ops) == (if PublicPricing.Exchange(op) then [(c.assets, c.shares)] else []) + Receipts(c.state, ops)
  {
    assert ([op] + ops)[1..] == ops;
  }

  lemma {:induction false} SyncedRun(s: State, ops: seq<Op>)
    requires Synced(s) && forall op | op in ops :: !op.SyncOp?
    ensures var synced := WithSyncs(ops, s.config.authority);
            && (Run(AsLive(s), ops).Ok? <==> Run(s, synced).Ok?)
            && (Run(s, synced).Ok? ==>
                  && Run(AsLive(s), ops).value == AsLive(Run(s, synced).value)
                  && Receipts(AsLive(s), ops) == Receipts(s, synced))
    decreases |ops|
  {
    if ops != [] {
      var op, rest, authority := ops[0], ops[1..], s.config.authority;
      assert op in ops;
      assert ops == [op] + rest;
      RunCons(AsLive(s), op, rest);
      if op.DonateOp? {
        SyncedDonation(s, op.amount);
        var tail := WithSyncs(rest, authority);
        assert WithSyncs(ops, authority) == [op] + ([SyncOp(authority)] + tail);
        RunCons(s, op, [SyncOp(authority)] + tail);
        if Step(s, op).Ok? {
          var donated := Step(s, op).value.state;
          RunCons(donated, SyncOp(authority), tail);
          SyncedRun(Step(donated, SyncOp(authority)).value.state, rest);
        }
      } else {
        SyncedStep(s, op);
        RunCons(s, op, WithSyncs(rest, authority));
        if Step(s, op).Ok? {
          SyncedRun(Step(s, op).value.state, rest);
        }
      }
    }
  }

  // ---------------------------------------------------------------- never synced

  function WithoutDonations(ops: seq<Op>): seq<Op> {
    if ops == [] then []
    else if ops[0].DonateOp? then WithoutDonations(ops[1..])
    else [ops[0]] + WithoutDonations(ops[1..])
  }

  /** `b` is `s` with some unrecorded assets taken away. */
  predicate Leaner(b: State, s: State) {
    s.config.model.Stored? && s.recorded <= b.balance <= s.balance && b == s.(balance := b.balance)
  }

  /** `c` and `d` commit the same exchange, and differ in balance by `surplus`. */
  predicate SameExchange(c: Result<Commit>, d: Commit, surplus: int) {
    && c.Ok? && Leaner(c.value.state, d.state)
    && c.value.assets == d.assets && c.value.shares == d.shares
    && d.state.balance - c.value.state.balance == surplus
  }

  /** The step from `s` and the step from `b` do the same: both commit the same exchange, or both
      fail with the same error, unless `entering` assets fit only the smaller balance. */
  predicate SameStep(rb: Result<Commit>, rs: Result<Commit>, s: State, b: State, entering: bool) {
    && (rs.Ok? <==> rb.Ok? && (entering ==> s.balance + rb.value.assets <= U64_MAX))
    && (rs.Ok? ==> SameExchange(rb, rs.value, s.balance - b.balance))
    && (rs.Err? && rb.Err? ==> rs.error == rb.error)
  }

  lemma EnterLeaner(b: State, s: State, user: Pubkey, assets: u64, shares: u64)
    requires Leaner(b, s)
    ensures SameStep(Enter(b, user, assets, shares), Enter(s, user, assets, shares), s, b, true)
  {}

  lemma LeaveLeaner(b: State, s: State, user: Pubkey, assets: u64, shares: u64)
    requires Leaner(b, s) && assets <= s.recorded
    ensures SameStep(Leave(b, user, assets, shares), Leave(s, user, assets, shares), s, b, false)
  {}

  lemma UnsyncedEntry(b: State, s: State, op: Op)
    requires Leaner(b, s) && (op.DepositOp? || op.MintOp?)
    ensures SameStep(Step(b, op), Step(s, op), s, b, true)
  {
    if op.DepositOp? {
      var shares := ToShares(s, op.assets, Floor);
      if shares.Ok? { EnterLeaner(b, s, op.user, op.assets, shares.value); }
    } else {
      var assets := ToAssets(s, op.shares, Ceiling);
      if assets.Ok? { EnterLeaner(b, s, op.user, assets.value, op.shares); }
    }
  }

  lemma UnsyncedExit(b: State, s: State, op: Op)
    requires Leaner(b, s) && (op.WithdrawOp? || op.RedeemOp?)
    ensures SameStep(Step(b, op), Step(s, op), s, b, false)
  {
    if op.WithdrawOp? {
      var shares := ToShares(s, op.assets, Ceiling);
      if shares.Ok? && op.assets <= s.recorded { LeaveLeaner(b, s, op.user, op.assets, shares.value); }
    } else {
      var assets := ToAssets(s, op.shares, Floor);
      if assets.Ok? && assets.value <= s.recorded { LeaveLeaner(b, s, op.user, assets.value, op.shares); }
    }
  }

  lemma UnsyncedStep(b: State, s: State, op: Op)
    requires Leaner(b, s) && !op.SyncOp? && !op.DonateOp?
    ensures SameStep(Step(b, op), Step(s, op), s, b, op.DepositOp? || op.MintOp?)
  {
    if op.DepositOp? || op.MintOp? {
      UnsyncedEntry(b, s, op);
    } else if op.WithdrawOp? || op.RedeemOp? {
      UnsyncedExit(b, s, op);
    }
  }

  /** Erasing the donations from a run without syncs changes no share and no payout, only the
      unrecorded balance. */
  lemma {:induction false} UnsyncedRun(b: State, s: State, ops: seq<Op>)
    requires Leaner(b, s) && Run(s, ops).Ok? && forall op | op in ops :: !op.SyncOp?
    ensures Run(b, WithoutDonations(ops)).Ok?
    ensures var c, d := Run(b, WithoutDonations(ops)).value, Run(s, ops).value;
            && Leaner(c, d) && Receipts(b, WithoutDonations(ops)) == Receipts(s, ops)
            && d.balance - c.balance == s.balance - b.balance + RunFlow(s, ops).donated
    decreases |ops|
  {
    if ops != [] {
      var op, rest := ops[0], ops[1..];
      assert op in ops;
      if op.DonateOp? {
        UnsyncedRun(b, Step(s, op).value.state, rest);
      } else {
        UnsyncedStep(b, s, op);
        UnsyncedRun(Step(b, op).value.state, Step(s, op).value.state, rest);
        RunCons(b, op, WithoutDonations(rest));
      }
    }
  }
}
