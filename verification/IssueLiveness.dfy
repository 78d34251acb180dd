/**
 * Which calls go through. The accounting invariant makes the checked subtractions and
 * unlocks of the issue pallet succeed, so that a call fails only for the stated reasons.
 */
module IssueLiveness {
  import opened Wrappers
  import opened FixedPoint
  import opened IssueLedger
  import opened IssueProofs
  import opened IssueEffects
  import opened IssueHistory
  import opened IssueTheorems
  import opened Sums
  import opened Payments
  import A = Amounts
  import Fees
  import Floors
  import Stellar = StellarConversion

  /** The counter in which the tokens of `v` are booked. */
  function BookedTokens(c: Chain, v: VaultId): int {
    if IsLiquidated(c, v) then SystemVaultOf(c, v.pair).toBeIssued
    else if v in c.vaults then c.vaults[v].toBeIssued
    else 0
  }

  /** What a pending request will need is there: its collateral and its booked tokens. */
  lemma PendingIsCovered(c: Chain, f: Foreign, id: IssueId)
    requires Inv(c, f) && id in c.requests && c.requests[id].status.Pending?
    ensures Get(c.reserved, c.requests[id].requester) >= c.requests[id].griefing
    ensures c.requests[id].vault in c.vaults
    ensures Tokens(c.requests[id]) <= BookedTokens(c, c.requests[id].vault) <= U128_MAX
  {
    var r := c.requests[id];
    PendingCovered(c.requests, c.vaults, id);
    assert Get(f.toBeIssued, r.vault) >= 0 && Get(f.liquidated, r.vault.pair) >= 0 && Get(f.reserved, r.requester) >= 0;
  }

  lemma DecreaseSucceeds(c: Chain, v: VaultId, tokens: Balance)
    requires v in c.vaults
    ensures DecreaseToBeIssued(c, v, tokens).Ok? <==> tokens <= BookedTokens(c, v)
  {
  }

  lemma ReleaseSucceeds(c: Chain, env: Env, caller: AccountId, r: Request)
    requires Get(c.reserved, r.requester) >= r.griefing
    ensures ReleaseUnslashed(c, env, caller, r).Ok? <==>
              && r.opentime + PeriodOf(env, r) <= U32_MAX
              && (caller == r.requester || env.block > r.opentime + PeriodOf(env, r))
  {
    if env.block <= r.opentime + PeriodOf(env, r) {
      SlashedWithin(env, r);
    }
  }

  lemma SlashSucceeds(c: Chain, r: Request, slashed: Balance)
    requires Get(c.reserved, r.requester) >= slashed
    ensures SlashOrReturn(c, r, slashed).Ok?
  {
  }

  /**
   * Cancellation never gets stuck: a pending request can be cancelled by its requester at
   * any time and by anyone after the later of the two periods, and it fails only if the
   * expiry block itself does not fit a block number.
   */
  lemma CancelNeverStuck(c: Chain, f: Foreign, env: Env, caller: AccountId, id: IssueId)
    requires Inv(c, f) && id in c.requests && c.requests[id].status.Pending?
    ensures var r := c.requests[id];
            CancelIssue(c, env, caller, id).Ok? <==>
              && r.opentime + r.period <= U32_MAX && r.opentime + env.issuePeriod <= U32_MAX
              && (|| caller == r.requester
                  || (env.block > r.opentime + r.period && env.block > r.opentime + env.issuePeriod))
  {
    var r := c.requests[id];
    PendingIsCovered(c, f, id);
    ReleaseSucceeds(c, env, caller, r);
    var release := ReleaseUnslashed(c, env, caller, r);
    if release.Ok? {
      var (b, slashed) := release.value;
      ReleaseEffect(c, env, caller, r, b, slashed);
      SlashSucceeds(b, r, slashed);
      var paid := SlashOrReturn(b, r, slashed).value;
      assert paid.vaults == c.vaults && paid.liquidation == c.liquidation;
      DecreaseSucceeds(paid, r.vault, Tokens(r));
    }
  }

  /** After any run, every pending request can be cancelled by its requester. */
  lemma RequesterCanAlwaysCancel(free: map<AccountId, nat>, events: seq<Event>, env: Env, id: IssueId)
    requires id in Exec(free, events).chain.requests && Exec(free, events).chain.requests[id].status.Pending?
    ensures var c := Exec(free, events).chain;
            var r := c.requests[id];
            r.opentime + PeriodOf(env, r) <= U32_MAX ==> CancelIssue(c, env, r.requester, id).Ok?
  {
    var w := Exec(free, events);
    RunKeepsInv(free, events);
    CancelNeverStuck(w.chain, w.foreign, env, w.chain.requests[id].requester, id);
  }

  // ---------- Requesting

  /** Everything a request needs; the fee rate is at most one, as its setter enforces. */
  predicate MayRequest(c: Chain, env: Env, requester: AccountId, amount: Balance, v: VaultId) {
    && Stellar.IsCompatible(amount) && env.minimum <= amount
    && Accepting(c, v) && env.checksPass
    && env.inGriefingCurrency.Some? && Fees.FeeFits(env.inGriefingCurrency.value, env.griefingRate)
    && Fees.FeeOf(env.inGriefingCurrency.value, env.griefingRate) <= Get(c.free, requester)
    && env.issuable.Some? && amount <= env.issuable.value && c.vaults[v].toBeIssued + amount <= U128_MAX
    && Fees.FeeFits(amount, env.feeRate)
  }

  lemma FeeIff(x: Balance, w: CurrencyId, rate: Balance)
    ensures Fee(x, w, rate).Ok? <==> Fees.FeeFits(x, rate)
    ensures Fee(x, w, rate).Ok? ==> Fee(x, w, rate).value == Fees.FeeOf(x, rate)
  {
    Fees.IssueFeeIff(A.Amount(x, w), rate);
  }

  /** Exactly which requests are accepted. */
  lemma RequestIff(c: Chain, env: Env, id: IssueId, requester: AccountId, amount: Balance, v: VaultId)
    requires env.feeRate <= ACCURACY
    ensures RequestIssue(c, env, id, requester, amount, v).Ok? <==> MayRequest(c, env, requester, amount, v)
  {
    if env.inGriefingCurrency.Some? {
      FeeIff(env.inGriefingCurrency.value, v.pair.wrapped, env.griefingRate);
    }
    Fees.SplitIsExact(A.Amount(amount, v.pair.wrapped), env.feeRate);
  }

  // ---------- Executing

  /** The counter in which the issued tokens of `v` are booked. */
  function IssuedTokens(c: Chain, v: VaultId): int {
    if IsLiquidated(c, v) then SystemVaultOf(c, v.pair).issued
    else if v in c.vaults then c.vaults[v].issued
    else 0
  }

  function Supply(c: Chain, r: Request): int {
    Get(c.issuance, r.vault.pair.wrapped)
  }

  /** The issued counter of a vault is part of the supply of its wrapped currency. */
  lemma IssuedWithinSupply(c: Chain, f: Foreign, v: VaultId)
    requires Inv(c, f) && v in c.vaults
    ensures IssuedTokens(c, v) <= Get(c.issuance, v.pair.wrapped)
  {
    var w := v.pair.wrapped;
    SumCovers(IssuedMap(c.vaults, w), v);
    SumNonNegative(PoolMap(c.liquidation, w));
    if v.pair in c.liquidation {
      SumCovers(PoolMap(c.liquidation, w), v.pair);
    }
    assert IssuedIn(c, w) == Get(c.issuance, w);
  }

  lemma IssueTokensSucceeds(c: Chain, v: VaultId, tokens: Balance)
    requires v in c.vaults && tokens <= BookedTokens(c, v) && IssuedTokens(c, v) + tokens <= U128_MAX
    ensures IssueTokens(c, v, tokens).Ok?
  {
    DecreaseSucceeds(c, v, tokens);
  }

  lemma MintsSucceed(c: Chain, env: Env, issue: Request)
    requires Supply(c, issue) + Tokens(issue) <= U128_MAX
    ensures var w := issue.vault.pair.wrapped;
            var minted := MintTo(c, issue.requester, w, issue.amount);
            minted.Ok? && MintTo(minted.value, env.feePool, w, issue.fee).Ok?
  {
  }

  lemma IssueAndMintSucceeds(c: Chain, env: Env, id: IssueId, issue: Request)
    requires id in c.requests && issue.vault in c.vaults && Tokens(issue) <= BookedTokens(c, issue.vault) <= U128_MAX
    requires IssuedTokens(c, issue.vault) <= Supply(c, issue)
    ensures IssueAndMint(c, env, id, issue).Ok? <==> Supply(c, issue) + Tokens(issue) <= U128_MAX
  {
    if Supply(c, issue) + Tokens(issue) <= U128_MAX {
      IssueTokensSucceeds(c, issue.vault, Tokens(issue));
      var issued := IssueTokens(c, issue.vault, Tokens(issue)).value;
      IssueTokensBooks(c, issue.vault, Tokens(issue), issued);
      MintsSucceed(issued, env, issue);
    }
  }

  /** After a payment was handled, only the supply can stand in the way of minting. */
  lemma HandledMints(c: Chain, f: Foreign, env: Env, id: IssueId, r: Request, h: Chain, issue: Request, tokens: int)
    requires Inv(c, f) && issue == r.(amount := issue.amount, fee := issue.fee) && r.vault in c.vaults
    requires id in h.requests && Rebooked(c, h, r.vault, tokens) && h.issuance == c.issuance
    requires Tokens(issue) <= BookedTokens(c, r.vault) + tokens
    ensures IssueAndMint(h, env, id, issue).Ok? <==> Supply(c, r) + Tokens(issue) <= U128_MAX
  {
    IssuedWithinSupply(c, f, r.vault);
    RebookedCounters(c, h, r.vault, tokens);
    IssueAndMintSucceeds(h, env, id, issue);
  }

  lemma RebookedCounters(c: Chain, h: Chain, v: VaultId, tokens: int)
    requires Rebooked(c, h, v, tokens) && v in c.vaults
    ensures v in h.vaults && BookedTokens(h, v) == BookedTokens(c, v) + tokens
    ensures IssuedTokens(h, v) == IssuedTokens(c, v)
  {
  }

  /**
   * The fee of `x` can be computed at this rate and is at most `x`, which it always is at a
   * rate of at most one.
   */
  predicate FeeDefined(x: int, rate: Balance) {
    Fees.FeeFits(x, rate) && Fees.FeeOf(x, rate) <= x
  }

  lemma SetAmountSucceeds(c: Chain, env: Env, id: IssueId, r: Request, x: Balance)
    ensures SetIssueAmount(c, env, id, r, x).Ok? <==> FeeDefined(x, env.feeRate)
  {
    FeeIff(x, r.vault.pair.wrapped, env.feeRate);
  }

  /** A pending request executes exactly when the payment can be handled and the supply has room for it. */
  lemma PendingExecutes(c: Chain, f: Foreign, env: Env, tx: Transaction, executor: AccountId, id: IssueId,
                        paid: Balance)
    requires Inv(c, f) && id in c.requests && c.requests[id].status.Pending?
    requires PaidFor(env, tx, id, c.requests[id]) == Ok(paid)
    ensures var r := c.requests[id];
            Tokens(r) <= U128_MAX &&
            var handled := HandlePending(c, env, executor, id, r, paid, Tokens(r));
            ExecuteIssue(c, env, tx, executor, id).Ok? <==>
              handled.Ok? && Supply(c, r) + Tokens(handled.value.1) <= U128_MAX
  {
    var r := c.requests[id];
    PendingIsCovered(c, f, id);
    var handled := HandlePending(c, env, executor, id, r, paid, Tokens(r));
    if handled.Ok? {
      var (d, issue) := handled.value;
      HandlePendingEffect(c, env, executor, id, r, paid, d, issue);
      HandledMints(c, f, env, id, r, d, issue, Tokens(issue) - Tokens(r));
    }
  }

  /** An exact payment executes, by anyone, unless the supply itself would overflow. */
  lemma ExactPaymentExecutes(c: Chain, f: Foreign, env: Env, tx: Transaction, executor: AccountId, id: IssueId)
    requires Inv(c, f) && id in c.requests && c.requests[id].status.Pending?
    requires PaidFor(env, tx, id, c.requests[id]) == Ok(Tokens(c.requests[id]))
    ensures ExecuteIssue(c, env, tx, executor, id).Ok? <==>
              Supply(c, c.requests[id]) + Tokens(c.requests[id]) <= U128_MAX
  {
    var r := c.requests[id];
    PendingIsCovered(c, f, id);
    PendingExecutes(c, f, env, tx, executor, id, Tokens(r));
    assert HandlePending(c, env, executor, id, r, Tokens(r), Tokens(r)).Ok?;
  }

  // ---------- Underpaid

  predicate UnderpaidMayExecute(c: Chain, env: Env, executor: AccountId, r: Request, paid: Balance) {
    executor == r.requester && FeeDefined(paid, env.feeRate) && Supply(c, r) + paid <= U128_MAX
  }

  lemma DeficitSucceeds(c: Chain, r: Request, paid: Balance, expected: Balance)
    requires paid < expected <= BookedTokens(c, r.vault) && r.vault in c.vaults
    requires Get(c.reserved, r.requester) >= r.griefing
    ensures SlashForDeficit(c, r, paid, expected).Ok?
  {
    var release := ReleaseDefined(r.griefing, paid, expected);
    UnbookAndSlashSucceeds(c, r, expected - paid, release);
  }

  lemma UnbookAndSlashSucceeds(c: Chain, r: Request, tokens: Balance, release: Balance)
    requires tokens <= BookedTokens(c, r.vault) && r.vault in c.vaults
    requires Get(c.reserved, r.requester) >= r.griefing >= release
    ensures UnbookAndSlash(c, r, tokens, Ok(release)).Ok?
  {
    DecreaseSucceeds(c, r.vault, tokens);
    var b := DecreaseToBeIssued(c, r.vault, tokens).value;
    DecreaseBooks(c, r.vault, tokens, b);
    SlashPays(b, r, release);
  }

  lemma ReleaseDefined(griefing: Balance, paid: Balance, expected: Balance) returns (release: Balance)
    requires paid < expected
    ensures CalculateCollateral(griefing, paid, expected) == Ok(release) && release <= griefing
  {
    ProportionWithin(griefing, paid, expected);
    release := CalculateCollateral(griefing, paid, expected).value;
  }

  lemma SlashPays(c: Chain, r: Request, release: Balance)
    requires Get(c.reserved, r.requester) >= r.griefing >= release
    ensures SlashRest(c, r, release).Ok?
  {
  }

  /** An underpaid request executes for its requester alone, and unless the fee or the supply overflows. */
  lemma UnderpaidExecutes(c: Chain, f: Foreign, env: Env, tx: Transaction, executor: AccountId, id: IssueId,
                          paid: Balance)
    requires Inv(c, f) && id in c.requests && c.requests[id].status.Pending?
    requires PaidFor(env, tx, id, c.requests[id]) == Ok(paid) && paid < Tokens(c.requests[id])
    ensures ExecuteIssue(c, env, tx, executor, id).Ok? <==> UnderpaidMayExecute(c, env, executor, c.requests[id], paid)
  {
    var r := c.requests[id];
    PendingIsCovered(c, f, id);
    PendingExecutes(c, f, env, tx, executor, id, paid);
    DeficitHandled(c, env, executor, id, r, paid);
    var handled := HandlePending(c, env, executor, id, r, paid, Tokens(r));
    if handled.Ok? {
      HandlePendingEffect(c, env, executor, id, r, paid, handled.value.0, handled.value.1);
    }
  }

  lemma DeficitHandled(c: Chain, env: Env, executor: AccountId, id: IssueId, r: Request, paid: Balance)
    requires r.status.Pending? && r.vault in c.vaults && paid < Tokens(r) <= BookedTokens(c, r.vault) <= U128_MAX
    requires Get(c.reserved, r.requester) >= r.griefing
    ensures HandlePending(c, env, executor, id, r, paid, Tokens(r)).Ok? <==>
              executor == r.requester && FeeDefined(paid, env.feeRate)
  {
    DeficitSucceeds(c, r, paid, Tokens(r));
    var (b, release) := SlashForDeficit(c, r, paid, Tokens(r)).value;
    DeficitEffect(c, r, paid, b, release);
    SetAmountSucceeds(b, env, id, r, paid);
  }

  // ---------- Overpaid

  /** What a vault that is not liquidated reports to be able to issue on top. */
  function Allowed(c: Chain, env: Env, v: VaultId): Balance {
    if Accepting(c, v) && env.issuable.Some? then env.issuable.value else 0
  }

  /** The part of the surplus that is tried. */
  function Extra(c: Chain, env: Env, r: Request, paid: Balance): int {
    if paid - Tokens(r) <= Allowed(c, env, r.vault) then paid - Tokens(r) else Allowed(c, env, r.vault)
  }

  /** An active vault answers with an amount that can be compared with the surplus. */
  predicate Comparable(c: Chain, env: Env, v: VaultId) {
    if Accepting(c, v) then env.issuable.Some? else v.pair.collateral == v.pair.wrapped
  }

  /** An active vault takes the surplus on: it knows its limit and its counter has room. */
  predicate TakesOn(c: Chain, env: Env, r: Request, paid: Balance) {
    env.issuable.Some? && BookedTokens(c, r.vault) + Extra(c, env, r, paid) <= U128_MAX
  }

  /** The amount an overpaid request is raised to. */
  function Raised(c: Chain, env: Env, r: Request, paid: Balance): int {
    if !IsLiquidated(c, r.vault) && TakesOn(c, env, r, paid) then Tokens(r) + Extra(c, env, r, paid) else Tokens(r)
  }

  predicate OverpaidHandled(c: Chain, env: Env, r: Request, paid: Balance) {
    || IsLiquidated(c, r.vault)
    || (&& Comparable(c, env, r.vault)
        && (TakesOn(c, env, r, paid) ==> FeeDefined(Raised(c, env, r, paid), env.feeRate)))
  }

  predicate OverpaidMayExecute(c: Chain, env: Env, r: Request, paid: Balance) {
    OverpaidHandled(c, env, r, paid) && Supply(c, r) + Raised(c, env, r, paid) <= U128_MAX
  }

  lemma RaiseSucceeds(c: Chain, env: Env, id: IssueId, r: Request, extra: Balance)
    requires id in c.requests && r == c.requests[id] && Tokens(r) + extra <= U128_MAX
    ensures var taken := TryIncreaseToBeIssued(c, env, r.vault, extra).Ok?;
            var raised := RaiseBy(c, env, id, r, Tokens(r), extra);
            && (raised.Ok? <==> (taken ==> FeeDefined(Tokens(r) + extra, env.feeRate)))
            && (raised.Ok? ==> Tokens(raised.value.1) == Tokens(r) + if taken then extra else 0)
  {
    var attempt := TryIncreaseToBeIssued(c, env, r.vault, extra);
    if attempt.Ok? {
      SetAmountSucceeds(attempt.value, env, id, r, Tokens(r) + extra);
    }
    var raised := RaiseBy(c, env, id, r, Tokens(r), extra);
    if raised.Ok? {
      RaiseEffect(c, env, id, r, extra, raised.value.0, raised.value.1);
    }
  }

  /** A surplus is taken up as far as an active vault can still issue, or not at all if its counter has no room. */
  lemma SurplusTaken(c: Chain, env: Env, id: IssueId, r: Request, paid: Balance)
    requires id in c.requests && r == c.requests[id] && r.vault in c.vaults && !IsLiquidated(c, r.vault)
    requires Tokens(r) < paid
    ensures var raised := TryIncreaseIssueAmount(c, env, id, r, paid, Tokens(r));
            && (raised.Ok? <==> OverpaidHandled(c, env, r, paid))
            && (raised.Ok? ==> Tokens(raised.value.1) == Raised(c, env, r, paid))
  {
    if Comparable(c, env, r.vault) {
      var extra: Balance := Extra(c, env, r, paid);
      assert TryIncreaseIssueAmount(c, env, id, r, paid, Tokens(r)) == RaiseBy(c, env, id, r, Tokens(r), extra);
      assert TryIncreaseToBeIssued(c, env, r.vault, extra).Ok? <==> TakesOn(c, env, r, paid);
      RaiseSucceeds(c, env, id, r, extra);
    }
  }

  /**
   * A surplus does not always help. An overpaid pending request executes if and only if the
   * supply has room and its vault is liquidated, or gives a limit in the wrapped currency
   * and the fee of the amount it is raised to can be computed. For an active vault that
   * stopped accepting issues the limit is in the wrong currency and the call errs, although
   * the payment covers the request; for a large enough surplus the fee overflows.
   */
  lemma OverpaidExecutes(c: Chain, f: Foreign, env: Env, tx: Transaction, executor: AccountId, id: IssueId,
                         paid: Balance)
    requires Inv(c, f) && id in c.requests && c.requests[id].status.Pending?
    requires PaidFor(env, tx, id, c.requests[id]) == Ok(paid) && paid > Tokens(c.requests[id])
    ensures ExecuteIssue(c, env, tx, executor, id).Ok? <==> OverpaidMayExecute(c, env, c.requests[id], paid)
  {
    var r := c.requests[id];
    PendingIsCovered(c, f, id);
    PendingExecutes(c, f, env, tx, executor, id, paid);
    SurplusUnlocks(c, env, executor, id, r, paid);
  }

  /** Once the surplus is dealt with, the collateral can be unlocked. */
  lemma SurplusUnlocks(c: Chain, env: Env, executor: AccountId, id: IssueId, r: Request, paid: Balance)
    requires id in c.requests && r == c.requests[id] && r.vault in c.vaults
    requires Tokens(r) < paid && Get(c.reserved, r.requester) >= r.griefing
    ensures var handled := HandlePending(c, env, executor, id, r, paid, Tokens(r));
            && (handled.Ok? <==> OverpaidHandled(c, env, r, paid))
            && (handled.Ok? ==> Tokens(handled.value.1) == Raised(c, env, r, paid))
  {
    if !IsLiquidated(c, r.vault) {
      SurplusTaken(c, env, id, r, paid);
      var raised := TryIncreaseIssueAmount(c, env, id, r, paid, Tokens(r));
      if raised.Ok? {
        OverpaidEffect(c, env, id, r, paid, raised.value.0, raised.value.1);
        assert Get(raised.value.0.reserved, r.requester) == Get(c.reserved, r.requester);
      }
    }
  }

  /** The error of the refused overpayments on a vault that stopped accepting issues. */
  lemma OverpaymentRefused(c: Chain, f: Foreign, env: Env, tx: Transaction, executor: AccountId, id: IssueId,
                           paid: Balance)
    requires Inv(c, f) && id in c.requests && c.requests[id].status.Pending?
    requires PaidFor(env, tx, id, c.requests[id]) == Ok(paid) && paid > Tokens(c.requests[id])
    requires c.requests[id].vault in c.vaults && c.vaults[c.requests[id].vault].status == Active(false)
    requires c.requests[id].vault.pair.collateral != c.requests[id].vault.pair.wrapped
    ensures ExecuteIssue(c, env, tx, executor, id) == Err(InvalidCurrency)
  {
    PendingIsCovered(c, f, id);
    var r := c.requests[id];
    assert TryIncreaseIssueAmount(c, env, id, r, paid, Tokens(r)) == Err(InvalidCurrency);
  }

  // ---------- After cancellation

  predicate CancelledMayExecute(c: Chain, env: Env, executor: AccountId, r: Request, paid: Balance) {
    && Accepting(c, r.vault) && env.issuable.Some? && paid <= env.issuable.value
    && c.vaults[r.vault].toBeIssued + paid <= U128_MAX && Tokens(r) <= U128_MAX
    && (paid < Tokens(r) ==> executor == r.requester)
    && (paid != Tokens(r) ==> FeeDefined(paid, env.feeRate))
    && Supply(c, r) + paid <= U128_MAX
  }

  lemma RebookingSucceeds(c: Chain, env: Env, executor: AccountId, id: IssueId, r: Request, paid: Balance)
    requires Accepting(c, r.vault) && Tokens(r) <= U128_MAX
    ensures HandleCancelled(c, env, executor, id, r, paid, Tokens(r)).Ok? <==>
              && env.issuable.Some? && paid <= env.issuable.value
              && c.vaults[r.vault].toBeIssued + paid <= U128_MAX
              && (paid < Tokens(r) ==> executor == r.requester)
              && (paid != Tokens(r) ==> FeeDefined(paid, env.feeRate))
  {
    var booked := TryIncreaseToBeIssued(c, env, r.vault, paid);
    if booked.Ok? {
      SetAmountSucceeds(booked.value, env, id, r, paid);
    }
  }

  lemma RebookedMints(c: Chain, f: Foreign, env: Env, executor: AccountId, id: IssueId, r: Request, paid: Balance)
    requires Inv(c, f) && id in c.requests && r == c.requests[id] && Tokens(r) <= U128_MAX
    requires HandleCancelled(c, env, executor, id, r, paid, Tokens(r)).Ok?
    ensures var (h, issue) := HandleCancelled(c, env, executor, id, r, paid, Tokens(r)).value;
            IssueAndMint(h, env, id, issue).Ok? <==> Supply(c, r) + paid <= U128_MAX
  {
    var (h, issue) := HandleCancelled(c, env, executor, id, r, paid, Tokens(r)).value;
    HandleCancelledEffect(c, env, executor, id, r, paid, h, issue);
    HandledMints(c, f, env, id, r, h, issue, paid);
  }

  /** A cancelled request executes exactly when an accepting vault can take on the whole payment again. */
  lemma CancelledExecutes(c: Chain, f: Foreign, env: Env, tx: Transaction, executor: AccountId, id: IssueId,
                          paid: Balance)
    requires Inv(c, f) && id in c.requests && c.requests[id].status.Cancelled?
    requires PaidFor(env, tx, id, c.requests[id]) == Ok(paid)
    ensures ExecuteIssue(c, env, tx, executor, id).Ok? <==> CancelledMayExecute(c, env, executor, c.requests[id], paid)
  {
    var r := c.requests[id];
    if Tokens(r) <= U128_MAX && Accepting(c, r.vault) {
      RebookingSucceeds(c, env, executor, id, r, paid);
      if HandleCancelled(c, env, executor, id, r, paid, Tokens(r)).Ok? {
        RebookedMints(c, f, env, executor, id, r, paid);
      }
    }
  }

  // ---------- Who gets what

  /** An exactly paid request mints its amount to the requester and its fee to the fee pool, and nothing else. */
  lemma ExactPaymentMints(c: Chain, env: Env, tx: Transaction, executor: AccountId, id: IssueId, d: Chain, a: AccountId)
    requires ExecuteIssue(c, env, tx, executor, id) == Ok(d) && id in c.requests
    requires PaidFor(env, tx, id, c.requests[id]) == Ok(Tokens(c.requests[id]))
    ensures var r := c.requests[id];
            Get(d.wrapped, (a, r.vault.pair.wrapped)) == Get(c.wrapped, (a, r.vault.pair.wrapped)) +
            (if a == r.requester then r.amount else 0) + (if a == env.feePool then r.fee else 0)
  {
    var issue, paid := ExecuteEffect(c, env, tx, executor, id, d);
  }

  /**
   * From request to tokens: whoever requests an amount and has it paid exactly gets it less
   * the fee, and the fee pool gets the fee.
   */
  lemma RequestedIsMinted(c: Chain, env: Env, id: IssueId, requester: AccountId, amount: Balance, v: VaultId, d: Chain,
                          later: Env, tx: Transaction, executor: AccountId, e: Chain, a: AccountId)
    requires RequestIssue(c, env, id, requester, amount, v) == Ok(d) && env.feeRate <= ACCURACY
    requires id in d.requests && PaidFor(later, tx, id, d.requests[id]) == Ok(amount)
    requires ExecuteIssue(d, later, tx, executor, id) == Ok(e)
    ensures var fee := FeePart(amount, env.feeRate);
            Get(e.wrapped, (a, v.pair.wrapped)) == Get(c.wrapped, (a, v.pair.wrapped)) +
            (if a == requester then amount - fee else 0) + (if a == later.feePool then fee else 0)
  {
    RequestEffect(c, env, id, requester, amount, v, d);
    RequestAdmits(c, env, id, requester, amount, v, d);
    ExactPaymentMints(d, later, tx, executor, id, e, a);
  }

  // ---------- Every execution of every run

  predicate MayExecute(c: Chain, env: Env, executor: AccountId, r: Request, paid: Balance) {
    match r.status
    case Completed => false
    case Cancelled => CancelledMayExecute(c, env, executor, r, paid)
    case Pending =>
      if paid < Tokens(r) then UnderpaidMayExecute(c, env, executor, r, paid)
      else if paid > Tokens(r) then OverpaidMayExecute(c, env, r, paid)
      else Supply(c, r) + paid <= U128_MAX
  }

  lemma PaidExecutes(c: Chain, f: Foreign, env: Env, tx: Transaction, executor: AccountId, id: IssueId, paid: Balance)
    requires Inv(c, f) && id in c.requests && PaidFor(env, tx, id, c.requests[id]) == Ok(paid)
    ensures ExecuteIssue(c, env, tx, executor, id).Ok? <==> MayExecute(c, env, executor, c.requests[id], paid)
  {
    var r := c.requests[id];
    match r.status {
      case Completed =>
      case Cancelled => CancelledExecutes(c, f, env, tx, executor, id, paid);
      case Pending =>
        if paid < Tokens(r) {
          UnderpaidExecutes(c, f, env, tx, executor, id, paid);
        } else if paid > Tokens(r) {
          OverpaidExecutes(c, f, env, tx, executor, id, paid);
        } else {
          ExactPaymentExecutes(c, f, env, tx, executor, id);
        }
    }
  }

  /** After any run, exactly which executions go through. */
  lemma ExecuteIff(free: map<AccountId, nat>, events: seq<Event>, env: Env, tx: Transaction, executor: AccountId,
                   id: IssueId)
    ensures var c := Exec(free, events).chain;
            ExecuteIssue(c, env, tx, executor, id).Ok? <==>
              && id in c.requests
              && PaidFor(env, tx, id, c.requests[id]).Ok?
              && MayExecute(c, env, executor, c.requests[id], PaidFor(env, tx, id, c.requests[id]).value)
  {
    var w := Exec(free, events);
    RunKeepsInv(free, events);
    if id in w.chain.requests && PaidFor(env, tx, id, w.chain.requests[id]).Ok? {
      PaidExecutes(w.chain, w.foreign, env, tx, executor, id, PaidFor(env, tx, id, w.chain.requests[id]).value);
    } else if ExecuteIssue(w.chain, env, tx, executor, id).Ok? {
      ExecuteGuards(w.chain, env, tx, executor, id);
    }
  }

  /**
   * The memo is all that ties a transaction to a request. A transaction that paid one
   * request exactly, and would pay another exactly, executes the second one after the first
   * if and only if their ids have the same shortened form.
   */
  lemma MemoTiesPayment(c: Chain, f: Foreign, env: Env, tx: Transaction, executor: AccountId, a: IssueId, b: IssueId,
                        d: Chain)
    requires Inv(c, f) && a != b && a in c.requests && b in c.requests && c.requests[b].status.Pending?
    requires ExecuteIssue(c, env, tx, executor, a) == Ok(d)
    requires Counted(tx, c.requests[b].stellarAddress, c.requests[b].vault.pair.wrapped) == Some(Tokens(c.requests[b]))
    requires Supply(d, c.requests[b]) + Tokens(c.requests[b]) <= U128_MAX
    ensures ExecuteIssue(d, env, tx, executor, b).Ok? <==> a.memo == b.memo
  {
    OthersUntouched(c, env, tx, executor, a, b, d);
    ExecuteKeepsInv(c, f, env, tx, executor, a, d);
    if a.memo == b.memo {
      ExactPaymentExecutes(d, f, env, tx, executor, b);
    }
  }

  lemma OthersUntouched(c: Chain, env: Env, tx: Transaction, executor: AccountId, a: IssueId, b: IssueId, d: Chain)
    requires ExecuteIssue(c, env, tx, executor, a) == Ok(d) && b in c.requests && a != b
    ensures b in d.requests && d.requests[b] == c.requests[b] && env.checksPass && TextMemo(tx) == Some(a.memo)
  {
    var issue, paid := ExecuteEffect(c, env, tx, executor, a, d);
  }
}
