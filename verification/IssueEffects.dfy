/** The net effect of each call of the issue pallet, as moves of counters, collateral and supply. */
module IssueEffects {
  import opened Wrappers
  import opened FixedPoint
  import opened IssueLedger
  import opened IssueProofs
  import A = Amounts
  import Fees
  import P = Payments
  import Stellar = StellarConversion
  import Floors

  // ---------- Single operations

  lemma TryIncreaseBooks(c: Chain, env: Env, v: VaultId, tokens: Balance, d: Chain)
    requires TryIncreaseToBeIssued(c, env, v, tokens) == Ok(d)
    ensures Booked(c, d, v, tokens, 0) && d == c.(vaults := d.vaults) && !IsLiquidated(c, v)
  {
  }

  lemma DecreaseBooks(c: Chain, v: VaultId, tokens: Balance, d: Chain)
    requires DecreaseToBeIssued(c, v, tokens) == Ok(d)
    ensures Booked(c, d, v, 0 - tokens, 0) && d == c.(vaults := d.vaults, liquidation := d.liquidation)
  {
    if IsLiquidated(c, v) {
      var pool := SystemVaultOf(c, v.pair);
      assert d == c.(liquidation := c.liquidation[v.pair := pool.(toBeIssued := pool.toBeIssued - tokens)]);
    } else {
      assert d == SetVault(c, v, c.vaults[v].(toBeIssued := c.vaults[v].toBeIssued - tokens));
    }
  }

  lemma IncreaseIssuedBooks(c: Chain, v: VaultId, tokens: Balance, d: Chain)
    requires IncreaseIssued(c, v, tokens) == Ok(d)
    ensures Booked(c, d, v, 0, tokens) && d == c.(vaults := d.vaults, liquidation := d.liquidation)
  {
    if IsLiquidated(c, v) {
      var pool := SystemVaultOf(c, v.pair);
      assert d == c.(liquidation := c.liquidation[v.pair := pool.(issued := pool.issued + tokens)]);
    } else {
      assert d == SetVault(c, v, c.vaults[v].(issued := c.vaults[v].issued + tokens));
    }
  }

  lemma IssueTokensBooks(c: Chain, v: VaultId, tokens: Balance, d: Chain)
    requires IssueTokens(c, v, tokens) == Ok(d)
    ensures Booked(c, d, v, 0 - tokens, tokens) && d == c.(vaults := d.vaults, liquidation := d.liquidation)
  {
    var decreased := DecreaseToBeIssued(c, v, tokens).value;
    DecreaseBooks(c, v, tokens, decreased);
    IncreaseIssuedBooks(decreased, v, tokens, d);
    BookedTwice(c, decreased, d, v, 0 - tokens, 0, 0, tokens);
  }

  lemma UnlockSettles(c: Chain, a: AccountId, to: AccountId, amount: Balance, d: Chain)
    requires UnlockOn(c, a, amount) == Ok(d)
    ensures Settled(c, d, a, to, amount, 0) && d == c.(free := d.free, reserved := d.reserved)
  {
  }

  lemma SlashSettles(c: Chain, from: AccountId, to: AccountId, amount: Balance, d: Chain)
    requires SlashGriefing(c, from, to, amount) == Ok(d)
    ensures Settled(c, d, from, to, 0, amount) && d == c.(free := d.free, reserved := d.reserved)
  {
  }

  /** Rewriting the amount of a request: both parts in hand add up to the amount transferred, at any rate. */
  lemma SetAmountEffect(c: Chain, env: Env, id: IssueId, r: Request, transferred: Balance, d: Chain, issue: Request)
    requires SetIssueAmount(c, env, id, r, transferred) == Ok((d, issue)) && id in c.requests
    ensures Tokens(issue) == transferred && issue == r.(amount := issue.amount, fee := issue.fee)
    ensures Repriced(env, r, issue)
    ensures d == c.(requests := c.requests[id := c.requests[id].(amount := issue.amount)])
  {
  }

  // ---------- Executing

  /** The counters of `v` moved by `tokens`, or nothing moved and `tokens` is zero. */
  predicate Rebooked(c: Chain, d: Chain, v: VaultId, tokens: int) {
    Booked(c, d, v, tokens, 0) || (tokens == 0 && d.vaults == c.vaults && d.liquidation == c.liquidation)
  }

  /** The fee in hand is the stored one, or was computed anew for the amount in hand. */
  predicate Repriced(env: Env, r: Request, issue: Request) {
    || issue == r
    || (Tokens(issue) <= U128_MAX && Fee(Tokens(issue), issue.vault.pair.wrapped, env.feeRate) == Ok(issue.fee))
  }

  predicate Accepting(c: Chain, v: VaultId) {
    v in c.vaults && c.vaults[v].status == Active(true)
  }

  /** What handling a payment may do to the chain before tokens are issued. */
  ghost predicate Handled(c: Chain, d: Chain, id: IssueId, r: Request, issue: Request, tokens: int, released: int,
                          slashed: int)
  {
    && issue == r.(amount := issue.amount, fee := issue.fee)
    && Rebooked(c, d, r.vault, tokens)
    && Settled(c, d, r.requester, r.vault.account, released, slashed)
    && id in c.requests
    && d.requests == c.requests[id := c.requests[id].(amount := issue.amount)]
    && d.wrapped == c.wrapped && d.issuance == c.issuance
  }

  /** The collateral given back when a request is executed. */
  function ReleasedOnExecute(r: Request, paid: Balance): int {
    if r.status.Pending?
    then if paid < Tokens(r) then r.griefing * paid / Tokens(r) else r.griefing
    else 0
  }

  lemma ProportionWithin(g: int, n: int, d: int)
    requires g >= 0 && 0 <= n <= d && d > 0
    ensures 0 <= g * n / d <= g
  {
    Floors.MulMono(n, d, g);
    Floors.MulMono(0, n, g);
    Floors.DivMono(0, g * n, d);
    Floors.DivMono(g * n, g * d, d);
    Floors.ExactDiv(g, d);
  }

  lemma DeficitRelease(c: Chain, r: Request, paid: Balance, d: Chain, release: Balance) returns (b: Chain)
    requires r.status.Pending? && paid < Tokens(r) <= U128_MAX
    requires SlashForDeficit(c, r, paid, Tokens(r)) == Ok((d, release))
    ensures release == ReleasedOnExecute(r, paid) <= r.griefing
    ensures DecreaseToBeIssued(c, r.vault, Tokens(r) - paid) == Ok(b)
    ensures SlashGriefing(b, r.requester, r.vault.account, r.griefing - release) == Ok(d)
  {
    b := DecreaseToBeIssued(c, r.vault, Tokens(r) - paid).value;
  }

  lemma DeficitEffect(c: Chain, r: Request, paid: Balance, d: Chain, release: Balance)
    requires r.status.Pending? && paid < Tokens(r) <= U128_MAX
    requires SlashForDeficit(c, r, paid, Tokens(r)) == Ok((d, release))
    ensures release == ReleasedOnExecute(r, paid) <= r.griefing
    ensures Booked(c, d, r.vault, paid - Tokens(r), 0)
    ensures Settled(c, d, r.requester, r.vault.account, 0, r.griefing - release)
    ensures d == c.(vaults := d.vaults, liquidation := d.liquidation, free := d.free, reserved := d.reserved)
  {
    var b := DeficitRelease(c, r, paid, d, release);
    DeficitPieces(c, r, Tokens(r) - paid, r.griefing - release, b, d);
  }

  lemma DeficitPieces(c: Chain, r: Request, deficit: Balance, slashed: Balance, b: Chain, d: Chain)
    requires DecreaseToBeIssued(c, r.vault, deficit) == Ok(b)
    requires SlashGriefing(b, r.requester, r.vault.account, slashed) == Ok(d)
    ensures Booked(c, d, r.vault, 0 - deficit, 0) && Settled(c, d, r.requester, r.vault.account, 0, slashed)
    ensures d == c.(vaults := d.vaults, liquidation := d.liquidation, free := d.free, reserved := d.reserved)
  {
    DecreaseBooks(c, r.vault, deficit, b);
    SlashSettles(b, r.requester, r.vault.account, slashed, d);
    BookedStays(c, b, d, r.vault, 0 - deficit, 0);
    SettledSince(c, b, d, r.requester, r.vault.account, 0, slashed);
  }

  lemma BookedStays(c: Chain, b: Chain, d: Chain, v: VaultId, tokens: int, issued: int)
    requires Booked(c, b, v, tokens, issued) && d.vaults == b.vaults && d.liquidation == b.liquidation
    ensures Booked(c, d, v, tokens, issued)
  {
  }

  lemma UnderpaidEffect(c: Chain, env: Env, id: IssueId, r: Request, paid: Balance, d: Chain, issue: Request,
                        release: Balance)
    requires id in c.requests && r == c.requests[id] && r.status.Pending? && paid < Tokens(r) <= U128_MAX
    requires DecreaseIssueAmount(c, env, id, r, paid, Tokens(r)) == Ok((d, issue, release))
    ensures release == ReleasedOnExecute(r, paid) <= r.griefing && Tokens(issue) == paid && Repriced(env, r, issue)
    ensures Handled(c, d, id, r, issue, paid - Tokens(r), 0, r.griefing - release)
  {
    var slashed := SlashForDeficit(c, r, paid, Tokens(r)).value.0;
    DeficitEffect(c, r, paid, slashed, release);
    SetAmountEffect(slashed, env, id, r, paid, d, issue);
  }

  lemma RaiseEffect(c: Chain, env: Env, id: IssueId, r: Request, extra: Balance, d: Chain, issue: Request)
    requires id in c.requests && r == c.requests[id] && Tokens(r) + extra <= U128_MAX
    requires RaiseBy(c, env, id, r, Tokens(r), extra) == Ok((d, issue))
    ensures Repriced(env, r, issue)
    ensures Tokens(issue) == Tokens(r) + if TryIncreaseToBeIssued(c, env, r.vault, extra).Ok? then extra else 0
    ensures Handled(c, d, id, r, issue, Tokens(issue) - Tokens(r), 0, 0)
  {
    var attempt := TryIncreaseToBeIssued(c, env, r.vault, extra);
    if attempt.Ok? {
      TryIncreaseBooks(c, env, r.vault, extra, attempt.value);
      SetAmountEffect(attempt.value, env, id, r, Tokens(r) + extra, d, issue);
    }
  }

  /** An overpaid request is raised by what the vault can still take on, or left as it was. */
  lemma OverpaidEffect(c: Chain, env: Env, id: IssueId, r: Request, paid: Balance, d: Chain, issue: Request)
    requires id in c.requests && r == c.requests[id] && Tokens(r) <= U128_MAX && Tokens(r) < paid
    requires TryIncreaseIssueAmount(c, env, id, r, paid, Tokens(r)) == Ok((d, issue))
    ensures Tokens(r) <= Tokens(issue) <= paid && Repriced(env, r, issue)
    ensures Handled(c, d, id, r, issue, Tokens(issue) - Tokens(r), 0, 0)
  {
    var surplus: Balance := paid - Tokens(r);
    var allowed := IssuableFor(c, env, r.vault).value;
    RaiseEffect(c, env, id, r, if surplus <= allowed then surplus else allowed, d, issue);
  }

  /** Unlocking after a payment was handled adds to the released part. */
  lemma HandledThenUnlock(c: Chain, d: Chain, e: Chain, id: IssueId, r: Request, issue: Request, tokens: int,
                          slashed: int, release: Balance)
    requires Handled(c, d, id, r, issue, tokens, 0, slashed) && UnlockOn(d, r.requester, release) == Ok(e)
    ensures Handled(c, e, id, r, issue, tokens, release, slashed)
  {
    UnlockSettles(d, r.requester, r.vault.account, release, e);
    SettledTwice(c, d, e, r.requester, r.vault.account, 0, slashed, release, 0);
  }

  lemma HandlePendingEffect(c: Chain, env: Env, executor: AccountId, id: IssueId, r: Request, paid: Balance, d: Chain,
                            issue: Request)
    requires id in c.requests && r == c.requests[id] && r.status.Pending? && Tokens(r) <= U128_MAX
    requires HandlePending(c, env, executor, id, r, paid, Tokens(r)) == Ok((d, issue))
    ensures Tokens(issue) <= paid && (paid <= Tokens(r) ==> Tokens(issue) == paid)
    ensures (paid > Tokens(r) ==> Tokens(issue) >= Tokens(r)) && (paid == Tokens(r) ==> issue == r)
    ensures Repriced(env, r, issue)
    ensures 0 <= ReleasedOnExecute(r, paid) <= r.griefing
    ensures Handled(c, d, id, r, issue, Tokens(issue) - Tokens(r), ReleasedOnExecute(r, paid),
                    r.griefing - ReleasedOnExecute(r, paid))
  {
    if paid < Tokens(r) {
      var (after, i, release) := DecreaseIssueAmount(c, env, id, r, paid, Tokens(r)).value;
      UnderpaidEffect(c, env, id, r, paid, after, i, release);
      HandledThenUnlock(c, after, d, id, r, issue, paid - Tokens(r), r.griefing - release, release);
    } else if paid > Tokens(r) && !IsLiquidated(c, r.vault) {
      var (after, i) := TryIncreaseIssueAmount(c, env, id, r, paid, Tokens(r)).value;
      OverpaidEffect(c, env, id, r, paid, after, i);
      HandledThenUnlock(c, after, d, id, r, issue, Tokens(issue) - Tokens(r), 0, r.griefing);
    } else {
      HandledThenUnlock(c, c, d, id, r, r, 0, 0, r.griefing);
    }
  }

  lemma HandleCancelledEffect(c: Chain, env: Env, executor: AccountId, id: IssueId, r: Request, paid: Balance, d: Chain,
                              issue: Request)
    requires id in c.requests && r == c.requests[id] && Tokens(r) <= U128_MAX
    requires HandleCancelled(c, env, executor, id, r, paid, Tokens(r)) == Ok((d, issue))
    ensures Tokens(issue) == paid && Repriced(env, r, issue) && (paid == Tokens(r) ==> issue == r)
    ensures Handled(c, d, id, r, issue, paid, 0, 0)
  {
    var booked := TryIncreaseToBeIssued(c, env, r.vault, paid).value;
    TryIncreaseBooks(c, env, r.vault, paid, booked);
    if paid != Tokens(r) {
      SetAmountEffect(booked, env, id, r, paid, d, issue);
    }
  }

  lemma MintEffect(c: Chain, env: Env, id: IssueId, issue: Request, d: Chain)
    requires id in c.requests && IssueAndMint(c, env, id, issue) == Ok(d)
    ensures Booked(c, d, issue.vault, 0 - Tokens(issue), Tokens(issue))
    ensures d.requests == c.requests[id := c.requests[id].(status := Completed)]
    ensures d.free == c.free && d.reserved == c.reserved
    ensures Minted(c, env, d, issue)
  {
    var issued := IssueTokens(c, issue.vault, Tokens(issue)).value;
    IssueTokensBooks(c, issue.vault, Tokens(issue), issued);
    var minted := MintTo(issued, issue.requester, issue.vault.pair.wrapped, issue.amount).value;
    var rewarded := MintTo(minted, env.feePool, issue.vault.pair.wrapped, issue.fee).value;
    TwoMints(issued, env, issue, minted, rewarded);
  }

  lemma TwoMints(c: Chain, env: Env, issue: Request, m: Chain, d: Chain)
    requires MintTo(c, issue.requester, issue.vault.pair.wrapped, issue.amount) == Ok(m)
    requires MintTo(m, env.feePool, issue.vault.pair.wrapped, issue.fee) == Ok(d)
    ensures Minted(c, env, d, issue)
  {
  }

  lemma RebookedThenIssued(c: Chain, h: Chain, d: Chain, v: VaultId, tokens: int, issued: int)
    requires Rebooked(c, h, v, tokens) && Booked(h, d, v, 0 - issued, issued)
    ensures Booked(c, d, v, tokens - issued, issued)
  {
    if Booked(c, h, v, tokens, 0) {
      BookedTwice(c, h, d, v, tokens, 0, 0 - issued, issued);
    }
  }

  /** The request, the counters and the collateral after a successful execution; `issue` is the request as minted. */
  ghost predicate ExecutedAccounts(c: Chain, id: IssueId, paid: Balance, d: Chain, issue: Request) {
    && id in c.requests && !c.requests[id].status.Completed?
    && var r := c.requests[id];
    && issue == r.(amount := issue.amount, fee := issue.fee)
    && d.requests == c.requests[id := r.(amount := issue.amount, status := Completed)]
    && Booked(c, d, r.vault, 0 - TokensFor(r, r.vault), Tokens(issue))
    && Settled(c, d, r.requester, r.vault.account, ReleasedOnExecute(r, paid),
               GriefingFor(r, r.requester) - ReleasedOnExecute(r, paid))
  }

  /** What is minted: the amount to the requester and the fee to the fee pool. */
  ghost predicate Minted(c: Chain, env: Env, d: Chain, issue: Request) {
    && (forall w :: Get(d.issuance, w) ==
                    Get(c.issuance, w) + if w == issue.vault.pair.wrapped then Tokens(issue) else 0)
    && (forall a, w :: Get(d.wrapped, (a, w)) == Get(c.wrapped, (a, w)) +
          if w != issue.vault.pair.wrapped then 0
          else (if a == issue.requester then issue.amount else 0) + (if a == env.feePool then issue.fee else 0))
  }

  /** Everything a successful execution changes. */
  ghost predicate Executed(c: Chain, env: Env, id: IssueId, paid: Balance, d: Chain, issue: Request) {
    ExecutedAccounts(c, id, paid, d, issue) && Minted(c, env, d, issue)
  }

  lemma HandledThenMinted(c: Chain, env: Env, id: IssueId, r: Request, paid: Balance, h: Chain, issue: Request,
                          tokens: int, d: Chain)
    requires id in c.requests && r == c.requests[id] && !r.status.Completed?
    requires Handled(c, h, id, r, issue, tokens, ReleasedOnExecute(r, paid),
                     GriefingFor(r, r.requester) - ReleasedOnExecute(r, paid))
    requires tokens == Tokens(issue) - TokensFor(r, r.vault)
    requires IssueAndMint(h, env, id, issue) == Ok(d)
    ensures Executed(c, env, id, paid, d, issue)
  {
    MintEffect(h, env, id, issue, d);
    RebookedThenIssued(c, h, d, r.vault, tokens, Tokens(issue));
    CompletedRequest(c, h, d, id, issue.amount);
    SettledStays(c, h, d, r.requester, r.vault.account, ReleasedOnExecute(r, paid),
                 GriefingFor(r, r.requester) - ReleasedOnExecute(r, paid));
  }

  lemma CompletedRequest(c: Chain, h: Chain, d: Chain, id: IssueId, amount: Balance)
    requires id in c.requests
    requires h.requests == c.requests[id := c.requests[id].(amount := amount)]
    requires d.requests == h.requests[id := h.requests[id].(status := Completed)]
    ensures d.requests == c.requests[id := c.requests[id].(amount := amount, status := Completed)]
  {
  }

  lemma SettledSince(c: Chain, b: Chain, d: Chain, from: AccountId, to: AccountId, released: int, slashed: int)
    requires Settled(b, d, from, to, released, slashed) && c.free == b.free && c.reserved == b.reserved
    ensures Settled(c, d, from, to, released, slashed)
  {
  }

  lemma SettledStays(c: Chain, h: Chain, d: Chain, from: AccountId, to: AccountId, released: int, slashed: int)
    requires Settled(c, h, from, to, released, slashed) && d.free == h.free && d.reserved == h.reserved
    ensures Settled(c, d, from, to, released, slashed)
  {
  }

  /**
   * Backed minting, for one execution: exactly what is added to the vault's issued tokens
   * is minted, to the requester and the fee pool, and it is at most what Stellar moved.
   */
  lemma ExecuteEffect(c: Chain, env: Env, tx: Transaction, executor: AccountId, id: IssueId, d: Chain)
    returns (issue: Request, paid: Balance)
    requires ExecuteIssue(c, env, tx, executor, id) == Ok(d)
    ensures id in c.requests && PaidFor(env, tx, id, c.requests[id]) == Ok(paid)
    ensures Executed(c, env, id, paid, d, issue)
    ensures Tokens(issue) <= paid
    ensures c.requests[id].status.Cancelled? || paid <= Tokens(c.requests[id]) ==> Tokens(issue) == paid
    ensures paid > Tokens(c.requests[id]) ==> Tokens(issue) >= Tokens(c.requests[id])
    ensures Repriced(env, c.requests[id], issue) && (paid == Tokens(c.requests[id]) ==> issue == c.requests[id])
    ensures 0 <= ReleasedOnExecute(c.requests[id], paid) <= GriefingFor(c.requests[id], c.requests[id].requester)
  {
    var r := c.requests[id];
    paid := PaidFor(env, tx, id, r).value;
    var (h, i) := Handle(c, env, executor, id, r, paid).value;
    issue := i;
    if r.status.Pending? {
      HandlePendingEffect(c, env, executor, id, r, paid, h, i);
      HandledThenMinted(c, env, id, r, paid, h, i, Tokens(i) - Tokens(r), d);
    } else {
      HandleCancelledEffect(c, env, executor, id, r, paid, h, i);
      HandledThenMinted(c, env, id, r, paid, h, i, Tokens(i), d);
    }
  }

  /** An underpaid request is executed by its requester only, a cancelled one only on a vault that accepts issues. */
  lemma ExecuteGuards(c: Chain, env: Env, tx: Transaction, executor: AccountId, id: IssueId)
    requires ExecuteIssue(c, env, tx, executor, id).Ok?
    ensures id in c.requests && env.checksPass && P.TextMemo(tx) == Some(id.memo)
    ensures var r := c.requests[id];
            var paid := PaidFor(env, tx, id, r);
            && paid.Ok?
            && (paid.value < Tokens(r) ==> r.requester == executor)
            && (r.status.Cancelled? ==>
                  Accepting(c, r.vault) && env.issuable.Some? && paid.value <= env.issuable.value)
  {
    var r := c.requests[id];
    var paid := PaidFor(env, tx, id, r).value;
    assert Handle(c, env, executor, id, r, paid).Ok?;
    assert r.status.Pending? ==> HandlePending(c, env, executor, id, r, paid, Tokens(r)).Ok?;
    assert r.status.Cancelled? ==> HandleCancelled(c, env, executor, id, r, paid, Tokens(r)).Ok?;
  }

  // ---------- Cancelling

  function Elapsed(env: Env, r: Request): nat {
    if env.block >= r.opentime then env.block - r.opentime else 0
  }

  /**
   * The collateral a cancellation takes from the requester: nothing if the vault is
   * liquidated, all of it after the period, and before that in proportion to the time.
   */
  function SlashedOnCancel(c: Chain, env: Env, r: Request): int {
    if IsLiquidated(c, r.vault) then 0
    else if env.block > r.opentime + PeriodOf(env, r) || PeriodOf(env, r) == 0 then r.griefing
    else r.griefing * Elapsed(env, r) / PeriodOf(env, r)
  }

  /** Before expiry the proportional part is defined and never more than the collateral. */
  lemma SlashedWithin(env: Env, r: Request)
    requires env.block <= r.opentime + PeriodOf(env, r)
    ensures var part := CalculateCollateral(r.griefing, Elapsed(env, r), PeriodOf(env, r));
            && part.Ok? && part.value <= r.griefing
            && part.value ==
               if PeriodOf(env, r) == 0 then r.griefing else r.griefing * Elapsed(env, r) / PeriodOf(env, r)
  {
    if PeriodOf(env, r) > 0 {
      ProportionWithin(r.griefing, Elapsed(env, r), PeriodOf(env, r));
    }
  }

  lemma ReleaseEffect(c: Chain, env: Env, caller: AccountId, r: Request, d: Chain, slashed: Balance)
    requires ReleaseUnslashed(c, env, caller, r) == Ok((d, slashed))
    ensures slashed <= r.griefing
    ensures !IsLiquidated(c, r.vault) ==> slashed == SlashedOnCancel(c, env, r)
    ensures Settled(c, d, r.requester, r.vault.account, r.griefing - slashed, 0)
    ensures d == c.(free := d.free, reserved := d.reserved)
  {
    if env.block <= r.opentime + PeriodOf(env, r) {
      SlashedWithin(env, r);
      UnlockSettles(c, caller, r.vault.account, r.griefing - slashed, d);
    }
  }

  ghost predicate CancelledTo(c: Chain, env: Env, id: IssueId, d: Chain) {
    && id in c.requests && c.requests[id].status.Pending?
    && var r := c.requests[id];
    && d.requests == c.requests[id := r.(status := Cancelled)]
    && Booked(c, d, r.vault, 0 - Tokens(r), 0)
    && Settled(c, d, r.requester, r.vault.account, r.griefing - SlashedOnCancel(c, env, r), SlashedOnCancel(c, env, r))
    && d.issuance == c.issuance && d.wrapped == c.wrapped
  }

  lemma PayEffect(c: Chain, env: Env, r: Request, b: Chain, slashed: Balance, d: Chain)
    requires Settled(c, b, r.requester, r.vault.account, r.griefing - slashed, 0)
    requires b == c.(free := b.free, reserved := b.reserved)
    requires !IsLiquidated(c, r.vault) ==> slashed == SlashedOnCancel(c, env, r)
    requires SlashOrReturn(b, r, slashed) == Ok(d)
    ensures d == c.(free := d.free, reserved := d.reserved)
    ensures Settled(c, d, r.requester, r.vault.account, r.griefing - SlashedOnCancel(c, env, r),
                    SlashedOnCancel(c, env, r))
  {
    if IsLiquidated(c, r.vault) {
      UnlockSettles(b, r.requester, r.vault.account, slashed, d);
      SettledTwice(c, b, d, r.requester, r.vault.account, r.griefing - slashed, 0, slashed, 0);
    } else {
      SlashSettles(b, r.requester, r.vault.account, slashed, d);
      SettledTwice(c, b, d, r.requester, r.vault.account, r.griefing - slashed, 0, 0, slashed);
    }
  }

  lemma UnbookEffect(c: Chain, id: IssueId, r: Request, d: Chain)
    requires id in c.requests && r == c.requests[id] && Unbook(c, id, r) == Ok(d)
    ensures Booked(c, d, r.vault, 0 - Tokens(r), 0)
    ensures d == c.(vaults := d.vaults, liquidation := d.liquidation,
                    requests := c.requests[id := r.(status := Cancelled)])
  {
    var decreased := DecreaseToBeIssued(c, r.vault, Tokens(r)).value;
    DecreaseBooks(c, r.vault, Tokens(r), decreased);
  }

  /** A cancellation unbooks the whole request and splits its collateral exactly. */
  lemma CancelEffect(c: Chain, env: Env, caller: AccountId, id: IssueId, d: Chain)
    requires CancelIssue(c, env, caller, id) == Ok(d)
    ensures CancelledTo(c, env, id, d)
    ensures 0 <= SlashedOnCancel(c, env, c.requests[id]) <= c.requests[id].griefing
    ensures var r := c.requests[id];
            caller == r.requester || (env.block > r.opentime + r.period && env.block > r.opentime + env.issuePeriod)
  {
    var r := c.requests[id];
    var (b, slashed) := ReleaseUnslashed(c, env, caller, r).value;
    ReleaseEffect(c, env, caller, r, b, slashed);
    var paid := SlashOrReturn(b, r, slashed).value;
    PayEffect(c, env, r, b, slashed, paid);
    UnbookEffect(paid, id, r, d);
  }

  // ---------- Requesting

  ghost predicate RequestedTo(c: Chain, env: Env, id: IssueId, requester: AccountId, amount: Balance, v: VaultId,
                              d: Chain)
  {
    && id in d.requests && d.requests == c.requests[id := d.requests[id]]
    && var r := d.requests[id];
    && r.status.Pending? && r.vault == v && r.requester == requester && Tokens(r) == amount
    && r.opentime == env.block && r.period == env.issuePeriod && r.stellarAddress == env.stellarAddress
    && Booked(c, d, v, amount, 0)
    && Settled(c, d, requester, v.account, 0 - r.griefing, 0)
    && d.issuance == c.issuance && d.wrapped == c.wrapped
  }

  lemma BookRequestEffect(c: Chain, env: Env, id: IssueId, requester: AccountId, amount: Balance, v: VaultId,
                          griefing: Balance, d: Chain)
    requires BookRequest(c, env, id, requester, amount, v, griefing) == Ok(d)
    ensures Booked(c, d, v, amount, 0) && id in d.requests
    ensures d == c.(vaults := d.vaults, requests := c.requests[id := d.requests[id]])
    ensures var r := d.requests[id];
            && Tokens(r) == amount
            && r == Request(v, requester, r.amount, r.fee, griefing,
                            env.block, env.issuePeriod, env.stellarAddress, Pending)
  {
    var booked := TryIncreaseToBeIssued(c, env, v, amount).value;
    TryIncreaseBooks(c, env, v, amount, booked);
  }

  lemma RequestEffect(c: Chain, env: Env, id: IssueId, requester: AccountId, amount: Balance, v: VaultId, d: Chain)
    requires RequestIssue(c, env, id, requester, amount, v) == Ok(d)
    ensures RequestedTo(c, env, id, requester, amount, v, d)
  {
    var griefing := Fee(env.inGriefingCurrency.value, v.pair.wrapped, env.griefingRate).value;
    var locked := LockOn(c, requester, griefing).value;
    BookRequestEffect(locked, env, id, requester, amount, v, griefing, d);
  }

  /** The fee of a request: the rate's share rounded to an integer, and that rounded to whole stroops. */
  function FeePart(amount: int, rate: Balance): int {
    ((amount * rate + 500_000_000_000_000_000) / 1_000_000_000_000_000_000 + 50_000) / 100_000 * 100_000
  }

  /**
   * What an accepted request is: a Stellar-compatible amount of at least the minimum,
   * within what an accepting vault can issue, split exactly into the fee and the rest, with
   * the griefing rate's share of its value locked.
   */
  lemma RequestAdmits(c: Chain, env: Env, id: IssueId, requester: AccountId, amount: Balance, v: VaultId, d: Chain)
    requires RequestIssue(c, env, id, requester, amount, v) == Ok(d) && env.feeRate <= ACCURACY
    ensures Accepting(c, v) && env.checksPass && env.minimum <= amount
    ensures env.issuable.Some? && amount <= env.issuable.value
    ensures env.inGriefingCurrency.Some? && id in d.requests
    ensures var r := d.requests[id];
            && r.fee == FeePart(amount, env.feeRate) && r.amount == amount - r.fee
            && Stellar.IsCompatible(amount) && Stellar.IsCompatible(r.amount) && Stellar.IsCompatible(r.fee)
            && var exact := env.inGriefingCurrency.value * env.griefingRate;
            && r.griefing * ACCURACY - A.HALF <= exact < r.griefing * ACCURACY + A.HALF
            && r.griefing <= Get(c.free, requester)
  {
    var w := v.pair.wrapped;
    var collateral := env.inGriefingCurrency.value;
    var griefing := Fee(collateral, w, env.griefingRate).value;
    var locked := LockOn(c, requester, griefing).value;
    BookRequestEffect(locked, env, id, requester, amount, v, griefing, d);
    A.RoundedMulIsNearest(A.Amount(collateral, w), env.griefingRate);
    BookedSplit(locked, env, id, requester, amount, v, griefing, d);
  }

  lemma BookedSplit(c: Chain, env: Env, id: IssueId, requester: AccountId, amount: Balance, v: VaultId,
                    griefing: Balance, d: Chain)
    requires BookRequest(c, env, id, requester, amount, v, griefing) == Ok(d) && env.feeRate <= ACCURACY
    ensures env.issuable.Some? && amount <= env.issuable.value && id in d.requests
    ensures Stellar.IsCompatible(amount)
    ensures Stellar.IsCompatible(d.requests[id].amount) && Stellar.IsCompatible(d.requests[id].fee)
    ensures d.requests[id].fee == FeePart(amount, env.feeRate) && d.requests[id].amount == amount - d.requests[id].fee
  {
    Fees.SplitIsExact(A.Amount(amount, v.pair.wrapped), env.feeRate);
  }
}
