/**
 * What the issue pallet does to the chain: its requests, the token counters of the vault
 * registry, and the balances it locks, slashes and mints. A call that errors is rolled
 * back, so each call is a function to the new chain or an error.
 */
module IssueLedger {
  import opened Wrappers
  import opened FixedPoint
  import A = Amounts
  import Currencies
  import Fees
  import P = Payments
  import Stellar = StellarConversion
  import RequestIds

  type AccountId(==, !new)
  type CurrencyId = A.CurrencyId
  type Key = Currencies.Key
  type IssueId = RequestIds.IssueId
  type Transaction = P.Envelope

  datatype CurrencyPair = CurrencyPair(collateral: CurrencyId, wrapped: CurrencyId)

  datatype VaultId = VaultId(account: AccountId, pair: CurrencyPair)

  datatype VaultStatus = Active(accepting: bool) | Liquidated

  datatype Vault = Vault(status: VaultStatus, issued: Balance, toBeIssued: Balance)

  /** The liquidation vault of a currency pair, which takes over the tokens of liquidated vaults. */
  datatype SystemVault = SystemVault(issued: Balance, toBeIssued: Balance)

  datatype Status = Pending | Completed | Cancelled

  datatype Request = Request(
    vault: VaultId,
    requester: AccountId,
    amount: Balance,
    fee: Balance,
    griefing: Balance,
    opentime: nat,
    period: nat,
    stellarAddress: Key,
    status: Status)

  /** Griefing balances are bounded by the issuance of their currency, which no call here changes. */
  datatype Chain = Chain(
    requests: map<IssueId, Request>,
    vaults: map<VaultId, Vault>,
    liquidation: map<CurrencyPair, SystemVault>,
    free: map<AccountId, nat>,
    reserved: map<AccountId, nat>,
    wrapped: map<(AccountId, CurrencyId), nat>,
    issuance: map<CurrencyId, nat>)

  datatype Error =
    | IssueIdNotFound | IssueCompleted | IssueCancelled | TimeNotExpired | InvalidExecutor
    | VaultNotFound | VaultLiquidated | VaultNotAcceptingNewIssues | ExceedingVaultLimit
    | AmountBelowMinimum | IncompatibleAmount | InvalidCurrency | BalanceTooLow | Arithmetic
    | FeeFailed | MemoDoesNotMatch | AssetConversion | External

  /** What the call sees of the rest of the runtime; every value is possible. */
  datatype Env = Env(
    block: nat,
    issuePeriod: nat,
    feeRate: Balance,
    griefingRate: Balance,
    minimum: Balance,
    feePool: AccountId,
    // the Stellar account of the vault, to which a request is to be paid
    stellarAddress: Key,
    // oracle and collateral, at the current prices
    inGriefingCurrency: Option<Balance>,
    issuable: Option<Balance>,
    // whether the ban, volume, key, proof and reward-distribution steps go through
    checksPass: bool)

  function SystemVaultOf(c: Chain, pair: CurrencyPair): SystemVault {
    if pair in c.liquidation then c.liquidation[pair] else SystemVault(0, 0)
  }

  // ---------- The vault registry: token counters

  predicate IsLiquidated(c: Chain, v: VaultId) {
    v in c.vaults && c.vaults[v].status.Liquidated?
  }

  function SetVault(c: Chain, v: VaultId, vault: Vault): Chain {
    c.(vaults := c.vaults[v := vault])
  }

  function TryIncreaseToBeIssued(c: Chain, env: Env, v: VaultId, tokens: Balance): Result<Chain, Error> {
    var _ :- Need(v in c.vaults, VaultNotFound);
    var _ :- Need(!IsLiquidated(c, v), VaultLiquidated);
    var issuable :- env.issuable.OkOr(External);
    var _ :- Need(issuable >= tokens, ExceedingVaultLimit);
    var increased :- CheckU128(c.vaults[v].toBeIssued + tokens).OkOr(Arithmetic);
    Ok(SetVault(c, v, c.vaults[v].(toBeIssued := increased)))
  }

  /** The counters of a liquidated vault are those of the liquidation vault of its pair. */
  function DecreaseToBeIssued(c: Chain, v: VaultId, tokens: Balance): Result<Chain, Error> {
    var _ :- Need(v in c.vaults, VaultNotFound);
    if IsLiquidated(c, v) then
      var pool := SystemVaultOf(c, v.pair);
      var decreased :- CheckU128(pool.toBeIssued - tokens).OkOr(Arithmetic);
      Ok(c.(liquidation := c.liquidation[v.pair := pool.(toBeIssued := decreased)]))
    else
      var decreased :- CheckU128(c.vaults[v].toBeIssued - tokens).OkOr(Arithmetic);
      Ok(SetVault(c, v, c.vaults[v].(toBeIssued := decreased)))
  }

  function IncreaseIssued(c: Chain, v: VaultId, tokens: Balance): Result<Chain, Error> {
    var _ :- Need(v in c.vaults, VaultNotFound);
    if IsLiquidated(c, v) then
      var pool := SystemVaultOf(c, v.pair);
      var increased :- CheckU128(pool.issued + tokens).OkOr(Arithmetic);
      Ok(c.(liquidation := c.liquidation[v.pair := pool.(issued := increased)]))
    else
      var increased :- CheckU128(c.vaults[v].issued + tokens).OkOr(Arithmetic);
      Ok(SetVault(c, v, c.vaults[v].(issued := increased)))
  }

  function IssueTokens(c: Chain, v: VaultId, tokens: Balance): Result<Chain, Error> {
    var decreased :- DecreaseToBeIssued(c, v, tokens);
    IncreaseIssued(decreased, v, tokens)
  }

  /** The token part of `liquidate_vault`: every counter moves to the liquidation vault. */
  function Liquidate(c: Chain, v: VaultId): Result<Chain, Error> {
    var _ :- Need(v in c.vaults, VaultNotFound);
    var _ :- Need(!IsLiquidated(c, v), VaultLiquidated);
    var vault, pool := c.vaults[v], SystemVaultOf(c, v.pair);
    var issued :- CheckU128(pool.issued + vault.issued).OkOr(Arithmetic);
    var toBeIssued :- CheckU128(pool.toBeIssued + vault.toBeIssued).OkOr(Arithmetic);
    Ok(c.(liquidation := c.liquidation[v.pair := SystemVault(issued, toBeIssued)],
          vaults := c.vaults[v := Vault(Liquidated, 0, 0)]))
  }

  /** floor(collateral * numerator / denominator), with 0/0 read as one. */
  function CalculateCollateral(collateral: Balance, numerator: int, denominator: int): Result<Balance, Error>
    requires numerator >= 0 && denominator >= 0
  {
    if numerator == 0 && denominator == 0 then Ok(collateral)
    else
      var _ :- Need(denominator != 0, Arithmetic);
      CheckU128(collateral * numerator / denominator).OkOr(Arithmetic)
  }

  // ---------- Balances

  function LockOn(c: Chain, a: AccountId, amount: Balance): Result<Chain, Error> {
    var _ :- Need(Get(c.free, a) >= amount, BalanceTooLow);
    Ok(c.(free := c.free[a := Get(c.free, a) - amount], reserved := c.reserved[a := Get(c.reserved, a) + amount]))
  }

  function UnlockOn(c: Chain, a: AccountId, amount: Balance): Result<Chain, Error> {
    var _ :- Need(Get(c.reserved, a) >= amount, BalanceTooLow);
    Ok(c.(free := c.free[a := Get(c.free, a) + amount], reserved := c.reserved[a := Get(c.reserved, a) - amount]))
  }

  function TransferFree(c: Chain, from: AccountId, to: AccountId, amount: Balance): Result<Chain, Error> {
    var _ :- Need(Get(c.free, from) >= amount, BalanceTooLow);
    var debited := c.free[from := Get(c.free, from) - amount];
    Ok(c.(free := debited[to := Get(debited, to) + amount]))
  }

  /** `transfer_funds` from a user's griefing collateral to a free balance. */
  function SlashGriefing(c: Chain, from: AccountId, to: AccountId, amount: Balance): Result<Chain, Error> {
    var unlocked :- UnlockOn(c, from, amount);
    TransferFree(unlocked, from, to, amount)
  }

  function MintTo(c: Chain, a: AccountId, currency: CurrencyId, amount: Balance): Result<Chain, Error> {
    var total :- CheckU128(Get(c.issuance, currency) + amount).OkOr(Arithmetic);
    Ok(c.(issuance := c.issuance[currency := total],
          wrapped := c.wrapped[(a, currency) := Get(c.wrapped, (a, currency)) + amount]))
  }

  // ---------- Requests

  function Tokens(r: Request): int {
    r.amount + r.fee
  }

  function SetStatus(c: Chain, id: IssueId, status: Status): Chain {
    if id in c.requests then c.(requests := c.requests[id := c.requests[id].(status := status)]) else c
  }

  function RequestIssue(c: Chain, env: Env, id: IssueId, requester: AccountId, amount: Balance, v: VaultId)
    : Result<Chain, Error>
  {
    var _ :- Need(Stellar.IsCompatible(amount), IncompatibleAmount);
    var _ :- Need(v in c.vaults, VaultNotFound);
    var _ :- Need(!IsLiquidated(c, v), VaultLiquidated);
    var _ :- Need(c.vaults[v].status == Active(true), VaultNotAcceptingNewIssues);
    var _ :- Need(env.checksPass, External);
    var collateral :- env.inGriefingCurrency.OkOr(External);
    var griefing :- Fee(collateral, v.pair.wrapped, env.griefingRate);
    var locked :- LockOn(c, requester, griefing);
    var _ :- Need(amount >= env.minimum, AmountBelowMinimum);
    BookRequest(locked, env, id, requester, amount, v, griefing)
  }

  /** The end of `_request_issue`: reserve the tokens, split off the fee and store the request. */
  function BookRequest(c: Chain, env: Env, id: IssueId, requester: AccountId, amount: Balance, v: VaultId,
                       griefing: Balance)
    : Result<Chain, Error>
  {
    var booked :- TryIncreaseToBeIssued(c, env, v, amount);
    var split :- SplitOf(amount, v.pair.wrapped, env.feeRate);
    var request := Request(v, requester, split.user.amount, split.fee.amount, griefing,
                           env.block, env.issuePeriod, env.stellarAddress, Pending);
    Ok(booked.(requests := booked.requests[id := request]))
  }

  function SplitOf(amount: Balance, currency: CurrencyId, rate: Balance): Result<Fees.Split, Error> {
    match Fees.SplitRequest(A.Amount(amount, currency), rate)
    case Ok(split) => Ok(split)
    case Err(_) => Err(FeeFailed)
  }

  /** `get_issue_fee` and `get_issue_griefing_collateral`: a rounded multiplication by the rate. */
  function Fee(amount: Balance, currency: CurrencyId, rate: Balance): Result<Balance, Error> {
    match Fees.IssueFee(A.Amount(amount, currency), rate)
    case Ok(fee) => Ok(fee.amount)
    case Err(_) => Err(FeeFailed)
  }

  /** `set_issue_amount`: the request in hand gets both new parts, storage only the new amount. */
  function SetIssueAmount(c: Chain, env: Env, id: IssueId, r: Request, transferred: Balance)
    : Result<(Chain, Request), Error>
  {
    var fee :- Fee(transferred, r.vault.pair.wrapped, env.feeRate);
    var amount :- CheckU128(transferred - fee).OkOr(Arithmetic);
    var stored := if id in c.requests then c.requests[id := c.requests[id].(amount := amount)] else c.requests;
    Ok((c.(requests := stored), r.(amount := amount, fee := fee)))
  }

  /** Unbooks the deficit and slashes in proportion to it; returns the collateral left to release. */
  function SlashForDeficit(c: Chain, r: Request, paid: Balance, expected: Balance): Result<(Chain, Balance), Error> {
    var deficit :- CheckU128(expected - paid).OkOr(Arithmetic);
    UnbookAndSlash(c, r, deficit, CalculateCollateral(r.griefing, paid, expected))
  }

  /** Unbooks tokens and slashes all but what is released, if that is defined. */
  function UnbookAndSlash(c: Chain, r: Request, tokens: Balance, released: Result<Balance, Error>)
    : Result<(Chain, Balance), Error>
  {
    var decreased :- DecreaseToBeIssued(c, r.vault, tokens);
    var release :- released;
    SlashRest(decreased, r, release)
  }

  function SlashRest(c: Chain, r: Request, release: Balance): Result<(Chain, Balance), Error> {
    var slashed :- CheckU128(r.griefing - release).OkOr(Arithmetic);
    var after :- SlashGriefing(c, r.requester, r.vault.account, slashed);
    Ok((after, release))
  }

  /** Returns the collateral to release beside the new chain and request. */
  function DecreaseIssueAmount(c: Chain, env: Env, id: IssueId, r: Request, paid: Balance, expected: Balance)
    : Result<(Chain, Request, Balance), Error>
  {
    var (slashed, release) :- SlashForDeficit(c, r, paid, expected);
    var (after, issue) :- SetIssueAmount(slashed, env, id, r, paid);
    Ok((after, issue, release))
  }

  /**
   * The issuable tokens of an active vault. One that does not accept new issues reports
   * zero in its collateral currency, which cannot be compared with a wrapped amount.
   */
  function IssuableFor(c: Chain, env: Env, v: VaultId): Result<Balance, Error> {
    var _ :- Need(v in c.vaults, VaultNotFound);
    var _ :- Need(!IsLiquidated(c, v), VaultLiquidated);
    if c.vaults[v].status == Active(true) then env.issuable.OkOr(External)
    else if v.pair.collateral == v.pair.wrapped then Ok(0)
    else Err(InvalidCurrency)
  }

  /** Raises the request by `extra` if the vault can take it on; if not, it stays as it was. */
  function RaiseBy(c: Chain, env: Env, id: IssueId, r: Request, expected: Balance, extra: Balance)
    : Result<(Chain, Request), Error>
  {
    match TryIncreaseToBeIssued(c, env, r.vault, extra)
    case Err(_) => Ok((c, r))
    case Ok(increased) =>
      var total :- CheckU128(expected + extra).OkOr(Arithmetic);
      SetIssueAmount(increased, env, id, r, total)
  }

  function TryIncreaseIssueAmount(c: Chain, env: Env, id: IssueId, r: Request, paid: Balance, expected: Balance)
    : Result<(Chain, Request), Error>
  {
    var surplus :- CheckU128(paid - expected).OkOr(Arithmetic);
    var allowed :- IssuableFor(c, env, r.vault);
    RaiseBy(c, env, id, r, expected, if surplus <= allowed then surplus else allowed)
  }

  /** `_handle_issue_requests` for a pending request. */
  function HandlePending(c: Chain, env: Env, executor: AccountId, id: IssueId, r: Request, paid: Balance,
                         expected: Balance)
    : Result<(Chain, Request), Error>
  {
    if paid < expected then
      var _ :- Need(r.requester == executor, InvalidExecutor);
      var (after, issue, release) :- DecreaseIssueAmount(c, env, id, r, paid, expected);
      var unlocked :- UnlockOn(after, r.requester, release);
      Ok((unlocked, issue))
    else if paid > expected && r.vault !in c.vaults then Err(VaultNotFound)
    else if paid > expected && !IsLiquidated(c, r.vault) then
      var (after, issue) :- TryIncreaseIssueAmount(c, env, id, r, paid, expected);
      var unlocked :- UnlockOn(after, r.requester, r.griefing);
      Ok((unlocked, issue))
    else
      var unlocked :- UnlockOn(c, r.requester, r.griefing);
      Ok((unlocked, r))
  }

  /** `_handle_issue_requests` for a cancelled request: its tokens have to be booked again. */
  function HandleCancelled(c: Chain, env: Env, executor: AccountId, id: IssueId, r: Request, paid: Balance,
                           expected: Balance)
    : Result<(Chain, Request), Error>
  {
    var booked :- TryIncreaseToBeIssued(c, env, r.vault, paid);
    var _ :- Need(paid < expected ==> r.requester == executor, InvalidExecutor);
    if paid != expected then SetIssueAmount(booked, env, id, r, paid) else Ok((booked, r))
  }

  /** `get_executable_issue_request_from_id`. */
  function Executable(c: Chain, id: IssueId): Result<Request, Error> {
    var _ :- Need(id in c.requests, IssueIdNotFound);
    var r := c.requests[id];
    match r.status
    case Completed => Err(IssueCompleted)
    case Pending => Ok(r)
    case Cancelled =>
      var _ :- Need(r.vault in c.vaults, VaultNotFound);
      var _ :- Need(!IsLiquidated(c, r.vault), VaultLiquidated);
      var _ :- Need(c.vaults[r.vault].status == Active(true), VaultNotAcceptingNewIssues);
      Ok(r)
  }

  /**
   * What a valid transaction pays for a request: its memo is the shortened id, and it pays
   * the asset of the request to the Stellar account the request names.
   */
  function PaidFor(env: Env, tx: Transaction, id: IssueId, r: Request): Result<Balance, Error> {
    var _ :- Need(P.TextMemo(tx) == Some(id.memo), MemoDoesNotMatch);
    var _ :- Need(env.checksPass, External);
    P.Counted(tx, r.stellarAddress, r.vault.pair.wrapped).OkOr(AssetConversion)
  }

  function Handle(c: Chain, env: Env, executor: AccountId, id: IssueId, r: Request, paid: Balance)
    : Result<(Chain, Request), Error>
  {
    var expected :- CheckU128(Tokens(r)).OkOr(Arithmetic);
    match r.status
    case Completed => Err(IssueCompleted)
    case Cancelled => HandleCancelled(c, env, executor, id, r, paid, expected)
    case Pending => HandlePending(c, env, executor, id, r, paid, expected)
  }

  /** The end of `_execute_issue`: book the issued tokens and mint them. */
  function IssueAndMint(c: Chain, env: Env, id: IssueId, issue: Request): Result<Chain, Error> {
    var total :- CheckU128(Tokens(issue)).OkOr(Arithmetic);
    var issued :- IssueTokens(c, issue.vault, total);
    var minted :- MintTo(issued, issue.requester, issue.vault.pair.wrapped, issue.amount);
    var rewarded :- MintTo(minted, env.feePool, issue.vault.pair.wrapped, issue.fee);
    Ok(SetStatus(rewarded, id, Completed))
  }

  function ExecuteIssue(c: Chain, env: Env, tx: Transaction, executor: AccountId, id: IssueId): Result<Chain, Error> {
    var r :- Executable(c, id);
    var paid :- PaidFor(env, tx, id, r);
    var (handled, issue) :- Handle(c, env, executor, id, r, paid);
    IssueAndMint(handled, env, id, issue)
  }

  // ---------- Cancellation

  /** The later of the global and the request's own period decides. */
  function PeriodOf(env: Env, r: Request): (p: nat)
    ensures p >= env.issuePeriod && p >= r.period && (p == env.issuePeriod || p == r.period)
  {
    if env.issuePeriod >= r.period then env.issuePeriod else r.period
  }

  function Expired(env: Env, r: Request): Result<bool, Error> {
    var _ :- Need(r.opentime + PeriodOf(env, r) <= U32_MAX, Arithmetic);
    Ok(env.block > r.opentime + PeriodOf(env, r))
  }

  /** Releases the part that is not slashed and returns what is. */
  function ReleaseUnslashed(c: Chain, env: Env, caller: AccountId, r: Request): Result<(Chain, Balance), Error> {
    var expired :- Expired(env, r);
    if expired then Ok((c, r.griefing))
    else if r.requester == caller then
      var elapsed := if env.block >= r.opentime then env.block - r.opentime else 0;
      var part :- CalculateCollateral(r.griefing, elapsed, PeriodOf(env, r));
      var slashed := if part <= r.griefing then part else r.griefing;
      var released :- UnlockOn(c, caller, r.griefing - slashed);
      Ok((released, slashed))
    else Err(TimeNotExpired)
  }

  function CancelIssue(c: Chain, env: Env, caller: AccountId, id: IssueId): Result<Chain, Error> {
    var _ :- Need(id in c.requests, IssueIdNotFound);
    var r := c.requests[id];
    var _ :- Need(!r.status.Completed?, IssueCompleted);
    var _ :- Need(!r.status.Cancelled?, IssueCancelled);
    var (released, slashed) :- ReleaseUnslashed(c, env, caller, r);
    var _ :- Need(r.vault in c.vaults, VaultNotFound);
    var paid :- SlashOrReturn(released, r, slashed);
    Unbook(paid, id, r)
  }

  /** Slashed collateral goes to the vault, or back to the requester if the vault is liquidated. */
  function SlashOrReturn(c: Chain, r: Request, slashed: Balance): Result<Chain, Error> {
    if IsLiquidated(c, r.vault) then UnlockOn(c, r.requester, slashed)
    else SlashGriefing(c, r.requester, r.vault.account, slashed)
  }

  function Unbook(c: Chain, id: IssueId, r: Request): Result<Chain, Error> {
    var full :- CheckU128(Tokens(r)).OkOr(Arithmetic);
    var decreased :- DecreaseToBeIssued(c, r.vault, full);
    Ok(SetStatus(decreased, id, Cancelled))
  }
}
