/**
 * The issue pallet over its storage: requests, the registry's counters and the balances
 * are updated in place, one external call at a time. Each method is proved against the
 * ledger function that says what it does. `Dispatch` is the transaction around a call.
 */
module IssuePallet {
  import opened Wrappers
  import opened FixedPoint
  import H = IssueHistory
  import L = IssueLedger
  import opened IssueLedger
  import opened IssueProofs
  import Payments
  import opened RequestIds
  import Stellar = StellarConversion
  import opened Sums
  import T = IssueTheorems

  class Pallet {
    var requests: map<IssueId, Request>
    var vaults: map<VaultId, Vault>
    var liquidation: map<CurrencyPair, SystemVault>
    var free: map<AccountId, nat>
    var reserved: map<AccountId, nat>
    var wrapped: map<(AccountId, CurrencyId), nat>
    var issuance: map<CurrencyId, nat>

    function State(): Chain
      reads this
    {
      Chain(requests, vaults, liquidation, free, reserved, wrapped, issuance)
    }

    constructor (c: Chain)
      ensures State() == c
    {
      requests, vaults, liquidation := c.requests, c.vaults, c.liquidation;
      free, reserved, wrapped, issuance := c.free, c.reserved, c.wrapped, c.issuance;
    }

    // ---------- The vault registry and the currencies

    /** The counter is written last, so an error leaves everything as it was. */
    method TryIncreaseToBeIssuedTokens(env: Env, v: VaultId, tokens: Balance) returns (r: Result<(), Error>)
      modifies this`vaults
      ensures r.Ok? ==> TryIncreaseToBeIssued(old(State()), env, v, tokens) == Ok(State())
      ensures r.Err? ==> TryIncreaseToBeIssued(old(State()), env, v, tokens) == Err(r.error) && State() == old(State())
    {
      if v !in vaults {
        return Err(VaultNotFound);
      }
      if vaults[v].status.Liquidated? {
        return Err(VaultLiquidated);
      }
      if env.issuable.None? {
        return Err(External);
      }
      if env.issuable.value < tokens {
        return Err(ExceedingVaultLimit);
      }
      var increased := CheckU128(vaults[v].toBeIssued + tokens);
      if increased.None? {
        return Err(Arithmetic);
      }
      vaults := vaults[v := vaults[v].(toBeIssued := increased.value)];
      r := Ok(());
    }

    method DecreaseToBeIssuedTokens(v: VaultId, tokens: Balance) returns (r: Result<(), Error>)
      modifies this`vaults, this`liquidation
      ensures r.Ok? ==> DecreaseToBeIssued(old(State()), v, tokens) == Ok(State())
      ensures r.Err? ==> DecreaseToBeIssued(old(State()), v, tokens) == Err(r.error)
    {
      if v !in vaults {
        return Err(VaultNotFound);
      }
      if vaults[v].status.Liquidated? {
        var pool := SystemVaultOf(State(), v.pair);
        var decreased := CheckU128(pool.toBeIssued - tokens);
        if decreased.None? {
          return Err(Arithmetic);
        }
        liquidation := liquidation[v.pair := pool.(toBeIssued := decreased.value)];
      } else {
        var decreased := CheckU128(vaults[v].toBeIssued - tokens);
        if decreased.None? {
          return Err(Arithmetic);
        }
        vaults := vaults[v := vaults[v].(toBeIssued := decreased.value)];
      }
      r := Ok(());
    }

    method IncreaseIssuedTokens(v: VaultId, tokens: Balance) returns (r: Result<(), Error>)
      modifies this`vaults, this`liquidation
      ensures r.Ok? ==> IncreaseIssued(old(State()), v, tokens) == Ok(State())
      ensures r.Err? ==> IncreaseIssued(old(State()), v, tokens) == Err(r.error)
    {
      if v !in vaults {
        return Err(VaultNotFound);
      }
      if vaults[v].status.Liquidated? {
        var pool := SystemVaultOf(State(), v.pair);
        var increased := CheckU128(pool.issued + tokens);
        if increased.None? {
          return Err(Arithmetic);
        }
        liquidation := liquidation[v.pair := pool.(issued := increased.value)];
      } else {
        var increased := CheckU128(vaults[v].issued + tokens);
        if increased.None? {
          return Err(Arithmetic);
        }
        vaults := vaults[v := vaults[v].(issued := increased.value)];
      }
      r := Ok(());
    }

    method LockOn(a: AccountId, amount: Balance) returns (r: Result<(), Error>)
      modifies this`free, this`reserved
      ensures r.Ok? ==> L.LockOn(old(State()), a, amount) == Ok(State())
      ensures r.Err? ==> L.LockOn(old(State()), a, amount) == Err(r.error)
    {
      if Get(free, a) < amount {
        return Err(BalanceTooLow);
      }
      free := free[a := Get(free, a) - amount];
      reserved := reserved[a := Get(reserved, a) + amount];
      r := Ok(());
    }

    method UnlockOn(a: AccountId, amount: Balance) returns (r: Result<(), Error>)
      modifies this`free, this`reserved
      ensures r.Ok? ==> L.UnlockOn(old(State()), a, amount) == Ok(State())
      ensures r.Err? ==> L.UnlockOn(old(State()), a, amount) == Err(r.error)
    {
      if Get(reserved, a) < amount {
        return Err(BalanceTooLow);
      }
      free := free[a := Get(free, a) + amount];
      reserved := reserved[a := Get(reserved, a) - amount];
      r := Ok(());
    }

    /** `transfer_funds` from griefing collateral: unlock, then move between free balances. */
    method TransferFunds(from: AccountId, to: AccountId, amount: Balance) returns (r: Result<(), Error>)
      modifies this`free, this`reserved
      ensures r.Ok? ==> SlashGriefing(old(State()), from, to, amount) == Ok(State())
      ensures r.Err? ==> SlashGriefing(old(State()), from, to, amount) == Err(r.error)
    {
      r := UnlockOn(from, amount);
      if r.Err? {
        return;
      }
      if Get(free, from) < amount {
        return Err(BalanceTooLow);
      }
      free := free[from := Get(free, from) - amount];
      free := free[to := Get(free, to) + amount];
    }

    method MintTo(a: AccountId, currency: CurrencyId, amount: Balance) returns (r: Result<(), Error>)
      modifies this`issuance, this`wrapped
      ensures r.Ok? ==> L.MintTo(old(State()), a, currency, amount) == Ok(State())
      ensures r.Err? ==> L.MintTo(old(State()), a, currency, amount) == Err(r.error)
    {
      var total := CheckU128(Get(issuance, currency) + amount);
      if total.None? {
        return Err(Arithmetic);
      }
      issuance := issuance[currency := total.value];
      wrapped := wrapped[(a, currency) := Get(wrapped, (a, currency)) + amount];
      r := Ok(());
    }

    // ---------- Executing

    /** Returns the request as edited in memory. */
    method SetIssueAmount(env: Env, id: IssueId, issue: Request, transferred: Balance)
      returns (r: Result<Request, Error>)
      modifies this`requests
      ensures r.Ok? ==> L.SetIssueAmount(old(State()), env, id, issue, transferred) == Ok((State(), r.value))
      ensures r.Err? ==> L.SetIssueAmount(old(State()), env, id, issue, transferred) == Err(r.error)
    {
      var fee := Fee(transferred, issue.vault.pair.wrapped, env.feeRate);
      if fee.Err? {
        return Err(fee.error);
      }
      var amount := CheckU128(transferred - fee.value);
      if amount.None? {
        return Err(Arithmetic);
      }
      if id in requests {
        requests := requests[id := requests[id].(amount := amount.value)];
      }
      r := Ok(issue.(amount := amount.value, fee := fee.value));
    }

    method SlashForDeficit(issue: Request, paid: Balance, expected: Balance) returns (r: Result<Balance, Error>)
      modifies this
      ensures r.Ok? ==> L.SlashForDeficit(old(State()), issue, paid, expected) == Ok((State(), r.value))
      ensures r.Err? ==> L.SlashForDeficit(old(State()), issue, paid, expected) == Err(r.error)
    {
      var deficit := CheckU128(expected - paid);
      if deficit.None? {
        return Err(Arithmetic);
      }
      var ok := DecreaseToBeIssuedTokens(issue.vault, deficit.value);
      if ok.Err? {
        return Err(ok.error);
      }
      r := CalculateCollateral(issue.griefing, paid, expected);
      if r.Err? {
        return;
      }
      var slashed := CheckU128(issue.griefing - r.value);
      if slashed.None? {
        return Err(Arithmetic);
      }
      ok := TransferFunds(issue.requester, issue.vault.account, slashed.value);
      if ok.Err? {
        return Err(ok.error);
      }
    }

    method DecreaseIssueAmount(env: Env, id: IssueId, issue: Request, paid: Balance, expected: Balance)
      returns (r: Result<(Request, Balance), Error>)
      modifies this
      ensures r.Ok? ==>
                L.DecreaseIssueAmount(old(State()), env, id, issue, paid, expected) ==
                Ok((State(), r.value.0, r.value.1))
      ensures r.Err? ==> L.DecreaseIssueAmount(old(State()), env, id, issue, paid, expected) == Err(r.error)
    {
      var release := SlashForDeficit(issue, paid, expected);
      if release.Err? {
        return Err(release.error);
      }
      var edited := SetIssueAmount(env, id, issue, paid);
      if edited.Err? {
        return Err(edited.error);
      }
      r := Ok((edited.value, release.value));
    }

    /** A vault that cannot take on the surplus is no error: the request stays as it was. */
    method RaiseBy(env: Env, id: IssueId, issue: Request, expected: Balance, extra: Balance)
      returns (r: Result<Request, Error>)
      modifies this
      ensures r.Ok? ==> L.RaiseBy(old(State()), env, id, issue, expected, extra) == Ok((State(), r.value))
      ensures r.Err? ==> L.RaiseBy(old(State()), env, id, issue, expected, extra) == Err(r.error)
    {
      var ok := TryIncreaseToBeIssuedTokens(env, issue.vault, extra);
      if ok.Err? {
        return Ok(issue);
      }
      var total := CheckU128(expected + extra);
      if total.None? {
        return Err(Arithmetic);
      }
      r := SetIssueAmount(env, id, issue, total.value);
    }

    method TryIncreaseIssueAmount(env: Env, id: IssueId, issue: Request, paid: Balance, expected: Balance)
      returns (r: Result<Request, Error>)
      modifies this
      ensures r.Ok? ==> L.TryIncreaseIssueAmount(old(State()), env, id, issue, paid, expected) == Ok((State(), r.value))
      ensures r.Err? ==> L.TryIncreaseIssueAmount(old(State()), env, id, issue, paid, expected) == Err(r.error)
    {
      var surplus := CheckU128(paid - expected);
      if surplus.None? {
        return Err(Arithmetic);
      }
      var allowed := IssuableFor(State(), env, issue.vault);
      if allowed.Err? {
        return Err(allowed.error);
      }
      r := RaiseBy(env, id, issue, expected, if surplus.value <= allowed.value then surplus.value else allowed.value);
    }

    method HandlePendingIssue(env: Env, executor: AccountId, id: IssueId, issue: Request, paid: Balance,
                              expected: Balance)
      returns (r: Result<Request, Error>)
      modifies this
      ensures r.Ok? ==> HandlePending(old(State()), env, executor, id, issue, paid, expected) == Ok((State(), r.value))
      ensures r.Err? ==> HandlePending(old(State()), env, executor, id, issue, paid, expected) == Err(r.error)
    {
      var release := issue.griefing;
      r := Ok(issue);
      if paid < expected {
        if issue.requester != executor {
          return Err(InvalidExecutor);
        }
        var decreased := DecreaseIssueAmount(env, id, issue, paid, expected);
        if decreased.Err? {
          return Err(decreased.error);
        }
        r, release := Ok(decreased.value.0), decreased.value.1;
      } else if paid > expected {
        if issue.vault !in vaults {
          return Err(VaultNotFound);
        }
        if !vaults[issue.vault].status.Liquidated? {
          r := TryIncreaseIssueAmount(env, id, issue, paid, expected);
          if r.Err? {
            return;
          }
        }
      }
      var ok := UnlockOn(issue.requester, release);
      if ok.Err? {
        return Err(ok.error);
      }
    }

    method HandleCancelledIssue(env: Env, executor: AccountId, id: IssueId, issue: Request, paid: Balance,
                                expected: Balance)
      returns (r: Result<Request, Error>)
      modifies this
      ensures r.Ok? ==>
                HandleCancelled(old(State()), env, executor, id, issue, paid, expected) == Ok((State(), r.value))
      ensures r.Err? ==> HandleCancelled(old(State()), env, executor, id, issue, paid, expected) == Err(r.error)
    {
      var ok := TryIncreaseToBeIssuedTokens(env, issue.vault, paid);
      if ok.Err? {
        return Err(ok.error);
      }
      if paid < expected && issue.requester != executor {
        return Err(InvalidExecutor);
      }
      if paid != expected {
        r := SetIssueAmount(env, id, issue, paid);
      } else {
        r := Ok(issue);
      }
    }

    method HandleIssueRequests(env: Env, executor: AccountId, id: IssueId, issue: Request, paid: Balance)
      returns (r: Result<Request, Error>)
      modifies this
      ensures r.Ok? ==> Handle(old(State()), env, executor, id, issue, paid) == Ok((State(), r.value))
      ensures r.Err? ==> Handle(old(State()), env, executor, id, issue, paid) == Err(r.error)
    {
      var expected := CheckU128(Tokens(issue));
      if expected.None? {
        return Err(Arithmetic);
      }
      match issue.status {
        case Completed => r := Err(IssueCompleted);
        case Cancelled => r := HandleCancelledIssue(env, executor, id, issue, paid, expected.value);
        case Pending => r := HandlePendingIssue(env, executor, id, issue, paid, expected.value);
      }
    }

    method IssueAndMintTokens(env: Env, id: IssueId, issue: Request) returns (r: Result<(), Error>)
      modifies this
      ensures r.Ok? ==> IssueAndMint(old(State()), env, id, issue) == Ok(State())
      ensures r.Err? ==> IssueAndMint(old(State()), env, id, issue) == Err(r.error)
    {
      var total := CheckU128(Tokens(issue));
      if total.None? {
        return Err(Arithmetic);
      }
      r := DecreaseToBeIssuedTokens(issue.vault, total.value);
      if r.Err? {
        return;
      }
      r := IncreaseIssuedTokens(issue.vault, total.value);
      if r.Err? {
        return;
      }
      r := MintTo(issue.requester, issue.vault.pair.wrapped, issue.amount);
      if r.Err? {
        return;
      }
      r := MintTo(env.feePool, issue.vault.pair.wrapped, issue.fee);
      if r.Err? {
        return;
      }
      SetIssueStatus(id, Completed);
    }

    method SetIssueStatus(id: IssueId, status: Status)
      modifies this`requests
      ensures State() == SetStatus(old(State()), id, status)
    {
      if id in requests {
        requests := requests[id := requests[id].(status := status)];
      }
    }

    method ExecuteIssue(env: Env, tx: Transaction, executor: AccountId, id: IssueId) returns (r: Result<(), Error>)
      modifies this
      ensures r.Ok? ==> L.ExecuteIssue(old(State()), env, tx, executor, id) == Ok(State())
      ensures r.Err? ==> L.ExecuteIssue(old(State()), env, tx, executor, id) == Err(r.error)
    {
      var issue := Executable(State(), id);
      if issue.Err? {
        return Err(issue.error);
      }
      if Payments.TextMemo(tx) != Some(id.memo) {
        return Err(MemoDoesNotMatch);
      }
      if !env.checksPass {
        return Err(External);
      }
      var paid := Payments.AmountFromEnvelope(tx, issue.value.stellarAddress, issue.value.vault.pair.wrapped);
      if paid.None? {
        return Err(AssetConversion);
      }
      var handled := HandleIssueRequests(env, executor, id, issue.value, paid.value);
      if handled.Err? {
        return Err(handled.error);
      }
      r := IssueAndMintTokens(env, id, handled.value);
    }

    // ---------- Requesting and cancelling

    method RequestIssue(env: Env, id: IssueId, requester: AccountId, amount: Balance, v: VaultId)
      returns (r: Result<(), Error>)
      modifies this
      ensures r.Ok? ==> L.RequestIssue(old(State()), env, id, requester, amount, v) == Ok(State())
      ensures r.Err? ==> L.RequestIssue(old(State()), env, id, requester, amount, v) == Err(r.error)
    {
      if !Stellar.IsCompatible(amount) {
        return Err(IncompatibleAmount);
      }
      if v !in vaults {
        return Err(VaultNotFound);
      }
      if vaults[v].status.Liquidated? {
        return Err(VaultLiquidated);
      }
      if vaults[v].status != Active(true) {
        return Err(VaultNotAcceptingNewIssues);
      }
      if !env.checksPass || env.inGriefingCurrency.None? {
        return Err(External);
      }
      var griefing := Fee(env.inGriefingCurrency.value, v.pair.wrapped, env.griefingRate);
      if griefing.Err? {
        return Err(griefing.error);
      }
      r := LockOn(requester, griefing.value);
      if r.Err? {
        return;
      }
      if amount < env.minimum {
        return Err(AmountBelowMinimum);
      }
      r := InsertRequest(env, id, requester, amount, v, griefing.value);
    }

    method InsertRequest(env: Env, id: IssueId, requester: AccountId, amount: Balance, v: VaultId, griefing: Balance)
      returns (r: Result<(), Error>)
      modifies this
      ensures r.Ok? ==> BookRequest(old(State()), env, id, requester, amount, v, griefing) == Ok(State())
      ensures r.Err? ==> BookRequest(old(State()), env, id, requester, amount, v, griefing) == Err(r.error)
    {
      r := TryIncreaseToBeIssuedTokens(env, v, amount);
      if r.Err? {
        return;
      }
      var split := SplitOf(amount, v.pair.wrapped, env.feeRate);
      if split.Err? {
        return Err(split.error);
      }
      var request := Request(v, requester, split.value.user.amount, split.value.fee.amount, griefing,
                             env.block, env.issuePeriod, env.stellarAddress, Pending);
      requests := requests[id := request];
    }

    method ReleaseUnslashedCollateral(env: Env, caller: AccountId, issue: Request) returns (r: Result<Balance, Error>)
      modifies this`free, this`reserved
      ensures r.Ok? ==> ReleaseUnslashed(old(State()), env, caller, issue) == Ok((State(), r.value))
      ensures r.Err? ==> ReleaseUnslashed(old(State()), env, caller, issue) == Err(r.error)
    {
      var expired := Expired(env, issue);
      if expired.Err? {
        return Err(expired.error);
      }
      if expired.value {
        return Ok(issue.griefing);
      }
      if issue.requester != caller {
        return Err(TimeNotExpired);
      }
      var elapsed := if env.block >= issue.opentime then env.block - issue.opentime else 0;
      var part := CalculateCollateral(issue.griefing, elapsed, PeriodOf(env, issue));
      if part.Err? {
        return Err(part.error);
      }
      var slashed := if part.value <= issue.griefing then part.value else issue.griefing;
      var ok := UnlockOn(caller, issue.griefing - slashed);
      if ok.Err? {
        return Err(ok.error);
      }
      r := Ok(slashed);
    }

    method CancelIssue(env: Env, caller: AccountId, id: IssueId) returns (r: Result<(), Error>)
      modifies this
      ensures r.Ok? ==> L.CancelIssue(old(State()), env, caller, id) == Ok(State())
      ensures r.Err? ==> L.CancelIssue(old(State()), env, caller, id) == Err(r.error)
    {
      if id !in requests {
        return Err(IssueIdNotFound);
      }
      var issue := requests[id];
      if issue.status.Completed? {
        return Err(IssueCompleted);
      }
      if issue.status.Cancelled? {
        return Err(IssueCancelled);
      }
      var slashed := ReleaseUnslashedCollateral(env, caller, issue);
      if slashed.Err? {
        return Err(slashed.error);
      }
      if issue.vault !in vaults {
        return Err(VaultNotFound);
      }
      if vaults[issue.vault].status.Liquidated? {
        r := UnlockOn(issue.requester, slashed.value);
      } else {
        r := TransferFunds(issue.requester, issue.vault.account, slashed.value);
      }
      if r.Err? {
        return;
      }
      r := UnbookIssue(id, issue);
    }

    method UnbookIssue(id: IssueId, issue: Request) returns (r: Result<(), Error>)
      modifies this
      ensures r.Ok? ==> Unbook(old(State()), id, issue) == Ok(State())
      ensures r.Err? ==> Unbook(old(State()), id, issue) == Err(r.error)
    {
      var full := CheckU128(Tokens(issue));
      if full.None? {
        return Err(Arithmetic);
      }
      r := DecreaseToBeIssuedTokens(issue.vault, full.value);
      if r.Err? {
        return;
      }
      SetIssueStatus(id, Cancelled);
    }

    // ---------- The registry and other pallets

    method RegisterVault(v: VaultId) returns (r: Result<(), Error>)
      modifies this`vaults
      ensures r.Ok? ==> H.RegisterVault(old(State()), v) == Ok(State())
      ensures r.Err? ==> H.RegisterVault(old(State()), v) == Err(r.error)
    {
      if v in vaults {
        return Err(External);
      }
      vaults := vaults[v := Vault(Active(true), 0, 0)];
      r := Ok(());
    }

    method AcceptNewIssues(v: VaultId, accepting: bool) returns (r: Result<(), Error>)
      modifies this`vaults
      ensures r.Ok? ==> H.AcceptIssues(old(State()), v, accepting) == Ok(State())
      ensures r.Err? ==> H.AcceptIssues(old(State()), v, accepting) == Err(r.error)
    {
      if v !in vaults {
        return Err(VaultNotFound);
      }
      if vaults[v].status.Liquidated? {
        return Err(VaultLiquidated);
      }
      vaults := vaults[v := vaults[v].(status := Active(accepting))];
      r := Ok(());
    }

    /** Moves the counters of the vault to the liquidation vault of its pair and empties its own. */
    method LiquidateVault(v: VaultId) returns (r: Result<(), Error>)
      modifies this`vaults, this`liquidation
      ensures r.Ok? ==> Liquidate(old(State()), v) == Ok(State())
      ensures r.Err? ==> Liquidate(old(State()), v) == Err(r.error)
    {
      if v !in vaults {
        return Err(VaultNotFound);
      }
      if vaults[v].status.Liquidated? {
        return Err(VaultLiquidated);
      }
      var vault, pool := vaults[v], SystemVaultOf(State(), v.pair);
      var issued, toBeIssued := CheckU128(pool.issued + vault.issued), CheckU128(pool.toBeIssued + vault.toBeIssued);
      if issued.None? || toBeIssued.None? {
        return Err(Arithmetic);
      }
      liquidation := liquidation[v.pair := SystemVault(issued.value, toBeIssued.value)];
      vaults := vaults[v := Vault(Liquidated, 0, 0)];
      r := Ok(());
    }

    /** Another pallet books tokens; `foreign` is its own record and is returned as changed. */
    method BookForeign(foreign: Foreign, v: VaultId, tokens: int) returns (r: Result<Foreign, Error>)
      modifies this`vaults
      ensures r.Ok? ==> H.BookForeign(H.World(old(State()), foreign), v, tokens) == Ok(H.World(State(), r.value))
      ensures r.Err? ==> H.BookForeign(H.World(old(State()), foreign), v, tokens) == Err(r.error)
    {
      if v !in vaults || vaults[v].status.Liquidated? {
        return Err(VaultNotFound);
      }
      var total := CheckU128(vaults[v].toBeIssued + tokens);
      if Get(foreign.toBeIssued, v) + tokens < 0 || total.None? {
        return Err(Arithmetic);
      }
      vaults := vaults[v := vaults[v].(toBeIssued := total.value)];
      r := Ok(foreign.(toBeIssued := foreign.toBeIssued[v := Get(foreign.toBeIssued, v) + tokens]));
    }

    method ReleaseForeign(foreign: Foreign, v: VaultId, tokens: Balance) returns (r: Result<Foreign, Error>)
      modifies this`vaults, this`liquidation
      ensures r.Ok? ==> H.ReleaseForeign(H.World(old(State()), foreign), v, tokens) == Ok(H.World(State(), r.value))
      ensures r.Err? ==> H.ReleaseForeign(H.World(old(State()), foreign), v, tokens) == Err(r.error)
    {
      if v !in vaults || !vaults[v].status.Liquidated? || tokens > Get(foreign.liquidated, v.pair) {
        return Err(VaultNotFound);
      }
      var ok := DecreaseToBeIssuedTokens(v, tokens);
      if ok.Err? {
        return Err(ok.error);
      }
      var left := Get(foreign.liquidated, v.pair) - tokens;
      r := Ok(foreign.(liquidated := foreign.liquidated[v.pair := left]));
    }

    method LockForeign(foreign: Foreign, a: AccountId, amount: int) returns (r: Result<Foreign, Error>)
      modifies this`free, this`reserved
      ensures r.Ok? ==> H.LockForeign(H.World(old(State()), foreign), a, amount) == Ok(H.World(State(), r.value))
      ensures r.Err? ==> H.LockForeign(H.World(old(State()), foreign), a, amount) == Err(r.error)
    {
      var left, own, all := Get(free, a) - amount, Get(foreign.reserved, a) + amount, Get(reserved, a) + amount;
      if left < 0 || own < 0 || all < 0 {
        return Err(BalanceTooLow);
      }
      free, reserved := free[a := left], reserved[a := all];
      r := Ok(foreign.(reserved := foreign.reserved[a := own]));
    }

    // ---------- Transactions

    /** One event, with the records of the other pallets; an error may leave the storage half written. */
    method Perform(foreign: Foreign, e: H.Event) returns (r: Result<Foreign, Error>)
      modifies this
      ensures H.Apply(H.World(old(State()), foreign), e) ==
              match r case Ok(after) => Ok(H.World(State(), after)) case Err(error) => Err(error)
    {
      var done: Result<(), Error>;
      match e {
        case Requested(env, id, requester, amount, v) =>
          if id in requests {
            return Err(External);
          }
          done := RequestIssue(env, id, requester, amount, v);
        case Execute(env, tx, executor, id) => done := ExecuteIssue(env, tx, executor, id);
        case Cancel(env, caller, id) => done := CancelIssue(env, caller, id);
        case Register(v) => done := RegisterVault(v);
        case Accept(v, accepting) => done := AcceptNewIssues(v, accepting);
        case LiquidateVault(v) =>
          done := LiquidateVault(v);
          return match done case Ok(_) => Ok(H.CarriedAlong(foreign, v)) case Err(error) => Err(error);
        case ForeignBook(v, tokens) =>
          r := BookForeign(foreign, v, tokens);
          return;
        case ForeignRelease(v, tokens) =>
          r := ReleaseForeign(foreign, v, tokens);
          return;
        case ForeignLock(a, amount) =>
          r := LockForeign(foreign, a, amount);
          return;
      }
      r := match done case Ok(_) => Ok(foreign) case Err(error) => Err(error);
    }
  }

  /** The transaction around an event: an error leaves the storage as it was. */
  method Dispatch(pallet: Pallet, foreign: Foreign, e: H.Event) returns (r: Result<(), Error>, after: Foreign)
    modifies pallet
    ensures H.World(pallet.State(), after) == H.Step(H.World(old(pallet.State()), foreign), e)
    ensures var outcome := H.Apply(H.World(old(pallet.State()), foreign), e);
            r == match outcome case Ok(_) => Ok(()) case Err(error) => Err(error)
  {
    var saved := pallet.State();
    var done := pallet.Perform(foreign, e);
    if done.Ok? {
      return Ok(()), done.value;
    }
    pallet.requests, pallet.vaults, pallet.liquidation := saved.requests, saved.vaults, saved.liquidation;
    pallet.free, pallet.reserved := saved.free, saved.reserved;
    pallet.wrapped, pallet.issuance := saved.wrapped, saved.issuance;
    return Err(done.error), foreign;
  }

  /**
   * Dispatching any events from an empty storage reaches the chain of that run, and so the
   * storage has the accounting invariant and its supply is backed, by distinct payments if no
   * two of its requests have the same shortened id.
   */
  method Replay(free: map<AccountId, nat>, events: seq<H.Event>) returns (pallet: Pallet, foreign: Foreign)
    ensures fresh(pallet)
    ensures H.World(pallet.State(), foreign) == H.Exec(free, events)
    ensures Inv(pallet.State(), foreign)
    ensures forall u :: IssuedIn(pallet.State(), u) == Get(pallet.issuance, u) <= T.Transferred(free, events, u)
    ensures DistinctMemos(pallet.requests.Keys) ==>
              forall u :: Get(pallet.issuance, u) <= Sum(T.Backing(free, events, u))
  {
    pallet := new Pallet(H.Genesis(free).chain);
    foreign := H.Genesis(free).foreign;
    for i := 0 to |events|
      invariant fresh(pallet) && H.World(pallet.State(), foreign) == H.Exec(free, events[..i])
    {
      assert events[..i + 1][..i] == events[..i];
      var _, after := Dispatch(pallet, foreign, events[i]);
      foreign := after;
    }
    assert events[..|events|] == events;
    T.RunKeepsInv(free, events);
    forall u ensures IssuedIn(pallet.State(), u) == Get(pallet.issuance, u) <= T.Transferred(free, events, u) {
      T.SupplyIsBacked(free, events, u);
    }
    if DistinctMemos(pallet.requests.Keys) {
      forall u ensures Get(pallet.issuance, u) <= Sum(T.Backing(free, events, u)) {
        T.SupplyIsBackedOnce(free, events, u);
      }
    }
  }
}
