/**
 * Why a call of the issue pallet or of the registry is refused: exactly when the registry's
 * own calls succeed, and which error a caller sees first.
 */
module IssueRefusals {
  import opened Wrappers
  import opened FixedPoint
  import opened IssueLedger
  import opened IssueProofs
  import opened IssueEffects
  import opened IssueHistory
  import opened IssueTheorems
  import opened IssueLiveness
  import opened Payments
  import opened Sums
  import Fees
  import Stellar = StellarConversion

  // ---------- The registry

  /** A vault is registered once, accepting issues, with no tokens. */
  lemma RegisterIff(w: World, v: VaultId)
    ensures Apply(w, Register(v)).Ok? <==> v !in w.chain.vaults
    ensures Apply(w, Register(v)).Ok? ==>
              Apply(w, Register(v)).value ==
              w.(chain := w.chain.(vaults := w.chain.vaults[v := Vault(Active(true), 0, 0)]))
  {
  }

  /** Whether a vault accepts issues can be changed until it is liquidated, and changes nothing else. */
  lemma AcceptIff(w: World, v: VaultId, accepting: bool)
    ensures Apply(w, Accept(v, accepting)).Ok? <==> v in w.chain.vaults && w.chain.vaults[v].status != Liquidated
    ensures Apply(w, Accept(v, accepting)).Ok? ==>
              var vault := w.chain.vaults[v];
              Apply(w, Accept(v, accepting)).value ==
              w.(chain := w.chain.(vaults :=
                   w.chain.vaults[v := Vault(Active(accepting), vault.issued, vault.toBeIssued)]))
  {
  }

  /** The issued tokens of a vault and of its liquidation vault fit together, being part of one supply. */
  lemma IssuedFitTogether(c: Chain, f: Foreign, v: VaultId)
    requires Inv(c, f) && v in c.vaults
    ensures SystemVaultOf(c, v.pair).issued + c.vaults[v].issued <= Get(c.issuance, v.pair.wrapped)
  {
    var u := v.pair.wrapped;
    SumCovers(IssuedMap(c.vaults, u), v);
    SumNonNegative(PoolMap(c.liquidation, u));
    if v.pair in c.liquidation {
      SumCovers(PoolMap(c.liquidation, u), v.pair);
    }
    assert IssuedIn(c, u) == Get(c.issuance, u);
  }

  /** Supply is bounded in every run, since every mint is checked. */
  lemma {:induction false} SupplyFits(free: map<AccountId, nat>, events: seq<Event>, u: CurrencyId)
    ensures Get(Exec(free, events).chain.issuance, u) <= U128_MAX
  {
    if events != [] {
      var w, e := Exec(free, events[..|events| - 1]), events[|events| - 1];
      SupplyFits(free, events[..|events| - 1], u);
      StepSupplyFits(w, e, u);
    }
  }

  lemma StepSupplyFits(w: World, e: Event, u: CurrencyId)
    requires Get(w.chain.issuance, u) <= U128_MAX
    ensures Get(Step(w, e).chain.issuance, u) <= U128_MAX
  {
    if Apply(w, e).Ok? {
      if e.Execute? {
        ExecuteSupplyFits(w.chain, e.env, e.tx, e.executor, e.id, u);
      } else {
        StepSupply(w, e, u);
      }
    }
  }

  lemma ExecuteSupplyFits(c: Chain, env: Env, tx: Transaction, executor: AccountId, id: IssueId, u: CurrencyId)
    requires ExecuteIssue(c, env, tx, executor, id).Ok? && Get(c.issuance, u) <= U128_MAX
    ensures Get(ExecuteIssue(c, env, tx, executor, id).value.issuance, u) <= U128_MAX
  {
    var r := c.requests[id];
    var paid := PaidFor(env, tx, id, r).value;
    var (h, issue) := Handle(c, env, executor, id, r, paid).value;
    HandleKeepsSupply(c, env, executor, id, r, paid, h, issue);
    MintSupplyFits(h, env, id, issue, u);
  }

  lemma HandleKeepsSupply(c: Chain, env: Env, executor: AccountId, id: IssueId, r: Request, paid: Balance, h: Chain,
                          issue: Request)
    requires id in c.requests && r == c.requests[id] && Handle(c, env, executor, id, r, paid) == Ok((h, issue))
    ensures h.issuance == c.issuance
  {
    if r.status.Pending? {
      HandlePendingEffect(c, env, executor, id, r, paid, h, issue);
    } else {
      HandleCancelledEffect(c, env, executor, id, r, paid, h, issue);
    }
  }

  lemma MintSupplyFits(c: Chain, env: Env, id: IssueId, issue: Request, u: CurrencyId)
    requires IssueAndMint(c, env, id, issue).Ok? && Get(c.issuance, u) <= U128_MAX
    ensures Get(IssueAndMint(c, env, id, issue).value.issuance, u) <= U128_MAX
  {
    var issued := IssueTokens(c, issue.vault, Tokens(issue)).value;
    IssueTokensBooks(c, issue.vault, Tokens(issue), issued);
  }

  /** After any run a vault can be liquidated if and only if it is active and its bookings fit the pool's. */
  lemma LiquidateIff(free: map<AccountId, nat>, events: seq<Event>, v: VaultId)
    ensures var c := Exec(free, events).chain;
            Liquidate(c, v).Ok? <==>
              && v in c.vaults && c.vaults[v].status != Liquidated
              && SystemVaultOf(c, v.pair).toBeIssued + c.vaults[v].toBeIssued <= U128_MAX
  {
    var w := Exec(free, events);
    RunKeepsInv(free, events);
    SupplyFits(free, events, v.pair.wrapped);
    if v in w.chain.vaults {
      IssuedFitTogether(w.chain, w.foreign, v);
    }
  }

  /** What other pallets may do: move their own booking and their own locks, never below zero. */
  lemma ForeignIff(w: World, v: VaultId, tokens: int, released: Balance, a: AccountId, amount: int)
    ensures BookForeign(w, v, tokens).Ok? <==>
              && v in w.chain.vaults && w.chain.vaults[v].status != Liquidated
              && Get(w.foreign.toBeIssued, v) + tokens >= 0 && FitsU128(w.chain.vaults[v].toBeIssued + tokens)
    ensures ReleaseForeign(w, v, released).Ok? <==>
              && v in w.chain.vaults && w.chain.vaults[v].status == Liquidated
              && released <= Get(w.foreign.liquidated, v.pair)
              && released <= SystemVaultOf(w.chain, v.pair).toBeIssued
    ensures LockForeign(w, a, amount).Ok? <==>
              && Get(w.chain.free, a) >= amount
              && Get(w.foreign.reserved, a) + amount >= 0 && Get(w.chain.reserved, a) + amount >= 0
  {
  }

  // ---------- The pallet

  /** A transaction counts for a request if and only if it names it, is proved, and the currency is a Stellar one. */
  lemma PaidForIff(env: Env, tx: Transaction, id: IssueId, r: Request)
    ensures PaidFor(env, tx, id, r).Ok? <==>
              TextMemo(tx) == Some(id.memo) && env.checksPass && r.vault.pair.wrapped.Stellar?
    ensures PaidFor(env, tx, id, r).Ok? ==>
              PaidFor(env, tx, id, r).value == PaymentAmount(tx, r.stellarAddress, r.vault.pair.wrapped.asset)
  {
    CountedIff(tx, r.stellarAddress, r.vault.pair.wrapped);
  }

  /** The errors of an execution that its caller can foresee. */
  lemma ExecuteRefusedWith(c: Chain, env: Env, tx: Transaction, executor: AccountId, id: IssueId)
    ensures var error := ExecuteIssue(c, env, tx, executor, id);
            && (id !in c.requests ==> error == Err(IssueIdNotFound))
            && (id in c.requests ==>
                  var r := c.requests[id];
                  && (r.status.Completed? ==> error == Err(IssueCompleted))
                  && (r.status.Cancelled? && IsLiquidated(c, r.vault) ==> error == Err(VaultLiquidated))
                  && (r.status.Cancelled? && r.vault in c.vaults && c.vaults[r.vault].status == Active(false) ==>
                        error == Err(VaultNotAcceptingNewIssues))
                  && (r.status.Pending? && TextMemo(tx) != Some(id.memo) ==> error == Err(MemoDoesNotMatch)))
  {
  }

  /** An underpayment that the requester does not execute themselves, at a request whose total fits. */
  lemma WrongExecutor(c: Chain, env: Env, tx: Transaction, executor: AccountId, id: IssueId, paid: Balance)
    requires id in c.requests && c.requests[id].status.Pending? && Tokens(c.requests[id]) <= U128_MAX
    requires PaidFor(env, tx, id, c.requests[id]) == Ok(paid) && paid < Tokens(c.requests[id])
    requires executor != c.requests[id].requester
    ensures ExecuteIssue(c, env, tx, executor, id) == Err(InvalidExecutor)
  {
  }

  lemma CancelRefusedWith(c: Chain, env: Env, caller: AccountId, id: IssueId)
    ensures var error := CancelIssue(c, env, caller, id);
            && (id !in c.requests ==> error == Err(IssueIdNotFound))
            && (id in c.requests ==>
                  var r := c.requests[id];
                  && (r.status.Completed? ==> error == Err(IssueCompleted))
                  && (r.status.Cancelled? ==> error == Err(IssueCancelled))
                  && var expiry := r.opentime + PeriodOf(env, r);
                  && (r.status.Pending? && caller != r.requester && env.block <= expiry <= U32_MAX ==>
                        error == Err(TimeNotExpired)))
  {
  }

  lemma RequestRefusedWith(c: Chain, env: Env, id: IssueId, requester: AccountId, amount: Balance, v: VaultId)
    ensures var error := RequestIssue(c, env, id, requester, amount, v);
            && (!Stellar.IsCompatible(amount) ==> error == Err(IncompatibleAmount))
            && (Stellar.IsCompatible(amount) && v !in c.vaults ==> error == Err(VaultNotFound))
            && (Stellar.IsCompatible(amount) && IsLiquidated(c, v) ==> error == Err(VaultLiquidated))
            && (Stellar.IsCompatible(amount) && v in c.vaults && c.vaults[v].status == Active(false) ==>
                  error == Err(VaultNotAcceptingNewIssues))
  {
  }

  /** A compatible request to an accepting vault that is refused for the requester's balance or for its size. */
  lemma RequestTooBig(c: Chain, env: Env, id: IssueId, requester: AccountId, amount: Balance, v: VaultId)
    requires Stellar.IsCompatible(amount) && Accepting(c, v) && env.checksPass && env.inGriefingCurrency.Some?
    requires Fees.FeeFits(env.inGriefingCurrency.value, env.griefingRate)
    ensures var griefing := Fees.FeeOf(env.inGriefingCurrency.value, env.griefingRate);
            var error := RequestIssue(c, env, id, requester, amount, v);
            && (griefing > Get(c.free, requester) ==> error == Err(BalanceTooLow))
            && (griefing <= Get(c.free, requester) ==>
                  && (amount < env.minimum ==> error == Err(AmountBelowMinimum))
                  && (amount >= env.minimum && env.issuable.Some? && env.issuable.value < amount ==>
                        error == Err(ExceedingVaultLimit)))
  {
    FeeIff(env.inGriefingCurrency.value, v.pair.wrapped, env.griefingRate);
  }
}
