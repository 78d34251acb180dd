/** What holds in every run of the issue pallet. */
module IssueTheorems {
  import opened Wrappers
  import opened IssueLedger
  import opened IssueProofs
  import opened IssueEffects
  import opened IssueHistory
  import opened Sums
  import opened RequestIds
  import opened Payments

  lemma GenesisInv(free: map<AccountId, nat>)
    ensures Inv(Genesis(free).chain, Genesis(free).foreign)
  {
    var c := Genesis(free).chain;
    assert forall v :: TokensMap(c.requests, v) == map[];
    assert forall p :: LiquidatedMap(c.requests, c.vaults, p) == map[];
    assert forall a :: GriefingMap(c.requests, a) == map[];
    assert forall w :: IssuedMap(c.vaults, w) == map[];
    assert forall w :: PoolMap(c.liquidation, w) == map[];
  }

  lemma {:induction false} RunKeepsInv(free: map<AccountId, nat>, events: seq<Event>)
    ensures Inv(Exec(free, events).chain, Exec(free, events).foreign)
  {
    if events == [] {
      GenesisInv(free);
    } else {
      RunKeepsInv(free, events[..|events| - 1]);
      StepKeepsInv(Exec(free, events[..|events| - 1]), events[|events| - 1]);
    }
  }

  /**
   * To-be-issued accounting. In every run the to-be-issued tokens of an active vault are
   * those of its pending requests, and those of a liquidation vault are those of the
   * pending requests of the liquidated vaults, beside what other pallets booked.
   */
  lemma ToBeIssuedIsPending(free: map<AccountId, nat>, events: seq<Event>, v: VaultId)
    ensures var w := Exec(free, events);
            && (v in w.chain.vaults && !IsLiquidated(w.chain, v) ==>
                  w.chain.vaults[v].toBeIssued == Get(w.foreign.toBeIssued, v) + PendingOf(w.chain.requests, v))
            && SystemVaultOf(w.chain, v.pair).toBeIssued ==
               Get(w.foreign.liquidated, v.pair) + PendingIn(w.chain.requests, w.chain.vaults, v.pair)
  {
    RunKeepsInv(free, events);
  }

  /** A user's reserve is the collateral of their pending requests, beside what other pallets locked. */
  lemma ReserveIsPendingCollateral(free: map<AccountId, nat>, events: seq<Event>, a: AccountId)
    ensures var w := Exec(free, events);
            Get(w.chain.reserved, a) == Get(w.foreign.reserved, a) + GriefingOf(w.chain.requests, a)
  {
    RunKeepsInv(free, events);
  }

  // ---------- Supply

  /** A successful execution of a request in currency `u`. */
  predicate Executes(w: World, e: Event, u: CurrencyId) {
    && e.Execute? && e.id in w.chain.requests && w.chain.requests[e.id].vault.pair.wrapped == u
    && Apply(w, e).Ok?
  }

  /** What the transaction of a successful execution paid for its request, if in currency `u`. */
  function PaidIn(w: World, e: Event, u: CurrencyId): int {
    if Executes(w, e, u) then
      match PaidFor(e.env, e.tx, e.id, w.chain.requests[e.id])
      case Ok(paid) => paid
      case Err(_) => 0
    else 0
  }

  /** What Stellar moved for the successful executions of a run, in one wrapped currency. */
  function Transferred(free: map<AccountId, nat>, events: seq<Event>, u: CurrencyId): int {
    if events == [] then 0
    else
      Transferred(free, events[..|events| - 1], u) +
      PaidIn(Exec(free, events[..|events| - 1]), events[|events| - 1], u)
  }

  lemma StepSupply(w: World, e: Event, u: CurrencyId)
    ensures Get(Step(w, e).chain.issuance, u) - Get(w.chain.issuance, u) <= PaidIn(w, e, u)
  {
    if Apply(w, e).Ok? {
      var after := Step(w, e);
      match e {
        case Execute(env, tx, executor, id) =>
          var issue, _ := ExecuteEffect(w.chain, env, tx, executor, id, after.chain);
        case Requested(env, id, requester, amount, v) =>
          RequestEffect(w.chain, env, id, requester, amount, v, after.chain);
        case Cancel(env, caller, id) => CancelEffect(w.chain, env, caller, id, after.chain);
        case Register(_) =>
        case Accept(_, _) =>
        case LiquidateVault(_) =>
        case ForeignBook(_, _) =>
        case ForeignRelease(_, _) =>
        case ForeignLock(_, _) =>
      }
    }
  }

  /**
   * Backed minting. In every run the supply of each wrapped currency equals the issued
   * tokens booked over all vaults and liquidation vaults, and never exceeds what the
   * transactions of the executions paid.
   */
  lemma {:induction false} SupplyIsBacked(free: map<AccountId, nat>, events: seq<Event>, u: CurrencyId)
    ensures var w := Exec(free, events);
            IssuedIn(w.chain, u) == Get(w.chain.issuance, u) <= Transferred(free, events, u)
  {
    RunKeepsInv(free, events);
    if events != [] {
      SupplyIsBacked(free, events[..|events| - 1], u);
      StepSupply(Exec(free, events[..|events| - 1]), events[|events| - 1], u);
    }
  }

  // ---------- Each id mints at most once

  predicate IsCompleted(c: Chain, id: IssueId) {
    id in c.requests && c.requests[id].status.Completed?
  }

  lemma CompletedIsFinal(w: World, e: Event, id: IssueId)
    requires IsCompleted(w.chain, id)
    ensures IsCompleted(Step(w, e).chain, id)
    ensures e.Execute? && e.id == id ==> Apply(w, e) == Err(IssueCompleted)
    ensures e.Cancel? && e.id == id ==> Apply(w, e) == Err(IssueCompleted)
  {
    if Apply(w, e).Ok? {
      var after := Step(w, e).chain;
      match e {
        case Execute(env, tx, executor, i) =>
          var issue, _ := ExecuteEffect(w.chain, env, tx, executor, i, after);
        case Requested(env, i, requester, amount, v) => RequestEffect(w.chain, env, i, requester, amount, v, after);
        case Cancel(env, caller, i) => CancelEffect(w.chain, env, caller, i, after);
        case Register(_) =>
        case Accept(_, _) =>
        case LiquidateVault(_) =>
        case ForeignBook(_, _) =>
        case ForeignRelease(_, _) =>
        case ForeignLock(_, _) =>
      }
    }
  }

  predicate OkAt(free: map<AccountId, nat>, events: seq<Event>, i: nat)
    requires i < |events|
  {
    Apply(Exec(free, events[..i]), events[i]).Ok?
  }

  lemma {:induction false} CompletedStays(free: map<AccountId, nat>, events: seq<Event>, i: nat, j: nat, id: IssueId)
    requires i <= j <= |events| && IsCompleted(Exec(free, events[..i]).chain, id)
    ensures IsCompleted(Exec(free, events[..j]).chain, id)
    decreases j - i
  {
    if i < j {
      assert events[..i + 1][..i] == events[..i];
      CompletedIsFinal(Exec(free, events[..i]), events[i], id);
      CompletedStays(free, events, i + 1, j, id);
    }
  }

  /** In every run, two successful executions are of different requests. */
  lemma MintsAtMostOnce(free: map<AccountId, nat>, events: seq<Event>, i: nat, j: nat)
    requires i < j < |events| && events[i].Execute? && events[j].Execute?
    requires OkAt(free, events, i) && OkAt(free, events, j)
    ensures events[i].id != events[j].id
  {
    var w, id := Exec(free, events[..i]), events[i].id;
    var after := Apply(w, events[i]).value;
    var issue, _ := ExecuteEffect(w.chain, events[i].env, events[i].tx, events[i].executor, id, after.chain);
    assert events[..i + 1][..i] == events[..i];
    CompletedStays(free, events, i + 1, j, id);
    CompletedIsFinal(Exec(free, events[..j]), events[j], id);
  }

  // ---------- Each transaction mints at most once

  /** Requests are never removed. */
  lemma RequestsStay(w: World, e: Event)
    ensures w.chain.requests.Keys <= Step(w, e).chain.requests.Keys
  {
    if Apply(w, e).Ok? {
      var after := Step(w, e).chain;
      match e {
        case Execute(env, tx, executor, i) =>
          var issue, _ := ExecuteEffect(w.chain, env, tx, executor, i, after);
        case Requested(env, i, requester, amount, v) => RequestEffect(w.chain, env, i, requester, amount, v, after);
        case Cancel(env, caller, i) => CancelEffect(w.chain, env, caller, i, after);
        case Register(_) =>
        case Accept(_, _) =>
        case LiquidateVault(_) =>
        case ForeignBook(_, _) =>
        case ForeignRelease(_, _) =>
        case ForeignLock(_, _) =>
      }
    }
  }

  /** The transactions that backed an execution in currency `u`, each with what it paid there. */
  function Backing(free: map<AccountId, nat>, events: seq<Event>, u: CurrencyId): map<Transaction, int> {
    if events == [] then map[]
    else
      var w, e := Exec(free, events[..|events| - 1]), events[|events| - 1];
      var before := Backing(free, events[..|events| - 1], u);
      if Executes(w, e, u) then before[e.tx := PaidIn(w, e, u)] else before
  }

  /** A transaction that backed an execution carries the memo of a completed request. */
  ghost predicate Spent(c: Chain, tx: Transaction) {
    exists id :: IsCompleted(c, id) && TextMemo(tx) == Some(id.memo)
  }

  lemma StepKeepsSpent(w: World, e: Event, tx: Transaction)
    requires Spent(w.chain, tx) || (e.Execute? && e.tx == tx && Apply(w, e).Ok?)
    ensures Spent(Step(w, e).chain, tx)
  {
    if Spent(w.chain, tx) {
      var id :| IsCompleted(w.chain, id) && TextMemo(tx) == Some(id.memo);
      CompletedIsFinal(w, e, id);
    } else {
      var issue, _ := ExecuteEffect(w.chain, e.env, tx, e.executor, e.id, Step(w, e).chain);
      assert IsCompleted(Step(w, e).chain, e.id);
    }
  }

  lemma {:induction false} BackingIsSpent(free: map<AccountId, nat>, events: seq<Event>, u: CurrencyId, tx: Transaction)
    requires tx in Backing(free, events, u)
    ensures Spent(Exec(free, events).chain, tx)
  {
    var w, e := Exec(free, events[..|events| - 1]), events[|events| - 1];
    if tx in Backing(free, events[..|events| - 1], u) {
      BackingIsSpent(free, events[..|events| - 1], u, tx);
    }
    StepKeepsSpent(w, e, tx);
  }

  /** With distinct memos, a spent transaction executes nothing more. */
  lemma SpentExecutesNothing(w: World, e: Event)
    requires DistinctMemos(w.chain.requests.Keys) && e.Execute? && Spent(w.chain, e.tx)
    ensures Apply(w, e).Err?
  {
    var id :| IsCompleted(w.chain, id) && TextMemo(e.tx) == Some(id.memo);
    if Apply(w, e).Ok? {
      var issue, _ := ExecuteEffect(w.chain, e.env, e.tx, e.executor, e.id, Apply(w, e).value.chain);
    }
  }

  /**
   * Backed by distinct payments. If no two requests have the same shortened id, the supply
   * of each wrapped currency is at most the sum, over the distinct Stellar transactions
   * used, of what each paid for its request: none is counted twice.
   */
  lemma {:induction false} SupplyIsBackedOnce(free: map<AccountId, nat>, events: seq<Event>, u: CurrencyId)
    requires DistinctMemos(Exec(free, events).chain.requests.Keys)
    ensures Get(Exec(free, events).chain.issuance, u) <= Sum(Backing(free, events, u))
  {
    if events != [] {
      var prefix := events[..|events| - 1];
      var w, e := Exec(free, prefix), events[|events| - 1];
      RequestsStay(w, e);
      SupplyIsBackedOnce(free, prefix, u);
      StepSupply(w, e, u);
      var before := Backing(free, prefix, u);
      if Executes(w, e, u) {
        if e.tx in before {
          BackingIsSpent(free, prefix, u, e.tx);
          SpentExecutesNothing(w, e);
        }
        SumUpdate(before, e.tx, PaidIn(w, e, u));
      }
    }
  }

  // ---------- Collateral is conserved

  ghost function GriefingSupply(c: Chain): int {
    Sum(c.free) + Sum(c.reserved)
  }

  /** Changing one account's balance, as read, moves the sum of the balances by as much. */
  lemma BalanceSum(m: map<AccountId, int>, n: map<AccountId, int>, a: AccountId, x: int)
    requires forall k :: Get(n, k) == Get(m, k) + if k == a then x else 0
    ensures Sum(n) == Sum(m) + x
  {
    SumUpdate(m, a, Get(m, a) + x);
    SumOfReads(n, m[a := Get(m, a) + x]);
  }

  lemma SettledConserves(c: Chain, d: Chain, from: AccountId, to: AccountId, released: int, slashed: int)
    requires Settled(c, d, from, to, released, slashed)
    ensures GriefingSupply(d) == GriefingSupply(c)
  {
    BalanceSum(c.reserved, d.reserved, from, 0 - released - slashed);
    var balances: map<AccountId, int> := c.free;
    var paid := balances[from := Get(c.free, from) + released];
    SumUpdate(balances, from, Get(c.free, from) + released);
    BalanceSum(paid, d.free, to, slashed);
  }

  lemma StepConserves(w: World, e: Event)
    ensures GriefingSupply(Step(w, e).chain) == GriefingSupply(w.chain)
  {
    if Apply(w, e).Ok? {
      var c, d := w.chain, Step(w, e).chain;
      match e {
        case Requested(env, id, requester, amount, v) =>
          RequestEffect(c, env, id, requester, amount, v, d);
          SettledConserves(c, d, requester, v.account, 0 - d.requests[id].griefing, 0);
        case Execute(env, tx, executor, id) =>
          var issue, paid := ExecuteEffect(c, env, tx, executor, id, d);
          var r := c.requests[id];
          SettledConserves(c, d, r.requester, r.vault.account, ReleasedOnExecute(r, paid),
                           GriefingFor(r, r.requester) - ReleasedOnExecute(r, paid));
        case Cancel(env, caller, id) =>
          CancelEffect(c, env, caller, id, d);
          var r := c.requests[id];
          var slashed := SlashedOnCancel(c, env, r);
          SettledConserves(c, d, r.requester, r.vault.account, r.griefing - slashed, slashed);
        case ForeignLock(a, amount) => SettledConserves(c, d, a, a, 0 - amount, 0);
        case Register(_) =>
        case Accept(_, _) =>
        case LiquidateVault(_) =>
        case ForeignBook(_, _) =>
        case ForeignRelease(_, _) =>
      }
    }
  }

  /** No run creates or destroys any of the griefing currency: what is released and slashed was locked. */
  lemma {:induction false} CollateralConserved(free: map<AccountId, nat>, events: seq<Event>)
    ensures GriefingSupply(Exec(free, events).chain) == Sum(free)
  {
    if events != [] {
      CollateralConserved(free, events[..|events| - 1]);
      StepConserves(Exec(free, events[..|events| - 1]), events[|events| - 1]);
    }
  }
}
