/**
 * Every run of the issue pallet: any sequence of its calls, of vault registrations,
 * liquidations and status changes, and of bookings by other pallets, in any environment.
 */
module IssueHistory {
  import opened Wrappers
  import opened FixedPoint
  import opened IssueLedger
  import opened IssueProofs
  import opened IssueEffects
  import opened Sums

  datatype Event =
    | Requested(env: Env, id: IssueId, requester: AccountId, amount: Balance, vault: VaultId)
    | Execute(env: Env, tx: Transaction, executor: AccountId, id: IssueId)
    | Cancel(env: Env, caller: AccountId, id: IssueId)
    | Register(vault: VaultId)
    | Accept(vault: VaultId, accepting: bool)
    | LiquidateVault(vault: VaultId)
    // another pallet changes its booking on an active vault, releases one that was carried to
    // a liquidation vault, or locks and unlocks its own collateral
    | ForeignBook(vault: VaultId, tokens: int)
    | ForeignRelease(vault: VaultId, released: Balance)
    | ForeignLock(account: AccountId, collateral: int)

  datatype World = World(chain: Chain, foreign: Foreign)

  /** Nothing has happened yet; accounts hold some of the griefing currency. */
  function Genesis(free: map<AccountId, nat>): World {
    World(Chain(map[], map[], map[], free, map[], map[], map[]), Foreign(map[], map[], map[]))
  }

  /** Another pallet changes its own booking on an active vault, never below zero. */
  function BookForeign(w: World, v: VaultId, tokens: int): Result<World, Error> {
    var c, f := w.chain, w.foreign;
    var _ :- Need(v in c.vaults && !IsLiquidated(c, v), VaultNotFound);
    var _ :- Need(Get(f.toBeIssued, v) + tokens >= 0, Arithmetic);
    var total :- CheckU128(c.vaults[v].toBeIssued + tokens).OkOr(Arithmetic);
    Ok(World(SetVault(c, v, c.vaults[v].(toBeIssued := total)),
             f.(toBeIssued := f.toBeIssued[v := Get(f.toBeIssued, v) + tokens])))
  }

  /** Another pallet gives up tokens it had booked on a vault that was liquidated since. */
  function ReleaseForeign(w: World, v: VaultId, tokens: Balance): Result<World, Error> {
    var c, f := w.chain, w.foreign;
    var _ :- Need(IsLiquidated(c, v) && tokens <= Get(f.liquidated, v.pair), VaultNotFound);
    var decreased :- DecreaseToBeIssued(c, v, tokens);
    Ok(World(decreased, f.(liquidated := f.liquidated[v.pair := Get(f.liquidated, v.pair) - tokens])))
  }

  function LockForeign(w: World, a: AccountId, amount: int): Result<World, Error> {
    var c, f := w.chain, w.foreign;
    var left, own, all := Get(c.free, a) - amount, Get(f.reserved, a) + amount, Get(c.reserved, a) + amount;
    var _ :- Need(left >= 0 && own >= 0 && all >= 0, BalanceTooLow);
    Ok(World(c.(free := c.free[a := left], reserved := c.reserved[a := all]), f.(reserved := f.reserved[a := own])))
  }

  /** Liquidation carries the bookings of other pallets on the vault along. */
  function CarriedAlong(f: Foreign, v: VaultId): Foreign {
    f.(liquidated := f.liquidated[v.pair := Get(f.liquidated, v.pair) + Get(f.toBeIssued, v)],
       toBeIssued := f.toBeIssued[v := 0])
  }

  function LiquidateWorld(w: World, v: VaultId): Result<World, Error> {
    var liquidated :- Liquidate(w.chain, v);
    Ok(World(liquidated, CarriedAlong(w.foreign, v)))
  }

  function RegisterVault(c: Chain, v: VaultId): Result<Chain, Error> {
    var _ :- Need(v !in c.vaults, External);
    Ok(SetVault(c, v, Vault(Active(true), 0, 0)))
  }

  function AcceptIssues(c: Chain, v: VaultId, accepting: bool): Result<Chain, Error> {
    var _ :- Need(v in c.vaults, VaultNotFound);
    var _ :- Need(!IsLiquidated(c, v), VaultLiquidated);
    Ok(SetVault(c, v, c.vaults[v].(status := Active(accepting))))
  }

  /** One event. Request ids come from a hash and are taken to be fresh. */
  function Apply(w: World, e: Event): Result<World, Error> {
    match e
    case Requested(env, id, requester, amount, v) =>
      var _ :- Need(id !in w.chain.requests, External);
      var c :- RequestIssue(w.chain, env, id, requester, amount, v);
      Ok(w.(chain := c))
    case Execute(env, tx, executor, id) =>
      var c :- ExecuteIssue(w.chain, env, tx, executor, id);
      Ok(w.(chain := c))
    case Cancel(env, caller, id) =>
      var c :- CancelIssue(w.chain, env, caller, id);
      Ok(w.(chain := c))
    case Register(v) =>
      var c :- RegisterVault(w.chain, v);
      Ok(w.(chain := c))
    case Accept(v, accepting) =>
      var c :- AcceptIssues(w.chain, v, accepting);
      Ok(w.(chain := c))
    case LiquidateVault(v) => LiquidateWorld(w, v)
    case ForeignBook(v, tokens) => BookForeign(w, v, tokens)
    case ForeignRelease(v, tokens) => ReleaseForeign(w, v, tokens)
    case ForeignLock(a, amount) => LockForeign(w, a, amount)
  }

  function Step(w: World, e: Event): World {
    match Apply(w, e)
    case Ok(after) => after
    case Err(_) => w
  }

  /** The world after any sequence of events, where a failed call changes nothing. */
  function Exec(free: map<AccountId, nat>, events: seq<Event>): World {
    if events == [] then Genesis(free)
    else Step(Exec(free, events[..|events| - 1]), events[|events| - 1])
  }

  // ---------- Every step keeps the accounts

  lemma RequestKeepsInv(c: Chain, f: Foreign, env: Env, id: IssueId, requester: AccountId, amount: Balance,
                        v: VaultId, d: Chain)
    requires Inv(c, f) && id !in c.requests && RequestIssue(c, env, id, requester, amount, v) == Ok(d)
    ensures Inv(d, f)
  {
    RequestEffect(c, env, id, requester, amount, v, d);
    var r := d.requests[id];
    BookedKeepsVaults(c, d, f, id, r, amount, 0);
    BookedKeepsLiquidation(c, d, f, id, r, amount, 0);
    BookedKeepsIssuance(c, d, f, v, amount, 0);
    SettledKeepsCollateral(c, d, f, id, r);
  }

  lemma ExecuteKeepsInv(c: Chain, f: Foreign, env: Env, tx: Transaction, executor: AccountId, id: IssueId, d: Chain)
    requires Inv(c, f) && ExecuteIssue(c, env, tx, executor, id) == Ok(d)
    ensures Inv(d, f)
  {
    var issue, _ := ExecuteEffect(c, env, tx, executor, id, d);
    var r, before := d.requests[id], c.requests[id];
    var tokens := 0 - TokensFor(before, before.vault);
    BookedKeepsVaults(c, d, f, id, r, tokens, Tokens(issue));
    BookedKeepsLiquidation(c, d, f, id, r, tokens, Tokens(issue));
    BookedKeepsIssuance(c, d, f, r.vault, tokens, Tokens(issue));
    SettledKeepsCollateral(c, d, f, id, r);
  }

  lemma CancelKeepsInv(c: Chain, f: Foreign, env: Env, caller: AccountId, id: IssueId, d: Chain)
    requires Inv(c, f) && CancelIssue(c, env, caller, id) == Ok(d)
    ensures Inv(d, f)
  {
    CancelEffect(c, env, caller, id, d);
    var r := d.requests[id];
    var tokens := 0 - Tokens(c.requests[id]);
    BookedKeepsVaults(c, d, f, id, r, tokens, 0);
    BookedKeepsLiquidation(c, d, f, id, r, tokens, 0);
    BookedKeepsIssuance(c, d, f, r.vault, tokens, 0);
    SettledKeepsCollateral(c, d, f, id, r);
  }

  /** The pending requests of a vault move to the liquidation vault as one. */
  lemma LiquidatedPending(rs: Requests, vaults: map<VaultId, Vault>, v: VaultId, vault: Vault, p: CurrencyPair)
    requires v in vaults && !vaults[v].status.Liquidated? && vault.status.Liquidated?
    ensures PendingIn(rs, vaults[v := vault], p) ==
            PendingIn(rs, vaults, p) + if v.pair == p then PendingOf(rs, v) else 0
  {
    var g := if v.pair == p then 1 else 0;
    SumLinear(LiquidatedMap(rs, vaults, p), TokensMap(rs, v), g, LiquidatedMap(rs, vaults[v := vault], p));
  }

  /** Liquidation, as an effect on the registry alone. */
  predicate Moved(c: Chain, v: VaultId, d: Chain) {
    && v in c.vaults && !IsLiquidated(c, v)
    && d.vaults == c.vaults[v := Vault(Liquidated, 0, 0)]
    && v.pair in d.liquidation && d.liquidation == c.liquidation[v.pair := d.liquidation[v.pair]]
    && d.liquidation[v.pair].toBeIssued == SystemVaultOf(c, v.pair).toBeIssued + c.vaults[v].toBeIssued
    && d.liquidation[v.pair].issued == SystemVaultOf(c, v.pair).issued + c.vaults[v].issued
    && d == c.(vaults := d.vaults, liquidation := d.liquidation)
  }

  lemma MovedKeepsIssuance(c: Chain, v: VaultId, d: Chain)
    requires Moved(c, v, d) && IssuanceBalances(c)
    ensures IssuanceBalances(d)
  {
    forall w ensures IssuedIn(d, w) == Get(d.issuance, w) {
      IssuedByVaultsUpdate(c.vaults, v, d.vaults[v], w);
      IssuedByLiquidationUpdate(c.liquidation, v.pair, d.liquidation[v.pair], w);
    }
  }

  lemma MovedKeepsLiquidation(c: Chain, v: VaultId, d: Chain, f: Foreign, g: Foreign)
    requires Moved(c, v, d) && LiquidationBalances(c, f) && VaultsBalance(c, f)
    requires g.liquidated == f.liquidated[v.pair := Get(f.liquidated, v.pair) + Get(f.toBeIssued, v)]
    ensures LiquidationBalances(d, g)
  {
    forall p ensures SystemVaultOf(d, p).toBeIssued == Get(g.liquidated, p) + PendingIn(d.requests, d.vaults, p) {
      LiquidatedPending(c.requests, c.vaults, v, d.vaults[v], p);
    }
  }

  lemma MovedKeepsVaults(c: Chain, v: VaultId, d: Chain, f: Foreign)
    requires Moved(c, v, d) && ForeignValid(f) && VaultsKnown(c, f) && VaultsBalance(c, f)
    ensures ForeignValid(CarriedAlong(f, v))
    ensures VaultsKnown(d, CarriedAlong(f, v)) && VaultsBalance(d, CarriedAlong(f, v))
  {
    var g := CarriedAlong(f, v);
    forall u | u in d.vaults && !IsLiquidated(d, u)
      ensures d.vaults[u].toBeIssued == Get(g.toBeIssued, u) + PendingOf(d.requests, u)
    {
      assert u != v && u in c.vaults && !IsLiquidated(c, u);
    }
  }

  lemma LiquidateMoves(c: Chain, v: VaultId, d: Chain)
    requires Liquidate(c, v) == Ok(d)
    ensures Moved(c, v, d)
  {
  }

  lemma LiquidateKeepsInv(w: World, v: VaultId, after: World)
    requires Inv(w.chain, w.foreign) && LiquidateWorld(w, v) == Ok(after)
    ensures Inv(after.chain, after.foreign)
  {
    var c, d, f, g := w.chain, after.chain, w.foreign, after.foreign;
    LiquidateMoves(c, v, d);
    MovedKeepsAccounts(c, v, d, f, g);
  }

  lemma MovedKeepsAccounts(c: Chain, v: VaultId, d: Chain, f: Foreign, g: Foreign)
    requires Moved(c, v, d) && Inv(c, f) && g == CarriedAlong(f, v)
    ensures Inv(d, g)
  {
    MovedKeepsVaults(c, v, d, f);
    MovedKeepsIssuance(c, v, d);
    MovedKeepsLiquidation(c, v, d, f, g);
    SameCollateral(c, d, f, g);
  }

  lemma SameCollateral(c: Chain, d: Chain, f: Foreign, g: Foreign)
    requires CollateralBalances(c, f)
    requires d.requests == c.requests && d.reserved == c.reserved && g.reserved == f.reserved
    ensures CollateralBalances(d, g)
  {
  }

  /** A release leaves vaults and issued tokens alone, and takes the same off both sides of one sum. */
  lemma ReleaseKeepsInv(w: World, v: VaultId, tokens: Balance, after: World)
    requires Inv(w.chain, w.foreign) && ReleaseForeign(w, v, tokens) == Ok(after)
    ensures Inv(after.chain, after.foreign)
  {
    DecreaseBooks(w.chain, v, tokens, after.chain);
    BookedKeepsIssuance(w.chain, after.chain, w.foreign, v, 0 - tokens, 0);
    ReleasedLiquidation(w.chain, w.foreign, v, tokens, after.chain, after.foreign);
  }

  lemma ReleasedLiquidation(c: Chain, f: Foreign, v: VaultId, tokens: int, d: Chain, g: Foreign)
    requires LiquidationBalances(c, f) && IsLiquidated(c, v) && Booked(c, d, v, 0 - tokens, 0)
    requires d.requests == c.requests && g.liquidated == f.liquidated[v.pair := Get(f.liquidated, v.pair) - tokens]
    ensures LiquidationBalances(d, g)
  {
    forall p ensures SystemVaultOf(d, p).toBeIssued == Get(g.liquidated, p) + PendingIn(d.requests, d.vaults, p) {
      assert SystemVaultOf(c, p).toBeIssued == Get(f.liquidated, p) + PendingIn(c.requests, c.vaults, p);
    }
  }

  /** Changing a vault other than by liquidation leaves the liquidation sums alone. */
  lemma VaultChangeKeepsLiquidation(c: Chain, v: VaultId, vault: Vault, f: Foreign)
    requires LiquidationBalances(c, f) && !IsLiquidated(c, v) && !vault.status.Liquidated?
    ensures LiquidationBalances(SetVault(c, v, vault), f)
  {
    var d := SetVault(c, v, vault);
    forall p ensures SystemVaultOf(d, p).toBeIssued == Get(f.liquidated, p) + PendingIn(d.requests, d.vaults, p) {
      assert SystemVaultOf(c, p).toBeIssued == Get(f.liquidated, p) + PendingIn(c.requests, c.vaults, p);
      assert LiquidatedMap(d.requests, d.vaults, p) == LiquidatedMap(c.requests, c.vaults, p);
    }
  }

  lemma VaultChangeKeepsIssuance(c: Chain, v: VaultId, vault: Vault)
    requires IssuanceBalances(c) && vault.issued == if v in c.vaults then c.vaults[v].issued else 0
    ensures IssuanceBalances(SetVault(c, v, vault))
  {
    var d := SetVault(c, v, vault);
    forall w ensures IssuedIn(d, w) == Get(d.issuance, w) {
      assert IssuedIn(c, w) == Get(c.issuance, w);
      IssuedByVaultsUpdate(c.vaults, v, vault, w);
    }
  }

  /** A vault that is not registered has no pending requests. */
  lemma UnknownVaultIdle(c: Chain, v: VaultId)
    requires (forall id :: id in c.requests ==> c.requests[id].vault in c.vaults) && v !in c.vaults
    ensures PendingOf(c.requests, v) == 0
  {
    SumZero(TokensMap(c.requests, v));
  }

  /** Registering a vault, changing whether it accepts issues, and bookings by other pallets. */
  lemma VaultChangeKeepsInv(c: Chain, f: Foreign, v: VaultId, vault: Vault, g: Foreign)
    requires Inv(c, f) && !IsLiquidated(c, v) && !vault.status.Liquidated?
    requires vault.issued == if v in c.vaults then c.vaults[v].issued else 0
    requires g == f.(toBeIssued := g.toBeIssued) && ForeignValid(g) && g.toBeIssued.Keys <= c.vaults.Keys + {v}
    requires forall u :: u != v ==> Get(g.toBeIssued, u) == Get(f.toBeIssued, u)
    requires vault.toBeIssued == Get(g.toBeIssued, v) + PendingOf(c.requests, v)
    ensures Inv(SetVault(c, v, vault), g)
  {
    VaultChangeKeepsLiquidation(c, v, vault, f);
    VaultChangeKeepsIssuance(c, v, vault);
  }

  /** Registrations happen before another pallet can have booked on the vault. */
  lemma RegistryStepKeepsInv(w: World, e: Event, after: World, v: VaultId)
    requires Inv(w.chain, w.foreign) && Apply(w, e) == Ok(after)
    requires (e.Register? || e.Accept? || e.ForeignBook?) && v == e.vault
    ensures Inv(after.chain, after.foreign)
  {
    if e.Register? {
      UnknownVaultIdle(w.chain, v);
    }
    VaultChangeKeepsInv(w.chain, w.foreign, v, after.chain.vaults[v], after.foreign);
  }

  lemma LockKeepsInv(w: World, a: AccountId, amount: int, after: World)
    requires Inv(w.chain, w.foreign) && LockForeign(w, a, amount) == Ok(after)
    ensures Inv(after.chain, after.foreign)
  {
  }

  lemma StepKeepsInv(w: World, e: Event)
    requires Inv(w.chain, w.foreign)
    ensures Inv(Step(w, e).chain, Step(w, e).foreign)
  {
    var c, f := w.chain, w.foreign;
    if Apply(w, e).Ok? {
      var after := Apply(w, e).value;
      match e {
        case Requested(env, id, requester, amount, v) =>
          RequestKeepsInv(c, f, env, id, requester, amount, v, after.chain);
        case Execute(env, tx, executor, id) => ExecuteKeepsInv(c, f, env, tx, executor, id, after.chain);
        case Cancel(env, caller, id) => CancelKeepsInv(c, f, env, caller, id, after.chain);
        case LiquidateVault(v) => LiquidateKeepsInv(w, v, after);
        case Register(v) => RegistryStepKeepsInv(w, e, after, v);
        case Accept(v, _) => RegistryStepKeepsInv(w, e, after, v);
        case ForeignBook(v, _) => RegistryStepKeepsInv(w, e, after, v);
        case ForeignRelease(v, tokens) => ReleaseKeepsInv(w, v, tokens, after);
        case ForeignLock(a, amount) => LockKeepsInv(w, a, amount, after);
      }
    }
  }
}
