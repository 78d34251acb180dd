/**
 * The accounting of the issue pallet. What other pallets booked is kept apart in
 * `Foreign`; the rest of every counter is explained, request by request, by the pending
 * requests. Every call keeps that, and so none of the checked subtractions can fail.
 */
module IssueProofs {
  import opened Wrappers
  import opened IssueLedger
  import opened Sums

  type Requests = map<IssueId, Request>

  /** What pallets other than this one hold in the shared counters. */
  datatype Foreign = Foreign(
    toBeIssued: map<VaultId, int>,
    liquidated: map<CurrencyPair, int>,
    reserved: map<AccountId, int>)

  // ---------- The three sums over pending requests

  function TokensFor(r: Request, v: VaultId): int {
    if r.status.Pending? && r.vault == v then Tokens(r) else 0
  }

  function TokensIn(r: Request, vaults: map<VaultId, Vault>, p: CurrencyPair): int {
    if r.vault in vaults && vaults[r.vault].status.Liquidated? && r.vault.pair == p then TokensFor(r, r.vault) else 0
  }

  function GriefingFor(r: Request, a: AccountId): int {
    if r.status.Pending? && r.requester == a then r.griefing else 0
  }

  ghost function TokensMap(rs: Requests, v: VaultId): map<IssueId, int> {
    map id | id in rs :: TokensFor(rs[id], v)
  }

  ghost function LiquidatedMap(rs: Requests, vaults: map<VaultId, Vault>, p: CurrencyPair): map<IssueId, int> {
    map id | id in rs :: TokensIn(rs[id], vaults, p)
  }

  ghost function GriefingMap(rs: Requests, a: AccountId): map<IssueId, int> {
    map id | id in rs :: GriefingFor(rs[id], a)
  }

  ghost function PendingOf(rs: Requests, v: VaultId): int {
    Sum(TokensMap(rs, v))
  }

  ghost function PendingIn(rs: Requests, vaults: map<VaultId, Vault>, p: CurrencyPair): int {
    Sum(LiquidatedMap(rs, vaults, p))
  }

  ghost function GriefingOf(rs: Requests, a: AccountId): int {
    Sum(GriefingMap(rs, a))
  }

  lemma PendingOfUpdate(rs: Requests, id: IssueId, r: Request, v: VaultId)
    ensures PendingOf(rs[id := r], v) ==
            PendingOf(rs, v) + TokensFor(r, v) - if id in rs then TokensFor(rs[id], v) else 0
  {
    assert TokensMap(rs[id := r], v) == TokensMap(rs, v)[id := TokensFor(r, v)];
    SumUpdate(TokensMap(rs, v), id, TokensFor(r, v));
  }

  lemma PendingInUpdate(rs: Requests, id: IssueId, r: Request, vaults: map<VaultId, Vault>, p: CurrencyPair)
    ensures PendingIn(rs[id := r], vaults, p) ==
            PendingIn(rs, vaults, p) + TokensIn(r, vaults, p) - if id in rs then TokensIn(rs[id], vaults, p) else 0
  {
    assert LiquidatedMap(rs[id := r], vaults, p) == LiquidatedMap(rs, vaults, p)[id := TokensIn(r, vaults, p)];
    SumUpdate(LiquidatedMap(rs, vaults, p), id, TokensIn(r, vaults, p));
  }

  lemma GriefingOfUpdate(rs: Requests, id: IssueId, r: Request, a: AccountId)
    ensures GriefingOf(rs[id := r], a) ==
            GriefingOf(rs, a) + GriefingFor(r, a) - if id in rs then GriefingFor(rs[id], a) else 0
  {
    assert GriefingMap(rs[id := r], a) == GriefingMap(rs, a)[id := GriefingFor(r, a)];
    SumUpdate(GriefingMap(rs, a), id, GriefingFor(r, a));
  }

  /** A pending request is covered by each of the sums it is in. */
  lemma PendingCovered(rs: Requests, vaults: map<VaultId, Vault>, id: IssueId)
    requires id in rs
    ensures TokensFor(rs[id], rs[id].vault) <= PendingOf(rs, rs[id].vault)
    ensures TokensIn(rs[id], vaults, rs[id].vault.pair) <= PendingIn(rs, vaults, rs[id].vault.pair)
    ensures GriefingFor(rs[id], rs[id].requester) <= GriefingOf(rs, rs[id].requester)
  {
    var r := rs[id];
    SumCovers(TokensMap(rs, r.vault), id);
    SumCovers(LiquidatedMap(rs, vaults, r.vault.pair), id);
    SumCovers(GriefingMap(rs, r.requester), id);
  }

  // ---------- The issued tokens of a wrapped currency

  ghost function IssuedMap(vaults: map<VaultId, Vault>, w: CurrencyId): map<VaultId, int> {
    map v | v in vaults :: if v.pair.wrapped == w then vaults[v].issued else 0
  }

  ghost function PoolMap(pools: map<CurrencyPair, SystemVault>, w: CurrencyId): map<CurrencyPair, int> {
    map p | p in pools :: if p.wrapped == w then pools[p].issued else 0
  }

  ghost function IssuedByVaults(vaults: map<VaultId, Vault>, w: CurrencyId): int {
    Sum(IssuedMap(vaults, w))
  }

  ghost function IssuedByLiquidation(pools: map<CurrencyPair, SystemVault>, w: CurrencyId): int {
    Sum(PoolMap(pools, w))
  }

  ghost function IssuedIn(c: Chain, w: CurrencyId): int {
    IssuedByVaults(c.vaults, w) + IssuedByLiquidation(c.liquidation, w)
  }

  lemma IssuedByVaultsUpdate(vaults: map<VaultId, Vault>, v: VaultId, vault: Vault, w: CurrencyId)
    ensures IssuedByVaults(vaults[v := vault], w) ==
            IssuedByVaults(vaults, w)
            + if v.pair.wrapped == w then vault.issued - (if v in vaults then vaults[v].issued else 0) else 0
  {
    var entry := if v.pair.wrapped == w then vault.issued else 0;
    assert IssuedMap(vaults[v := vault], w) == IssuedMap(vaults, w)[v := entry];
    SumUpdate(IssuedMap(vaults, w), v, entry);
  }

  lemma IssuedByLiquidationUpdate(pools: map<CurrencyPair, SystemVault>, p: CurrencyPair, pool: SystemVault,
                                  w: CurrencyId)
    ensures IssuedByLiquidation(pools[p := pool], w) ==
            IssuedByLiquidation(pools, w)
            + if p.wrapped == w then pool.issued - (if p in pools then pools[p].issued else 0) else 0
  {
    var entry := if p.wrapped == w then pool.issued else 0;
    assert PoolMap(pools[p := pool], w) == PoolMap(pools, w)[p := entry];
    SumUpdate(PoolMap(pools, w), p, entry);
  }

  // ---------- The invariant

  ghost predicate VaultsBalance(c: Chain, f: Foreign) {
    forall v :: v in c.vaults && !IsLiquidated(c, v) ==>
      c.vaults[v].toBeIssued == Get(f.toBeIssued, v) + PendingOf(c.requests, v)
  }

  ghost predicate LiquidationBalances(c: Chain, f: Foreign) {
    forall p :: SystemVaultOf(c, p).toBeIssued == Get(f.liquidated, p) + PendingIn(c.requests, c.vaults, p)
  }

  ghost predicate CollateralBalances(c: Chain, f: Foreign) {
    forall a :: Get(c.reserved, a) == Get(f.reserved, a) + GriefingOf(c.requests, a)
  }

  ghost predicate IssuanceBalances(c: Chain) {
    forall w :: IssuedIn(c, w) == Get(c.issuance, w)
  }

  predicate NonNegative<K>(m: map<K, int>) {
    forall k :: k in m ==> m[k] >= 0
  }

  predicate ForeignValid(f: Foreign) {
    NonNegative(f.toBeIssued) && NonNegative(f.liquidated) && NonNegative(f.reserved)
  }

  predicate VaultsKnown(c: Chain, f: Foreign) {
    && (forall id :: id in c.requests ==> c.requests[id].vault in c.vaults)
    && f.toBeIssued.Keys <= c.vaults.Keys
  }

  ghost predicate Inv(c: Chain, f: Foreign) {
    && ForeignValid(f) && VaultsKnown(c, f)
    && VaultsBalance(c, f) && LiquidationBalances(c, f)
    && CollateralBalances(c, f) && IssuanceBalances(c)
  }

  // ---------- The net effect of a call

  /** Only the counters of `v` moved: its own, or those of the liquidation vault if it is liquidated. */
  predicate Booked(c: Chain, d: Chain, v: VaultId, tokens: int, issued: int) {
    && v in c.vaults
    && if IsLiquidated(c, v) then
         && d.vaults == c.vaults
         && v.pair in d.liquidation && d.liquidation == c.liquidation[v.pair := d.liquidation[v.pair]]
         && d.liquidation[v.pair].toBeIssued == SystemVaultOf(c, v.pair).toBeIssued + tokens
         && d.liquidation[v.pair].issued == SystemVaultOf(c, v.pair).issued + issued
       else
         && d.liquidation == c.liquidation
         && v in d.vaults && d.vaults == c.vaults[v := d.vaults[v]]
         && d.vaults[v].status == c.vaults[v].status
         && d.vaults[v].toBeIssued == c.vaults[v].toBeIssued + tokens
         && d.vaults[v].issued == c.vaults[v].issued + issued
  }

  lemma BookedTwice(c: Chain, d: Chain, e: Chain, v: VaultId, t: int, i: int, t': int, i': int)
    requires Booked(c, d, v, t, i) && Booked(d, e, v, t', i')
    ensures Booked(c, e, v, t + t', i + i')
  {
  }

  /** The griefing currency moved as stated: `released` and `slashed` leave the reserve of `from`. */
  ghost predicate Settled(c: Chain, d: Chain, from: AccountId, to: AccountId, released: int, slashed: int) {
    && (forall a :: Get(d.reserved, a) == Get(c.reserved, a) - if a == from then released + slashed else 0)
    && (forall a :: Get(d.free, a) ==
                    Get(c.free, a) + (if a == from then released else 0) + (if a == to then slashed else 0))
  }

  lemma SettledTwice(c: Chain, d: Chain, e: Chain, from: AccountId, to: AccountId, r: int, s: int, r': int, s': int)
    requires Settled(c, d, from, to, r, s) && Settled(d, e, from, to, r', s')
    ensures Settled(c, e, from, to, r + r', s + s')
  {
  }

  lemma BookedKeepsVaults(c: Chain, d: Chain, f: Foreign, id: IssueId, r: Request, tokens: int, issued: int)
    requires Inv(c, f) && Booked(c, d, r.vault, tokens, issued)
    requires d.requests == c.requests[id := r]
    requires id in c.requests ==> c.requests[id].vault == r.vault
    requires tokens == TokensFor(r, r.vault) - if id in c.requests then TokensFor(c.requests[id], r.vault) else 0
    ensures VaultsKnown(d, f) && VaultsBalance(d, f)
  {
    forall v | v in d.vaults && !IsLiquidated(d, v)
      ensures d.vaults[v].toBeIssued == Get(f.toBeIssued, v) + PendingOf(d.requests, v)
    {
      PendingOfUpdate(c.requests, id, r, v);
      assert v in c.vaults && !IsLiquidated(c, v);
    }
  }

  lemma SameLiquidated(rs: Requests, c: Chain, d: Chain, v: VaultId, p: CurrencyPair, tokens: int, issued: int)
    requires Booked(c, d, v, tokens, issued)
    ensures PendingIn(rs, d.vaults, p) == PendingIn(rs, c.vaults, p)
  {
    assert LiquidatedMap(rs, d.vaults, p) == LiquidatedMap(rs, c.vaults, p);
  }

  lemma BookedKeepsLiquidation(c: Chain, d: Chain, f: Foreign, id: IssueId, r: Request, tokens: int, issued: int)
    requires Inv(c, f) && Booked(c, d, r.vault, tokens, issued)
    requires d.requests == c.requests[id := r]
    requires id in c.requests ==> c.requests[id].vault == r.vault
    requires tokens == TokensFor(r, r.vault) - if id in c.requests then TokensFor(c.requests[id], r.vault) else 0
    ensures LiquidationBalances(d, f)
  {
    forall p ensures SystemVaultOf(d, p).toBeIssued == Get(f.liquidated, p) + PendingIn(d.requests, d.vaults, p) {
      assert SystemVaultOf(c, p).toBeIssued == Get(f.liquidated, p) + PendingIn(c.requests, c.vaults, p);
      SameLiquidated(d.requests, c, d, r.vault, p, tokens, issued);
      PendingInUpdate(c.requests, id, r, c.vaults, p);
    }
  }

  lemma BookedKeepsIssuance(c: Chain, d: Chain, f: Foreign, v: VaultId, tokens: int, issued: int)
    requires Inv(c, f) && Booked(c, d, v, tokens, issued)
    requires forall w :: Get(d.issuance, w) == Get(c.issuance, w) + if w == v.pair.wrapped then issued else 0
    ensures IssuanceBalances(d)
  {
    forall w ensures IssuedIn(d, w) == Get(d.issuance, w) {
      assert IssuedIn(c, w) == Get(c.issuance, w);
      if IsLiquidated(c, v) {
        IssuedByLiquidationUpdate(c.liquidation, v.pair, d.liquidation[v.pair], w);
      } else {
        IssuedByVaultsUpdate(c.vaults, v, d.vaults[v], w);
      }
    }
  }

  lemma SettledKeepsCollateral(c: Chain, d: Chain, f: Foreign, id: IssueId, r: Request)
    requires Inv(c, f) && d.requests == c.requests[id := r]
    requires id in c.requests ==> c.requests[id].requester == r.requester
    requires forall a :: Get(d.reserved, a) == Get(c.reserved, a) +
               (if a == r.requester
                then GriefingFor(r, a) - (if id in c.requests then GriefingFor(c.requests[id], a) else 0)
                else 0)
    ensures CollateralBalances(d, f)
  {
    forall a ensures Get(d.reserved, a) == Get(f.reserved, a) + GriefingOf(d.requests, a) {
      GriefingOfUpdate(c.requests, id, r, a);
    }
  }
}
