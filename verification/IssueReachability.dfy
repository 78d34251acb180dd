/** Runs of the issue pallet that reach a refused overpayment, and a transaction that pays twice. */
module IssueReachability {
  import opened Wrappers
  import opened Currencies
  import opened IssueLedger
  import opened IssueProofs
  import opened IssueEffects
  import opened IssueHistory
  import opened IssueTheorems
  import opened IssueLiveness
  import opened Payments
  import Stellar = StellarConversion

  /** No fees, no collateral, and a vault that can issue one stroop. */
  function QuietEnv(feePool: AccountId, address: Key): Env {
    Env(0, 100, 0, 0, 0, feePool, address, Some(0), Some(Stellar.CONVERSION_RATE), true)
  }

  /** A vault is registered, takes a request for one stroop, and stops accepting issues. */
  function StopAccepting(env: Env, v: VaultId, id: IssueId, requester: AccountId): seq<Event> {
    [Register(v), Requested(env, id, requester, Stellar.CONVERSION_RATE, v), Accept(v, false)]
  }

  /** A transaction that pays the asset of the vault to one account, with the memo of the request. */
  function Pay(id: IssueId, address: Key, asset: Asset, stroops: Stellar.Stroops): Transaction {
    Tx(MemoText(id.memo), [Payment(Ed25519(address), asset, stroops)])
  }

  lemma ExecThree(free: map<AccountId, nat>, x: Event, y: Event, z: Event)
    ensures Exec(free, [x, y, z]) == Step(Step(Step(Genesis(free), x), y), z)
  {
    assert [x, y, z][..2] == [x, y] && [x, y][..1] == [x] && [x][..0] == [];
    assert Exec(free, [x]) == Step(Genesis(free), x);
  }

  lemma PayCounts(env: Env, id: IssueId, r: Request, stroops: Stellar.Stroops)
    requires env.checksPass && r.vault.pair.wrapped.Stellar? && stroops >= 0
    ensures PaidFor(env, Pay(id, r.stellarAddress, r.vault.pair.wrapped.asset, stroops), id, r) ==
            Ok(Stellar.CONVERSION_RATE * stroops)
  {
    var op := Payment(Ed25519(r.stellarAddress), r.vault.pair.wrapped.asset, stroops);
    assert [op][..0] == [];
    assert Fold([op], r.stellarAddress, r.vault.pair.wrapped.asset) == stroops;
  }

  /** A request for one stroop is accepted wherever the counter has room. */
  lemma QuietRequest(w: World, env: Env, id: IssueId, requester: AccountId, v: VaultId, d: Chain)
    requires env == QuietEnv(env.feePool, env.stellarAddress) && Accepting(w.chain, v) && id !in w.chain.requests
    requires w.chain.vaults[v].toBeIssued <= Stellar.CONVERSION_RATE
    requires d == Step(w, Requested(env, id, requester, Stellar.CONVERSION_RATE, v)).chain
    ensures id in d.requests && d.requests == w.chain.requests[id := d.requests[id]]
    ensures d.requests[id].status.Pending? && d.requests[id].vault == v && d.issuance == w.chain.issuance
    ensures Tokens(d.requests[id]) == Stellar.CONVERSION_RATE && d.requests[id].stellarAddress == env.stellarAddress
    ensures Accepting(d, v) && d.vaults[v].toBeIssued == w.chain.vaults[v].toBeIssued + Stellar.CONVERSION_RATE
  {
    RequestIff(w.chain, env, id, requester, Stellar.CONVERSION_RATE, v);
    RequestEffect(w.chain, env, id, requester, Stellar.CONVERSION_RATE, v, d);
  }

  lemma Stopped(free: map<AccountId, nat>, env: Env, v: VaultId, id: IssueId, requester: AccountId, c: Chain)
    requires env == QuietEnv(env.feePool, env.stellarAddress)
    requires c == Exec(free, StopAccepting(env, v, id, requester)).chain
    ensures id in c.requests && c.requests[id].status.Pending? && c.requests[id].vault == v
    ensures Tokens(c.requests[id]) == Stellar.CONVERSION_RATE && c.requests[id].stellarAddress == env.stellarAddress
    ensures v in c.vaults && c.vaults[v].status == Active(false) && c.issuance == map[]
  {
    var request := Requested(env, id, requester, Stellar.CONVERSION_RATE, v);
    ExecThree(free, Register(v), request, Accept(v, false));
    var registered := Step(Genesis(free), Register(v));
    QuietRequest(registered, env, id, requester, v, Step(registered, request).chain);
  }

  /**
   * The refusal is reachable. For every vault whose collateral is another currency, there is
   * a run after which an exact payment of a pending request executes and a larger one errs.
   */
  lemma RefusalIsReachable(free: map<AccountId, nat>, feePool: AccountId, address: Key, v: VaultId, id: IssueId,
                           requester: AccountId, executor: AccountId, more: Stellar.Stroops)
    requires v.pair.wrapped.Stellar? && v.pair.collateral != v.pair.wrapped && more > 1
    ensures var env, asset := QuietEnv(feePool, address), v.pair.wrapped.asset;
            var w := Exec(free, StopAccepting(env, v, id, requester));
            && Apply(w, Execute(env, Pay(id, address, asset, 1), executor, id)).Ok?
            && Apply(w, Execute(env, Pay(id, address, asset, more), executor, id)) == Err(InvalidCurrency)
  {
    var env, asset := QuietEnv(feePool, address), v.pair.wrapped.asset;
    var events := StopAccepting(env, v, id, requester);
    var w := Exec(free, events);
    RunKeepsInv(free, events);
    Stopped(free, env, v, id, requester, w.chain);
    var r := w.chain.requests[id];
    PayCounts(env, id, r, 1);
    PayCounts(env, id, r, more);
    ExactPaymentExecutes(w.chain, w.foreign, env, Pay(id, address, asset, 1), executor, id);
    var paid := Stellar.CONVERSION_RATE * more;
    OverpaymentRefused(w.chain, w.foreign, env, Pay(id, address, asset, more), executor, id, paid);
  }

  // ---------- One transaction for two requests

  /** A vault is registered and takes two requests for one stroop each. */
  function TwoRequests(env: Env, v: VaultId, a: IssueId, b: IssueId, requester: AccountId): seq<Event> {
    var amount := Stellar.CONVERSION_RATE;
    [Register(v), Requested(env, a, requester, amount, v), Requested(env, b, requester, amount, v)]
  }

  lemma BothPending(free: map<AccountId, nat>, env: Env, v: VaultId, a: IssueId, b: IssueId, requester: AccountId,
                    c: Chain, id: IssueId)
    requires env == QuietEnv(env.feePool, env.stellarAddress) && a != b && id in {a, b}
    requires c == Exec(free, TwoRequests(env, v, a, b, requester)).chain
    ensures id in c.requests && c.requests[id].status.Pending? && c.requests[id].vault == v
    ensures Tokens(c.requests[id]) == Stellar.CONVERSION_RATE && c.requests[id].stellarAddress == env.stellarAddress
    ensures c.issuance == map[]
  {
    var first := Requested(env, a, requester, Stellar.CONVERSION_RATE, v);
    var second := Requested(env, b, requester, Stellar.CONVERSION_RATE, v);
    ExecThree(free, Register(v), first, second);
    var registered := Step(Genesis(free), Register(v));
    QuietRequest(registered, env, a, requester, v, Step(registered, first).chain);
    var one := Step(registered, first);
    QuietRequest(one, env, b, requester, v, Step(one, second).chain);
  }

  lemma MintedOne(c: Chain, env: Env, tx: Transaction, executor: AccountId, id: IssueId, d: Chain)
    requires ExecuteIssue(c, env, tx, executor, id) == Ok(d)
    requires id in c.requests && c.requests[id].status.Pending?
    requires PaidFor(env, tx, id, c.requests[id]) == Ok(Tokens(c.requests[id]))
    ensures Supply(d, c.requests[id]) == Supply(c, c.requests[id]) + Tokens(c.requests[id])
  {
    var issue, paid := ExecuteEffect(c, env, tx, executor, id, d);
  }

  lemma BothExecute(c: Chain, f: Foreign, env: Env, tx: Transaction, executor: AccountId, a: IssueId, b: IssueId)
    requires Inv(c, f) && a != b && a.memo == b.memo && a in c.requests && b in c.requests && c.issuance == map[]
    requires c.requests[a].status.Pending? && c.requests[b].status.Pending?
    requires c.requests[b].vault == c.requests[a].vault && c.requests[b].stellarAddress == c.requests[a].stellarAddress
    requires Tokens(c.requests[b]) == Tokens(c.requests[a]) <= Stellar.CONVERSION_RATE
    requires PaidFor(env, tx, a, c.requests[a]) == Ok(Tokens(c.requests[a]))
    ensures var one := ExecuteIssue(c, env, tx, executor, a);
            one.Ok? &&
            var two := ExecuteIssue(one.value, env, tx, executor, b);
            two.Ok? && Supply(two.value, c.requests[a]) == 2 * Tokens(c.requests[a])
  {
    ExactPaymentExecutes(c, f, env, tx, executor, a);
    var d := ExecuteIssue(c, env, tx, executor, a).value;
    MintedOne(c, env, tx, executor, a, d);
    MemoTiesPayment(c, f, env, tx, executor, a, b, d);
    OthersUntouched(c, env, tx, executor, a, b, d);
    MintedOne(d, env, tx, executor, b, ExecuteIssue(d, env, tx, executor, b).value);
  }

  /**
   * The hypothesis of `SupplyIsBackedOnce` is needed: for any two ids with the same
   * shortened form there is a run in which one transaction of one stroop executes both
   * requests, and the supply is two.
   */
  lemma SharedMemoIsPaidTwice(free: map<AccountId, nat>, feePool: AccountId, address: Key, v: VaultId, a: IssueId,
                              b: IssueId, requester: AccountId, executor: AccountId)
    requires v.pair.wrapped.Stellar? && a != b && a.memo == b.memo
    ensures var env := QuietEnv(feePool, address);
            var tx := Pay(a, address, v.pair.wrapped.asset, 1);
            var w := Exec(free, TwoRequests(env, v, a, b, requester));
            var one := Apply(w, Execute(env, tx, executor, a));
            one.Ok? &&
            var two := Apply(one.value, Execute(env, tx, executor, b));
            two.Ok? && Get(two.value.chain.issuance, v.pair.wrapped) == 2 * Stellar.CONVERSION_RATE
  {
    var env, tx := QuietEnv(feePool, address), Pay(a, address, v.pair.wrapped.asset, 1);
    var events := TwoRequests(env, v, a, b, requester);
    var w := Exec(free, events);
    RunKeepsInv(free, events);
    BothPending(free, env, v, a, b, requester, w.chain, a);
    BothPending(free, env, v, a, b, requester, w.chain, b);
    PayCounts(env, a, w.chain.requests[a], 1);
    BothExecute(w.chain, w.foreign, env, tx, executor, a, b);
  }
}
