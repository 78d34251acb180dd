/**
 * The storage of the pooled-rewards pallet and what each of its calls does to it.
 * All numbers are inner values of `FixedI128`. Every storage map has default zero.
 */
module RewardLedger {
  import opened Wrappers
  import opened FixedPoint

  // the pallet is generic in its pools, stakers and reward currencies
  type PoolId(==, !new)
  type StakeId(==, !new)
  type CurrencyId(==, !new)

  /** The overflow and underflow errors of the pallet are one constructor here. */
  datatype Error = TryIntoIntError | InsufficientFunds | ZeroTotalStake | MaxRewardCurrencies | Arithmetic

  datatype Ledger = Ledger(
    stake: map<(PoolId, StakeId), int>,
    totalStake: map<PoolId, int>,
    rewardPerToken: map<(CurrencyId, PoolId), int>,
    rewardTally: map<(CurrencyId, PoolId, StakeId), int>,
    totalRewards: map<CurrencyId, int>,
    rewardCurrencies: map<PoolId, set<CurrencyId>>)

  const GENESIS := Ledger(map[], map[], map[], map[], map[], map[])

  function Currencies(l: Ledger, p: PoolId): set<CurrencyId> {
    if p in l.rewardCurrencies then l.rewardCurrencies[p] else {}
  }

  type PerToken = map<(CurrencyId, PoolId), int>
  type Tallies = map<(CurrencyId, PoolId, StakeId), int>

  /** The reward-per-token of `c` times `amount`, as the fixed-point product. */
  function Earned(perToken: PerToken, p: PoolId, c: CurrencyId, amount: int): int {
    TruncDiv(Get(perToken, (c, p)) * amount, ACCURACY)
  }

  function Signed(up: bool, x: int): int {
    if up then x else -x
  }

  /** The tallies of staker `k` in pool `p`, moved up or down by the product for each currency in `cs`. */
  function Retally(tallies: Tallies, perToken: PerToken, cs: set<CurrencyId>, p: PoolId, k: StakeId, amount: int,
                   up: bool)
    : Tallies
  {
    map t | t in tallies.Keys + (set c | c in cs :: (c, p, k)) ::
      if t.0 in cs && t.1 == p && t.2 == k
      then Get(tallies, t) + Signed(up, Earned(perToken, p, t.0, amount))
      else tallies[t]
  }

  /** No checked operation of the tally loop overflows for currency `c`. */
  predicate TallyFits(tallies: Tallies, perToken: PerToken, p: PoolId, k: StakeId, c: CurrencyId, amount: int,
                      up: bool)
  {
    && FitsI128(Earned(perToken, p, c, amount))
    && FitsI128(Get(tallies, (c, p, k)) + Signed(up, Earned(perToken, p, c, amount)))
  }

  /** The tally loop over the currencies `cs`, as one step. */
  function RetallyAll(tallies: Tallies, perToken: PerToken, cs: set<CurrencyId>, p: PoolId, k: StakeId, amount: int,
                      up: bool)
    : Option<Tallies>
  {
    if forall c :: c in cs ==> TallyFits(tallies, perToken, p, k, c, amount, up)
    then Some(Retally(tallies, perToken, cs, p, k, amount, up))
    else None
  }

  /** What `deposit_stake` (`up`) and `withdraw_stake` (not `up`) share. */
  function MoveStake(l: Ledger, p: PoolId, k: StakeId, amount: int, up: bool): Result<Ledger, Error> {
    var stake := Get(l.stake, (p, k)) + Signed(up, amount);
    var total := Get(l.totalStake, p) + Signed(up, amount);
    if !FitsI128(stake) || !FitsI128(total) then Err(Arithmetic)
    else
      var tallies :- RetallyAll(l.rewardTally, l.rewardPerToken, Currencies(l, p), p, k, amount, up).OkOr(Arithmetic);
      Ok(l.(stake := l.stake[(p, k) := stake], totalStake := l.totalStake[p := total], rewardTally := tallies))
  }

  function DepositStake(l: Ledger, p: PoolId, k: StakeId, amount: int): Result<Ledger, Error> {
    MoveStake(l, p, k, amount, true)
  }

  function WithdrawStake(l: Ledger, p: PoolId, k: StakeId, amount: int): Result<Ledger, Error> {
    if amount > Get(l.stake, (p, k)) then Err(InsufficientFunds) else MoveStake(l, p, k, amount, false)
  }

  function DistributeReward(l: Ledger, maxCurrencies: nat, p: PoolId, c: CurrencyId, reward: int)
    : Result<Ledger, Error>
  {
    var total := Get(l.totalStake, p);
    if reward == 0 then Ok(l)
    else if total == 0 then Err(ZeroTotalStake)
    else if c !in Currencies(l, p) && |Currencies(l, p)| >= maxCurrencies then Err(MaxRewardCurrencies)
    else
      var share :- DivI(reward, total).OkOr(Arithmetic);
      var perToken :- CheckI128(Get(l.rewardPerToken, (c, p)) + share).OkOr(Arithmetic);
      var rewards :- CheckI128(Get(l.totalRewards, c) + reward).OkOr(Arithmetic);
      Ok(l.(rewardCurrencies := l.rewardCurrencies[p := Currencies(l, p) + {c}],
            rewardPerToken := l.rewardPerToken[(c, p) := perToken],
            totalRewards := l.totalRewards[c := rewards]))
  }

  function ComputeReward(l: Ledger, p: PoolId, k: StakeId, c: CurrencyId): Result<int, Error> {
    var product :- MulI(Get(l.stake, (p, k)), Get(l.rewardPerToken, (c, p))).OkOr(Arithmetic);
    var pending :- CheckI128(product - Get(l.rewardTally, (c, p, k))).OkOr(Arithmetic);
    Ok(TruncDiv(pending, ACCURACY))
  }

  function WithdrawReward(l: Ledger, p: PoolId, k: StakeId, c: CurrencyId): Result<(Ledger, int), Error> {
    var reward :- ComputeReward(l, p, k, c);
    var rewardFixed :- FromIntegerI(reward).OkOr(TryIntoIntError);
    var rewards :- CheckI128(Get(l.totalRewards, c) - rewardFixed).OkOr(Arithmetic);
    var tally :- MulI(Get(l.stake, (p, k)), Get(l.rewardPerToken, (c, p))).OkOr(Arithmetic);
    Ok((l.(totalRewards := l.totalRewards[c := rewards],
           rewardTally := l.rewardTally[(c, p, k) := tally]), reward))
  }

  // ---------- The RewardsApi entry points, whose amounts are unsigned whole units

  function ToFixed(amount: Balance): Result<int, Error> {
    if amount > I128_MAX then Err(TryIntoIntError) else FromIntegerI(amount).OkOr(TryIntoIntError)
  }

  function ToBalance(inner: int): Result<Balance, Error> {
    if FitsU128(inner) then Ok(inner) else Err(TryIntoIntError)
  }

  function GetStake(l: Ledger, p: PoolId, k: StakeId): Result<Balance, Error> {
    ToBalance(TruncDiv(Get(l.stake, (p, k)), ACCURACY))
  }

  datatype Call =
    | Deposit(pool: PoolId, staker: StakeId, amount: Balance)
    | Withdraw(pool: PoolId, staker: StakeId, amount: Balance)
    | SetStake(pool: PoolId, staker: StakeId, amount: Balance)
    | WithdrawAll(pool: PoolId, staker: StakeId)
    | Distribute(pool: PoolId, currency: CurrencyId, amount: Balance)
    | Claim(pool: PoolId, staker: StakeId, currency: CurrencyId)

  function ApiDeposit(l: Ledger, p: PoolId, k: StakeId, amount: Balance): Result<Ledger, Error> {
    var fixedAmount :- ToFixed(amount);
    DepositStake(l, p, k, fixedAmount)
  }

  function ApiWithdraw(l: Ledger, p: PoolId, k: StakeId, amount: Balance): Result<Ledger, Error> {
    var fixedAmount :- ToFixed(amount);
    WithdrawStake(l, p, k, fixedAmount)
  }

  function ApiClaim(l: Ledger, p: PoolId, k: StakeId, c: CurrencyId): Result<(Ledger, Balance), Error> {
    var (after, reward) :- WithdrawReward(l, p, k, c);
    var balance :- ToBalance(reward);
    Ok((after, balance))
  }

  function ApiCompute(l: Ledger, p: PoolId, k: StakeId, c: CurrencyId): Result<Balance, Error> {
    var reward :- ComputeReward(l, p, k, c);
    ToBalance(reward)
  }

  /** One call. A call that errors is rolled back by the transaction around it. */
  function Apply(l: Ledger, maxCurrencies: nat, call: Call): Result<Ledger, Error> {
    match call
    case Deposit(p, k, amount) => ApiDeposit(l, p, k, amount)
    case Withdraw(p, k, amount) => ApiWithdraw(l, p, k, amount)
    case SetStake(p, k, amount) =>
      var current :- GetStake(l, p, k);
      if current < amount then ApiDeposit(l, p, k, amount - current)
      else if current > amount then ApiWithdraw(l, p, k, current - amount)
      else Ok(l)
    case WithdrawAll(p, k) =>
      var current :- GetStake(l, p, k);
      ApiWithdraw(l, p, k, current)
    case Distribute(p, c, amount) =>
      var fixedAmount :- ToFixed(amount);
      DistributeReward(l, maxCurrencies, p, c, fixedAmount)
    case Claim(p, k, c) =>
      var (after, _) :- ApiClaim(l, p, k, c);
      Ok(after)
  }

  /** The state after any sequence of calls, where a failed call changes nothing. */
  function Exec(maxCurrencies: nat, calls: seq<Call>): Ledger {
    if calls == [] then GENESIS
    else
      var before := Exec(maxCurrencies, calls[..|calls| - 1]);
      match Apply(before, maxCurrencies, calls[|calls| - 1])
      case Ok(after) => after
      case Err(_) => before
  }
}
