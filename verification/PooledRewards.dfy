/**
 * The pooled-rewards pallet: storage items updated in place, one checked operation at a
 * time. Each method is proved against the ledger function that says what it does; an
 * error may leave the storage half written, and `Dispatch`, the transaction around a
 * call, puts it back.
 */
module PooledRewards {
  import opened Wrappers
  import opened FixedPoint
  import H = RewardHistory
  import P = RewardProofs
  import opened RewardLedger

  /** The body of the tally loop, for one currency. */
  function MoveTally(tallies: Tallies, perToken: PerToken, p: PoolId, k: StakeId, c: CurrencyId, amount: int, up: bool)
    : Option<Tallies>
  {
    var product :- MulI(Get(perToken, (c, p)), amount);
    var tally :- CheckI128(Get(tallies, (c, p, k)) + Signed(up, product));
    Some(tallies[(c, p, k) := tally])
  }

  lemma RetallyOne(tallies: Tallies, perToken: PerToken, done: set<CurrencyId>, c: CurrencyId, p: PoolId, k: StakeId,
                   amount: int, up: bool)
    requires c !in done
    ensures var before := Retally(tallies, perToken, done, p, k, amount, up);
            && Get(before, (c, p, k)) == Get(tallies, (c, p, k))
            && Retally(tallies, perToken, done + {c}, p, k, amount, up) ==
               before[(c, p, k) := Get(tallies, (c, p, k)) + Signed(up, Earned(perToken, p, c, amount))]
  {
  }

  /** One turn of the tally loop takes in one more currency and nothing else. */
  lemma MoveTallyOne(tallies: Tallies, perToken: PerToken, done: set<CurrencyId>, c: CurrencyId, p: PoolId, k: StakeId,
                     amount: int, up: bool)
    requires c !in done && RetallyAll(tallies, perToken, done, p, k, amount, up).Some?
    ensures MoveTally(RetallyAll(tallies, perToken, done, p, k, amount, up).value, perToken, p, k, c, amount, up) ==
            RetallyAll(tallies, perToken, done + {c}, p, k, amount, up)
  {
    RetallyOne(tallies, perToken, done, c, p, k, amount, up);
  }

  lemma RetallyFails(tallies: Tallies, perToken: PerToken, some: set<CurrencyId>, cs: set<CurrencyId>, p: PoolId,
                     k: StakeId, amount: int, up: bool)
    requires some <= cs && RetallyAll(tallies, perToken, some, p, k, amount, up).None?
    ensures RetallyAll(tallies, perToken, cs, p, k, amount, up).None?
  {
  }

  /** The loop over the reward currencies of the pool, in `deposit_stake` and `withdraw_stake`. */
  method MoveTallies(tallies: Tallies, perToken: PerToken, cs: set<CurrencyId>, p: PoolId, k: StakeId, amount: int,
                     up: bool)
    returns (r: Option<Tallies>)
    ensures r == RetallyAll(tallies, perToken, cs, p, k, amount, up)
  {
    var todo := cs;
    ghost var done := {};
    r := Some(tallies);
    assert Retally(tallies, perToken, {}, p, k, amount, up) == tallies;
    while todo != {}
      invariant done !! todo && cs == done + todo
      invariant r.Some? && r == RetallyAll(tallies, perToken, done, p, k, amount, up)
      decreases |todo|
    {
      var c :| c in todo;
      MoveTallyOne(tallies, perToken, done, c, p, k, amount, up);
      r := MoveTally(r.value, perToken, p, k, c, amount, up);
      todo, done := todo - {c}, done + {c};
      if r.None? {
        RetallyFails(tallies, perToken, done, cs, p, k, amount, up);
        return;
      }
    }
  }

  class Pallet {
    const maxRewardCurrencies: nat
    var stake: map<(PoolId, StakeId), int>
    var totalStake: map<PoolId, int>
    var rewardPerToken: map<(CurrencyId, PoolId), int>
    var rewardTally: map<(CurrencyId, PoolId, StakeId), int>
    var totalRewards: map<CurrencyId, int>
    var rewardCurrencies: map<PoolId, set<CurrencyId>>

    function State(): Ledger
      reads this
    {
      Ledger(stake, totalStake, rewardPerToken, rewardTally, totalRewards, rewardCurrencies)
    }

    constructor (maxRewardCurrencies: nat)
      ensures State() == GENESIS && this.maxRewardCurrencies == maxRewardCurrencies
    {
      this.maxRewardCurrencies := maxRewardCurrencies;
      stake, totalStake, rewardPerToken := map[], map[], map[];
      rewardTally, totalRewards, rewardCurrencies := map[], map[], map[];
    }

    method DepositStake(p: PoolId, k: StakeId, amount: int) returns (r: Result<(), Error>)
      modifies this
      ensures r.Ok? ==> RewardLedger.DepositStake(old(State()), p, k, amount) == Ok(State())
      ensures r.Err? ==> RewardLedger.DepositStake(old(State()), p, k, amount) == Err(r.error)
    {
      var newStake := CheckI128(Get(stake, (p, k)) + amount);
      if newStake.None? {
        return Err(Arithmetic);
      }
      stake := stake[(p, k) := newStake.value];
      var newTotal := CheckI128(Get(totalStake, p) + amount);
      if newTotal.None? {
        return Err(Arithmetic);
      }
      totalStake := totalStake[p := newTotal.value];
      var tallies := MoveTallies(rewardTally, rewardPerToken, Currencies(State(), p), p, k, amount, true);
      if tallies.None? {
        return Err(Arithmetic);
      }
      rewardTally := tallies.value;
      r := Ok(());
    }

    method WithdrawStake(p: PoolId, k: StakeId, amount: int) returns (r: Result<(), Error>)
      modifies this
      ensures r.Ok? ==> RewardLedger.WithdrawStake(old(State()), p, k, amount) == Ok(State())
      ensures r.Err? ==> RewardLedger.WithdrawStake(old(State()), p, k, amount) == Err(r.error)
    {
      if amount > Get(stake, (p, k)) {
        return Err(InsufficientFunds);
      }
      var newStake := CheckI128(Get(stake, (p, k)) - amount);
      if newStake.None? {
        return Err(Arithmetic);
      }
      stake := stake[(p, k) := newStake.value];
      var newTotal := CheckI128(Get(totalStake, p) - amount);
      if newTotal.None? {
        return Err(Arithmetic);
      }
      totalStake := totalStake[p := newTotal.value];
      var tallies := MoveTallies(rewardTally, rewardPerToken, Currencies(State(), p), p, k, amount, false);
      if tallies.None? {
        return Err(Arithmetic);
      }
      rewardTally := tallies.value;
      r := Ok(());
    }

    method DistributeReward(p: PoolId, c: CurrencyId, reward: int) returns (r: Result<(), Error>)
      modifies this
      ensures r.Ok? ==>
                RewardLedger.DistributeReward(old(State()), maxRewardCurrencies, p, c, reward) == Ok(State())
      ensures r.Err? ==>
                RewardLedger.DistributeReward(old(State()), maxRewardCurrencies, p, c, reward) == Err(r.error)
    {
      if reward == 0 {
        return Ok(());
      }
      if Get(totalStake, p) == 0 {
        return Err(ZeroTotalStake);
      }
      var tracked := Currencies(State(), p);
      if c !in tracked && |tracked| >= maxRewardCurrencies {
        return Err(MaxRewardCurrencies);
      }
      rewardCurrencies := rewardCurrencies[p := tracked + {c}];
      var share := DivI(reward, Get(totalStake, p));
      if share.None? {
        return Err(Arithmetic);
      }
      var perToken := CheckI128(Get(rewardPerToken, (c, p)) + share.value);
      if perToken.None? {
        return Err(Arithmetic);
      }
      rewardPerToken := rewardPerToken[(c, p) := perToken.value];
      var rewards := CheckI128(Get(totalRewards, c) + reward);
      if rewards.None? {
        return Err(Arithmetic);
      }
      totalRewards := totalRewards[c := rewards.value];
      r := Ok(());
    }

    method WithdrawReward(p: PoolId, k: StakeId, c: CurrencyId) returns (r: Result<int, Error>)
      modifies this
      ensures r.Ok? ==> RewardLedger.WithdrawReward(old(State()), p, k, c) == Ok((State(), r.value))
      ensures r.Err? ==> RewardLedger.WithdrawReward(old(State()), p, k, c) == Err(r.error)
    {
      var reward := ComputeReward(State(), p, k, c);
      if reward.Err? {
        return Err(reward.error);
      }
      var rewardFixed := FromIntegerI(reward.value);
      if rewardFixed.None? {
        return Err(TryIntoIntError);
      }
      var rewards := CheckI128(Get(totalRewards, c) - rewardFixed.value);
      if rewards.None? {
        return Err(Arithmetic);
      }
      totalRewards := totalRewards[c := rewards.value];
      var tally := MulI(Get(stake, (p, k)), Get(rewardPerToken, (c, p)));
      if tally.None? {
        return Err(Arithmetic);
      }
      rewardTally := rewardTally[(c, p, k) := tally.value];
      r := Ok(reward.value);
    }

    // ---------- The RewardsApi implementation

    method ApiDepositStake(p: PoolId, k: StakeId, amount: Balance) returns (r: Result<(), Error>)
      modifies this
      ensures r.Ok? ==> ApiDeposit(old(State()), p, k, amount) == Ok(State())
      ensures r.Err? ==> ApiDeposit(old(State()), p, k, amount) == Err(r.error)
    {
      var inner := ToFixed(amount);
      if inner.Err? {
        return Err(inner.error);
      }
      r := DepositStake(p, k, inner.value);
    }

    method ApiWithdrawStake(p: PoolId, k: StakeId, amount: Balance) returns (r: Result<(), Error>)
      modifies this
      ensures r.Ok? ==> ApiWithdraw(old(State()), p, k, amount) == Ok(State())
      ensures r.Err? ==> ApiWithdraw(old(State()), p, k, amount) == Err(r.error)
    {
      var inner := ToFixed(amount);
      if inner.Err? {
        return Err(inner.error);
      }
      r := WithdrawStake(p, k, inner.value);
    }

    /** The trait's default `set_stake`: deposit or withdraw the difference to the current stake. */
    method SetStake(p: PoolId, k: StakeId, amount: Balance) returns (r: Result<(), Error>)
      modifies this
      ensures r.Ok? ==> Apply(old(State()), maxRewardCurrencies, Call.SetStake(p, k, amount)) == Ok(State())
      ensures r.Err? ==> Apply(old(State()), maxRewardCurrencies, Call.SetStake(p, k, amount)) == Err(r.error)
    {
      var current := GetStake(State(), p, k);
      if current.Err? {
        r := Err(current.error);
      } else if current.value < amount {
        r := ApiDepositStake(p, k, amount - current.value);
      } else if current.value > amount {
        r := ApiWithdrawStake(p, k, current.value - amount);
      } else {
        r := Ok(());
      }
    }

    method WithdrawAllStake(p: PoolId, k: StakeId) returns (r: Result<(), Error>)
      modifies this
      ensures r.Ok? ==> Apply(old(State()), maxRewardCurrencies, WithdrawAll(p, k)) == Ok(State())
      ensures r.Err? ==> Apply(old(State()), maxRewardCurrencies, WithdrawAll(p, k)) == Err(r.error)
    {
      var current := GetStake(State(), p, k);
      if current.Err? {
        r := Err(current.error);
      } else {
        r := ApiWithdrawStake(p, k, current.value);
      }
    }

    method ApiWithdrawReward(p: PoolId, k: StakeId, c: CurrencyId) returns (r: Result<Balance, Error>)
      modifies this
      ensures r.Ok? ==> ApiClaim(old(State()), p, k, c) == Ok((State(), r.value))
      ensures r.Err? ==> ApiClaim(old(State()), p, k, c) == Err(r.error)
    {
      var reward := WithdrawReward(p, k, c);
      if reward.Err? {
        return Err(reward.error);
      }
      r := ToBalance(reward.value);
    }

    /** One `RewardsApi` call inside its transaction: on an error the storage is put back. */
    method Dispatch(call: Call) returns (r: Result<(), Error>)
      modifies this
      ensures r.Ok? ==> Apply(old(State()), maxRewardCurrencies, call) == Ok(State())
      ensures r.Err? ==> Apply(old(State()), maxRewardCurrencies, call) == Err(r.error) && State() == old(State())
    {
      var saved := State();
      match call {
        case Deposit(p, k, amount) => r := ApiDepositStake(p, k, amount);
        case Withdraw(p, k, amount) => r := ApiWithdrawStake(p, k, amount);
        case SetStake(p, k, amount) => r := SetStake(p, k, amount);
        case WithdrawAll(p, k) => r := WithdrawAllStake(p, k);
        case Distribute(p, c, amount) =>
          var inner := ToFixed(amount);
          if inner.Err? {
            return Err(inner.error);
          }
          r := DistributeReward(p, c, inner.value);
        case Claim(p, k, c) =>
          var paid := ApiWithdrawReward(p, k, c);
          r := if paid.Ok? then Ok(()) else Err(paid.error);
      }
      if r.Err? {
        stake, totalStake, rewardPerToken := saved.stake, saved.totalStake, saved.rewardPerToken;
        rewardTally, totalRewards, rewardCurrencies := saved.rewardTally, saved.totalRewards, saved.rewardCurrencies;
      }
    }

    /**
     * A whole history of dispatched calls reaches the ledger of that history, and so the
     * storage is valid and holds what it owes in every currency, and little more.
     */
    method Replay(calls: seq<Call>)
      requires State() == GENESIS
      modifies this
      ensures State() == Exec(maxRewardCurrencies, calls)
      ensures P.Valid(State())
      ensures forall c :: 0 <= P.Slack(State(), c) <= H.Dust(maxRewardCurrencies, calls, c)
    {
      for i := 0 to |calls|
        invariant State() == Exec(maxRewardCurrencies, calls[..i])
      {
        var _ := Dispatch(calls[i]);
        assert calls[..i + 1][..i] == calls[..i];
      }
      assert calls[..|calls|] == calls;
      H.StakesAgree(maxRewardCurrencies, calls);
      forall c ensures 0 <= P.Slack(State(), c) <= H.Dust(maxRewardCurrencies, calls, c) {
        H.TwoSidedSolvency(maxRewardCurrencies, calls, c);
      }
    }
  }
}
