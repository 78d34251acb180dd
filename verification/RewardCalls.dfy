/**
 * Which stake calls and distributions go through. The tally of a stake change is computed in
 * one product of stake and reward-per-token, so a long-rewarded staker can be refused a
 * large exit; a small enough one always succeeds.
 */
module RewardCalls {
  import opened Wrappers
  import opened FixedPoint
  import opened RewardLedger
  import opened RewardProofs
  import opened RewardHistory
  import opened Sums
  import Floors

  /** Every stored number but the total rewards, which solvency bounds, fits a `FixedI128`. */
  ghost predicate Stored(l: Ledger) {
    && (forall p, k :: FitsI128(Get(l.stake, (p, k))))
    && (forall p :: FitsI128(Get(l.totalStake, p)))
    && (forall c, p :: FitsI128(Get(l.rewardPerToken, (c, p))))
    && (forall c, p, k :: FitsI128(Get(l.rewardTally, (c, p, k))))
  }

  lemma MoveKeepsStored(l: Ledger, p: PoolId, k: StakeId, amount: int, up: bool)
    requires Stored(l) && MoveStake(l, p, k, amount, up).Ok?
    ensures Stored(MoveStake(l, p, k, amount, up).value)
  {
    var after := MoveStake(l, p, k, amount, up).value;
    forall q ensures FitsI128(Get(after.totalStake, q)) {
      assert FitsI128(Get(l.totalStake, q));
    }
    forall c, q, j ensures FitsI128(Get(after.rewardTally, (c, q, j))) {
      MoveStakeReads(l, p, k, amount, up, q, j, c);
      assert FitsI128(Get(l.rewardTally, (c, q, j)));
      assert c in Currencies(l, p) ==> TallyFits(l.rewardTally, l.rewardPerToken, p, k, c, amount, up);
    }
  }

  lemma DistributeKeepsStored(l: Ledger, n: nat, p: PoolId, c: CurrencyId, reward: int)
    requires Stored(l) && DistributeReward(l, n, p, c, reward).Ok?
    ensures Stored(DistributeReward(l, n, p, c, reward).value)
  {
  }

  lemma ClaimKeepsStored(l: Ledger, p: PoolId, k: StakeId, c: CurrencyId)
    requires Stored(l) && WithdrawReward(l, p, k, c).Ok?
    ensures Stored(WithdrawReward(l, p, k, c).value.0)
  {
  }

  lemma CallKeepsStored(l: Ledger, n: nat, call: Call)
    requires Valid(l) && Stored(l) && Apply(l, n, call).Ok?
    ensures Stored(Apply(l, n, call).value)
  {
    if IsStakeCall(call) {
      var a, up := StakeCallIsMove(l, n, call);
      if Apply(l, n, call).value != l {
        MoveKeepsStored(l, call.pool, call.staker, a * ACCURACY, up);
      }
    } else if call.Claim? {
      ClaimKeepsStored(l, call.pool, call.staker, call.currency);
    } else {
      DistributeKeepsStored(l, n, call.pool, call.currency, ToFixed(call.amount).value);
    }
  }

  lemma {:induction false} RunKeepsStored(n: nat, calls: seq<Call>)
    ensures Stored(Exec(n, calls))
  {
    if calls != [] {
      var prior := calls[..|calls| - 1];
      RunKeepsStored(n, prior);
      StakesAgree(n, prior);
      if LastOk(n, calls) {
        CallKeepsStored(Exec(n, prior), n, calls[|calls| - 1]);
      }
    }
  }

  // ---------- What a history leaves in storage

  /** A stake and its pool's total after any history, in terms of the calls. */
  lemma StakeStorage(n: nat, calls: seq<Call>, l: Ledger, p: PoolId, k: StakeId)
    requires l == Exec(n, calls)
    ensures 0 <= StakeOf(n, calls, p, k) <= TotalOf(n, calls, p)
    ensures Get(l.stake, (p, k)) == StakeOf(n, calls, p, k) * ACCURACY
  {
    StakesAgree(n, calls);
    StakeWithinTotal(l, p, k);
  }

  lemma TotalStorage(n: nat, calls: seq<Call>, l: Ledger, p: PoolId)
    requires l == Exec(n, calls)
    ensures 0 <= Get(l.totalStake, p) == TotalOf(n, calls, p) * ACCURACY <= I128_MAX
  {
    StakesAgree(n, calls);
    RunKeepsStored(n, calls);
    SumNonNegative(PoolStakes(l, p));
    assert FitsI128(Get(l.totalStake, p));
  }

  lemma RewardStorage(n: nat, calls: seq<Call>, l: Ledger, p: PoolId, c: CurrencyId)
    requires l == Exec(n, calls)
    ensures 0 <= Get(l.rewardPerToken, (c, p)) <= I128_MAX && 0 <= Get(l.totalRewards, c) <= I128_MAX
  {
    StakesAgree(n, calls);
    RunKeepsStored(n, calls);
    TwoSidedSolvency(n, calls, c);
    SumNonNegative(PendingMap(l, c));
    assert FitsI128(Get(l.rewardPerToken, (c, p)));
  }

  lemma TallyStorage(n: nat, calls: seq<Call>, l: Ledger, p: PoolId, k: StakeId, c: CurrencyId)
    requires l == Exec(n, calls)
    ensures I128_MIN <= Get(l.rewardTally, (c, p, k)) <= I128_MAX
    ensures StakeOf(n, calls, p, k) * Get(l.rewardPerToken, (c, p)) - Get(l.rewardTally, (c, p, k)) <= I128_MAX
  {
    StakesAgree(n, calls);
    RunKeepsStored(n, calls);
    TwoSidedSolvency(n, calls, c);
    PendingCovered(l, p, k, c);
    StakeWithinTotal(l, p, k);
    ExactProduct(Whole(Get(l.stake, (p, k))), Get(l.rewardPerToken, (c, p)));
    assert FitsI128(Get(l.rewardTally, (c, p, k)));
  }

  /** One stake is part of its pool's total. */
  lemma StakeWithinTotal(l: Ledger, p: PoolId, k: StakeId)
    requires Valid(l)
    ensures 0 <= Whole(Get(l.stake, (p, k))) <= Sum(PoolStakes(l, p))
    ensures Get(l.stake, (p, k)) == Whole(Get(l.stake, (p, k))) * ACCURACY
  {
    assert WholeStake(Get(l.stake, (p, k)));
    if (p, k) in l.stake {
      SumCovers(PoolStakes(l, p), (p, k));
    } else {
      SumNonNegative(PoolStakes(l, p));
    }
  }

  // ---------- Withdrawals

  /** The tally of one currency: only the product can overflow, since the pending reward is covered. */
  lemma TallyDownIff(n: nat, calls: seq<Call>, l: Ledger, p: PoolId, k: StakeId, c: CurrencyId, a: nat)
    requires l == Exec(n, calls) && a <= StakeOf(n, calls, p, k)
    ensures TallyFits(l.rewardTally, l.rewardPerToken, p, k, c, a * ACCURACY, false) <==>
              a * Get(l.rewardPerToken, (c, p)) <= I128_MAX
  {
    RewardStorage(n, calls, l, p, c);
    TallyStorage(n, calls, l, p, k, c);
    var w, r := StakeOf(n, calls, p, k), Get(l.rewardPerToken, (c, p));
    ExactProduct(a, r);
    Floors.MulMono(0, a, r);
    Floors.MulMono(a, w, r);
  }

  /** The exact condition under which `a` units leave a pool. */
  predicate MayLeave(l: Ledger, p: PoolId, a: int) {
    forall c :: c in Currencies(l, p) ==> a * Get(l.rewardPerToken, (c, p)) <= I128_MAX
  }

  lemma MoveDownIff(n: nat, calls: seq<Call>, l: Ledger, p: PoolId, k: StakeId, a: nat)
    requires l == Exec(n, calls) && a <= StakeOf(n, calls, p, k)
    ensures a * ACCURACY <= Get(l.stake, (p, k)) <= I128_MAX
    ensures MoveStake(l, p, k, a * ACCURACY, false).Ok? <==> MayLeave(l, p, a)
  {
    forall c ensures TallyFits(l.rewardTally, l.rewardPerToken, p, k, c, a * ACCURACY, false) <==>
                       a * Get(l.rewardPerToken, (c, p)) <= I128_MAX {
      TallyDownIff(n, calls, l, p, k, c, a);
    }
    StakeStorage(n, calls, l, p, k);
    TotalStorage(n, calls, l, p);
  }

  /**
   * After any history a withdrawal succeeds if and only if it is within the stake and, for
   * every reward currency of the pool, its product with the reward-per-token fits 128 bits.
   */
  lemma WithdrawIff(n: nat, calls: seq<Call>, p: PoolId, k: StakeId, a: Balance)
    ensures Apply(Exec(n, calls), n, Withdraw(p, k, a)).Ok? <==>
              a <= StakeOf(n, calls, p, k) && MayLeave(Exec(n, calls), p, a)
  {
    var l := Exec(n, calls);
    StakeIsBalance(n, calls, l, p, k);
    if a <= StakeOf(n, calls, p, k) {
      MoveDownIff(n, calls, l, p, k, a);
    }
  }

  lemma StakeIsBalance(n: nat, calls: seq<Call>, l: Ledger, p: PoolId, k: StakeId)
    requires l == Exec(n, calls)
    ensures FitsU128(StakeOf(n, calls, p, k)) && GetStake(l, p, k) == Ok(StakeOf(n, calls, p, k))
    ensures Get(l.stake, (p, k)) == StakeOf(n, calls, p, k) * ACCURACY <= I128_MAX
  {
    StakeStorage(n, calls, l, p, k);
    TotalStorage(n, calls, l, p);
    Floors.ExactDiv(StakeOf(n, calls, p, k), ACCURACY);
  }

  lemma WithdrawAllIsWithdraw(l: Ledger, n: nat, p: PoolId, k: StakeId, w: Balance)
    requires GetStake(l, p, k) == Ok(w)
    ensures Apply(l, n, WithdrawAll(p, k)) == Apply(l, n, Withdraw(p, k, w))
  {
  }

  /** A staker can leave in one call if and only if every product of their stake fits. */
  lemma WithdrawAllIff(n: nat, calls: seq<Call>, p: PoolId, k: StakeId)
    ensures Apply(Exec(n, calls), n, WithdrawAll(p, k)).Ok? <==> MayLeave(Exec(n, calls), p, StakeOf(n, calls, p, k))
  {
    var l, w := Exec(n, calls), StakeOf(n, calls, p, k);
    StakeIsBalance(n, calls, l, p, k);
    WithdrawAllIsWithdraw(l, n, p, k, w);
    WithdrawIff(n, calls, p, k, w);
  }

  // ---------- Deposits

  /** The exact condition under which `a` more units of staker `k` enter a pool whose total is `total`. */
  predicate MayEnter(l: Ledger, p: PoolId, k: StakeId, total: int, a: int) {
    && (total + a) * ACCURACY <= I128_MAX
    && (forall c :: c in Currencies(l, p) ==>
          && a * Get(l.rewardPerToken, (c, p)) <= I128_MAX
          && Get(l.rewardTally, (c, p, k)) + a * Get(l.rewardPerToken, (c, p)) <= I128_MAX)
  }

  lemma TallyUpIff(n: nat, calls: seq<Call>, l: Ledger, p: PoolId, k: StakeId, c: CurrencyId, a: nat)
    requires l == Exec(n, calls)
    ensures TallyFits(l.rewardTally, l.rewardPerToken, p, k, c, a * ACCURACY, true) <==>
              && a * Get(l.rewardPerToken, (c, p)) <= I128_MAX
              && Get(l.rewardTally, (c, p, k)) + a * Get(l.rewardPerToken, (c, p)) <= I128_MAX
  {
    RewardStorage(n, calls, l, p, c);
    TallyStorage(n, calls, l, p, k, c);
    ExactProduct(a, Get(l.rewardPerToken, (c, p)));
    Floors.MulMono(0, a, Get(l.rewardPerToken, (c, p)));
  }

  lemma MoveUpIff(n: nat, calls: seq<Call>, l: Ledger, p: PoolId, k: StakeId, a: nat)
    requires l == Exec(n, calls)
    ensures MoveStake(l, p, k, a * ACCURACY, true).Ok? <==> MayEnter(l, p, k, TotalOf(n, calls, p), a)
    ensures 0 <= TotalOf(n, calls, p)
  {
    forall c ensures TallyFits(l.rewardTally, l.rewardPerToken, p, k, c, a * ACCURACY, true) <==>
                       && a * Get(l.rewardPerToken, (c, p)) <= I128_MAX
                       && Get(l.rewardTally, (c, p, k)) + a * Get(l.rewardPerToken, (c, p)) <= I128_MAX {
      TallyUpIff(n, calls, l, p, k, c, a);
    }
    StakeStorage(n, calls, l, p, k);
    TotalStorage(n, calls, l, p);
  }

  /**
   * After any history a deposit succeeds if and only if the new total fits and, for every
   * reward currency of the pool, the product and the raised tally do.
   */
  lemma DepositIff(n: nat, calls: seq<Call>, p: PoolId, k: StakeId, a: Balance)
    ensures Apply(Exec(n, calls), n, Deposit(p, k, a)).Ok? <==>
              MayEnter(Exec(n, calls), p, k, TotalOf(n, calls, p), a)
  {
    MoveUpIff(n, calls, Exec(n, calls), p, k, a);
  }

  lemma SetStakeIsDifference(l: Ledger, n: nat, p: PoolId, k: StakeId, a: Balance, w: Balance)
    requires GetStake(l, p, k) == Ok(w)
    ensures Apply(l, n, Call.SetStake(p, k, a)) ==
            if a > w then Apply(l, n, Deposit(p, k, a - w))
            else if a < w then Apply(l, n, Withdraw(p, k, w - a))
            else Ok(l)
  {
  }

  /** Raising a stake to `a` succeeds exactly when the deposit of the difference does. */
  lemma SetStakeUpIff(n: nat, calls: seq<Call>, p: PoolId, k: StakeId, a: Balance)
    requires a > StakeOf(n, calls, p, k)
    ensures Apply(Exec(n, calls), n, Call.SetStake(p, k, a)).Ok? <==>
              MayEnter(Exec(n, calls), p, k, TotalOf(n, calls, p), a - StakeOf(n, calls, p, k))
  {
    var l, w := Exec(n, calls), StakeOf(n, calls, p, k);
    StakeIsBalance(n, calls, l, p, k);
    SetStakeIsDifference(l, n, p, k, a, w);
    DepositIff(n, calls, p, k, a - w);
  }

  /** Lowering a stake by `less` succeeds exactly when the withdrawal of `less` does. */
  lemma SetStakeDownIff(n: nat, calls: seq<Call>, p: PoolId, k: StakeId, a: Balance, less: Balance)
    requires 0 < less == StakeOf(n, calls, p, k) - a
    ensures Apply(Exec(n, calls), n, Call.SetStake(p, k, a)).Ok? <==> MayLeave(Exec(n, calls), p, less)
  {
    var l := Exec(n, calls);
    StakeIsBalance(n, calls, l, p, k);
    MoveDownIff(n, calls, l, p, k, less);
    SetStakeLowers(l, n, p, k, a, less);
  }

  lemma SetStakeLowers(l: Ledger, n: nat, p: PoolId, k: StakeId, a: Balance, less: Balance)
    requires a + less <= U128_MAX && GetStake(l, p, k) == Ok(a + less) && less > 0
    requires less * ACCURACY <= Get(l.stake, (p, k)) <= I128_MAX
    ensures Apply(l, n, Call.SetStake(p, k, a)) == MoveStake(l, p, k, less * ACCURACY, false)
  {
  }

  /** Setting a stake to what it is does nothing. */
  lemma SetStakeIdle(n: nat, calls: seq<Call>, p: PoolId, k: StakeId)
    ensures FitsU128(StakeOf(n, calls, p, k))
    ensures Apply(Exec(n, calls), n, Call.SetStake(p, k, StakeOf(n, calls, p, k))) == Ok(Exec(n, calls))
  {
    StakeIsBalance(n, calls, Exec(n, calls), p, k);
    SetStakeIsDifference(Exec(n, calls), n, p, k, StakeOf(n, calls, p, k), StakeOf(n, calls, p, k));
  }

  // ---------- Distributions

  /** The exact condition under which `a` units of `c` are distributed to a pool of `total` units. */
  predicate MayDistribute(l: Ledger, n: nat, p: PoolId, c: CurrencyId, total: int, a: int) {
    && a * ACCURACY <= I128_MAX
    && (a == 0 ||
        (&& total > 0 && (c in Currencies(l, p) || |Currencies(l, p)| < n)
         && Get(l.rewardPerToken, (c, p)) + a * ACCURACY / total <= I128_MAX
         && Get(l.totalRewards, c) + a * ACCURACY <= I128_MAX))
  }

  /** A share is no larger than the whole reward. */
  lemma ShareFits(a: nat, total: int)
    requires total > 0 && a * ACCURACY <= I128_MAX
    ensures DivI(a * ACCURACY, total * ACCURACY) == Some(a * ACCURACY / total) && 0 <= a * ACCURACY / total
  {
    ShareIsExact(a, total);
    Floors.DivMono(0, a * ACCURACY, total);
    Floors.MulMono(1, total, a * ACCURACY);
    Floors.DivMono(a * ACCURACY, total * (a * ACCURACY), total);
    assert total * (a * ACCURACY) == a * ACCURACY * total;
    Floors.ExactDiv(a * ACCURACY, total);
  }

  /**
   * After any history a distribution succeeds if and only if it is zero, or something is
   * staked, the currency is tracked or there is room for one more, and both sums fit.
   */
  lemma DistributeIff(n: nat, calls: seq<Call>, p: PoolId, c: CurrencyId, a: Balance)
    ensures Apply(Exec(n, calls), n, Distribute(p, c, a)).Ok? <==>
              MayDistribute(Exec(n, calls), n, p, c, TotalOf(n, calls, p), a)
  {
    var l, total := Exec(n, calls), TotalOf(n, calls, p);
    TotalStorage(n, calls, l, p);
    RewardStorage(n, calls, l, p, c);
    if total > 0 && a * ACCURACY <= I128_MAX {
      ShareFits(a, total);
    }
  }

  /** Distributing nothing changes nothing, and a distribution tracks its own currency and no other. */
  lemma DistributeTracks(l: Ledger, n: nat, p: PoolId, c: CurrencyId, a: Balance, q: PoolId)
    requires Apply(l, n, Distribute(p, c, a)).Ok?
    ensures var after := Apply(l, n, Distribute(p, c, a)).value;
            && (a == 0 ==> after == l)
            && Currencies(after, q) == Currencies(l, q) + if a > 0 && q == p then {c} else {}
  {
  }

  /** The refusals that have an error of their own. */
  lemma RefusedWith(n: nat, calls: seq<Call>, p: PoolId, k: StakeId, c: CurrencyId, a: Balance)
    requires 0 < a * ACCURACY <= I128_MAX
    ensures var l := Exec(n, calls);
            && (a > StakeOf(n, calls, p, k) ==> Apply(l, n, Withdraw(p, k, a)) == Err(InsufficientFunds))
            && (TotalOf(n, calls, p) == 0 ==> Apply(l, n, Distribute(p, c, a)) == Err(ZeroTotalStake))
            && (TotalOf(n, calls, p) > 0 && c !in Currencies(l, p) && |Currencies(l, p)| == n ==>
                  Apply(l, n, Distribute(p, c, a)) == Err(MaxRewardCurrencies))
  {
    StakeStorage(n, calls, Exec(n, calls), p, k);
    TotalStorage(n, calls, Exec(n, calls), p);
  }

  // ---------- Leaving in parts

  /** Withdrawals of one unit each. */
  function Units(p: PoolId, k: StakeId, m: nat): seq<Call> {
    seq(m, _ => Withdraw(p, k, 1))
  }

  lemma UnitLeaves(n: nat, calls: seq<Call>, p: PoolId, k: StakeId)
    requires StakeOf(n, calls, p, k) >= 1
    ensures StakeOf(n, calls + [Withdraw(p, k, 1)], p, k) == StakeOf(n, calls, p, k) - 1
  {
    RunKeepsStored(n, calls);
    WithdrawIff(n, calls, p, k, 1);
    assert (calls + [Withdraw(p, k, 1)])[..|calls|] == calls;
  }

  /** Nobody is locked in: after any history, every staker can leave unit by unit. */
  lemma {:induction false} ExitInUnits(n: nat, calls: seq<Call>, p: PoolId, k: StakeId, m: nat)
    requires m <= StakeOf(n, calls, p, k)
    ensures StakeOf(n, calls + Units(p, k, m), p, k) == StakeOf(n, calls, p, k) - m
  {
    if m == 0 {
      assert calls + Units(p, k, m) == calls;
    } else {
      ExitInUnits(n, calls, p, k, m - 1);
      UnitLeaves(n, calls + Units(p, k, m - 1), p, k);
      assert calls + Units(p, k, m) == calls + Units(p, k, m - 1) + [Withdraw(p, k, 1)];
    }
  }

  // ---------- A refused exit

  const REWARD: Balance := 100_000_000_000_000_000_000

  /** Two units are staked, and the same reward is paid out once and distributed again. */
  function TwiceRewarded(p: PoolId, k: StakeId, c: CurrencyId): seq<Call> {
    [Deposit(p, k, 2), Distribute(p, c, REWARD), Claim(p, k, c), Distribute(p, c, REWARD)]
  }

  function After(l: Ledger, n: nat, call: Call): Ledger {
    match Apply(l, n, call)
    case Ok(after) => after
    case Err(_) => l
  }

  lemma ExecFour(n: nat, a: Call, b: Call, c: Call, d: Call)
    ensures Exec(n, [a, b, c, d]) == After(After(After(After(GENESIS, n, a), n, b), n, c), n, d)
  {
    assert [a, b, c, d][..3] == [a, b, c] && [a, b, c][..2] == [a, b] && [a, b][..1] == [a] && [a][..0] == [];
    assert Exec(n, [a]) == After(GENESIS, n, a);
    assert Exec(n, [a, b]) == After(Exec(n, [a]), n, b);
    assert Exec(n, [a, b, c]) == After(Exec(n, [a, b]), n, c);
  }

  lemma DepositTwo(n: nat, p: PoolId, k: StakeId)
    ensures var l := After(GENESIS, n, Deposit(p, k, 2));
            && l.stake == map[(p, k) := 2 * ACCURACY] && l.totalStake == map[p := 2 * ACCURACY]
            && l == GENESIS.(stake := l.stake, totalStake := l.totalStake)
  {
    var l := After(GENESIS, n, Deposit(p, k, 2));
    assert Retally(map[], map[], {}, p, k, 2 * ACCURACY, true) == map[];
  }

  lemma DistributeOnTwo(l: Ledger, n: nat, p: PoolId, c: CurrencyId, r: int)
    requires n >= 1 && Currencies(l, p) <= {c} && Get(l.totalStake, p) == 2 * ACCURACY
    requires Get(l.rewardPerToken, (c, p)) == r && r in {0, REWARD * ACCURACY / 2} && Get(l.totalRewards, c) == 0
    ensures var after := After(l, n, Distribute(p, c, REWARD));
            && after.stake == l.stake && after.rewardTally == l.rewardTally && after.totalStake == l.totalStake
            && Get(after.rewardPerToken, (c, p)) == r + REWARD * ACCURACY / 2
            && Get(after.totalRewards, c) == REWARD * ACCURACY && Currencies(after, p) == {c}
  {
    if Currencies(l, p) == {} {
      assert |Currencies(l, p)| == 0;
    } else {
      assert c in Currencies(l, p);
    }
    assert Currencies(l, p) + {c} == {c};
  }

  lemma ClaimOnTwo(l: Ledger, n: nat, p: PoolId, k: StakeId, c: CurrencyId)
    requires Get(l.stake, (p, k)) == 2 * ACCURACY && Get(l.rewardPerToken, (c, p)) == REWARD * ACCURACY / 2
    requires Get(l.rewardTally, (c, p, k)) == 0 && Get(l.totalRewards, c) == REWARD * ACCURACY
    ensures var after := After(l, n, Claim(p, k, c));
            && after.stake == l.stake && after.totalStake == l.totalStake && after.rewardPerToken == l.rewardPerToken
            && after.rewardCurrencies == l.rewardCurrencies && Get(after.totalRewards, c) == 0
  {
  }

  /** The refusal is reachable: after this run the staker cannot leave at once, and can leave unit by unit. */
  lemma ExitRefused(n: nat, p: PoolId, k: StakeId, c: CurrencyId)
    requires n >= 1
    ensures var calls := TwiceRewarded(p, k, c);
            && StakeOf(n, calls, p, k) == 2
            && Apply(Exec(n, calls), n, WithdrawAll(p, k)).Err?
            && StakeOf(n, calls + Units(p, k, 2), p, k) == 0
  {
    var calls := TwiceRewarded(p, k, c);
    ExecFour(n, calls[0], calls[1], calls[2], calls[3]);
    var one := After(GENESIS, n, calls[0]);
    DepositTwo(n, p, k);
    DistributeOnTwo(one, n, p, c, 0);
    var two := After(one, n, calls[1]);
    ClaimOnTwo(two, n, p, k, c);
    var three := After(two, n, calls[2]);
    DistributeOnTwo(three, n, p, c, REWARD * ACCURACY / 2);
    var l := After(three, n, calls[3]);
    assert Exec(n, calls) == l;
    StakesAgree(n, calls);
    assert Whole(Get(l.stake, (p, k))) == StakeOf(n, calls, p, k);
    WithdrawAllIff(n, calls, p, k);
    assert c in Currencies(l, p);
    ExitInUnits(n, calls, p, k, 2);
  }
}
