/**
 * The eager account of a history of `RewardsApi` calls, and the theorems that the lazy
 * ledger agrees with it and stays solvent. A history is any sequence of calls, failed
 * ones included: those are rolled back and leave no trace in the account.
 */
module RewardHistory {
  import opened Wrappers
  import opened FixedPoint
  import opened RewardLedger
  import opened RewardProofs
  import opened Sums
  import Floors

  /** The last call of a non-empty history went through. */
  predicate LastOk(n: nat, calls: seq<Call>)
    requires calls != []
  {
    Apply(Exec(n, calls[..|calls| - 1]), n, calls[|calls| - 1]).Ok?
  }

  /** The stake of a staker in whole units, from the stake calls alone. */
  function StakeOf(n: nat, calls: seq<Call>, p: PoolId, k: StakeId): int {
    if calls == [] then 0
    else
      var before := StakeOf(n, calls[..|calls| - 1], p, k);
      if !LastOk(n, calls) then before
      else
        match calls[|calls| - 1]
        case Deposit(q, j, amount) => if q == p && j == k then before + amount else before
        case Withdraw(q, j, amount) => if q == p && j == k then before - amount else before
        case SetStake(q, j, amount) => if q == p && j == k then amount else before
        case WithdrawAll(q, j) => if q == p && j == k then 0 else before
        case _ => before
  }

  /** The total stake of a pool, moved by the change of the one staker each call touches. */
  function TotalOf(n: nat, calls: seq<Call>, p: PoolId): int {
    if calls == [] then 0
    else
      var prior, call := calls[..|calls| - 1], calls[|calls| - 1];
      TotalOf(n, prior, p) +
      if !call.Distribute? && call.pool == p
      then StakeOf(n, calls, p, call.staker) - StakeOf(n, prior, p, call.staker)
      else 0
  }

  /**
   * What a staker is owed, paid eagerly: each distribution to the pool since the last
   * claim adds the stake held then, times the floored share per unit of the total then.
   */
  function Owed(n: nat, calls: seq<Call>, p: PoolId, k: StakeId, c: CurrencyId): int {
    if calls == [] then 0
    else
      var prior := calls[..|calls| - 1];
      var before := Owed(n, prior, p, k, c);
      if !LastOk(n, calls) then before
      else
        match calls[|calls| - 1]
        case Distribute(q, d, amount) =>
          if q == p && d == c && TotalOf(n, prior, p) > 0
          then before + amount * ACCURACY / TotalOf(n, prior, p) * StakeOf(n, prior, p, k)
          else before
        case Claim(q, j, d) => if q == p && j == k && d == c then 0 else before
        case _ => before
  }

  /** The most a history can leave undistributed: total stake less one per distribution, one unit less one per claim. */
  function Dust(n: nat, calls: seq<Call>, c: CurrencyId): int {
    if calls == [] then 0
    else
      var prior := calls[..|calls| - 1];
      var before := Dust(n, prior, c);
      if !LastOk(n, calls) then before
      else
        match calls[|calls| - 1]
        case Distribute(q, d, amount) =>
          if d == c && amount > 0 then before + TotalOf(n, prior, q) - 1 else before
        case Claim(_, _, d) => if d == c then before + ACCURACY - 1 else before
        case _ => before
  }

  // ---------- One call

  predicate IsStakeCall(call: Call) {
    call.Deposit? || call.Withdraw? || call.SetStake? || call.WithdrawAll?
  }

  /** The whole-unit stake a stake call asks for, from the one before it. */
  function StakeAfter(call: Call, before: int): int
    requires IsStakeCall(call)
  {
    match call
    case Deposit(_, _, amount) => before + amount
    case Withdraw(_, _, amount) => before - amount
    case SetStake(_, _, amount) => amount
    case WithdrawAll(_, _) => 0
  }

  /** Every stake call is one exact move of the stake, or `set_stake` to the current value. */
  lemma StakeCallIsMove(l: Ledger, n: nat, call: Call) returns (a: nat, up: bool)
    requires Valid(l) && IsStakeCall(call) && Apply(l, n, call).Ok?
    ensures var before := Whole(Get(l.stake, (call.pool, call.staker)));
            && before + Signed(up, a) == StakeAfter(call, before) >= 0
            && (Apply(l, n, call) == MoveStake(l, call.pool, call.staker, a * ACCURACY, up)
                || (a == 0 && Apply(l, n, call).value == l))
  {
    var stake := Get(l.stake, (call.pool, call.staker));
    var before := Whole(stake);
    assert WholeStake(stake);
    assert before >= 0;
    match call
    case Deposit(_, _, amount) => a, up := amount, true;
    case Withdraw(_, _, amount) => a, up := amount, false;
    case SetStake(_, _, amount) =>
      up := before < amount;
      a := if up then amount - before else before - amount;
    case WithdrawAll(_, _) => a, up := before, false;
  }

  /** A stake call is reward-neutral: no pending reward and no slack changes, and the totals follow the stake. */
  lemma StakeCallNeutral(l: Ledger, n: nat, call: Call)
    requires Valid(l) && IsStakeCall(call) && Apply(l, n, call).Ok?
    ensures var after := Apply(l, n, call).value;
            var s := (call.pool, call.staker);
            && Valid(after)
            && (forall q, j, c :: Pending(after, q, j, c) == Pending(l, q, j, c))
            && (forall c :: Slack(after, c) == Slack(l, c))
            && after.totalRewards == l.totalRewards && after.rewardPerToken == l.rewardPerToken
            && Whole(Get(after.stake, s)) == StakeAfter(call, Whole(Get(l.stake, s)))
            && (forall q, j :: (q, j) != s ==> Get(after.stake, (q, j)) == Get(l.stake, (q, j)))
  {
    var a, up := StakeCallIsMove(l, n, call);
    var after := Apply(l, n, call).value;
    if after != l {
      StakeCallMoves(l, call.pool, call.staker, a, up);
    }
  }

  lemma StakeCallMoves(l: Ledger, p: PoolId, k: StakeId, a: nat, up: bool)
    requires Valid(l) && MoveStake(l, p, k, a * ACCURACY, up).Ok?
    requires Whole(Get(l.stake, (p, k))) + Signed(up, a) >= 0
    ensures var after := MoveStake(l, p, k, a * ACCURACY, up).value;
            && Valid(after)
            && (forall q, j, c :: Pending(after, q, j, c) == Pending(l, q, j, c))
            && (forall c :: Slack(after, c) == Slack(l, c))
            && Whole(Get(after.stake, (p, k))) == Whole(Get(l.stake, (p, k))) + Signed(up, a)
  {
    var after := MoveStake(l, p, k, a * ACCURACY, up).value;
    StakeChangeKeepsValid(l, p, k, a, up);
    StakeChangeKeepsTotals(l, p, k, a, up, p);
    forall q, j, c ensures Pending(after, q, j, c) == Pending(l, q, j, c) {
      StakeChangeKeepsPending(l, p, k, a, up, q, j, c);
    }
    forall c ensures Slack(after, c) == Slack(l, c) {
      StakeChangeKeepsSlack(l, p, k, a, up, c);
    }
  }

  /** The pool total moves by exactly the change of the touched staker. */
  lemma StakeCallTotals(l: Ledger, n: nat, call: Call, q: PoolId)
    requires Valid(l) && IsStakeCall(call) && Apply(l, n, call).Ok?
    ensures var after := Apply(l, n, call).value;
            var before := Whole(Get(l.stake, (call.pool, call.staker)));
            Sum(PoolStakes(after, q)) ==
            Sum(PoolStakes(l, q)) + if q == call.pool then StakeAfter(call, before) - before else 0
  {
    var a, up := StakeCallIsMove(l, n, call);
    var after := Apply(l, n, call).value;
    if after != l {
      StakeChangeKeepsTotals(l, call.pool, call.staker, a, up, q);
    }
  }

  // ---------- Every history

  /** The lazy ledger of a history stores the stakes that the eager account has. */
  ghost predicate Agrees(n: nat, calls: seq<Call>) {
    var l := Exec(n, calls);
    && Valid(l)
    && (forall p, k :: Whole(Get(l.stake, (p, k))) == StakeOf(n, calls, p, k))
    && (forall p :: Sum(PoolStakes(l, p)) == TotalOf(n, calls, p))
  }

  lemma {:induction false} StakesAgree(n: nat, calls: seq<Call>)
    ensures Agrees(n, calls)
  {
    if calls == [] {
      assert forall p :: PoolStakes(GENESIS, p) == map[];
      assert forall p, k, c :: Pending(GENESIS, p, k, c) == 0;
    } else {
      var prior, call := calls[..|calls| - 1], calls[|calls| - 1];
      var l := Exec(n, prior);
      StakesAgree(n, prior);
      if LastOk(n, calls) {
        if IsStakeCall(call) {
          StakeCallAgrees(n, calls);
        } else {
          RewardCallAgrees(n, calls);
        }
      } else {
        forall p ensures Sum(PoolStakes(l, p)) == TotalOf(n, calls, p) {
        }
      }
    }
  }

  lemma StakeCallAgrees(n: nat, calls: seq<Call>)
    requires calls != [] && LastOk(n, calls) && IsStakeCall(calls[|calls| - 1])
    requires Agrees(n, calls[..|calls| - 1])
    ensures Agrees(n, calls)
  {
    var prior, call := calls[..|calls| - 1], calls[|calls| - 1];
    var l, after := Exec(n, prior), Exec(n, calls);
    StakeCallNeutral(l, n, call);
    forall p, k ensures Whole(Get(after.stake, (p, k))) == StakeOf(n, calls, p, k) {
      if (p, k) != (call.pool, call.staker) {
        assert Get(after.stake, (p, k)) == Get(l.stake, (p, k));
      }
    }
    forall p ensures Sum(PoolStakes(after, p)) == TotalOf(n, calls, p) {
      StakeCallTotals(l, n, call, p);
    }
  }

  lemma RewardCallAgrees(n: nat, calls: seq<Call>)
    requires calls != [] && LastOk(n, calls) && !IsStakeCall(calls[|calls| - 1])
    requires Agrees(n, calls[..|calls| - 1])
    ensures Agrees(n, calls)
  {
    var prior, call := calls[..|calls| - 1], calls[|calls| - 1];
    var l, after := Exec(n, prior), Exec(n, calls);
    match call {
      case Distribute(p, c, amount) =>
        if amount > 0 {
          DistributeKeepsValid(l, n, p, c, amount);
          DistributeEffect(l, n, p, c, amount);
        }
      case Claim(p, k, c) =>
        ClaimKeepsValid(l, p, k, c);
        ClaimEffect(l, p, k, c);
    }
    assert after.stake == l.stake;
    forall p ensures Sum(PoolStakes(after, p)) == TotalOf(n, calls, p) {
      assert PoolStakes(after, p) == PoolStakes(l, p);
    }
  }

  /** The pending reward after one successful call, from the stakes before it. */
  ghost function PendingAfter(l: Ledger, call: Call, p: PoolId, k: StakeId, c: CurrencyId): int {
    match call
    case Distribute(q, d, amount) =>
      var total := Sum(PoolStakes(l, p));
      if q == p && d == c && total > 0
      then Pending(l, p, k, c) + Share(amount, total) * Whole(Get(l.stake, (p, k)))
      else Pending(l, p, k, c)
    case Claim(q, j, d) => if q == p && j == k && d == c then 0 else Pending(l, p, k, c)
    case _ => Pending(l, p, k, c)
  }

  lemma CallPending(l: Ledger, n: nat, call: Call, p: PoolId, k: StakeId, c: CurrencyId)
    requires Valid(l) && Apply(l, n, call).Ok?
    ensures Pending(Apply(l, n, call).value, p, k, c) == PendingAfter(l, call, p, k, c)
  {
    if IsStakeCall(call) {
      StakeCallNeutral(l, n, call);
    } else if call.Claim? {
      ClaimPending(l, call.pool, call.staker, call.currency, p, k, c);
    } else {
      DistributePending(l, n, call.pool, call.currency, call.amount, p, k, c);
    }
  }

  lemma DistributePending(l: Ledger, n: nat, q: PoolId, d: CurrencyId, amount: Balance, p: PoolId, k: StakeId,
                          c: CurrencyId)
    requires Valid(l) && Apply(l, n, Call.Distribute(q, d, amount)).Ok?
    ensures Pending(Apply(l, n, Call.Distribute(q, d, amount)).value, p, k, c) ==
            PendingAfter(l, Call.Distribute(q, d, amount), p, k, c)
  {
    if amount > 0 {
      DistributeAddsShares(l, n, q, d, amount, p, k, c);
    } else if Sum(PoolStakes(l, p)) > 0 {
      ZeroShare(Sum(PoolStakes(l, p)), Whole(Get(l.stake, (p, k))));
    }
  }

  lemma ZeroShare(total: int, w: int)
    requires total > 0
    ensures Share(0, total) * w == 0
  {
    Floors.ExactDiv(0, total);
  }

  /** The lazy pending reward is the eager debt, in every history, for every staker and currency. */
  lemma {:induction false} PendingIsOwed(n: nat, calls: seq<Call>, p: PoolId, k: StakeId, c: CurrencyId)
    ensures Pending(Exec(n, calls), p, k, c) == Owed(n, calls, p, k, c)
  {
    if calls != [] {
      var prior := calls[..|calls| - 1];
      PendingIsOwed(n, prior, p, k, c);
      StakesAgree(n, prior);
      if LastOk(n, calls) {
        CallPending(Exec(n, prior), n, calls[|calls| - 1], p, k, c);
      }
    }
  }

  /**
   * Lazy refines eager. After any history, `compute_reward` is the eager debt rounded
   * down to whole units, and it fails only by overflow of its product or of the debt.
   */
  lemma LazyRefinesEager(n: nat, calls: seq<Call>, p: PoolId, k: StakeId, c: CurrencyId)
    ensures var l := Exec(n, calls);
            var debt := Owed(n, calls, p, k, c);
            && debt >= 0
            && ApiCompute(l, p, k, c) ==
               if StakeOf(n, calls, p, k) * Get(l.rewardPerToken, (c, p)) <= I128_MAX && debt <= I128_MAX
               then Ok(debt / ACCURACY) else Err(Arithmetic)
  {
    StakesAgree(n, calls);
    PendingIsOwed(n, calls, p, k, c);
    ComputeIsFloor(Exec(n, calls), p, k, c);
  }

  /** The most one successful call can add to the slack of a currency. */
  ghost function CallDust(l: Ledger, call: Call, c: CurrencyId): int {
    match call
    case Distribute(p, d, amount) => if d == c && amount > 0 then Sum(PoolStakes(l, p)) - 1 else 0
    case Claim(_, _, d) => if d == c then ACCURACY - 1 else 0
    case _ => 0
  }

  lemma CallSlack(l: Ledger, n: nat, call: Call, c: CurrencyId)
    requires Valid(l) && Apply(l, n, call).Ok?
    ensures 0 <= Slack(Apply(l, n, call).value, c) - Slack(l, c) <= CallDust(l, call, c)
  {
    if IsStakeCall(call) {
      StakeCallNeutral(l, n, call);
    } else if call.Claim? {
      ClaimSlack(l, call.pool, call.staker, call.currency, c);
    } else if call.amount > 0 {
      DistributeSlack(l, n, call.pool, call.currency, call.amount, c);
    }
  }

  lemma CallKeepsRange(l: Ledger, n: nat, call: Call, c: CurrencyId)
    requires Valid(l) && Apply(l, n, call).Ok? && Get(l.totalRewards, c) <= I128_MAX
    ensures Get(Apply(l, n, call).value.totalRewards, c) <= I128_MAX
  {
    if IsStakeCall(call) {
      StakeCallNeutral(l, n, call);
    } else if call.Claim? {
      ClaimEffect(l, call.pool, call.staker, call.currency);
      Floors.DivMono(0, Pending(l, call.pool, call.staker, call.currency), ACCURACY);
    }
  }

  /** Two-sided solvency: no history owes more than it holds, and what it holds beyond that is at most the dust. */
  lemma {:induction false} TwoSidedSolvency(n: nat, calls: seq<Call>, c: CurrencyId)
    ensures Solvent(Exec(n, calls), c)
    ensures 0 <= Slack(Exec(n, calls), c) <= Dust(n, calls, c)
  {
    if calls == [] {
      assert PendingMap(GENESIS, c) == map[];
    } else {
      var prior := calls[..|calls| - 1];
      TwoSidedSolvency(n, prior, c);
      if LastOk(n, calls) {
        StakesAgree(n, prior);
        CallSlack(Exec(n, prior), n, calls[|calls| - 1], c);
        CallKeepsRange(Exec(n, prior), n, calls[|calls| - 1], c);
      }
    }
  }

  /**
   * Claims never get stuck: after any history a claim fails only if the reward itself
   * cannot be computed; it pays the floored debt and keeps `TotalRewards` non-negative.
   */
  lemma ClaimsNeverStuck(n: nat, calls: seq<Call>, p: PoolId, k: StakeId, c: CurrencyId)
    ensures var l := Exec(n, calls);
            && (ApiClaim(l, p, k, c).Ok? <==> ApiCompute(l, p, k, c).Ok?)
            && (ApiClaim(l, p, k, c).Ok? ==>
                  && ApiClaim(l, p, k, c).value.1 == Owed(n, calls, p, k, c) / ACCURACY
                  && Get(ApiClaim(l, p, k, c).value.0.totalRewards, c) >= 0)
  {
    StakesAgree(n, calls);
    TwoSidedSolvency(n, calls, c);
    PendingIsOwed(n, calls, p, k, c);
    ComputeIsFloor(Exec(n, calls), p, k, c);
    ClaimSucceeds(Exec(n, calls), p, k, c);
  }

  /** `TotalStake` of a pool is the sum of its non-negative stakes, all whole units, in every history. */
  lemma TotalIsSumOfStakes(n: nat, calls: seq<Call>, p: PoolId)
    ensures var l := Exec(n, calls);
            && Get(l.totalStake, p) == Sum(PoolStakes(l, p)) * ACCURACY
            && (forall s :: s in l.stake ==> 0 <= l.stake[s] == StakeOf(n, calls, s.0, s.1) * ACCURACY)
  {
    StakesAgree(n, calls);
    var l := Exec(n, calls);
    forall s | s in l.stake ensures l.stake[s] == StakeOf(n, calls, s.0, s.1) * ACCURACY {
      assert WholeStake(l.stake[s]) && Get(l.stake, (s.0, s.1)) == l.stake[s];
    }
  }

  /** No history tracks more reward currencies in a pool than the configured maximum. */
  lemma {:induction false} CurrenciesBounded(n: nat, calls: seq<Call>, p: PoolId)
    ensures |Currencies(Exec(n, calls), p)| <= n
  {
    if calls != [] {
      var prior, call := calls[..|calls| - 1], calls[|calls| - 1];
      CurrenciesBounded(n, prior, p);
      if LastOk(n, calls) && !call.Distribute? {
        SameCurrencies(Exec(n, prior), n, call);
      }
    }
  }

  lemma SameCurrencies(l: Ledger, n: nat, call: Call)
    requires Apply(l, n, call).Ok? && !call.Distribute?
    ensures Apply(l, n, call).value.rewardCurrencies == l.rewardCurrencies
  {
  }
}
