/**
 * Why one reward-per-token number and one tally per staker stand in for paying every
 * staker at every distribution: the lazy ledger agrees with an eager account of the
 * whole history, and it can always pay what it owes.
 */
module RewardProofs {
  import opened Wrappers
  import opened FixedPoint
  import opened RewardLedger
  import Floors
  import opened Sums

  function Whole(inner: int): int {
    inner / ACCURACY
  }

  /** The untruncated reward of a staker: what `compute_reward` truncates. */
  function Pending(l: Ledger, p: PoolId, k: StakeId, c: CurrencyId): int {
    TruncDiv(Get(l.stake, (p, k)) * Get(l.rewardPerToken, (c, p)), ACCURACY) - Get(l.rewardTally, (c, p, k))
  }

  ghost function PoolStakes(l: Ledger, p: PoolId): map<(PoolId, StakeId), int> {
    map s | s in l.stake :: if s.0 == p then Whole(l.stake[s]) else 0
  }

  ghost function PendingMap(l: Ledger, c: CurrencyId): map<(PoolId, StakeId), int> {
    map s | s in l.stake :: Pending(l, s.0, s.1, c)
  }

  /** `TotalRewards` of a currency less everything its stakers are owed over all pools. */
  ghost function Slack(l: Ledger, c: CurrencyId): int {
    Get(l.totalRewards, c) - Sum(PendingMap(l, c))
  }

  predicate WholeStake(inner: int) {
    inner >= 0 && inner == Whole(inner) * ACCURACY
  }

  ghost predicate PerTokenValid(l: Ledger) {
    forall c, p :: && Get(l.rewardPerToken, (c, p)) >= 0
                   && (c !in Currencies(l, p) ==> Get(l.rewardPerToken, (c, p)) == 0)
  }

  ghost predicate StakesValid(l: Ledger) {
    && (forall s :: s in l.stake ==> WholeStake(l.stake[s]))
    && (forall p :: Get(l.totalStake, p) == Sum(PoolStakes(l, p)) * ACCURACY)
  }

  ghost predicate PendingValid(l: Ledger) {
    && (forall p, k, c :: Pending(l, p, k, c) >= 0)
    && (forall p, k, c :: (p, k) !in l.stake ==> Get(l.rewardTally, (c, p, k)) == 0)
  }

  /** The invariant of every reachable ledger. */
  ghost predicate Valid(l: Ledger) {
    PerTokenValid(l) && StakesValid(l) && PendingValid(l)
  }

  // ---------- Exactness on whole units

  lemma ExactProduct(w: int, r: int)
    requires w >= 0 && r >= 0
    ensures TruncDiv(w * ACCURACY * r, ACCURACY) == w * r
    ensures TruncDiv(r * (w * ACCURACY), ACCURACY) == w * r
  {
    assert w * ACCURACY * r == w * r * ACCURACY == r * (w * ACCURACY);
    assert w * r >= 0;
    Floors.ExactDiv(w * r, ACCURACY);
  }

  // ---------- Stake changes

  /** Both sides of a stake change at one reward-per-token `r`. */
  lemma StakeChangeAlgebra(w: int, a: int, up: bool, r: int)
    requires w >= 0 && a >= 0 && r >= 0 && w + Signed(up, a) >= 0
    ensures TruncDiv((w + Signed(up, a)) * ACCURACY * r, ACCURACY) ==
            TruncDiv(w * ACCURACY * r, ACCURACY) + Signed(up, TruncDiv(r * (a * ACCURACY), ACCURACY))
  {
    ExactProduct(w, r);
    ExactProduct(w + Signed(up, a), r);
    ExactProduct(a, r);
  }

  /** What a stake change leaves to read: one stake, and one tally per tracked currency, have moved. */
  lemma MoveStakeReads(l: Ledger, p: PoolId, k: StakeId, amount: int, up: bool, q: PoolId, j: StakeId, c: CurrencyId)
    requires MoveStake(l, p, k, amount, up).Ok?
    ensures var after := MoveStake(l, p, k, amount, up).value;
            var same := q == p && j == k;
            && after.rewardPerToken == l.rewardPerToken
            && Get(after.stake, (q, j)) == Get(l.stake, (q, j)) + (if same then Signed(up, amount) else 0)
            && Get(after.rewardTally, (c, q, j)) == Get(l.rewardTally, (c, q, j)) +
               (if same && c in Currencies(l, p) then Signed(up, Earned(l.rewardPerToken, p, c, amount)) else 0)
  {
  }

  lemma PendingOfReads(l: Ledger, after: Ledger, p: PoolId, k: StakeId, a: nat, up: bool, c: CurrencyId)
    requires Valid(l) && Whole(Get(l.stake, (p, k))) + Signed(up, a) >= 0
    requires after.rewardPerToken == l.rewardPerToken
    requires Get(after.stake, (p, k)) == Get(l.stake, (p, k)) + Signed(up, a * ACCURACY)
    requires Get(after.rewardTally, (c, p, k)) == Get(l.rewardTally, (c, p, k)) +
               (if c in Currencies(l, p) then Signed(up, Earned(l.rewardPerToken, p, c, a * ACCURACY)) else 0)
    ensures Pending(after, p, k, c) == Pending(l, p, k, c)
  {
    var w, r := Whole(Get(l.stake, (p, k))), Get(l.rewardPerToken, (c, p));
    assert Get(l.stake, (p, k)) == w * ACCURACY;
    StakeChangeAlgebra(w, a, up, r);
    assert c !in Currencies(l, p) ==> r == 0;
  }

  /** A stake change leaves every pending reward, in every currency, exactly as it was. */
  lemma StakeChangeKeepsPending(l: Ledger, p: PoolId, k: StakeId, a: nat, up: bool, q: PoolId, j: StakeId,
                                c: CurrencyId)
    requires Valid(l)
    requires MoveStake(l, p, k, a * ACCURACY, up).Ok?
    requires Whole(Get(l.stake, (p, k))) + Signed(up, a) >= 0
    ensures Pending(MoveStake(l, p, k, a * ACCURACY, up).value, q, j, c) == Pending(l, q, j, c)
  {
    MoveStakeReads(l, p, k, a * ACCURACY, up, q, j, c);
    if q == p && j == k {
      PendingOfReads(l, MoveStake(l, p, k, a * ACCURACY, up).value, p, k, a, up, c);
    }
  }

  /** Overwriting one whole stake moves only the sum of its own pool. */
  lemma RestakedSum(l: Ledger, after: Ledger, s: (PoolId, StakeId), w: int, q: PoolId)
    requires after.stake == l.stake[s := w * ACCURACY]
    ensures Whole(after.stake[s]) == w
    ensures Sum(PoolStakes(after, q)) ==
            Sum(PoolStakes(l, q)) + if q == s.0 then w - Whole(Get(l.stake, s)) else 0
  {
    Floors.ExactDiv(w, ACCURACY);
    var entry := if q == s.0 then w else 0;
    assert PoolStakes(after, q) == PoolStakes(l, q)[s := entry];
    SumUpdate(PoolStakes(l, q), s, entry);
  }

  lemma StakeChangeKeepsTotals(l: Ledger, p: PoolId, k: StakeId, a: nat, up: bool, q: PoolId)
    requires Valid(l)
    requires MoveStake(l, p, k, a * ACCURACY, up).Ok?
    requires Whole(Get(l.stake, (p, k))) + Signed(up, a) >= 0
    ensures var after := MoveStake(l, p, k, a * ACCURACY, up).value;
            && Whole(after.stake[(p, k)]) == Whole(Get(l.stake, (p, k))) + Signed(up, a)
            && WholeStake(after.stake[(p, k)])
            && Sum(PoolStakes(after, q)) == Sum(PoolStakes(l, q)) + (if q == p then Signed(up, a) else 0)
            && Get(after.totalStake, q) == Sum(PoolStakes(after, q)) * ACCURACY
  {
    var after := MoveStake(l, p, k, a * ACCURACY, up).value;
    var w := Whole(Get(l.stake, (p, k))) + Signed(up, a);
    assert Get(l.stake, (p, k)) + Signed(up, a * ACCURACY) == w * ACCURACY;
    RestakedSum(l, after, (p, k), w, q);
  }

  /** Slack only sees pending rewards, so a new staker who is owed nothing leaves it alone. */
  lemma SlackOfEqualPending(l: Ledger, after: Ledger, s: (PoolId, StakeId), c: CurrencyId)
    requires after.stake.Keys == l.stake.Keys + {s} && after.totalRewards == l.totalRewards
    requires forall q, j :: Pending(after, q, j, c) == Pending(l, q, j, c)
    requires s !in l.stake ==> Pending(l, s.0, s.1, c) == 0
    ensures Slack(after, c) == Slack(l, c)
  {
    assert PendingMap(after, c) == PendingMap(l, c)[s := Pending(l, s.0, s.1, c)];
    SumUpdate(PendingMap(l, c), s, Pending(l, s.0, s.1, c));
  }

  lemma StakeChangeKeepsSlack(l: Ledger, p: PoolId, k: StakeId, a: nat, up: bool, c: CurrencyId)
    requires Valid(l)
    requires MoveStake(l, p, k, a * ACCURACY, up).Ok?
    requires Whole(Get(l.stake, (p, k))) + Signed(up, a) >= 0
    ensures Slack(MoveStake(l, p, k, a * ACCURACY, up).value, c) == Slack(l, c)
  {
    var after := MoveStake(l, p, k, a * ACCURACY, up).value;
    forall q, j ensures Pending(after, q, j, c) == Pending(l, q, j, c) {
      StakeChangeKeepsPending(l, p, k, a, up, q, j, c);
    }
    SlackOfEqualPending(l, after, (p, k), c);
  }

  lemma StakeChangeKeepsValid(l: Ledger, p: PoolId, k: StakeId, a: nat, up: bool)
    requires Valid(l)
    requires MoveStake(l, p, k, a * ACCURACY, up).Ok?
    requires Whole(Get(l.stake, (p, k))) + Signed(up, a) >= 0
    ensures Valid(MoveStake(l, p, k, a * ACCURACY, up).value)
  {
    var after := MoveStake(l, p, k, a * ACCURACY, up).value;
    forall q ensures Get(after.totalStake, q) == Sum(PoolStakes(after, q)) * ACCURACY {
      StakeChangeKeepsTotals(l, p, k, a, up, q);
    }
    forall q, j, c ensures Pending(after, q, j, c) >= 0 {
      StakeChangeKeepsPending(l, p, k, a, up, q, j, c);
    }
    StakeChangeKeepsTotals(l, p, k, a, up, p);
  }

  // ---------- Distribution

  /** The whole-unit share per staked unit that a distribution of `amount` adds. */
  function Share(amount: nat, total: int): int
    requires total > 0
  {
    amount * ACCURACY / total
  }

  lemma ShareIsExact(amount: nat, total: int)
    requires total > 0
    ensures TruncDiv(amount * ACCURACY * ACCURACY, total * ACCURACY) == Share(amount, total)
    ensures 0 <= amount * ACCURACY - total * Share(amount, total) <= total - 1
    ensures Share(amount, total) >= 0
  {
    Floors.DivMono(0, amount * ACCURACY, total);
    Floors.CancelFactor(amount * ACCURACY, total, ACCURACY);
    Floors.DivBounds(amount * ACCURACY, total);
  }

  lemma DistributeEffect(l: Ledger, n: nat, p: PoolId, d: CurrencyId, amount: nat)
    requires Valid(l) && amount > 0
    requires DistributeReward(l, n, p, d, amount * ACCURACY).Ok?
    ensures Sum(PoolStakes(l, p)) > 0 && Share(amount, Sum(PoolStakes(l, p))) >= 0
    ensures var after := DistributeReward(l, n, p, d, amount * ACCURACY).value;
            && after.stake == l.stake && after.totalStake == l.totalStake && after.rewardTally == l.rewardTally
            && after.totalRewards == l.totalRewards[d := Get(l.totalRewards, d) + amount * ACCURACY]
            && after.rewardCurrencies == l.rewardCurrencies[p := Currencies(l, p) + {d}]
            && after.rewardPerToken == l.rewardPerToken[(d, p) :=
                 Get(l.rewardPerToken, (d, p)) + Share(amount, Sum(PoolStakes(l, p)))]
  {
    var total := Sum(PoolStakes(l, p));
    SumNonNegative(PoolStakes(l, p));
    ShareIsExact(amount, total);
  }

  /** Distributing to a pool adds the share times the stake to each staker of that pool, and to no other. */
  lemma DistributeAddsShares(l: Ledger, n: nat, p: PoolId, d: CurrencyId, amount: nat, q: PoolId, j: StakeId,
                             c: CurrencyId)
    requires Valid(l) && amount > 0
    requires DistributeReward(l, n, p, d, amount * ACCURACY).Ok?
    ensures Sum(PoolStakes(l, p)) > 0
    ensures var share := Share(amount, Sum(PoolStakes(l, p)));
            Pending(DistributeReward(l, n, p, d, amount * ACCURACY).value, q, j, c) ==
            Pending(l, q, j, c) + if c == d && q == p then share * Whole(Get(l.stake, (q, j))) else 0
  {
    DistributeEffect(l, n, p, d, amount);
    RaisedPending(l, DistributeReward(l, n, p, d, amount * ACCURACY).value, d, p,
                  Share(amount, Sum(PoolStakes(l, p))), q, j, c);
  }

  lemma RaisedPending(l: Ledger, after: Ledger, d: CurrencyId, p: PoolId, share: int, q: PoolId, j: StakeId,
                      c: CurrencyId)
    requires PerTokenValid(l) && StakesValid(l) && share >= 0
    requires after.stake == l.stake && after.rewardTally == l.rewardTally
    requires after.rewardPerToken == l.rewardPerToken[(d, p) := Get(l.rewardPerToken, (d, p)) + share]
    ensures Pending(after, q, j, c) ==
            Pending(l, q, j, c) + if c == d && q == p then share * Whole(Get(l.stake, (q, j))) else 0
  {
    var w, r := Whole(Get(l.stake, (q, j))), Get(l.rewardPerToken, (c, q));
    if c == d && q == p {
      ExactProduct(w, r);
      ExactProduct(w, r + share);
      Sums.Distribute(w, r, share);
    }
  }

  lemma DistributeKeepsValid(l: Ledger, n: nat, p: PoolId, d: CurrencyId, amount: nat)
    requires Valid(l) && amount > 0
    requires DistributeReward(l, n, p, d, amount * ACCURACY).Ok?
    ensures Valid(DistributeReward(l, n, p, d, amount * ACCURACY).value)
  {
    var after := DistributeReward(l, n, p, d, amount * ACCURACY).value;
    DistributeEffect(l, n, p, d, amount);
    var share := Share(amount, Sum(PoolStakes(l, p)));
    RaisedValid(l, after, d, p, share);
  }

  lemma RaisedValid(l: Ledger, after: Ledger, d: CurrencyId, p: PoolId, share: int)
    requires Valid(l) && share >= 0
    requires after.stake == l.stake && after.rewardTally == l.rewardTally && after.totalStake == l.totalStake
    requires after.rewardPerToken == l.rewardPerToken[(d, p) := Get(l.rewardPerToken, (d, p)) + share]
    requires after.rewardCurrencies == l.rewardCurrencies[p := Currencies(l, p) + {d}]
    ensures Valid(after)
  {
    forall q, j, c ensures Pending(after, q, j, c) >= 0 {
      RaisedPending(l, after, d, p, share, q, j, c);
      Floors.MulMono(0, share, Whole(Get(l.stake, (q, j))));
    }
    assert forall q :: PoolStakes(after, q) == PoolStakes(l, q);
  }

  /** A distribution leaves undistributed exactly the remainder of its division by the total stake. */
  lemma DistributeSlack(l: Ledger, n: nat, p: PoolId, d: CurrencyId, amount: nat, c: CurrencyId)
    requires Valid(l) && amount > 0
    requires DistributeReward(l, n, p, d, amount * ACCURACY).Ok?
    ensures Sum(PoolStakes(l, p)) > 0
    ensures var dust := Slack(DistributeReward(l, n, p, d, amount * ACCURACY).value, c) - Slack(l, c);
            if c == d then 0 <= dust <= Sum(PoolStakes(l, p)) - 1 else dust == 0
  {
    var after := DistributeReward(l, n, p, d, amount * ACCURACY).value;
    DistributeEffect(l, n, p, d, amount);
    var total := Sum(PoolStakes(l, p));
    var share := if c == d then Share(amount, total) else 0;
    forall s | s in l.stake
      ensures PendingMap(after, c)[s] == PendingMap(l, c)[s] + share * PoolStakes(l, p)[s]
    {
      DistributeAddsShares(l, n, p, d, amount, s.0, s.1, c);
    }
    SumLinear(PendingMap(l, c), PoolStakes(l, p), share, PendingMap(after, c));
    ShareIsExact(amount, total);
    assert total * Share(amount, total) == Share(amount, total) * total;
  }

  // ---------- Claims

  /**
   * `compute_reward` fails exactly when one of its two checked operations overflows;
   * otherwise it is the pending reward rounded down to whole units, and never negative.
   */
  lemma ComputeIsFloor(l: Ledger, p: PoolId, k: StakeId, c: CurrencyId)
    requires Valid(l)
    ensures ComputeReward(l, p, k, c).Ok? <==>
            && Whole(Get(l.stake, (p, k))) * Get(l.rewardPerToken, (c, p)) <= I128_MAX
            && Pending(l, p, k, c) <= I128_MAX
    ensures ComputeReward(l, p, k, c).Ok? ==> ComputeReward(l, p, k, c).value == Pending(l, p, k, c) / ACCURACY
    ensures ComputeReward(l, p, k, c).Ok? ==> ApiCompute(l, p, k, c) == Ok(Pending(l, p, k, c) / ACCURACY)
  {
    var w, r := Whole(Get(l.stake, (p, k))), Get(l.rewardPerToken, (c, p));
    ExactProduct(w, r);
    assert w * r >= 0 by { Floors.MulMono(0, w, r); }
    assert Pending(l, p, k, c) >= 0;
  }

  /** The pallet holds, in `c`, at least what all its stakers are owed. */
  ghost predicate Solvent(l: Ledger, c: CurrencyId) {
    Slack(l, c) >= 0 && Get(l.totalRewards, c) <= I128_MAX
  }

  lemma PendingCovered(l: Ledger, p: PoolId, k: StakeId, c: CurrencyId)
    requires Valid(l) && Solvent(l, c)
    ensures 0 <= Pending(l, p, k, c) <= Get(l.totalRewards, c)
  {
    assert (p, k) in l.stake ==> PendingMap(l, c)[(p, k)] == Pending(l, p, k, c);
    if (p, k) in l.stake {
      SumCovers(PendingMap(l, c), (p, k));
    } else {
      SumNonNegative(PendingMap(l, c));
    }
  }

  /** A claim goes through whenever the reward can be computed, and leaves `TotalRewards` non-negative. */
  lemma ClaimSucceeds(l: Ledger, p: PoolId, k: StakeId, c: CurrencyId)
    requires Valid(l) && Solvent(l, c)
    ensures ApiClaim(l, p, k, c).Ok? <==> ComputeReward(l, p, k, c).Ok?
    ensures ApiClaim(l, p, k, c).Ok? ==>
              && ApiClaim(l, p, k, c).value.1 == Pending(l, p, k, c) / ACCURACY
              && Get(ApiClaim(l, p, k, c).value.0.totalRewards, c) >= 0
  {
    ComputeIsFloor(l, p, k, c);
    PendingCovered(l, p, k, c);
    Floors.DivBounds(Pending(l, p, k, c), ACCURACY);
    Floors.DivMono(0, Pending(l, p, k, c), ACCURACY);
  }

  lemma ClaimEffect(l: Ledger, p: PoolId, k: StakeId, c: CurrencyId)
    requires Valid(l) && ApiClaim(l, p, k, c).Ok?
    ensures var after := ApiClaim(l, p, k, c).value.0;
            && after == l.(totalRewards := after.totalRewards, rewardTally := after.rewardTally)
            && after.totalRewards == l.totalRewards[c :=
                 Get(l.totalRewards, c) - Pending(l, p, k, c) / ACCURACY * ACCURACY]
            && after.rewardTally == l.rewardTally[(c, p, k) :=
                 Whole(Get(l.stake, (p, k))) * Get(l.rewardPerToken, (c, p))]
  {
    ComputeIsFloor(l, p, k, c);
    ExactProduct(Whole(Get(l.stake, (p, k))), Get(l.rewardPerToken, (c, p)));
  }

  /** A claim zeroes that staker's pending reward in that currency and touches no other. */
  lemma ClaimPending(l: Ledger, p: PoolId, k: StakeId, d: CurrencyId, q: PoolId, j: StakeId, c: CurrencyId)
    requires Valid(l) && ApiClaim(l, p, k, d).Ok?
    ensures Pending(ApiClaim(l, p, k, d).value.0, q, j, c) ==
            if q == p && j == k && c == d then 0 else Pending(l, q, j, c)
  {
    ClaimEffect(l, p, k, d);
    if q == p && j == k && c == d {
      ExactProduct(Whole(Get(l.stake, (p, k))), Get(l.rewardPerToken, (c, p)));
    }
  }

  lemma ClaimKeepsValid(l: Ledger, p: PoolId, k: StakeId, d: CurrencyId)
    requires Valid(l) && ApiClaim(l, p, k, d).Ok?
    ensures Valid(ApiClaim(l, p, k, d).value.0)
  {
    var after := ApiClaim(l, p, k, d).value.0;
    ClaimEffect(l, p, k, d);
    forall q, j, c ensures Pending(after, q, j, c) >= 0 {
      ClaimPending(l, p, k, d, q, j, c);
    }
    assert forall q :: PoolStakes(after, q) == PoolStakes(l, q);
  }

  /** Clearing one entry takes exactly that much off the sum. */
  lemma ClearedSum<K>(m: map<K, int>, cleared: map<K, int>, s: K)
    requires cleared.Keys == m.Keys
    requires forall t :: t in m ==> cleared[t] == if t == s then 0 else m[t]
    ensures Sum(cleared) == Sum(m) - if s in m then m[s] else 0
  {
    if s in m {
      assert cleared == m[s := 0];
      SumUpdate(m, s, 0);
    } else {
      assert cleared == m;
    }
  }

  /** A claim leaves behind less than one whole unit. */
  lemma ClaimSlack(l: Ledger, p: PoolId, k: StakeId, d: CurrencyId, c: CurrencyId)
    requires Valid(l) && ApiClaim(l, p, k, d).Ok?
    ensures var dust := Slack(ApiClaim(l, p, k, d).value.0, c) - Slack(l, c);
            if c == d then 0 <= dust <= ACCURACY - 1 else dust == 0
  {
    var after := ApiClaim(l, p, k, d).value.0;
    ClaimEffect(l, p, k, d);
    forall q, j ensures Pending(after, q, j, c) == if q == p && j == k && c == d then 0 else Pending(l, q, j, c) {
      ClaimPending(l, p, k, d, q, j, c);
    }
    if c == d {
      Floors.DivBounds(Pending(l, p, k, d), ACCURACY);
      ClearedSum(PendingMap(l, c), PendingMap(after, c), (p, k));
    } else {
      assert PendingMap(after, c) == PendingMap(l, c);
    }
  }
}
