/**
 * How much of an asset a Stellar transaction pays to an account: the vault client's fold
 * over the operations and the currency pallet's loop, and what both compute.
 */
module Payments {
  import opened Wrappers
  import opened FixedPoint
  import opened StellarConversion
  import opened Currencies
  import opened RequestIds

  datatype MuxedAccount = Ed25519(key: Key) | MuxedEd25519(id: nat, muxedKey: Key)

  datatype ClaimPredicate = Unconditional | Conditional(description: nat)

  datatype Claimant = Claimant(destination: Key, condition: ClaimPredicate)

  datatype Operation =
    | Payment(destination: MuxedAccount, asset: Asset, amount: Stroops)
    | CreateClaimableBalance(asset: Asset, amount: Stroops, claimants: seq<Claimant>)
    | OtherOperation

  datatype TransactionMemo = MemoText(text: Memo) | OtherMemo

  datatype Envelope =
    | TxV0(memo: TransactionMemo, operations: seq<Operation>)
    | Tx(memo: TransactionMemo, operations: seq<Operation>)
    | TxFeeBump
    | DefaultEnvelope

  /** `get_text_memo_from_tx_env`. */
  function TextMemo(env: Envelope): Option<Memo> {
    if (env.TxV0? || env.Tx?) && env.memo.MemoText? then Some(env.memo.text) else None
  }

  function Operations(env: Envelope): seq<Operation> {
    match env
    case TxV0(_, ops) => ops
    case Tx(_, ops) => ops
    case TxFeeBump => []
    case DefaultEnvelope => []
  }

  function SaturatingAdd(a: Stroops, b: Stroops): Stroops {
    if a + b > I64_MAX then I64_MAX else if a + b < I64_MIN then I64_MIN else a + b
  }

  /** The step of the client's fold. */
  function Accumulate(acc: Stroops, op: Operation, to: Key, asset: Asset): Stroops {
    match op
    case Payment(destination, paid, amount) =>
      if destination == Ed25519(to) && paid == asset then SaturatingAdd(acc, amount) else acc
    case CreateClaimableBalance(paid, amount, claimants) =>
      if |claimants| == 1 then
        var claimant := claimants[0];
        if claimant.destination == to && paid == asset && claimant.condition == Unconditional
        then SaturatingAdd(acc, amount)
        else acc
      else acc
    case OtherOperation => acc
  }

  function Fold(ops: seq<Operation>, to: Key, asset: Asset): Stroops {
    if ops == [] then 0
    else Accumulate(Fold(ops[..|ops| - 1], to, asset), ops[|ops| - 1], to, asset)
  }

  /** `get_payment_amount_for_asset_to`, as the client counts a payment. */
  function PaymentAmount(env: Envelope, to: Key, asset: Asset): Balance {
    if Operations(env) == [] then FromStroops(0) else FromStroops(Fold(Operations(env), to, asset))
  }

  /** The client's count in the asset of a currency; there is none without a Stellar asset. */
  function Counted(env: Envelope, recipient: Key, currency: CurrencyId): Option<Balance> {
    var asset :- LookupAsset(currency);
    Some(PaymentAmount(env, recipient, asset))
  }

  /**
   * `get_amount_from_transaction_envelope`, as the pallet counts a payment. It errs exactly
   * on a currency without a Stellar asset, and otherwise agrees with the client.
   */
  method AmountFromEnvelope(env: Envelope, recipient: Key, currency: CurrencyId) returns (r: Option<Balance>)
    ensures r == Counted(env, recipient, currency)
  {
    var lookup := LookupAsset(currency);
    if lookup.None? {
      return None;
    }
    var asset := lookup.value;
    var ops := Operations(env);
    var transferred: Stroops := 0;
    for i := 0 to |ops|
      invariant transferred == Fold(ops[..i], recipient, asset)
    {
      assert ops[..i + 1][..i] == ops[..i];
      match ops[i] {
        case Payment(destination, paid, amount) =>
          if destination == Ed25519(recipient) && paid == asset {
            transferred := SaturatingAdd(transferred, amount);
          }
        case CreateClaimableBalance(paid, amount, claimants) =>
          if |claimants| == 1 {
            var claimant := claimants[0];
            if claimant.destination == recipient && paid == asset && claimant.condition == Unconditional {
              transferred := SaturatingAdd(transferred, amount);
            }
          }
        case OtherOperation =>
      }
    }
    assert ops[..|ops|] == ops;
    return Some(FromStroops(transferred));
  }

  /** Exactly the Stellar currencies are counted, and in their own asset. */
  lemma CountedIff(env: Envelope, recipient: Key, currency: CurrencyId)
    ensures Counted(env, recipient, currency).Some? <==> currency.Stellar?
    ensures currency.Stellar? ==>
              Counted(env, recipient, currency) == Some(PaymentAmount(env, recipient, currency.asset))
  {
  }

  /** The version of an envelope does not matter, and the other kinds carry no memo and no payment. */
  lemma VersionsAgree(memo: TransactionMemo, ops: seq<Operation>, to: Key, asset: Asset)
    ensures TextMemo(TxV0(memo, ops)) == TextMemo(Tx(memo, ops)) == if memo.MemoText? then Some(memo.text) else None
    ensures PaymentAmount(TxV0(memo, ops), to, asset) == PaymentAmount(Tx(memo, ops), to, asset)
    ensures forall env: Envelope :: !env.Tx? && !env.TxV0? ==>
              TextMemo(env).None? && PaymentAmount(env, to, asset) == 0
  {
  }

  // ---------- What both compute

  /** The operation credits the account with the asset unconditionally. */
  predicate Credits(op: Operation, to: Key, asset: Asset) {
    match op
    case Payment(destination, paid, _) => destination == Ed25519(to) && paid == asset
    case CreateClaimableBalance(paid, _, claimants) => claimants == [Claimant(to, Unconditional)] && paid == asset
    case OtherOperation => false
  }

  function Credit(op: Operation, to: Key, asset: Asset): int {
    if Credits(op, to, asset) then op.amount else 0
  }

  /** What operations credit and what they take away, in stroops and without bounds. */
  datatype Flow = Flow(gain: nat, loss: nat)

  function FlowOf(op: Operation, to: Key, asset: Asset): Flow {
    var credit := Credit(op, to, asset);
    if credit >= 0 then Flow(credit, 0) else Flow(0, -credit)
  }

  function Flows(ops: seq<Operation>, to: Key, asset: Asset): Flow {
    if ops == [] then Flow(0, 0)
    else
      var before, last := Flows(ops[..|ops| - 1], to, asset), FlowOf(ops[|ops| - 1], to, asset);
      Flow(before.gain + last.gain, before.loss + last.loss)
  }

  function Min(a: int, b: int): int {
    if a <= b then a else b
  }

  function Max(a: int, b: int): int {
    if a <= b then b else a
  }

  lemma AccumulateIsClampedSum(acc: Stroops, op: Operation, to: Key, asset: Asset)
    ensures Accumulate(acc, op, to, asset) == Max(I64_MIN, Min(I64_MAX, acc + Credit(op, to, asset)))
  {
    assert op.CreateClaimableBalance? && |op.claimants| == 1 ==> op.claimants == [op.claimants[0]];
  }

  // ---------- The order of the operations

  /** The sum saturated once above, after all the credits, and once below, after all the debits. */
  function CreditsFirst(f: Flow): int {
    Max(I64_MIN, Min(I64_MAX, f.gain) - f.loss)
  }

  function DebitsFirst(f: Flow): int {
    Min(I64_MAX, Max(I64_MIN, 0 - f.loss) + f.gain)
  }

  /** Every order counts at least as much as credits first and at most as much as debits first. */
  lemma {:induction false} FoldWithin(ops: seq<Operation>, to: Key, asset: Asset)
    ensures CreditsFirst(Flows(ops, to, asset)) <= Fold(ops, to, asset) <= DebitsFirst(Flows(ops, to, asset))
  {
    if ops != [] {
      var n := |ops| - 1;
      FoldWithin(ops[..n], to, asset);
      AccumulateIsClampedSum(Fold(ops[..n], to, asset), ops[n], to, asset);
      ClampWithin(Flows(ops[..n], to, asset), Fold(ops[..n], to, asset), Credit(ops[n], to, asset));
    }
  }

  lemma ClampWithin(f: Flow, acc: int, credit: int)
    requires CreditsFirst(f) <= acc <= DebitsFirst(f)
    ensures var g := if credit >= 0 then Flow(f.gain + credit, f.loss) else Flow(f.gain, f.loss - credit);
            CreditsFirst(g) <= Max(I64_MIN, Min(I64_MAX, acc + credit)) <= DebitsFirst(g)
  {
  }

  lemma {:induction false} FoldThenCredits(s: seq<Operation>, t: seq<Operation>, to: Key, asset: Asset)
    requires forall op :: op in t ==> Credit(op, to, asset) >= 0
    ensures Flows(t, to, asset).loss == 0
    ensures Fold(s + t, to, asset) == Min(I64_MAX, Fold(s, to, asset) + Flows(t, to, asset).gain)
  {
    if t == [] {
      assert s + t == s;
    } else {
      var n := |t| - 1;
      FoldThenCredits(s, t[..n], to, asset);
      assert (s + t)[..|s + t| - 1] == s + t[..n];
      AccumulateIsClampedSum(Fold(s + t[..n], to, asset), t[n], to, asset);
    }
  }

  lemma {:induction false} FoldThenDebits(s: seq<Operation>, t: seq<Operation>, to: Key, asset: Asset)
    requires forall op :: op in t ==> Credit(op, to, asset) <= 0
    ensures Flows(t, to, asset).gain == 0
    ensures Fold(s + t, to, asset) == Max(I64_MIN, Fold(s, to, asset) - Flows(t, to, asset).loss)
  {
    if t == [] {
      assert s + t == s;
    } else {
      var n := |t| - 1;
      FoldThenDebits(s, t[..n], to, asset);
      assert (s + t)[..|s + t| - 1] == s + t[..n];
      AccumulateIsClampedSum(Fold(s + t[..n], to, asset), t[n], to, asset);
    }
  }

  lemma FoldCredits(t: seq<Operation>, to: Key, asset: Asset)
    requires forall op :: op in t ==> Credit(op, to, asset) >= 0
    ensures Flows(t, to, asset).loss == 0
    ensures Fold(t, to, asset) == Min(I64_MAX, Flows(t, to, asset).gain)
  {
    FoldThenCredits([], t, to, asset);
    assert [] + t == t;
  }

  lemma FoldDebits(t: seq<Operation>, to: Key, asset: Asset)
    requires forall op :: op in t ==> Credit(op, to, asset) <= 0
    ensures Fold(t, to, asset) == Max(I64_MIN, 0 - Flows(t, to, asset).loss)
  {
    FoldThenDebits([], t, to, asset);
    assert [] + t == t;
  }

  /** The operations that do, or do not, take away from the account, in their order. */
  function Select(ops: seq<Operation>, to: Key, asset: Asset, debits: bool): seq<Operation> {
    if ops == [] then []
    else
      var before, last := Select(ops[..|ops| - 1], to, asset, debits), ops[|ops| - 1];
      if (Credit(last, to, asset) < 0) == debits then before + [last] else before
  }

  lemma {:induction false} SelectPermutes(ops: seq<Operation>, to: Key, asset: Asset)
    ensures multiset(Select(ops, to, asset, false)) + multiset(Select(ops, to, asset, true)) == multiset(ops)
  {
    if ops != [] {
      SelectPermutes(ops[..|ops| - 1], to, asset);
      assert ops == ops[..|ops| - 1] + [ops[|ops| - 1]];
    }
  }

  lemma {:induction false} SelectSigns(ops: seq<Operation>, to: Key, asset: Asset, debits: bool)
    ensures forall op :: op in Select(ops, to, asset, debits) ==> (Credit(op, to, asset) < 0) == debits
  {
    if ops != [] {
      SelectSigns(ops[..|ops| - 1], to, asset, debits);
    }
  }

  lemma {:induction false} SelectFlows(ops: seq<Operation>, to: Key, asset: Asset)
    ensures Flows(Select(ops, to, asset, false), to, asset) == Flow(Flows(ops, to, asset).gain, 0)
    ensures Flows(Select(ops, to, asset, true), to, asset) == Flow(0, Flows(ops, to, asset).loss)
  {
    if ops != [] {
      var front, last := ops[..|ops| - 1], ops[|ops| - 1];
      SelectFlows(front, to, asset);
      FlowsSnoc(Select(front, to, asset, Credit(last, to, asset) < 0), last, to, asset);
    }
  }

  lemma FlowsSnoc(ops: seq<Operation>, op: Operation, to: Key, asset: Asset)
    ensures Flows(ops + [op], to, asset).gain == Flows(ops, to, asset).gain + FlowOf(op, to, asset).gain
    ensures Flows(ops + [op], to, asset).loss == Flows(ops, to, asset).loss + FlowOf(op, to, asset).loss
  {
    assert (ops + [op])[..|ops|] == ops;
  }

  /** Both bounds are reached, by putting the credits first and by putting the debits first. */
  lemma BoundsAreReached(ops: seq<Operation>, to: Key, asset: Asset) returns (low: seq<Operation>, high: seq<Operation>)
    ensures multiset(low) == multiset(high) == multiset(ops)
    ensures Fold(low, to, asset) == CreditsFirst(Flows(ops, to, asset))
    ensures Fold(high, to, asset) == DebitsFirst(Flows(ops, to, asset))
  {
    var credits, debits := Select(ops, to, asset, false), Select(ops, to, asset, true);
    SelectPermutes(ops, to, asset);
    SelectFlows(ops, to, asset);
    SelectSigns(ops, to, asset, false);
    SelectSigns(ops, to, asset, true);
    CreditsThenDebits(credits, debits, to, asset);
    DebitsThenCredits(credits, debits, to, asset);
    low, high := credits + debits, debits + credits;
  }

  lemma CreditsThenDebits(credits: seq<Operation>, debits: seq<Operation>, to: Key, asset: Asset)
    requires forall op :: op in credits ==> Credit(op, to, asset) >= 0
    requires forall op :: op in debits ==> Credit(op, to, asset) <= 0
    ensures Fold(credits + debits, to, asset) ==
            CreditsFirst(Flow(Flows(credits, to, asset).gain, Flows(debits, to, asset).loss))
  {
    FoldCredits(credits, to, asset);
    FoldThenDebits(credits, debits, to, asset);
  }

  lemma DebitsThenCredits(credits: seq<Operation>, debits: seq<Operation>, to: Key, asset: Asset)
    requires forall op :: op in credits ==> Credit(op, to, asset) >= 0
    requires forall op :: op in debits ==> Credit(op, to, asset) <= 0
    ensures Fold(debits + credits, to, asset) ==
            DebitsFirst(Flow(Flows(credits, to, asset).gain, Flows(debits, to, asset).loss))
  {
    FoldDebits(debits, to, asset);
    FoldThenCredits(debits, credits, to, asset);
  }

  /** Taking out any one operation takes its flow off the total. */
  lemma {:induction false} FlowsRemove(ops: seq<Operation>, i: nat, to: Key, asset: Asset)
    requires i < |ops|
    ensures var rest, one := Flows(ops[..i] + ops[i + 1..], to, asset), FlowOf(ops[i], to, asset);
            Flows(ops, to, asset) == Flow(rest.gain + one.gain, rest.loss + one.loss)
  {
    var n := |ops| - 1;
    if i == n {
      assert ops[..i] + ops[i + 1..] == ops[..n];
    } else {
      var rest := ops[..i] + ops[i + 1..];
      FlowsRemove(ops[..n], i, to, asset);
      assert rest[..n - 1] == ops[..n][..i] + ops[..n][i + 1..];
      assert rest[n - 1] == ops[n];
    }
  }

  lemma RemoveOne<T>(s: seq<T>, i: nat)
    requires i < |s|
    ensures multiset(s[..i] + s[i + 1..]) == multiset(s) - multiset{s[i]}
  {
    assert s == s[..i] + [s[i]] + s[i + 1..];
  }

  /** The last element of one sequence is found in a permutation of it, and taken out of both. */
  lemma RemoveBoth<T>(a: seq<T>, b: seq<T>) returns (i: nat)
    requires multiset(a) == multiset(b) && a != []
    ensures i < |b| && b[i] == a[|a| - 1]
    ensures multiset(a[..|a| - 1]) == multiset(b[..i] + b[i + 1..])
  {
    var n := |a| - 1;
    assert a[n] in multiset(a);
    i := IndexOf(b, a[n]);
    RemoveOne(a, n);
    assert a[..n] + a[n + 1..] == a[..n];
    RemoveOne(b, i);
  }

  lemma {:induction false} FlowsPermute(a: seq<Operation>, b: seq<Operation>, to: Key, asset: Asset)
    requires multiset(a) == multiset(b)
    ensures Flows(a, to, asset) == Flows(b, to, asset)
    decreases |a|
  {
    if a == [] {
      assert |multiset(b)| == 0;
    } else {
      var i := RemoveBoth(a, b);
      FlowsRemove(b, i, to, asset);
      FlowsPermute(a[..|a| - 1], b[..i] + b[i + 1..], to, asset);
    }
  }

  lemma IndexOf<T>(s: seq<T>, x: T) returns (i: nat)
    requires x in multiset(s)
    ensures i < |s| && s[i] == x
  {
    assert x in s;
    i :| 0 <= i < |s| && s[i] == x;
  }

  /** Every order of the operations counts the same. */
  ghost predicate OrderIrrelevant(memo: TransactionMemo, ops: seq<Operation>, to: Key, asset: Asset) {
    forall other :: multiset(other) == multiset(ops) ==>
      PaymentAmount(Tx(memo, other), to, asset) == PaymentAmount(Tx(memo, ops), to, asset)
  }

  /** The least and the most that any order of the operations counts. */
  function Least(f: Flow): int {
    Max(0, Min(I64_MAX, f.gain) - f.loss)
  }

  function Most(f: Flow): int {
    Max(0, Min(I64_MAX, Max(I64_MIN, 0 - f.loss) + f.gain))
  }

  lemma CountedWithin(memo: TransactionMemo, ops: seq<Operation>, to: Key, asset: Asset)
    ensures CONVERSION_RATE * Least(Flows(ops, to, asset)) <= PaymentAmount(Tx(memo, ops), to, asset)
    ensures PaymentAmount(Tx(memo, ops), to, asset) <= CONVERSION_RATE * Most(Flows(ops, to, asset))
  {
    FoldWithin(ops, to, asset);
    PaymentIsFold(memo, ops, to, asset);
  }

  lemma PaymentIsFold(memo: TransactionMemo, ops: seq<Operation>, to: Key, asset: Asset)
    ensures PaymentAmount(Tx(memo, ops), to, asset) == CONVERSION_RATE * Max(0, Fold(ops, to, asset))
  {
  }

  lemma CountsReached(memo: TransactionMemo, ops: seq<Operation>, to: Key, asset: Asset)
    returns (low: seq<Operation>, high: seq<Operation>)
    ensures multiset(low) == multiset(high) == multiset(ops)
    ensures PaymentAmount(Tx(memo, low), to, asset) == CONVERSION_RATE * Least(Flows(ops, to, asset))
    ensures PaymentAmount(Tx(memo, high), to, asset) == CONVERSION_RATE * Most(Flows(ops, to, asset))
  {
    low, high := BoundsAreReached(ops, to, asset);
    PaymentIsFold(memo, low, to, asset);
    PaymentIsFold(memo, high, to, asset);
  }

  /**
   * The order of the operations does not matter if and only if saturating above before the
   * debits, or below before the credits, makes no difference to the non-negative count.
   */
  lemma OrderIrrelevantIff(memo: TransactionMemo, ops: seq<Operation>, to: Key, asset: Asset)
    ensures OrderIrrelevant(memo, ops, to, asset) <==> Least(Flows(ops, to, asset)) == Most(Flows(ops, to, asset))
  {
    if OrderIrrelevant(memo, ops, to, asset) {
      var low, high := CountsReached(memo, ops, to, asset);
      assert PaymentAmount(Tx(memo, low), to, asset) == PaymentAmount(Tx(memo, high), to, asset);
    }
    if Least(Flows(ops, to, asset)) == Most(Flows(ops, to, asset)) {
      CountedWithin(memo, ops, to, asset);
      forall other | multiset(other) == multiset(ops)
        ensures PaymentAmount(Tx(memo, other), to, asset) == PaymentAmount(Tx(memo, ops), to, asset)
      {
        FlowsPermute(ops, other, to, asset);
        CountedWithin(memo, other, to, asset);
      }
    }
  }

  // ---------- Non-negative operations

  predicate NonNegative(ops: seq<Operation>) {
    forall op :: op in ops && !op.OtherOperation? ==> op.amount >= 0
  }

  /** Non-negative operations count as 10^5 times the credited sum, capped at the largest stroop amount. */
  lemma PaymentIsCappedSum(env: Envelope, to: Key, asset: Asset)
    requires NonNegative(Operations(env))
    ensures Flows(Operations(env), to, asset).loss == 0
    ensures PaymentAmount(env, to, asset) == CONVERSION_RATE * Min(I64_MAX, Flows(Operations(env), to, asset).gain)
  {
    FoldCredits(Operations(env), to, asset);
  }

  /** The order of non-negative operations does not matter. */
  lemma PaymentPermutes(memo: TransactionMemo, ops: seq<Operation>, to: Key, asset: Asset)
    requires NonNegative(ops)
    ensures OrderIrrelevant(memo, ops, to, asset)
  {
    PaymentIsCappedSum(Tx(memo, ops), to, asset);
    OrderIrrelevantIff(memo, ops, to, asset);
  }

  /** With a negative amount saturation can forget part of the sum, and then the order matters. */
  lemma OrderMatters(memo: TransactionMemo, to: Key, asset: Asset)
    ensures var pay := (x: Stroops) => Payment(Ed25519(to), asset, x);
            && !OrderIrrelevant(memo, [pay(I64_MAX), pay(1), pay(-1)], to, asset)
            && OrderIrrelevant(memo, [pay(5), pay(-1)], to, asset)
  {
    var pay := (x: Stroops) => Payment(Ed25519(to), asset, x);
    var clash, calm := [pay(I64_MAX), pay(1), pay(-1)], [pay(5), pay(-1)];
    assert clash[..2][..1][..0] == [] && calm[..1][..0] == [];
    assert Flows(clash[..2][..1], to, asset) == Flow(I64_MAX, 0);
    assert Flows(clash[..2], to, asset) == Flow(I64_MAX + 1, 0);
    assert Flows(calm[..1], to, asset) == Flow(5, 0);
    OrderIrrelevantIff(memo, clash, to, asset);
    OrderIrrelevantIff(memo, calm, to, asset);
  }
}
