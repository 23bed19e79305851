/** The staking-return calculator: the default and dropdown validator
    selection, and the projection of daily, monthly and yearly rewards in
    token units (TAO) and in dollars (USD). */
module StakingCalculator {

  import opened Wrappers

  /** A validator record as the calculator uses it: the hotkey address that
      identifies it, an optional display name, and its commission `take`,
      an integer read as a fraction of 65535. */
  datatype Validator = Validator(address: string, name: Option<string>, take: int)

  /** The six figures the calculator shows. */
  datatype Returns = Returns(
    dailyTAO: real, dailyUSD: real,
    monthlyTAO: real, monthlyUSD: real,
    yearlyTAO: real, yearlyUSD: real)

  // Constants of the formula, written as the source writes them.
  const DailyEmission: real := 0.1
  const DaysPerYear: real := 365.25
  const PercentScale: real := 100.0
  const TakeDenominator: real := 65535.0
  const NetworkFactor: real := 0.82
  const DaysPerMonth: real := 30.0
  const MonthsPerYear: real := 12.0

  /** The product of every constant factor of the daily figure:
      0.1 * 365.25 * 100 * 0.82. */
  const DailyNumerator: real := 2995.05

  // ---------------------------------------------------------------------
  // Validator selection
  // ---------------------------------------------------------------------

  /** `validators.find(val => val.address === address)`: the first validator
      whose address equals `address`, or none. */
  function Find(validators: seq<Validator>, address: string): (found: Option<Validator>)
    ensures found.None? <==> forall i :: 0 <= i < |validators| ==> validators[i].address != address
    ensures found.Some? ==>
      exists i :: 0 <= i < |validators| && validators[i] == found.value && validators[i].address == address &&
        forall j :: 0 <= j < i ==> validators[j].address != address
  {
    if |validators| == 0 then None
    else if validators[0].address == address then Some(validators[0])
    else
      var rest := Find(validators[1..], address);
      assert forall i :: 1 <= i < |validators| ==> validators[i] == validators[1..][i - 1];
      rest
  }

  /** The validator selected when the calculator is shown: the one whose
      address is the `query` parameter, otherwise the first of the list,
      and none when the list is empty. */
  function DefaultValidator(validators: seq<Validator>, query: string): (selected: Option<Validator>)
    ensures selected.None? <==> |validators| == 0
    ensures selected.Some? ==> selected.value in validators
    ensures (exists i :: 0 <= i < |validators| && validators[i].address == query) ==>
      selected.Some? && selected.value.address == query &&
      exists i :: 0 <= i < |validators| && validators[i] == selected.value &&
        forall j :: 0 <= j < i ==> validators[j].address != query
    ensures (forall i :: 0 <= i < |validators| ==> validators[i].address != query) && |validators| > 0 ==>
      selected == Some(validators[0])
  {
    match Find(validators, query)
    case Some(v) => Some(v)
    case None => if |validators| == 0 then None else Some(validators[0])
  }

  /** Picking, in the dropdown, the option rendered for the i-th validator
      selects that validator, as long as no two validators share an
      address; this follows from the first-match contract of `Find`. */
  lemma DropdownSelectsRenderedOption(validators: seq<Validator>, i: int)
    requires 0 <= i < |validators|
    requires forall j, k :: 0 <= j < k < |validators| ==> validators[j].address != validators[k].address
    ensures Find(validators, validators[i].address) == Some(validators[i])
  {
  }

  // ---------------------------------------------------------------------
  // Reward projection
  // ---------------------------------------------------------------------

  /** `validator?.take ?? 0`: a missing validator has no commission. */
  function TakeOf(validator: Option<Validator>): int
  {
    match validator
    case None => 0
    case Some(v) => v.take
  }

  /** `validatorsAPR`: the emission constant annualised over the network's
      total stake, scaled by 100; it is inversely proportional to the stake. */
  function ValidatorsAPR(totalStake: real): (apr: real)
    requires totalStake > 0.0
    ensures apr > 0.0
    ensures apr * totalStake == DailyEmission * DaysPerYear * PercentScale
  {
    ((DailyEmission * DaysPerYear) / totalStake) * PercentScale
  }

  /** `valTake`: the share of the reward a staker keeps after the
      validator's commission. */
  function ValTake(validator: Option<Validator>): (retained: real)
    ensures retained == 1.0 <==> TakeOf(validator) == 0
    ensures retained == 0.0 <==> TakeOf(validator) == 65535
    ensures 0 <= TakeOf(validator) <= 65535 ==> 0.0 <= retained <= 1.0
  {
    1.0 - (TakeOf(validator) as real) / TakeDenominator
  }

  /** The role factor: a staker keeps `ValTake`, a validator keeps it all. */
  function Retained(isStaker: bool, validator: Option<Validator>): real
  {
    if isStaker then ValTake(validator) else 1.0
  }

  /** `dailyAPRUnit`: the daily reward for one token of principal. */
  function DailyAPRUnit(totalStake: real, validator: Option<Validator>, isStaker: bool): (unit: real)
    requires totalStake > 0.0
    ensures unit * totalStake == DailyNumerator * Retained(isStaker, validator)
  {
    var apr := ValidatorsAPR(totalStake);
    var unit := apr * Retained(isStaker, validator) * NetworkFactor;
    assert unit * totalStake == (apr * totalStake) * Retained(isStaker, validator) * NetworkFactor;
    unit
  }

  /** The figures are laid out as the calculator lays them out: a month is
      thirty days, a year twelve months, and each dollar figure is the token
      figure at `price`. */
  predicate Consistent(r: Returns, price: real)
  {
    && r.monthlyTAO == DaysPerMonth * r.dailyTAO
    && r.yearlyTAO == MonthsPerYear * r.monthlyTAO
    && r.dailyUSD == r.dailyTAO * price
    && r.monthlyUSD == r.monthlyTAO * price
    && r.yearlyUSD == r.yearlyTAO * price
  }

  /** `calcReturn`: the projected rewards for staking `amount` tokens with
      `validator` (none when nothing is selected), as a staker or as the
      validator itself, at `price` dollars per token, when `totalStake`
      tokens are staked on the whole network. */
  function CalcReturn(totalStake: real, validator: Option<Validator>, isStaker: bool, amount: real, price: real): (r: Returns)
    requires totalStake > 0.0
    ensures Consistent(r, price)
    ensures r.yearlyTAO == 360.0 * r.dailyTAO
    ensures r.dailyTAO * totalStake == DailyNumerator * Retained(isStaker, validator) * amount
  {
    var unit := DailyAPRUnit(totalStake, validator, isStaker);
    var daily := unit * amount;
    var monthly := daily * DaysPerMonth;
    var yearly := monthly * MonthsPerYear;
    assert daily * totalStake == (unit * totalStake) * amount;
    Returns(daily, daily * price, monthly, monthly * price, yearly, yearly * price)
  }

  /** Field-by-field sum and scaling of two projections. */
  function Add(a: Returns, b: Returns): Returns
  {
    Returns(a.dailyTAO + b.dailyTAO, a.dailyUSD + b.dailyUSD,
            a.monthlyTAO + b.monthlyTAO, a.monthlyUSD + b.monthlyUSD,
            a.yearlyTAO + b.yearlyTAO, a.yearlyUSD + b.yearlyUSD)
  }

  function Scale(k: real, a: Returns): Returns
  {
    Returns(k * a.dailyTAO, k * a.dailyUSD, k * a.monthlyTAO, k * a.monthlyUSD,
            k * a.yearlyTAO, k * a.yearlyUSD)
  }

  /** Every figure of `a` is at most (strictly below) the same figure of `b`. */
  predicate AtMost(a: Returns, b: Returns)
  {
    && a.dailyTAO <= b.dailyTAO && a.dailyUSD <= b.dailyUSD
    && a.monthlyTAO <= b.monthlyTAO && a.monthlyUSD <= b.monthlyUSD
    && a.yearlyTAO <= b.yearlyTAO && a.yearlyUSD <= b.yearlyUSD
  }

  predicate Below(a: Returns, b: Returns)
  {
    && a.dailyTAO < b.dailyTAO && a.dailyUSD < b.dailyUSD
    && a.monthlyTAO < b.monthlyTAO && a.monthlyUSD < b.monthlyUSD
    && a.yearlyTAO < b.yearlyTAO && a.yearlyUSD < b.yearlyUSD
  }

  predicate TAOBelow(a: Returns, b: Returns)
  {
    a.dailyTAO < b.dailyTAO && a.monthlyTAO < b.monthlyTAO && a.yearlyTAO < b.yearlyTAO
  }

  /** A projection is determined by its daily token figure and the price. */
  lemma ConsistentFromDaily(a: Returns, b: Returns, price: real)
    requires Consistent(a, price) && Consistent(b, price)
    ensures a == b <==> a.dailyTAO == b.dailyTAO
  {
  }

  /** Scaling the daily figure by `k` scales every figure by `k`. */
  lemma ConsistentScale(a: Returns, b: Returns, price: real, k: real)
    requires Consistent(a, price) && Consistent(b, price)
    requires b.dailyTAO == k * a.dailyTAO
    ensures b == Scale(k, a)
  {
    assert b.monthlyTAO == k * a.monthlyTAO;
    assert b.yearlyTAO == k * a.yearlyTAO;
    assert b.dailyUSD == k * a.dailyUSD;
    assert b.monthlyUSD == k * a.monthlyUSD;
    assert b.yearlyUSD == k * a.yearlyUSD;
  }

  /** Every figure is non-decreasing (increasing) in the daily figure for a
      non-negative (positive) price. */
  lemma ConsistentOrder(a: Returns, b: Returns, price: real)
    requires Consistent(a, price) && Consistent(b, price)
    requires a.dailyTAO <= b.dailyTAO && price >= 0.0
    ensures AtMost(a, b)
  {
    MulMonotone(a.dailyTAO, b.dailyTAO, price);
    MulMonotone(a.monthlyTAO, b.monthlyTAO, price);
    MulMonotone(a.yearlyTAO, b.yearlyTAO, price);
  }

  lemma ConsistentStrict(a: Returns, b: Returns, price: real)
    requires Consistent(a, price) && Consistent(b, price)
    requires a.dailyTAO < b.dailyTAO
    ensures TAOBelow(a, b)
    ensures price > 0.0 ==> Below(a, b)
  {
    if price > 0.0 {
      UsdStrict(a.dailyTAO, b.dailyTAO, price, a.dailyUSD, b.dailyUSD);
      UsdStrict(a.monthlyTAO, b.monthlyTAO, price, a.monthlyUSD, b.monthlyUSD);
      UsdStrict(a.yearlyTAO, b.yearlyTAO, price, a.yearlyUSD, b.yearlyUSD);
    }
  }

  lemma UsdStrict(x: real, y: real, price: real, xUsd: real, yUsd: real)
    requires x < y && price > 0.0
    requires xUsd == x * price && yUsd == y * price
    ensures xUsd < yUsd
  {
    MulStrict(x, y, price);
  }

  lemma MulMonotone(x: real, y: real, c: real)
    requires x <= y && c >= 0.0
    ensures x * c <= y * c
  {
  }

  lemma MulStrict(x: real, y: real, c: real)
    requires x < y && c > 0.0
    ensures x * c < y * c
  {
  }

  /** Cancelling a positive factor keeps an ordering. */
  lemma CancelPositive(x: real, y: real, c: real)
    requires c > 0.0 && x * c <= y * c
    ensures x <= y
  {
    if y < x {
      MulStrict(y, x, c);
    }
  }

  lemma CancelPositiveStrict(x: real, y: real, c: real)
    requires c > 0.0 && x * c < y * c
    ensures x < y
  {
    if y <= x {
      MulMonotone(y, x, c);
    }
  }

  /** The daily token figure in closed form: `(0.1 * 365.25 / S) * 100`
      times the kept share, `0.82` and the amount. The factor 100 is never
      divided back out. */
  lemma DailyClosedForm(totalStake: real, validator: Option<Validator>, isStaker: bool, amount: real, price: real)
    requires totalStake > 0.0
    ensures CalcReturn(totalStake, validator, isStaker, amount, price).dailyTAO
      == (DailyEmission * DaysPerYear / totalStake) * PercentScale * Retained(isStaker, validator) * NetworkFactor * amount
    ensures CalcReturn(totalStake, validator, isStaker, amount, price).dailyTAO
      == PercentScale * (DailyEmission * DaysPerYear / totalStake * Retained(isStaker, validator) * NetworkFactor * amount)
  {
  }

  /** A staker's projection is the validator's own projection scaled by the
      share the commission leaves. */
  lemma CommissionScalesReturns(totalStake: real, validator: Option<Validator>, amount: real, price: real)
    requires totalStake > 0.0
    ensures CalcReturn(totalStake, validator, true, amount, price)
      == Scale(ValTake(validator), CalcReturn(totalStake, validator, false, amount, price))
  {
    var s := CalcReturn(totalStake, validator, true, amount, price);
    var v := CalcReturn(totalStake, validator, false, amount, price);
    DailyRatio(s.dailyTAO, v.dailyTAO, totalStake, ValTake(validator));
    ConsistentScale(v, s, price, ValTake(validator));
  }

  lemma DailyRatio(s: real, v: real, totalStake: real, k: real)
    requires totalStake > 0.0
    requires v * totalStake * k == s * totalStake
    ensures s == k * v
  {
    assert (s - k * v) * totalStake == 0.0;
  }

  /** In validator mode the validator's commission plays no part. */
  lemma ValidatorModeIgnoresTake(totalStake: real, v1: Option<Validator>, v2: Option<Validator>, amount: real, price: real)
    requires totalStake > 0.0
    ensures CalcReturn(totalStake, v1, false, amount, price) == CalcReturn(totalStake, v2, false, amount, price)
  {
  }

  /** A staker gets exactly the validator's own projection if and only if
      the commission is zero (or no validator is selected) or nothing is
      staked. */
  lemma StakerMatchesValidatorIff(totalStake: real, validator: Option<Validator>, amount: real, price: real)
    requires totalStake > 0.0
    ensures CalcReturn(totalStake, validator, true, amount, price) == CalcReturn(totalStake, validator, false, amount, price)
      <==> TakeOf(validator) == 0 || amount == 0.0
  {
    var s := CalcReturn(totalStake, validator, true, amount, price);
    var v := CalcReturn(totalStake, validator, false, amount, price);
    var k := ValTake(validator);
    ConsistentFromDaily(s, v, price);
    if s == v {
      assert s.dailyTAO * totalStake == v.dailyTAO * totalStake;
      assert (k - 1.0) * amount * DailyNumerator == 0.0;
      ZeroProduct(k - 1.0, amount);
    }
  }

  lemma ZeroProduct(x: real, y: real)
    requires x * y == 0.0
    ensures x == 0.0 || y == 0.0
  {
  }

  /** With a commission in range and a non-negative amount and price, a
      staker never projects more than the validator itself; with a positive
      commission and amount every token figure is strictly lower, and every
      figure when the price is positive too. */
  lemma StakerEarnsAtMostValidator(totalStake: real, validator: Option<Validator>, amount: real, price: real)
    requires totalStake > 0.0
    requires 0 <= TakeOf(validator) <= 65535
    requires amount >= 0.0 && price >= 0.0
    ensures AtMost(CalcReturn(totalStake, validator, true, amount, price), CalcReturn(totalStake, validator, false, amount, price))
    ensures TakeOf(validator) > 0 && amount > 0.0 ==>
      TAOBelow(CalcReturn(totalStake, validator, true, amount, price), CalcReturn(totalStake, validator, false, amount, price))
    ensures TakeOf(validator) > 0 && amount > 0.0 && price > 0.0 ==>
      Below(CalcReturn(totalStake, validator, true, amount, price), CalcReturn(totalStake, validator, false, amount, price))
  {
    var s := CalcReturn(totalStake, validator, true, amount, price);
    var v := CalcReturn(totalStake, validator, false, amount, price);
    DailyOrder(totalStake, ValTake(validator), 1.0, amount, s.dailyTAO, v.dailyTAO);
    ConsistentOrder(s, v, price);
    if TakeOf(validator) > 0 && amount > 0.0 {
      DailyStrict(totalStake, ValTake(validator), 1.0, amount, s.dailyTAO, v.dailyTAO);
      ConsistentStrict(s, v, price);
    }
  }

  /** Two daily figures over the same total stake are ordered as the
      shares the stakers keep, for a non-negative amount. */
  lemma DailyOrder(totalStake: real, k1: real, k2: real, amount: real, d1: real, d2: real)
    requires totalStake > 0.0 && k1 <= k2 && amount >= 0.0
    requires d1 * totalStake == DailyNumerator * k1 * amount
    requires d2 * totalStake == DailyNumerator * k2 * amount
    ensures d1 <= d2
  {
    NumeratorOrder(k1, k2, amount);
    CancelPositive(d1, d2, totalStake);
  }

  lemma DailyStrict(totalStake: real, k1: real, k2: real, amount: real, d1: real, d2: real)
    requires totalStake > 0.0 && k1 < k2 && amount > 0.0
    requires d1 * totalStake == DailyNumerator * k1 * amount
    requires d2 * totalStake == DailyNumerator * k2 * amount
    ensures d1 < d2
  {
    NumeratorStrict(k1, k2, amount);
    CancelPositiveStrict(d1, d2, totalStake);
  }

  lemma NumeratorOrder(k1: real, k2: real, amount: real)
    requires k1 <= k2 && amount >= 0.0
    ensures DailyNumerator * k1 * amount <= DailyNumerator * k2 * amount
  {
    MulMonotone(k1, k2, amount);
  }

  lemma NumeratorStrict(k1: real, k2: real, amount: real)
    requires k1 < k2 && amount > 0.0
    ensures DailyNumerator * k1 * amount < DailyNumerator * k2 * amount
  {
    MulStrict(k1, k2, amount);
  }

  /** The kept share falls as the commission rises. */
  lemma ValTakeOrder(v1: Option<Validator>, v2: Option<Validator>)
    requires TakeOf(v1) <= TakeOf(v2)
    ensures ValTake(v2) <= ValTake(v1)
    ensures TakeOf(v1) < TakeOf(v2) ==> ValTake(v2) < ValTake(v1)
  {
  }

  /** A staker's projection does not grow with the commission, and falls
      strictly when the commission rises and something is staked. */
  lemma HigherTakeLowersReturns(totalStake: real, v1: Option<Validator>, v2: Option<Validator>, amount: real, price: real)
    requires totalStake > 0.0
    requires TakeOf(v1) <= TakeOf(v2)
    requires amount >= 0.0 && price >= 0.0
    ensures AtMost(CalcReturn(totalStake, v2, true, amount, price), CalcReturn(totalStake, v1, true, amount, price))
    ensures TakeOf(v1) < TakeOf(v2) && amount > 0.0 ==>
      TAOBelow(CalcReturn(totalStake, v2, true, amount, price), CalcReturn(totalStake, v1, true, amount, price))
    ensures TakeOf(v1) < TakeOf(v2) && amount > 0.0 && price > 0.0 ==>
      Below(CalcReturn(totalStake, v2, true, amount, price), CalcReturn(totalStake, v1, true, amount, price))
  {
    var a := CalcReturn(totalStake, v2, true, amount, price);
    var b := CalcReturn(totalStake, v1, true, amount, price);
    ValTakeOrder(v1, v2);
    DailyOrder(totalStake, ValTake(v2), ValTake(v1), amount, a.dailyTAO, b.dailyTAO);
    ConsistentOrder(a, b, price);
    if TakeOf(v1) < TakeOf(v2) && amount > 0.0 {
      DailyStrict(totalStake, ValTake(v2), ValTake(v1), amount, a.dailyTAO, b.dailyTAO);
      ConsistentStrict(a, b, price);
    }
  }

  /** Staking nothing projects nothing. */
  lemma ZeroAmountZeroReturns(totalStake: real, validator: Option<Validator>, isStaker: bool, price: real)
    requires totalStake > 0.0
    ensures CalcReturn(totalStake, validator, isStaker, 0.0, price) == Returns(0.0, 0.0, 0.0, 0.0, 0.0, 0.0)
  {
  }

  /** Every figure is linear in the amount: additive ... */
  lemma AdditiveInAmount(totalStake: real, validator: Option<Validator>, isStaker: bool, a1: real, a2: real, price: real)
    requires totalStake > 0.0
    ensures CalcReturn(totalStake, validator, isStaker, a1 + a2, price)
      == Add(CalcReturn(totalStake, validator, isStaker, a1, price), CalcReturn(totalStake, validator, isStaker, a2, price))
  {
    var r1 := CalcReturn(totalStake, validator, isStaker, a1, price);
    var r2 := CalcReturn(totalStake, validator, isStaker, a2, price);
    var r := CalcReturn(totalStake, validator, isStaker, a1 + a2, price);
    var unit := DailyAPRUnit(totalStake, validator, isStaker);
    assert r.dailyTAO == r1.dailyTAO + r2.dailyTAO by {
      assert unit * (a1 + a2) == unit * a1 + unit * a2;
    }
  }

  /** ... and homogeneous. */
  lemma HomogeneousInAmount(totalStake: real, validator: Option<Validator>, isStaker: bool, k: real, amount: real, price: real)
    requires totalStake > 0.0
    ensures CalcReturn(totalStake, validator, isStaker, k * amount, price)
      == Scale(k, CalcReturn(totalStake, validator, isStaker, amount, price))
  {
    var a := CalcReturn(totalStake, validator, isStaker, amount, price);
    var b := CalcReturn(totalStake, validator, isStaker, k * amount, price);
    var unit := DailyAPRUnit(totalStake, validator, isStaker);
    assert b.dailyTAO == k * a.dailyTAO by {
      assert unit * (k * amount) == k * (unit * amount);
    }
    ConsistentScale(a, b, price, k);
  }

  /** Staking more never projects less, and projects strictly more when the
      staker keeps a positive share. */
  lemma IncreasingInAmount(totalStake: real, validator: Option<Validator>, isStaker: bool, a1: real, a2: real, price: real)
    requires totalStake > 0.0
    requires a1 <= a2 && price >= 0.0
    requires isStaker ==> 0 <= TakeOf(validator) <= 65535
    ensures AtMost(CalcReturn(totalStake, validator, isStaker, a1, price), CalcReturn(totalStake, validator, isStaker, a2, price))
    ensures a1 < a2 && Retained(isStaker, validator) > 0.0 ==>
      TAOBelow(CalcReturn(totalStake, validator, isStaker, a1, price), CalcReturn(totalStake, validator, isStaker, a2, price))
    ensures a1 < a2 && Retained(isStaker, validator) > 0.0 && price > 0.0 ==>
      Below(CalcReturn(totalStake, validator, isStaker, a1, price), CalcReturn(totalStake, validator, isStaker, a2, price))
  {
    var r1 := CalcReturn(totalStake, validator, isStaker, a1, price);
    var r2 := CalcReturn(totalStake, validator, isStaker, a2, price);
    var unit := DailyAPRUnit(totalStake, validator, isStaker);
    assert r1.dailyTAO == a1 * unit && r2.dailyTAO == a2 * unit;
    assert Retained(isStaker, validator) >= 0.0;
    assert unit * totalStake >= 0.0 * totalStake;
    CancelPositive(0.0, unit, totalStake);
    MulMonotone(a1, a2, unit);
    ConsistentOrder(r1, r2, price);
    if a1 < a2 && Retained(isStaker, validator) > 0.0 {
      assert unit * totalStake > 0.0 * totalStake;
      CancelPositiveStrict(0.0, unit, totalStake);
      MulStrict(a1, a2, unit);
      ConsistentStrict(r1, r2, price);
    }
  }

  /** Multiplying the network's total stake by `k` divides every figure by `k`. */
  lemma InverseInTotalStake(totalStake: real, k: real, validator: Option<Validator>, isStaker: bool, amount: real, price: real)
    requires totalStake > 0.0 && k > 0.0
    ensures CalcReturn(k * totalStake, validator, isStaker, amount, price)
      == Scale(1.0 / k, CalcReturn(totalStake, validator, isStaker, amount, price))
  {
    var a := CalcReturn(totalStake, validator, isStaker, amount, price);
    var b := CalcReturn(k * totalStake, validator, isStaker, amount, price);
    assert b.dailyTAO * k * totalStake == a.dailyTAO * totalStake;
    DailyRatio(b.dailyTAO, a.dailyTAO, totalStake, 1.0 / k);
    ConsistentScale(a, b, price, 1.0 / k);
  }

  /** A worked case: one token staked as a staker with a validator taking
      6554/65535 (about 10%) while one million tokens are staked in all, at
      two dollars per token. */
  lemma WorkedExample(address: string)
    ensures var r := CalcReturn(1000000.0, Some(Validator(address, None, 6554)), true, 1.0, 2.0);
      && r.dailyTAO == 0.00299505 * 58981.0 / 65535.0
      && r.dailyUSD == 2.0 * r.dailyTAO
      && r.yearlyTAO == 360.0 * r.dailyTAO
  {
    var r := CalcReturn(1000000.0, Some(Validator(address, None, 6554)), true, 1.0, 2.0);
    assert ValTake(Some(Validator(address, None, 6554))) == 58981.0 / 65535.0;
    assert r.dailyTAO * 1000000.0 == DailyNumerator * (58981.0 / 65535.0);
  }
}
