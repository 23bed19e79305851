# Staking-return calculator

A Dafny model of the staking calculator of the Bittensor explorer UI
(`src/components/StakingCalculator.tsx`). The model has two parts:

- **Validator selection.** When the calculator opens, it selects the
  validator whose address is the `query` parameter, or else the first one in
  the list. The dropdown selects by plain address lookup.
- **Reward projection** (`calcReturn`). It turns the network's total stake,
  the selected validator's commission (`take`, out of 65535), the
  Staker/Validator role, an amount and a token price into six figures: daily,
  monthly and yearly, each in TAO and in USD.

The model lives in module `StakingCalculator` (`staking_calculator.dfy`). It
uses the `Option` datatype of module `Wrappers` (`wrappers.dfy`) where the
source has `undefined`.

The arithmetic is written over exact `real`s and follows the source literally:

- `validatorsAPR = (0.1 * 365.25 / S) * 100`.
- The kept share is `1 - take/65535`. A missing validator counts as take 0.
- The role factor is that share for a staker and 1 for a validator.
- The network factor is `0.82`.
- `daily = unit * amount`, `monthly = daily * 30`, `yearly = monthly * 12`.
- Each USD figure is the TAO figure times the price.

The code never divides the factor 100 back out, so every figure is 100
times the per-token emission share. `DailyClosedForm` states this. For one
million staked tokens and a take of 6554, `WorkedExample` gives the daily
figure as `0.00299505 * 58981 / 65535` (about 0.0027).
`CommissionScalesReturns` gives the exact ratio between the staker and
validator figures: the kept share `1 - take/65535`, which is `58981/65535`
for that take.

The calculator does not check for a non-positive total stake, an
out-of-range take, or a negative amount or price, and the model does not
either. The only precondition is a positive total stake, because the source
divides by it. The take range and the signs of the amount and the price
appear as preconditions of the lemmas that need them.

## Model

| member | source | states |
|---|---|---|
| StakingCalculator.Find | src/components/StakingCalculator.tsx:199-201 | Finds nothing exactly when no validator has the address. Otherwise it returns a listed validator with that address, and no earlier validator has it (first match). |
| StakingCalculator.DefaultValidator | src/components/StakingCalculator.tsx:143-146 | The selection is empty exactly when the list is empty, and it is always a listed validator. If some validator has the query address, it returns the first one with that address. Otherwise it returns the list's first validator. |
| StakingCalculator.DropdownSelectsRenderedOption | src/components/StakingCalculator.tsx:195-208 | If addresses are distinct, choosing the option rendered for the i-th validator (its value is that validator's address) selects exactly that validator. |
| StakingCalculator.ValidatorsAPR | src/components/StakingCalculator.tsx:149-151 | The rate is positive, and the rate times the total stake is the constant 0.1 * 365.25 * 100. So it is inversely proportional to the stake, and the factor 100 is kept. |
| StakingCalculator.ValTake | src/components/StakingCalculator.tsx:152 | Uses the helper `TakeOf`, which has no contract and is defined as the source's `validator?.take ?? 0`. The kept share is 1 exactly when the take is 0 or no validator is selected. It is 0 exactly when the take is 65535. It lies in [0, 1] whenever the take lies in [0, 65535]. |
| StakingCalculator.DailyAPRUnit | src/components/StakingCalculator.tsx:153 | Uses the helper `Retained`, which has no contract and is defined as the source's `isStaker ? valTake : 1`. The per-token daily figure times the total stake equals 2995.05 (0.1 * 365.25 * 100 * 0.82) times the role's kept share. |
| StakingCalculator.CalcReturn | src/components/StakingCalculator.tsx:148-169 | Monthly is 30 times daily and yearly is 12 times monthly, so yearly is 360 times daily. Each USD figure is the TAO figure times the price. Daily TAO times the total stake equals 2995.05 times the kept share times the amount. |
| StakingCalculator.DailyClosedForm | src/components/StakingCalculator.tsx:149-157 | Daily TAO is `(0.1 * 365.25 / S) * 100 * kept * 0.82 * amount`. It is 100 times the formula without the percentage scaling, because no division by 100 happens. |
| StakingCalculator.CommissionScalesReturns | src/components/StakingCalculator.tsx:152-153 | All six staker figures are the validator-mode figures scaled by the kept share `1 - take/65535`. |
| StakingCalculator.ValidatorModeIgnoresTake | src/components/StakingCalculator.tsx:153 | In validator mode, any two selected validators (or none) give the same six figures. |
| StakingCalculator.StakerMatchesValidatorIff | src/components/StakingCalculator.tsx:152-153 | Staker mode gives exactly the validator-mode figures if and only if the take is 0 (or no validator is selected) or the amount is 0. |
| StakingCalculator.StakerEarnsAtMostValidator | src/components/StakingCalculator.tsx:152-153 | With take in [0, 65535], amount >= 0 and price >= 0, no staker figure exceeds the validator-mode figure. With positive take and amount, every TAO figure is strictly lower. If the price is also positive, every figure is strictly lower. |
| StakingCalculator.HigherTakeLowersReturns | src/components/StakingCalculator.tsx:152-153 | In staker mode, a higher take never raises any figure, for amount >= 0 and price >= 0. A strictly higher take with a positive amount strictly lowers every TAO figure, and every USD figure too when the price is positive. |
| StakingCalculator.ZeroAmountZeroReturns | src/components/StakingCalculator.tsx:157-168 | An amount of 0 makes all six figures 0. |
| StakingCalculator.AdditiveInAmount | src/components/StakingCalculator.tsx:157-168 | The figures for `a1 + a2` are the field-wise sums of the figures for `a1` and for `a2`. |
| StakingCalculator.HomogeneousInAmount | src/components/StakingCalculator.tsx:157-168 | The figures for `k * amount` are the figures for `amount` scaled by `k`. |
| StakingCalculator.IncreasingInAmount | src/components/StakingCalculator.tsx:157-168 | A larger amount never lowers a figure. It strictly raises every TAO figure when the role keeps a positive share, and every USD figure too when the price is positive. |
| StakingCalculator.InverseInTotalStake | src/components/StakingCalculator.tsx:149-151 | Multiplying the network's total stake by `k > 0` divides all six figures by `k`. |
| StakingCalculator.WorkedExample | src/components/StakingCalculator.tsx:148-168 | Inputs: total stake 1,000,000, take 6554, staker, amount 1, price 2. Daily TAO is `0.00299505 * 58981 / 65535`, daily USD is twice that, and yearly TAO is 360 times daily TAO. |

## Left out

- Rendering, styles, the radio buttons, the CALCULATE button and the input
  fields (src/components/StakingCalculator.tsx:11-116, 175-266) are
  presentation only. In the model the role, amount and price are plain
  parameters.
- The React state and effect timing are left out. The model returns the six
  figures instead of storing them with `setResult`. On mount, `calcReturn`
  runs before the default-validator effect's `setValidator` shows up in its
  closure, so that first calculation sees no validator. The model covers
  this case as a `None` validator, which counts as take 0.
- Reading `query` through `useSearchParams` (lines 127-128) is left out. The
  query is an input string (`|| ""` makes a missing query the empty string).
- `rawAmountToDecimal` and `formatNumber` come from `../utils/number`, which
  is not part of this model. The total stake is a given `real`, already in
  token units, and display rounding to two decimals is left out.
- `parseFloat` and IEEE double arithmetic (rounding, `NaN`, `Infinity` for a
  zero total stake) are replaced by exact reals. `CalcReturn` requires a
  positive total stake instead of producing `Infinity`.
- The "STAKE TAO" link (line 256) only concatenates a URL. It is left out.
- The validator's `id` field is only a React key, so it is not modelled. The
  validator model file `../model/validator` is not part of this model.
  `Validator` keeps the address, the optional name and the take.
- The validator record's `take` is assumed to be an integer that is
  always present. The source reads it as a JavaScript number from
  `../model/validator`, which is not part of this model. There,
  `validator?.take ?? 0` would also turn a missing take into 0. The model
  applies that fallback only to a missing validator.
