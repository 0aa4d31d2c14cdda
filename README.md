# R-2R ladder DAC calculator, in Dafny

This project models `Theory/R2R/try2.py`, a closed-form calculator for a
3-bit R-2R resistor-ladder digital-to-analog converter driving a 16 Ω
speaker, and proves properties of that model.

- `ladder.dfy`, module `Ladder`: the class `R2RNetwork`. Its configuration
  (base resistance `R`, `num_bits = 3`, `speaker_load = 16`) is the datatype
  `Network`. The constructor is the function `Init`, with a default `R` of
  10000 Ω. The three calculations are pure functions of a `Network` and the
  inputs:
  - `TheveninEquivalent`: the binary-weighted source `v1/2 + v2/4 + v3/8`
    and the resistance `R`.
  - `OutputVoltage`: the voltage divider into the speaker, then the current
    and the power.
  - `DisplayResults`: the numbers `display_results` prints, in kΩ, V, mA and
    mW. Its `vOut` field is the value the method returns.
- `binary.dfy`, module `Binary`: Python's zero-padded binary format
  `{i:0Wb}` (`Format`) and its inverse, the base-2 value of a digit string
  (`Value`).
- `truth_table.dfy`, module `TruthTable`: the loop of the example program
  that prints the 8-row truth table. Each row is a function of its code `i`
  (`RowAt`), and the table is the sequence of rows for `i = 0..7` (`Table`).
  The mask tests `i & 0b100`, `i & 0b010` and `i & 0b001` are written as
  `bv3` AND operations, as in the source.

Python floats are modelled as exact `real`s. The integers `R = 10000` and
`16` become the reals `10000.0` and `16.0`. This matches Python 3, where `/`
always divides as floating point. The source validates nothing. A division by
zero can happen only when `speaker_load` is 0 or `R + speaker_load` is 0.
Those two conditions are the precondition `Computable` of the functions that
divide. The lemmas about physical behaviour add what they need, such as
`R >= 0` or `speaker_load > 0`. No operation in the model can change a
`Network`, just as no method of `R2RNetwork` reassigns a field after
`__init__`.

Exact values of the example program (R = 2000 Ω): with all inputs at 5 V,
`v_th = 4.375` and `v_out = 70/2016 = 5/144 ≈ 0.034722 V`. The 101 pattern gives `v_th = 3.125` and
`v_out = 50/2016 ≈ 0.024802 V`.

## Model

| member | source | states |
|---|---|---|
| Ladder.Init | Theory/R2R/try2.py:4-13 | the constructor sets `R` to the given value (default 10000), `num_bits` to 3 and `speaker_load` to 16; a positive `R` gives a physical network and any `R` other than -16 a computable one |
| Ladder.TheveninEquivalent | Theory/R2R/try2.py:15-35 | `r_th` is `R`; `v_th` is the binary-weighted sum with v1 weighted 4/8, v2 2/8 and v3 1/8 |
| Ladder.OutputVoltage | Theory/R2R/try2.py:37-61 | voltage-divider law `v_out·(R+load) = v_th·load`, Ohm's law `current·load = v_out`, and `power·load = v_out²`, provided neither denominator is zero |
| Ladder.KiloOhms | Theory/R2R/try2.py:69 | the kΩ figure times 1000 is the resistance in ohms |
| Ladder.Milli | Theory/R2R/try2.py:86-87 | the milli-unit figure divided by 1000 is the value in base units |
| Ladder.UnitRoundTrip | Theory/R2R/try2.py:69-87 | the two scalings are mutually inverse |
| Ladder.DisplayResults | Theory/R2R/try2.py:63-90 | the printed V_th is the Thevenin voltage and the returned and printed voltage is the output calculation's v_out; the printed current and power are its current and power times 1000; the printed R_th in kΩ equals the printed R in kΩ; the inputs are echoed unchanged; printed power in mW is voltage times printed current in mA; printed current in mA times the load is 1000·v_out |
| Ladder.TheveninResistanceIndependent | Theory/R2R/try2.py:32-33 | for any two input triples, `r_th` is the same and equals `R` |
| Ladder.TheveninHomogeneous | Theory/R2R/try2.py:26-30 | scaling all three inputs by `a` scales `v_th` by `a` |
| Ladder.TheveninAdditive | Theory/R2R/try2.py:26-30 | `v_th` of the sum of two input triples is the sum of their `v_th` |
| Ladder.DividerPreservesSign | Theory/R2R/try2.py:52-53 | with `load > 0` and `R + load > 0`, `v_out` is positive, negative or zero exactly when `v_th` is |
| Ladder.DividerNeverAmplifies | Theory/R2R/try2.py:52-53 | with `load > 0` and `R >= 0`, `abs(v_out) <= abs(v_th)`, strictly when `R > 0` and `v_th != 0` |
| Ladder.DividerMonotone | Theory/R2R/try2.py:50-53 | with `load > 0` and `R + load > 0`, one input triple has the lower `v_th` exactly when it has the lower `v_out` |
| Ladder.PowerNonNegative | Theory/R2R/try2.py:55-59 | with `load > 0`, `power = v_out²/load`, `power >= 0`, and `power = 0` exactly when `v_out = 0` |
| Ladder.ExampleAllHigh | Theory/R2R/try2.py:96-100 | R = 2000 and inputs (5, 5, 5) give `v_th = 4.375`, `r_th = 2000`, `v_out = 4.375·16/2016 = 5/144` |
| Ladder.ExamplePattern101 | Theory/R2R/try2.py:102-104 | inputs (5, 0, 5) give `v_th = 3.125` and `v_out = 3.125·16/2016` |
| Ladder.ExampleCustom | Theory/R2R/try2.py:106-108 | inputs (3.3, 1.5, 2.0) give `v_th = 2.275` and `v_out = 2.275·16/2016` |
| Binary.Format | Theory/R2R/try2.py:122 | `{n:0Wb}` has width W when the plain numeral is shorter, else the numeral's own length |
| Binary.DigitsRoundTrip | Theory/R2R/try2.py:122 | the plain binary numeral of n consists of '0'/'1' and reads back as n |
| Binary.FormatRoundTrip | Theory/R2R/try2.py:122 | the padded numeral consists of '0'/'1' and its base-2 value is n |
| Binary.FormatWidth | Theory/R2R/try2.py:122 | for n < 2^W the padded numeral has exactly W characters |
| Binary.FormatBits | Theory/R2R/try2.py:122 | character j from the left of `{n:0Wb}` is '1' exactly when bit W-1-j of n is set, and '0' otherwise |
| Binary.CharIsBit | Theory/R2R/try2.py:122 | in any binary string, character j from the left is '1' exactly when bit len-1-j of its value is set |
| Binary.ValueBound | Theory/R2R/try2.py:122 | a string of w binary digits has a value below 2^w |
| TruthTable.RowAt | Theory/R2R/try2.py:118-122 | for code i < 8, v1, v2, v3 are 5.0 exactly when bit 2, 1, 0 of i is set and 0.0 exactly when it is clear; v_out is the output calculation for those inputs; the label is `{i:03b}` |
| TruthTable.Table | Theory/R2R/try2.py:117-123 | exactly 8 rows, row i computed from code i |
| TruthTable.MasksAreBits | Theory/R2R/try2.py:118-120 | for i < 8 the masks `0b100`, `0b010` and `0b001` test bits 2, 1 and 0 of i, and `i = 4·b2 + 2·b1 + b0` |
| TruthTable.RowInputs | Theory/R2R/try2.py:117-120 | in row i, v1 (resp. v2, v3) is 5.0 exactly when bit 2 (resp. 1, 0) of i is set, and 0.0 exactly when it is clear |
| TruthTable.RowLabel | Theory/R2R/try2.py:118-122 | row i's label has 3 characters over {'0','1'}, its base-2 value is i, and its characters from left to right are '1' exactly when v1, v2, v3 are HIGH |
| TruthTable.TableOrdered | Theory/R2R/try2.py:117-122 | for i < j the label of row i has the smaller value, so the labels are distinct and ascending |
| TruthTable.TableComplete | Theory/R2R/try2.py:117-122 | every 3-character binary string is the label of some row |
| TruthTable.RowThevenin | Theory/R2R/try2.py:117-121 | row i's Thevenin voltage is `5·i/8` |
| TruthTable.OutputIncreasing | Theory/R2R/try2.py:117-121 | with `load > 0` and `R + load > 0`, `v_out` rises strictly from row to row |
| TruthTable.RowAllLow | Theory/R2R/try2.py:117-121 | row 0 has all inputs 0.0 and label "000", and gives zero voltage, current and power |
| TruthTable.RowAllHigh | Theory/R2R/try2.py:117-121 | row 7 has all inputs 5.0 and label "111", and its `v_out` is that of the all-HIGH example |
| TruthTable.ExampleTable | Theory/R2R/try2.py:117-121 | with R = 2000, row 7's `v_out` is 5/144 V, and row 5 repeats the 101 example |

## Left out

- Console output: the banners, labels and decimal formatting (`:.1f`, `:.3f`, `:.6f`, `6.1f`, `12.6f`, `>6`) of `display_results` and of the truth-table rows. Only the numbers printed are modelled, including the `/1000` and `*1000` unit scalings.
- IEEE-754 rounding: all quantities are exact reals. The source's float results differ from them only by rounding.
- The unused `numpy` import.
- Division by zero: Python would raise `ZeroDivisionError` (or produce `inf`/`nan` with numpy floats). The model excludes it with the precondition `Computable` rather than modelling an error result, because the source has no error handling.
- The row function `TruthTable.RowAt` accepts only codes below 8, the range the loop runs over, because the masks are modelled on `bv3`.
- The format `Binary.Format` models `{n:0Wb}` for natural numbers only. Negative numbers, which Python writes with a leading '-', never reach the format in the source.
