# TC90522 / TDA2014x / PT3 checker — a verified model

This project models the integer core of the Earthsoft PT3 / PLEX ISDB
front end and proves properties of it in Dafny. It covers three components.

- **TDA2014x satellite tuner** (`drivers/media/tuners/tda2014x.c`). The
  model covers the PLL synthesiser arithmetic of `tda2014x_tune`: the
  shift-and-add `div10`, the LO band index, the goto-based reference-ratio /
  predivider search, the percentage switch giving `kint`, the
  integer/fraction split, and the sixteen-step fraction scaling loop that
  yields `CalcPow`. It also covers the bit-field register helpers
  `tda2014x_r8` and `tda2014x_w16`, over a class holding the tuner's 256
  registers (`Tda2014xPll`, `Tda2014xRegs`).
- **TC90522 demodulator** (`drivers/media/dvb-frontends/tc90522.c`). The
  model covers `tc90522_n2int` and the satellite and terrestrial channel
  plans (`Tc90522Plan`), and the `cn_s` / `cn_t` CNR curves
  (`Tc90522Cnr`). It also covers `tc90522_cn_raw`, `tc90522_status` and
  the acquisition loops of `tc90522_tune` (`Tc90522Frontend`). They run
  against an abstract bus: a function from the transaction number and
  the transaction to a reply. The reply says whether the transfer
  completed and which bytes it left in the buffer.
- **PT3 LFSR stream checker** (`pt3_drv/td/check_lfsr.c`). The model
  covers the seed, the 16-bit Galois step with taps 0xB400, and the
  first-mismatch scan over the words of a capture (`CheckLfsr`).

Each imperative loop of the C code is a Dafny `method` with a `while`
loop, proved against a specification function:

| method | specification function |
|---|---|
| `div10` | `Div10Iter` |
| goto-based first-fit divider search (a retry via `goto LABEL_36`) | `FirstFit` over the candidate list |
| fraction loop | `FractionLoop`, with `Tracks` bounding its value from both sides |
| `w16` byte loop | `Stores` / `Apply` |
| `n2int` | `BigEndian` |
| ISDB-T poll loop | `WaitFor` over `TerrestrialPoll` (`TerrestrialWait`) |
| ISDB-S poll loop | `WaitFor` over `SatellitePoll` (`SatelliteWait`), with `TableScan` / `SlotScan` |
| check loop | `StepN` |

The properties of each specification function are then proved as lemmas.

Behaviours of the code that the model keeps as written:

- `cn_s` does not saturate at 0 at the low end. It starts from
  `raw - 3000` floored at 0, so every satellite raw CNR of at most 3000
  gives 588570 (58.857 dB). The `-EIO` of a failed `tc90522_cn_raw` is
  such a value.
- `cn_t` evaluates its polynomial with `s64` products that can wrap. For
  an `intlog10` value from 42626866 to 155034213 (raw values from about 348
  up, which covers every nonzero 24-bit reading above 347) no product
  leaves `s64`, and the result is at least 12000 (1.2 dB). Outside that
  range the products wrap: a raw value of 100 gives -355331 (-35.5 dB)
  where the polynomial gives 693245, and a failed read, whose `-EIO`
  reaches `intlog10` as 2^32 - 5, gives about -288496.
- The satellite loop scans 8 two-byte TSID slots of the 16-byte 0xCE
  table.
- In the ISDB-T loop, the retry-overflow bit is tested after the lock
  bits, so it never stops a poll that has locked. A failed read of 0x80
  or 0xB0 ends the loop with `-ETIMEDOUT`, not with an I/O error.
- In the ISDB-S loop, the completion of the first 0xC3 and 0xCE reads is
  not checked. A failed TSID write or read-back moves on to the later
  slots.
- Satellite input 0 is not a channel number. `0 - 1` wraps to 0xFFFFFFFF,
  and `fno2kHz` wraps to 113000 kHz, below the band. Channel numbers are
  1..50. Anything from 51 up to the band minimum means transponder 4.
- The tuner helpers keep read results in a `u8`, so their `< 0` tests are
  dead. A failed register read (`-EREMOTEIO`) is taken as the byte 0x87.
- The fraction register written to 0x1F/0x20 is the fraction of kint
  times 2^16 / 10^6, rounded down, or one less: the truncations of the
  scaling loop and of `div10` can lose one unit.

## Model

| member | source | states |
|---|---|---|
| Tda2014xPll.Div10 | drivers/media/tuners/tda2014x.c:71-85 | `div10(n, pow)` is `pow` rounds of the loop body. `div10(n, 0) == n`. The result never exceeds n / 10^pow, and it equals n / 10^pow for every n below 2^32. |
| Tda2014xPll.Div10Step | drivers/media/tuners/tda2014x.c:76-82 | One loop round never overshoots n / 10, and it is exactly n / 10 up to 21095786859. |
| Tda2014xPll.EstimateBounds | drivers/media/tuners/tda2014x.c:76-80 | The shift-and-add estimate q satisfies 10q <= n. On the exact range it satisfies 10q >= n - 19. For n >= 2^32 it stays at least 429496728. |
| Tda2014xPll.Div10Round | drivers/media/tuners/tda2014x.c:76-82 | After the `r > 9` correction, a round is at most n / 10. It is exactly n / 10 up to 21095786859, and it stays at least 429496728 for n >= 2^32. |
| Tda2014xPll.Div10Iter | drivers/media/tuners/tda2014x.c:71-85 | `pow` rounds in loop order, by induction over the rounds: the result never exceeds n / 10^pow, and it equals n / 10^pow on the exact range, which contains all of u32. |
| Tda2014xPll.BandIndex | drivers/media/tuners/tda2014x.c:130 | The LO band index is in 0..4, with breakpoints 1075000 / 1228000 / 1433000 / 1720000 kHz. |
| Tda2014xPll.BandIndexMonotone | drivers/media/tuners/tda2014x.c:130 | The band index never decreases as the frequency rises, so 4 <= 8 - i <= 8. |
| Tda2014xPll.RefUnits | drivers/media/tuners/tda2014x.c:149 | `(8 - i) * f_kHz` is a 32-bit product; after `* 1000UL / 27UL`, ResLsb stays below 159072862778. |
| Tda2014xPll.V15Large | drivers/media/tuners/tda2014x.c:149-151 | A ResLsb of at least 1008·10^6 gives v15 >= 1008, even beyond the exact range of `div10`. |
| Tda2014xPll.FirstFit | drivers/media/tuners/tda2014x.c:152-179 | A found divider pair is a candidate with Nint in [131, 251]. No result means that no candidate gives Nint in range. |
| Tda2014xPll.ShrDivides | drivers/media/tuners/tda2014x.c:154-176 | The shift `(v15 * R) >> Premain` of `Nint` is the quotient of v15·R by 2^Premain, rounded down. |
| Tda2014xPll.SearchTable | drivers/media/tuners/tda2014x.c:152-179 | The search outcome for every v15 range. It fails exactly when v15 < 88, 504 <= v15 <= 523 or v15 >= 1008. Otherwise the pair is one of (3,1), (1,0), (3,2), (1,1), (1,2). |
| Tda2014xPll.SearchDivider | drivers/media/tuners/tda2014x.c:152-179 | The goto-based first-fit search, with its retry through `LABEL_36`, returns the first candidate whose Nint is in range. On success Nint = (v15·R) >> Premain lies in [131, 251]. |
| Tda2014xPll.Percent | drivers/media/tuners/tda2014x.c:180 | Every candidate pair gives a switch value `(100 * R) >> Premain` in {25, 50, 75, 100, 150}. |
| Tda2014xPll.ScaleKint | drivers/media/tuners/tda2014x.c:180-197 | The switch yields a kint exactly for the percentages 25, 50, 75, 100 and 150, and `-ERANGE` for any other. A kint is ResLsb·percent/100 rounded down, or one less. |
| Tda2014xPll.KintScalesReference | drivers/media/tuners/tda2014x.c:180-197 | Every chosen pair gives (100·R) >> Premain in {25, 50, 75, 100, 150}, so the `default: -ERANGE` case is unreachable. `kint` is within one unit of (ResLsb·R) >> Premain. |
| Tda2014xPll.IntegerPartNearNint | drivers/media/tuners/tda2014x.c:180-201 | After `kint` is rounded down to a multiple of 10, its millions are Nint or Nint + 1. |
| Tda2014xPll.SuccessfulSearch | drivers/media/tuners/tda2014x.c:149-197 | A successful search implies that ResLsb < 1008·10^6, that v15 == ResLsb / 10^6, and that kint < 1512·10^6. |
| Tda2014xPll.NoFourthReduction | drivers/media/tuners/tda2014x.c:203-209 | A fourth decimal reduction would need more than 28 bits, which the doublings of a fraction below 10^6 cannot reach. |
| Tda2014xPll.FractionLoop | drivers/media/tuners/tda2014x.c:203-209 | The remaining passes lower CalcPow by at most one each. If none lowers it, the fraction is simply doubled once per remaining pass. |
| Tda2014xPll.FractionPass | drivers/media/tuners/tda2014x.c:203-209 | One pass of the loop is one step of `FractionLoop`. It keeps `Tracks`: the value is at most the exact product, with an error of at most 9/2^28 of it per reduction. |
| Tda2014xPll.DoublingPass | drivers/media/tuners/tda2014x.c:204 | A pass without a reduction keeps `Tracks` with one more doubling counted. |
| Tda2014xPll.DoublingKeepsBound | drivers/media/tuners/tda2014x.c:204 | Doubling keeps the value at most the exact product frac0·2^i / 10^k. |
| Tda2014xPll.ReductionKeepsBound | drivers/media/tuners/tda2014x.c:205-207 | A division by ten with one more decimal counted keeps the value at most the exact product. |
| Tda2014xPll.DoublingKeepsError | drivers/media/tuners/tda2014x.c:204 | Doubling keeps the truncation error within the same share of the exact product. |
| Tda2014xPll.ReductionKeepsError | drivers/media/tuners/tda2014x.c:205-207 | A division by ten above 2^28 adds at most 9/2^28 of the exact product to the error. |
| Tda2014xPll.ReductionPass | drivers/media/tuners/tda2014x.c:203-209 | A reducing pass never happens a fourth time and keeps `Tracks` with one more reduction counted. |
| Tda2014xPll.FinalError | drivers/media/tuners/tda2014x.c:203-209 | After 16 passes and at most 3 reductions the error is below 6592. |
| Tda2014xPll.ScaleFraction | drivers/media/tuners/tda2014x.c:202-209 | The loop computes `FractionLoop` and leaves CalcPow in [3, 6]. Its value never exceeds frac0·2^16 / 10^(6-CalcPow) and falls short of it by less than 6592 / 10^(6-CalcPow). The value stays below 2^29. |
| Tda2014xPll.FractionFits | drivers/media/tuners/tda2014x.c:202-220 | `div10(DsmFracInReg, CalcPow)` is ⌊frac0·2^16 / 10^6⌋ or one less, so it fits the 16-bit field at 0x1F/0x20. |
| Tda2014xPll.ComputePll | drivers/media/tuners/tda2014x.c:149-220 | Frequency to PLL register values. The result is `-ERANGE` iff v15 is outside the accepted ranges. Otherwise the settings hold the first-fit pair and Nint in [131, 251], with ePllRefClkRatio in {0, 2} and PredividerRatio = (Premain != 1). kint is the percentage-scaled ResLsb rounded down to a multiple of 10. DsmIntInReg is kint / 10^6, between Nint and Nint + 1, and DsmIntInReg - 128 is in [3, 255]. CalcPow is in [3, 6] and is the CalcPow of `FractionLoop` run on kint mod 10^6. The fraction register is `div10` of that loop's value by CalcPow: ⌊(kint mod 10^6)·2^16 / 10^6⌋ or one less, below 2^16. |
| Tda2014xPll.Settle | drivers/media/tuners/tda2014x.c:180-209 | After a successful search: the percentage switch cannot fail, and the derived kint, DsmIntInReg, CalcPow and fraction register satisfy the bounds listed for `ComputePll`. |
| Tda2014xPll.SplitKint | drivers/media/tuners/tda2014x.c:201-209 | DsmIntInReg is kint / 10^6. CalcPow and the loop value are those of `FractionLoop` on kint mod 10^6. `div10` of the value by CalcPow is ⌊(kint mod 10^6)·2^16 / 10^6⌋ or one less, below 2^16. |
| Tda2014xPll.SatelliteBandAccepted | drivers/media/tuners/tda2014x.c:130-179 | Every frequency from 1049480 to 3224000 kHz gives v15 in 254..477, where the search always succeeds. |
| Tda2014xRegs.Mask8 | drivers/media/tuners/tda2014x.c:25 | For nbits <= 7 the `u8` mask has no bit below `start_bit`. When the field fits in the byte, the mask shifted down is exactly nbits ones. |
| Tda2014xRegs.Field | drivers/media/tuners/tda2014x.c:25-30 | `(val & mask) >> start_bit` is below 2^nbits. Shifted back, it is the masked register byte. |
| Tda2014xRegs.StoredReplyAsWritten | drivers/media/tuners/tda2014x.c:23-32 | Once a read result is stored in a `u8`, the `< 0` test never fires, so every reply is taken as a byte. |
| Tda2014xRegs.FailedReadAccepted | drivers/media/tuners/tda2014x.c:20-29 | A failed transfer (`-EREMOTEIO`) is taken as the byte 0x87. |
| Tda2014xRegs.TunerRegisters.R8 | drivers/media/tuners/tda2014x.c:23-32 | `tda2014x_r8` returns the field of the register. It is below 2^nbits, and shifted back it equals the masked register. |
| Tda2014xRegs.TunerRegisters.W8 | drivers/media/tuners/tda2014x.c:34-41 | A single register write either stores the byte at `slvadr` or changes nothing. |
| Tda2014xRegs.Mask16 | drivers/media/tuners/tda2014x.c:45 | For nbits <= 15 the `u16` mask has no bit below `start_bit`. When the field fits in 16 bits, the mask shifted down is exactly nbits ones. |
| Tda2014xRegs.Positioned | drivers/media/tuners/tda2014x.c:45-46 | `val` has no bit outside the mask. When the field fits, `val >> start_bit` is the low nbits bits of `wdat`. |
| Tda2014xRegs.MergeReadBack | drivers/media/tuners/tda2014x.c:59-60 | Under byte i of the mask the patched byte is the data byte. Outside it, it is the data byte OR the byte read back. |
| Tda2014xRegs.StepByte | drivers/media/tuners/tda2014x.c:50-61 | Step i sends `wval[nbytes - 1]`: the high byte of `val` first in a two-byte write. Under byte i of the mask it is that data byte (so step 0 of a two-byte write pairs the high data byte with the low mask byte, as written). Without rmw it is the data byte. |
| Tda2014xRegs.Stores | drivers/media/tuners/tda2014x.c:50-65 | Without bit 1 of `access` there is no write. Otherwise there are n writes, and write k goes to register `(slvadr + k) mod 256`. |
| Tda2014xRegs.StoresAt | drivers/media/tuners/tda2014x.c:50-61 | With write access, write i of the plan sends the step byte of step i, computed from the register's old value, to register `slvadr + i`. |
| Tda2014xRegs.ApplyStep | drivers/media/tuners/tda2014x.c:50-65 | Carrying out one more planned write updates exactly that register. |
| Tda2014xRegs.Plan | drivers/media/tuners/tda2014x.c:43-67 | `nbytes` of 0 means one write, and more than 2 means two. Write k goes to register `slvadr + k`, when bit 1 of `access` is set. |
| Tda2014xRegs.Apply | drivers/media/tuners/tda2014x.c:50-65 | Writing in order leaves the register count unchanged, and the last write stores its byte. |
| Tda2014xRegs.ApplyUntouched | drivers/media/tuners/tda2014x.c:50-65 | A register that no write addresses keeps its value. |
| Tda2014xRegs.TunerRegisters.W16 | drivers/media/tuners/tda2014x.c:43-67 | On success the register file is the old one with the planned bytes stored. On failure it holds a proper prefix of those stores. |
| Tda2014xRegs.TunerRegisters.WriteBytes | drivers/media/tuners/tda2014x.c:50-65 | The byte loop patches `wval` in place and sends byte `nbytes - 1` of it to register `slvadr + i`. It stops at the first failed transfer, with the same success and failure states as W16. |
| Tda2014xRegs.OneStore | drivers/media/tuners/tda2014x.c:50-65 | A one-byte write with access bit 1 set stores its byte at `slvadr` and touches no other register. |
| Tda2014xRegs.RmwByte | drivers/media/tuners/tda2014x.c:45-60 | The byte a single-byte rmw write sends is `((wdat << start_bit) & mask) \| (~mask & old)`. |
| Tda2014xRegs.FieldWriteStoresMerged | drivers/media/tuners/tda2014x.c:43-67 | A single-byte rmw field write changes only register `slvadr`, and it stores the merged byte there. |
| Tda2014xRegs.Merged | drivers/media/tuners/tda2014x.c:45-60 | The merged byte keeps every bit of the old register outside the field. |
| Tda2014xRegs.MergedReadsBack | drivers/media/tuners/tda2014x.c:25-30 | Reading the field back with `r8` gives the written data truncated to `nbits`. |
| Tda2014xRegs.WordWriteIsBigEndian | drivers/media/tuners/tda2014x.c:43-65 | A plain two-byte write sends the high byte to `slvadr` and the low byte to `slvadr + 1`. |
| Tda2014xRegs.NoWriteAccess | drivers/media/tuners/tda2014x.c:50 | Without bit 1 of `access`, nothing is written. |
| Tc90522Plan.N2Int | drivers/media/dvb-frontends/tc90522.c:38-47 | The accumulator loop gives the big-endian value of the first n bytes mod 2^32, and exactly that value for n <= 4. |
| Tc90522Plan.AppendByte | drivers/media/dvb-frontends/tc90522.c:42-45 | Appending byte b maps the value v to v·256 + b. |
| Tc90522Plan.ShiftInByte | drivers/media/dvb-frontends/tc90522.c:43-44 | `val <<= 8; val \|= b` in a u32 is (v·256 + b) mod 2^32. The shifted value has a zero low byte, so the OR adds b without overlap. |
| Tc90522Plan.BigEndianBound | drivers/media/dvb-frontends/tc90522.c:38-47 | An n-byte value is below 256^n. |
| Tc90522Plan.ExampleBigEndian | drivers/media/dvb-frontends/tc90522.c:38-47 | [0x12, 0x34] decodes to 0x1234, and no bytes decode to 0. |
| Tc90522Plan.FnoToKHz | drivers/media/dvb-frontends/tc90522.c:112-121 | Transponders 0..49 lie in [1049480, 2113000] kHz. Larger numbers wrap in u32. |
| Tc90522Plan.SatelliteKHz | drivers/media/dvb-frontends/tc90522.c:123-129 | Every request f >= 1 resolves into [1049480, 3224000] kHz. An in-band request is kept unchanged. |
| Tc90522Plan.SatelliteIdempotent | drivers/media/dvb-frontends/tc90522.c:123-129 | For f >= 1, resolving twice is resolving once. |
| Tc90522Plan.SatelliteFallbacks | drivers/media/dvb-frontends/tc90522.c:125-127 | Above the band the result is 1145380 (transponder 14). From 51 up to the band minimum it is 1202920 (transponder 4). |
| Tc90522Plan.SatelliteZeroWraps | drivers/media/dvb-frontends/tc90522.c:128 | Request 0 wraps to 113000 kHz, outside the band. Resolving that again gives 1202920. |
| Tc90522Plan.FnoToHz | drivers/media/dvb-frontends/tc90522.c:131-134 | Every channel index gives a frequency ≡ 142857 (mod 10^6) in [93142857, 767142857] Hz. |
| Tc90522Plan.TerrestrialHz | drivers/media/dvb-frontends/tc90522.c:136-150 | The result is always at least 90 MHz. A request of at least 90 MHz is kept unchanged. |
| Tc90522Plan.TerrestrialIdempotent | drivers/media/dvb-frontends/tc90522.c:136-150 | Resolving twice is resolving once, for every input. |
| Tc90522Plan.TerrestrialFallback | drivers/media/dvb-frontends/tc90522.c:136-150 | Inputs 0, 63, 64..76 and 256..89999999 all give 557142857 Hz. |
| Tc90522Plan.UhfChannel | drivers/media/dvb-frontends/tc90522.c:146 | UHF channel 13..62 is tuned to 473 + 6·(ch - 13) MHz plus 1/7 MHz. |
| Tc90522Cnr.IntSqrt | drivers/media/dvb-frontends/tc90522.c:77 | The floor square root: r·r <= n < (r+1)·(r+1). |
| Tc90522Cnr.SqrtUnique | drivers/media/dvb-frontends/tc90522.c:77 | Any root with that contract is IntSqrt, so the model depends only on the contract. |
| Tc90522Cnr.CnS | drivers/media/dvb-frontends/tc90522.c:72-84 | `cn_s` is never negative. Every raw value <= 3000 gives 588570, including the -EIO of a failed read. |
| Tc90522Cnr.S64 | drivers/media/dvb-frontends/tc90522.c:92-94 | The `s64` wrap lies in [-2^63, 2^63), is congruent to the exact value mod 2^64, and is the exact value when that fits. |
| Tc90522Cnr.ShiftSum | drivers/media/dvb-frontends/tc90522.c:91 | The shift sum is 983/4096 of x, less at most 5 and plus at most 2. |
| Tc90522Cnr.Horner | drivers/media/dvb-frontends/tc90522.c:92-94 | A step whose product x·y fits in `s64` equals the step on unbounded integers. |
| Tc90522Cnr.HornerAbove | drivers/media/dvb-frontends/tc90522.c:92-94 | A step whose product is at least -k (in 2^44 units) is at least c - k (in 2^22 units). |
| Tc90522Cnr.CnTCurve | drivers/media/dvb-frontends/tc90522.c:90-95 | For a logarithm in [42626866, 155034213] no product wraps, so the computed curve is the polynomial. |
| Tc90522Cnr.PositiveProductsFit | drivers/media/dvb-frontends/tc90522.c:90-94 | For an argument x in [0, 42·2^22] all three Horner products lie in `s64`. |
| Tc90522Cnr.NegativeProductsFit | drivers/media/dvb-frontends/tc90522.c:90-94 | For an argument x in [-25·2^22, 0) all three Horner products lie in `s64`. |
| Tc90522Cnr.CnT | drivers/media/dvb-frontends/tc90522.c:86-96 | `cn_t` returns 0 for raw == 0. A nonzero raw value whose logarithm lies in [42626866, 155034213] gives at least 12000 (1.2 dB), so there a zero result means raw == 0. |
| Tc90522Cnr.CnTPolyAbove | drivers/media/dvb-frontends/tc90522.c:90-95 | For every u32 logarithm the polynomial on unbounded integers is at least 12000. |
| Tc90522Cnr.CnTCurveWrapsLow | drivers/media/dvb-frontends/tc90522.c:86-96 | For raw 100 (logarithm 2·2^24) the code's products wrap: it gives -355331, while the polynomial gives 693245. |
| Tc90522Cnr.CnTCurveWrapsHigh | drivers/media/dvb-frontends/tc90522.c:86-96 | For the logarithm 161614248, close to that of the 2^32 - 5 a failed read turns into, the code gives -288496, while the polynomial gives 760080. |
| Tc90522Cnr.FirstProductAbove | drivers/media/dvb-frontends/tc90522.c:91-92 | For a non-negative x the first Horner product is above -397·2^44, so the second coefficient stays positive. |
| Tc90522Cnr.LastProductAbove | drivers/media/dvb-frontends/tc90522.c:93-94 | For a negative x and a positive third coefficient, the last Horner product is above -18940·2^44. |
| Tc90522Cnr.HornerBelow | drivers/media/dvb-frontends/tc90522.c:93 | A Horner step on a negative x with a coefficient of at least m is at most c + m·x in 2^22 units. |
| Tc90522Cnr.CnTThroughLog | drivers/media/dvb-frontends/tc90522.c:86-96 | Otherwise the result depends on raw only through `intlog10` of it. |
| Tc90522Frontend.WaitFor | drivers/media/dvb-frontends/tc90522.c:165-211 | A `while (cnt--)` wait over any poll ends in lock or stop. |
| Tc90522Frontend.WaitFirst | drivers/media/dvb-frontends/tc90522.c:165-211 | With budget left, the wait either ends with its first poll or hands the rest of the budget to the next poll. |
| Tc90522Frontend.WaitTimesOut | drivers/media/dvb-frontends/tc90522.c:165-211 | If no poll locks or stops, the wait stops after exactly cnt polls. |
| Tc90522Frontend.WaitLocksAt | drivers/media/dvb-frontends/tc90522.c:165-211 | If polls 0..j-1 go on and poll j locks (j < cnt), the wait locks exactly at poll j. |
| Tc90522Frontend.WaitStopsOnlyAtBudget | drivers/media/dvb-frontends/tc90522.c:187-211 | For polls that never stop by themselves, the wait stops iff all cnt polls go on. |
| Tc90522Frontend.TerrestrialPoll | drivers/media/dvb-frontends/tc90522.c:169-180 | One ISDB-T poll uses one or two transactions. |
| Tc90522Frontend.TerrestrialLockCondition | drivers/media/dvb-frontends/tc90522.c:169-178 | A poll locks iff both reads complete, bit 3 of 0x80 is clear and bit 3 of 0xB0 is set, whatever retry-overflow bit 7 says. |
| Tc90522Frontend.TerrestrialWait | drivers/media/dvb-frontends/tc90522.c:165-182 | The ISDB-T wait always ends in lock or stop. |
| Tc90522Frontend.TerrestrialWaitBound | drivers/media/dvb-frontends/tc90522.c:165-182 | A wait of cnt polls uses at most 2·cnt transactions. |
| Tc90522Frontend.TerrestrialWaitAgain | drivers/media/dvb-frontends/tc90522.c:165-182 | A poll that neither locks nor stops hands the rest of the budget to the next poll, two transactions later. |
| Tc90522Frontend.TerrestrialTimesOut | drivers/media/dvb-frontends/tc90522.c:165-182 | If no poll locks or stops, the wait stops after exactly cnt polls, at transaction t + 2·cnt. |
| Tc90522Frontend.TerrestrialLocksAt | drivers/media/dvb-frontends/tc90522.c:165-178 | If polls 0..j-1 go on and poll j locks (j < cnt), the wait locks exactly at poll j, at transaction t + 2j + 2. |
| Tc90522Frontend.Tsid | drivers/media/dvb-frontends/tc90522.c:195 | Slot i of the table is a big-endian 16-bit TSID. |
| Tc90522Frontend.SelectTsid | drivers/media/dvb-frontends/tc90522.c:200-204 | Selecting a TSID never stops the wait and uses at most three transactions. |
| Tc90522Frontend.SelectTsidLockCondition | drivers/media/dvb-frontends/tc90522.c:200-204 | A selection locks iff both writes and the 0xE6 read complete and the 2-byte read-back equals the TSID. |
| Tc90522Frontend.SlotTry | drivers/media/dvb-frontends/tc90522.c:195-208 | One slot never stops the wait and uses at most three transactions. If it locks, the slot is acceptable: TSID not 0 / 0xFFFF and equal to the stream id or with index equal to it. |
| Tc90522Frontend.SlotScan | drivers/media/dvb-frontends/tc90522.c:194-209 | The slot scan never stops the wait. |
| Tc90522Frontend.SlotReach | drivers/media/dvb-frontends/tc90522.c:194-209 | Scanning from slot i reaches slot j at a transaction between the start and three per slot later. |
| Tc90522Frontend.SlotScanSkips | drivers/media/dvb-frontends/tc90522.c:194-209 | A slot that goes on hands the scan to the next slot at the transaction where it ended. |
| Tc90522Frontend.SlotScanLocksAt | drivers/media/dvb-frontends/tc90522.c:194-208 | If slots i..j-1 go on and slot j locks, the scan locks with slot j. |
| Tc90522Frontend.SlotScanMisses | drivers/media/dvb-frontends/tc90522.c:194-209 | If every slot from i on goes on, the scan goes on. |
| Tc90522Frontend.ScanLocksAtEarlier | drivers/media/dvb-frontends/tc90522.c:194-209 | A lock with slot j seen from slot i + 1 is a lock with slot j seen from slot i, when slot i goes on. |
| Tc90522Frontend.SlotGoesOn | drivers/media/dvb-frontends/tc90522.c:194-209 | After a slot that goes on, the scan, the reach of later slots and whether they go on are those seen from the next slot, at the transaction where the slot ended. |
| Tc90522Frontend.SatellitePoll | drivers/media/dvb-frontends/tc90522.c:190-209 | One ISDB-S poll never stops the wait, and it uses at least one transaction. |
| Tc90522Frontend.TableScan | drivers/media/dvb-frontends/tc90522.c:192-209 | The second 0xC3/0xCE pair must complete before the slots are scanned. |
| Tc90522Frontend.SatelliteWait | drivers/media/dvb-frontends/tc90522.c:187-211 | The ISDB-S wait is `WaitFor` over the ISDB-S poll, so it ends in lock or, after the budget, stop. |
| Tc90522Frontend.SatellitePollLockCondition | drivers/media/dvb-frontends/tc90522.c:190-209 | A poll locks iff the carrier and TSID checks pass, the second 0xC3/0xCE pair completes, and the slot scan locks. |
| Tc90522Frontend.SatelliteTimesOut | drivers/media/dvb-frontends/tc90522.c:187-211 | If no ISDB-S poll locks, the wait stops after exactly cnt polls. |
| Tc90522Frontend.SatelliteLocksAt | drivers/media/dvb-frontends/tc90522.c:187-211 | If polls 0..j-1 go on and poll j locks (j < cnt), the wait locks with poll j. |
| Tc90522Frontend.SatelliteStopsOnlyAtBudget | drivers/media/dvb-frontends/tc90522.c:187-211 | The ISDB-S wait stops iff none of its cnt polls locks. |
| Tc90522Frontend.SlotScanSound | drivers/media/dvb-frontends/tc90522.c:194-209 | A scan from slot i that locks names a slot j >= i: slots i..j-1 went on, slot j is acceptable, its selection locked, and the 0xE6 read-back equals the TSID in slot j. |
| Tc90522Frontend.SlotScanNoCandidate | drivers/media/dvb-frontends/tc90522.c:194-200 | Without an acceptable slot, the scan performs no transaction and does not lock. |
| Tc90522Frontend.SlotScanFrame | drivers/media/dvb-frontends/tc90522.c:194-209 | The scan depends only on the replies from its first transaction on. |
| Tc90522Frontend.TableScanFrame | drivers/media/dvb-frontends/tc90522.c:192-209 | The table fetch and scan depend only on the replies from their first transaction on. |
| Tc90522Frontend.FirstReadsIgnored | drivers/media/dvb-frontends/tc90522.c:190-191 | Two buses that differ only in whether the first 0xC3 and 0xCE reads completed give the same poll. |
| Tc90522Frontend.CnValue | drivers/media/dvb-frontends/tc90522.c:49-61 | `tc90522_cn_raw` returns -EIO iff the read fails. Otherwise it returns the 2-byte (ISDB-S) or 3-byte (ISDB-T) register value. |
| Tc90522Frontend.CnTxn | drivers/media/dvb-frontends/tc90522.c:51-54 | The CNR read is 2 bytes for ISDB-S and 3 for ISDB-T, so its value is below 2^16 or 2^24 and fits the u32 of `tc90522_n2int`. |
| Tc90522Frontend.Resolve | drivers/media/dvb-frontends/tc90522.c:161-184 | An ISDB-T frequency is at least 90 MHz and resolves to itself. An ISDB-S request of at least 1 lies in [1049480, 3224000] kHz and resolves to itself. |
| Tc90522Frontend.Wait | drivers/media/dvb-frontends/tc90522.c:165-211 | The wait of either system ends in lock or stop. An ISDB-S wait stops iff all its polls go on. |
| Tc90522Frontend.Demodulator.Read | drivers/media/dvb-frontends/tc90522.c:20-27 | A read uses one transaction. It reports completion and fills exactly `data[offset..offset+len]`. |
| Tc90522Frontend.Demodulator.Write | drivers/media/dvb-frontends/tc90522.c:29-36 | A write uses one transaction and reports whether it completed. |
| Tc90522Frontend.Demodulator.CnRaw | drivers/media/dvb-frontends/tc90522.c:49-61 | The return value is the value above. `*raw` is written, truncated to u16, only on success. |
| Tc90522Frontend.Demodulator.Status | drivers/media/dvb-frontends/tc90522.c:63-103 | The CNR statistic becomes `cn_s` or `cn_t` of the raw value. `*stat` and the return value are `festat`, which is left unchanged. |
| Tc90522Frontend.Demodulator.Tune | drivers/media/dvb-frontends/tc90522.c:154-214 | `retune == false` returns 0 and changes nothing. Otherwise `festat` is cleared and the frequency resolved. A tuner failure returns -EIO without writing `*stat`. Otherwise the poll runs: lock gives 0 with `festat` = SIGNAL\|CARRIER\|LOCK, and anything else gives -ETIMEDOUT with `festat` 0. |
| Tc90522Frontend.Demodulator.AwaitTerrestrialLock | drivers/media/dvb-frontends/tc90522.c:165-182 | The `while (cnt--)` loop ends as TerrestrialWait with 999 polls does, at the same transaction. |
| Tc90522Frontend.Demodulator.TerrestrialRound | drivers/media/dvb-frontends/tc90522.c:166-181 | One loop body: lock, stop (failed read or retry overflow) or go on, as TerrestrialPoll says. |
| Tc90522Frontend.Demodulator.AwaitSatelliteLock | drivers/media/dvb-frontends/tc90522.c:187-211 | The `while (cnt--)` loop ends as SatelliteWait with 999 polls does. |
| Tc90522Frontend.Demodulator.SatelliteRound | drivers/media/dvb-frontends/tc90522.c:188-210 | One loop body locks iff SatellitePoll locks, and ends at its transaction. |
| Tc90522Frontend.Demodulator.Precheck | drivers/media/dvb-frontends/tc90522.c:190-191 | Carrier bit 4 of 0xC3 must be clear and 0xCE must hold a nonzero TSID. Whether the reads completed is ignored. |
| Tc90522Frontend.Demodulator.FetchTable | drivers/media/dvb-frontends/tc90522.c:192-193 | Both reads must complete. The 16 table bytes are then in `data`. |
| Tc90522Frontend.Demodulator.ScanSlots | drivers/media/dvb-frontends/tc90522.c:194-209 | The `for` loop over the 8 slots ends as SlotScan does. |
| Tc90522Frontend.Demodulator.TrySlot | drivers/media/dvb-frontends/tc90522.c:195-209 | One slot: lock there, or leave the rest of the scan to slot i + 1. Table bytes 2..15 stay intact. |
| Tc90522Frontend.Demodulator.Select | drivers/media/dvb-frontends/tc90522.c:200-204 | The `&&` chain locks iff SelectTsid does. It overwrites only `data[0..2]`. |
| CheckLfsr.Seed | pt3_drv/td/check_lfsr.c:26-30 | For isdb and index in {0, 1}, the seed is (1 + 2·isdb + index)·12345, untruncated and nonzero: 12345, 24690, 37035 or 49380. |
| CheckLfsr.Step | pt3_drv/td/check_lfsr.c:57 | An even state s steps to s >> 1, and an odd one to (s >> 1) ^ 0xB400. A nonzero state stays nonzero. |
| CheckLfsr.StepN | pt3_drv/td/check_lfsr.c:52-58 | By induction on the word number: a nonzero seed never reaches 0, however many steps are taken. |
| CheckLfsr.Check | pt3_drv/td/check_lfsr.c:52-58 | The check passes iff word k equals step^k(seed) for every word. Otherwise it stops at the first mismatch, having read k + 1 words, and reports offset 2·(k+1). |

## Left out

- I2C transport: the message construction in `tda2014x_r`, `tda2014x_w8`, `tda2014x_w16`, `tc90522_r` and `tc90522_w`, and `i2c_transfer`. The tuner register file answers reads with its bytes and lets any write fail. The demodulator bus is an oracle indexed by transaction number.
- Tuner read failures: since `val`/`ret` are `u8`, reads always deliver a byte. `StoredReplyAsWritten` and `FailedReadAccepted` show why. No other member uses them: the register file always answers a read with the register's byte.
- The register-programming chains of `tda2014x_tune` (lines 137-147 and 210-252) and `tda2014x_probe`. Of these, only the arithmetic that computes the written values is modelled.
- `intlog10` is a function parameter of `CnT`/`Status`; `int_sqrt` is any function with the floor-square-root contract (`IntSqrt`, `SqrtUnique`).
- `cn_s` computes with unbounded integers, so a wrap of its `s64` products is not modelled. For the 16-bit ISDB-S readings and -EIO its square root stays below 2^18 and its products below 2^53, far inside `s64`. The wrap of `cn_t`'s products is modelled by `S64`.
- Tc90522Cnr.CnT: its lower bound of 12000 is proved only for a logarithm in [42626866, 155034213]. That leaves out raw values 1..347 and a failed read (`-EIO`, seen by `intlog10` as 2^32 - 5). There the products wrap, and the model gives only the value as written, as `CnTCurveWrapsLow` and `CnTCurveWrapsHigh` show.
- `msleep_interruptible` and cancellation: no time model; loop iterations stand for time.
- Framework glue: `dvb_frontend_ops`, driver registration, `MODULE_*`, and the static `festat` wiring of `tc90522_probe`. `festat` is a field of the demodulator object; sharing it across devices and concurrent callers is not modelled.
- The file I/O, argument parsing and `printf` of `check_lfsr.c`'s `main`. The capture is the sequence of 16-bit words that full two-byte reads return; partial odd-byte reads are not modelled. Signed overflow of `(1 + 2*isdb + index) * 12345` for huge arguments is not modelled.
- Tda2014xRegs.TunerRegisters.R8: requires `start_bit < 8`. For larger shifts the C mask is 0 and the result 0, which the model does not cover.
- Tda2014xRegs.Merged: like `R8`, `W16` and `FieldWriteStoresMerged`, it assumes that a register read, such as the read before a field write, returns the register's content. After a failed read the C code would merge the byte 0x87 into the bits outside the field; that write is not modelled.
- Tda2014xRegs.TunerRegisters.W16: requires `start_bit < 16`, for the same reason.
- Tda2014xRegs.FieldWriteStoresMerged: the read-modify-write lemmas cover single-byte writes only. For two-byte writes, the order in which `wval[nbytes - 1]` is patched is modelled as written but not given a field-level lemma.
- Tda2014xPll.ComputePll: models the values written to the PLL registers, not the writes. Host representation is assumed as a 64-bit `unsigned long` and a little-endian `wval`.
