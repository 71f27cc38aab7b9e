# MS5611 barometer driver — a Dafny model

This project models two revisions of an Arduino driver for the MS5611 barometric pressure
sensor, which sits at address 0x77 on an I²C (two-wire) bus. The revisions are:

- `FC_MS5611_Lib`, the flight-controller revision. It is non-blocking: a task planner fires
  `requestPressureStartTask`, `pressureAction` and `temperatureAction` one after another,
  and each of them re-arms the planner with its successor.
- `SimpleMS5611`, the blocking revision. `readPressure` requests and reads a temperature,
  then a pressure, and compensates once.

Both revisions do the same three things:

- They read the six factory calibration words C1..C6 from the sensor's PROM with commands
  0xA2..0xAC. Each word arrives as two bytes, high byte first.
- They read 24-bit conversion results as three bytes, high byte first.
- They run the integer part of the datasheet's first-order compensation:
  - dT = D2 − C5·2⁸;
  - OFF = OFF_C2 + dT·C4/2⁷, with OFF_C2 = C2·2¹⁶;
  - SENS = SENS_C1 + dT·C3/2⁸, with SENS_C1 = C1·2¹⁵.

## How the model is organised

| module | file | contents |
|---|---|---|
| `Bytes` | Bytes.dfy | `uint8`/`uint16`, the 16-bit word and the 24-bit result packings, with their inverses |
| `Bus` | Bus.dfy | the command bytes, and `Event`, one entry of the log that stands for the bus |
| `Compensation` | Compensation.dfy | dT, OFF, SENS over `int`, the driver's `double` forms over `real`, and proofs that the two agree |
| `Calibration` | Calibration.dfy | the PROM loop both revisions share (`ReadProm`, which fills an `array<uint16>` in place) |
| `Cycle` | Cycle.dfy | the flight-controller schedule as a pure transition system (`Phase`, `Fire`, `Traffic`) and what runs of it do |
| `Fc` | Fc.dfy | `class Barometer`: the fields of `FC_MS5611_Lib`, and the actions as methods |
| `Simple` | Simple.dfy | `class SimpleBarometer`: the fields of `SimpleMS5611` and its methods |

How the model stands for the parts it does not run:

- **The bus.** It is the field `events`, a log of transactions:
  - `BeginBus`, `Probe`, `PromRead(cmd)`, `Convert(cmd)` and `AdcRead` are transactions;
  - `Compensate` and `Notify` mark the compensation and the user callback.

  The bytes the sensor answers with are method parameters: `acknowledged` for the probe,
  `prom` for the PROM bytes, and `AdcBytes` samples for the ADC reads.
- **The task planner.** It is the field `pending`. Because this is a single slot, at most
  one task of the driver is ever scheduled. The slot is `Idle`, or one task with the delay
  it was scheduled with (8 ms for the first request, 9 ms otherwise).
- **The warm-up loop in `initialize`.** It is modelled as the sequence of firings that
  happen in it.
- **The `double` arithmetic.** The source evaluates OFF_C2, SENS_C1, OFF and SENS in
  `double`, taken here to be IEEE-754 binary64:
  - every numerator stays below 2⁵³, and 0.0078125 and 0.00390625 are exactly 2⁻⁷ and 2⁻⁸;
  - so the arithmetic is modelled as exact arithmetic over `real`, followed by the
    truncation toward zero that the store into `int64_t` performs (`TruncReal`);
  - both spellings (the `pow(2, n)` quotient and the reciprocal product) are proved equal to
    integer division rounding toward zero (`TruncDiv`).

  Dafny's own `/` rounds a negative dividend the other way. `NegativeSensitivity` gives an
  input for which SENS is negative and the two roundings differ.
- **dT.** It is built step by step as in the source, in a local, then stored: `dT = C[5]; dT <<= 8; dT *= -1; dT +=
  rawTemperature`. The last addition goes through `uint32_t` and wraps modulo 2³². It is
  proved equal to rawTemperature − 256·C5.

What the flight-controller revision's schedule does, as the code is written:

- `temperatureAction` sets `actionCounter` to 1. From a fresh start there are 20 pressure
  reads before the first temperature read, and after that 19 between consecutive
  temperature reads, so every steady cycle is 20 readings.
- `actionCounter` takes every value from 0 to 20, including 20.
- A reading action runs the compensation, and the callback, before it requests the next
  conversion.
- During the first 21 firings no temperature is read. Every compensation among them uses
  the raw temperature held before `initialize`, which is 0 for the global object.

The worked example (`DatasheetExample`) uses the MS5611 datasheet's typical values:
C1..C5 = 40127, 36924, 23317, 23282, 33464 and D2 = 8569150.

## Model

| member | source | states |
|---|---|---|
| `Bytes.Word` | FC_MS5611_Lib.cpp:53 | a calibration word has the first byte on the bus as its high byte and the second as its low byte, so it lies in [0, 65535] |
| `Bytes.WordRoundTrip` | SimpleMS5611.cpp:39 | splitting any 16-bit word into its two bus bytes and packing them again gives the word back |
| `Bytes.WordBytesRoundTrip` | SimpleMS5611.cpp:39 | packing two bytes into a word and splitting it again gives the same two bytes, in order |
| `Bytes.Pack24` | FC_MS5611_Lib.cpp:129 | a conversion result lies in [0, 2²⁴), and its three base-256 digits are, from the top, the three bytes in the order received |
| `Bytes.Pack24RoundTrip` | FC_MS5611_Lib.cpp:149 | packing three bytes and unpacking gives them back, and every value in [0, 2²⁴) is the packing of its own bytes |
| `Bus.PromCommand` | FC_MS5611_Lib.cpp:49 | the PROM command for word i is even, and it addresses word i as PromBase + 2·i |
| `Bus.PromCommandTable` | FC_MS5611_Lib.cpp:46-50 | the command formula for i = 1..6 yields exactly 0xA2, 0xA4, …, 0xAC in order, and different words get different commands |
| `Calibration.PromWord` | FC_MS5611_Lib.cpp:53 | defines calibration word i as the `Word` of PROM bytes 2i−2 and 2i−1, the two bytes answered to the i-th PROM read; `ReadProm` proves the loop stores exactly these words |
| `Calibration.ReadProm` | FC_MS5611_Lib.cpp:46-54 | the loop issues the six PROM reads 0xA2..0xAC in order; it stores word i, built from PROM bytes 2i−2 and 2i−1, into C[i] for i = 1..6, and leaves C[0] unchanged |
| `Compensation.Int32Of` | FC_MS5611_Lib.h:53 | reading 32 bits back as `int32_t` gives a value in the int32 range that is congruent to the input modulo 2³² |
| `Compensation.TruncReal` | FC_MS5611_Lib.cpp:161-162 | storing a `double` into an integer truncates toward zero: the result is within 1 of x, on the side of x toward zero |
| `Compensation.TruncDiv` | FC_MS5611_Lib.cpp:161-162 | the quotient rounds toward zero: q·d lies within d of a, on the side of a toward zero, for both signs of a |
| `Compensation.DeltaT` | FC_MS5611_Lib.cpp:157-160 | defines the reference dT = D2 − C5·2⁸ over unbounded integers; `DeltaTBounds` and `WrappingAddExact` show the in-place `int32_t` computation gives it |
| `Compensation.Offset` | FC_MS5611_Lib.cpp:161 | defines the reference OFF = OFF_C2 + dT·C4/2⁷, with the whole sum rounded toward zero by `TruncDiv`; `OffsetForms` proves both source spellings equal to it |
| `Compensation.Sensitivity` | FC_MS5611_Lib.cpp:162 | defines the reference SENS = SENS_C1 + dT·C3/2⁸, with the whole sum rounded toward zero by `TruncDiv`; `SensitivityForms` proves both source spellings equal to it |
| `Compensation.OffsetByQuotient` | FC_MS5611_Lib.cpp:161 | the flight-controller spelling of OFF: `OFF_C2 + (dT·C4) / pow(2, 7)` over the reals, truncated toward zero on the store into `int64_t`; `OffsetForms` proves it equal to `Offset` |
| `Compensation.SensitivityByQuotient` | FC_MS5611_Lib.cpp:162 | the flight-controller spelling of SENS: `SENS_C1 + (dT·C3) / pow(2, 8)` over the reals, truncated toward zero; `SensitivityForms` proves it equal to `Sensitivity` |
| `Compensation.OffsetByReciprocal` | SimpleMS5611.cpp:120 | the blocking revision's spelling of OFF: `OFF_C2 + (dT·C4) * 0.0078125` over the reals, truncated toward zero; `OffsetForms` proves it equal to `Offset` |
| `Compensation.SensitivityByReciprocal` | SimpleMS5611.cpp:121 | the blocking revision's spelling of SENS: `SENS_C1 + (dT·C3) * 0.00390625` over the reals, truncated toward zero; `SensitivityForms` proves it equal to `Sensitivity` |
| `Compensation.OffC2ByPow` | FC_MS5611_Lib.cpp:57 | `C[2] * pow(2, 16)` over the reals, truncated on the store into `int64_t` (also SimpleMS5611.cpp:43); `PrecomputedConstantsExact` proves it equals C2·2¹⁶ |
| `Compensation.SensC1ByPow` | FC_MS5611_Lib.cpp:58 | `C[1] * pow(2, 15)` over the reals, truncated on the store into `int64_t` (also SimpleMS5611.cpp:44); `PrecomputedConstantsExact` proves it equals C1·2¹⁵ |
| `Compensation.PrecomputedConstantsExact` | FC_MS5611_Lib.cpp:57-58 | `C[2]*pow(2,16)` and `C[1]*pow(2,15)` stored into `int64_t` are exactly C2·2¹⁶ and C1·2¹⁵, in [0, 2³²) and [0, 2³¹) |
| `Compensation.WrappingAddExact` | FC_MS5611_Lib.cpp:160 | adding a `uint32_t` to an `int32_t` through 32-bit wrap-around gives the true sum whenever that sum fits in `int32_t` |
| `Compensation.TruncQuotient` | FC_MS5611_Lib.cpp:161-162 | dividing an integer by 2⁷ or 2⁸ over the reals and truncating equals integer division toward zero |
| `Compensation.OffsetForms` | FC_MS5611_Lib.cpp:161 | OFF computed with `/ pow(2, 7)` and OFF computed with `* 0.0078125` both equal trunc0((OFF_C2·2⁷ + dT·C4) / 2⁷) |
| `Compensation.SensitivityForms` | SimpleMS5611.cpp:121 | SENS computed with `/ pow(2, 8)` and SENS computed with `* 0.00390625` both equal trunc0((SENS_C1·2⁸ + dT·C3) / 2⁸) |
| `Compensation.DeltaTBounds` | FC_MS5611_Lib.cpp:157-160 | for a 24-bit raw temperature and a 16-bit C5, dT lies strictly between −2²⁴ and 2²⁴, so dT fits in `int32_t` |
| `Compensation.OffsetBounds` | FC_MS5611_Lib.cpp:161 | dT·C4 lies strictly between −2⁴⁰ and 2⁴⁰; the numerator of OFF stays below 2⁵³, so the `double` evaluation is exact; OFF lies in [−2³³, 2³⁴) and fits in `int64_t` |
| `Compensation.SensitivityBounds` | FC_MS5611_Lib.cpp:162 | dT·C3 lies strictly between −2⁴⁰ and 2⁴⁰; the numerator of SENS stays below 2⁵³; SENS lies in [−2³², 2³³) and fits in `int64_t` |
| `Compensation.NegativeSensitivity` | FC_MS5611_Lib.cpp:162 | for D2 = 1, C1 = 0 and C5 = C3 = 0xFFFF, SENS is negative, and truncation toward zero gives −0xFFFDFF01 where floor division would give −0xFFFDFF02 |
| `Compensation.DatasheetExample` | FC_MS5611_Lib.cpp:157-162 | the datasheet's typical calibration and D2 give dT = 2366, OFF = 2420281617 and SENS = 1315097036 |
| `Cycle.Fire` | FC_MS5611_Lib.cpp:197-218 | defines one firing: the start task hands over to `pressureAction` with the counter unchanged; `pressureAction` increments the `uint8_t` counter modulo 256 and hands over to `temperatureAction` exactly when it is 20, else to itself; `temperatureAction` sets the counter to 1 and hands over to `pressureAction`; `FireConsistent` and `RunConsistent` are its invariants |
| `Cycle.Traffic` | FC_MS5611_Lib.cpp:187-220 | one firing's events: the start task only requests pressure; a reading task reads the ADC and compensates first, and always ends by requesting the conversion its successor reads |
| `Cycle.ReadingTraffic` | FC_MS5611_Lib.cpp:195-220 | a reading task's events are read, compensate, notify if a callback is registered, then the successor's conversion request |
| `Cycle.FireConsistent` | FC_MS5611_Lib.cpp:197-218 | from a consistent phase, one firing gives a consistent phase; the `uint8_t` increment never wraps; the counter stays in [0, 20], is at least 1 after a reading task, and the start task is never scheduled again |
| `Cycle.RunConsistent` | FC_MS5611_Lib.cpp:197-218 | every run from a consistent phase stays consistent with the counter in [0, 20]; after two firings the counter is in [1, 20] |
| `Cycle.PressureRun` | FC_MS5611_Lib.cpp:195-211 | from a counter k < 20, the next 20 − k firings read pressure only and end with a temperature conversion pending and the counter at 20 |
| `Cycle.CycleFrom` | FC_MS5611_Lib.cpp:195-220 | from a counter k < 20: 20 − k pressure reads, then one temperature read, leaving a pressure read pending with the counter at 1 |
| `Cycle.FirstTemperatureRead` | FC_MS5611_Lib.cpp:187-220 | from the first request pending with counter k (0 on a fresh start), 20 − k pressure reads precede the first temperature read |
| `Cycle.SteadyCycleReads` | FC_MS5611_Lib.cpp:213-220 | from pressure-pending with counter 1, twenty firings read 19 pressures then one temperature, and return to the same phase |
| `Cycle.SteadyState` | FC_MS5611_Lib.cpp:195-220 | after the first temperature read, every block of 20 firings is 19 pressure reads followed by one temperature read |
| `Cycle.FreshRun` | FC_MS5611_Lib.cpp:187-220 | the read sequence from a start with counter k is 20 − k pressures, a temperature, then steady cycles |
| `Cycle.LastSample` | FC_MS5611_Lib.cpp:122-150 | defines what a raw buffer holds after n firings: the sample of the last firing that reads it, else its initial value; `LastSampleUnread` and `LastSampleRead` prove that reading |
| `Cycle.LastSampleUnread` | FC_MS5611_Lib.cpp:122-150 | a raw buffer that no firing of a run reads keeps the value it had before the run |
| `Cycle.LastSampleRead` | FC_MS5611_Lib.cpp:122-150 | a raw buffer that some firing of a run reads holds the sample of a firing that reads it, and no later firing of the run reads it |
| `Cycle.WarmUpBuffers` | FC_MS5611_Lib.cpp:63-75 | from the first request pending with counter k (0 on a fresh start), the first 21 − k firings leave the raw temperature as it was, and from the second firing on the raw pressure is the latest sample |
| `Cycle.ReadingBusShape` | FC_MS5611_Lib.cpp:195-220 | the bus transactions of n reading firings are exactly 2n long: an ADC read and a conversion command, n times |
| `Cycle.FreshBusAlternates` | FC_MS5611_Lib.cpp:187-220 | from a fresh start, the bus sees conversion commands and ADC reads strictly alternating, starting with a conversion |
| `Cycle.OneNotificationPerCompensation` | FC_MS5611_Lib.cpp:179-180 | in any run, compensations equal ADC reads; with a callback registered there is exactly one notification per compensation, and without one there are none |
| `Fc.Barometer.constructor` | FC_MS5611_Lib.cpp:20-24 | a new driver has nothing scheduled, the counter at 0 (FC_MS5611_Lib.h:65), no callback (FC_MS5611_Lib.h:67), an empty bus log, and the calibration, raw buffers, OFF_C2, SENS_C1, dT, OFF, SENS and intPressure all zero |
| `Fc.Barometer.Initialize` | FC_MS5611_Lib.cpp:27-78 | an unacknowledged probe returns false after the probe alone (preceded by BeginBus when asked to begin the bus), with the calibration, counter, raw buffers and compensation fields untouched and nothing scheduled; otherwise it returns true after the six PROM reads have filled C[1..6] and the warm-up firings have run from the first request (counter 0): the phase and log are those of the run, each raw buffer holds the sample of the last firing that read it (`LastSample`), the fields are compensated once two firings have run and untouched with fewer (the start task alone compensates nothing), and the raw temperature is untouched through the first 21 firings |
| `Fc.Barometer.SetUp` | FC_MS5611_Lib.cpp:43-75 | after the probe: the PROM reads fill C[1..6], then the run from the first request has the phase, log, raw buffers and compensation that `Initialize` promises, with dT, OFF, SENS and intPressure untouched when fewer than two firings run |
| `Fc.Barometer.StartAcquisition` | FC_MS5611_Lib.cpp:63-75 | the first pressure request is scheduled at counter 0 and the warm-up firings run from it; afterwards the phase and log are those of the run, the raw buffers are given by `LastSample`, the fields are compensated once two firings have run and untouched with fewer (the start task alone compensates nothing), and the raw temperature is untouched through the first 21 firings |
| `Fc.Barometer.LoadCalibration` | FC_MS5611_Lib.cpp:46-58 | the PROM reads 0xA2..0xAC fill C[1..6], and OFF_C2 and SENS_C1 then equal C2·2¹⁶ and C1·2¹⁵ |
| `Fc.Barometer.WarmUp` | FC_MS5611_Lib.cpp:68-75 | after n planner runs from phase p, the phase is `Iterate(p, n)` and the log has grown by exactly `Log(p, n)`; each raw buffer holds the sample of the last firing that read it, or its old value; the fields are compensated once a reading task has fired, and the compensation fields are untouched until then |
| `Fc.Barometer.WarmUpFiring` | FC_MS5611_Lib.cpp:71-75 | one planner run inside the warm-up loop advances the run by one firing and keeps every fact the loop tracks: phase, log, raw buffers and compensation |
| `Fc.Barometer.RegisterNewBaroReadingFunction` | FC_MS5611_Lib.cpp:105-108 | afterwards, whether a callback is registered is what the argument says |
| `Fc.Barometer.RunBarometer` | FC_MS5611_Lib.cpp:99-102 | if no task is due, nothing changes; otherwise the pending task fires: the phase becomes `Fire` of the old one and the log grows by its `Traffic`; the raw buffer the task reads takes the sample and the other keeps its value; after a reading task the fields are compensated, and after the start task dT, OFF, SENS and intPressure are unchanged |
| `Fc.Barometer.RequestPressureStartTask` | FC_MS5611_Lib.cpp:187-193 | it requests a pressure conversion and schedules `pressureAction` after 9 ms |
| `Fc.Barometer.PressureAction` | FC_MS5611_Lib.cpp:195-211 | the counter goes up by one; the raw pressure is the new sample, compensated; the log shows read, compensate, (notify), then 0x58 with `temperatureAction` scheduled iff the counter is 20, else 0x48 with `pressureAction` scheduled |
| `Fc.Barometer.SchedulePressureSuccessor` | FC_MS5611_Lib.cpp:201-210 | at a count of 20 exactly 0x58 is requested and `temperatureAction` is scheduled after 9 ms; at any other count exactly 0x48 is requested and `pressureAction` is scheduled after 9 ms |
| `Fc.Barometer.TemperatureAction` | FC_MS5611_Lib.cpp:213-220 | the raw temperature is the new sample, compensated together with the last raw pressure; 0x48 is requested, the counter is set to 1, and `pressureAction` is scheduled |
| `Fc.Barometer.RequestPressureFromDevice` | FC_MS5611_Lib.cpp:113-119 | exactly one conversion command, 0x48, is appended to the log |
| `Fc.Barometer.GetRawPressureFromDevice` | FC_MS5611_Lib.cpp:122-130 | one ADC read is appended, and the raw pressure becomes the big-endian packing of the three bytes |
| `Fc.Barometer.RequestTemperatureFromDevice` | FC_MS5611_Lib.cpp:133-139 | exactly one conversion command, 0x58, is appended to the log |
| `Fc.Barometer.GetRawTemperatureFromDevice` | FC_MS5611_Lib.cpp:142-150 | one ADC read is appended, and the raw temperature becomes the big-endian packing of the three bytes |
| `Fc.Barometer.CalculatePressureAndTemperatureFromRawData` | FC_MS5611_Lib.cpp:153-181 | dT, OFF and SENS equal the datasheet formulas with truncation toward zero and fit `int32_t`/`int64_t`; one Compensate event is logged, followed by one Notify iff a callback is registered |
| `Simple.SimpleBarometer.constructor` | SimpleMS5611.cpp:12-14 | both raw buffers start at 0 (SimpleMS5611.h:33-34), and the bus log is empty |
| `Simple.SimpleBarometer.Initialize` | SimpleMS5611.cpp:17-47 | an unacknowledged probe returns false after the probe alone, with no calibration read; otherwise it returns true after the PROM reads 0xA2..0xAC have filled C[1..6], with OFF_C2 = C2·2¹⁶ and SENS_C1 = C1·2¹⁵ |
| `Simple.SimpleBarometer.ReadPressure` | SimpleMS5611.cpp:50-63 | the log grows by 0x58, read, 0x48, read, then exactly one compensation; the first sample becomes the raw temperature and the second the raw pressure, and the compensation uses both |
| `Simple.SimpleBarometer.RequestPressureFromDevice` | SimpleMS5611.cpp:72-78 | exactly one conversion command, 0x48, is appended to the log |
| `Simple.SimpleBarometer.GetRawPressureFromDevice` | SimpleMS5611.cpp:81-89 | one ADC read is appended, and the raw pressure becomes the big-endian packing of the three bytes |
| `Simple.SimpleBarometer.RequestTemperatureFromDevice` | SimpleMS5611.cpp:92-98 | exactly one conversion command, 0x58, is appended to the log |
| `Simple.SimpleBarometer.GetRawTemperatureFromDevice` | SimpleMS5611.cpp:101-109 | one ADC read is appended, and the raw temperature becomes the big-endian packing of the three bytes |
| `Simple.SimpleBarometer.CalculatePressureAndTemperatureFromRawData` | SimpleMS5611.cpp:112-126 | the reciprocal forms give the same dT, OFF and SENS as the flight-controller revision, within `int32_t`/`int64_t`; one Compensate event is logged |

## Left out

- The I²C transport (`Wire.begin`, `beginTransmission`, `endTransmission`, `requestFrom`, `read`). Wire is a foreign library, so each transaction is one `Event` and the answers are parameters. A `read()` that returns −1 is not modelled.
- `setFastClock` (FC_MS5611_Lib.cpp:81-84) only sets the bus clock, which the model does not have.
- Timing. `millis()` is replaced by a supplied list of warm-up firings. `delayMicroseconds` in `readPressure` is dropped. The planner's 8 and 9 ms delays are kept only as data in `Pending`. Whether a task is due is the `due` argument of `RunBarometer`.
- The task planner itself (`FC_TaskPlanner`, `ITasker`) is not part of this model. It is reduced to the single slot `pending`.
- `Fc.Barometer.Initialize` requires nothing to be scheduled yet. Calling `initialize` again while the acquisition chain runs would put a second task of the driver into the planner. A single slot cannot hold two tasks, so that case is not modelled.
- `Fc.Barometer.WarmUp` fires the pending task once for each supplied sample. It does not model how many firings fit into the 400 ms window.
- The `double` arithmetic is modelled as IEEE-754 binary64, where every value involved is exact. On 8-bit AVR boards `double` is 32 bits wide: OFF_C2, SENS_C1, OFF and SENS would round there, and the model does not cover that. A 64-bit `double` is what the 32-bit targets provide, and those are also the targets on which the shifts in the byte packings are 32 bits wide.
- intPressure (FC_MS5611_Lib.cpp:163, SimpleMS5611.cpp:122) is floating point, so it is left abstract:
  - the product rawPressure·SENS reaches about 2⁵⁷, so converting it to `double` loses bits;
  - 0.0000004768371582 is not exactly 2⁻²¹;
  - the model therefore uses an arbitrary function `intPressureOf` of (raw pressure, SENS, OFF), fixed at construction.
- `Simple.SimpleBarometer.ReadPressure` returns intPressure, not the `float` pressure the source returns. The conversion from `int32_t` to `float` is not modelled.
- The moving-average filter `FC_AverageFilter` (FC_MS5611_Lib.cpp:21,167-168) is not part of this model. The float smoothing (FC_MS5611_Lib.cpp:172-176) and the float fields `pressure` and `smoothPressure` are float numerics, so they are left out too. So are their getters `getPressure` and `getSmoothPressure` (FC_MS5611_Lib.cpp:87-96) and `SimpleMS5611::getPressure` (SimpleMS5611.cpp:66-69).
- `Simple.SimpleBarometer.constructor` sets C, OFF_C2, SENS_C1, dT, OFF, SENS and intPressure to zero. In C++ these are indeterminate for an automatic object.
- The global `baro` object and the friend free functions are folded into methods of one class (`Fc.Barometer`). The registered callback becomes the flag `callbackRegistered`, and invoking it becomes a `Notify` event.
- Header/source mismatches are not modelled; the model follows the .cpp files:
  - the constructor signature and `taskPlanner` declared as `FC_TaskPlanner*` but used as an object (FC_MS5611_Lib.h:18,43);
  - the undeclared `lastSmoothPressure`;
  - `getLastPressure` against `getPressure` (SimpleMS5611.h:63).
- The byte packings are modelled with the bytes taken in bus order, high byte first. Two details of the C++ are not modelled: the operands of `|` are unsequenced, and on 8-bit AVR targets `int` shifts are 16 bits wide.
- The method name `GetRawTemperatureFromDevice` corrects the spelling of `getRawTemperatreFromDevice` (FC_MS5611_Lib.cpp:142).
