/** SimpleMS5611: the blocking revision of the MS5611 driver.

    No task planner and no callback: `ReadPressure` requests and reads a temperature, then a
    pressure, and compensates once. The bus is the event log `events`; the bytes the device
    answers with are parameters. As in module Fc, the floating-point end of the compensation
    (intPressure) is the function `intPressureOf`, supplied at construction. */
module Simple {
  import opened Bytes
  import opened Bus
  import opened Compensation
  import Calibration

  class SimpleBarometer {
    /** C[1..6]: the factory calibration words; C[0] is unused. */
    const C: array<uint16>
    /** intPressure as a function of (raw pressure, SENS, OFF). */
    const intPressureOf: (int, int, int) -> int

    var offC2: int
    var sensC1: int
    var dT: int
    var off: int
    var sens: int
    var rawPressure: int
    var rawTemperature: int
    var intPressure: int
    var events: seq<Event>

    /** The precomputed constants belong to the calibration words, and every field holds a
        value of its C++ type. */
    ghost predicate Valid()
      reads this, C
    {
      && C.Length == 7
      && offC2 == OffC2(C[2] as int) && sensC1 == SensC1(C[1] as int)
      && 0 <= rawPressure < AdcLimit && 0 <= rawTemperature < AdcLimit
      && IsInt32(dT) && IsInt64(off) && IsInt64(sens)
    }

    /** The compensation fields hold the datasheet formulas applied to the raw buffers. */
    ghost predicate Compensated()
      reads this, C
      requires C.Length == 7
    {
      && dT == DeltaT(rawTemperature, C[5] as int)
      && off == Offset(offC2, dT, C[4] as int)
      && sens == Sensitivity(sensC1, dT, C[3] as int)
      && intPressure == intPressureOf(rawPressure, sens, off)
    }

    /** A driver with both raw buffers at zero, as declared, and nothing on the bus yet. */
    constructor (intPressureOf: (int, int, int) -> int)
      ensures Valid() && fresh(C)
      ensures this.intPressureOf == intPressureOf
      ensures rawPressure == 0 && rawTemperature == 0 && events == []
    {
      C := new uint16[7](_ => 0);
      this.intPressureOf := intPressureOf;
      offC2, sensC1, dT, off, sens := 0, 0, 0, 0, 0;
      rawPressure, rawTemperature, intPressure := 0, 0, 0;
      events := [];
    }

    /** Probes the device; when it answers, reads C1..C6 from the PROM and precomputes
        OFF_C2 = C2 * 2^16 and SENS_C1 = C1 * 2^15. Unlike the flight-controller revision it
        neither starts the bus nor reads anything before returning. */
    method Initialize(acknowledged: bool, prom: seq<uint8>) returns (ok: bool)
      requires Valid() && |prom| == 12
      modifies C, this`offC2, this`sensC1, this`events
      ensures Valid() && ok == acknowledged
      ensures !ok ==> events == old(events) + [Probe] && unchanged(C)
      ensures !ok ==> offC2 == old(offC2) && sensC1 == old(sensC1)
      ensures ok ==> events == old(events) + [Probe] + PromReads()
      ensures ok ==> C[0] == old(C[0]) && forall i :: 1 <= i <= 6 ==> C[i] == Calibration.PromWord(prom, i)
    {
      events := events + [Probe];
      if !acknowledged {
        return false;
      }
      var transactions := Calibration.ReadProm(C, prom);
      events := events + transactions;
      var c1, c2 := C[1] as int, C[2] as int;
      offC2 := OffC2ByPow(c2);
      sensC1 := SensC1ByPow(c1);
      PrecomputedConstantsExact(c1, c2);
      return true;
    }

    /** Temperature first, then pressure, each requested and then read; one compensation over
        both new readings. Returns the (pre-float) pressure reading. */
    method ReadPressure(temperatureSample: AdcBytes, pressureSample: AdcBytes) returns (reading: int)
      requires Valid()
      modifies this`rawTemperature, this`rawPressure, this`dT, this`off, this`sens
      modifies this`intPressure, this`events
      ensures Valid() && Compensated()
      ensures events == old(events) + [Convert(ConvertTemperature), AdcRead, Convert(ConvertPressure), AdcRead, Compensate]
      ensures rawTemperature == Pack24(temperatureSample) && rawPressure == Pack24(pressureSample)
      ensures reading == intPressure
    {
      RequestTemperatureFromDevice();
      GetRawTemperatureFromDevice(temperatureSample);
      RequestPressureFromDevice();
      GetRawPressureFromDevice(pressureSample);
      CalculatePressureAndTemperatureFromRawData();
      reading := intPressure;
    }

    method RequestPressureFromDevice()
      modifies this`events
      ensures events == old(events) + [Convert(ConvertPressure)]
    {
      events := events + [Convert(ConvertPressure)];
    }

    method GetRawPressureFromDevice(sample: AdcBytes)
      modifies this`events, this`rawPressure
      ensures events == old(events) + [AdcRead]
      ensures rawPressure == Pack24(sample)
    {
      events := events + [AdcRead];
      rawPressure := Pack24(sample);
    }

    method RequestTemperatureFromDevice()
      modifies this`events
      ensures events == old(events) + [Convert(ConvertTemperature)]
    {
      events := events + [Convert(ConvertTemperature)];
    }

    method GetRawTemperatureFromDevice(sample: AdcBytes)
      modifies this`events, this`rawTemperature
      ensures events == old(events) + [AdcRead]
      ensures rawTemperature == Pack24(sample)
    {
      events := events + [AdcRead];
      rawTemperature := Pack24(sample);
    }

    /** dT is built in place as an `int32_t`; OFF and SENS multiply by the reciprocals 2^-7
        and 2^-8 in `double` and are stored into `int64_t`. The result is the same as the
        flight-controller revision's. */
    method CalculatePressureAndTemperatureFromRawData()
      requires C.Length == 7 && offC2 == OffC2(C[2] as int) && sensC1 == SensC1(C[1] as int)
      requires 0 <= rawTemperature < AdcLimit
      modifies this`dT, this`off, this`sens, this`intPressure, this`events
      ensures Compensated()
      ensures IsInt32(dT) && IsInt64(off) && IsInt64(sens)
      ensures events == old(events) + [Compensate]
    {
      var c3, c4, c5 := C[3] as int, C[4] as int, C[5] as int;
      var t := c5;
      t := t * 0x100;
      t := -t;
      WrappingAddExact(t, rawTemperature);
      t := Int32Of((t % TwoPow32 + rawTemperature) % TwoPow32);
      DeltaTBounds(rawTemperature, c5);
      var o := OffsetByReciprocal(offC2, t, c4);
      OffsetForms(offC2, t, c4);
      OffsetBounds(C[2] as int, c4, t);
      var s := SensitivityByReciprocal(sensC1, t, c3);
      SensitivityForms(sensC1, t, c3);
      SensitivityBounds(C[1] as int, c3, t);
      dT, off, sens := t, o, s;
      intPressure := intPressureOf(rawPressure, sens, off);
      events := events + [Compensate];
    }
  }
}
