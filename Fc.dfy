/** FC_MS5611_Lib: the flight-controller revision of the MS5611 driver.

    One object holds the calibration, the raw buffers, the compensation results and
    `actionCounter`. The task planner is reduced to the one task of this driver it holds
    (`pending`); the bus is reduced to the event log `events`, and the bytes the device answers
    with are parameters. The floating-point end of the compensation (intPressure) is the
    function `intPressureOf`, supplied at construction; the moving average and the smoothing
    that follow it are not modelled. */
module Fc {
  import opened Bytes
  import opened Bus
  import opened Compensation
  import opened Cycle
  import Calibration

  /** What the task planner holds for this driver: nothing yet, or one task and its delay. */
  datatype Pending = Idle | Scheduled(task: Task, delayMs: nat)

  class Barometer {
    /** C[1..6]: the factory calibration words; C[0] is unused. */
    const C: array<uint16>
    /** intPressure as a function of (raw pressure, SENS, OFF). */
    const intPressureOf: (int, int, int) -> int

    var offC2: int
    var sensC1: int
    var dT: int
    var off: int
    var sens: int
    var rawPressure: int
    var rawTemperature: int
    var intPressure: int
    var actionCounter: int
    var pending: Pending
    var callbackRegistered: bool
    var events: seq<Event>

    ghost predicate Valid()
      reads this, C
    {
      && C.Length == 7
      && offC2 == OffC2(C[2] as int) && sensC1 == SensC1(C[1] as int)
      && 0 <= rawPressure < AdcLimit && 0 <= rawTemperature < AdcLimit
      && IsInt32(dT) && IsInt64(off) && IsInt64(sens)
      && (pending.Idle? ==> actionCounter == 0)
      && (pending.Scheduled? ==>
            Consistent(Phase(pending.task, actionCounter)) && pending.delayMs == DelayBefore(pending.task))
    }

    /** The pending task together with `actionCounter`. */
    ghost function CurrentPhase(): Phase
      reads this
      requires pending.Scheduled?
    {
      Phase(pending.task, actionCounter)
    }

    /** Whether `n` firings, the first of them of `first`, include a reading task, and so
        a compensation: every task after the first is a reading task. */
    static predicate Compensates(first: Task, n: nat)
    {
      n >= 2 || (n >= 1 && first != StartTask)
    }

    /** The compensation fields hold the datasheet formulas applied to the raw buffers. */
    ghost predicate Compensated()
      reads this, C
      requires C.Length == 7
    {
      && dT == DeltaT(rawTemperature, C[5] as int)
      && off == Offset(offC2, dT, C[4] as int)
      && sens == Sensitivity(sensC1, dT, C[3] as int)
      && intPressure == intPressureOf(rawPressure, sens, off)
    }

    /** A driver as the global object starts: every field zero, nothing scheduled. */
    constructor (intPressureOf: (int, int, int) -> int)
      ensures Valid() && fresh(C)
      ensures forall i :: 0 <= i < C.Length ==> C[i] == 0
      ensures this.intPressureOf == intPressureOf
      ensures rawPressure == 0 && rawTemperature == 0 && actionCounter == 0
      ensures offC2 == 0 && sensC1 == 0 && dT == 0 && off == 0 && sens == 0 && intPressure == 0
      ensures pending == Idle && !callbackRegistered && events == []
    {
      C := new uint16[7](_ => 0);
      this.intPressureOf := intPressureOf;
      offC2, sensC1, dT, off, sens := 0, 0, 0, 0, 0;
      rawPressure, rawTemperature, intPressure := 0, 0, 0;
      actionCounter := 0;
      pending := Idle;
      callbackRegistered := false;
      events := [];
    }

    /** Starts the bus if asked to, probes the device and, when it answers, reads the
        calibration, precomputes OFF_C2 and SENS_C1, schedules the first pressure request
        after 8 ms and lets the planner run the acquisition cycle during the warm-up window.
        `acknowledged` is the probe's outcome, `prom` the twelve PROM bytes and `warmUp` the
        ADC bytes answered to each task the planner fires during the warm-up. */
    method Initialize(needToBeginWire: bool, acknowledged: bool, prom: seq<uint8>, warmUp: seq<AdcBytes>)
      returns (ok: bool)
      requires Valid() && pending == Idle && |prom| == 12
      modifies this, C
      ensures Valid() && ok == acknowledged
      ensures callbackRegistered == old(callbackRegistered)
      ensures !ok ==> events == old(events) + (if needToBeginWire then [BeginBus] else []) + [Probe]
      ensures !ok ==> unchanged(C) && pending == Idle && actionCounter == old(actionCounter)
      ensures !ok ==> rawPressure == old(rawPressure) && rawTemperature == old(rawTemperature)
      ensures !ok ==> dT == old(dT) && off == old(off) && sens == old(sens) && intPressure == old(intPressure)
      ensures ok ==> C[0] == old(C[0]) && forall i :: 1 <= i <= 6 ==> C[i] == Calibration.PromWord(prom, i)
      ensures ok ==> pending.Scheduled? && CurrentPhase() == Iterate(Phase(StartTask, 0), |warmUp|)
      ensures ok ==> events == old(events) + (if needToBeginWire then [BeginBus] else []) + [Probe]
                               + PromReads() + Log(Phase(StartTask, 0), |warmUp|, callbackRegistered)
      ensures ok ==> rawPressure == LastSample(Phase(StartTask, 0), warmUp, |warmUp|, Pressure, old(rawPressure))
      ensures ok ==> rawTemperature == LastSample(Phase(StartTask, 0), warmUp, |warmUp|, Temperature, old(rawTemperature))
      ensures ok && |warmUp| >= 2 ==> Compensated()
      ensures ok && |warmUp| <= CounterLimit + 1 ==> rawTemperature == old(rawTemperature)
      ensures ok && |warmUp| < 2 ==>
                dT == old(dT) && off == old(off) && sens == old(sens) && intPressure == old(intPressure)
    {
      if needToBeginWire {
        events := events + [BeginBus];
      }
      events := events + [Probe];
      if !acknowledged {
        return false;
      }
      SetUp(prom, warmUp);
      return true;
    }

    /** What `initialize` does once the device has answered: read the calibration, then
        start the acquisition cycle and run it through the warm-up window. */
    method SetUp(prom: seq<uint8>, warmUp: seq<AdcBytes>)
      requires Valid() && pending == Idle && |prom| == 12
      modifies C, this`offC2, this`sensC1, this`actionCounter, this`pending, this`rawPressure
      modifies this`rawTemperature, this`dT, this`off, this`sens, this`intPressure, this`events
      ensures Valid()
      ensures C[0] == old(C[0]) && forall i :: 1 <= i <= 6 ==> C[i] == Calibration.PromWord(prom, i)
      ensures pending.Scheduled? && CurrentPhase() == Iterate(Phase(StartTask, 0), |warmUp|)
      ensures events == old(events) + PromReads() + Log(Phase(StartTask, 0), |warmUp|, callbackRegistered)
      ensures rawPressure == LastSample(Phase(StartTask, 0), warmUp, |warmUp|, Pressure, old(rawPressure))
      ensures rawTemperature == LastSample(Phase(StartTask, 0), warmUp, |warmUp|, Temperature, old(rawTemperature))
      ensures |warmUp| >= 2 ==> Compensated()
      ensures |warmUp| <= CounterLimit + 1 ==> rawTemperature == old(rawTemperature)
      ensures |warmUp| < 2 ==>
                dT == old(dT) && off == old(off) && sens == old(sens) && intPressure == old(intPressure)
    {
      LoadCalibration(prom);
      StartAcquisition(warmUp);
    }

    /** Schedules the first pressure request after 8 ms, then lets the planner run the
        acquisition cycle for the warm-up window; `warmUp` holds the ADC bytes answered to
        each firing. */
    method StartAcquisition(warmUp: seq<AdcBytes>)
      requires Valid() && pending == Idle
      modifies this`actionCounter, this`pending, this`rawPressure, this`rawTemperature
      modifies this`dT, this`off, this`sens, this`intPressure, this`events
      ensures Valid() && pending.Scheduled? && CurrentPhase() == Iterate(Phase(StartTask, 0), |warmUp|)
      ensures events == old(events) + Log(Phase(StartTask, 0), |warmUp|, callbackRegistered)
      ensures rawPressure == LastSample(Phase(StartTask, 0), warmUp, |warmUp|, Pressure, old(rawPressure))
      ensures rawTemperature == LastSample(Phase(StartTask, 0), warmUp, |warmUp|, Temperature, old(rawTemperature))
      ensures |warmUp| >= 2 ==> Compensated()
      ensures |warmUp| <= CounterLimit + 1 ==> rawTemperature == old(rawTemperature)
      ensures |warmUp| < 2 ==>
                dT == old(dT) && off == old(off) && sens == old(sens) && intPressure == old(intPressure)
    {
      pending := Scheduled(StartTask, 8);
      WarmUp(warmUp);
      if |warmUp| <= CounterLimit + 1 {
        WarmUpBuffers(0, warmUp, |warmUp|, old(rawPressure), old(rawTemperature));
      }
    }

    /** Reads C1..C6 from the PROM and precomputes OFF_C2 = C2 * 2^16 and SENS_C1 = C1 * 2^15
        (evaluated in `double`, exactly). */
    method LoadCalibration(prom: seq<uint8>)
      requires C.Length == 7 && |prom| == 12
      modifies C, this`offC2, this`sensC1, this`events
      ensures C[0] == old(C[0]) && forall i :: 1 <= i <= 6 ==> C[i] == Calibration.PromWord(prom, i)
      ensures offC2 == OffC2(C[2] as int) && sensC1 == SensC1(C[1] as int)
      ensures events == old(events) + PromReads()
    {
      var transactions := Calibration.ReadProm(C, prom);
      events := events + transactions;
      var c1, c2 := C[1] as int, C[2] as int;
      offC2 := OffC2ByPow(c2);
      sensC1 := SensC1ByPow(c1);
      PrecomputedConstantsExact(c1, c2);
    }

    /** The warm-up window: the planner runs, and each run fires the pending task; `warmUp`
        holds the ADC bytes answered to each firing. */
    method WarmUp(warmUp: seq<AdcBytes>)
      requires Valid() && pending.Scheduled?
      modifies this`actionCounter, this`pending, this`rawPressure, this`rawTemperature
      modifies this`dT, this`off, this`sens, this`intPressure, this`events
      ensures Valid() && pending.Scheduled?
      ensures CurrentPhase() == Iterate(old(CurrentPhase()), |warmUp|)
      ensures events == old(events) + Log(old(CurrentPhase()), |warmUp|, callbackRegistered)
      ensures rawPressure == LastSample(old(CurrentPhase()), warmUp, |warmUp|, Pressure, old(rawPressure))
      ensures rawTemperature == LastSample(old(CurrentPhase()), warmUp, |warmUp|, Temperature, old(rawTemperature))
      ensures Compensates(old(pending).task, |warmUp|) ==> Compensated()
      ensures !Compensates(old(pending).task, |warmUp|) ==>
                dT == old(dT) && off == old(off) && sens == old(sens) && intPressure == old(intPressure)
    {
      ghost var start, before := CurrentPhase(), events;
      ghost var pressure, temperature := rawPressure, rawTemperature;
      ghost var dT0, off0, sens0, intPressure0 := dT, off, sens, intPressure;
      for i := 0 to |warmUp|
        invariant Valid() && pending.Scheduled?
        invariant CurrentPhase() == Iterate(start, i)
        invariant i >= 1 ==> pending.task != StartTask
        invariant events == before + Log(start, i, callbackRegistered)
        invariant rawPressure == LastSample(start, warmUp, i, Pressure, pressure)
        invariant rawTemperature == LastSample(start, warmUp, i, Temperature, temperature)
        invariant Compensates(start.task, i) ==> Compensated()
        invariant !Compensates(start.task, i) ==>
                    dT == dT0 && off == off0 && sens == sens0 && intPressure == intPressure0
      {
        WarmUpFiring(start, before, warmUp, i, pressure, temperature, dT0, off0, sens0, intPressure0);
      }
    }

    /** Firing `i` of the warm-up window, as one step of the run `Iterate(start, _)`: the
        phase advances, the firing's events are logged, the buffer it reads takes its sample,
        and the compensation fields hold the formulas once a reading task has fired. */
    method WarmUpFiring(ghost start: Phase, ghost before: seq<Event>, warmUp: seq<AdcBytes>, i: nat,
                        ghost pressure: int, ghost temperature: int,
                        ghost dT0: int, ghost off0: int, ghost sens0: int, ghost intPressure0: int)
      requires Valid() && pending.Scheduled? && i < |warmUp|
      requires CurrentPhase() == Iterate(start, i) && (i >= 1 ==> pending.task != StartTask)
      requires events == before + Log(start, i, callbackRegistered)
      requires rawPressure == LastSample(start, warmUp, i, Pressure, pressure)
      requires rawTemperature == LastSample(start, warmUp, i, Temperature, temperature)
      requires Compensates(start.task, i) ==> Compensated()
      requires !Compensates(start.task, i) ==>
                 dT == dT0 && off == off0 && sens == sens0 && intPressure == intPressure0
      modifies this`actionCounter, this`pending, this`rawPressure, this`rawTemperature
      modifies this`dT, this`off, this`sens, this`intPressure, this`events
      ensures Valid() && pending.Scheduled? && pending.task != StartTask
      ensures CurrentPhase() == Iterate(start, i + 1)
      ensures events == before + Log(start, i + 1, callbackRegistered)
      ensures rawPressure == LastSample(start, warmUp, i + 1, Pressure, pressure)
      ensures rawTemperature == LastSample(start, warmUp, i + 1, Temperature, temperature)
      ensures Compensates(start.task, i + 1) ==> Compensated()
      ensures !Compensates(start.task, i + 1) ==>
                dT == dT0 && off == off0 && sens == sens0 && intPressure == intPressure0
    {
      LogStep(start, i, callbackRegistered);
      LogExtends(before, start, i, callbackRegistered);
      FireConsistent(CurrentPhase());
      LastSampleStep(start, warmUp, i, Pressure, pressure);
      LastSampleStep(start, warmUp, i, Temperature, temperature);
      RunBarometer(true, warmUp[i]);
    }

    /** Registers the reading callback; `present` is false for `nullptr`. */
    method RegisterNewBaroReadingFunction(present: bool)
      modifies this`callbackRegistered
      ensures callbackRegistered == present
    {
      callbackRegistered := present;
    }

    /** One run of the task planner: when the pending task is due, it fires. */
    method RunBarometer(due: bool, sample: AdcBytes)
      requires Valid()
      modifies this`actionCounter, this`pending, this`rawPressure, this`rawTemperature
      modifies this`dT, this`off, this`sens, this`intPressure, this`events
      ensures Valid()
      ensures !(due && old(pending).Scheduled?) ==> unchanged(this)
      ensures due && old(pending).Scheduled? ==>
                && pending.Scheduled?
                && CurrentPhase() == Fire(old(CurrentPhase()))
                && events == old(events) + Traffic(old(CurrentPhase()), callbackRegistered)
      ensures due && old(pending).Scheduled? ==>
                && rawPressure == (if ReadOf(old(pending).task) == [Pressure] then Pack24(sample) else old(rawPressure))
                && rawTemperature == (if ReadOf(old(pending).task) == [Temperature] then Pack24(sample) else old(rawTemperature))
      ensures due && old(pending).Scheduled? && old(pending).task != StartTask ==> Compensated()
      ensures due && old(pending).Scheduled? && old(pending).task == StartTask ==>
                dT == old(dT) && off == old(off) && sens == old(sens) && intPressure == old(intPressure)
    {
      if due && pending.Scheduled? {
        match pending.task
        case StartTask => RequestPressureStartTask();
        case PressureTask => PressureAction(sample);
        case TemperatureTask => TemperatureAction(sample);
      }
    }

    /** The first task: request a pressure conversion and schedule `PressureAction`. */
    method RequestPressureStartTask()
      requires Valid() && pending.Scheduled? && pending.task == StartTask
      modifies this`events, this`pending
      ensures Valid() && pending.Scheduled?
      ensures CurrentPhase() == Fire(old(CurrentPhase()))
      ensures events == old(events) + Traffic(old(CurrentPhase()), callbackRegistered)
    {
      RequestPressureFromDevice();
      pending := Scheduled(PressureTask, 9);
    }

    /** Counts the reading, reads the pressure result, compensates, and requests the next
        conversion: temperature when the counter reaches 20, pressure otherwise. */
    method PressureAction(sample: AdcBytes)
      requires Valid() && pending.Scheduled? && pending.task == PressureTask
      modifies this`actionCounter, this`rawPressure, this`dT, this`off, this`sens
      modifies this`intPressure, this`events, this`pending
      ensures Valid() && pending.Scheduled?
      ensures CurrentPhase() == Fire(old(CurrentPhase()))
      ensures events == old(events) + Traffic(old(CurrentPhase()), callbackRegistered)
      ensures rawPressure == Pack24(sample) && Compensated()
    {
      ghost var before := CurrentPhase();
      FireConsistent(before);
      ReadingTraffic(before, callbackRegistered);
      actionCounter := (actionCounter + 1) % 0x100;
      GetRawPressureFromDevice(sample);
      CalculatePressureAndTemperatureFromRawData();
      SchedulePressureSuccessor();
    }

    /** After a pressure read: at a count of 20, request a temperature conversion and
        schedule `temperatureAction`; otherwise request a pressure conversion and schedule
        `pressureAction` again. */
    method SchedulePressureSuccessor()
      modifies this`events, this`pending
      ensures pending == Scheduled(if actionCounter == CounterLimit then TemperatureTask else PressureTask, 9)
      ensures events == old(events) + [Convert(if actionCounter == CounterLimit then ConvertTemperature else ConvertPressure)]
    {
      if actionCounter == CounterLimit {
        RequestTemperatureFromDevice();
        pending := Scheduled(TemperatureTask, 9);
      } else {
        RequestPressureFromDevice();
        pending := Scheduled(PressureTask, 9);
      }
    }

    /** Reads the temperature result, compensates with it and the last raw pressure, requests a
        pressure conversion and restarts the count at 1. */
    method TemperatureAction(sample: AdcBytes)
      requires Valid() && pending.Scheduled? && pending.task == TemperatureTask
      modifies this`actionCounter, this`rawTemperature, this`dT, this`off, this`sens
      modifies this`intPressure, this`events, this`pending
      ensures Valid() && pending.Scheduled?
      ensures CurrentPhase() == Fire(old(CurrentPhase()))
      ensures events == old(events) + Traffic(old(CurrentPhase()), callbackRegistered)
      ensures rawTemperature == Pack24(sample) && Compensated()
    {
      GetRawTemperatureFromDevice(sample);
      CalculatePressureAndTemperatureFromRawData();
      RequestPressureFromDevice();
      actionCounter := 1;
      pending := Scheduled(PressureTask, 9);
    }

    method RequestPressureFromDevice()
      modifies this`events
      ensures events == old(events) + [Convert(ConvertPressure)]
    {
      events := events + [Convert(ConvertPressure)];
    }

    method GetRawPressureFromDevice(sample: AdcBytes)
      modifies this`events, this`rawPressure
      ensures events == old(events) + [AdcRead]
      ensures rawPressure == Pack24(sample)
    {
      events := events + [AdcRead];
      rawPressure := Pack24(sample);
    }

    method RequestTemperatureFromDevice()
      modifies this`events
      ensures events == old(events) + [Convert(ConvertTemperature)]
    {
      events := events + [Convert(ConvertTemperature)];
    }

    method GetRawTemperatureFromDevice(sample: AdcBytes)
      modifies this`events, this`rawTemperature
      ensures events == old(events) + [AdcRead]
      ensures rawTemperature == Pack24(sample)
    {
      events := events + [AdcRead];
      rawTemperature := Pack24(sample);
    }

    /** dT is built in place as an `int32_t` (the final addition of the unsigned raw value
        wraps modulo 2^32); OFF and SENS are evaluated in `double` and stored into `int64_t`;
        then the callback, if registered, is invoked. */
    method CalculatePressureAndTemperatureFromRawData()
      requires C.Length == 7 && offC2 == OffC2(C[2] as int) && sensC1 == SensC1(C[1] as int)
      requires 0 <= rawTemperature < AdcLimit
      modifies this`dT, this`off, this`sens, this`intPressure, this`events
      ensures Compensated()
      ensures IsInt32(dT) && IsInt64(off) && IsInt64(sens)
      ensures events == old(events) + [Compensate] + (if callbackRegistered then [Notify] else [])
    {
      var c3, c4, c5 := C[3] as int, C[4] as int, C[5] as int;
      var t := c5;
      t := t * 0x100;
      t := -t;
      WrappingAddExact(t, rawTemperature);
      t := Int32Of((t % TwoPow32 + rawTemperature) % TwoPow32);
      DeltaTBounds(rawTemperature, c5);
      var o := OffsetByQuotient(offC2, t, c4);
      OffsetForms(offC2, t, c4);
      OffsetBounds(C[2] as int, c4, t);
      var s := SensitivityByQuotient(sensC1, t, c3);
      SensitivityForms(sensC1, t, c3);
      SensitivityBounds(C[1] as int, c3, t);
      dT, off, sens := t, o, s;
      intPressure := intPressureOf(rawPressure, sens, off);
      events := events + [Compensate];
      if callbackRegistered {
        events := events + [Notify];
      }
    }
  }
}
