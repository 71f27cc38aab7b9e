/** The non-blocking acquisition schedule of FC_MS5611_Lib as a pure transition system.

    The task planner holds exactly one task of the driver at a time; firing it performs the
    task's bus traffic and schedules its successor. A `Phase` is that pending task together
    with `actionCounter`. The class in module Fc performs these steps on its fields; the
    lemmas here are about what a run of them does. */
module Cycle {
  import opened Bytes
  import opened Bus

  datatype Task = StartTask | PressureTask | TemperatureTask

  datatype Quantity = Pressure | Temperature

  /** The pending task and the value of `actionCounter`. */
  datatype Phase = Phase(task: Task, counter: int)

  /** `pressureAction` requests a temperature conversion when the counter reaches this. */
  const CounterLimit := 20

  /** Milliseconds the planner is asked to wait before running `task`. */
  function DelayBefore(task: Task): nat
  {
    if task == StartTask then 8 else 9
  }

  /** One firing of the pending task: the new pending task and counter. The counter is an
      `uint8_t`, so the increment wraps modulo 256. */
  function Fire(p: Phase): Phase
  {
    match p.task
    case StartTask => Phase(PressureTask, p.counter)
    case PressureTask =>
      var c := (p.counter + 1) % 0x100;
      if c == CounterLimit then Phase(TemperatureTask, c) else Phase(PressureTask, c)
    case TemperatureTask => Phase(PressureTask, 1)
  }

  /** The raw buffer a task refills. */
  function ReadOf(task: Task): seq<Quantity>
  {
    match task
    case StartTask => []
    case PressureTask => [Pressure]
    case TemperatureTask => [Temperature]
  }

  /** The conversion whose result a task reads. */
  function ConversionFor(task: Task): uint8
  {
    if task == TemperatureTask then ConvertTemperature else ConvertPressure
  }

  /** The events of one firing. A reading task reads the ADC, runs the compensation (and the
      callback, when one is registered), and only then requests the next conversion. The
      conversion it requests is the one its successor reads. */
  function Traffic(p: Phase, notify: bool): (t: seq<Event>)
    ensures p.task == StartTask ==> |t| == 1
    ensures p.task != StartTask ==> |t| == if notify then 4 else 3
    ensures t[|t| - 1] == Convert(ConversionFor(Fire(p).task))
    ensures p.task != StartTask ==> t[..2] == [AdcRead, Compensate]
  {
    var compensation := [AdcRead, Compensate] + (if notify then [Notify] else []);
    match p.task
    case StartTask => [Convert(ConvertPressure)]
    case PressureTask =>
      if (p.counter + 1) % 0x100 == CounterLimit then compensation + [Convert(ConvertTemperature)]
      else compensation + [Convert(ConvertPressure)]
    case TemperatureTask => compensation + [Convert(ConvertPressure)]
  }

  /** A reading firing, spelled out: read, compensate, notify when asked to, then request
      the conversion the next task reads. */
  lemma ReadingTraffic(p: Phase, notify: bool)
    requires p.task != StartTask
    ensures Traffic(p, notify)
            == [AdcRead, Compensate] + (if notify then [Notify] else []) + [Convert(ConversionFor(Fire(p).task))]
  {
  }

  /** The phase after `n` firings. */
  function Iterate(p: Phase, n: nat): Phase
    decreases n
  {
    if n == 0 then p else Iterate(Fire(p), n - 1)
  }

  /** The raw buffers refilled by `n` firings, in order. */
  function Reads(p: Phase, n: nat): seq<Quantity>
    decreases n
  {
    if n == 0 then [] else ReadOf(p.task) + Reads(Fire(p), n - 1)
  }

  /** The events of `n` firings, in order. */
  function Log(p: Phase, n: nat, notify: bool): seq<Event>
    decreases n
  {
    if n == 0 then [] else Traffic(p, notify) + Log(Fire(p), n - 1, notify)
  }

  /** What the raw buffer for `q` holds after the first `n` firings from `p`, when
      `samples[i]` is the ADC answer to firing i: the packing of the sample received by the
      last firing that reads `q`, or `initial` when none of them does. */
  function LastSample(p: Phase, samples: seq<AdcBytes>, n: nat, q: Quantity, initial: int): int
    requires n <= |samples|
    decreases n
  {
    if n == 0 then initial
    else if ReadOf(Iterate(p, n - 1).task) == [q] then Pack24(samples[n - 1])
    else LastSample(p, samples, n - 1, q, initial)
  }

  /** The bus transactions of an event log, without the compensation and callback events. */
  function BusOnly(s: seq<Event>): seq<Event>
  {
    if s == [] then []
    else if s[0] == Compensate || s[0] == Notify then BusOnly(s[1..])
    else [s[0]] + BusOnly(s[1..])
  }

  /** `n` copies of `q`. */
  function Repeat(q: Quantity, n: nat): (s: seq<Quantity>)
    ensures |s| == n && forall i :: 0 <= i < n ==> s[i] == q
  {
    seq(n, _ => q)
  }

  /** The reads of one steady-state cycle: 19 pressures, then one temperature. */
  function SteadyCycle(): seq<Quantity>
  {
    Repeat(Pressure, CounterLimit - 1) + [Temperature]
  }

  function Cycles(m: nat): seq<Quantity>
  {
    if m == 0 then [] else SteadyCycle() + Cycles(m - 1)
  }

  /** The relation between the pending task and the counter that every run keeps. */
  predicate Consistent(p: Phase)
  {
    match p.task
    case StartTask => 0 <= p.counter < CounterLimit
    case PressureTask => 0 <= p.counter < CounterLimit
    case TemperatureTask => p.counter == CounterLimit
  }

  /** Conversion commands at even positions, ADC reads at odd positions. */
  predicate Alternating(s: seq<Event>)
  {
    forall i :: 0 <= i < |s| ==> if i % 2 == 0 then s[i].Convert? else s[i] == AdcRead
  }

  /** Firing a consistent phase gives a consistent phase: the counter stays in [0, 20], so its
      `uint8_t` increment never wraps; after a reading task it is at least 1. */
  lemma FireConsistent(p: Phase)
    requires Consistent(p)
    ensures Consistent(Fire(p))
    ensures p.counter + 1 < 0x100
    ensures 0 <= Fire(p).counter <= CounterLimit
    ensures p.task != StartTask ==> 1 <= Fire(p).counter
    ensures Fire(p).task != StartTask
  {
  }

  lemma {:induction false} IterateAdd(p: Phase, a: nat, b: nat)
    decreases a
    ensures Iterate(p, a + b) == Iterate(Iterate(p, a), b)
  {
    if a > 0 {
      IterateAdd(Fire(p), a - 1, b);
    }
  }

  lemma {:induction false} ReadsAdd(p: Phase, a: nat, b: nat)
    decreases a
    ensures Reads(p, a + b) == Reads(p, a) + Reads(Iterate(p, a), b)
  {
    if a > 0 {
      ReadsAdd(Fire(p), a - 1, b);
    }
  }

  lemma {:induction false} LogAdd(p: Phase, a: nat, b: nat, notify: bool)
    decreases a
    ensures Log(p, a + b, notify) == Log(p, a, notify) + Log(Iterate(p, a), b, notify)
  {
    if a > 0 {
      LogAdd(Fire(p), a - 1, b, notify);
    }
  }

  /** One more firing appends one firing's events at the end of the log. */
  lemma LogStep(p: Phase, n: nat, notify: bool)
    ensures Iterate(p, n + 1) == Fire(Iterate(p, n))
    ensures Log(p, n + 1, notify) == Log(p, n, notify) + Traffic(Iterate(p, n), notify)
  {
    IterateAdd(p, n, 1);
    LogAdd(p, n, 1, notify);
  }

  /** A log that holds the first n firings' events, extended by the next firing's, holds the
      first n + 1 firings' events. */
  lemma LogExtends(before: seq<Event>, p: Phase, n: nat, notify: bool)
    ensures before + Log(p, n, notify) + Traffic(Iterate(p, n), notify) == before + Log(p, n + 1, notify)
  {
    LogStep(p, n, notify);
  }

  /** Every run from a consistent phase stays consistent, so `actionCounter` stays in [0, 20];
      once a reading task has run, it stays in [1, 20]. */
  lemma {:induction false} RunConsistent(p: Phase, n: nat)
    decreases n
    requires Consistent(p)
    ensures Consistent(Iterate(p, n))
    ensures 0 <= Iterate(p, n).counter <= CounterLimit
    ensures p.task != StartTask && p.counter >= 1 ==> Iterate(p, n).counter >= 1
    ensures n >= 2 ==> 1 <= Iterate(p, n).counter && Iterate(p, n).task != StartTask
  {
    if n > 0 {
      FireConsistent(p);
      RunConsistent(Fire(p), n - 1);
      if n >= 2 {
        FireConsistent(Fire(p));
      }
    }
  }

  /** From counter k below 20, the next 20 - k firings read pressure only and end with the
      temperature conversion pending and the counter at 20. */
  lemma {:induction false} PressureRun(k: int, j: nat)
    decreases j
    requires 0 <= k < CounterLimit && j <= CounterLimit - k
    ensures Reads(Phase(PressureTask, k), j) == Repeat(Pressure, j)
    ensures Iterate(Phase(PressureTask, k), j)
            == if j < CounterLimit - k then Phase(PressureTask, k + j) else Phase(TemperatureTask, CounterLimit)
  {
    if j > 0 {
      if k + 1 < CounterLimit {
        PressureRun(k + 1, j - 1);
      }
    }
  }

  /** From a pressure phase with counter k below 20: 20 - k pressure reads, then a
      temperature read, after which a pressure conversion is pending with counter 1. */
  lemma CycleFrom(k: int)
    requires 0 <= k < CounterLimit
    ensures Reads(Phase(PressureTask, k), CounterLimit - k + 1) == Repeat(Pressure, CounterLimit - k) + [Temperature]
    ensures Iterate(Phase(PressureTask, k), CounterLimit - k + 1) == Phase(PressureTask, 1)
  {
    var p := Phase(PressureTask, k);
    var j := CounterLimit - k;
    var last := Phase(TemperatureTask, CounterLimit);
    PressureRun(k, j);
    assert Reads(last, 1) == [Temperature] && Iterate(last, 1) == Phase(PressureTask, 1);
    ReadsAdd(p, j, 1);
    IterateAdd(p, j, 1);
  }

  /** From the first request pending with counter k below 20 (a fresh start has k = 0):
      20 - k pressure reads, then the first temperature read, after which a pressure
      conversion is pending with counter 1. */
  lemma FirstTemperatureRead(k: int)
    requires 0 <= k < CounterLimit
    ensures Reads(Phase(StartTask, k), CounterLimit - k + 2) == Repeat(Pressure, CounterLimit - k) + [Temperature]
    ensures Iterate(Phase(StartTask, k), CounterLimit - k + 2) == Phase(PressureTask, 1)
  {
    var start := Phase(StartTask, k);
    CycleFrom(k);
    ReadsAdd(start, 1, CounterLimit - k + 1);
    IterateAdd(start, 1, CounterLimit - k + 1);
  }

  /** In steady state (a pressure read pending, the counter at 1) a cycle is 20 firings:
      19 pressure reads, then one temperature read, back to the same phase. The steady phase
      is a parameter rather than a literal so that the verifier does not unroll the cycle. */
  lemma SteadyCycleReads(p: Phase)
    requires p == Phase(PressureTask, 1)
    ensures Reads(p, 20) == SteadyCycle()
    ensures Iterate(p, 20) == p
  {
    CycleFrom(1);
  }

  /** After the first temperature read, every 20 firings repeat the steady cycle: exactly 19
      pressure reads between consecutive temperature reads. As above, the steady phase is a
      parameter so that the verifier does not unroll the cycle. */
  lemma {:induction false} SteadyState(p: Phase, m: nat)
    requires p == Phase(PressureTask, 1)
    ensures Reads(p, 20 * m) == Cycles(m)
    ensures Iterate(p, 20 * m) == p
  {
    if m > 0 {
      SteadyCycleReads(p);
      SteadyState(p, m - 1);
      var rest := 20 * (m - 1);
      assert 20 * m == 20 + rest;
      ReadsAdd(p, 20, rest);
      IterateAdd(p, 20, rest);
    }
  }

  /** The whole read sequence from the first request pending with counter k (a fresh start
      has k = 0): 20 - k pressures, a temperature, then m steady cycles. */
  lemma FreshRun(k: int, m: nat)
    requires 0 <= k < CounterLimit
    ensures Reads(Phase(StartTask, k), CounterLimit - k + 2 + 20 * m)
            == Repeat(Pressure, CounterLimit - k) + [Temperature] + Cycles(m)
  {
    var start := Phase(StartTask, k);
    var first := CounterLimit - k + 2;
    var steady := 20 * m;
    FirstTemperatureRead(k);
    SteadyState(Phase(PressureTask, 1), m);
    ReadsAdd(start, first, steady);
  }

  /** The reads of n + 1 firings are those of n firings and then the (n + 1)-th firing's. */
  lemma ReadsStep(p: Phase, n: nat)
    ensures Reads(p, n + 1) == Reads(p, n) + ReadOf(Iterate(p, n).task)
  {
    ReadsAdd(p, n, 1);
    assert Reads(Iterate(p, n), 1) == ReadOf(Iterate(p, n).task) + [];
  }

  /** One more firing: the buffer for `q` takes that firing's sample when it reads `q`, and
      keeps its value otherwise. */
  lemma LastSampleStep(p: Phase, samples: seq<AdcBytes>, n: nat, q: Quantity, initial: int)
    requires n < |samples|
    ensures LastSample(p, samples, n + 1, q, initial)
            == if ReadOf(Iterate(p, n).task) == [q] then Pack24(samples[n]) else LastSample(p, samples, n, q, initial)
  {
  }

  /** Firing i of a run from `p` refills the buffer for `q`. */
  predicate ReadsAt(p: Phase, i: nat, q: Quantity)
  {
    ReadOf(Iterate(p, i).task) == [q]
  }

  lemma ReadOfMember(t: Task, q: Quantity)
    ensures q in ReadOf(t) <==> ReadOf(t) == [q]
  {
  }

  /** A buffer that no firing reads keeps its initial value. */
  lemma {:induction false} LastSampleUnread(p: Phase, samples: seq<AdcBytes>, n: nat, q: Quantity, initial: int)
    decreases n
    requires n <= |samples| && q !in Reads(p, n)
    ensures LastSample(p, samples, n, q, initial) == initial
  {
    if n > 0 {
      ReadsStep(p, n - 1);
      ReadOfMember(Iterate(p, n - 1).task, q);
      LastSampleUnread(p, samples, n - 1, q, initial);
    }
  }

  /** A buffer that some firing reads holds the sample of the last firing that reads it. */
  lemma {:induction false} LastSampleRead(p: Phase, samples: seq<AdcBytes>, n: nat, q: Quantity, initial: int)
    decreases n
    requires n <= |samples| && q in Reads(p, n)
    ensures exists i :: 0 <= i < n && ReadsAt(p, i, q)
                        && LastSample(p, samples, n, q, initial) == Pack24(samples[i])
                        && forall j :: i < j < n ==> !ReadsAt(p, j, q)
  {
    var last := n - 1;
    if ReadsAt(p, last, q) {
      assert LastSample(p, samples, n, q, initial) == Pack24(samples[last]);
    } else {
      assert LastSample(p, samples, n, q, initial) == LastSample(p, samples, last, q, initial);
      ReadsStep(p, last);
      ReadOfMember(Iterate(p, last).task, q);
      assert q in Reads(p, last);
      LastSampleRead(p, samples, last, q, initial);
      var i :| 0 <= i < last && ReadsAt(p, i, q)
               && LastSample(p, samples, last, q, initial) == Pack24(samples[i])
               && forall j :: i < j < last ==> !ReadsAt(p, j, q);
      forall j | i < j < n
        ensures !ReadsAt(p, j, q)
      {
      }
    }
  }

  /** From the first request pending with counter k (0 on a fresh start), the first 21 - k
      firings never read the temperature: every compensation among them uses the raw
      temperature held before the run. From the second firing on, the raw pressure is the
      latest sample. */
  lemma WarmUpBuffers(k: int, samples: seq<AdcBytes>, n: nat, pressure: int, temperature: int)
    requires 0 <= k < CounterLimit && n <= |samples| && n <= CounterLimit - k + 1
    ensures LastSample(Phase(StartTask, k), samples, n, Temperature, temperature) == temperature
    ensures n >= 2 ==> LastSample(Phase(StartTask, k), samples, n, Pressure, pressure) == Pack24(samples[n - 1])
  {
    var start := Phase(StartTask, k);
    if n > 0 {
      ReadsAdd(start, 1, n - 1);
      assert Reads(start, 1) == [];
      PressureRun(k, n - 1);
      assert Reads(start, n) == Repeat(Pressure, n - 1);
      assert Temperature !in Reads(start, n);
      if n >= 2 {
        PressureRun(k, n - 2);
        IterateAdd(start, 1, n - 2);
        assert Iterate(start, n - 1) == Phase(PressureTask, k + n - 2);
      }
    }
    LastSampleUnread(start, samples, n, Temperature, temperature);
  }

  lemma {:induction false} BusOnlyAppend(s: seq<Event>, t: seq<Event>)
    ensures BusOnly(s + t) == BusOnly(s) + BusOnly(t)
  {
    if s == [] {
      assert s + t == t;
    } else {
      assert (s + t)[0] == s[0];
      assert (s + t)[1..] == s[1..] + t;
      BusOnlyAppend(s[1..], t);
    }
  }

  lemma BusOnlySingle(e: Event)
    ensures BusOnly([e]) == if e == Compensate || e == Notify then [] else [e]
  {
    assert [e][1..] == [];
  }

  /** The bus transactions of one reading firing: an ADC read, then a conversion. */
  lemma ReadingTrafficBus(p: Phase, notify: bool)
    requires p.task != StartTask
    ensures BusOnly(Traffic(p, notify)) == [AdcRead, Traffic(p, notify)[|Traffic(p, notify)| - 1]]
  {
    var t := Traffic(p, notify);
    var c := t[|t| - 1];
    BusOnlySingle(AdcRead);
    BusOnlySingle(Compensate);
    BusOnlySingle(Notify);
    BusOnlySingle(c);
    BusOnlyAppend([AdcRead], [Compensate]);
    if notify {
      assert t == [AdcRead] + [Compensate] + [Notify] + [c];
      BusOnlyAppend([AdcRead] + [Compensate], [Notify]);
      BusOnlyAppend([AdcRead] + [Compensate] + [Notify], [c]);
    } else {
      assert t == [AdcRead] + [Compensate] + [c];
      BusOnlyAppend([AdcRead] + [Compensate], [c]);
    }
  }

  /** The bus transactions of n reading firings: an ADC read then a conversion, n times. */
  lemma {:induction false} ReadingBusShape(p: Phase, n: nat, notify: bool)
    decreases n
    requires p.task != StartTask
    ensures |BusOnly(Log(p, n, notify))| == 2 * n
    ensures forall i :: 0 <= i < 2 * n ==>
              if i % 2 == 0 then BusOnly(Log(p, n, notify))[i] == AdcRead
              else BusOnly(Log(p, n, notify))[i].Convert?
  {
    if n > 0 {
      var t := Traffic(p, notify);
      var c := t[|t| - 1];
      ReadingTrafficBus(p, notify);
      BusOnlyAppend(t, Log(Fire(p), n - 1, notify));
      ReadingBusShape(Fire(p), n - 1, notify);
      var rest := BusOnly(Log(Fire(p), n - 1, notify));
      assert BusOnly(Log(p, n, notify)) == [AdcRead, c] + rest;
      forall i | 2 <= i < 2 * n
        ensures (if i % 2 == 0 then BusOnly(Log(p, n, notify))[i] == AdcRead
                 else BusOnly(Log(p, n, notify))[i].Convert?)
      {
        assert BusOnly(Log(p, n, notify))[i] == rest[i - 2];
      }
    }
  }

  /** From a fresh start, the bus sees one conversion command, then alternately an ADC read
      and a conversion command: never two conversions, nor two reads, in a row. */
  lemma FreshBusAlternates(n: nat, notify: bool)
    ensures Alternating(BusOnly(Log(Phase(StartTask, 0), n, notify)))
  {
    if n > 0 {
      var p := Phase(StartTask, 0);
      BusOnlyAppend(Traffic(p, notify), Log(Fire(p), n - 1, notify));
      assert BusOnly(Traffic(p, notify)) == [Convert(ConvertPressure)] by {
        assert Traffic(p, notify) == [Convert(ConvertPressure)];
        assert [Convert(ConvertPressure)][1..] == [];
      }
      ReadingBusShape(Fire(p), n - 1, notify);
      var s := BusOnly(Log(p, n, notify));
      var rest := BusOnly(Log(Fire(p), n - 1, notify));
      assert s == [Convert(ConvertPressure)] + rest;
      forall i | 1 <= i < |s|
        ensures if i % 2 == 0 then s[i].Convert? else s[i] == AdcRead
      {
        assert s[i] == rest[i - 1];
      }
    }
  }

  /** The number of occurrences of `e` in `s`. */
  function Count(s: seq<Event>, e: Event): nat
  {
    if s == [] then 0 else (if s[0] == e then 1 else 0) + Count(s[1..], e)
  }

  lemma {:induction false} CountAppend(s: seq<Event>, t: seq<Event>, e: Event)
    ensures Count(s + t, e) == Count(s, e) + Count(t, e)
  {
    if s == [] {
      assert s + t == t;
    } else {
      assert (s + t)[0] == s[0];
      assert (s + t)[1..] == s[1..] + t;
      CountAppend(s[1..], t, e);
    }
  }

  /** One firing: a reading task reads, compensates and (with a callback) notifies once each. */
  lemma TrafficCounts(p: Phase, notify: bool)
    ensures Count(Traffic(p, notify), Compensate) == Count(Traffic(p, notify), AdcRead)
    ensures Count(Traffic(p, notify), Notify) == if notify then Count(Traffic(p, notify), Compensate) else 0
  {
    var t := Traffic(p, notify);
    var c := t[|t| - 1];
    forall e: Event ensures Count([e], Compensate) == (if e == Compensate then 1 else 0)
                       && Count([e], AdcRead) == (if e == AdcRead then 1 else 0)
                       && Count([e], Notify) == (if e == Notify then 1 else 0)
    {
      assert [e][1..] == [];
    }
    if p.task != StartTask {
      CountsOfReading(AdcRead, Compensate, Notify, c, notify);
      if notify {
        assert t == [AdcRead] + [Compensate] + [Notify] + [c];
      } else {
        assert t == [AdcRead] + [Compensate] + [c];
      }
    }
  }

  lemma CountsOfReading(a: Event, b: Event, n: Event, c: Event, notify: bool)
    ensures forall e :: Count((if notify then [a] + [b] + [n] else [a] + [b]) + [c], e)
                        == Count([a], e) + Count([b], e) + (if notify then Count([n], e) else 0) + Count([c], e)
  {
    forall e ensures Count((if notify then [a] + [b] + [n] else [a] + [b]) + [c], e)
                     == Count([a], e) + Count([b], e) + (if notify then Count([n], e) else 0) + Count([c], e)
    {
      CountAppend([a], [b], e);
      if notify {
        CountAppend([a] + [b], [n], e);
        CountAppend([a] + [b] + [n], [c], e);
      } else {
        CountAppend([a] + [b], [c], e);
      }
    }
  }

  /** Every firing of a reading task runs the compensation once; with a callback registered,
      the callback runs exactly once per compensation, and never without one. */
  lemma {:induction false} OneNotificationPerCompensation(p: Phase, n: nat, notify: bool)
    decreases n
    ensures Count(Log(p, n, notify), Compensate) == Count(Log(p, n, notify), AdcRead)
    ensures Count(Log(p, n, notify), Notify) == if notify then Count(Log(p, n, notify), Compensate) else 0
  {
    if n > 0 {
      OneNotificationPerCompensation(Fire(p), n - 1, notify);
      TrafficCounts(p, notify);
      var t := Traffic(p, notify);
      var rest := Log(Fire(p), n - 1, notify);
      assert Log(p, n, notify) == t + rest;
      CountAppend(t, rest, Compensate);
      CountAppend(t, rest, AdcRead);
      CountAppend(t, rest, Notify);
    }
  }
}
