/** The MS5611 command set and the log of what a driver does on the bus.

    The two-wire transport itself is not modelled: each transaction the driver performs
    becomes one `Event`, and the bytes the device answers with are supplied by the caller. */
module Bus {
  import opened Bytes

  /** Start a pressure conversion (D1, oversampling 4096). */
  const ConvertPressure: uint8 := 0x48
  /** Start a temperature conversion (D2, oversampling 4096). */
  const ConvertTemperature: uint8 := 0x58
  /** Base of the PROM read commands; word `i` is at `PromBase + 2 * i`. */
  const PromBase: uint8 := 0xA0

  datatype Event =
    | BeginBus                   // the bus peripheral is started
    | Probe                      // an empty transmission to the address, to see whether it is acknowledged
    | PromRead(command: uint8)   // a PROM read command followed by a two-byte read
    | Convert(command: uint8)    // a conversion command
    | AdcRead                    // the ADC read command 0x00 followed by a three-byte read
    | Compensate                 // the compensation arithmetic runs on the raw buffers
    | Notify                     // the registered reading callback is invoked

  /** The PROM read command for calibration word `i`, as the driver computes it. */
  function PromCommand(i: int): (c: uint8)
    requires 1 <= i <= 6
    ensures (c as int - PromBase as int) / 2 == i
    ensures c as int % 2 == 0
  {
    (PromBase as int + i * 2) as uint8
  }

  /** The six calibration reads of the datasheet, C1 to C6, in address order. */
  function PromReads(): seq<Event>
  {
    [PromRead(0xA2), PromRead(0xA4), PromRead(0xA6), PromRead(0xA8), PromRead(0xAA), PromRead(0xAC)]
  }

  /** The driver's command formula addresses exactly the datasheet's six PROM words, one per
      index, and no two indices share a command. */
  lemma PromCommandTable(i: int, j: int)
    requires 1 <= i <= 6 && 1 <= j <= 6
    ensures PromReads()[i - 1] == PromRead(PromCommand(i))
    ensures PromCommand(i) == PromCommand(j) <==> i == j
  {
  }
}
