/** Reading the six factory calibration words C1..C6 from the MS5611 PROM. Both driver
    revisions run this same loop after a successful address probe. */
module Calibration {
  import opened Bytes
  import opened Bus

  /** The calibration word `i` (1..6) that the PROM answers `prom` hold: its two bytes are
      `prom[2 * i - 2]` and `prom[2 * i - 1]`, in the order they come off the bus. */
  function PromWord(prom: seq<uint8>, i: int): uint16
    requires |prom| == 12 && 1 <= i <= 6
  {
    Word(prom[2 * i - 2], prom[2 * i - 1])
  }

  /** For i = 1..6: send PROM read command 0xA0 + 2 * i, read two bytes, store the word in
      `C[i]`. `C[0]` is not used. Returns the transactions, in order. */
  method ReadProm(C: array<uint16>, prom: seq<uint8>) returns (transactions: seq<Event>)
    requires C.Length == 7 && |prom| == 12
    modifies C
    ensures transactions == PromReads()
    ensures C[0] == old(C[0])
    ensures forall i :: 1 <= i <= 6 ==> C[i] == PromWord(prom, i)
  {
    transactions := [];
    for i := 1 to 7
      invariant |transactions| == i - 1
      invariant forall k :: 0 <= k < i - 1 ==> transactions[k] == PromRead(PromCommand(k + 1))
      invariant C[0] == old(C[0])
      invariant forall k :: 1 <= k < i ==> C[k] == PromWord(prom, k)
    {
      transactions := transactions + [PromRead(PromCommand(i))];
      C[i] := Word(prom[2 * i - 2], prom[2 * i - 1]);
    }
    forall k | 0 <= k < 6
      ensures transactions[k] == PromReads()[k]
    {
      PromCommandTable(k + 1, k + 1);
    }
  }
}
