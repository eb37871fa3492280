/** The sample recorder `measureGas` (test/gas/index.js:163-175): one category
    record `{ measurements, avg }` that the harness updates in place. */
module Recorder {
  import opened GasStats

  /** The value recorded for a transaction whose `tx.wait()` failed. */
  const FAILED_GAS: nat := 9000000

  /** The largest integer `BigNumber.toNumber()` converts without throwing
      (2^53 - 1). */
  const MAX_SAFE_INTEGER: nat := 9007199254740991

  /** What `await tx.wait()` gives for a submitted transaction. */
  datatype Receipt = Mined(cumulativeGasUsed: nat) | WaitFailed

  /** The gas value `measureGas` records for a receipt: the receipt's
      cumulative gas, or the sentinel when `wait()` or the conversion to a
      JavaScript number throws inside the `try`. */
  function GasOf(receipt: Receipt): nat
  {
    match receipt
    case Mined(g) => if g <= MAX_SAFE_INTEGER then g else FAILED_GAS
    case WaitFailed => FAILED_GAS
  }

  /** A recorded value is the receipt's own gas exactly when the transaction
      was mined with a representable gas figure; every other outcome records
      9000000. */
  lemma GasOfCases(receipt: Receipt)
    ensures receipt.Mined? && receipt.cumulativeGasUsed <= MAX_SAFE_INTEGER ==> GasOf(receipt) == receipt.cumulativeGasUsed
    ensures !(receipt.Mined? && receipt.cumulativeGasUsed <= MAX_SAFE_INTEGER) ==> GasOf(receipt) == FAILED_GAS
    ensures GasOf(receipt) <= MAX_SAFE_INTEGER
  {
  }

  /** One category record of a level entry. */
  class Category {
    var measurements: seq<nat>
    var avg: real

    /** The stored average is the mean of the stored samples. */
    ghost predicate Valid()
      reads this
    {
      avg == Mean(measurements)
    }

    /** `{ measurements: [], avg: 0 }` */
    constructor ()
      ensures Valid()
      ensures measurements == [] && avg == 0.0
    {
      measurements := [];
      avg := 0.0;
    }

    /** Waits for the receipt, appends its gas (or the sentinel) and recomputes
        the average over all samples. */
    method MeasureGas(receipt: Receipt)
      modifies this
      ensures Valid()
      ensures measurements == old(measurements) + [GasOf(receipt)]
      ensures old(Valid()) ==>
        avg == (old(avg) * |old(measurements)| as real + GasOf(receipt) as real) / |measurements| as real
    {
      var gasUsed: nat;
      match receipt {
        case Mined(g) =>
          if g <= MAX_SAFE_INTEGER {
            gasUsed := g;
          } else {
            gasUsed := FAILED_GAS;
          }
        case WaitFailed =>
          gasUsed := FAILED_GAS;
      }
      MeanAfterAppend(measurements, gasUsed);
      measurements := measurements + [gasUsed];

      var numMeasurements := |measurements|;
      avg := Sum(measurements) as real / numMeasurements as real;
    }
  }
}
