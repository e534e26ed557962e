/** The record a range query returns (`readoutData`, called `ReadoutData` by the
    serialisation code), and the parse of its textual timestamp. */
module Readouts {
  import opened GoTime

  /** One stored reading. The numeric fields are Go float64 values, modelled as reals. */
  datatype ReadoutData = ReadoutData(
    Timestamp: string,
    Tarif: int,
    PowerReceived: real,
    PowerDelivered: real,
    GasReceived: real,
    TotalPowerDeliveredLowTarif: real,
    TotalPowerDeliveredPeakTarif: real,
    TotalPowerReceivedLowTarif: real,
    TotalPowerReceivedPeakTarif: real)

  /** The seven numeric fields, in the order the averaging code visits them. */
  datatype Field =
    | PowerReceivedField
    | PowerDeliveredField
    | GasReceivedField
    | TotalDeliveredLowField
    | TotalDeliveredPeakField
    | TotalReceivedLowField
    | TotalReceivedPeakField

  function FieldValue(r: ReadoutData, f: Field): real
  {
    match f
    case PowerReceivedField => r.PowerReceived
    case PowerDeliveredField => r.PowerDelivered
    case GasReceivedField => r.GasReceived
    case TotalDeliveredLowField => r.TotalPowerDeliveredLowTarif
    case TotalDeliveredPeakField => r.TotalPowerDeliveredPeakTarif
    case TotalReceivedLowField => r.TotalPowerReceivedLowTarif
    case TotalReceivedPeakField => r.TotalPowerReceivedPeakTarif
  }

  /** `time.Parse` with layout "2006-01-02 15:04:05": foreign, so a parameter.
      A string it rejects parses to `ZeroInstant`. */
  type Parser = string -> Instant

  /** `getTimestamp`: the parsed timestamp. The method caches the parse in the
      record, but it is only ever called on copies, so the cache never outlives
      a call and the result is simply the parse of `Timestamp`. */
  function GetTimestamp(r: ReadoutData, parse: Parser): Instant
  {
    parse(r.Timestamp)
  }

  /** The instants of a whole query result, index by index. */
  function Instants(rs: seq<ReadoutData>, parse: Parser): (ts: seq<Instant>)
    ensures |ts| == |rs|
    ensures forall k :: 0 <= k < |rs| ==> ts[k] == GetTimestamp(rs[k], parse)
  {
    seq(|rs|, k requires 0 <= k < |rs| => GetTimestamp(rs[k], parse))
  }
}
