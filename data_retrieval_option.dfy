/** Which field groups a caller wants, and how each record is shaped for
    serialisation accordingly. */
module DataRetrieval {
  import opened Readouts

  /** `DataRetrievalOption` values: `All` is the default; the three groups
      combine by addition. */
  const All: int := 0
  const Gas: int := 1
  const Power: int := 2
  const Totals: int := 4

  /** `NewDataRetrievalOption`: whatever is not a proper combination of groups
      becomes `All`; `Gas + Power + Totals` (7) itself is not one. */
  function NewDataRetrievalOption(i: int): (r: int)
    ensures All <= r < Gas + Power + Totals
    ensures All < i < Gas + Power + Totals ==> r == i
    ensures (i <= All || i >= Gas + Power + Totals) ==> r == All
  {
    if i >= Gas + Power + Totals || i <= All then All else i
  }

  /** Normalising an option that is already normal changes nothing. */
  lemma NormaliseIdempotent(i: int)
    ensures NewDataRetrievalOption(NewDataRetrievalOption(i)) == NewDataRetrievalOption(i)
  {
  }

  /** A value placed in a serialisation map. */
  datatype Value = Text(text: string) | Number(number: real)

  /** One element of the output array: a map of selected fields, or the whole record. */
  datatype Element = MapOf(fields: map<string, Value>) | Record(readout: ReadoutData)

  /** The `map[string]interface{}` the serialisation fills in place. */
  class ObjectMap {
    var entries: map<string, Value>

    constructor ()
      ensures entries == map[]
    {
      entries := map[];
    }

    method Put(key: string, v: Value)
      modifies this
      ensures entries == old(entries)[key := v]
    {
      entries := entries[key := v];
    }
  }

  /** The entries each group adds to a map. */
  function WithGas(m: map<string, Value>, r: ReadoutData): map<string, Value>
  {
    m["GasReceived" := Number(r.GasReceived)]
  }

  function WithPower(m: map<string, Value>, r: ReadoutData): map<string, Value>
  {
    m["PowerReceived" := Number(r.PowerReceived)]["PowerDelivered" := Number(r.PowerDelivered)]
  }

  function WithTotals(m: map<string, Value>, r: ReadoutData): map<string, Value>
  {
    m["TotalPowerDeliveredLowTarif" := Number(r.TotalPowerDeliveredLowTarif)]
     ["TotalPowerDeliveredPeakTarif" := Number(r.TotalPowerDeliveredPeakTarif)]
     ["TotalPowerReceivedLowTarif" := Number(r.TotalPowerReceivedLowTarif)]
     ["TotalPowerReceivedPeakTarif" := Number(r.TotalPowerReceivedPeakTarif)]
  }

  method AddGasToMap(m: ObjectMap, r: ReadoutData)
    modifies m
    ensures m.entries == WithGas(old(m.entries), r)
  {
    m.Put("GasReceived", Number(r.GasReceived));
  }

  method AddPowerToMap(m: ObjectMap, r: ReadoutData)
    modifies m
    ensures m.entries == WithPower(old(m.entries), r)
  {
    m.Put("PowerReceived", Number(r.PowerReceived));
    m.Put("PowerDelivered", Number(r.PowerDelivered));
  }

  method AddTotalsToMap(m: ObjectMap, r: ReadoutData)
    modifies m
    ensures m.entries == WithTotals(old(m.entries), r)
  {
    m.Put("TotalPowerDeliveredLowTarif", Number(r.TotalPowerDeliveredLowTarif));
    m.Put("TotalPowerDeliveredPeakTarif", Number(r.TotalPowerDeliveredPeakTarif));
    m.Put("TotalPowerReceivedLowTarif", Number(r.TotalPowerReceivedLowTarif));
    m.Put("TotalPowerReceivedPeakTarif", Number(r.TotalPowerReceivedPeakTarif));
  }

  // ---------------------------------------------------------------------------
  // Groups as bits of a proper combination

  predicate SelectsGas(o: int) { All < o < Gas + Power + Totals && o % 2 == 1 }
  predicate SelectsPower(o: int) { All < o < Gas + Power + Totals && (o / 2) % 2 == 1 }
  predicate SelectsTotals(o: int) { All < o < Gas + Power + Totals && o / 4 == 1 }

  /** The timestamp plus the fields of every selected group. */
  function SelectedFields(r: ReadoutData, o: int): map<string, Value>
  {
    var base := map["Timestamp" := Text(r.Timestamp)];
    var gas := if SelectsGas(o) then WithGas(base, r) else base;
    var power := if SelectsPower(o) then WithPower(gas, r) else gas;
    if SelectsTotals(o) then WithTotals(power, r) else power
  }

  /** A record's output element: the selected fields when any group is
      selected, otherwise the record itself. */
  function Shape(r: ReadoutData, o: int): Element
  {
    var fields := SelectedFields(r, o);
    if |fields| > 1 then MapOf(fields) else Record(r)
  }

  /** The body of `ReadoutsToJSON`'s loop for one record, up to the size test:
      the map holding the timestamp and the groups the switch adds. */
  method NewRecordMap(v: ReadoutData, retrieve: int) returns (o: ObjectMap)
    ensures fresh(o)
    ensures o.entries == SelectedFields(v, retrieve)
  {
    o := new ObjectMap();
    o.Put("Timestamp", Text(v.Timestamp));
    if retrieve == Gas {
      AddGasToMap(o, v);
    } else if retrieve == Power {
      AddPowerToMap(o, v);
    } else if retrieve == Totals {
      AddTotalsToMap(o, v);
    } else if retrieve == Gas + Power {
      AddGasToMap(o, v);
      AddPowerToMap(o, v);
    } else if retrieve == Gas + Totals {
      AddGasToMap(o, v);
      AddTotalsToMap(o, v);
    } else if retrieve == Power + Totals {
      AddPowerToMap(o, v);
      AddTotalsToMap(o, v);
    }
  }

  /** `ReadoutsToJSON` up to `json.Marshal`: the array it serialises. */
  method ReadoutsToJSON(readouts: seq<ReadoutData>, retrieve: int) returns (output: seq<Element>)
    ensures |output| == |readouts|
    ensures forall k :: 0 <= k < |readouts| ==> output[k] == Shape(readouts[k], retrieve)
  {
    var out := new Element[|readouts|];
    for k := 0 to |readouts|
      invariant forall j :: 0 <= j < k ==> out[j] == Shape(readouts[j], retrieve)
    {
      var v := readouts[k];
      var o := NewRecordMap(v, retrieve);
      if |o.entries| > 1 {
        out[k] := MapOf(o.entries);
      } else {
        out[k] := Record(v);
      }
    }
    output := out[..];
  }

  // ---------------------------------------------------------------------------
  // Properties of the shaping

  const GasKeys: set<string> := {"GasReceived"}
  const PowerKeys: set<string> := {"PowerReceived", "PowerDelivered"}
  const TotalsKeys: set<string> :=
    {"TotalPowerDeliveredLowTarif", "TotalPowerDeliveredPeakTarif",
     "TotalPowerReceivedLowTarif", "TotalPowerReceivedPeakTarif"}

  /** The names of the fields the selected groups contribute. */
  function GroupKeys(o: int): set<string>
  {
    (if SelectsGas(o) then GasKeys else {})
      + (if SelectsPower(o) then PowerKeys else {})
      + (if SelectsTotals(o) then TotalsKeys else {})
  }

  /** The record field serialised under each name. */
  function FieldNamed(r: ReadoutData, key: string): Value
  {
    match key
    case "Timestamp" => Text(r.Timestamp)
    case "GasReceived" => Number(r.GasReceived)
    case "PowerReceived" => Number(r.PowerReceived)
    case "PowerDelivered" => Number(r.PowerDelivered)
    case "TotalPowerDeliveredLowTarif" => Number(r.TotalPowerDeliveredLowTarif)
    case "TotalPowerDeliveredPeakTarif" => Number(r.TotalPowerDeliveredPeakTarif)
    case "TotalPowerReceivedLowTarif" => Number(r.TotalPowerReceivedLowTarif)
    case "TotalPowerReceivedPeakTarif" => Number(r.TotalPowerReceivedPeakTarif)
    case _ => Text("")
  }

  lemma TwoKeysMeansLarger(m: map<string, Value>, a: string, b: string)
    requires a in m && b in m && a != b
    ensures |m| > 1
  {
    var rest := m.Keys - {a};
    assert b in rest;
    assert |m.Keys| == |rest| + 1;
  }

  /** The selected map holds "Timestamp" plus exactly the selected groups' keys. */
  lemma SelectedFieldsKeys(r: ReadoutData, o: int)
    ensures SelectedFields(r, o).Keys == {"Timestamp"} + GroupKeys(o)
  {
  }

  /** Every value of the selected map is copied from the record's field of that name. */
  lemma SelectedFieldsValues(r: ReadoutData, o: int)
    ensures forall key :: key in SelectedFields(r, o) ==> SelectedFields(r, o)[key] == FieldNamed(r, key)
  {
  }

  /** For the six proper combinations the element is the map of selected
      fields; for any other option (All, 7, negative) the map would hold only
      the timestamp, and the whole record is emitted instead. */
  lemma ShapeSelects(r: ReadoutData, o: int)
    ensures All < o < Gas + Power + Totals ==> Shape(r, o) == MapOf(SelectedFields(r, o))
    ensures (o <= All || o >= Gas + Power + Totals) ==> Shape(r, o) == Record(r)
  {
    var fields := SelectedFields(r, o);
    if All < o < Gas + Power + Totals {
      if SelectsTotals(o) {
        TwoKeysMeansLarger(fields, "Timestamp", "TotalPowerReceivedPeakTarif");
      } else if SelectsPower(o) {
        TwoKeysMeansLarger(fields, "Timestamp", "PowerDelivered");
      } else {
        assert o == Gas;
        TwoKeysMeansLarger(fields, "Timestamp", "GasReceived");
      }
    } else {
      assert fields == map["Timestamp" := Text(r.Timestamp)];
    }
  }

  /** Each single group contributes its own keys, and a sum of two different
      groups contributes the union of theirs. */
  lemma GroupKeysCombine(a: int, b: int)
    requires a in {Gas, Power, Totals} && b in {Gas, Power, Totals} && a != b
    ensures GroupKeys(Gas) == GasKeys && GroupKeys(Power) == PowerKeys && GroupKeys(Totals) == TotalsKeys
    ensures GroupKeys(a + b) == GroupKeys(a) + GroupKeys(b)
  {
  }

  /** The Gas projection of a record serialises only its timestamp and gas reading. */
  lemma GasProjection(r: ReadoutData)
    ensures Shape(r, Gas) == MapOf(map["Timestamp" := Text(r.Timestamp), "GasReceived" := Number(r.GasReceived)])
  {
    ShapeSelects(r, Gas);
  }
}
