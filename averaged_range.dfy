/** The post-query half of `GetAveragedRange`: one averaged record per key. */
module AveragedRange {
  import opened Wrappers
  import opened GoTime
  import opened Readouts
  import opened Rounding
  import opened RangeBuckets

  /** The sum of one numeric field over a run of records, accumulated front to back. */
  function Sum(rs: seq<ReadoutData>, f: Field): real
  {
    if rs == [] then 0.0 else Sum(rs[..|rs| - 1], f) + FieldValue(rs[|rs| - 1], f)
  }

  /** The arithmetic mean of one field over a non-empty run. */
  function Mean(rs: seq<ReadoutData>, f: Field): real
    requires |rs| > 0
  {
    Sum(rs, f) / (|rs| as real)
  }

  /** One averaged field: `math.Round(sum*1000/len)/1000`. */
  function AverageField(rs: seq<ReadoutData>, f: Field): real
    requires |rs| > 0
  {
    (Round(Sum(rs, f) * 1000.0 / (|rs| as real)) as real) / 1000.0
  }

  /** The record built from one slice: timestamp and tariff from its first
      record, every numeric field averaged. */
  function Averaged(rs: seq<ReadoutData>): ReadoutData
    requires |rs| > 0
  {
    ReadoutData(
      rs[0].Timestamp, rs[0].Tarif,
      AverageField(rs, PowerReceivedField),
      AverageField(rs, PowerDeliveredField),
      AverageField(rs, GasReceivedField),
      AverageField(rs, TotalDeliveredLowField),
      AverageField(rs, TotalDeliveredPeakField),
      AverageField(rs, TotalReceivedLowField),
      AverageField(rs, TotalReceivedPeakField))
  }

  /** `completeRange[start:end]` followed by `currRange[0]` runs without a panic:
      the slice bounds are in range and the slice is not empty. */
  predicate Sliceable(rs: seq<ReadoutData>, key: RangeKeys)
  {
    key.start < key.end <= |rs|
  }

  /** The averaged records for `keys` in order, or `None` when one of the keys
      makes the loop panic. */
  function AverageKeys(rs: seq<ReadoutData>, keys: seq<RangeKeys>): Option<seq<ReadoutData>>
  {
    if keys == [] then Some([])
    else
      match AverageKeys(rs, keys[..|keys| - 1])
      case None => None
      case Some(done) =>
        var key := keys[|keys| - 1];
        if Sliceable(rs, key) then Some(done + [Averaged(rs[key.start..key.end])]) else None
  }

  /** What `GetAveragedRange` comes back with: its two results, or a run-time panic. */
  datatype Outcome = Returned(data: seq<ReadoutData>, err: Option<string>) | Panicked

  /** `GetAveragedRange` after `GetRange` has answered with `completeRange` and `err`. */
  method GetAveragedRange(completeRange: seq<ReadoutData>, err: Option<string>, parse: Parser, interval: Duration)
    returns (outcome: Outcome)
    ensures err.Some? || interval == Second ==> outcome == Returned(completeRange, err)
    ensures err.None? && interval != Second ==>
      outcome == match AverageKeys(completeRange, RangeIndexes(Instants(completeRange, parse), interval))
                 case Some(averaged) => Returned(averaged, None)
                 case None => Panicked
  {
    if err.Some? || interval == Second {
      return Returned(completeRange, err);
    }
    var indexes := GetRangeIndexes(completeRange, parse, interval);
    var averagedRanges: seq<ReadoutData> := [];
    var j := 0;
    while j < |indexes|
      invariant 0 <= j <= |indexes|
      invariant AverageKeys(completeRange, indexes[..j]) == Some(averagedRanges)
    {
      var key := indexes[j];
      ghost var upTo := indexes[..j + 1];
      assert upTo[..j] == indexes[..j];
      if !(key.start <= key.end <= |completeRange|) || key.start == key.end {
        assert AverageKeys(completeRange, upTo) == None;
        AverageKeysNoneExtends(completeRange, indexes, j + 1);
        return Panicked;
      }
      var currRange := completeRange[key.start..key.end];
      var currReadout := AverageSlice(currRange);
      averagedRanges := averagedRanges + [currReadout];
      j := j + 1;
    }
    assert indexes[..j] == indexes;
    return Returned(averagedRanges, None);
  }

  /** The body of the loop over the keys: sum every field of a non-empty
      slice front to back, then divide and round. */
  method AverageSlice(currRange: seq<ReadoutData>) returns (currReadout: ReadoutData)
    requires |currRange| > 0
    ensures currReadout == Averaged(currRange)
  {
    currReadout := ReadoutData(currRange[0].Timestamp, currRange[0].Tarif, 0.0, 0.0, 0.0, 0.0, 0.0, 0.0, 0.0);
    var m := 0;
    while m < |currRange|
      invariant 0 <= m <= |currRange|
      invariant currReadout.Timestamp == currRange[0].Timestamp && currReadout.Tarif == currRange[0].Tarif
      invariant forall f :: FieldValue(currReadout, f) == Sum(currRange[..m], f)
    {
      var c := currRange[m];
      assert currRange[..m + 1][..m] == currRange[..m];
      currReadout := currReadout.(
        PowerReceived := currReadout.PowerReceived + c.PowerReceived,
        PowerDelivered := currReadout.PowerDelivered + c.PowerDelivered,
        GasReceived := currReadout.GasReceived + c.GasReceived,
        TotalPowerDeliveredLowTarif := currReadout.TotalPowerDeliveredLowTarif + c.TotalPowerDeliveredLowTarif,
        TotalPowerDeliveredPeakTarif := currReadout.TotalPowerDeliveredPeakTarif + c.TotalPowerDeliveredPeakTarif,
        TotalPowerReceivedLowTarif := currReadout.TotalPowerReceivedLowTarif + c.TotalPowerReceivedLowTarif,
        TotalPowerReceivedPeakTarif := currReadout.TotalPowerReceivedPeakTarif + c.TotalPowerReceivedPeakTarif);
      m := m + 1;
    }
    assert currRange[..m] == currRange;
    var divisor := |currRange| as real;
    currReadout := currReadout.(
      PowerReceived := (Round(currReadout.PowerReceived * 1000.0 / divisor) as real) / 1000.0,
      PowerDelivered := (Round(currReadout.PowerDelivered * 1000.0 / divisor) as real) / 1000.0,
      GasReceived := (Round(currReadout.GasReceived * 1000.0 / divisor) as real) / 1000.0,
      TotalPowerDeliveredLowTarif := (Round(currReadout.TotalPowerDeliveredLowTarif * 1000.0 / divisor) as real) / 1000.0,
      TotalPowerDeliveredPeakTarif := (Round(currReadout.TotalPowerDeliveredPeakTarif * 1000.0 / divisor) as real) / 1000.0,
      TotalPowerReceivedLowTarif := (Round(currReadout.TotalPowerReceivedLowTarif * 1000.0 / divisor) as real) / 1000.0,
      TotalPowerReceivedPeakTarif := (Round(currReadout.TotalPowerReceivedPeakTarif * 1000.0 / divisor) as real) / 1000.0);
  }

  /** Once a prefix of the keys panics, so do all the keys. */
  lemma {:induction false} AverageKeysNoneExtends(rs: seq<ReadoutData>, keys: seq<RangeKeys>, j: nat)
    requires j <= |keys| && AverageKeys(rs, keys[..j]) == None
    ensures AverageKeys(rs, keys) == None
    decreases |keys| - j
  {
    if j < |keys| {
      assert keys[..j + 1][..j] == keys[..j];
      AverageKeysNoneExtends(rs, keys, j + 1);
    } else {
      assert keys[..j] == keys;
    }
  }

  // ---------------------------------------------------------------------------
  // Properties of the averaging

  /** The keys panic exactly when one of them is not a non-empty in-range slice;
      otherwise there is one record per key, in key order, built from the
      half-open slice `[start, end)`. */
  lemma {:induction false} AverageKeysCharacterised(rs: seq<ReadoutData>, keys: seq<RangeKeys>)
    ensures AverageKeys(rs, keys) == None <==> exists j :: 0 <= j < |keys| && !Sliceable(rs, keys[j])
    ensures AverageKeys(rs, keys).Some? ==>
      && |AverageKeys(rs, keys).value| == |keys|
      && forall j :: 0 <= j < |keys| ==>
           AverageKeys(rs, keys).value[j] == Averaged(rs[keys[j].start..keys[j].end])
  {
    if keys != [] {
      var init := keys[..|keys| - 1];
      AverageKeysCharacterised(rs, init);
      var last := keys[|keys| - 1];
      assert forall j :: 0 <= j < |init| ==> init[j] == keys[j];
      if AverageKeys(rs, init) == None {
        var j :| 0 <= j < |init| && !Sliceable(rs, init[j]);
        assert !Sliceable(rs, keys[j]);
      } else if !Sliceable(rs, last) {
        assert !Sliceable(rs, keys[|keys| - 1]);
      } else {
        forall j | 0 <= j < |keys| ensures Sliceable(rs, keys[j]) {
          if j < |init| {
            assert init[j] == keys[j];
          }
        }
      }
    }
  }

  lemma SumScaled(rs: seq<ReadoutData>, f: Field)
    requires |rs| > 0
    ensures Sum(rs, f) * 1000.0 / (|rs| as real) == Mean(rs, f) * 1000.0
  {
  }

  /** An averaged record keeps the first record's timestamp and tariff, and each
      of its numeric fields is the slice's mean rounded to three decimals, so
      it is at most half a thousandth away from the mean. */
  lemma AveragedFields(rs: seq<ReadoutData>)
    requires |rs| > 0
    ensures Averaged(rs).Timestamp == rs[0].Timestamp && Averaged(rs).Tarif == rs[0].Tarif
    ensures forall f :: FieldValue(Averaged(rs), f) == RoundMilli(Mean(rs, f))
    ensures forall f :: -0.0005 <= FieldValue(Averaged(rs), f) - Mean(rs, f) <= 0.0005
  {
    forall f ensures FieldValue(Averaged(rs), f) == RoundMilli(Mean(rs, f)) {
      AveragedField(rs, f);
    }
    forall f ensures -0.0005 <= FieldValue(Averaged(rs), f) - Mean(rs, f) <= 0.0005 {
      AveragedField(rs, f);
      RoundMilliClose(Mean(rs, f));
    }
  }

  lemma AveragedField(rs: seq<ReadoutData>, f: Field)
    requires |rs| > 0
    ensures FieldValue(Averaged(rs), f) == RoundMilli(Mean(rs, f))
  {
    AveragedPicks(rs, f);
    SumScaled(rs, f);
    assert AverageField(rs, f) == (Round(Mean(rs, f) * 1000.0) as real) / 1000.0;
  }

  lemma AveragedPicks(rs: seq<ReadoutData>, f: Field)
    requires |rs| > 0
    ensures FieldValue(Averaged(rs), f) == AverageField(rs, f)
  {
  }

  lemma {:induction false} SumConstant(rs: seq<ReadoutData>, f: Field, v: real)
    requires forall k :: 0 <= k < |rs| ==> FieldValue(rs[k], f) == v
    ensures Sum(rs, f) == (|rs| as real) * v
  {
    if rs != [] {
      SumConstant(rs[..|rs| - 1], f, v);
    }
  }

  /** A field that has the same three-decimal value in every record of the
      slice keeps that value. */
  lemma AveragedConstant(rs: seq<ReadoutData>, f: Field, k: int)
    requires |rs| > 0
    requires forall i :: 0 <= i < |rs| ==> FieldValue(rs[i], f) == (k as real) / 1000.0
    ensures FieldValue(Averaged(rs), f) == (k as real) / 1000.0
  {
    var v := (k as real) / 1000.0;
    var n := |rs| as real;
    SumConstant(rs, f, v);
    assert Sum(rs, f) * 1000.0 == n * (k as real);
    assert Sum(rs, f) * 1000.0 / n == k as real;
    RoundWhole(k);
    assert AverageField(rs, f) == v;
    assert FieldValue(Averaged(rs), f) == AverageField(rs, f);
  }

  /** A one-record slice is still rounded: its fields become their three-decimal
      roundings, so a record with finer values does not come back unchanged. */
  lemma AveragedSingle(r: ReadoutData)
    ensures Averaged([r]).Timestamp == r.Timestamp && Averaged([r]).Tarif == r.Tarif
    ensures forall f :: FieldValue(Averaged([r]), f) == RoundMilli(FieldValue(r, f))
    ensures r.PowerReceived == 0.0004 ==> Averaged([r]).PowerReceived == 0.0
  {
    AveragedFields([r]);
    assert [r][..0] == [];
    forall f ensures Mean([r], f) == FieldValue(r, f) {
      assert Sum([r], f) == FieldValue(r, f);
    }
    if r.PowerReceived == 0.0004 {
      assert FieldValue(r, PowerReceivedField) == 0.0004;
      assert Round(0.0004 * 1000.0) == 0;
    }
  }

  /** With keys from the scan, the averaging panics exactly when some key has
      `start == end`: that key's half-open slice is empty. */
  lemma PanicsIffEmptyKey(rs: seq<ReadoutData>, parse: Parser, interval: Duration)
    ensures var keys := RangeIndexes(Instants(rs, parse), interval);
      AverageKeys(rs, keys) == None <==> exists j :: 0 <= j < |keys| && keys[j].start == keys[j].end
  {
    var keys := RangeIndexes(Instants(rs, parse), interval);
    RangeIndexesOrdered(Instants(rs, parse), interval);
    AverageKeysCharacterised(rs, keys);
    assert forall j :: 0 <= j < |keys| ==> (Sliceable(rs, keys[j]) <==> keys[j].start != keys[j].end);
  }

  /** Fewer than two records give no keys, so an averaged query of them comes back empty. */
  lemma ShortRangeAveragesToNothing(rs: seq<ReadoutData>, parse: Parser, interval: Duration)
    requires |rs| < 2
    ensures AverageKeys(rs, RangeIndexes(Instants(rs, parse), interval)) == Some([])
  {
    RangeIndexesOrdered(Instants(rs, parse), interval);
  }

  /** Five readouts one second apart, averaged over five seconds: the scan gives
      the single key `{0, 4}` and the half-open slice averages readouts 0..3
      only, so power received values 1..5 average to 2.5, not 3. */
  lemma FiveReadoutsAverage(rs: seq<ReadoutData>, parse: Parser, t0: Instant)
    requires |rs| == 5 && t0 != ZeroInstant
    requires forall k :: 0 <= k < 5 ==> parse(rs[k].Timestamp) == t0 + k * Second
    requires forall k :: 0 <= k < 5 ==> rs[k].PowerReceived == (k + 1) as real
    ensures RangeIndexes(Instants(rs, parse), 5 * Second) == [RangeKeys(0, 4)]
    ensures AverageKeys(rs, [RangeKeys(0, 4)]) == Some([Averaged(rs[0..4])])
    ensures Averaged(rs[0..4]).PowerReceived == 2.5
  {
    var ts := Instants(rs, parse);
    FiveSecondBucket(ts, t0);
    var slice := rs[0..4];
    var f := PowerReceivedField;
    assert slice[..0] == [];
    assert slice[..1][..0] == [] && Sum(slice[..1], f) == 1.0;
    assert slice[..2][..1] == slice[..1] && Sum(slice[..2], f) == 3.0;
    assert slice[..3][..2] == slice[..2] && Sum(slice[..3], f) == 6.0;
    assert slice[..4][..3] == slice[..3] && slice[..4] == slice;
    assert Sum(slice, f) == 10.0;
    assert Round(10.0 * 1000.0 / 4.0) == 2500;
    assert [RangeKeys(0, 4)][..0] == [];
    assert Sliceable(rs, RangeKeys(0, 4));
    assert AverageKeys(rs, []) == Some([]);
    assert [] + [Averaged(slice)] == [Averaged(slice)];
  }

  lemma FiveSecondBucket(ts: seq<Instant>, t0: Instant)
    requires |ts| == 5 && t0 != ZeroInstant
    requires forall k :: 0 <= k < 5 ==> ts[k] == t0 + k * Second
    ensures RangeIndexes(ts, 5 * Second) == [RangeKeys(0, 4)]
  {
    var iv: Duration := 5 * Second;
    assert Sub(ts[3], ts[0]) < iv;
    assert FirstClose(ts, iv, 0, 4) == 4;
    assert FirstClose(ts, iv, 0, 3) == 4;
    assert FirstClose(ts, iv, 0, 2) == 4;
    assert FirstClose(ts, iv, 0, 1) == 4;
  }

  // ---------------------------------------------------------------------------
  // The averaging the inclusive keys call for

  /** One record per key, averaged over the inclusive run `[start, end]` the
      key describes. Keys that the scan produces always admit it. */
  function AverageKeysInclusive(rs: seq<ReadoutData>, keys: seq<RangeKeys>): (out: seq<ReadoutData>)
    requires Ordered(keys, 0, |rs|)
    ensures |out| == |keys|
    ensures forall j :: 0 <= j < |keys| ==>
      && out[j].Timestamp == rs[keys[j].start].Timestamp
      && out[j].Tarif == rs[keys[j].start].Tarif
      && forall f :: FieldValue(out[j], f) == RoundMilli(Mean(rs[keys[j].start..keys[j].end + 1], f))
  {
    var out := seq(|keys|, j requires 0 <= j < |keys| => Averaged(rs[keys[j].start..keys[j].end + 1]));
    forall j | 0 <= j < |keys|
      ensures forall f :: FieldValue(out[j], f) == RoundMilli(Mean(rs[keys[j].start..keys[j].end + 1], f))
    {
      AveragedFields(rs[keys[j].start..keys[j].end + 1]);
    }
    out
  }

  /** The five-readout example averages all five readouts. */
  lemma FiveReadoutsAverageInclusive(rs: seq<ReadoutData>, parse: Parser, t0: Instant)
    requires |rs| == 5 && t0 != ZeroInstant
    requires forall k :: 0 <= k < 5 ==> parse(rs[k].Timestamp) == t0 + k * Second
    requires forall k :: 0 <= k < 5 ==> rs[k].PowerReceived == (k + 1) as real
    ensures Ordered(RangeIndexes(Instants(rs, parse), 5 * Second), 0, |rs|)
    ensures AverageKeysInclusive(rs, RangeIndexes(Instants(rs, parse), 5 * Second))[0].PowerReceived == 3.0
  {
    var ts := Instants(rs, parse);
    RangeIndexesOrdered(ts, 5 * Second);
    FiveSecondBucket(ts, t0);
    var f := PowerReceivedField;
    assert rs[0..5] == rs;
    assert rs[..0] == [];
    assert rs[..1][..0] == [] && Sum(rs[..1], f) == 1.0;
    assert rs[..2][..1] == rs[..1] && Sum(rs[..2], f) == 3.0;
    assert rs[..3][..2] == rs[..2] && Sum(rs[..3], f) == 6.0;
    assert rs[..4][..3] == rs[..3] && Sum(rs[..4], f) == 10.0;
    assert rs[..5][..4] == rs[..4] && rs[..5] == rs;
    assert Sum(rs, f) == 15.0;
    assert Mean(rs, f) == 3.0;
    RoundMilliExact(3000);
    assert FieldValue(AverageKeysInclusive(rs, [RangeKeys(0, 4)])[0], f) == RoundMilli(Mean(rs, f));
  }

  /** A readout a full interval after its predecessor closes a one-record key
      `{0, 0}`; its half-open slice is empty and the averaging panics, while
      the inclusive averaging gives one record per key. */
  lemma SparseReadoutsPanic(rs: seq<ReadoutData>, parse: Parser, t0: Instant)
    requires |rs| == 3 && t0 > ZeroInstant
    requires parse(rs[0].Timestamp) == t0
    requires parse(rs[1].Timestamp) == t0 + 10 * Second
    requires parse(rs[2].Timestamp) == t0 + 11 * Second
    ensures RangeIndexes(Instants(rs, parse), 5 * Second) == [RangeKeys(0, 0), RangeKeys(1, 2)]
    ensures AverageKeys(rs, RangeIndexes(Instants(rs, parse), 5 * Second)) == None
    ensures |AverageKeysInclusive(rs, [RangeKeys(0, 0), RangeKeys(1, 2)])| == 2
  {
    var ts := Instants(rs, parse);
    var iv: Duration := 5 * Second;
    assert FirstClose(ts, iv, 0, 1) == 1;
    assert FirstClose(ts, iv, 1, 2) == 2;
    assert KeysFrom(ts, iv, 1) == [RangeKeys(1, 2)];
    assert KeysFrom(ts, iv, 0) == [RangeKeys(0, 0)] + [RangeKeys(1, 2)];
    PanicsIffEmptyKey(rs, parse, iv);
    assert RangeIndexes(ts, iv)[0].start == RangeIndexes(ts, iv)[0].end;
    assert Ordered([RangeKeys(0, 0), RangeKeys(1, 2)], 0, |rs|);
  }
}
