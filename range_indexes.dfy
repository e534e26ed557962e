/** `getRangeIndexes`: partitions a query result into buckets of at most one
    interval, written as index pairs. */
module RangeBuckets {
  import opened GoTime
  import opened Readouts

  /** `rangeKeys`: a bucket as the scan writes it, `end` being the cursor before the one that closed it. */
  datatype RangeKeys = RangeKeys(start: nat, end: nat)

  /** Where the bucket opened at `s` closes when the scan has reached cursor `i`:
      the first cursor whose elapsed time since `s` reaches `interval`, or the last index. */
  function FirstClose(ts: seq<Instant>, interval: Duration, s: nat, i: nat): (c: nat)
    requires s < i < |ts|
    ensures i <= c < |ts|
    ensures c == |ts| - 1 || Sub(ts[c], ts[s]) >= interval
    decreases |ts| - i
  {
    if i == |ts| - 1 || Sub(ts[i], ts[s]) >= interval then i
    else FirstClose(ts, interval, s, i + 1)
  }

  /** Every cursor the scan passes before the bucket closes is still inside the
      interval. */
  lemma {:induction false} FirstCloseInside(ts: seq<Instant>, interval: Duration, s: nat, i: nat)
    requires s < i < |ts|
    ensures forall k :: i <= k < FirstClose(ts, interval, s, i) ==> Sub(ts[k], ts[s]) < interval
    decreases |ts| - i
  {
    if !(i == |ts| - 1 || Sub(ts[i], ts[s]) >= interval) {
      FirstCloseInside(ts, interval, s, i + 1);
    }
  }

  /** The keys the scan emits from the moment its bucket start is `s` with the
      cursor just past it. A start whose timestamp is the zero instant is
      skipped without emitting anything. A bucket closed at cursor `c` ends at
      `c - 1`, except that at the last index the cursor is first pushed one
      past the end, so that bucket ends at the last index. */
  function KeysFrom(ts: seq<Instant>, interval: Duration, s: nat): seq<RangeKeys>
    decreases |ts| - s
  {
    if s + 1 >= |ts| then []
    else if ts[s] == ZeroInstant then KeysFrom(ts, interval, s + 1)
    else
      var c := FirstClose(ts, interval, s, s + 1);
      if c == |ts| - 1 then [RangeKeys(s, c)]
      else [RangeKeys(s, c - 1)] + KeysFrom(ts, interval, c)
  }

  /** The keys emitted once the bucket opened at `s` closes at cursor `c`. */
  function CloseAt(ts: seq<Instant>, interval: Duration, s: nat, c: nat): seq<RangeKeys>
    requires s < c < |ts|
  {
    if c == |ts| - 1 then [RangeKeys(s, c)]
    else [RangeKeys(s, c - 1)] + KeysFrom(ts, interval, c)
  }

  /** The keys for a whole sequence of instants. */
  function RangeIndexes(ts: seq<Instant>, interval: Duration): seq<RangeKeys>
  {
    KeysFrom(ts, interval, 0)
  }

  lemma KeysFromSkip(ts: seq<Instant>, interval: Duration, s: nat)
    requires s + 1 < |ts| && ts[s] == ZeroInstant
    ensures KeysFrom(ts, interval, s) == KeysFrom(ts, interval, s + 1)
  {
  }

  lemma KeysFromOpen(ts: seq<Instant>, interval: Duration, s: nat)
    requires s + 1 < |ts| && ts[s] != ZeroInstant
    ensures KeysFrom(ts, interval, s) == CloseAt(ts, interval, s, FirstClose(ts, interval, s, s + 1))
  {
  }

  /** The loop state of `getRangeIndexes` after `keys` have been emitted, with
      bucket start `s` and cursor `i`: what is left to emit completes the keys
      of the whole sequence. Past the first cursor of a bucket, its start has a
      real timestamp and the scan is still inside it. */
  ghost predicate Scanned(ts: seq<Instant>, interval: Duration, keys: seq<RangeKeys>, s: nat, i: nat)
  {
    && s <= i <= |ts| + 1
    && (s + 1 >= i ==> keys + KeysFrom(ts, interval, s) == RangeIndexes(ts, interval))
    && (s + 1 < i ==>
          && i < |ts| && ts[s] != ZeroInstant
          && keys + CloseAt(ts, interval, s, FirstClose(ts, interval, s, i)) == RangeIndexes(ts, interval))
  }

  /** A start with the zero timestamp is dropped. */
  lemma ScanSkip(ts: seq<Instant>, interval: Duration, keys: seq<RangeKeys>, s: nat, i: nat)
    requires Scanned(ts, interval, keys, s, i) && s < i < |ts| && ts[s] == ZeroInstant
    ensures Scanned(ts, interval, keys, s + 1, i + 1)
  {
    KeysFromSkip(ts, interval, s);
  }

  lemma ScanOpen(ts: seq<Instant>, interval: Duration, keys: seq<RangeKeys>, s: nat, i: nat)
    requires Scanned(ts, interval, keys, s, i) && s < i < |ts| && ts[s] != ZeroInstant
    ensures keys + CloseAt(ts, interval, s, FirstClose(ts, interval, s, i)) == RangeIndexes(ts, interval)
  {
    if s + 1 == i {
      KeysFromOpen(ts, interval, s);
    }
  }

  /** A cursor still inside the interval, before the last index, stays in the bucket. */
  lemma ScanContinue(ts: seq<Instant>, interval: Duration, keys: seq<RangeKeys>, s: nat, i: nat)
    requires Scanned(ts, interval, keys, s, i) && s < i < |ts| - 1 && ts[s] != ZeroInstant
    requires Sub(ts[i], ts[s]) < interval
    ensures Scanned(ts, interval, keys, s, i + 1)
  {
    ScanOpen(ts, interval, keys, s, i);
    assert FirstClose(ts, interval, s, i) == FirstClose(ts, interval, s, i + 1);
  }

  /** Any other cursor closes the bucket. */
  lemma ScanClose(ts: seq<Instant>, interval: Duration, keys: seq<RangeKeys>, s: nat, i: nat, e: nat)
    requires Scanned(ts, interval, keys, s, i) && s < i < |ts| && ts[s] != ZeroInstant
    requires !(Sub(ts[i], ts[s]) < interval && i < |ts| - 1)
    requires e == if i == |ts| - 1 then i + 1 else i
    ensures Scanned(ts, interval, keys + [RangeKeys(s, e - 1)], e, e + 1)
  {
    ScanOpen(ts, interval, keys, s, i);
    assert FirstClose(ts, interval, s, i) == i;
    assert keys + [RangeKeys(s, e - 1)] + KeysFrom(ts, interval, e)
        == keys + ([RangeKeys(s, e - 1)] + KeysFrom(ts, interval, e));
  }

  /** `getRangeIndexes`, with the loop index bumped inside the body as in the source. */
  method GetRangeIndexes(readouts: seq<ReadoutData>, parse: Parser, interval: Duration)
    returns (keys: seq<RangeKeys>)
    ensures keys == RangeIndexes(Instants(readouts, parse), interval)
  {
    ghost var ts := Instants(readouts, parse);
    keys := [];
    var startKey: nat := 0;
    var numReadouts := |readouts|;
    var i: nat := 0;
    while i < numReadouts
      invariant Scanned(ts, interval, keys, startKey, i)
      decreases numReadouts + 1 - i
    {
      if i != startKey {
        var sr := readouts[startKey];
        var cr := readouts[i];
        var sTime := GetTimestamp(sr, parse);
        if sTime == ZeroInstant {
          ScanSkip(ts, interval, keys, startKey, i);
          startKey := startKey + 1;
        } else {
          var cTime := GetTimestamp(cr, parse);
          if Sub(cTime, sTime) < interval && i < numReadouts - 1 {
            ScanContinue(ts, interval, keys, startKey, i);
          } else {
            ghost var cursor := i;
            if i == numReadouts - 1 {
              i := i + 1;
            }
            ScanClose(ts, interval, keys, startKey, cursor, i);
            keys := keys + [RangeKeys(startKey, i - 1)];
            startKey := i;
          }
        }
      }
      i := i + 1;
    }
  }

  // ---------------------------------------------------------------------------
  // Properties of the keys

  /** Every key lies in `[lo, n-1]` with `start <= end`, and each key starts
      after the previous one ends. */
  ghost predicate Ordered(keys: seq<RangeKeys>, lo: nat, n: nat)
  {
    && (forall j :: 0 <= j < |keys| ==> lo <= keys[j].start <= keys[j].end < n)
    && (forall j :: 0 < j < |keys| ==> keys[j - 1].end < keys[j].start)
  }

  /** The keys cover `[s, n-1]` without gaps or overlap. */
  ghost predicate TilesFrom(keys: seq<RangeKeys>, s: nat, n: nat)
  {
    && |keys| > 0
    && keys[0].start == s
    && keys[|keys| - 1].end == n - 1
    && (forall j :: 0 < j < |keys| ==> keys[j].start == keys[j - 1].end + 1)
  }

  /** A key holds the indices whose elapsed time since its start stays below the
      interval (the last index excepted), and it ends just before the first
      index that reaches the interval, unless that index is the last one: a
      key whose closing cursor is the last index absorbs it, so no key ends
      at the index before the last. */
  ghost predicate Bucket(ts: seq<Instant>, interval: Duration, key: RangeKeys)
  {
    && key.start <= key.end < |ts|
    && (forall k :: key.start < k <= key.end && k < |ts| - 1 ==> Sub(ts[k], ts[key.start]) < interval)
    && (key.end < |ts| - 1 ==> Sub(ts[key.end + 1], ts[key.start]) >= interval)
    && (key.end < |ts| - 1 ==> key.end + 1 < |ts| - 1)
  }

  /** Every index below the last that no key covers has the zero timestamp. */
  ghost predicate SkippedAreZero(ts: seq<Instant>, keys: seq<RangeKeys>, s: nat)
  {
    && (forall k :: s <= k < |ts| && k < (if |keys| == 0 then |ts| - 1 else keys[0].start) ==> ts[k] == ZeroInstant)
    && (forall j, k :: 0 < j < |keys| && keys[j - 1].end < k < keys[j].start && k < |ts| ==> ts[k] == ZeroInstant)
    && (|keys| > 0 ==> forall k :: keys[|keys| - 1].end < k < |ts| - 1 ==> ts[k] == ZeroInstant)
  }

  /** A bucket that closes before the last index is followed by the keys from
      its closing cursor. */
  lemma KeysFromCons(ts: seq<Instant>, interval: Duration, s: nat, c: nat)
    requires s + 1 < |ts| && ts[s] != ZeroInstant
    requires c == FirstClose(ts, interval, s, s + 1) && c < |ts| - 1
    ensures KeysFrom(ts, interval, s) == [RangeKeys(s, c - 1)] + KeysFrom(ts, interval, c)
  {
  }

  lemma OrderedCons(key: RangeKeys, rest: seq<RangeKeys>, s: nat, c: nat, n: nat)
    requires s <= key.start <= key.end < c <= n
    requires Ordered(rest, c, n)
    ensures Ordered([key] + rest, s, n)
  {
    var keys := [key] + rest;
    assert keys[0] == key;
    forall j | 0 < j < |keys| ensures keys[j] == rest[j - 1] {
    }
    if |rest| > 0 {
      assert key.end < c <= rest[0].start;
    }
  }

  lemma {:induction false} KeysFromOrdered(ts: seq<Instant>, interval: Duration, s: nat)
    ensures Ordered(KeysFrom(ts, interval, s), s, |ts|)
    ensures forall j :: 0 <= j < |KeysFrom(ts, interval, s)| ==>
      KeysFrom(ts, interval, s)[j].start + 1 < |ts|
    ensures forall j :: 0 <= j < |KeysFrom(ts, interval, s)| ==>
      ts[KeysFrom(ts, interval, s)[j].start] != ZeroInstant
    decreases |ts| - s
  {
    if s + 1 >= |ts| {
    } else if ts[s] == ZeroInstant {
      KeysFromSkip(ts, interval, s);
      KeysFromOrdered(ts, interval, s + 1);
    } else {
      var c := FirstClose(ts, interval, s, s + 1);
      if c < |ts| - 1 {
        KeysFromCons(ts, interval, s, c);
        KeysFromOrdered(ts, interval, c);
        var rest := KeysFrom(ts, interval, c);
        OrderedCons(RangeKeys(s, c - 1), rest, s, c, |ts|);
        var keys := [RangeKeys(s, c - 1)] + rest;
        forall j | 0 < j < |keys| ensures keys[j] == rest[j - 1] {
        }
      } else {
        KeysFromOpen(ts, interval, s);
      }
    }
  }

  /** Keys lie within `[0, n-1]`, have `start <= end`, come in increasing order,
      never start at the last record, and never start at a record whose
      timestamp is the zero instant. */
  lemma RangeIndexesOrdered(ts: seq<Instant>, interval: Duration)
    ensures Ordered(RangeIndexes(ts, interval), 0, |ts|)
    ensures forall j :: 0 <= j < |RangeIndexes(ts, interval)| ==>
      RangeIndexes(ts, interval)[j].start + 1 < |ts|
    ensures forall j :: 0 <= j < |RangeIndexes(ts, interval)| ==>
      ts[RangeIndexes(ts, interval)[j].start] != ZeroInstant
    ensures |ts| < 2 ==> RangeIndexes(ts, interval) == []
  {
    KeysFromOrdered(ts, interval, 0);
  }

  lemma TilesCons(key: RangeKeys, rest: seq<RangeKeys>, s: nat, n: nat)
    requires key.start == s
    requires TilesFrom(rest, key.end + 1, n)
    ensures TilesFrom([key] + rest, s, n)
  {
    var keys := [key] + rest;
    forall j | 0 < j < |keys| ensures keys[j] == rest[j - 1] {
    }
  }

  lemma {:induction false} KeysFromTile(ts: seq<Instant>, interval: Duration, s: nat)
    requires s + 1 < |ts|
    requires forall k :: s <= k < |ts| - 1 ==> ts[k] != ZeroInstant
    ensures TilesFrom(KeysFrom(ts, interval, s), s, |ts|)
    decreases |ts| - s
  {
    var c := FirstClose(ts, interval, s, s + 1);
    if c < |ts| - 1 {
      KeysFromCons(ts, interval, s, c);
      KeysFromTile(ts, interval, c);
      TilesCons(RangeKeys(s, c - 1), KeysFrom(ts, interval, c), s, |ts|);
    } else {
      KeysFromOpen(ts, interval, s);
    }
  }

  /** With at least two records and no zero timestamp before the last one, the
      keys tile `[0, n-1]`: the first starts at 0, the last ends at n-1 and each
      next key starts right after the previous one ends. */
  lemma RangeIndexesTile(ts: seq<Instant>, interval: Duration)
    requires |ts| >= 2
    requires forall k :: 0 <= k < |ts| - 1 ==> ts[k] != ZeroInstant
    ensures TilesFrom(RangeIndexes(ts, interval), 0, |ts|)
  {
    KeysFromTile(ts, interval, 0);
  }

  /** The bucket opened at a real start `s` and closed at cursor `c`. */
  lemma ClosedBucket(ts: seq<Instant>, interval: Duration, s: nat, c: nat)
    requires s + 1 < |ts| && c == FirstClose(ts, interval, s, s + 1)
    ensures c < |ts| - 1 ==> Bucket(ts, interval, RangeKeys(s, c - 1))
    ensures c == |ts| - 1 ==> Bucket(ts, interval, RangeKeys(s, c))
  {
    FirstCloseInside(ts, interval, s, s + 1);
  }

  lemma BucketsCons(ts: seq<Instant>, interval: Duration, key: RangeKeys, rest: seq<RangeKeys>)
    requires Bucket(ts, interval, key)
    requires forall j :: 0 <= j < |rest| ==> Bucket(ts, interval, rest[j])
    ensures forall j :: 0 <= j < |[key] + rest| ==> Bucket(ts, interval, ([key] + rest)[j])
  {
    var keys := [key] + rest;
    assert keys[0] == key;
    forall j | 0 < j < |keys| ensures keys[j] == rest[j - 1] {
    }
  }

  lemma {:induction false} KeysFromBuckets(ts: seq<Instant>, interval: Duration, s: nat)
    ensures forall j :: 0 <= j < |KeysFrom(ts, interval, s)| ==>
      Bucket(ts, interval, KeysFrom(ts, interval, s)[j])
    decreases |ts| - s
  {
    if s + 1 >= |ts| {
    } else if ts[s] == ZeroInstant {
      KeysFromSkip(ts, interval, s);
      KeysFromBuckets(ts, interval, s + 1);
    } else {
      var c := FirstClose(ts, interval, s, s + 1);
      ClosedBucket(ts, interval, s, c);
      if c < |ts| - 1 {
        KeysFromCons(ts, interval, s, c);
        KeysFromBuckets(ts, interval, c);
        BucketsCons(ts, interval, RangeKeys(s, c - 1), KeysFrom(ts, interval, c));
      } else {
        KeysFromOpen(ts, interval, s);
        assert KeysFrom(ts, interval, s) == [RangeKeys(s, c)];
      }
    }
  }

  /** Every key is a bucket: the elapsed time of each index after its start (the
      last index excepted) is below the interval, and a key that ends before
      the last index ends just before the first index that reaches it. */
  lemma RangeIndexesBuckets(ts: seq<Instant>, interval: Duration)
    ensures forall j :: 0 <= j < |RangeIndexes(ts, interval)| ==>
      Bucket(ts, interval, RangeIndexes(ts, interval)[j])
  {
    KeysFromBuckets(ts, interval, 0);
  }

  /** A closing cursor at the last index folds that index into the open key,
      even with a zero timestamp in between and an elapsed time far past the
      interval. */
  lemma LastReadoutFolded()
    ensures RangeIndexes([1, 0, 100], 50) == [RangeKeys(0, 2)]
  {
    assert FirstClose([1, 0, 100], 50, 0, 1) == 2;
  }

  lemma {:induction false} KeysFromSkipped(ts: seq<Instant>, interval: Duration, s: nat)
    ensures SkippedAreZero(ts, KeysFrom(ts, interval, s), s)
    decreases |ts| - s
  {
    if s + 1 >= |ts| {
    } else if ts[s] == ZeroInstant {
      KeysFromSkipped(ts, interval, s + 1);
      KeysFromSkip(ts, interval, s);
      SkippedBeforeStart(ts, KeysFrom(ts, interval, s + 1), s);
    } else {
      var c := FirstClose(ts, interval, s, s + 1);
      if c < |ts| - 1 {
        KeysFromSkipped(ts, interval, c);
        KeysFromOrdered(ts, interval, c);
        var rest := KeysFrom(ts, interval, c);
        assert KeysFrom(ts, interval, s) == [RangeKeys(s, c - 1)] + rest;
        SkippedAfterClose(ts, rest, s, c);
      }
    }
  }

  lemma SkippedBeforeStart(ts: seq<Instant>, keys: seq<RangeKeys>, s: nat)
    requires s < |ts| && ts[s] == ZeroInstant
    requires SkippedAreZero(ts, keys, s + 1)
    ensures SkippedAreZero(ts, keys, s)
  {
  }

  lemma SkippedAfterClose(ts: seq<Instant>, rest: seq<RangeKeys>, s: nat, c: nat)
    requires s < c < |ts| - 1
    requires SkippedAreZero(ts, rest, c)
    requires Ordered(rest, c, |ts|)
    ensures SkippedAreZero(ts, [RangeKeys(s, c - 1)] + rest, s)
  {
    var keys := [RangeKeys(s, c - 1)] + rest;
    forall j, k | 0 < j < |keys| && keys[j - 1].end < k < keys[j].start && k < |ts|
      ensures ts[k] == ZeroInstant
    {
      assert keys[j] == rest[j - 1];
      if j > 1 {
        assert keys[j - 1] == rest[j - 2];
      }
    }
    if rest != [] {
      assert keys[|keys| - 1] == rest[|rest| - 1];
    }
  }

  /** The only records the keys leave out, apart from the last one, are records
      whose timestamp is the zero instant: before the first key, between two
      keys and after the last key. */
  lemma RangeIndexesSkipOnlyZero(ts: seq<Instant>, interval: Duration)
    ensures SkippedAreZero(ts, RangeIndexes(ts, interval), 0)
  {
    KeysFromSkipped(ts, interval, 0);
  }
}
