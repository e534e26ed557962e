# go-smartmeter storage core in Dafny

This project models the part of go-smartmeter's storage backend that has real logic in it.

- **Range bucketing.** `getRangeIndexes` cuts a range-query result into index pairs (`rangeKeys`). Each pair runs from its first readout up to the readout before the first one whose elapsed time reaches the interval; whenever a pair is still open at the last readout, it takes that readout in, whatever its elapsed time.
- **Averaging.** `GetAveragedRange` turns each pair into one averaged readout. The timestamp and tariff come from the first readout of the slice. Each of the seven numeric fields becomes `math.Round(sum*1000/len)/1000`.
- **Range-boundary resolution.** `StringToTime` matches an optional date, an optional space and an optional clock time at the start of a free-form string. It then builds the "2006-01-02 15:04:05" string handed to the parser, falling back to today's date and to a default time.
- **Projection.** `NewDataRetrievalOption` normalises an integer to a retrieval option. `ReadoutsToJSON` decides, record by record, whether to emit a map of the timestamp plus the selected field groups or the whole record.

How the model represents things:

- An instant is an integer count of nanoseconds since Go's zero instant, so `time.Time{}` is 0.
- A `time.Duration` is an int64 range subset type, and `Sub` saturates the way Go's does.
- Readings are reals.
- Parsing a stored timestamp is a parameter `parse: string -> int`, with 0 for a string the parser rejects.
- "Today" is a string parameter.

`getRangeIndexes` is a `while` loop that bumps the loop index inside the body, as the source does. It is proved equal to `RangeIndexes`, a bucket-by-bucket recursive definition, and the lemmas about the keys are proved about that definition. The averaging is a nested accumulation loop, proved equal to `AverageKeys`. `ReadoutsToJSON` fills an array by index. Its map is an `ObjectMap` object that `AddGasToMap`, `AddPowerToMap` and `AddTotalsToMap` change in place.

Files:

- `go_time.dfy`: durations, instants and `Sub`
- `readouts.dfy`: the record and the timestamp parse
- `wrappers.dfy`: `Option`
- `rounding.dfy`: `math.Round`
- `range_indexes.dfy`: `getRangeIndexes`
- `averaged_range.dfy`: the averaging
- `string_to_time.dfy`: `StringToTime`
- `data_retrieval_option.dfy`: the projection

Behaviour of the code that a reader might not expect, all modelled as written:

- Keys are written with an inclusive end (`i - 1`, storage.go:283) but consumed by a half-open slice (storage.go:221). So the readout at `end` is never averaged (`FiveReadoutsAverage`), and a key with `start == end` panics (`SparseReadoutsPanic`).
- A one-readout slice is rounded to three decimals as well (storage.go:236-243, `AveragedSingle`).
- Fewer than two readouts give no key (storage.go:260-263), so the averaged result is empty (`ShortRangeAveragesToNothing`).
- The range query has no `ORDER BY` (storage.go:183) and the scan does not sort, so no lemma assumes any order of the timestamps.

## Model

| member | source | states |
|---|---|---|
| `GoTime.Sub` | storage.go:275 | `cTime.Sub(sTime)`: the difference of two instants, saturated to the int64 duration range at both ends |
| `Readouts.Instants` | storage.go:164-174 | `getTimestamp` (modelled by `Readouts.GetTimestamp`, the parse of the timestamp string) applied to every readout: one instant per readout, index by index |
| `RangeBuckets.FirstClose` | storage.go:274-284 | The cursor where an open bucket closes lies at or after the current cursor, and is either the last index or an index whose elapsed time since the bucket start reaches the interval |
| `RangeBuckets.FirstCloseInside` | storage.go:274-277 | Every cursor the scan passes before the bucket closes has an elapsed time below the interval, so the closing cursor is the first one to reach it |
| `RangeBuckets.GetRangeIndexes` | storage.go:255-288 | The loop, with its mutable `startKey` and the index bumped at the last readout, emits exactly the keys `RangeIndexes` defines for the parsed timestamps |
| `RangeBuckets.RangeIndexesOrdered` | storage.go:255-288 | Fewer than two readouts give no keys; every key has `start <= end <= n-1`; keys come in order, each starting after the previous one ends; no key starts at the last readout, so a range whose only parsable readout is the last one gives no key; no key starts at a readout with the zero timestamp |
| `RangeBuckets.RangeIndexesTile` | storage.go:258-284 | With `n >= 2` and no zero timestamp before the last readout, the keys tile `[0, n-1]`: first start 0, last end n-1, each start one past the previous end |
| `RangeBuckets.RangeIndexesBuckets` | storage.go:274-284 | For each key `{s,e}`, every index `k` with `s < k <= e` and `k < n-1` has `Sub(t(k), t(s)) < interval`; a key ending before the last index ends just before an index reaching the interval, and that index is not the last one, so an open key whose closing cursor is the last readout absorbs it whatever its elapsed time |
| `RangeBuckets.LastReadoutFolded` | storage.go:279-283 | Timestamps 1, 0, 100 at interval 50 give the single key `{0,2}`: the last readout is folded in although it is far past the interval |
| `RangeBuckets.RangeIndexesSkipOnlyZero` | storage.go:265-272 | A start with the zero timestamp is skipped without emitting a key: every index below the last that lies before, between or after the keys has the zero timestamp |
| `Rounding.Round` | storage.go:237-243 | `math.Round`: the result is within one half of its argument, and a tie goes away from zero |
| `Rounding.RoundMilliClose` | storage.go:237-243 | Rounding to three decimals moves a value by at most 0.0005 |
| `Rounding.RoundMilliExact` | storage.go:237-243 | Rounding to three decimals leaves a value that already has three decimals unchanged |
| `AveragedRange.GetAveragedRange` | storage.go:211-249 | When `GetRange` erred or the interval is exactly one second, its result comes back unchanged; otherwise the outcome is one averaged readout per key of the scan, or a panic exactly when `AverageKeys` has none |
| `AveragedRange.AverageSlice` | storage.go:222-243 | Summing the seven fields front to back and then dividing and rounding gives `Averaged` of the slice |
| `AveragedRange.AverageKeysCharacterised` | storage.go:217-248 | The averaging panics exactly when some key is not a non-empty in-range slice; otherwise there is one readout per key, in key order, built from the half-open slice `[start, end)` |
| `AveragedRange.AveragedFields` | storage.go:222-243 | An averaged readout has the slice's first timestamp and tariff, and each numeric field is the slice mean rounded to three decimals, within 0.0005 of the mean |
| `AveragedRange.AveragedField` | storage.go:236-243 | One numeric field of an averaged readout is the slice mean of that field rounded to three decimals |
| `AveragedRange.AveragedConstant` | storage.go:226-243 | A field with the same three-decimal value throughout the slice keeps that value |
| `AveragedRange.AveragedSingle` | storage.go:236-243 | A one-readout slice is still rounded: each field becomes its three-decimal rounding, so 0.0004 becomes 0 |
| `AveragedRange.PanicsIffEmptyKey` | storage.go:221-223 | With the scan's keys, the averaging panics exactly when a key has `start == end`, whose half-open slice is empty |
| `AveragedRange.ShortRangeAveragesToNothing` | storage.go:255-260 | Fewer than two readouts average to an empty result |
| `AveragedRange.FiveReadoutsAverage` | storage.go:221-237 | Five readouts one second apart at a five-second interval give the single key `{0,4}`; only readouts 0..3 are averaged, so power values 1..5 give 2.5 |
| `AveragedRange.SparseReadoutsPanic` | storage.go:221-223 | Readouts at 0 s, 10 s and 11 s at a five-second interval give keys `{0,0}` and `{1,2}`; the first key's empty slice makes the averaging panic |
| `AveragedRange.AverageKeysInclusive` | storage.go:221-243 | Averaging each key over its inclusive run gives one readout per key for any ordered key sequence, with the run's first timestamp and tariff and the rounded mean of the run |
| `AveragedRange.FiveReadoutsAverageInclusive` | storage.go:221-237 | Averaged over inclusive runs, the five-readout example gives power 3.0 |
| `DateTimeInput.FindStringSubmatch` | storage.go:13 | The match is the input's prefix up to the end of the time group, or up to the clock start when there is no time; its date group (the first 10 characters when present) is non-empty exactly when the input starts with `dddd-dd-dd`; its time group is non-empty exactly when `dd:dd:dd` follows the date and one optional space |
| `DateTimeInput.StringToTime` | storage.go:296-316 | The string handed to the parser: with a date and a time at the start, the 18- or 19-character matched prefix verbatim; with a date alone, the date plus a space plus the fallback time; with a time alone, today plus a space plus that time; with neither, today plus a space plus the fallback time |
| `DateTimeInput.OnlyPrefixMatters` | storage.go:13 | Appending anything to an input of at least 19 characters does not change the result: a date later in the string is ignored |
| `DateTimeInput.NoLeadingMatch` | storage.go:309-315 | Empty input, or input starting with neither a digit nor a space, resolves to today at the fallback time |
| `DateTimeInput.FullInputExample` | storage_test.go:12 | "2020-02-03 13:22:33" is handed on as "2020-02-03 13:22:33" |
| `DateTimeInput.MissingTimeExample` | storage_test.go:13 | "2020-02-03" with fallback "01:02:03" becomes "2020-02-03 01:02:03" |
| `DateTimeInput.MissingDateExample` | storage_test.go:14 | "13:22:33" becomes today plus " 13:22:33" |
| `DateTimeInput.UnmatchedInputExamples` | storage_test.go:15-16 | "" and "lsbhewr" become today plus " 01:02:03" |
| `DataRetrieval.NewDataRetrievalOption` | data-retrieval-option.go:21-26 | The result is always in 0..6; values 1..6 are kept; values `<= 0` or `>= 7` (7 included) become All |
| `DataRetrieval.NormaliseIdempotent` | data-retrieval-option.go:21-26 | Normalising an already-normalised value returns it unchanged |
| `DataRetrieval.AddGasToMap` | data-retrieval-option.go:76-78 | The map gains "GasReceived" with the record's gas reading, all else kept |
| `DataRetrieval.AddPowerToMap` | data-retrieval-option.go:80-83 | The map gains "PowerReceived" and "PowerDelivered" with the record's values, all else kept |
| `DataRetrieval.AddTotalsToMap` | data-retrieval-option.go:85-90 | The map gains the four Total* keys with the record's values, all else kept |
| `DataRetrieval.NewRecordMap` | data-retrieval-option.go:32-62 | The map built for a record by the switch is the timestamp plus the groups whose bit is set in a proper combination (1..6) |
| `DataRetrieval.ReadoutsToJSON` | data-retrieval-option.go:28-70 | Exactly one output element per input record, in the same order, each the record's `Shape` |
| `DataRetrieval.SelectedFieldsKeys` | data-retrieval-option.go:32-90 | The map holds "Timestamp" plus exactly the keys of the groups selected by a proper combination, and nothing else |
| `DataRetrieval.SelectedFieldsValues` | data-retrieval-option.go:32-90 | Every value in the map is copied from the record field of that name |
| `DataRetrieval.ShapeSelects` | data-retrieval-option.go:35-69 | For options 1..6 the element is the map of selected fields; for any other option value (All, 7, negative) the whole record is emitted |
| `DataRetrieval.GroupKeysCombine` | data-retrieval-option.go:35-62 | Gas adds "GasReceived", Power adds the two power keys, Totals adds the four Total* keys, and the sum of two different groups adds the union of their keys |
| `DataRetrieval.GasProjection` | data-retrieval-option.go:36-37 | The Gas projection of a record is exactly the map of its timestamp and its gas reading |

## Left out

- SQL backend plumbing is database I/O that ends in `panicOnError` or `log.Fatal`. This covers `initialize`, `prepareTables`, `tableExists`, `createTable`, `initializeInsertStatement`, the `ensureInitialized` flag, `Insert`, and the query and row scan of `GetRange`. `GetAveragedRange` takes `GetRange`'s two results as parameters. Its `start` and `end` arguments only reach `GetRange`, so they are dropped.
- `keepAlive` is left out: it is a goroutine pinging the database every 30 seconds, which is concurrency only.
- `time.Parse`, `time.ParseInLocation`, `time.Now`, `Format` and the location argument are foreign:
  - the stored timestamp parse is a parameter;
  - `StringToTime` returns the string it hands to `ParseInLocation`;
  - today's date is a parameter.
- The Go regexp engine is replaced by a hand-written prefix matcher for the one pattern. It works on `char`s, whereas Go's works on UTF-8 bytes; every character the pattern accepts is ASCII.
- `getTimestamp` caches the parse in the record, but it is only called on copies, so the cache is not modelled: `GetTimestamp` is the parse.
- The `log.Println` of a failed parse in `getTimestamp` (storage.go:167-169) is logging only and is left out; the zero instant it leaves behind is modelled.
- IEEE-754 float64 behaviour is left out: sums and rounding are over reals, with `math.Round` as round-half-away-from-zero.
- `json.Marshal` is left out: `ReadoutsToJSON` stops at the array of maps and records it would serialise.
- Go slices `s[a:b]` with `b` past the length but within the capacity are not modelled: `AverageKeys` counts such a key as a panic. Keys from the scan never reach past the last index.
- Go's 64-bit `int` for option values and loop indices is modelled as an unbounded integer.
- `readout.go` is not part of this model: its accessors over the decoded telegram and `RandomReadout` are not modelled.
- `smartmeter.go` is not part of this model: its serial port, channels and telegram framing are not modelled.
- `AverageKeysInclusive` and `FiveReadoutsAverageInclusive` are the corrected averaging of the findings below. `GetAveragedRange` keeps the code as written, half-open slice and panic included.

## Findings

| source | as written | input that shows it | evidently intended | confidence | as-written member | corrected member |
|---|---|---|---|---|---|---|
| storage.go:221 | `completeRange[i.start:i.end]` drops the readout at the key's inclusive `end` | five readouts one second apart, power 1..5, interval 5 s: key `{0,4}`, average 2.5 | average the inclusive run `[start, end]`: 3.0 | high; not executed | `AveragedRange.FiveReadoutsAverage` | `AveragedRange.FiveReadoutsAverageInclusive` |
| storage.go:221-223 | a key `{s,s}` gives an empty slice and `currRange[0]` panics | readouts at 0 s, 10 s, 11 s, interval 5 s: key `{0,0}` | a one-readout bucket `{s,s}` averaged over the run `[s, s]`, which gives that readout's fields rounded to three decimals (the same rounding `AveragedSingle` shows), not the readout unchanged | high; not executed | `AveragedRange.SparseReadoutsPanic` | `AveragedRange.AverageKeysInclusive` |
