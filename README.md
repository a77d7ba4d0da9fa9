# Air-quality history: normalisation on both sides of the pipeline

This project models the two normalisation steps of the air-quality site, and
proves properties about them.

- **Back end** (`cloudFn/function/generateHistory24h.go`, module `History`).
  `GenerateHistory24h` reads the documents of the `air_quality_raw` collection.
  Each document is a loosely typed field map. The extraction loop turns the
  documents into `AirQualityReading` records. For each document, the loop
  either skips it at the first failing check or appends exactly one reading.
  The checks are:
  - the `Timestamp` field is missing or nil;
  - the timestamp is a string that `time.Parse` rejects with layout
    `2006-01-02 15:04:05 MST`;
  - the timestamp has a type that is neither a time nor a string;
  - `PM` is not a map;
  - `PM["PPM"]` is not a map.

  `toFloat64` reads the two concentrations `PPM["25"]` and `PPM["10"]`. A
  value that is missing or not a number becomes 0; it does not cause a skip.
  The model gives:
  - a dynamic-value datatype (`Value`);
  - the per-document step, as a function (`ToReading`);
  - the filter-map over the whole input, as a function (`Readings`), built
    on a generic order-preserving filter-map (module `FilterMaps`);
  - the loop itself, as a method (`CollectReadings`), proved equal to
    `Readings`.
- **Front end** (`frontend/scripts.js`, module `IsoTimestamp`). Before
  `parseTimestamp` builds a `Date`, it rewrites a stored timestamp such as
  `2025-04-16 19:23:00 UTC` with `timestamp.replace(" UTC", "Z")`. The call
  uses a string pattern, so only the first occurrence is replaced. The model
  does the same, built on a first-occurrence search (`IndexOfFrom`).

The design description of this system mentions an AQI calculator, a
breakpoint table, a sorted "most recent N" window and the rejection of
negative concentrations. None of these exist in the code, and this model
follows the code. In particular:
- no record is rejected for a negative or non-numeric concentration;
- nothing is sorted (the documents keep the order they arrive in);
- the 24-hour cut-off is commented out, so no time window or count bound
  applies (`EveryAcceptedDocumentKept`, `AllAcceptedAllKept`).

Files: `wrappers.dfy` (`Option`, `Result`), `filter_map.dfy` (the generic filter-map and its
lemmas), `history.dfy`, `iso_timestamp.dfy`.

## Model

| member | source | states |
|---|---|---|
| History.ToFloat64 | cloudFn/function/generateHistory24h.go:24-35 | a float64 is returned unchanged; an int64 or an int is converted to its numeric value; every other dynamic type, nil included, gives 0 |
| History.ToReading | cloudFn/function/generateHistory24h.go:75-120 | each skip reason holds exactly when its check is the first to fail: Timestamp absent or nil; an unparsable string; any other type; PM not a map; PPM not a map. A reading is produced exactly when the document is `Accepted`. A time.Time stamp is kept as it is, and a string one is what time.Parse returns for the layout. PM25 and PM10 are `toFloat64` of PPM["25"] and PPM["10"] of the same document, so a missing or non-numeric value gives 0, not a skip |
| FilterMaps.FilterMap | cloudFn/function/generateHistory24h.go:73-121 | a filter-map never outputs more elements than it reads |
| FilterMaps.KeptIndices | cloudFn/function/generateHistory24h.go:73-121 | the positions of the kept elements: strictly increasing, in range, every one kept, and every kept element is listed |
| History.ReadingsOfSources | cloudFn/function/generateHistory24h.go:73-121 | the output is exactly the order-preserving filter-map. There is one reading per accepted document, so no more readings than documents. The j-th reading is the reading of the j-th accepted document. The accepted positions increase, and every accepted document is among them |
| History.ReadingsAppend | cloudFn/function/generateHistory24h.go:74-121 | the readings of a concatenation are the readings of each part, concatenated; no value is carried from one document to the next |
| History.SkippedDocumentContributesNothing | cloudFn/function/generateHistory24h.go:78-111 | a skipped document, for any reason, leaves the readings of the documents around it unchanged |
| History.EveryAcceptedDocumentKept | cloudFn/function/generateHistory24h.go:63-68 | no time window or count bound applies: the reading of every accepted document appears in the output |
| History.AllAcceptedAllKept | cloudFn/function/generateHistory24h.go:63-121 | when every document is well formed, the output has one reading per document, position by position |
| History.CollectReadings | cloudFn/function/generateHistory24h.go:73-121 | the imperative loop, with a `continue` at each skip and an append per reading, returns exactly `Readings` of its input |
| IsoTimestamp.IndexOfFrom | frontend/scripts.js:4 | the result is an occurrence of the pattern at or after the start position, with none between the start and it; none means the pattern occurs nowhere from the start on |
| IsoTimestamp.ReplaceFirst | frontend/scripts.js:4 | a text without the pattern is returned unchanged; otherwise the result is the text before the first occurrence, then the replacement, then the text after that occurrence |
| IsoTimestamp.IsoString | frontend/scripts.js:2-4 | without " UTC" the timestamp is unchanged. Otherwise the result is the text before the first " UTC", then "Z", then the text after it, and it is exactly 3 characters shorter |
| IsoTimestamp.DocumentedExample | frontend/scripts.js:1-4 | the documented "2025-04-16 19:23:00 UTC" becomes "2025-04-16 19:23:00Z", keeping the space between date and time |
| IsoTimestamp.NoUtcAfterRewrite | frontend/scripts.js:4 | a text holding " UTC" at most once holds none after the rewrite |
| IsoTimestamp.IsoStringIdempotent | frontend/scripts.js:4 | on texts holding " UTC" at most once, rewriting twice equals rewriting once |
| IsoTimestamp.OnlyFirstReplaced | frontend/scripts.js:4 | when " UTC" occurs twice, the later occurrence survives, three positions to the left, so a second rewrite changes the text again |

## Left out

- The Firestore client, the ordered query and `GetAll` (cloudFn/function/generateHistory24h.go:52-72) are network I/O. The documents are an input sequence, taken in the order given.
- The `GCP_PROJECT` check and the error returns of the client calls (cloudFn/function/generateHistory24h.go:52-71, 124-158) belong to that I/O and are not modelled.
- JSON marshalling, the `/tmp` file write and read-back, and the Cloud Storage upload (cloudFn/function/generateHistory24h.go:124-161) are serialisation and I/O.
- Logging, the CloudEvent registration and the trigger (cloudFn/function/generateHistory24h.go:37-48) are side effects and framework glue. The document ID is only used in log messages, so a document is modelled as its field map alone.
- The internals of Go's `time.Parse` are a library call. It is the parameter `parse`, and the model passes it the layout constant of the source.
- `Instant` is nanoseconds since the epoch. The location and the monotonic clock reading that a Go `time.Time` also carries are not modelled.
- History.ToFloat64: the rounding of `float64(int64)` for magnitudes above 2^53 is not modelled, because concentrations are exact `real`s. NaN and infinities are not modelled either.
- A typed nil map (a nil `map[string]interface{}` stored in an interface) passes Go's type assertion. Firestore does not produce one, so `Value` has no such case.
- The JavaScript `Date` constructor, `toLocaleString`, `fetch`, the DOM lookups, the table rows and the error-message toggling (frontend/scripts.js:5, 8-45) are foreign library and UI code.
- `IsoString` takes a string. The TypeError that `replace` throws on a non-string value, such as `undefined`, is not modelled.
- ReplaceFirst models `replace` only for a replacement text without `$` patterns. That is the only case the source uses ("Z").
- cloudFn/main.go is not part of this model. It only reads `PORT` and starts the server.

## Notes

- The back end writes the fields `timestamp`, `pm25` and `pm10` (cloudFn/function/generateHistory24h.go:19-21). It writes the timestamp as an RFC 3339 time, so " UTC" is absent and the rewrite leaves it unchanged (`IsoString`).
- The front end reads `Timestamp`, `PM25` and `PM10` instead (frontend/scripts.js:32, 36-37). Against this back end's output, those reads give `undefined`.
- This mismatch sits at the boundary between the two programs. The model does not state it as a property.
