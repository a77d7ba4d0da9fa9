/** The back end's normalisation step: the loosely typed documents of the
    `air_quality_raw` collection become `AirQualityReading` records
    (cloudFn/function/generateHistory24h.go). Each document is either skipped,
    for one of the reasons in `Skip`, or turned into exactly one reading, and
    the readings keep the order of the documents they come from. */
module History {
  import opened Wrappers
  import opened FilterMaps

  /** Go's `int64`; Go's `int` has the same width on the 64-bit platforms the
      function runs on. */
  newtype int64 = x: int | -0x8000_0000_0000_0000 <= x < 0x8000_0000_0000_0000

  /** An absolute point in time (a Go `time.Time`), as nanoseconds since the
      Unix epoch. */
  datatype Instant = Instant(unixNanos: int)

  /** The dynamic type of a value held in a document (`interface{}` in Go):
      the Go types the code tells apart, a nested map, the nil interface, and
      everything else. */
  datatype Value =
    | Time(t: Instant)
    | Str(s: string)
    | F64(f: real)
    | I64(n: int64)
    | Int(n: int64)
    | Map(m: map<string, Value>)
    | Nil
    | Other

  /** The field map of one document, as `doc.Data()` returns it. */
  type Document = map<string, Value>

  /** Go's `time.Parse(layout, value)`: a library call the model does not look
      into, so it is a parameter; `None` is a parse error. */
  type ParseFn = (string, string) -> Option<Instant>

  /** The layout handed to `time.Parse` for string timestamps. */
  const TimestampLayout: string := "2006-01-02 15:04:05 MST"

  /** `AirQualityReading`: one normalised measurement. */
  datatype Reading = Reading(timestamp: Instant, pm25: real, pm10: real)

  /** Why a document contributes no reading, one case per `continue` of the loop. */
  datatype Skip =
    | TimestampMissing        // the `Timestamp` key is absent or nil
    | TimestampUnparsable     // a string `Timestamp` that `time.Parse` rejects
    | TimestampUnexpectedType // a `Timestamp` that is neither a time nor a string
    | PmInvalid               // `PM` is missing or not a map
    | PpmInvalid              // `PM["PPM"]` is missing or not a map

  /** Go's map index `m[k]` on a `map[string]interface{}`: the nil interface
      when the key is absent. */
  function Index(m: map<string, Value>, k: string): Value
  {
    if k in m then m[k] else Nil
  }

  /** The value under `k` when `v` is a map, nil otherwise: a path step used
      to state contracts. */
  function At(v: Value, k: string): Value
  {
    if v.Map? then Index(v.m, k) else Nil
  }

  /** The dynamic types `toFloat64` converts. */
  predicate IsNumber(v: Value)
  {
    v.F64? || v.I64? || v.Int?
  }

  /** `toFloat64`: a float64 is returned as it is, an int64 or an int is
      converted, and every other value, nil included, gives 0. */
  function ToFloat64(v: Value): (r: real)
    ensures v.F64? ==> r == v.f
    ensures v.I64? || v.Int? ==> r == v.n as int as real
    ensures !IsNumber(v) ==> r == 0.0
  {
    match v
    case F64(f) => f
    case I64(n) => n as int as real
    case Int(n) => n as int as real
    case _ => 0.0
  }

  /** The `Timestamp` field is usable: a time, or a string that parses with
      `TimestampLayout`. */
  predicate StampAccepted(doc: Document, parse: ParseFn)
  {
    var v := Index(doc, "Timestamp");
    v.Time? || (v.Str? && parse(TimestampLayout, v.s).Some?)
  }

  /** A document the loop turns into a reading: a usable timestamp, and a map
      under `PM` holding a map under `PPM`. */
  predicate Accepted(doc: Document, parse: ParseFn)
  {
    && StampAccepted(doc, parse)
    && Index(doc, "PM").Map?
    && At(Index(doc, "PM"), "PPM").Map?
  }

  /** The body of the loop for one document: the reading it yields, or the
      reason it is skipped. The checks run in the order of the source, so the
      reason is the first check that fails. */
  function ToReading(doc: Document, parse: ParseFn): (r: Result<Reading, Skip>)
    ensures r == Err(TimestampMissing) <==> "Timestamp" !in doc || doc["Timestamp"] == Nil
    ensures r == Err(TimestampUnparsable) <==>
              Index(doc, "Timestamp").Str? && parse(TimestampLayout, Index(doc, "Timestamp").s).None?
    ensures r == Err(TimestampUnexpectedType) <==>
              !(Index(doc, "Timestamp").Nil? || Index(doc, "Timestamp").Time? || Index(doc, "Timestamp").Str?)
    ensures r == Err(PmInvalid) <==> StampAccepted(doc, parse) && !Index(doc, "PM").Map?
    ensures r == Err(PpmInvalid) <==>
              StampAccepted(doc, parse) && Index(doc, "PM").Map? && !At(Index(doc, "PM"), "PPM").Map?
    ensures r.Ok? <==> Accepted(doc, parse)
    // a time.Time is used as it is, a string as time.Parse reads it
    ensures r.Ok? && Index(doc, "Timestamp").Time? ==> r.value.timestamp == Index(doc, "Timestamp").t
    ensures r.Ok? && Index(doc, "Timestamp").Str? ==>
              parse(TimestampLayout, Index(doc, "Timestamp").s) == Some(r.value.timestamp)
    // the two concentrations come from PM["PPM"] of this same document
    ensures r.Ok? ==> r.value.pm25 == ToFloat64(At(At(Index(doc, "PM"), "PPM"), "25"))
    ensures r.Ok? ==> r.value.pm10 == ToFloat64(At(At(Index(doc, "PM"), "PPM"), "10"))
  {
    if "Timestamp" !in doc || doc["Timestamp"] == Nil then Err(TimestampMissing)
    else
      var stamp: Result<Instant, Skip> :=
        match doc["Timestamp"]
        case Time(t) => Ok(t)
        case Str(s) => (match parse(TimestampLayout, s)
                        case Some(t) => Ok(t)
                        case None => Err(TimestampUnparsable))
        case _ => Err(TimestampUnexpectedType);
      if stamp.Err? then Err(stamp.error)
      else
        var pmData := Index(doc, "PM");
        if !pmData.Map? then Err(PmInvalid)
        else
          var ppm := Index(pmData.m, "PPM");
          if !ppm.Map? then Err(PpmInvalid)
          else Ok(Reading(stamp.value, ToFloat64(Index(ppm.m, "25")), ToFloat64(Index(ppm.m, "10"))))
  }

  /** `ToReading` as a step of the filter-map: the reading, or nothing. */
  function Extract(parse: ParseFn): Document -> Option<Reading>
  {
    (doc: Document) =>
      match ToReading(doc, parse)
      case Ok(r) => Some(r)
      case Err(_) => None
  }

  /** The readings the loop collects from `docs`: the filter-map of
      `ToReading` over the documents, in their order, with no cap on the count. */
  function Readings(docs: seq<Document>, parse: ParseFn): seq<Reading>
  {
    FilterMap(docs, Extract(parse))
  }

  /** The positions of the documents `ToReading` accepts, in increasing order. */
  function Sources(docs: seq<Document>, parse: ParseFn): seq<nat>
  {
    KeptIndices(docs, Extract(parse))
  }

  /** The output is exactly the order-preserving filter-map of the documents:
      one reading per accepted document, each the reading of its own document,
      in the order of the documents, and so no more readings than documents. */
  lemma ReadingsOfSources(docs: seq<Document>, parse: ParseFn)
    ensures |Readings(docs, parse)| == |Sources(docs, parse)| <= |docs|
    ensures forall j :: 0 <= j < |Sources(docs, parse)| ==>
              Sources(docs, parse)[j] < |docs| &&
              ToReading(docs[Sources(docs, parse)[j]], parse) == Ok(Readings(docs, parse)[j])
    ensures forall j, k :: 0 <= j < k < |Sources(docs, parse)| ==> Sources(docs, parse)[j] < Sources(docs, parse)[k]
    ensures forall i :: 0 <= i < |docs| && ToReading(docs[i], parse).Ok? ==> i in Sources(docs, parse)
  {
    FilterMapOfKept(docs, Extract(parse));
    var ix := Sources(docs, parse);
    forall j | 0 <= j < |ix|
      ensures ToReading(docs[ix[j]], parse) == Ok(Readings(docs, parse)[j])
    {
      assert Extract(parse)(docs[ix[j]]) == Some(Readings(docs, parse)[j]);
    }
    forall i | 0 <= i < |docs| && ToReading(docs[i], parse).Ok?
      ensures i in ix
    {
      assert Extract(parse)(docs[i]).Some?;
    }
  }

  /** Collecting readings distributes over concatenation of the input: each
      document is handled on its own, with no state carried between them. */
  lemma ReadingsAppend(a: seq<Document>, b: seq<Document>, parse: ParseFn)
    ensures Readings(a + b, parse) == Readings(a, parse) + Readings(b, parse)
  {
    FilterMapAppend(a, b, Extract(parse));
  }

  /** A document that is skipped, for whatever reason, leaves no trace in the
      output: the readings of the documents around it are unchanged. */
  lemma SkippedDocumentContributesNothing(pre: seq<Document>, doc: Document, post: seq<Document>, parse: ParseFn)
    requires ToReading(doc, parse).Err?
    ensures Readings(pre + [doc] + post, parse) == Readings(pre, parse) + Readings(post, parse)
  {
    assert Readings([doc], parse) == [] by {
      assert [doc][..0] == [];
      assert Extract(parse)(doc) == None;
    }
    ReadingsAppend(pre, [doc], parse);
    ReadingsAppend(pre + [doc], post, parse);
  }

  /** No time window and no count bound: every accepted document, however old
      its timestamp, has its reading in the output. */
  lemma EveryAcceptedDocumentKept(docs: seq<Document>, parse: ParseFn, i: nat)
    requires i < |docs| && ToReading(docs[i], parse).Ok?
    ensures ToReading(docs[i], parse).value in Readings(docs, parse)
  {
    ReadingsOfSources(docs, parse);
    var ix := Sources(docs, parse);
    var j :| 0 <= j < |ix| && ix[j] == i;
    assert Readings(docs, parse)[j] == ToReading(docs[i], parse).value;
  }

  /** When every document is well formed, the output has one reading per
      document, position by position. */
  lemma AllAcceptedAllKept(docs: seq<Document>, parse: ParseFn)
    requires forall i :: 0 <= i < |docs| ==> Accepted(docs[i], parse)
    ensures |Readings(docs, parse)| == |docs|
    ensures forall i :: 0 <= i < |docs| ==> Ok(Readings(docs, parse)[i]) == ToReading(docs[i], parse)
  {
    forall i | 0 <= i < |docs|
      ensures Extract(parse)(docs[i]).Some?
    {
      assert ToReading(docs[i], parse).Ok?;
    }
    FilterMapAllKept(docs, Extract(parse));
    forall i | 0 <= i < |docs|
      ensures Ok(Readings(docs, parse)[i]) == ToReading(docs[i], parse)
    {
      assert Some(Readings(docs, parse)[i]) == Extract(parse)(docs[i]);
    }
  }

  /** The extraction loop of `GenerateHistory24h`: walks the documents in
      order, skips with `continue` at the first failing check, and appends one
      reading per remaining document. */
  method CollectReadings(docs: seq<Document>, parse: ParseFn) returns (readings: seq<Reading>)
    ensures readings == Readings(docs, parse)
  {
    readings := [];
    for i := 0 to |docs|
      invariant readings == Readings(docs[..i], parse)
    {
      assert docs[..i + 1][..i] == docs[..i];
      var data := docs[i];

      if "Timestamp" !in data || data["Timestamp"] == Nil {
        continue;
      }

      var timestamp: Instant;
      match data["Timestamp"] {
        case Time(v) =>
          timestamp := v;
        case Str(v) =>
          var t := parse(TimestampLayout, v);
          if t.None? {
            continue;
          }
          timestamp := t.value;
        case _ =>
          continue;
      }

      var pmData := Index(data, "PM");
      if !pmData.Map? {
        continue;
      }

      var ppm := Index(pmData.m, "PPM");
      if !ppm.Map? {
        continue;
      }

      var pm25 := ToFloat64(Index(ppm.m, "25"));
      var pm10 := ToFloat64(Index(ppm.m, "10"));
      readings := readings + [Reading(timestamp, pm25, pm10)];
    }
    assert docs[..|docs|] == docs;
  }
}
