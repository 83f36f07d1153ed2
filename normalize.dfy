/**
 * `normalize_record`: one WAQI response becomes one flat row with fixed
 * columns, or nothing when the response's status is not "ok".
 */
module Normalize {
  import opened Wrappers
  import opened Payload
  import opened Aqi

  /** The pollutant codes kept as columns, in column order. */
  const Codes: seq<string> := ["pm25", "pm10", "o3", "no2", "so2", "co", "nh3"]

  /** One row of the snapshot and of the log; the fields are the columns. */
  datatype Row = Row(
    city: Json,
    aqi: Json,
    observedAtUtc: Instant,
    lat: Json,
    lon: Json,
    stationName: Json,
    dominentpol: Json,
    pollutants: map<string, Json>,
    aqiCategory: string,
    aqiRange: string)

  /** The sub-index value `v` of every `iaqi` entry that is a dict; other entries are ignored. */
  function SubIndices(iaqi: map<string, Json>): map<string, Json> {
    map k | k in iaqi && iaqi[k].JObj? :: Get(iaqi[k], "v")
  }

  /** The sub-index of `key`, or `None` when the payload has none. */
  function Lookup(p: map<string, Json>, key: string): Json {
    if key in p then p[key] else JNull
  }

  /** The columns written for each of `keys` in turn, each holding that key's sub-index. */
  function Columns(p: map<string, Json>, keys: seq<string>): map<string, Json> {
    if keys == [] then map[]
    else Columns(p, keys[..|keys| - 1])[keys[|keys| - 1] := Lookup(p, keys[|keys| - 1])]
  }

  /** There is one column per key written, holding that key's sub-index or `None`. */
  lemma {:induction false} ColumnsSpec(p: map<string, Json>, keys: seq<string>)
    ensures Columns(p, keys).Keys == set k | k in keys
    ensures forall k | k in keys :: Columns(p, keys)[k] == Lookup(p, k)
  {
    if keys != [] {
      var n := |keys| - 1;
      ColumnsSpec(p, keys[..n]);
      assert keys == keys[..n] + [keys[n]];
    }
  }

  /** The pollutant columns: one per code, whatever else the payload reports. */
  function Flatten(p: map<string, Json>): map<string, Json> {
    Columns(p, Codes)
  }

  /** Station coordinates are read only from a two-element `geo` list. */
  function Coordinates(cinfo: map<string, Json>): (Json, Json) {
    if "geo" in cinfo && cinfo["geo"].JArr? && |cinfo["geo"].items| == 2
    then (cinfo["geo"].items[0], cinfo["geo"].items[1])
    else (JNull, JNull)
  }

  /** The city column: the configured name unless it is empty, and then the station name. */
  function CityOf(cityLabel: string, cinfo: Json): Json
    requires cinfo.JObj?
  {
    if cityLabel != [] then JStr(cityLabel) else Get(cinfo, "name")
  }

  /**
   * What `normalize_record(j, cityLabel)` returns or raises. A non-dict
   * payload and a missing or non-dict `data` raise; a status other than
   * "ok" drops the record.
   */
  function Normalized(j: Json, cityLabel: string, ps: Parsers): Result<Option<Row>, Raised> {
    if !j.JObj? then Err(Raised)
    else if Get(j, "status") != JStr("ok") then Ok(None)
    else if "data" !in j.fields || !j.fields["data"].JObj? then Err(Raised)
    else FromData(j.fields["data"], cityLabel, ps)
  }

  /**
   * The row built from the `data` object. A truthy non-dict `iaqi`, `time`
   * or `city` raises, and so do the timestamp parser and `aqi_band` when
   * they raise.
   */
  function FromData(d: Json, cityLabel: string, ps: Parsers): Result<Option<Row>, Raised>
    requires d.JObj?
  {
    var iaqi := OrEmpty(Get(d, "iaqi"));
    var t := OrEmpty(Get(d, "time"));
    var cinfo := OrEmpty(Get(d, "city"));
    if !iaqi.JObj? || !t.JObj? || !cinfo.JObj? then Err(Raised)
    else
      match (ps.toInstant(Get(t, "s")), AqiBand(Get(d, "aqi"), ps))
      case (Some(observed), Ok(band)) =>
        var (lat, lon) := Coordinates(cinfo.fields);
        Ok(Some(Row(CityOf(cityLabel, cinfo), Get(d, "aqi"), observed, lat, lon,
                    Get(cinfo, "name"), Get(d, "dominentpol"),
                    Flatten(SubIndices(iaqi.fields)), band.Category(), band.Range())))
      case _ => Err(Raised)
  }

  /** The pollutant loop of `normalize_record`: one column per code. */
  method FlattenPollutants(row: Row, p: map<string, Json>) returns (r: Row)
    requires row.pollutants == map[]
    ensures r == row.(pollutants := Flatten(p))
  {
    r := row;
    for i := 0 to |Codes|
      invariant r == row.(pollutants := Columns(p, Codes[..i]))
    {
      assert Codes[..i + 1][..i] == Codes[..i];
      r := r.(pollutants := r.pollutants[Codes[i] := Lookup(p, Codes[i])]);
    }
    assert Codes[..|Codes|] == Codes;
  }

  /**
   * `normalize_record`, building the row and then filling in the pollutant
   * columns one code at a time and stamping the category.
   */
  method NormalizeRecord(j: Json, cityLabel: string, ps: Parsers) returns (r: Result<Option<Row>, Raised>)
    ensures r == Normalized(j, cityLabel, ps)
  {
    if !j.JObj? {
      return Err(Raised);
    }
    if Get(j, "status") != JStr("ok") {
      return Ok(None);
    }
    if "data" !in j.fields {
      return Err(Raised);
    }
    var d := j.fields["data"];
    if !d.JObj? {
      return Err(Raised);
    }
    assert Normalized(j, cityLabel, ps) == FromData(d, cityLabel, ps);
    var iaqi := OrEmpty(Get(d, "iaqi"));
    if !iaqi.JObj? {
      return Err(Raised);
    }
    var p := SubIndices(iaqi.fields);
    var t := OrEmpty(Get(d, "time"));
    if !t.JObj? {
      return Err(Raised);
    }
    var observed := ps.toInstant(Get(t, "s"));
    if observed.None? {
      return Err(Raised);
    }
    var cinfo := OrEmpty(Get(d, "city"));
    if !cinfo.JObj? {
      return Err(Raised);
    }
    var lat, lon := JNull, JNull;
    if "geo" in cinfo.fields && cinfo.fields["geo"].JArr? && |cinfo.fields["geo"].items| == 2 {
      lat, lon := cinfo.fields["geo"].items[0], cinfo.fields["geo"].items[1];
    }
    var row := Row(CityOf(cityLabel, cinfo), Get(d, "aqi"), observed.value, lat, lon,
                   Get(cinfo, "name"), Get(d, "dominentpol"), map[], "", "");
    row := FlattenPollutants(row, p);
    var band := AqiBand(row.aqi, ps);
    if band.Err? {
      return Err(Raised);
    }
    row := row.(aqiCategory := band.value.Category(), aqiRange := band.value.Range());
    r := Ok(Some(row));
  }

  /** The record is dropped exactly when the payload is a dict whose status is not "ok". */
  lemma DroppedIffNotOk(j: Json, cityLabel: string, ps: Parsers)
    ensures Normalized(j, cityLabel, ps) == Ok(None) <==> j.JObj? && Get(j, "status") != JStr("ok")
  {
  }

  /**
   * The category columns are those `aqi_band` gives for the row's own
   * `aqi`: they are never set independently.
   */
  lemma CategoryFollowsAqi(j: Json, cityLabel: string, ps: Parsers)
    requires Normalized(j, cityLabel, ps).Ok? && Normalized(j, cityLabel, ps).value.Some?
    ensures var row := Normalized(j, cityLabel, ps).value.value;
      && AqiBand(row.aqi, ps).Ok?
      && row.aqiCategory == AqiBand(row.aqi, ps).value.Category()
      && row.aqiRange == AqiBand(row.aqi, ps).value.Range()
  {
  }

  /**
   * The pollutant columns are exactly the seven codes; each holds the
   * `"v"` of a dict-valued `iaqi` entry, and `None` when the entry is
   * absent or not a dict.
   */
  lemma PollutantColumns(j: Json, cityLabel: string, ps: Parsers)
    requires Normalized(j, cityLabel, ps).Ok? && Normalized(j, cityLabel, ps).value.Some?
    ensures j.JObj? && "data" in j.fields && j.fields["data"].JObj?
    ensures var row := Normalized(j, cityLabel, ps).value.value;
      var iaqi := OrEmpty(Get(j.fields["data"], "iaqi"));
      && iaqi.JObj?
      && row.pollutants.Keys == set k | k in Codes
      && forall k | k in Codes ::
           k in row.pollutants && row.pollutants[k] == if k in iaqi.fields && iaqi.fields[k].JObj?
                                then Get(iaqi.fields[k], "v") else JNull
  {
    var d := j.fields["data"];
    ColumnsSpec(SubIndices(OrEmpty(Get(d, "iaqi")).fields), Codes);
  }

  /**
   * Station coordinates come from `city.geo` only when it is a list of
   * exactly two elements; otherwise both are `None`. The city is the
   * configured cityLabel unless that is empty, and then the station name.
   */
  lemma CoordinatesAndCity(j: Json, cityLabel: string, ps: Parsers)
    requires Normalized(j, cityLabel, ps).Ok? && Normalized(j, cityLabel, ps).value.Some?
    ensures j.JObj? && "data" in j.fields && j.fields["data"].JObj?
    ensures var row := Normalized(j, cityLabel, ps).value.value;
      var cinfo := OrEmpty(Get(j.fields["data"], "city"));
      && cinfo.JObj?
      && row.stationName == Get(cinfo, "name")
      && row.city == (if cityLabel != [] then JStr(cityLabel) else Get(cinfo, "name"))
      && (var geo := Get(cinfo, "geo");
          (row.lat, row.lon) == if geo.JArr? && |geo.items| == 2 then (geo.items[0], geo.items[1])
                                else (JNull, JNull))
  {
  }
}
