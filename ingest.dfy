/**
 * The per-city loop of `main`: fetch each configured city, normalise the
 * response, backfill missing coordinates from the configuration, and keep
 * going when one city fails.
 */
module Ingest {
  import opened Wrappers
  import opened Payload
  import opened Aqi
  import opened Cities
  import opened Normalize

  /**
   * What the HTTP call for one city gave: the decoded body and the URL it
   * was fetched from, or an exception (network error, HTTP error status,
   * undecodable body).
   */
  datatype FetchOutcome = Fetched(payload: Json, url: string) | FetchFailed

  /**
   * `pd.notna(v)` used as a condition: the negation of `pd.isna(v)`,
   * element by element on a list, so it raises where `NATruth` does.
   */
  function NotNA(v: Json): Result<bool, Raised> {
    match NATruth(v)
    case Ok(na) => Ok(!na)
    case Err(e) => Err(e)
  }

  /** A missing coordinate is replaced by the configured one. */
  function Backfilled(v: Json, configured: Float): Result<Json, Raised> {
    match NotNA(v)
    case Err(e) => Err(e)
    case Ok(present) => Ok(if present then v else JNum(configured))
  }

  /** The row one city adds to `records`: none when anything in its `try` raised or the status was not "ok". */
  function CityRows(t: Target, o: FetchOutcome, ps: Parsers): seq<Row> {
    if o.FetchFailed? then []
    else
      match Normalized(o.payload, t.name, ps)
      case Ok(Some(row)) =>
        (match (Backfilled(row.lat, t.lat), Backfilled(row.lon, t.lon))
         case (Ok(lat), Ok(lon)) => [row.(lat := lat, lon := lon)]
         case _ => [])
      case _ => []
  }

  /** The URL one city adds to `urls`: it is recorded as soon as the fetch succeeds. */
  function CityUrls(o: FetchOutcome): seq<string> {
    if o.Fetched? then [o.url] else []
  }

  /** The records gathered over the cities in configuration order. */
  function Batch(ts: seq<Target>, os: seq<FetchOutcome>, ps: Parsers): seq<Row>
    requires |ts| == |os|
  {
    if ts == [] then []
    else Batch(ts[..|ts| - 1], os[..|os| - 1], ps) + CityRows(ts[|ts| - 1], os[|os| - 1], ps)
  }

  /** The URLs gathered over the cities in configuration order. */
  function Urls(os: seq<FetchOutcome>): seq<string> {
    if os == [] then [] else Urls(os[..|os| - 1]) + CityUrls(os[|os| - 1])
  }

  /**
   * The loop of `main`: `outcomes[i]` is what fetching `targets[i]` gave.
   * An exception anywhere in a city's `try` block is caught and the loop
   * moves on to the next city.
   */
  method Collect(targets: seq<Target>, outcomes: seq<FetchOutcome>, ps: Parsers)
    returns (records: seq<Row>, urls: seq<string>)
    requires |outcomes| == |targets|
    ensures records == Batch(targets, outcomes, ps)
    ensures urls == Urls(outcomes)
  {
    records, urls := [], [];
    for i := 0 to |targets|
      invariant records == Batch(targets[..i], outcomes[..i], ps)
      invariant urls == Urls(outcomes[..i])
    {
      BatchStep(targets, outcomes, i, ps);
      var t, o := targets[i], outcomes[i];
      if o.Fetched? {
        urls := urls + [o.url];
        var rec := NormalizeRecord(o.payload, t.name, ps);
        if rec.Ok? && rec.value.Some? {
          var row := rec.value.value;
          var lat := Backfilled(row.lat, t.lat);
          if lat.Ok? {
            row := row.(lat := lat.value);
            var lon := Backfilled(row.lon, t.lon);
            if lon.Ok? {
              row := row.(lon := lon.value);
              records := records + [row];
            }
          }
        }
      }
    }
    assert targets[..|targets|] == targets;
    assert outcomes[..|outcomes|] == outcomes;
  }

  /** Gathering over one more city adds that city's row and URL. */
  lemma BatchStep(ts: seq<Target>, os: seq<FetchOutcome>, i: nat, ps: Parsers)
    requires |ts| == |os| && i < |ts|
    ensures Batch(ts[..i + 1], os[..i + 1], ps) == Batch(ts[..i], os[..i], ps) + CityRows(ts[i], os[i], ps)
    ensures Urls(os[..i + 1]) == Urls(os[..i]) + CityUrls(os[i])
  {
    assert ts[..i + 1][..i] == ts[..i];
    assert os[..i + 1][..i] == os[..i];
  }

  /** Gathering over two runs of cities is gathering over each and concatenating. */
  lemma {:induction false} BatchAppend(ts: seq<Target>, os: seq<FetchOutcome>, ts': seq<Target>, os': seq<FetchOutcome>, ps: Parsers)
    requires |ts| == |os| && |ts'| == |os'|
    ensures Batch(ts + ts', os + os', ps) == Batch(ts, os, ps) + Batch(ts', os', ps)
    decreases |ts'|
  {
    if ts' != [] {
      var n := |ts'| - 1;
      assert (ts + ts')[..|ts + ts'| - 1] == ts + ts'[..n];
      assert (os + os')[..|os + os'| - 1] == os + os'[..n];
      BatchAppend(ts, os, ts'[..n], os'[..n], ps);
    } else {
      assert ts + ts' == ts && os + os' == os;
    }
  }

  /**
   * One city's failure is isolated: whatever city `i`'s fetch gives, the
   * batch is the other cities' rows around city `i`'s own contribution.
   */
  lemma CityIsolation(ts: seq<Target>, os: seq<FetchOutcome>, i: nat, o: FetchOutcome, ps: Parsers)
    requires |ts| == |os| && i < |ts|
    ensures Batch(ts, os[i := o], ps)
         == Batch(ts[..i], os[..i], ps) + CityRows(ts[i], o, ps) + Batch(ts[i + 1..], os[i + 1..], ps)
  {
    var os2 := os[i := o];
    assert ts == ts[..i] + [ts[i]] + ts[i + 1..];
    assert os2 == os[..i] + [o] + os[i + 1..];
    BatchAppend(ts[..i], os[..i], [ts[i]], [o], ps);
    BatchAppend(ts[..i] + [ts[i]], os[..i] + [o], ts[i + 1..], os[i + 1..], ps);
    assert Batch([ts[i]], [o], ps) == CityRows(ts[i], o, ps) by {
      assert [ts[i]][..0] == [];
    }
  }

  /** A city whose fetch failed adds neither a row nor a URL. */
  lemma FailedFetchAddsNothing(t: Target, ps: Parsers)
    ensures CityRows(t, FetchFailed, ps) == [] && CityUrls(FetchFailed) == []
  {
  }

  /** Each city adds at most one row, and only a city whose URL was recorded adds one. */
  lemma {:induction false} AtMostOneRowPerFetch(ts: seq<Target>, os: seq<FetchOutcome>, ps: Parsers)
    requires |ts| == |os|
    ensures |Batch(ts, os, ps)| <= |Urls(os)| <= |ts|
  {
    if ts != [] {
      AtMostOneRowPerFetch(ts[..|ts| - 1], os[..|os| - 1], ps);
    }
  }

  /** Every fetched city leaves its URL, whether or not it yields a row, and every URL recorded is that of a fetched city. */
  lemma {:induction false} UrlsOfFetched(os: seq<FetchOutcome>)
    ensures forall i | 0 <= i < |os| && os[i].Fetched? :: os[i].url in Urls(os)
    ensures forall u | u in Urls(os) :: exists i | 0 <= i < |os| :: os[i].Fetched? && os[i].url == u
  {
    if os != [] {
      var n := |os| - 1;
      UrlsOfFetched(os[..n]);
      forall u | u in Urls(os) ensures exists i | 0 <= i < |os| :: os[i].Fetched? && os[i].url == u {
        if u in Urls(os[..n]) {
          var i :| 0 <= i < n && os[..n][i].Fetched? && os[..n][i].url == u;
          assert os[i] == os[..n][i];
        } else {
          assert os[n].Fetched? && os[n].url == u;
        }
      }
      forall i | 0 <= i < |os| && os[i].Fetched? ensures os[i].url in Urls(os) {
        if i < n {
          assert os[i] == os[..n][i];
        }
      }
    }
  }

  /**
   * After the backfill a coordinate is missing only when the configured one
   * is itself NaN; a station without `geo` gets the configured coordinates.
   */
  lemma CityRowCoordinates(t: Target, o: FetchOutcome, ps: Parsers)
    ensures forall row | row in CityRows(t, o, ps) ::
      && (IsNA(row.lat) ==> row.lat == JNum(NaN) && t.lat == NaN)
      && (IsNA(row.lon) ==> row.lon == JNum(NaN) && t.lon == NaN)
    ensures o.Fetched? && o.payload.JObj? && "data" in o.payload.fields && o.payload.fields["data"].JObj? ==>
      var cinfo := OrEmpty(Get(o.payload.fields["data"], "city"));
      cinfo.JObj? && "geo" !in cinfo.fields ==>
      forall row | row in CityRows(t, o, ps) :: row.lat == JNum(t.lat) && row.lon == JNum(t.lon)
  {
  }

  /** No configured coordinate is NaN. */
  predicate ConfiguredCoordinates(ts: seq<Target>) {
    forall i | 0 <= i < |ts| :: ts[i].lat != NaN && ts[i].lon != NaN
  }

  /** When the configuration gives real coordinates, no gathered row lacks them. */
  lemma {:induction false} NoMissingCoordinates(ts: seq<Target>, os: seq<FetchOutcome>, ps: Parsers)
    requires |ts| == |os| && ConfiguredCoordinates(ts)
    ensures forall row | row in Batch(ts, os, ps) :: !IsNA(row.lat) && !IsNA(row.lon)
  {
    if ts != [] {
      var n := |ts| - 1;
      assert ConfiguredCoordinates(ts[..n]) by {
        forall i | 0 <= i < n ensures ts[..n][i] == ts[i] { }
      }
      NoMissingCoordinates(ts[..n], os[..n], ps);
      CityRowCoordinates(ts[n], os[n], ps);
    }
  }

  /** Every gathered row carries the category and range `aqi_band` gives for its own `aqi`. */
  lemma {:induction false} BatchCategories(ts: seq<Target>, os: seq<FetchOutcome>, ps: Parsers)
    requires |ts| == |os|
    ensures forall row | row in Batch(ts, os, ps) ::
      AqiBand(row.aqi, ps).Ok? && Labels(AqiBand(row.aqi, ps).value) == (row.aqiCategory, row.aqiRange)
  {
    if ts != [] {
      var n := |ts| - 1;
      BatchCategories(ts[..n], os[..n], ps);
      var o := os[n];
      if o.Fetched? && Normalized(o.payload, ts[n].name, ps).Ok? && Normalized(o.payload, ts[n].name, ps).value.Some? {
        CategoryFollowsAqi(o.payload, ts[n].name, ps);
      }
    }
  }
}
