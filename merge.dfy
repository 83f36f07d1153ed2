/**
 * The end of `main`: the snapshot of this run, the log merged with it and
 * de-duplicated by city and observation time, and the provenance file
 * listing the endpoints hit.
 */
module LogMerge {
  import opened Wrappers
  import opened Text
  import opened Sequences
  import opened Payload
  import opened Normalize

  /** The de-duplication key: the city and the observation time. */
  datatype Key = Key(city: Json, observedAtUtc: Instant)

  function KeyOf(row: Row): Key {
    Key(row.city, row.observedAtUtc)
  }

  function KeysOf(rows: seq<Row>): seq<Key> {
    seq(|rows|, i requires 0 <= i < |rows| => KeyOf(rows[i]))
  }

  /** The keys of a concatenation are the concatenated keys. */
  lemma KeysOfAppend(a: seq<Row>, b: seq<Row>)
    ensures KeysOf(a + b) == KeysOf(a) + KeysOf(b)
  {
  }

  /** The keys of a non-empty sequence of rows end with the key of its last row. */
  lemma KeysOfFrontLast(rows: seq<Row>)
    requires rows != []
    ensures KeysOf(rows) == KeysOf(rows[..|rows| - 1]) + [KeyOf(rows[|rows| - 1])]
  {
    FrontLast(rows);
    KeysOfAppend(rows[..|rows| - 1], [rows[|rows| - 1]]);
  }

  /**
   * pandas' `drop_duplicates` on the key columns with its default of
   * keeping the first row: a row is kept unless an earlier row has its key.
   * Keys compare structurally: NaT equals NaT and a null city equals a null
   * city, as in pandas; a null city and a NaN city stay distinct here.
   */
  function DropDuplicates(rows: seq<Row>): seq<Row> {
    if rows == [] then []
    else
      var d := DropDuplicates(rows[..|rows| - 1]);
      var row := rows[|rows| - 1];
      if KeyOf(row) in KeysOf(d) then d else d + [row]
  }

  /** The keys left are the distinct keys of the input, in order of first occurrence. */
  lemma {:induction false} DropDuplicatesKeys(rows: seq<Row>)
    ensures KeysOf(DropDuplicates(rows)) == Distinct(KeysOf(rows))
  {
    if rows != [] {
      var n := |rows| - 1;
      var row := rows[n];
      DropDuplicatesKeys(rows[..n]);
      var d := DropDuplicates(rows[..n]);
      KeysOfFrontLast(rows);
      DistinctSnoc(KeysOf(rows[..n]), KeyOf(row));
      KeysOfAppend(d, [row]);
    }
  }

  /** Every row kept is the first row of the input with its key. */
  lemma {:induction false} KeptRowsAreFirst(rows: seq<Row>)
    ensures forall row | row in DropDuplicates(rows) ::
      KeyOf(row) in KeysOf(rows) && row == rows[FirstIndex(KeysOf(rows), KeyOf(row))]
  {
    if rows != [] {
      var n := |rows| - 1;
      var last := rows[n];
      KeptRowsAreFirst(rows[..n]);
      DropDuplicatesKeys(rows[..n]);
      KeysOfFrontLast(rows);
      forall row | row in DropDuplicates(rows)
        ensures KeyOf(row) in KeysOf(rows) && row == rows[FirstIndex(KeysOf(rows), KeyOf(row))]
      {
        if row in DropDuplicates(rows[..n]) {
          FirstIndexPrefix(KeysOf(rows[..n]), [KeyOf(last)], KeyOf(row));
        } else {
          assert row == last && KeyOf(last) !in KeysOf(rows[..n]);
          assert KeysOf(rows)[n] == KeyOf(last);
        }
      }
    }
  }

  /** Rows whose keys are already unique are left as they are. */
  lemma {:induction false} UniqueUnchanged(rows: seq<Row>)
    requires NoDups(KeysOf(rows))
    ensures DropDuplicates(rows) == rows
  {
    if rows != [] {
      var n := |rows| - 1;
      var init := rows[..n];
      var ks := KeysOf(rows);
      assert KeysOf(init) == ks[..n];
      NoDupsPrefix(ks, n);
      UniqueUnchanged(init);
      assert KeyOf(rows[n]) !in KeysOf(DropDuplicates(init)) by {
        assert ks[n] == KeyOf(rows[n]);
      }
      FrontLast(rows);
    }
  }

  /** The rows kept from a prefix of the input are a prefix of the rows kept from all of it. */
  lemma {:induction false} DropDuplicatesPrefix(rows: seq<Row>, k: nat)
    requires k <= |rows|
    ensures DropDuplicates(rows[..k]) <= DropDuplicates(rows)
    decreases |rows| - k
  {
    if k < |rows| {
      var n := |rows| - 1;
      assert rows[..n][..k] == rows[..k];
      DropDuplicatesPrefix(rows[..n], k);
    } else {
      assert rows[..k] == rows;
    }
  }

  /** Appending rows whose keys are all present already changes nothing. */
  lemma {:induction false} DropCovered(xs: seq<Row>, ys: seq<Row>)
    requires forall k | 0 <= k < |ys| :: KeyOf(ys[k]) in KeysOf(xs)
    ensures DropDuplicates(xs + ys) == DropDuplicates(xs)
  {
    if ys != [] {
      var n := |ys| - 1;
      assert (xs + ys)[..|xs + ys| - 1] == xs + ys[..n];
      DropCovered(xs, ys[..n]);
      DropDuplicatesKeys(xs);
      assert KeyOf(ys[n]) in KeysOf(DropDuplicates(xs));
    } else {
      assert xs + ys == xs;
    }
  }

  /**
   * The batch with its category columns converted to text before the merge;
   * the two label columns are text already, and `str` leaves a string as it
   * is, so only a `dominentpol` that is not text changes.
   */
  function Stringified(batch: seq<Row>, ps: Parsers): (r: seq<Row>)
    ensures KeysOf(r) == KeysOf(batch)
    ensures forall i | 0 <= i < |batch| ::
      r[i].dominentpol.JStr? && r[i] == batch[i].(dominentpol := r[i].dominentpol)
    ensures forall i | 0 <= i < |batch| && batch[i].dominentpol.JStr? :: r[i] == batch[i]
  {
    seq(|batch|, i requires 0 <= i < |batch| => batch[i].(dominentpol := AsText(batch[i].dominentpol, ps)))
  }

  /** `str(v)` on one cell. */
  function AsText(v: Json, ps: Parsers): Json {
    if v.JStr? then v else JStr(ps.toText(v))
  }

  /**
   * The log after the run, as the code stands: with no log file the batch is
   * written as it is; with one, the old rows and the batch are merged.
   * A frame built from no rows has no columns, which raises in two places.
   * A log file written from one has no columns either, so reading it back
   * with `observed_at_utc` as a date column raises. An empty batch has no
   * category columns to select, which raises KeyError.
   */
  function NextLogAsWritten(log: Option<seq<Row>>, batch: seq<Row>, ps: Parsers): Result<seq<Row>, Raised> {
    if log.None? then Ok(batch)
    else if log.value == [] || batch == [] then Err(Raised)
    else Ok(DropDuplicates(log.value + Stringified(batch, ps)))
  }

  /** The log after the run, merging an empty batch like any other. */
  function NextLog(log: Option<seq<Row>>, batch: seq<Row>, ps: Parsers): seq<Row> {
    if log.None? then batch
    else DropDuplicates(log.value + Stringified(batch, ps))
  }

  /** With an existing log, a run that gathered no rows raises before the log and the provenance are written. */
  lemma EmptyBatchRaises(prior: seq<Row>, ps: Parsers)
    ensures NextLogAsWritten(Some(prior), [], ps) == Err(Raised)
  {
  }

  /** Merged as intended, an empty batch leaves a log with unique keys as it is. */
  lemma EmptyBatchKeepsLog(prior: seq<Row>, ps: Parsers)
    requires NoDups(KeysOf(prior))
    ensures NextLog(Some(prior), [], ps) == prior
  {
    assert prior + Stringified([], ps) == prior;
    UniqueUnchanged(prior);
  }

  /**
   * A first run that gathers no rows writes a log with no columns, and from
   * then on every run raises reading it back, whatever it gathered.
   */
  lemma EmptyLogRaises(batch: seq<Row>, ps: Parsers)
    ensures NextLogAsWritten(None, [], ps) == Ok([])
    ensures NextLogAsWritten(Some([]), batch, ps) == Err(Raised)
  {
  }

  /** Merged as intended, a log with no rows takes the batch, converted to text, once it has unique keys. */
  lemma EmptyLogTakesBatch(batch: seq<Row>, ps: Parsers)
    requires NoDups(KeysOf(batch))
    ensures NextLog(Some([]), batch, ps) == Stringified(batch, ps)
  {
    var sb := Stringified(batch, ps);
    assert [] + sb == sb;
    assert KeysOf(sb) == KeysOf(batch);
    UniqueUnchanged(sb);
  }

  /** Everywhere else the two agree. */
  lemma AsWrittenAgrees(log: Option<seq<Row>>, batch: seq<Row>, ps: Parsers)
    requires log.None? || (log.value != [] && batch != [])
    ensures NextLogAsWritten(log, batch, ps) == Ok(NextLog(log, batch, ps))
  {
  }

  /**
   * A merged log has one row per city and observation time, loses no key of
   * the old log or of the batch, and keeps for each key the first row with
   * it, so an old row is never replaced by a new one.
   */
  lemma MergedLog(prior: seq<Row>, batch: seq<Row>, ps: Parsers)
    ensures var all := prior + Stringified(batch, ps);
      var merged := NextLog(Some(prior), batch, ps);
      && NoDups(KeysOf(merged))
      && (forall k | k in KeysOf(all) :: k in KeysOf(merged))
      && (forall k | k in KeysOf(merged) :: k in KeysOf(all))
      && (forall row | row in merged ::
            KeyOf(row) in KeysOf(all) && row == all[FirstIndex(KeysOf(all), KeyOf(row))])
  {
    var all := prior + Stringified(batch, ps);
    DropDuplicatesKeys(all);
    KeptRowsAreFirst(all);
  }

  /** The old log, when its keys are unique, survives the merge unchanged as a prefix. */
  lemma OldRowsKept(prior: seq<Row>, batch: seq<Row>, ps: Parsers)
    requires NoDups(KeysOf(prior))
    ensures prior <= NextLog(Some(prior), batch, ps)
  {
    var all := prior + Stringified(batch, ps);
    assert all[..|prior|] == prior;
    DropDuplicatesPrefix(all, |prior|);
    UniqueUnchanged(prior);
  }

  /** Running again with the same batch leaves the log as the first run left it. */
  lemma RerunIsIdempotent(log: Option<seq<Row>>, batch: seq<Row>, ps: Parsers)
    ensures var once := NextLog(log, batch, ps);
      NextLog(Some(once), batch, ps) == if log.None? then DropDuplicates(batch) else once
  {
    var sb := Stringified(batch, ps);
    var once := NextLog(log, batch, ps);
    if log.Some? {
      var all := log.value + sb;
      assert once == DropDuplicates(all);
      DropDuplicatesKeys(all);
      KeysOfAppend(log.value, sb);
      forall k | 0 <= k < |sb| ensures KeyOf(sb[k]) in KeysOf(once) {
        assert KeysOf(all)[|log.value| + k] == KeyOf(sb[k]);
      }
      DropCovered(once, sb);
      UniqueUnchanged(once);
    } else {
      assert once == batch;
      forall k | 0 <= k < |sb| ensures KeyOf(sb[k]) in KeysOf(once) {
        assert KeyOf(sb[k]) == KeyOf(batch[k]);
        assert KeyOf(sb[k]) == KeysOf(once)[k];
      }
      DropCovered(once, sb);
    }
  }

  /** Reading the provenance file back by lines gives the URLs, or one empty line when there were none. */
  lemma ProvenanceRoundTrip(urls: seq<string>)
    requires forall i | 0 <= i < |urls| :: '\n' !in urls[i]
    ensures Split(Join(urls, '\n'), '\n') == if urls == [] then [""] else urls
  {
    if urls != [] {
      SplitJoin(urls, '\n');
    }
  }

  /** The files `main` writes under `data/`; `None` is a file that does not exist. */
  class DataDir {
    /** `data/aqi_latest.csv` */
    var latest: Option<seq<Row>>
    /** `data/aqi_log.csv` */
    var log: Option<seq<Row>>
    /** `data/last_urls.txt` */
    var lastUrls: Option<string>

    /** A data directory holding the given files. */
    constructor (latest: Option<seq<Row>>, log: Option<seq<Row>>, lastUrls: Option<string>)
      ensures this.latest == latest && this.log == log && this.lastUrls == lastUrls
    {
      this.latest := latest;
      this.log := log;
      this.lastUrls := lastUrls;
    }

    /**
     * The writes at the end of `main` as the code stands: the snapshot is
     * replaced, then the log is merged; when that raises, the log and the
     * provenance file are left as they were.
     */
    method SaveAsWritten(batch: seq<Row>, urls: seq<string>, ps: Parsers) returns (r: Result<seq<Row>, Raised>)
      modifies this
      ensures r == NextLogAsWritten(old(log), batch, ps)
      ensures latest == Some(batch)
      ensures r.Err? ==> log == old(log) && lastUrls == old(lastUrls)
      ensures r.Ok? ==> log == Some(r.value) && lastUrls == Some(Join(urls, '\n'))
    {
      latest := Some(batch);
      if log.Some? {
        if log.value == [] || batch == [] {
          return Err(Raised);
        }
        log := Some(DropDuplicates(log.value + Stringified(batch, ps)));
      } else {
        log := Some(batch);
      }
      lastUrls := Some(Join(urls, '\n'));
      r := Ok(log.value);
    }

    /** The writes at the end of `main`, merging an empty batch like any other. */
    method Save(batch: seq<Row>, urls: seq<string>, ps: Parsers)
      modifies this
      ensures latest == Some(batch)
      ensures log == Some(NextLog(old(log), batch, ps))
      ensures lastUrls == Some(Join(urls, '\n'))
    {
      latest := Some(batch);
      if log.Some? {
        log := Some(DropDuplicates(log.value + Stringified(batch, ps)));
      } else {
        log := Some(batch);
      }
      lastUrls := Some(Join(urls, '\n'));
    }
  }
}
