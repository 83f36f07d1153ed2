# AQICN ingestion pipeline — a Dafny model

This project models the ingestion script of a small air-quality dashboard. The script does the following:

- reads a list of cities from the `CITIES` setting;
- asks the WAQI (aqicn.org) geo-feed endpoint for the current reading at each city's coordinates;
- flattens each JSON response into one row with fixed columns: city, AQI, observation time, station coordinates, station name, dominant pollutant, seven pollutant sub-indices, and the AQI category and range;
- writes three files under `data/`:
  - a snapshot of this run;
  - a log that grows across runs and is de-duplicated by city and observation time;
  - a provenance file listing the endpoints hit.

The model is split into one Dafny module per component of `fetch_aqicn.py`:

- `Cities` (`cities.dfy`) covers `parse_cities`. The Python dictionary it builds is a sequence of targets with distinct names, in insertion order. The method `ParseCities` follows the source loop and is proved equal to the specification function `CitiesOf`.
- `Aqi` (`aqi.dfy`) covers `aqi_band`. `Severity` is the comparison chain, proved against an independent breakpoint table `InBand`. `AqiBand` covers the missing-value and conversion cases.
- `Normalize` (`normalize.dfy`) covers `normalize_record`. `NormalizeRecord` follows the source step by step, pollutant loop included, and is proved equal to the specification function `Normalized`.
- `Ingest` (`ingest.dfy`) covers the per-city loop of `main`. This includes the coordinate backfill and the handler that logs a failing city and moves on. `Collect` is proved equal to `Batch` and `Urls`.
- `LogMerge` (`merge.dfy`) covers the end of `main`:
  - the snapshot;
  - the merge with the old log through pandas' `drop_duplicates`;
  - the provenance file.

  The data directory is a class `DataDir` whose methods update its three files in place.
- `Pipeline` (`pipeline.dfy`) puts the loop and the writes together: `Run` as written, `RunIntended` with the merge corrected (see Findings).
- Support modules:
  - `Text` (`text.dfy`): Python's `strip`, `split` and `join`, with their round trips.
  - `Sequences` (`sequences.dfy`): first-occurrence de-duplication, which gives both dictionary key order and the order of the rows `drop_duplicates` keeps.
  - `Payload` (`payload.dfy`): JSON values, Python floats with NaN and the infinities, and the runtime parsers.
  - `Wrappers` (`wrappers.dfy`): `Option` and `Result`.

An exception is an `Err` value. `parse_cities` raises a ValueError; the model's `ConfigError` records which segment raised it, which the exception's own message does not say. An exception inside one city's `try` block is the single value `Raised`, because the handler treats every kind alike.

The following are parameters of the model (a `Parsers` value and a per-city `FetchOutcome`):

- `float()` on a string;
- `pd.to_datetime(..., utc=True, errors="coerce")`;
- `str()` as `astype(str)` applies it;
- what the HTTP request for each city returned.

On three points the code behaves in a way a reader may not expect; the model follows the code:

- **The log merge keeps the old row.** `drop_duplicates` keeps the first row with each (city, observation time) key. The old log comes first in the concatenation, so an already-logged row is never replaced by the incoming one (`LogMerge.MergedLog`, `LogMerge.OldRowsKept`).
- **A repeated city name keeps its first position.** A city named twice in `CITIES` takes the coordinates of its last segment but keeps the position of its first, as a Python dictionary does (`Cities.ParsedNames`, `Cities.ParsedValues`).
- **A blank-only setting gives no cities.** A setting made only of blank segments (say `" ; "`) gives an empty dictionary, not the Perth fallback. The fallback applies only to an unset or empty setting (`Cities.BlankSettingHasNoCities`).

## Model

| member | source | states |
|---|---|---|
| Text.StripSpec | fetch_aqicn.py:17 | Stripping leaves an infix of the segment; everything removed on either side is whitespace; the result is empty exactly when the segment is all whitespace; otherwise it starts and ends with a non-space character |
| Text.JoinSplit | fetch_aqicn.py:16 | Splitting the setting on `;` gives pieces without the separator, and joining them back gives the setting |
| Text.SplitJoin | fetch_aqicn.py:115 | Splitting a join of separator-free pieces gives back the pieces |
| Cities.Put | fetch_aqicn.py:20 | Storing a target keeps the names distinct; an existing name keeps its position and takes the new coordinates; a new name is appended; no other entry changes |
| Cities.Read | fetch_aqicn.py:17-20 | A segment is skipped exactly when it is blank; a parsed entry is keyed by the stripped text before the colon; a failure records the segment |
| Cities.ReadWellFormed | fetch_aqicn.py:18-20 | A non-blank `name:lat,lon` with readable coordinates becomes the target with the stripped name and the two parsed numbers |
| Cities.ReadEntryShape | fetch_aqicn.py:18-20 | A segment read as an entry is `name:lat,lon` with exactly one colon and one comma after it, and both coordinates readable; the target holds the stripped name and the two numbers. With `ReadWellFormed`, every other non-blank segment raises |
| Cities.ParseCities | fetch_aqicn.py:12-21 | The loop returns what `CitiesOf` specifies: Perth for an unset or empty setting, otherwise the dictionary built from the segments, or the first error |
| Cities.ErrorPersists | fetch_aqicn.py:16-19 | Once a segment raises, the whole call raises that error and returns no partial dictionary |
| Cities.BlankSettingHasNoCities | fetch_aqicn.py:13-17 | Only an unset or empty setting falls back to Perth; a non-empty setting of blank segments gives no cities |
| Cities.ParseErrorIff | fetch_aqicn.py:16-20 | The call raises if and only if some segment is malformed, and the error names the first malformed segment |
| Cities.ParsedNames | fetch_aqicn.py:15-20 | On success the keys are the distinct stripped names, in order of first appearance |
| Cities.ParsedValues | fetch_aqicn.py:20 | On success each entry holds the coordinates of the last segment with its name |
| Aqi.Severity | fetch_aqicn.py:29-34 | Every finite value lands in exactly the band whose breakpoints hold it (upper edges inclusive); −∞ is Good; +∞ and NaN are Hazardous; the result is never Unknown |
| Aqi.SeverityMonotone | fetch_aqicn.py:29-34 | A larger value never lands in a less severe band |
| Payload.NATruth | fetch_aqicn.py:27 | `pd.isna` as a condition: a scalar is NA exactly when it is `None` or a float NaN; a list of other than one element raises |
| Aqi.AqiBand | fetch_aqicn.py:26-34 | Unknown exactly when `pd.isna` is true: `None`, float NaN, or a one-element list of one. Raises exactly for other lists, dicts and unreadable strings. Numbers, booleans and readable strings go through the chain, so a string that reads as NaN is Hazardous |
| Normalize.ColumnsSpec | fetch_aqicn.py:69-70 | Flattening writes one column per code, holding that code's sub-index or `None` |
| Normalize.FlattenPollutants | fetch_aqicn.py:69-70 | The loop sets the pollutant columns to one entry per code and leaves the rest of the row alone |
| Normalize.NormalizeRecord | fetch_aqicn.py:43-75 | Returns what `Normalized` specifies. No row for a status other than "ok". Raises for a non-dict payload, a missing or non-dict `data`, a truthy non-dict `iaqi`/`time`/`city`, a timestamp the parser rejects even under `errors="coerce"` (an unreadable one becomes NaT), or an AQI `aqi_band` rejects. Otherwise one row |
| Normalize.DroppedIffNotOk | fetch_aqicn.py:45-46 | The record is dropped if and only if the payload is a dict whose status is not "ok" |
| Normalize.CategoryFollowsAqi | fetch_aqicn.py:72-74 | A row's category and range are those `aqi_band` gives for the row's own AQI |
| Normalize.PollutantColumns | fetch_aqicn.py:49-70 | The pollutant columns are exactly the seven codes; each holds the `v` of a dict-valued `iaqi` entry, else `None`; other codes are ignored |
| Normalize.CoordinatesAndCity | fetch_aqicn.py:56-65 | Coordinates come from `city.geo` only when it is a two-element list, else `None`; the city is the configured name unless empty, else the station name |
| Ingest.Collect | fetch_aqicn.py:78-92 | The loop gathers exactly `Batch`'s rows and `Urls`' URLs, in configuration order, catching every per-city exception |
| Ingest.BatchAppend | fetch_aqicn.py:80-92 | Gathering over two runs of cities is gathering over each and concatenating |
| Ingest.CityIsolation | fetch_aqicn.py:80-92 | Whatever one city's fetch gives, the other cities' rows are unchanged and in place around that city's contribution |
| Ingest.FailedFetchAddsNothing | fetch_aqicn.py:91-92 | A city whose fetch raised adds no row and no URL |
| Ingest.AtMostOneRowPerFetch | fetch_aqicn.py:82-89 | At most one row per recorded URL and at most one URL per city |
| Ingest.UrlsOfFetched | fetch_aqicn.py:82-83 | Every successful fetch leaves its URL, whether or not it yields a row, and every recorded URL is that of a successful fetch |
| Ingest.CityRowCoordinates | fetch_aqicn.py:86-88 | After the backfill a coordinate is missing only if the configured one is NaN; a station without `geo` gets the configured coordinates |
| Ingest.NoMissingCoordinates | fetch_aqicn.py:86-89 | When no configured coordinate is NaN, no gathered row lacks a coordinate |
| Ingest.BatchCategories | fetch_aqicn.py:84-89 | Every gathered row carries the category and range `aqi_band` gives for its own AQI |
| LogMerge.DropDuplicatesKeys | fetch_aqicn.py:108 | The rows kept have the distinct keys of the input, in order of first occurrence: unique, none lost, none invented |
| LogMerge.KeptRowsAreFirst | fetch_aqicn.py:108 | Every row kept is the first input row with its key |
| LogMerge.UniqueUnchanged | fetch_aqicn.py:108 | Rows whose keys are already unique come through unchanged |
| LogMerge.DropDuplicatesPrefix | fetch_aqicn.py:108 | The rows kept from a prefix of the input are a prefix of the rows kept from all of it |
| LogMerge.DropCovered | fetch_aqicn.py:108 | Appending rows whose keys are all present already changes nothing |
| LogMerge.Stringified | fetch_aqicn.py:103-105 | Converting the category columns to text keeps every key and every other column; only `dominentpol` can change: it becomes text, and a value that is already text stays as it is |
| LogMerge.EmptyBatchRaises | fetch_aqicn.py:101-105 | As written, with an existing log a run that gathered no rows raises before the log is merged |
| LogMerge.EmptyBatchKeepsLog | fetch_aqicn.py:101-108 | Merged as intended, an empty batch leaves a log with unique keys unchanged |
| LogMerge.EmptyLogRaises | fetch_aqicn.py:93-111 | As written, a first run that gathers no rows writes a log with no columns, and every later run raises reading it back, whatever it gathered |
| LogMerge.EmptyLogTakesBatch | fetch_aqicn.py:100-111 | Merged as intended, a log with no rows becomes the batch with its category columns as text, when the batch's keys are unique |
| LogMerge.AsWrittenAgrees | fetch_aqicn.py:100-111 | Apart from those two cases (an empty batch, a log with no rows), the as-written and the intended merge give the same log |
| LogMerge.MergedLog | fetch_aqicn.py:106-108 | The merged log has one row per key, keeps every key of the old log and the batch, and holds for each key the first row with it, so an old row wins over a new one |
| LogMerge.OldRowsKept | fetch_aqicn.py:106-108 | An old log with unique keys survives the merge unchanged, as a prefix |
| LogMerge.RerunIsIdempotent | fetch_aqicn.py:100-111 | Merging the same batch again leaves the log as it was; after a first run without a log, it only collapses the batch's own duplicates |
| LogMerge.ProvenanceRoundTrip | fetch_aqicn.py:114-115 | Reading the provenance file back by lines gives the URLs, or one empty line when there were none |
| LogMerge.DataDir.SaveAsWritten | fetch_aqicn.py:93-115 | As written, the snapshot becomes the batch. When the merge raises (an empty batch, or a log with no rows and so no columns), the log and provenance files are untouched. Otherwise the log is merged and the provenance file lists the URLs |
| LogMerge.DataDir.Save | fetch_aqicn.py:93-115 | The snapshot becomes the batch, the log becomes the intended merge, and the provenance file is the newline-joined URLs |
| Pipeline.Run | fetch_aqicn.py:77-115 | As written, `main` writes this run's batch as the snapshot and returns what the as-written merge gives. When it raises (an empty batch, or a log written by an earlier empty run), the log and provenance files are untouched; otherwise the log is merged and the provenance file lists the URLs of every successful fetch |
| Pipeline.RunIntended | fetch_aqicn.py:77-115 | With the merge corrected, `main` writes the batch as the snapshot, the intended merge as the log and the URLs of every successful fetch as the provenance file |

## Left out

- HTTP itself is not modelled: `fetch_geo`, the token check, the URL format, `raise_for_status` and JSON decoding. Each city's fetch is a `FetchOutcome` parameter, either a decoded body with its URL or a failure.
- `time.sleep` and the warning printed by the per-city handler are left out; neither affects any result.
- The CSV files are left out: writing `to_csv`, reading the old log back with `read_csv` and its type inference, and the resulting column order. A file is modelled as the sequence of rows it holds, and the old log as the rows it was written with. A log with no rows can only have been written by a first run that gathered none, and that file has no columns either; the model marks it by its empty row sequence, on which the as-written merge raises as `read_csv` does.
- `float()`, `pd.to_datetime` and `str()` are parameters. Their exact accepted syntax and 64-bit rounding are not modelled.
- `pd.to_datetime(None)` returns `None` rather than NaT. The model lets the parser parameter decide and does not distinguish the two.
- Payload.NATruth: the truth of an empty array depends on the numpy version (false with a deprecation warning, or an error); the model takes it as raising. This affects an empty list as a coordinate (`Ingest.NotNA`): with an older numpy the row would be kept with the configured coordinate. An empty list as the AQI value raises under every version, since `float([])` raises too.
- `app.py`, the dashboard that reads the files, is not part of this model.
- The `CITIES = parse_cities(os.getenv("CITIES"))` call at import time is left out. `Run` and `RunIntended` take the already-parsed targets, so a configuration error stops the program before `main` starts.

## Findings

| source | as written | input that shows it | evidently intended | confidence | as-written member | corrected member |
|---|---|---|---|---|---|---|
| fetch_aqicn.py:101-105 | With an existing log, the category columns of this run's frame are selected before the merge. A run that gathered no rows has a frame without columns, so the selection raises KeyError. `main` stops after writing the empty snapshot: the log is not merged and `data/last_urls.txt` is not written (`LogMerge.NextLogAsWritten`, `LogMerge.DataDir.SaveAsWritten`, `Pipeline.Run`) | an existing `data/aqi_log.csv` and a run in which every city's fetch fails or returns a status other than "ok" | the log is kept as it is and the provenance file is written (`LogMerge.NextLog`, `LogMerge.DataDir.Save`, `Pipeline.RunIntended`) | high; not executed | LogMerge.EmptyBatchRaises | LogMerge.EmptyBatchKeepsLog |
| fetch_aqicn.py:93-111 | A first run without a log that gathers no rows writes the column-less frame as the log. Every later run reads it back with `observed_at_utc` as a date column, and that raises because the file has no columns. The snapshot is written first; the log is never merged again and `data/last_urls.txt` is never written again (`LogMerge.NextLogAsWritten`, `LogMerge.DataDir.SaveAsWritten`, `Pipeline.Run`) | no `data/aqi_log.csv`, a run in which every city's fetch fails or returns a status other than "ok" (a rejected token does this), then any further run | the empty log is merged like any other, so the next batch becomes the log (`LogMerge.NextLog`, `LogMerge.DataDir.Save`, `Pipeline.RunIntended`) | high; not executed | LogMerge.EmptyLogRaises | LogMerge.EmptyLogTakesBatch |
