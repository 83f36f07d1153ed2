/** `main` as a whole: gather every configured city, then write the data directory. */
module Pipeline {
  import opened Wrappers
  import opened Text
  import opened Payload
  import opened Cities
  import opened Normalize
  import opened Ingest
  import opened LogMerge

  /**
   * `main` as written; `outcomes[i]` is what fetching `targets[i]` gave.
   * The snapshot is this run's batch. The log is merged with it and the
   * provenance file lists the URLs fetched, unless the merge raises, which
   * leaves both files as they were and ends the run with the exception.
   */
  method Run(dir: DataDir, targets: seq<Target>, outcomes: seq<FetchOutcome>, ps: Parsers)
    returns (r: Result<seq<Row>, Raised>)
    requires |outcomes| == |targets|
    modifies dir
    ensures r == NextLogAsWritten(old(dir.log), Batch(targets, outcomes, ps), ps)
    ensures dir.latest == Some(Batch(targets, outcomes, ps))
    ensures r.Err? ==> dir.log == old(dir.log) && dir.lastUrls == old(dir.lastUrls)
    ensures r.Ok? ==> dir.log == Some(r.value) && dir.lastUrls == Some(Join(Urls(outcomes), '\n'))
  {
    var records, urls := Collect(targets, outcomes, ps);
    r := dir.SaveAsWritten(records, urls, ps);
  }

  /** `main` with the merge as intended: an empty batch is merged like any other. */
  method RunIntended(dir: DataDir, targets: seq<Target>, outcomes: seq<FetchOutcome>, ps: Parsers)
    requires |outcomes| == |targets|
    modifies dir
    ensures dir.latest == Some(Batch(targets, outcomes, ps))
    ensures dir.log == Some(NextLog(old(dir.log), Batch(targets, outcomes, ps), ps))
    ensures dir.lastUrls == Some(Join(Urls(outcomes), '\n'))
  {
    var records, urls := Collect(targets, outcomes, ps);
    dir.Save(records, urls, ps);
  }
}
