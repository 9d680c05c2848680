/** The execution of an import from its records to its final status and totals. */
module ImportExecution {
  import opened OrderedMaps
  import opened ImportStatus
  import opened ColumnMapping
  import opened ImportedRows
  import opened RowValidation
  import opened CopyPipeline
  import opened CopyTransaction
  import opened ValueTransformers
  import P = ImportProgress

  datatype Totals = Totals(status: Status, totalRows: nat, successfulRows: nat, failedRows: nat, percent: nat)

  /** How an execution ends; only the first leaves nothing in the target table. */
  datatype Outcome = NothingCommitted | RowErrorsLost | TotalsLost(rowErrors: seq<RowError>)
    | Finished(totals: Totals, rowErrors: seq<RowError>)

  /** At most one write, one more for every MiB of the chunks reported, and one for every two seconds. */
  predicate FewWrites(writes: seq<P.Update>, streamed: seq<string>, clock: seq<nat>)
    requires |streamed| <= |clock|
  {
    var n := |streamed|;
    if n == 0 then writes == []
    else
      |writes| <= 1 + (TotalBytes(streamed) - TotalBytes(streamed[..1])) / P.BYTES_INTERVAL
                    + (clock[n - 1] - clock[0]) / P.TIME_INTERVAL
  }

  lemma ReportsAreFew(streamed: seq<string>, clock: seq<nat>)
    requires |streamed| <= |clock| && ClockRuns(clock)
    ensures FewWrites(P.Written(P.Throttle(0, 0), Reports(streamed, clock)), streamed, clock)
  {
    if streamed != [] {
      ReportsAscend(streamed, clock);
      ReportAt(streamed, clock, 0);
      ReportAt(streamed, clock, |streamed| - 1);
      P.WritesAreBounded(P.Throttle(0, 0), Reports(streamed, clock));
      assert streamed[..|streamed|] == streamed;
    }
  }

  /** What is stored of a finished import. */
  predicate TotalsFit(t: Totals, results: seq<RowResult>, targets: seq<string>) {
    && t.status == (if AllAccepted(results) then Completed else PartiallyCompleted)
    && t.successfulRows == |AcceptedRows(results, targets)| && t.failedRows == |AllErrors(results)|
    && t.totalRows == t.successfulRows + t.failedRows >= |results|
    && (t.totalRows == |results| <==> OneErrorEach(results))
    && t.percent == 100
  }

  method Total(processed: Processed, ghost results: seq<RowResult>, ghost targets: seq<string>) returns (totals: Totals)
    requires Numbered(results) && processed.rowErrors == AllErrors(results)
    requires processed.copy.rowCount == |AcceptedRows(results, targets)|
    ensures TotalsFit(totals, results, targets)
  {
    TotalRowsCountsErrors(results, targets);
    NoErrorsMeansAllAccepted(results);
    var status := if |processed.rowErrors| > 0 then PartiallyCompleted else Completed;
    var totalRows := processed.copy.rowCount + |processed.rowErrors|;
    totals := Totals(status, totalRows, processed.copy.rowCount, |processed.rowErrors|, 100);
  }

  /** The COPY commits: nothing goes wrong outside with the lines of the accepted records, and in a strict
      import every record is accepted. */
  predicate Commits(results: seq<RowResult>, targets: seq<string>, strict: bool, faults: Faults) {
    Faultless(|AcceptedRows(results, targets)|, faults) && (!strict || AllAccepted(results))
  }

  /** The rows of the accepted records are committed, or nothing is; afterwards saving the row errors or
      the totals may still fail. A finished import is completed if every record was accepted, else
      partially completed, and then not a strict one. */
  method Execute(client: PostgresClient, plan: Plan, targets: seq<string>, records: seq<Record>, strict: bool,
                 faults: Faults, savesErrors: bool, savesTotals: bool, reporter: P.ProgressReporter, clock: seq<nat>)
      returns (outcome: Outcome, ghost streamed: seq<string>)
    requires client.transaction == None && targets != [] && |records| <= |clock| && ClockRuns(clock)
    requires reporter.Valid() && reporter.State() == P.Throttle(0, 0) && reporter.written == []
    modifies client, reporter
    ensures client.transaction == None && reporter.Valid()
    // How it ends, exactly.
    ensures outcome.NothingCommitted? <==> !Commits(CheckAll(plan, records), targets, strict, faults)
    ensures outcome.RowErrorsLost? <==>
      && Commits(CheckAll(plan, records), targets, strict, faults)
      && !AllAccepted(CheckAll(plan, records)) && !savesErrors
    ensures outcome.TotalsLost? <==>
      && Commits(CheckAll(plan, records), targets, strict, faults)
      && (AllAccepted(CheckAll(plan, records)) || savesErrors) && !savesTotals
    // What it leaves.
    ensures client.committed == old(client.committed) +
      if outcome.NothingCommitted? then [] else AcceptedRows(CheckAll(plan, records), targets)
    ensures outcome.TotalsLost? || outcome.Finished? ==> outcome.rowErrors == AllErrors(CheckAll(plan, records))
    ensures outcome.Finished? ==> TotalsFit(outcome.totals, CheckAll(plan, records), targets)
    ensures outcome.Finished? && strict ==> outcome.totals.status == Completed && outcome.totals.totalRows == |records|
    // What it wrote of its progress.
    ensures streamed == Streamed(CheckAll(plan, records), targets, strict, faults) && |streamed| <= |records|
    ensures reporter.written == P.Written(P.Throttle(0, 0), Reports(streamed, clock))
    ensures FewWrites(reporter.written, streamed, clock)
  {
    ghost var results := CheckAll(plan, records);
    CheckIsNumbered(plan, records);
    NoErrorsMeansAllAccepted(results);
    var processed;
    processed, streamed := Process(client, plan, targets, records, strict, faults, reporter, clock);
    ReportsAreFew(streamed, clock);
    if processed == None {
      return NothingCommitted, streamed;
    }
    if |processed.value.rowErrors| > 0 && !savesErrors {
      return RowErrorsLost, streamed;
    }
    if !savesTotals {
      return TotalsLost(processed.value.rowErrors), streamed;
    }
    var totals := Total(processed.value, results, targets);
    if strict {
      AcceptedInFull(results, targets);
    }
    outcome := Finished(totals, processed.value.rowErrors);
  }

  /** The mapping is checked, then the file is imported: what comes into the table are exactly the
      conversions of the cells, under the columns the mapping names, of the records that convert. */
  method Import(client: PostgresClient, lib: Library, options: TransformOptions, u: Setup, records: seq<Record>,
                strict: bool, faults: Faults, savesErrors: bool, savesTotals: bool, reporter: P.ProgressReporter,
                clock: seq<nat>)
      returns (refusal: Option<MappingError>, outcome: Outcome)
    requires client.transaction == None && |records| <= |clock| && ClockRuns(clock)
    requires reporter.Valid() && reporter.State() == P.Throttle(0, 0) && reporter.written == []
    requires u.transform == Transformer(lib, options)
    requires u.headers != [] && FileOf(u, records) && forall c :: c in u.columns ==> c.name != ""
    modifies client, reporter
    ensures client.transaction == None && reporter.Valid()
    ensures refusal == Verdict(u.headers, u.mapping, u.columns) && (refusal.Some? ==> outcome.NothingCommitted?)
    ensures refusal == None ==>
      (outcome.NothingCommitted? <==>
         !(Faultless(|ConvertedRows(u, records)|, faults) && (!strict || AllConvert(u, records))))
    ensures outcome.RowErrorsLost? <==> !outcome.NothingCommitted? && !AllConvert(u, records) && !savesErrors
    ensures outcome.TotalsLost? <==>
      !outcome.NothingCommitted? && (AllConvert(u, records) || savesErrors) && !savesTotals
    ensures client.committed ==
      old(client.committed) + if outcome.NothingCommitted? then [] else ConvertedRows(u, records)
    ensures outcome.Finished? ==>
      && outcome.totals.successfulRows == |ConvertedRows(u, records)|
      && outcome.totals.status == if AllConvert(u, records) then Completed else PartiallyCompleted
  {
    var mapped := Validate(u.headers, u.mapping, u.columns);
    if mapped.Invalid? {
      return Some(mapped.error), NothingCommitted;
    }
    var plan := Plan(Transformer(lib, options), mapped.columnMapping, u.columns);
    AcceptedRowsAreConverted(u, plan, records);
    AllAcceptedConvert(u, plan, records);
    ghost var streamed;
    outcome, streamed :=
      Execute(client, plan, mapped.targetColumns, records, strict, faults, savesErrors, savesTotals, reporter, clock);
    refusal := None;
  }
}
