/** One COPY in one transaction: all of the rows of the text that was streamed, or none. */
module CopyTransaction {
  import opened OrderedMaps
  import opened JsText
  import opened CsvText
  import opened RowValidation
  import opened CopyPipeline
  import P = ImportProgress

  function TotalBytes(chunks: seq<string>): nat {
    if chunks == [] then 0 else TotalBytes(chunks[..|chunks| - 1]) + ByteLength(chunks[|chunks| - 1])
  }

  lemma {:induction false} LengthAppends(a: string, b: string)
    ensures ByteLength(a + b) == ByteLength(a) + ByteLength(b)
  {
    if a == "" {
      assert a + b == b;
    } else {
      assert (a + b)[1..] == a[1..] + b;
      LengthAppends(a[1..], b);
    }
  }

  /** What the meter counts are the bytes of the text that was streamed. */
  lemma {:induction false} TotalIsTheLength(chunks: seq<string>)
    ensures TotalBytes(chunks) == ByteLength(Concat(chunks))
  {
    if chunks != [] {
      var before, last := chunks[..|chunks| - 1], chunks[|chunks| - 1];
      TotalIsTheLength(before);
      ConcatAppend(before, last);
      LengthAppends(Concat(before), last);
      assert chunks == before + [last];
    }
  }

  /** What may go wrong outside this program: statements refused, a progress update or the connection
      failing at some chunk, rows refused by the target's constraints. */
  datatype Faults = Faults(begins: bool, configures: bool, breaksAt: Option<nat>, admits: bool, commits: bool)

  datatype CopyResult = CopyResult(processedBytes: nat, rowCount: nat)

  /** A connection to the database of the target table. */
  class PostgresClient {
    var committed: seq<Row>
    var transaction: Option<seq<Row>>   // rows of the open transaction

    constructor (rows: seq<Row>)
      ensures committed == rows && transaction == None
    {
      committed, transaction := rows, None;
    }

    method Begin(ok: bool)
      requires transaction == None
      modifies this
      ensures committed == old(committed) && transaction == if ok then Some([]) else None
    {
      transaction := if ok then Some([]) else None;
    }

    /** COPY FROM STDIN of a whole text. */
    method CopyIn(text: string, admits: bool) returns (rowCount: Option<nat>)
      requires transaction.Some?
      modifies this
      ensures committed == old(committed) && transaction.Some?
      ensures rowCount == if admits && ReadBody(text).Some? then Some(|ReadBody(text).value|) else None
      ensures rowCount.Some? ==> transaction.value == old(transaction.value) + ReadBody(text).value
    {
      var rows := ReadBody(text);
      if rows == None || !admits {
        return None;
      }
      transaction := Some(transaction.value + rows.value);
      rowCount := Some(|rows.value|);
    }

    method Commit(ok: bool)
      requires transaction.Some?
      modifies this
      ensures committed == if ok then old(committed) + old(transaction.value) else old(committed)
      ensures transaction == if ok then None else old(transaction)
    {
      if ok {
        committed, transaction := committed + transaction.value, None;
      }
    }

    method Rollback()
      modifies this
      ensures committed == old(committed) && transaction == None
    {
      transaction := None;
    }
  }

  /** The stream came to its end. */
  predicate Streams(chunks: nat, sourceFails: bool, faults: Faults) {
    (faults.breaksAt.Some? ==> faults.breaksAt.value >= chunks) && !sourceFails
  }

  /** Nothing outside goes wrong with this many chunks. */
  predicate Faultless(chunks: nat, faults: Faults) {
    faults.begins && faults.configures && Streams(chunks, false, faults) && faults.admits && faults.commits
  }

  predicate Succeeds(chunks: seq<string>, sourceFails: bool, faults: Faults) {
    Faultless(|chunks|, faults) && !sourceFails && ReadBody(Concat(chunks)).Some?
  }

  /** The meter's report at every chunk: the bytes so far, and the time. */
  function Reports(chunks: seq<string>, clock: seq<nat>): (updates: seq<P.Update>)
    requires |chunks| <= |clock|
    ensures |updates| == |chunks|
  {
    if chunks == [] then []
    else Reports(chunks[..|chunks| - 1], clock) + [P.Update(TotalBytes(chunks), clock[|chunks| - 1])]
  }

  /** What the meter has seen, summed and reported after k chunks. */
  ghost predicate Metered(chunks: seq<string>, clock: seq<nat>, k: nat, start: P.Throttle,
                          text: string, bytes: nat, throttle: P.Throttle, written: seq<P.Update>)
    requires k <= |chunks| <= |clock|
  {
    && text == Concat(chunks[..k]) && bytes == TotalBytes(chunks[..k])
    && throttle == P.ThrottleAfter(start, Reports(chunks[..k], clock))
    && written == P.Written(start, Reports(chunks[..k], clock))
  }

  lemma MetersNext(chunks: seq<string>, clock: seq<nat>, k: nat, start: P.Throttle,
                   text: string, bytes: nat, throttle: P.Throttle, written: seq<P.Update>)
    requires k < |chunks| <= |clock| && Metered(chunks, clock, k, start, text, bytes, throttle, written)
    ensures var total := bytes + ByteLength(chunks[k]);
      var u := P.Update(total, clock[k]);
      Metered(chunks, clock, k + 1, start, text + chunks[k], total,
              if P.Persists(throttle, u) then P.Throttle(u.bytes, u.at) else throttle,
              written + if P.Persists(throttle, u) then [u] else [])
  {
    var seen := chunks[..k];
    assert chunks[..k + 1] == seen + [chunks[k]];
    assert (seen + [chunks[k]])[..k] == seen;
    ConcatAppend(seen, chunks[k]);
    P.OneMoreUpdate(start, Reports(seen, clock), P.Update(bytes + ByteLength(chunks[k]), clock[k]));
  }

  /** How far the stream came before it broke. */
  function Reached(chunks: seq<string>, faults: Faults): (n: nat)
    ensures n <= |chunks|
  {
    if faults.breaksAt.Some? && faults.breaksAt.value < |chunks| then faults.breaksAt.value else |chunks|
  }

  /** Streams the first n chunks through the byte meter, which reports progress at each before it passes
      it on. */
  method Meter(chunks: seq<string>, n: nat, reporter: P.ProgressReporter, clock: seq<nat>)
      returns (text: string, processedBytes: nat)
    requires reporter.Valid() && n <= |chunks| <= |clock|
    modifies reporter
    ensures reporter.Valid() && text == Concat(chunks[..n]) && processedBytes == TotalBytes(chunks[..n])
    ensures reporter.written == old(reporter.written) + P.Written(old(reporter.State()), Reports(chunks[..n], clock))
  {
    ghost var start, done := reporter.State(), reporter.written;
    ghost var written: seq<P.Update> := [];
    text, processedBytes := "", 0;
    for k := 0 to n
      invariant reporter.Valid() && reporter.written == done + written
      invariant Metered(chunks, clock, k, start, text, processedBytes, reporter.State(), written)
    {
      MetersNext(chunks, clock, k, start, text, processedBytes, reporter.State(), written);
      processedBytes := processedBytes + ByteLength(chunks[k]);
      var u := P.Update(processedBytes, clock[k]);
      written := written + if P.Persists(reporter.State(), u) then [u] else [];
      reporter.Report(u);
      text := text + chunks[k];
    }
  }

  /** What is done between BEGIN and the end of the transaction. */
  method Stream(client: PostgresClient, chunks: seq<string>, sourceFails: bool, faults: Faults,
                reporter: P.ProgressReporter, clock: seq<nat>) returns (r: Option<CopyResult>)
    requires client.transaction == Some([]) && reporter.Valid() && |chunks| <= |clock|
    modifies client, reporter
    ensures reporter.Valid() && client.committed == old(client.committed) && client.transaction.Some?
    ensures r.Some? <==> Streams(|chunks|, sourceFails, faults) && ReadBody(Concat(chunks)).Some? && faults.admits
    ensures r.Some? ==> client.transaction == ReadBody(Concat(chunks))
    ensures r.Some? ==> r.value == CopyResult(TotalBytes(chunks), |ReadBody(Concat(chunks)).value|)
    ensures reporter.written == old(reporter.written)
         + P.Written(old(reporter.State()), Reports(chunks[..Reached(chunks, faults)], clock))
  {
    var text, processedBytes := Meter(chunks, Reached(chunks, faults), reporter, clock);
    if !Streams(|chunks|, sourceFails, faults) {
      return None;
    }
    assert chunks[..|chunks|] == chunks;
    var rowCount := client.CopyIn(text, faults.admits);
    assert rowCount.Some? ==> [] + ReadBody(text).value == ReadBody(text).value;
    r := if rowCount.Some? then Some(CopyResult(processedBytes, rowCount.value)) else None;
  }

  method Copy(client: PostgresClient, chunks: seq<string>, sourceFails: bool, faults: Faults,
              reporter: P.ProgressReporter, clock: seq<nat>) returns (r: Option<CopyResult>)
    requires client.transaction == None && reporter.Valid() && |chunks| <= |clock|
    modifies client, reporter
    ensures client.transaction == None && reporter.Valid()
    ensures r.Some? <==> Succeeds(chunks, sourceFails, faults)
    ensures r.Some? ==> r.value == CopyResult(TotalBytes(chunks), |ReadBody(Concat(chunks)).value|)
    ensures client.committed == old(client.committed) + if r.Some? then ReadBody(Concat(chunks)).value else []
    ensures reporter.written == old(reporter.written) +
      if faults.begins && faults.configures then
        P.Written(old(reporter.State()), Reports(chunks[..Reached(chunks, faults)], clock))
      else []
  {
    r := None;
    var transactionStarted := false;
    client.Begin(faults.begins);
    if faults.begins {
      transactionStarted := true;
      if faults.configures {
        var copied := Stream(client, chunks, sourceFails, faults, reporter, clock);
        if copied.Some? {
          client.Commit(faults.commits);
          if faults.commits {
            transactionStarted := false;
            r := copied;
          }
        }
      }
    }
    if transactionStarted {
      client.Rollback();
    }
  }

  datatype Processed = Processed(copy: CopyResult, rowErrors: seq<RowError>)

  lemma WideEnough(results: seq<RowResult>, targets: seq<string>)
    requires targets != []
    ensures forall r :: r in AcceptedRows(results, targets) ==> |r| >= 1
  {
    var rows := AcceptedRows(results, targets);
    forall r | r in rows ensures |r| >= 1 {
      var i :| 0 <= i < |rows| && rows[i] == r;
      AcceptedWidth(results, targets, i);
    }
  }

  lemma LinesParse(rows: seq<Row>)
    requires forall r :: r in rows ==> |r| >= 1
    ensures ReadBody(Concat(LinesOf(rows))) == Some(rows)
  {
    LinesAreTheBody(rows);
    CopyBodyReadsBack(rows);
  }

  lemma {:induction false} TotalAscends(chunks: seq<string>, i: nat, j: nat)
    requires i <= j <= |chunks|
    ensures TotalBytes(chunks[..i]) <= TotalBytes(chunks[..j])
  {
    if i < j {
      TotalAscends(chunks, i, j - 1);
      assert chunks[..j][..j - 1] == chunks[..j - 1];
    }
  }

  ghost predicate ClockRuns(clock: seq<nat>) {
    forall i, j :: 0 <= i <= j < |clock| ==> clock[i] <= clock[j]
  }

  lemma {:induction false} ReportAt(chunks: seq<string>, clock: seq<nat>, k: nat)
    requires k < |chunks| <= |clock|
    ensures Reports(chunks, clock)[k] == P.Update(TotalBytes(chunks[..k + 1]), clock[k])
  {
    if k == |chunks| - 1 {
      assert chunks[..k + 1] == chunks;
    } else {
      ReportAt(chunks[..|chunks| - 1], clock, k);
      assert chunks[..|chunks| - 1][..k + 1] == chunks[..k + 1];
    }
  }

  lemma ReportsAscend(chunks: seq<string>, clock: seq<nat>)
    requires |chunks| <= |clock| && ClockRuns(clock)
    ensures P.Ascending(Reports(chunks, clock))
  {
    var updates := Reports(chunks, clock);
    forall i, j | 0 <= i <= j < |updates|
      ensures updates[i].bytes <= updates[j].bytes && updates[i].at <= updates[j].at
    {
      ReportAt(chunks, clock, i);
      ReportAt(chunks, clock, j);
      TotalAscends(chunks, i + 1, j + 1);
    }
  }

  /** The lines that reach the meter before the import ends or breaks. */
  function Streamed(results: seq<RowResult>, targets: seq<string>, strict: bool, faults: Faults): seq<string> {
    var lines := Yielded(results, targets, strict).lines;
    if faults.begins && faults.configures then lines[..Reached(lines, faults)] else []
  }

  /** What the table holds after an import: in a strict one the rows of all records or nothing, in a
      flexible one the rows of exactly the accepted records, in order, or nothing. */
  method Process(client: PostgresClient, plan: Plan, targets: seq<string>, records: seq<Record>, strict: bool,
                 faults: Faults, reporter: P.ProgressReporter, clock: seq<nat>)
      returns (r: Option<Processed>, ghost streamed: seq<string>)
    requires client.transaction == None && reporter.Valid() && targets != [] && |records| <= |clock|
    modifies client, reporter
    ensures client.transaction == None && reporter.Valid()
    ensures r == None ==> client.committed == old(client.committed)
    ensures r.Some? ==>
      && client.committed == old(client.committed) + AcceptedRows(CheckAll(plan, records), targets)
      && r.value.copy.rowCount == |AcceptedRows(CheckAll(plan, records), targets)|
      && r.value.rowErrors == AllErrors(CheckAll(plan, records))
      && r.value.copy.processedBytes == TotalBytes(LinesOf(AcceptedRows(CheckAll(plan, records), targets)))
    // Something is committed exactly if nothing goes wrong outside and, in a strict import, in the records.
    ensures r.Some? <==>
      && Faultless(|AcceptedRows(CheckAll(plan, records), targets)|, faults)
      && (!strict || AllAccepted(CheckAll(plan, records)))
    ensures streamed == Streamed(CheckAll(plan, records), targets, strict, faults) && |streamed| <= |records|
    ensures reporter.written == old(reporter.written) + P.Written(old(reporter.State()), Reports(streamed, clock))
  {
    ghost var results := CheckAll(plan, records);
    CheckIsNumbered(plan, records);
    var g := Generate(plan, targets, records, strict);
    if strict {
      StrictStopsAtTheFirst(results, targets);
    } else {
      FlexibleNeverStops(results, targets);
    }
    AtMostALineEach(results, targets, strict);
    streamed := Streamed(results, targets, strict, faults);
    var copy := Copy(client, g.lines, g.thrown.Some?, faults, reporter, clock);
    if g.thrown == None {
      YieldedInFull(results, targets, strict);
      WideEnough(results, targets);
      LinesParse(AcceptedRows(results, targets));
    }
    r := if copy == None then None else Some(Processed(copy.value, g.rowErrors));
  }

  lemma {:induction false} FlexibleNeverStops(results: seq<RowResult>, targets: seq<string>)
    ensures Yielded(results, targets, false).thrown == None
  {
    if results != [] {
      FlexibleNeverStops(results[..|results| - 1], targets);
    }
  }
}
