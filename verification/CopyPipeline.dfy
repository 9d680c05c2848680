/** The records of a file through validation, CSV text and one COPY transaction. */
module CopyPipeline {
  import opened OrderedMaps
  import opened CsvText
  import opened RowValidation
  import opened ValueTransformers

  type Row = seq<Option<string>>

  // Results, one for each record.

  /** Accepted exactly if there is no error, and every error names the row. */
  predicate Consistent(result: RowResult, row: nat) {
    && (result.transformed.Some? <==> result.errors == [])
    && forall e :: e in result.errors ==> e.row == row
  }

  /** The header is line 1, so record i from 0 is row i + 2. */
  ghost predicate Numbered(results: seq<RowResult>) {
    forall i :: 0 <= i < |results| ==> Consistent(results[i], i + 2)
  }

  function CheckAll(plan: Plan, records: seq<Record>): (results: seq<RowResult>)
    ensures |results| == |records|
    ensures forall i :: 0 <= i < |records| ==> results[i] == Checked(plan, i + 2, records[i])
  {
    seq(|records|, i requires 0 <= i < |records| => Checked(plan, i + 2, records[i]))
  }

  lemma CheckIsNumbered(plan: Plan, records: seq<Record>)
    ensures Numbered(CheckAll(plan, records))
  {
    forall i | 0 <= i < |records| ensures Consistent(CheckAll(plan, records)[i], i + 2) {
      ErrorsNumberTheirRow(plan, i + 2, records[i]);
    }
  }

  function RowOf(result: RowResult, targets: seq<string>): (row: Row)
    ensures |row| == |targets|
  {
    CopyFields(if result.transformed.Some? then result.transformed.value else map[], targets)
  }

  /** The rows of the accepted records, in order. */
  function AcceptedRows(results: seq<RowResult>, targets: seq<string>): (rows: seq<Row>)
    ensures |rows| <= |results|
  {
    if results == [] then []
    else
      var last := results[|results| - 1];
      AcceptedRows(results[..|results| - 1], targets) + if last.transformed.Some? then [RowOf(last, targets)] else []
  }

  lemma {:induction false} AcceptedWidth(results: seq<RowResult>, targets: seq<string>, i: nat)
    requires i < |AcceptedRows(results, targets)|
    ensures |AcceptedRows(results, targets)[i]| == |targets|
  {
    if i < |AcceptedRows(results[..|results| - 1], targets)| {
      AcceptedWidth(results[..|results| - 1], targets, i);
    }
  }

  /** The errors of all records, in order. */
  function AllErrors(results: seq<RowResult>): seq<RowError> {
    if results == [] then [] else AllErrors(results[..|results| - 1]) + results[|results| - 1].errors
  }

  predicate AllAccepted(results: seq<RowResult>) {
    forall i :: 0 <= i < |results| ==> results[i].transformed.Some?
  }

  // What the generator yields.

  function LinesOf(rows: seq<Row>): (lines: seq<string>)
    ensures |lines| == |rows| && forall i :: 0 <= i < |rows| ==> lines[i] == CopyLine(rows[i])
  {
    seq(|rows|, i requires 0 <= i < |rows| => CopyLine(rows[i]))
  }

  function Concat(chunks: seq<string>): string {
    if chunks == [] then "" else chunks[0] + Concat(chunks[1..])
  }

  lemma {:induction false} LinesAreTheBody(rows: seq<Row>)
    ensures Concat(LinesOf(rows)) == CopyBody(rows)
  {
    if rows != [] {
      LinesAreTheBody(rows[1..]);
      assert LinesOf(rows)[1..] == LinesOf(rows[1..]);
    }
  }

  lemma {:induction false} ConcatAppend(chunks: seq<string>, chunk: string)
    ensures Concat(chunks + [chunk]) == Concat(chunks) + chunk
  {
    if chunks == [] {
      assert ([] + [chunk])[1..] == [];
    } else {
      assert (chunks + [chunk])[1..] == chunks[1..] + [chunk];
      ConcatAppend(chunks[1..], chunk);
    }
  }

  lemma AppendLine(rows: seq<Row>, row: Row)
    ensures LinesOf(rows + [row]) == LinesOf(rows) + [CopyLine(row)]
  {
  }

  /** Of a strict import that got through, every record is a row. */
  lemma {:induction false} AcceptedInFull(results: seq<RowResult>, targets: seq<string>)
    requires AllAccepted(results)
    ensures |AcceptedRows(results, targets)| == |results|
    ensures forall i :: 0 <= i < |results| ==> AcceptedRows(results, targets)[i] == RowOf(results[i], targets)
  {
    if results != [] {
      AcceptedInFull(results[..|results| - 1], targets);
    }
  }

  datatype Generated = Generated(lines: seq<string>, rowErrors: seq<RowError>, thrown: Option<seq<RowError>>)

  lemma {:induction false} AtMostALineEach(results: seq<RowResult>, targets: seq<string>, strict: bool)
    ensures |Yielded(results, targets, strict).lines| <= |results|
  {
    if results != [] {
      AtMostALineEach(results[..|results| - 1], targets, strict);
    }
  }

  /** Yields the line of every accepted record. A rejected one ends a strict import with its errors; in
      a flexible import its errors are collected. */
  function Yielded(results: seq<RowResult>, targets: seq<string>, strict: bool): Generated {
    if results == [] then Generated([], [], None)
    else
      var g, last := Yielded(results[..|results| - 1], targets, strict), results[|results| - 1];
      if g.thrown.Some? then g
      else if last.transformed.Some? then g.(lines := g.lines + [CopyLine(RowOf(last, targets))])
      else if strict then g.(thrown := Some(last.errors))
      else g.(rowErrors := g.rowErrors + last.errors)
  }

  lemma {:induction false} ThrownStays(results: seq<RowResult>, targets: seq<string>, strict: bool, n: nat)
    requires n <= |results| && Yielded(results[..n], targets, strict).thrown.Some?
    ensures Yielded(results, targets, strict) == Yielded(results[..n], targets, strict)
  {
    if n == |results| {
      assert results[..n] == results;
    } else {
      var before := results[..|results| - 1];
      assert before[..n] == results[..n];
      ThrownStays(before, targets, strict, n);
    }
  }

  lemma YieldedNext(results: seq<RowResult>, targets: seq<string>, strict: bool, i: nat)
    requires i < |results| && Yielded(results[..i], targets, strict).thrown == None
    ensures var g, g' := Yielded(results[..i], targets, strict), Yielded(results[..i + 1], targets, strict);
      g' == if results[i].transformed.Some? then g.(lines := g.lines + [CopyLine(RowOf(results[i], targets))])
            else if strict then g.(thrown := Some(results[i].errors))
            else g.(rowErrors := g.rowErrors + results[i].errors)
  {
    assert results[..i + 1][..i] == results[..i];
  }

  method Generate(plan: Plan, targets: seq<string>, records: seq<Record>, strict: bool) returns (g: Generated)
    ensures g == Yielded(CheckAll(plan, records), targets, strict)
  {
    ghost var results := CheckAll(plan, records);
    var lines: seq<string>, rowErrors: seq<RowError>, rowNumber: nat := [], [], 1;
    for i := 0 to |records|
      invariant rowNumber == i + 1
      invariant Yielded(results[..i], targets, strict) == Generated(lines, rowErrors, None)
    {
      rowNumber := rowNumber + 1;
      var result := ValidateRow(plan, rowNumber, records[i]);
      YieldedNext(results, targets, strict, i);
      if result.transformed.Some? {
        lines := lines + [CopyLine(CopyFields(result.transformed.value, targets))];
        continue;
      }
      if strict {
        ThrownStays(results, targets, strict, i + 1);
        return Generated(lines, rowErrors, Some(result.errors));
      }
      rowErrors := rowErrors + result.errors;
    }
    assert results[..|records|] == results;
    g := Generated(lines, rowErrors, None);
  }

  /** What came through to the end: the lines of the accepted records, and all errors. */
  lemma {:induction false} YieldedInFull(results: seq<RowResult>, targets: seq<string>, strict: bool)
    requires Numbered(results) && Yielded(results, targets, strict).thrown == None
    ensures Yielded(results, targets, strict).lines == LinesOf(AcceptedRows(results, targets))
    ensures Yielded(results, targets, strict).rowErrors == AllErrors(results)
  {
    if results != [] {
      var before, last := results[..|results| - 1], results[|results| - 1];
      assert Consistent(last, |results| - 1 + 2);
      YieldedInFull(before, targets, strict);
      if last.transformed.Some? {
        AppendLine(AcceptedRows(before, targets), RowOf(last, targets));
      }
    }
  }

  lemma {:induction false} NoErrorsMeansAllAccepted(results: seq<RowResult>)
    requires Numbered(results)
    ensures AllErrors(results) == [] <==> AllAccepted(results)
  {
    if results != [] {
      var before, n := results[..|results| - 1], |results| - 1;
      assert Consistent(results[n], n + 2);
      NoErrorsMeansAllAccepted(before);
      assert AllAccepted(results) <==> AllAccepted(before) && results[n].transformed.Some?;
    }
  }

  /** A strict import is stopped exactly if a record is rejected, and reports the first one. */
  lemma {:induction false} StrictStopsAtTheFirst(results: seq<RowResult>, targets: seq<string>)
    ensures Yielded(results, targets, true).thrown == None <==> AllAccepted(results)
    ensures Yielded(results, targets, true).thrown.Some? ==>
      exists i :: 0 <= i < |results| && results[i].transformed == None && AllAccepted(results[..i])
                  && Yielded(results, targets, true).thrown.value == results[i].errors
  {
    if results != [] {
      var before, n := results[..|results| - 1], |results| - 1;
      StrictStopsAtTheFirst(before, targets);
      if AllAccepted(before) {
        assert AllAccepted(results) <==> results[n].transformed.Some?;
      } else {
        var i :| 0 <= i < |before| && before[i].transformed == None && AllAccepted(before[..i])
                 && Yielded(before, targets, true).thrown.value == before[i].errors;
        assert results[i] == before[i] && results[..i] == before[..i];
      }
    }
  }

  // Accounting.

  function Rejected(results: seq<RowResult>): nat {
    if results == [] then 0
    else Rejected(results[..|results| - 1]) + if results[|results| - 1].transformed.Some? then 0 else 1
  }

  function RowNumbers(errors: seq<RowError>): set<nat> {
    set e | e in errors :: e.row
  }

  /** Row n belongs to a rejected record. */
  predicate RejectedRow(results: seq<RowResult>, n: nat) {
    2 <= n < |results| + 2 && results[n - 2].transformed == None
  }

  lemma RowNumbersJoin(errors: seq<RowError>, more: seq<RowError>, row: nat)
    requires forall e :: e in more ==> e.row == row
    ensures RowNumbers(errors + more) == RowNumbers(errors) + if more == [] then {} else {row}
  {
    if more != [] {
      assert more[0] in errors + more;
    }
    forall n | n in RowNumbers(errors) ensures n in RowNumbers(errors + more) {
      var e :| e in errors && e.row == n;
      assert e in errors + more;
    }
  }

  lemma LastRow(results: seq<RowResult>)
    requires results != [] && Numbered(results)
    ensures var before := results[..|results| - 1]; var last := results[|results| - 1];
      && Numbered(before)
      && RowNumbers(AllErrors(results)) ==
           RowNumbers(AllErrors(before)) + if last.transformed.Some? then {} else {|results| + 1}
  {
    var before, last := results[..|results| - 1], results[|results| - 1];
    assert Consistent(last, |results| + 1);
    RowNumbersJoin(AllErrors(before), last.errors, |results| + 1);
  }

  /** Errors name exactly the rows of the rejected records. */
  lemma {:induction false} ErrorsNameTheRejected(results: seq<RowResult>, n: nat)
    requires Numbered(results)
    ensures n in RowNumbers(AllErrors(results)) <==> RejectedRow(results, n)
  {
    if results != [] {
      var before := results[..|results| - 1];
      LastRow(results);
      ErrorsNameTheRejected(before, n);
      assert n < |results| + 1 ==> (RejectedRow(results, n) <==> RejectedRow(before, n));
    }
  }

  lemma {:induction false} NamedRowsCount(results: seq<RowResult>)
    requires Numbered(results)
    ensures |RowNumbers(AllErrors(results))| == Rejected(results)
  {
    if results != [] {
      var before := results[..|results| - 1];
      LastRow(results);
      NamedRowsCount(before);
      ErrorsNameTheRejected(before, |results| + 1);
    }
  }

  lemma {:induction false} AcceptedAndRejected(results: seq<RowResult>, targets: seq<string>)
    ensures |AcceptedRows(results, targets)| + Rejected(results) == |results|
  {
    if results != [] {
      AcceptedAndRejected(results[..|results| - 1], targets);
    }
  }

  /** Every record is either a row or named in the errors. */
  lemma RecordsAreAccountedFor(plan: Plan, targets: seq<string>, records: seq<Record>)
    ensures |AcceptedRows(CheckAll(plan, records), targets)| + |RowNumbers(AllErrors(CheckAll(plan, records)))|
         == |records|
  {
    CheckIsNumbered(plan, records);
    NamedRowsCount(CheckAll(plan, records));
    AcceptedAndRejected(CheckAll(plan, records), targets);
  }

  /** A rejected record has one error and no more. */
  predicate OneErrorEach(results: seq<RowResult>) {
    forall i :: 0 <= i < |results| ==> |results[i].errors| <= 1
  }

  lemma OneErrorLast(results: seq<RowResult>)
    requires results != []
    ensures OneErrorEach(results) <==> OneErrorEach(results[..|results| - 1]) && |results[|results| - 1].errors| <= 1
  {
    var before := results[..|results| - 1];
    if OneErrorEach(before) && |results[|results| - 1].errors| <= 1 {
      assert forall i :: 0 <= i < |results| - 1 ==> results[i] == before[i];
    }
    if OneErrorEach(results) {
      assert forall i :: 0 <= i < |before| ==> before[i] == results[i];
    }
  }

  /** The stored total counts errors, not failing records: it is the number of records exactly if no
      record has two errors, and larger otherwise. */
  lemma {:induction false} TotalRowsCountsErrors(results: seq<RowResult>, targets: seq<string>)
    requires Numbered(results)
    ensures |AcceptedRows(results, targets)| + |AllErrors(results)| >= |results|
    ensures |AcceptedRows(results, targets)| + |AllErrors(results)| == |results| <==> OneErrorEach(results)
  {
    if results != [] {
      LastRow(results);
      TotalRowsCountsErrors(results[..|results| - 1], targets);
      OneErrorLast(results);
      assert Consistent(results[|results| - 1], |results| + 1);
    }
  }

  /** Two required columns that a record leaves blank. */
  function BlankPlan(lib: Library): Plan {
    Plan(Transformer(lib, TransformOptions(None, None)), map["a" := "a", "b" := "b"],
         [Column("a", Integer, false, false, false, false, None),
          Column("b", Integer, false, false, false, false, None)])
  }

  /** One record, two errors: its import stores a total of two. */
  lemma BlankRecordCountsTwice(lib: Library)
    ensures var results := CheckAll(BlankPlan(lib), [[("a", ""), ("b", "")]]);
      |results| == 1 && |AcceptedRows(results, ["a", "b"])| + |AllErrors(results)| == 2
  {
    var plan, record := BlankPlan(lib), [("a", ""), ("b", "")];
    assert IsNullToken("");
    assert Fails(plan, "a", "") && Fails(plan, "b", "");
    assert record[..1] == [("a", "")] && record[..1][..0] == [];
    assert |RowErrors(plan, 2, record[..1])| == 1;
    assert |RowErrors(plan, 2, record)| == 2;
    var results := CheckAll(plan, [record]);
    assert results[..0] == [] && results[0] == Checked(plan, 2, record);
  }
}
