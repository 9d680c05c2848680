/** What an import is to put into the table, said without the steps that put it there: of every record
    whose cells all convert, one row, and in it for every header the conversion of that header's cell to
    the column the mapping names. */
module ImportedRows {
  import opened OrderedMaps
  import opened ValueTransformers
  import opened ColumnMapping
  import opened RowValidation
  import opened CopyPipeline

  /** What is known of a file before its records are read. */
  datatype Setup = Setup(
    transform: (string, Column) -> TransformResult, headers: seq<string>, mapping: Option<map<string, string>>,
    columns: seq<Column>)

  ghost predicate Accepts(u: Setup) {
    Verdict(u.headers, u.mapping, u.columns) == None && forall c :: c in u.columns ==> c.name != ""
  }

  /** The column that header j goes to. */
  ghost function ColumnFor(u: Setup, j: nat): (c: Column)
    requires Accepts(u) && j < |u.headers|
    ensures c in u.columns
    ensures c.name ==
      if u.mapping.Some? && u.headers[j] in u.mapping.value then u.mapping.value[u.headers[j]] else u.headers[j]
  {
    NoTargetError(u.columns, TargetsOf(u.mapping, u.headers), j);
    ColumnNamed(u.columns, TargetOf(u.mapping, u.headers[j])).value
  }

  function CellOf(record: Record, header: string): string {
    if record == [] then ""
    else if record[|record| - 1].0 == header then record[|record| - 1].1
    else CellOf(record[..|record| - 1], header)
  }

  ghost function Conversion(u: Setup, record: Record, j: nat): TransformResult
    requires Accepts(u) && j < |u.headers|
  {
    u.transform(CellOf(record, u.headers[j]), ColumnFor(u, j))
  }

  /** With the conversions by type, the one of the type of the column. */
  lemma ConversionByType(u: Setup, lib: Library, options: TransformOptions, record: Record, j: nat)
    requires Accepts(u) && j < |u.headers| && u.transform == Transformer(lib, options)
    ensures Conversion(u, record, j) == TransformValue(lib, CellOf(record, u.headers[j]), ColumnFor(u, j), options)
  {
  }

  ghost predicate Converts(u: Setup, record: Record)
    requires Accepts(u)
  {
    forall j: nat :: j < |u.headers| ==> Conversion(u, record, j).Success?
  }

  ghost function ConvertedRow(u: Setup, record: Record): (row: Row)
    requires Accepts(u) && Converts(u, record)
    ensures |row| == |u.headers|
    ensures forall j: nat :: j < |u.headers| ==> row[j] == Conversion(u, record, j).value
  {
    seq(|u.headers|, j requires 0 <= j < |u.headers| => Conversion(u, record, j).value)
  }

  /** The rows of the records that convert, in order. */
  ghost function ConvertedRows(u: Setup, records: seq<Record>): (rows: seq<Row>)
    requires Accepts(u)
    ensures |rows| <= |records|
  {
    if records == [] then []
    else
      var last := records[|records| - 1];
      ConvertedRows(u, records[..|records| - 1]) + if Converts(u, last) then [ConvertedRow(u, last)] else []
  }

  ghost predicate AllConvert(u: Setup, records: seq<Record>)
    requires Accepts(u)
  {
    forall k :: 0 <= k < |records| ==> Converts(u, records[k])
  }

  /** Every record has one cell for every header. */
  ghost predicate FileOf(u: Setup, records: seq<Record>) {
    forall k :: 0 <= k < |records| ==> RecordOf(records[k], u.headers)
  }

  /** The plan that preparing such an import makes. */
  ghost predicate PlanOf(u: Setup, plan: Plan) {
    && plan.transform == u.transform && plan.columns == u.columns
    && MapsHeaders(plan.columnMapping, u.mapping, u.headers)
  }

  lemma {:induction false} CellIsFound(record: Record, i: nat)
    requires DistinctHeaders(record) && i < |record|
    ensures CellOf(record, record[i].0) == record[i].1
  {
    if i < |record| - 1 {
      assert record[|record| - 1].0 != record[i].0;
      CellIsFound(record[..|record| - 1], i);
    }
  }

  lemma CellPlace(u: Setup, record: Record, j: nat) returns (i: nat)
    requires RecordOf(record, u.headers) && j < |u.headers|
    ensures i < |record| && record[i].0 == u.headers[j] && CellOf(record, u.headers[j]) == record[i].1
  {
    assert HasCell(record, u.headers[j]);
    i :| i < |record| && record[i].0 == u.headers[j];
    CellIsFound(record, i);
  }

  /** The row validator fails a cell exactly if its conversion does. */
  lemma CellFails(u: Setup, plan: Plan, record: Record, j: nat, i: nat)
    requires Accepts(u) && PlanOf(u, plan) && RecordOf(record, u.headers)
    requires j < |u.headers| && i < |record| && record[i].0 == u.headers[j]
    ensures Fails(plan, record[i].0, record[i].1) <==> Conversion(u, record, j).Error?
  {
    CellIsFound(record, i);
    assert u.headers[j] in plan.columnMapping;
    assert ColumnFor(u, j).name != "";
  }

  /** A record is accepted exactly if all of its cells convert. */
  lemma AcceptedExactly(u: Setup, plan: Plan, row: nat, record: Record)
    requires Accepts(u) && PlanOf(u, plan) && RecordOf(record, u.headers)
    ensures RowErrors(plan, row, record) == [] <==> Converts(u, record)
  {
    NoErrorsNoFailures(plan, row, record);
    if RowErrors(plan, row, record) == [] {
      forall j: nat | j < |u.headers| ensures Conversion(u, record, j).Success? {
        var i := CellPlace(u, record, j);
        CellFails(u, plan, record, j, i);
      }
    }
    if Converts(u, record) {
      forall i | 0 <= i < |record| ensures !Fails(plan, record[i].0, record[i].1) {
        var j := HeaderAt(u.headers, record[i].0);
        CellFails(u, plan, record, j, i);
      }
    }
  }

  lemma AcceptedRowConverts(u: Setup, plan: Plan, row: nat, record: Record)
    requires Accepts(u) && PlanOf(u, plan) && RecordOf(record, u.headers) && Converts(u, record)
    ensures CopyFields(RowValues(plan, record), TargetsOf(u.mapping, u.headers)) == ConvertedRow(u, record)
  {
    AcceptedExactly(u, plan, row, record);
    var fields := CopyFields(RowValues(plan, record), TargetsOf(u.mapping, u.headers));
    forall j: nat | j < |u.headers| ensures fields[j] == ConvertedRow(u, record)[j] {
      var i := CellPlace(u, record, j);
      FieldsAlign(u.headers, u.mapping, plan, row, record, i, j);
    }
  }

  lemma ResultConverts(u: Setup, plan: Plan, records: seq<Record>, k: nat)
    requires Accepts(u) && PlanOf(u, plan) && k < |records| && RecordOf(records[k], u.headers)
    ensures CheckAll(plan, records)[k].transformed.Some? <==> Converts(u, records[k])
  {
    AcceptedExactly(u, plan, k + 2, records[k]);
  }

  lemma AllAcceptedConvert(u: Setup, plan: Plan, records: seq<Record>)
    requires Accepts(u) && PlanOf(u, plan) && FileOf(u, records)
    ensures AllAccepted(CheckAll(plan, records)) <==> AllConvert(u, records)
  {
    forall k: nat | k < |records| { ResultConverts(u, plan, records, k); }
  }

  /** The row that a validated record adds, if it adds one, and the one that its conversion adds. */
  function Validated(result: RowResult, targets: seq<string>): seq<Row> {
    if result.transformed.Some? then [RowOf(result, targets)] else []
  }

  ghost function Converted(u: Setup, record: Record): seq<Row>
    requires Accepts(u)
  {
    if Converts(u, record) then [ConvertedRow(u, record)] else []
  }

  lemma ValidatedIsConverted(u: Setup, plan: Plan, row: nat, record: Record)
    requires Accepts(u) && PlanOf(u, plan) && RecordOf(record, u.headers)
    ensures Validated(Checked(plan, row, record), TargetsOf(u.mapping, u.headers)) == Converted(u, record)
  {
    AcceptedExactly(u, plan, row, record);
    if Converts(u, record) {
      AcceptedRowConverts(u, plan, row, record);
    }
  }

  lemma ResultIsConverted(u: Setup, plan: Plan, records: seq<Record>, k: nat)
    requires Accepts(u) && PlanOf(u, plan) && k < |records| && RecordOf(records[k], u.headers)
    ensures Validated(CheckAll(plan, records)[k], TargetsOf(u.mapping, u.headers)) == Converted(u, records[k])
  {
    ValidatedIsConverted(u, plan, k + 2, records[k]);
  }

  /** The first n lists one after another. */
  function Flat(rows: seq<seq<Row>>, n: nat): seq<Row>
    requires n <= |rows|
  {
    if n == 0 then [] else Flat(rows, n - 1) + rows[n - 1]
  }

  lemma {:induction false} AcceptedAreFlat(results: seq<RowResult>, targets: seq<string>, rows: seq<seq<Row>>, n: nat)
    requires n <= |rows| == |results|
    requires forall k :: 0 <= k < |results| ==> rows[k] == Validated(results[k], targets)
    ensures AcceptedRows(results[..n], targets) == Flat(rows, n)
  {
    if n > 0 {
      AcceptedAreFlat(results, targets, rows, n - 1);
      assert results[..n][..n - 1] == results[..n - 1];
    }
  }

  lemma {:induction false} ConvertedAreFlat(u: Setup, records: seq<Record>, rows: seq<seq<Row>>, n: nat)
    requires Accepts(u) && n <= |rows| == |records|
    requires forall k :: 0 <= k < |records| ==> rows[k] == Converted(u, records[k])
    ensures ConvertedRows(u, records[..n]) == Flat(rows, n)
  {
    if n > 0 {
      ConvertedAreFlat(u, records, rows, n - 1);
      assert records[..n][..n - 1] == records[..n - 1];
    }
  }

  lemma EachIsConverted(u: Setup, plan: Plan, records: seq<Record>) returns (rows: seq<seq<Row>>)
    requires Accepts(u) && PlanOf(u, plan) && FileOf(u, records)
    ensures |rows| == |records|
    ensures forall k :: 0 <= k < |records| ==> rows[k] == Converted(u, records[k])
    ensures forall k :: 0 <= k < |records| ==>
      rows[k] == Validated(CheckAll(plan, records)[k], TargetsOf(u.mapping, u.headers))
  {
    rows := seq(|records|, k requires 0 <= k < |records| => Converted(u, records[k]));
    forall k: nat | k < |records| { ResultIsConverted(u, plan, records, k); }
  }

  lemma SameRows(u: Setup, results: seq<RowResult>, records: seq<Record>, targets: seq<string>, rows: seq<seq<Row>>)
    requires Accepts(u) && |rows| == |records| == |results|
    requires forall k :: 0 <= k < |records| ==> rows[k] == Converted(u, records[k])
    requires forall k :: 0 <= k < |records| ==> rows[k] == Validated(results[k], targets)
    ensures AcceptedRows(results, targets) == ConvertedRows(u, records)
  {
    AcceptedAreFlat(results, targets, rows, |records|);
    ConvertedAreFlat(u, records, rows, |records|);
    assert records[..|records|] == records && results[..|results|] == results;
  }

  /** The rows that validation, with its numbering, errors and order of cells, makes of a file are exactly
      the rows of the records that convert. */
  lemma AcceptedRowsAreConverted(u: Setup, plan: Plan, records: seq<Record>)
    requires Accepts(u) && PlanOf(u, plan) && FileOf(u, records)
    ensures AcceptedRows(CheckAll(plan, records), TargetsOf(u.mapping, u.headers)) == ConvertedRows(u, records)
  {
    var rows := EachIsConverted(u, plan, records);
    SameRows(u, CheckAll(plan, records), records, TargetsOf(u.mapping, u.headers), rows);
  }
}
