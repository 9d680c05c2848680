/** One CSV record against the mapped columns: its values, or every error in it. */
module RowValidation {
  import opened OrderedMaps
  import opened ValueTransformers
  import opened ColumnMapping

  /** The entries of a parsed record, header and cell, in the order they are enumerated. */
  type Record = seq<(string, string)>

  type Values = map<string, Option<string>>

  datatype Plan = Plan(
    transform: (string, Column) -> TransformResult, columnMapping: map<string, string>, columns: seq<Column>)

  datatype RowError = RowError(
    row: nat, csvColumn: string, databaseColumn: string, value: string, targetType: DataType, failure: Failure)

  datatype RowResult = RowResult(transformed: Option<Values>, errors: seq<RowError>)

  /** The column a cell goes to; cells of headers that are not mapped to a column are passed over. */
  function ColumnOf(plan: Plan, header: string): Option<Column> {
    if header !in plan.columnMapping || plan.columnMapping[header] == "" then None
    else ColumnNamed(plan.columns, plan.columnMapping[header])
  }

  /** What becomes of a cell whose header goes to a column. */
  function CellResult(plan: Plan, header: string, cell: string): (r: TransformResult)
    requires ColumnOf(plan, header).Some?
  {
    plan.transform(cell, ColumnOf(plan, header).value)
  }

  predicate Fails(plan: Plan, header: string, cell: string) {
    ColumnOf(plan, header).Some? && CellResult(plan, header, cell).Error?
  }

  function ErrorOf(plan: Plan, row: nat, header: string, cell: string): RowError
    requires Fails(plan, header, cell)
  {
    var column := ColumnOf(plan, header).value;
    RowError(row, header, plan.columnMapping[header], cell, column.dataType, CellResult(plan, header, cell).failure)
  }

  /** One error per failing cell, in the order of the cells. */
  function RowErrors(plan: Plan, row: nat, record: Record): (errors: seq<RowError>)
    ensures |errors| <= |record|
  {
    if record == [] then []
    else
      var (header, cell) := record[|record| - 1];
      RowErrors(plan, row, record[..|record| - 1]) +
        if Fails(plan, header, cell) then [ErrorOf(plan, row, header, cell)] else []
  }

  /** The values of the cells that convert; of two cells for one column the later. */
  function RowValues(plan: Plan, record: Record): Values {
    if record == [] then map[]
    else
      var (header, cell) := record[|record| - 1];
      var earlier := RowValues(plan, record[..|record| - 1]);
      if ColumnOf(plan, header).Some? && CellResult(plan, header, cell).Success? then
        earlier[plan.columnMapping[header] := CellResult(plan, header, cell).value]
      else earlier
  }

  function Checked(plan: Plan, row: nat, record: Record): RowResult {
    var errors := RowErrors(plan, row, record);
    RowResult(if errors == [] then Some(RowValues(plan, record)) else None, errors)
  }

  method ValidateRow(plan: Plan, row: nat, record: Record) returns (r: RowResult)
    ensures r == Checked(plan, row, record)
  {
    var errors: seq<RowError>, transformed: Values := [], map[];
    for i := 0 to |record|
      invariant errors == RowErrors(plan, row, record[..i])
      invariant transformed == RowValues(plan, record[..i])
    {
      assert record[..i + 1][..i] == record[..i] && record[..i + 1][i] == record[i];
      var (header, cell) := record[i];
      if header !in plan.columnMapping || plan.columnMapping[header] == "" {
        continue;
      }
      var column := ColumnNamed(plan.columns, plan.columnMapping[header]);
      if column == None {
        continue;
      }
      var result := plan.transform(cell, column.value);
      if result.Error? {
        var target, dataType := plan.columnMapping[header], column.value.dataType;
        errors := errors + [RowError(row, header, target, cell, dataType, result.failure)];
        continue;
      }
      transformed := transformed[plan.columnMapping[header] := result.value];
    }
    assert record[..|record|] == record;
    r := RowResult(if errors == [] then Some(transformed) else None, errors);
  }

  /** The fields of the COPY line, in the order of the target columns. */
  function CopyFields(values: Values, targets: seq<string>): (r: seq<Option<string>>)
    ensures |r| == |targets|
    ensures forall j :: 0 <= j < |targets| ==> r[j] == if targets[j] in values then values[targets[j]] else None
  {
    seq(|targets|, j requires 0 <= j < |targets| => if targets[j] in values then values[targets[j]] else None)
  }

  lemma {:induction false} ErrorsNumberTheirRow(plan: Plan, row: nat, record: Record)
    ensures forall e :: e in RowErrors(plan, row, record) ==> e.row == row
  {
    if record != [] {
      ErrorsNumberTheirRow(plan, row, record[..|record| - 1]);
    }
  }

  // Alignment.

  predicate DistinctHeaders(record: Record) {
    forall i, j :: 0 <= i < j < |record| ==> record[i].0 != record[j].0
  }

  predicate HasCell(record: Record, h: string) {
    exists i :: 0 <= i < |record| && record[i].0 == h
  }

  /** A record of the file: one cell for every header. */
  ghost predicate RecordOf(record: Record, headers: seq<string>) {
    && DistinctHeaders(record)
    && (forall i :: 0 <= i < |record| ==> record[i].0 in headers)
    && (forall h :: h in headers ==> HasCell(record, h))
  }

  /** The mapping sends every header to a column of its own. */
  ghost predicate Aligned(plan: Plan) {
    && Injective(plan.columnMapping)
    && forall h :: h in plan.columnMapping ==> ColumnOf(plan, h).Some?
  }

  /** The error of a failing cell: its row, header and text, the column the mapping names for the header, that
      column's type, and why the conversion failed. */
  predicate IsErrorOf(plan: Plan, row: nat, entry: (string, string), e: RowError) {
    && entry.0 in plan.columnMapping && plan.columnMapping[entry.0] != ""
    && var column := ColumnNamed(plan.columns, plan.columnMapping[entry.0]);
       && column.Some?
       && plan.transform(entry.1, column.value) == Error(e.failure)
       && e.row == row && e.csvColumn == entry.0 && e.value == entry.1
       && e.databaseColumn == column.value.name && e.targetType == column.value.dataType
  }

  /** A failing cell is reported, and only failing cells are. */
  lemma {:induction false} ErrorsAreTheFailingCells(plan: Plan, row: nat, record: Record, e: RowError)
    ensures e in RowErrors(plan, row, record) <==>
      exists i :: 0 <= i < |record| && IsErrorOf(plan, row, record[i], e)
  {
    if record != [] {
      var before := record[..|record| - 1];
      ErrorsAreTheFailingCells(plan, row, before, e);
      if i :| 0 <= i < |record| && IsErrorOf(plan, row, record[i], e) {
        if i < |record| - 1 {
          assert before[i] == record[i];
        }
      }
      if i :| 0 <= i < |before| && IsErrorOf(plan, row, before[i], e) {
        assert record[i] == before[i];
      }
    }
  }

  lemma {:induction false} NoErrorsNoFailures(plan: Plan, row: nat, record: Record)
    ensures RowErrors(plan, row, record) == [] <==>
      forall i :: 0 <= i < |record| ==> !Fails(plan, record[i].0, record[i].1)
  {
    if record != [] {
      var before := record[..|record| - 1];
      NoErrorsNoFailures(plan, row, before);
      assert forall i :: 0 <= i < |before| ==> before[i] == record[i];
    }
  }

  /** The value of a column comes from the one cell whose header goes to it. */
  lemma {:induction false} ValueFromCell(plan: Plan, record: Record, i: nat)
    requires Aligned(plan) && DistinctHeaders(record) && i < |record| && record[i].0 in plan.columnMapping
    requires CellResult(plan, record[i].0, record[i].1).Success?
    ensures var target := plan.columnMapping[record[i].0];
      && target in RowValues(plan, record)
      && RowValues(plan, record)[target] == CellResult(plan, record[i].0, record[i].1).value
  {
    var before := record[..|record| - 1];
    var last := record[|record| - 1].0;
    if i < |record| - 1 {
      assert before[i] == record[i];
      ValueFromCell(plan, before, i);
      if last in plan.columnMapping {
        assert plan.columnMapping[last] != plan.columnMapping[record[i].0];
      }
    }
  }

  lemma {:induction false} ValuesAreMapped(plan: Plan, record: Record, target: string)
    requires target in RowValues(plan, record)
    ensures exists i ::
      0 <= i < |record| && record[i].0 in plan.columnMapping && plan.columnMapping[record[i].0] == target
  {
    var before := record[..|record| - 1];
    if target in RowValues(plan, before) {
      ValuesAreMapped(plan, before, target);
      var i :| 0 <= i < |before| && before[i].0 in plan.columnMapping && plan.columnMapping[before[i].0] == target;
      assert record[i] == before[i];
    }
  }

  lemma MappingAligns(headers: seq<string>, mapping: Option<map<string, string>>, plan: Plan)
    requires Verdict(headers, mapping, plan.columns) == None && MapsHeaders(plan.columnMapping, mapping, headers)
    requires forall c :: c in plan.columns ==> c.name != ""
    ensures Aligned(plan)
  {
    ValidMappingsAlign(headers, mapping, plan.columns, plan.columnMapping);
    forall h | h in plan.columnMapping ensures ColumnOf(plan, h).Some? {
      assert ColumnNamed(plan.columns, plan.columnMapping[h]).Some?;
    }
  }

  /** Field j of the COPY line of an accepted record is the conversion of the cell of header j. */
  lemma FieldsAlign(headers: seq<string>, mapping: Option<map<string, string>>, plan: Plan, row: nat, record: Record,
                    i: nat, j: nat)
    requires Verdict(headers, mapping, plan.columns) == None && MapsHeaders(plan.columnMapping, mapping, headers)
    requires forall c :: c in plan.columns ==> c.name != ""
    requires RecordOf(record, headers) && RowErrors(plan, row, record) == []
    requires i < |record| && j < |headers| && record[i].0 == headers[j]
    ensures var targets := TargetsOf(mapping, headers);
      && plan.columnMapping[headers[j]] == targets[j]
      && ColumnNamed(plan.columns, targets[j]).Some?
      && plan.transform(record[i].1, ColumnNamed(plan.columns, targets[j]).value)
           == Success(CopyFields(RowValues(plan, record), targets)[j])
  {
    MappingAligns(headers, mapping, plan);
    NoErrorsNoFailures(plan, row, record);
    assert headers[j] in plan.columnMapping && ColumnOf(plan, headers[j]).Some?;
    assert !Fails(plan, record[i].0, record[i].1);
    ValueFromCell(plan, record, i);
  }

  /** And with the conversions by type: it goes to the column the mapping names for the header, or else to the
      one of its own name, and is NULL only for a null token in a column that may be null or has a default. */
  lemma AcceptedRowsAlign(lib: Library, options: TransformOptions, headers: seq<string>,
                          mapping: Option<map<string, string>>, plan: Plan, row: nat, record: Record, i: nat, j: nat)
    requires plan.transform == Transformer(lib, options)
    requires Verdict(headers, mapping, plan.columns) == None && MapsHeaders(plan.columnMapping, mapping, headers)
    requires forall c :: c in plan.columns ==> c.name != ""
    requires RecordOf(record, headers) && RowErrors(plan, row, record) == []
    requires i < |record| && j < |headers| && record[i].0 == headers[j]
    ensures var targets := TargetsOf(mapping, headers);
      && plan.columnMapping[headers[j]] == targets[j]
      && (mapping.Some? && headers[j] in mapping.value ==> targets[j] == mapping.value[headers[j]])
      && (mapping == None || headers[j] !in mapping.value ==> targets[j] == headers[j])
      && ColumnNamed(plan.columns, targets[j]).Some?
      && var column := ColumnNamed(plan.columns, targets[j]).value;
         var field := CopyFields(RowValues(plan, record), targets)[j];
         && TransformValue(lib, record[i].1, column, options) == Success(field)
         && (field == None <==> IsNullToken(record[i].1))
         && (field == None ==> column.isNullable || column.hasDefault)
  {
    FieldsAlign(headers, mapping, plan, row, record, i, j);
  }

  lemma TargetHasValue(headers: seq<string>, mapping: Option<map<string, string>>, plan: Plan, row: nat, record: Record,
                       j: nat)
    requires Aligned(plan) && MapsHeaders(plan.columnMapping, mapping, headers)
    requires RecordOf(record, headers) && RowErrors(plan, row, record) == [] && j < |headers|
    ensures TargetOf(mapping, headers[j]) in RowValues(plan, record)
  {
    NoErrorsNoFailures(plan, row, record);
    assert HasCell(record, headers[j]);
    var i :| 0 <= i < |record| && record[i].0 == headers[j];
    assert headers[j] in plan.columnMapping && !Fails(plan, record[i].0, record[i].1);
    ValueFromCell(plan, record, i);
  }

  lemma AcceptedRowsHaveTheTargets(headers: seq<string>, mapping: Option<map<string, string>>, plan: Plan, row: nat,
                                   record: Record, target: string)
    requires Verdict(headers, mapping, plan.columns) == None && MapsHeaders(plan.columnMapping, mapping, headers)
    requires forall c :: c in plan.columns ==> c.name != ""
    requires RecordOf(record, headers) && RowErrors(plan, row, record) == []
    ensures target in RowValues(plan, record) <==> target in TargetsOf(mapping, headers)
  {
    MappingAligns(headers, mapping, plan);
    if target in TargetsOf(mapping, headers) {
      var j := HeaderAt(TargetsOf(mapping, headers), target);
      TargetHasValue(headers, mapping, plan, row, record, j);
    }
    if target in RowValues(plan, record) {
      ValuesAreMapped(plan, record, target);
      var i :| 0 <= i < |record| && record[i].0 in plan.columnMapping && plan.columnMapping[record[i].0] == target;
      var j := HeaderAt(headers, record[i].0);
      assert TargetsOf(mapping, headers)[j] == target;
    }
  }
}
