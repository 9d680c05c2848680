/** Validation of a CSV column mapping against the columns of the target table. */
module ColumnMapping {
  import opened OrderedMaps
  import opened ValueTransformers

  datatype MappingError = UnknownHeader | UnknownTarget | GeneratedTarget | DuplicateTargets | MissingRequired

  datatype Validated =
    | Valid(columnMapping: map<string, string>, targetColumns: seq<string>)
    | Invalid(error: MappingError)

  /** The column a map built from the list gives for a name: the last one. */
  function ColumnNamed(columns: seq<Column>, name: string): (r: Option<Column>)
    ensures r.Some? ==> r.value in columns && r.value.name == name
    ensures r.None? ==> forall c :: c in columns ==> c.name != name
  {
    if columns == [] then None
    else if columns[|columns| - 1].name == name then Some(columns[|columns| - 1])
    else ColumnNamed(columns[..|columns| - 1], name)
  }

  function TargetOf(mapping: Option<map<string, string>>, header: string): string {
    if mapping.Some? && header in mapping.value then mapping.value[header] else header
  }

  function TargetsOf(mapping: Option<map<string, string>>, headers: seq<string>): (r: seq<string>)
    ensures |r| == |headers| && forall j :: 0 <= j < |headers| ==> r[j] == TargetOf(mapping, headers[j])
  {
    seq(|headers|, j requires 0 <= j < |headers| => TargetOf(mapping, headers[j]))
  }

  predicate Distinct(names: seq<string>) {
    forall i, j :: 0 <= i < j < |names| ==> names[i] != names[j]
  }

  predicate Required(c: Column) {
    !c.isNullable && !c.hasDefault && !c.isGenerated && !c.isIdentity
  }

  /** Why a column cannot be a target, if it cannot. */
  function TargetError(columns: seq<Column>, target: string): Option<MappingError> {
    match ColumnNamed(columns, target)
    case None => Some(UnknownTarget)
    case Some(c) => if c.isGenerated then Some(GeneratedTarget) else None
  }

  lemma DistinctAppend(before: seq<string>, last: string)
    ensures Distinct(before + [last]) <==> Distinct(before) && last !in before
  {
    var names := before + [last];
    if Distinct(names) {
      forall i, j | 0 <= i < j < |before| ensures before[i] != before[j] {
        assert names[i] != names[j];
      }
      forall i | 0 <= i < |before| ensures before[i] != last {
        assert names[i] != names[|before|];
      }
    }
  }

  function Members(names: seq<string>): set<string> {
    set n | n in names
  }

  /** A list has as many members as places exactly if it is distinct. */
  lemma {:induction false} DistinctCount(names: seq<string>)
    ensures |Members(names)| <= |names|
    ensures |Members(names)| == |names| <==> Distinct(names)
  {
    if names != [] {
      var last, before := names[|names| - 1], names[..|names| - 1];
      assert names == before + [last];
      DistinctCount(before);
      DistinctAppend(before, last);
      assert Members(names) == Members(before) + {last};
    }
  }

  predicate MapsUnknownHeader(headers: seq<string>, mapping: Option<map<string, string>>) {
    mapping.Some? && exists h :: h in mapping.value && h !in headers
  }

  predicate OmitsRequired(columns: seq<Column>, targets: seq<string>) {
    exists c :: c in columns && Required(c) && c.name !in targets
  }

  /** What the first target that cannot be used is refused for. */
  function FirstTargetError(columns: seq<Column>, targets: seq<string>): Option<MappingError> {
    if targets == [] then None
    else
      var earlier := FirstTargetError(columns, targets[..|targets| - 1]);
      if earlier.Some? then earlier else TargetError(columns, targets[|targets| - 1])
  }

  lemma {:induction false} NoTargetError(columns: seq<Column>, targets: seq<string>, j: nat)
    requires FirstTargetError(columns, targets) == None && j < |targets|
    ensures TargetError(columns, targets[j]) == None
  {
    if j < |targets| - 1 {
      NoTargetError(columns, targets[..|targets| - 1], j);
    }
  }

  /** Checked in this order: mapped headers exist, then each header in turn has a target that exists
      and is not generated, then targets are distinct, then every required column has one. */
  function Verdict(headers: seq<string>, mapping: Option<map<string, string>>, columns: seq<Column>)
    : Option<MappingError>
  {
    var targets := TargetsOf(mapping, headers);
    if MapsUnknownHeader(headers, mapping) then Some(UnknownHeader)
    else if FirstTargetError(columns, targets).Some? then FirstTargetError(columns, targets)
    else if !Distinct(targets) then Some(DuplicateTargets)
    else if OmitsRequired(columns, targets) then Some(MissingRequired)
    else None
  }

  /** columnMapping holds the target of every header and of nothing else. */
  ghost predicate MapsHeaders(columnMapping: map<string, string>, mapping: Option<map<string, string>>,
                              headers: seq<string>)
  {
    && (forall h :: h in columnMapping <==> h in headers)
    && (forall h :: h in columnMapping ==> columnMapping[h] == TargetOf(mapping, h))
  }

  lemma MapsOneMore(m: map<string, string>, mapping: Option<map<string, string>>, headers: seq<string>, header: string)
    requires MapsHeaders(m, mapping, headers)
    ensures MapsHeaders(m[header := TargetOf(mapping, header)], mapping, headers + [header])
  {
  }

  lemma FirstErrorNext(columns: seq<Column>, targets: seq<string>, target: string)
    requires FirstTargetError(columns, targets) == None
    ensures FirstTargetError(columns, targets + [target]) == TargetError(columns, target)
  {
    assert (targets + [target])[..|targets|] == targets;
  }

  lemma {:induction false} FirstErrorFound(columns: seq<Column>, targets: seq<string>, j: nat)
    requires j < |targets|
    ensures FirstTargetError(columns, targets[..j]) == None && TargetError(columns, targets[j]).Some? ==>
      FirstTargetError(columns, targets) == TargetError(columns, targets[j])
  {
    if j < |targets| - 1 {
      FirstErrorFound(columns, targets[..|targets| - 1], j);
      assert targets[..|targets| - 1][..j] == targets[..j];
    }
  }

  /** The first j headers are mapped, and none of them was refused. */
  ghost predicate Mapped(headers: seq<string>, mapping: Option<map<string, string>>, columns: seq<Column>, j: nat,
                         columnMapping: map<string, string>, targetColumns: seq<string>)
  {
    && j <= |headers|
    && targetColumns == TargetsOf(mapping, headers)[..j]
    && FirstTargetError(columns, targetColumns) == None
    && MapsHeaders(columnMapping, mapping, headers[..j])
  }

  lemma MapsNextHeader(headers: seq<string>, mapping: Option<map<string, string>>, j: nat,
                       columnMapping: map<string, string>)
    requires j < |headers| && MapsHeaders(columnMapping, mapping, headers[..j])
    ensures MapsHeaders(columnMapping[headers[j] := TargetOf(mapping, headers[j])], mapping, headers[..j + 1])
  {
    MapsOneMore(columnMapping, mapping, headers[..j], headers[j]);
    assert headers[..j + 1] == headers[..j] + [headers[j]];
  }

  lemma NextTarget(headers: seq<string>, mapping: Option<map<string, string>>, j: nat)
    requires j < |headers|
    ensures TargetsOf(mapping, headers)[..j + 1] == TargetsOf(mapping, headers)[..j] + [TargetOf(mapping, headers[j])]
  {
  }

  lemma MapsNext(headers: seq<string>, mapping: Option<map<string, string>>, columns: seq<Column>, j: nat,
                 columnMapping: map<string, string>, targetColumns: seq<string>)
    requires Mapped(headers, mapping, columns, j, columnMapping, targetColumns) && j < |headers|
    requires TargetError(columns, TargetOf(mapping, headers[j])) == None
    ensures var target := TargetOf(mapping, headers[j]);
      Mapped(headers, mapping, columns, j + 1, columnMapping[headers[j] := target], targetColumns + [target])
  {
    FirstErrorNext(columns, targetColumns, TargetOf(mapping, headers[j]));
    MapsNextHeader(headers, mapping, j, columnMapping);
    NextTarget(headers, mapping, j);
  }

  method MapHeaders(headers: seq<string>, mapping: Option<map<string, string>>, columns: seq<Column>)
      returns (r: Validated)
    ensures FirstTargetError(columns, TargetsOf(mapping, headers)) == if r.Invalid? then Some(r.error) else None
    ensures r.Valid? ==>
      r.targetColumns == TargetsOf(mapping, headers) && MapsHeaders(r.columnMapping, mapping, headers)
  {
    var columnMapping: map<string, string>, targetColumns: seq<string> := map[], [];
    for j := 0 to |headers|
      invariant Mapped(headers, mapping, columns, j, columnMapping, targetColumns)
    {
      var target := TargetOf(mapping, headers[j]);
      var metadata := ColumnNamed(columns, target);
      if metadata == None {
        FirstErrorFound(columns, TargetsOf(mapping, headers), j);
        return Invalid(UnknownTarget);
      }
      if metadata.value.isGenerated {
        FirstErrorFound(columns, TargetsOf(mapping, headers), j);
        return Invalid(GeneratedTarget);
      }
      MapsNext(headers, mapping, columns, j, columnMapping, targetColumns);
      columnMapping := columnMapping[headers[j] := target];
      targetColumns := targetColumns + [target];
    }
    assert headers[..|headers|] == headers && TargetsOf(mapping, headers)[..|headers|] == TargetsOf(mapping, headers);
    r := Valid(columnMapping, targetColumns);
  }

  method Validate(headers: seq<string>, mapping: Option<map<string, string>>, columns: seq<Column>)
      returns (r: Validated)
    ensures Verdict(headers, mapping, columns) == if r.Valid? then None else Some(r.error)
    ensures r.Valid? ==>
      r.targetColumns == TargetsOf(mapping, headers) && MapsHeaders(r.columnMapping, mapping, headers)
    // A header goes where the mapping sends it, and else to the column of its own name.
    ensures r.Valid? ==> |r.targetColumns| == |headers|
    ensures r.Valid? ==>
      forall j :: 0 <= j < |headers| ==>
        && headers[j] in r.columnMapping && r.columnMapping[headers[j]] == r.targetColumns[j]
        && (mapping.Some? && headers[j] in mapping.value ==> r.targetColumns[j] == mapping.value[headers[j]])
        && (mapping == None || headers[j] !in mapping.value ==> r.targetColumns[j] == headers[j])
  {
    if MapsUnknownHeader(headers, mapping) {
      return Invalid(UnknownHeader);
    }
    r := MapHeaders(headers, mapping, columns);
    if r.Invalid? {
      return;
    }
    DistinctCount(r.targetColumns);
    if |Members(r.targetColumns)| != |r.targetColumns| {
      return Invalid(DuplicateTargets);
    }
    if OmitsRequired(columns, r.targetColumns) {
      return Invalid(MissingRequired);
    }
  }

  lemma HeaderAt(headers: seq<string>, h: string) returns (i: nat)
    requires h in headers
    ensures i < |headers| && headers[i] == h
  {
    i :| i < |headers| && headers[i] == h;
  }

  lemma MappingIsInjective(headers: seq<string>, mapping: Option<map<string, string>>,
                           columnMapping: map<string, string>, g: string, h: string)
    requires Distinct(TargetsOf(mapping, headers)) && MapsHeaders(columnMapping, mapping, headers)
    requires g in columnMapping && h in columnMapping && g != h
    ensures columnMapping[g] != columnMapping[h]
  {
    var targets := TargetsOf(mapping, headers);
    var i := HeaderAt(headers, g);
    var j := HeaderAt(headers, h);
    assert targets[i] != targets[j];
  }

  lemma TargetIsMapped(headers: seq<string>, mapping: Option<map<string, string>>, columnMapping: map<string, string>,
                       target: string)
    requires MapsHeaders(columnMapping, mapping, headers) && target in TargetsOf(mapping, headers)
    ensures target in columnMapping.Values
  {
    var j := HeaderAt(TargetsOf(mapping, headers), target);
    assert headers[j] in columnMapping && columnMapping[headers[j]] == target;
  }

  lemma MappedIsUsable(headers: seq<string>, mapping: Option<map<string, string>>, columns: seq<Column>,
                       columnMapping: map<string, string>, h: string)
    requires FirstTargetError(columns, TargetsOf(mapping, headers)) == None
    requires MapsHeaders(columnMapping, mapping, headers)
    requires h in columnMapping
    ensures ColumnNamed(columns, columnMapping[h]).Some? && !ColumnNamed(columns, columnMapping[h]).value.isGenerated
  {
    var j := HeaderAt(headers, h);
    NoTargetError(columns, TargetsOf(mapping, headers), j);
  }

  ghost predicate Injective(m: map<string, string>) {
    forall g, h :: g in m && h in m && g != h ==> m[g] != m[h]
  }

  ghost predicate CoversRequired(m: map<string, string>, columns: seq<Column>) {
    forall c :: c in columns && Required(c) ==> c.name in m.Values
  }

  ghost predicate AvoidsGenerated(m: map<string, string>, columns: seq<Column>) {
    forall h :: h in m ==> ColumnNamed(columns, m[h]).Some? && !ColumnNamed(columns, m[h]).value.isGenerated
  }

  /** A mapping that passes sends distinct headers to distinct columns, covers every column that needs
      a value, and touches no generated one. */
  lemma ValidMappingsAlign(headers: seq<string>, mapping: Option<map<string, string>>, columns: seq<Column>,
                           columnMapping: map<string, string>)
    requires Verdict(headers, mapping, columns) == None && MapsHeaders(columnMapping, mapping, headers)
    ensures Injective(columnMapping)
    ensures CoversRequired(columnMapping, columns) && AvoidsGenerated(columnMapping, columns)
  {
    forall g, h | g in columnMapping && h in columnMapping && g != h ensures columnMapping[g] != columnMapping[h] {
      MappingIsInjective(headers, mapping, columnMapping, g, h);
    }
    forall c | c in columns && Required(c) ensures c.name in columnMapping.Values {
      assert c.name in TargetsOf(mapping, headers);
      TargetIsMapped(headers, mapping, columnMapping, c.name);
    }
    forall h | h in columnMapping
      ensures ColumnNamed(columns, columnMapping[h]).Some? && !ColumnNamed(columns, columnMapping[h]).value.isGenerated
    {
      MappedIsUsable(headers, mapping, columns, columnMapping, h);
    }
  }

  /** A column that exists and whose value is not generated. */
  predicate Usable(columns: seq<Column>, name: string) {
    ColumnNamed(columns, name).Some? && !ColumnNamed(columns, name).value.isGenerated
  }

  lemma {:induction false} NoErrorIfUsable(columns: seq<Column>, targets: seq<string>)
    ensures FirstTargetError(columns, targets) == None <==>
      forall j :: 0 <= j < |targets| ==> Usable(columns, targets[j])
  {
    if targets != [] {
      var before := targets[..|targets| - 1];
      NoErrorIfUsable(columns, before);
      assert forall j :: 0 <= j < |before| ==> before[j] == targets[j];
    }
  }

  /** Every column that may not be null and gets no value of its own is a target. */
  ghost predicate NothingMissing(columns: seq<Column>, targets: seq<string>) {
    forall c :: c in columns && !c.isNullable && !(c.hasDefault || c.isGenerated || c.isIdentity) ==> c.name in targets
  }

  /** Which mappings are accepted: those whose headers exist, whose targets exist, are not generated and are
      distinct, and that leave out no column that needs a value. */
  lemma MappingsAcceptedExactly(headers: seq<string>, mapping: Option<map<string, string>>, columns: seq<Column>)
    ensures var targets := TargetsOf(mapping, headers);
      Verdict(headers, mapping, columns) == None <==>
        && (mapping.Some? ==> forall h :: h in mapping.value ==> h in headers)
        && (forall j :: 0 <= j < |headers| ==> Usable(columns, targets[j]))
        && (forall i, j :: 0 <= i < j < |headers| ==> targets[i] != targets[j])
        && NothingMissing(columns, targets)
  {
    NoErrorIfUsable(columns, TargetsOf(mapping, headers));
  }

  /** Which error a refused mapping gets: the first that applies of an unknown header, a missing or generated
      target, two headers for one target, and a required column left out. */
  lemma MappingsRefusedInOrder(headers: seq<string>, mapping: Option<map<string, string>>, columns: seq<Column>)
    ensures var targets, verdict := TargetsOf(mapping, headers), Verdict(headers, mapping, columns);
      var headersExist := mapping.Some? ==> forall h :: h in mapping.value ==> h in headers;
      var targetsUsable := forall j :: 0 <= j < |headers| ==> Usable(columns, targets[j]);
      && (verdict == Some(UnknownHeader) <==> !headersExist)
      && (verdict in {Some(UnknownTarget), Some(GeneratedTarget)} <==> headersExist && !targetsUsable)
      && (verdict == Some(DuplicateTargets) <==> headersExist && targetsUsable && !Distinct(targets))
      && (verdict == Some(MissingRequired) <==>
            headersExist && targetsUsable && Distinct(targets) && !NothingMissing(columns, targets))
  {
    NoErrorIfUsable(columns, TargetsOf(mapping, headers));
    TargetErrorsOnly(columns, TargetsOf(mapping, headers));
  }

  lemma {:induction false} TargetErrorsOnly(columns: seq<Column>, targets: seq<string>)
    ensures FirstTargetError(columns, targets) in {None, Some(UnknownTarget), Some(GeneratedTarget)}
  {
    if targets != [] {
      TargetErrorsOnly(columns, targets[..|targets| - 1]);
    }
  }

  /** The error of the first target that cannot be used says whether its column exists. */
  lemma FirstBadTarget(columns: seq<Column>, targets: seq<string>, j: nat)
    requires j < |targets| && !Usable(columns, targets[j])
    requires forall i :: 0 <= i < j ==> Usable(columns, targets[i])
    ensures FirstTargetError(columns, targets) ==
      Some(if forall c :: c in columns ==> c.name != targets[j] then UnknownTarget else GeneratedTarget)
  {
    NoErrorIfUsable(columns, targets[..j]);
    FirstErrorFound(columns, targets, j);
  }
}
