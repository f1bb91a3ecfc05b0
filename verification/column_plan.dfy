/**
 * The first stage of `createWorksheet`: the column plan. One pass over the
 * grid's columns keeps the retained ones, adds up their widths, and records
 * a cell type for each retained column that has a `dataIndex`.
 */
module ColumnPlan {
  import opened Wrappers
  import opened Grid

  /** The cell types of the typed retained columns, in order, and the total retained width. */
  datatype Plan = Plan(cellTypes: seq<CellType>, totalWidth: nat)

  /** The sum of the columns' widths. */
  function SumWidths(cs: seq<Column>): nat
  {
    if |cs| == 0 then 0 else SumWidths(cs[..|cs| - 1]) + cs[|cs| - 1].width
  }

  /** Every column's field is described by the field-type map. */
  predicate AllKnown(cs: seq<Column>, fields: FieldTypes)
  {
    forall k :: 0 <= k < |cs| ==> FieldKey(cs[k]) in fields
  }

  /** The index of the first column whose field the map lacks. */
  function FirstUnknown(cs: seq<Column>, fields: FieldTypes): (k: nat)
    requires !AllKnown(cs, fields)
    ensures k < |cs| && FieldKey(cs[k]) !in fields
    ensures forall l :: 0 <= l < k ==> FieldKey(cs[l]) in fields
  {
    if FieldKey(cs[0]) !in fields then 0 else 1 + FirstUnknown(cs[1..], fields)
  }

  /** The cell type of each column, from its field's type. */
  function CellTypesOf(cs: seq<Column>, fields: FieldTypes): seq<CellType>
    requires AllKnown(cs, fields)
  {
    seq(|cs|, k requires 0 <= k < |cs| => CellTypeOf(fields[FieldKey(cs[k])]))
  }

  /**
   * The column plan, stated over the retained and typed columns: it fails
   * with the first typed column whose field is unknown, and otherwise holds
   * the typed columns' cell types and the retained columns' total width.
   */
  function PlanOf(cols: seq<Column>, fields: FieldTypes, includeHidden: bool): Result<Plan, ExportError>
  {
    var typed := TypedColumns(cols, includeHidden);
    if AllKnown(typed, fields) then
      Success(Plan(CellTypesOf(typed, fields), SumWidths(Retained(cols, includeHidden))))
    else
      Failure(UnknownField(FieldKey(typed[FirstUnknown(typed, fields)])))
  }

  /**
   * The loop of `createWorksheet` that builds `cellType` and
   * `totalWidthInPixels`. A typed column whose field is missing from the
   * map makes the source dereference `undefined`; that is the failure.
   */
  method BuildPlan(cols: seq<Column>, fields: FieldTypes, includeHidden: bool)
    returns (r: Result<Plan, ExportError>)
    ensures r == PlanOf(cols, fields, includeHidden)
  {
    var cellType: seq<CellType> := [];
    var totalWidthInPixels: nat := 0;
    var i := 0;
    while i < |cols|
      invariant i <= |cols|
      invariant PlanSoFar(cols, fields, includeHidden, i, cellType, totalWidthInPixels)
    {
      if Keeps(cols[i], includeHidden, true) && FieldKey(cols[i]) !in fields {
        UnknownFieldFails(cols, fields, includeHidden, i);
      } else {
        PlanStep(cols, fields, includeHidden, i, cellType, totalWidthInPixels);
      }
      if includeHidden || !cols[i].hidden {
        totalWidthInPixels := totalWidthInPixels + cols[i].width;
        if HasDataIndex(cols[i]) {
          var key := cols[i].dataIndex.value;
          if key !in fields {
            // `fld` is undefined here and reading `fld.type` throws
            return Failure(UnknownField(key));
          }
          cellType := cellType + [CellTypeOf(fields[key])];
        }
      }
      i := i + 1;
    }
    assert Positions(cols, includeHidden, true, |cols|) == TypedPositions(cols, includeHidden);
    return Success(Plan(cellType, totalWidthInPixels));
  }

  /**
   * The loop invariant of `BuildPlan`: after the first `i` columns, the
   * width and cell types are those of the columns retained so far.
   */
  predicate PlanSoFar(cols: seq<Column>, fields: FieldTypes, includeHidden: bool, i: nat, cellType: seq<CellType>, width: nat)
    requires i <= |cols|
  {
    var typed := Pick(cols, Positions(cols, includeHidden, true, i));
    && width == SumWidths(Pick(cols, Positions(cols, includeHidden, false, i)))
    && AllKnown(typed, fields)
    && cellType == CellTypesOf(typed, fields)
  }

  /** One column of the plan loop: what it adds to the width and to the cell types. */
  lemma PlanStep(cols: seq<Column>, fields: FieldTypes, includeHidden: bool, i: nat, cellType: seq<CellType>, width: nat)
    requires i < |cols|
    requires PlanSoFar(cols, fields, includeHidden, i, cellType, width)
    requires !(Keeps(cols[i], includeHidden, true) && FieldKey(cols[i]) !in fields)
    ensures PlanSoFar(cols, fields, includeHidden, i + 1,
              if Keeps(cols[i], includeHidden, true) then cellType + [CellTypeOf(fields[FieldKey(cols[i])])] else cellType,
              if Retains(cols[i], includeHidden) then width + cols[i].width else width)
  {
    var retainedBefore := Positions(cols, includeHidden, false, i);
    var typedBefore := Positions(cols, includeHidden, true, i);
    if Retains(cols[i], includeHidden) {
      assert Positions(cols, includeHidden, false, i + 1) == retainedBefore + [i];
      PickAppend(cols, retainedBefore, i);
      SumWidthsAppend(Pick(cols, retainedBefore), cols[i]);
    }
    if Keeps(cols[i], includeHidden, true) {
      assert Positions(cols, includeHidden, true, i + 1) == typedBefore + [i];
      PickAppend(cols, typedBefore, i);
      CellTypesAppend(Pick(cols, typedBefore), cols[i], fields);
    }
  }

  lemma PickAppend(cols: seq<Column>, ps: seq<nat>, j: nat)
    requires forall k :: 0 <= k < |ps| ==> ps[k] < |cols|
    requires j < |cols|
    ensures Pick(cols, ps + [j]) == Pick(cols, ps) + [cols[j]]
  {
  }

  lemma SumWidthsAppend(cs: seq<Column>, c: Column)
    ensures SumWidths(cs + [c]) == SumWidths(cs) + c.width
  {
    assert (cs + [c])[..|cs|] == cs;
  }

  lemma CellTypesAppend(cs: seq<Column>, c: Column, fields: FieldTypes)
    requires AllKnown(cs, fields) && FieldKey(c) in fields
    ensures AllKnown(cs + [c], fields)
    ensures CellTypesOf(cs + [c], fields) == CellTypesOf(cs, fields) + [CellTypeOf(fields[FieldKey(c)])]
  {
  }

  /**
   * If the typed columns before `i` are all known and column `i` is typed
   * and unknown, the plan fails naming column `i`'s field.
   */
  lemma UnknownFieldFails(cols: seq<Column>, fields: FieldTypes, includeHidden: bool, i: nat)
    requires i < |cols|
    requires Keeps(cols[i], includeHidden, true) && FieldKey(cols[i]) !in fields
    requires AllKnown(Pick(cols, Positions(cols, includeHidden, true, i)), fields)
    ensures PlanOf(cols, fields, includeHidden) == Failure(UnknownField(FieldKey(cols[i])))
  {
    var before := Positions(cols, includeHidden, true, i);
    var typed := TypedColumns(cols, includeHidden);
    TypedPrefixAt(cols, includeHidden, i);
    FirstUnknownAt(typed, fields, |before|);
  }

  /** The typed columns up to and including a typed column `i`, as a prefix of all typed columns. */
  lemma TypedPrefixAt(cols: seq<Column>, includeHidden: bool, i: nat)
    requires i < |cols| && Keeps(cols[i], includeHidden, true)
    ensures var before := Positions(cols, includeHidden, true, i);
            var typed := TypedColumns(cols, includeHidden);
            |before| < |typed| && typed[..|before|] == Pick(cols, before) && typed[|before|] == cols[i]
  {
    var before := Positions(cols, includeHidden, true, i);
    TypedPositionsAt(cols, includeHidden, i);
    PickPrefix(cols, Positions(cols, includeHidden, true, |cols|), before, i);
  }

  /** The positions up to a typed column `i`, followed by `i`, begin the list of all typed positions. */
  lemma TypedPositionsAt(cols: seq<Column>, includeHidden: bool, i: nat)
    requires i < |cols| && Keeps(cols[i], includeHidden, true)
    ensures var before := Positions(cols, includeHidden, true, i);
            var all := Positions(cols, includeHidden, true, |cols|);
            |before| < |all| && all[..|before| + 1] == before + [i]
  {
    var before := Positions(cols, includeHidden, true, i);
    var upto := Positions(cols, includeHidden, true, i + 1);
    assert upto == before + [i];
    PositionsPrefix(cols, includeHidden, true, i + 1, |cols|);
  }

  lemma PickPrefix(cols: seq<Column>, all: seq<nat>, before: seq<nat>, i: nat)
    requires forall k :: 0 <= k < |all| ==> all[k] < |cols|
    requires forall k :: 0 <= k < |before| ==> before[k] < |cols|
    requires i < |cols| && |before| < |all| && all[..|before| + 1] == before + [i]
    ensures Pick(cols, all)[..|before|] == Pick(cols, before) && Pick(cols, all)[|before|] == cols[i]
  {
    var typed := Pick(cols, all);
    forall l | 0 <= l < |before|
      ensures typed[l] == Pick(cols, before)[l]
    {
      assert all[l] == (all[..|before| + 1])[l];
    }
    assert all[|before|] == (all[..|before| + 1])[|before|];
  }

  /** The first unknown column is the one after an all-known prefix. */
  lemma FirstUnknownAt(cs: seq<Column>, fields: FieldTypes, k: nat)
    requires k < |cs| && AllKnown(cs[..k], fields) && FieldKey(cs[k]) !in fields
    ensures !AllKnown(cs, fields) && FirstUnknown(cs, fields) == k
  {
  }

  /**
   * The plan fails exactly when some retained column with a `dataIndex`
   * names a field the field-type map lacks.
   */
  lemma PlanFailsIff(cols: seq<Column>, fields: FieldTypes, includeHidden: bool)
    ensures PlanOf(cols, fields, includeHidden).Failure?
            <==> exists j :: 0 <= j < |cols| && Keeps(cols[j], includeHidden, true) && FieldKey(cols[j]) !in fields
  {
    var ps := TypedPositions(cols, includeHidden);
    var typed := TypedColumns(cols, includeHidden);
    if !AllKnown(typed, fields) {
      var k := FirstUnknown(typed, fields);
      assert Keeps(cols[ps[k]], includeHidden, true) && FieldKey(cols[ps[k]]) !in fields;
    }
    if j :| 0 <= j < |cols| && Keeps(cols[j], includeHidden, true) && FieldKey(cols[j]) !in fields {
      PositionsComplete(cols, includeHidden, true, |cols|);
      assert j in ps;
      var k :| 0 <= k < |ps| && ps[k] == j;
      assert typed[k] == cols[j];
    }
  }

  /**
   * A successful plan has one cell type per retained column with a
   * `dataIndex`, which is never more than the number of retained columns.
   */
  lemma PlanColumnCount(cols: seq<Column>, fields: FieldTypes, includeHidden: bool)
    requires PlanOf(cols, fields, includeHidden).Success?
    ensures |PlanOf(cols, fields, includeHidden).value.cellTypes| == |TypedPositions(cols, includeHidden)|
    ensures |PlanOf(cols, fields, includeHidden).value.cellTypes| <= |RetainedPositions(cols, includeHidden)|
  {
    TypedAtMostRetained(cols, includeHidden, |cols|);
  }

  /**
   * When every retained column has a `dataIndex`, the k-th cell type is the
   * one of the k-th retained column's field.
   */
  lemma PlanTypesAligned(cols: seq<Column>, fields: FieldTypes, includeHidden: bool)
    requires forall j :: 0 <= j < |cols| && Retains(cols[j], includeHidden) ==> HasDataIndex(cols[j])
    requires PlanOf(cols, fields, includeHidden).Success?
    ensures var ts := PlanOf(cols, fields, includeHidden).value.cellTypes;
            var rs := Retained(cols, includeHidden);
            |ts| == |rs|
            && forall k :: 0 <= k < |rs| ==> FieldKey(rs[k]) in fields && ts[k] == CellTypeOf(fields[FieldKey(rs[k])])
  {
    AllTypedSamePositions(cols, includeHidden, |cols|);
  }

  /** With `includeHidden` set the total width is the width of every column. */
  lemma IncludeHiddenWidth(cols: seq<Column>, fields: FieldTypes)
    requires PlanOf(cols, fields, true).Success?
    ensures PlanOf(cols, fields, true).value.totalWidth == SumWidths(cols)
  {
    IncludeHiddenRetainsAll(cols, |cols|);
    assert Retained(cols, true) == cols;
  }

  /**
   * When hidden columns are excluded, a hidden column changes nothing in the
   * plan, wherever it is inserted: no width, no cell type, no new failure.
   */
  lemma PlanIgnoresHiddenColumn(cols: seq<Column>, fields: FieldTypes, i: nat, h: Column)
    requires i <= |cols| && h.hidden
    ensures PlanOf(InsertAt(cols, i, h), fields, false) == PlanOf(cols, fields, false)
  {
    HiddenInsertKeepsSelection(cols, i, h, false);
    HiddenInsertKeepsSelection(cols, i, h, true);
  }

  /** The columns a pass selects are the same before and after inserting a hidden column. */
  lemma HiddenInsertKeepsSelection(cols: seq<Column>, i: nat, h: Column, typedOnly: bool)
    requires i <= |cols| && h.hidden
    ensures Pick(InsertAt(cols, i, h), Positions(InsertAt(cols, i, h), false, typedOnly, |cols| + 1))
            == Pick(cols, Positions(cols, false, typedOnly, |cols|))
  {
    var ps := Positions(cols, false, typedOnly, |cols|);
    PositionsAfterHiddenInsert(cols, i, h, false, typedOnly, |cols|);
    PickAfterInsert(cols, i, h, ps);
  }
}
