/**
 * The data the exporter reads from the grid: column descriptors, the
 * record store's field types and the records themselves, together with
 * the visibility filter that every stage of the export shares.
 */
module Grid {
  import opened Wrappers

  /** The spreadsheet cell types written into `ss:Type`. */
  datatype CellType = Number | DateTime | StringCell

  /** The literal written into `ss:Type` for a cell type. */
  function CellTypeName(t: CellType): (name: string)
    ensures name == "Number" || name == "DateTime" || name == "String"
  {
    match t
    case Number => "Number"
    case DateTime => "DateTime"
    case StringCell => "String"
  }

  /** Reads an `ss:Type` literal back; the inverse of `CellTypeName`. */
  function ParseCellTypeName(name: string): (t: Option<CellType>)
  {
    if name == "Number" then Some(Number)
    else if name == "DateTime" then Some(DateTime)
    else if name == "String" then Some(StringCell)
    else None
  }

  lemma CellTypeNameRoundTrip(t: CellType)
    ensures ParseCellTypeName(CellTypeName(t)) == Some(t)
  {
  }

  /**
   * The cell type chosen for a record field from the name of its field
   * type: the switch over `fld.type.type`.
   */
  function CellTypeOf(fieldType: string): (t: CellType)
    ensures t == Number <==> (fieldType == "int" || fieldType == "float")
    ensures t == DateTime <==> fieldType == "date"
    ensures t == StringCell <==> (fieldType != "int" && fieldType != "float" && fieldType != "date")
    ensures (fieldType == "bool" || fieldType == "boolean") ==> t == StringCell
  {
    if fieldType == "int" || fieldType == "float" then Number
    else if fieldType == "bool" || fieldType == "boolean" then StringCell
    else if fieldType == "date" then DateTime
    else StringCell
  }

  /** A scalar held by a record; `Undefined` is what reading a missing property yields. */
  datatype Value = Undefined | Num(n: int) | Str(s: string) | Bool(b: bool) | Date(time: int)

  /** A record's `data` object: property name to value. */
  type Record = map<string, Value>

  /** Reading a property of a record (`r[key]`). */
  function Lookup(r: Record, key: string): Value
  {
    if key in r then r[key] else Undefined
  }

  /**
   * A grid column: its pixel width, whether it is hidden, its optional
   * `dataIndex` and its optional `xmlRenderer`, which receives the cell
   * value and a record of the store and returns raw cell markup.
   */
  datatype Column = Column(
    width: nat,
    hidden: bool,
    dataIndex: Option<string>,
    xmlRenderer: Option<(Value, Option<Record>) -> string>)

  /** JavaScript truthiness of `dataIndex`: present and not the empty string. */
  predicate HasDataIndex(c: Column)
  {
    c.dataIndex.Some? && c.dataIndex.value != ""
  }

  /**
   * The property name used for `r[col.dataIndex]` and for the field-type
   * lookup; an absent `dataIndex` is converted to the key "undefined".
   */
  function FieldKey(c: Column): (key: string)
    ensures c.dataIndex.Some? ==> key == c.dataIndex.value
    ensures c.dataIndex.None? ==> key == "undefined"
  {
    match c.dataIndex
    case Some(d) => d
    case None => "undefined"
  }

  /** The store's field-type map: field name to the name of its type. */
  type FieldTypes = map<string, string>

  /** The only failure of the serialiser: a `dataIndex` the field map lacks. */
  datatype ExportError = UnknownField(dataIndex: string)

  /** A column takes part in the export when it is visible or hidden columns are included. */
  predicate Retains(c: Column, includeHidden: bool)
  {
    includeHidden || !c.hidden
  }

  /**
   * The columns a pass selects: all retained ones, or (when `typedOnly`)
   * the retained ones that have a `dataIndex` and so receive a cell type.
   */
  predicate Keeps(c: Column, includeHidden: bool, typedOnly: bool)
  {
    Retains(c, includeHidden) && (!typedOnly || HasDataIndex(c))
  }

  /** Strictly increasing column positions. */
  predicate Increasing(ps: seq<nat>)
  {
    forall k, l :: 0 <= k < l < |ps| ==> ps[k] < ps[l]
  }

  /**
   * The positions, below `n`, of the columns a pass selects, in column
   * order: exactly those positions, each once.
   */
  function Positions(cols: seq<Column>, includeHidden: bool, typedOnly: bool, n: nat): (ps: seq<nat>)
    requires n <= |cols|
    ensures forall k :: 0 <= k < |ps| ==> ps[k] < n && Keeps(cols[ps[k]], includeHidden, typedOnly)
    decreases n
  {
    if n == 0 then []
    else
      var prev := Positions(cols, includeHidden, typedOnly, n - 1);
      if Keeps(cols[n - 1], includeHidden, typedOnly) then prev + [n - 1] else prev
  }

  /** Every selected position below `n` is listed. */
  lemma {:induction false} PositionsComplete(cols: seq<Column>, includeHidden: bool, typedOnly: bool, n: nat)
    requires n <= |cols|
    ensures forall j :: 0 <= j < n && Keeps(cols[j], includeHidden, typedOnly)
                        ==> j in Positions(cols, includeHidden, typedOnly, n)
    decreases n
  {
    if n > 0 {
      PositionsComplete(cols, includeHidden, typedOnly, n - 1);
      var prev := Positions(cols, includeHidden, typedOnly, n - 1);
      var ps := Positions(cols, includeHidden, typedOnly, n);
      assert forall j :: j in prev ==> j in ps;
    }
  }

  /** The positions are listed in column order. */
  lemma {:induction false} PositionsIncreasing(cols: seq<Column>, includeHidden: bool, typedOnly: bool, n: nat)
    requires n <= |cols|
    ensures Increasing(Positions(cols, includeHidden, typedOnly, n))
    decreases n
  {
    if n > 0 {
      PositionsIncreasing(cols, includeHidden, typedOnly, n - 1);
    }
  }

  /** The positions selected below `m` are a prefix of those selected below `n`. */
  lemma {:induction false} PositionsPrefix(cols: seq<Column>, includeHidden: bool, typedOnly: bool, m: nat, n: nat)
    requires m <= n <= |cols|
    ensures |Positions(cols, includeHidden, typedOnly, m)| <= |Positions(cols, includeHidden, typedOnly, n)|
    ensures Positions(cols, includeHidden, typedOnly, n)[..|Positions(cols, includeHidden, typedOnly, m)|]
            == Positions(cols, includeHidden, typedOnly, m)
    decreases n - m
  {
    if m < n {
      PositionsPrefix(cols, includeHidden, typedOnly, m, n - 1);
      var pm := Positions(cols, includeHidden, typedOnly, m);
      var pn1 := Positions(cols, includeHidden, typedOnly, n - 1);
      var pn := Positions(cols, includeHidden, typedOnly, n);
      assert pn[..|pn1|] == pn1;
      assert pn[..|pm|] == pn1[..|pm|];
    }
  }

  /** The positions of all retained columns. */
  function RetainedPositions(cols: seq<Column>, includeHidden: bool): seq<nat>
  {
    Positions(cols, includeHidden, false, |cols|)
  }

  /** The positions of the retained columns that have a `dataIndex`. */
  function TypedPositions(cols: seq<Column>, includeHidden: bool): seq<nat>
  {
    Positions(cols, includeHidden, true, |cols|)
  }

  /** The columns at the given positions, in that order. */
  function Pick(cols: seq<Column>, ps: seq<nat>): (cs: seq<Column>)
    requires forall k :: 0 <= k < |ps| ==> ps[k] < |cols|
  {
    seq(|ps|, k requires 0 <= k < |ps| => cols[ps[k]])
  }

  /** The retained columns, in grid order. */
  function Retained(cols: seq<Column>, includeHidden: bool): seq<Column>
  {
    Pick(cols, RetainedPositions(cols, includeHidden))
  }

  /** The retained columns that have a `dataIndex`, in grid order. */
  function TypedColumns(cols: seq<Column>, includeHidden: bool): seq<Column>
  {
    Pick(cols, TypedPositions(cols, includeHidden))
  }

  /** Selecting only typed columns never selects more than selecting all retained ones. */
  lemma {:induction false} TypedAtMostRetained(cols: seq<Column>, includeHidden: bool, n: nat)
    requires n <= |cols|
    ensures |Positions(cols, includeHidden, true, n)| <= |Positions(cols, includeHidden, false, n)|
    decreases n
  {
    if n > 0 {
      TypedAtMostRetained(cols, includeHidden, n - 1);
    }
  }

  /** When every retained column has a `dataIndex`, both passes select the same positions. */
  lemma {:induction false} AllTypedSamePositions(cols: seq<Column>, includeHidden: bool, n: nat)
    requires n <= |cols|
    requires forall j :: 0 <= j < |cols| && Retains(cols[j], includeHidden) ==> HasDataIndex(cols[j])
    ensures Positions(cols, includeHidden, true, n) == Positions(cols, includeHidden, false, n)
    decreases n
  {
    if n > 0 {
      AllTypedSamePositions(cols, includeHidden, n - 1);
    }
  }

  /** With `includeHidden` set, every column is retained, in grid order. */
  lemma {:induction false} IncludeHiddenRetainsAll(cols: seq<Column>, n: nat)
    requires n <= |cols|
    ensures Positions(cols, true, false, n) == seq(n, j => j)
    decreases n
  {
    if n > 0 {
      IncludeHiddenRetainsAll(cols, n - 1);
    }
  }

  /** Inserting column `h` at position `i`. */
  function InsertAt(cols: seq<Column>, i: nat, h: Column): (r: seq<Column>)
    requires i <= |cols|
    ensures |r| == |cols| + 1
    ensures forall j :: 0 <= j < i ==> r[j] == cols[j]
    ensures r[i] == h
    ensures forall j :: i < j < |r| ==> r[j] == cols[j - 1]
  {
    cols[..i] + [h] + cols[i..]
  }

  /** Renumbers positions after an insertion at `i`: those at or past `i` move up by one. */
  function Shift(ps: seq<nat>, i: nat): (r: seq<nat>)
    ensures |r| == |ps|
  {
    seq(|ps|, k requires 0 <= k < |ps| => if ps[k] < i then ps[k] else ps[k] + 1)
  }

  /** Positions before an insertion point are unaffected by the insertion. */
  lemma {:induction false} PositionsBeforeInsert(
    cols: seq<Column>, i: nat, h: Column, includeHidden: bool, typedOnly: bool, n: nat)
    requires n <= i <= |cols|
    ensures Positions(InsertAt(cols, i, h), includeHidden, typedOnly, n)
            == Positions(cols, includeHidden, typedOnly, n)
    decreases n
  {
    if n > 0 {
      PositionsBeforeInsert(cols, i, h, includeHidden, typedOnly, n - 1);
      assert InsertAt(cols, i, h)[n - 1] == cols[n - 1];
    }
  }

  /**
   * A hidden column inserted while hidden columns are excluded is selected
   * by no pass: the other columns keep being selected, under their new positions.
   */
  lemma {:induction false} PositionsAfterHiddenInsert(
    cols: seq<Column>, i: nat, h: Column, includeHidden: bool, typedOnly: bool, n: nat)
    requires i <= n <= |cols|
    requires h.hidden && !includeHidden
    ensures Positions(InsertAt(cols, i, h), includeHidden, typedOnly, n + 1)
            == Shift(Positions(cols, includeHidden, typedOnly, n), i)
    decreases n
  {
    var cols' := InsertAt(cols, i, h);
    if n == i {
      PositionsAtHiddenInsert(cols, i, h, includeHidden, typedOnly);
    } else {
      PositionsAfterHiddenInsert(cols, i, h, includeHidden, typedOnly, n - 1);
      PositionsStepAfterInsert(cols, i, h, includeHidden, typedOnly, n);
    }
  }

  /** One step of `PositionsAfterHiddenInsert`: the column at `n - 1` moves to `n`. */
  lemma PositionsStepAfterInsert(cols: seq<Column>, i: nat, h: Column, includeHidden: bool, typedOnly: bool, n: nat)
    requires i < n <= |cols|
    requires Positions(InsertAt(cols, i, h), includeHidden, typedOnly, n)
             == Shift(Positions(cols, includeHidden, typedOnly, n - 1), i)
    ensures Positions(InsertAt(cols, i, h), includeHidden, typedOnly, n + 1)
            == Shift(Positions(cols, includeHidden, typedOnly, n), i)
  {
    var cols' := InsertAt(cols, i, h);
    var prev := Positions(cols, includeHidden, typedOnly, n - 1);
    var prev' := Positions(cols', includeHidden, typedOnly, n);
    assert cols'[n] == cols[n - 1];
    if Keeps(cols[n - 1], includeHidden, typedOnly) {
      assert Positions(cols', includeHidden, typedOnly, n + 1) == prev' + [n] by {
        assert Keeps(cols'[n], includeHidden, typedOnly);
      }
      assert Positions(cols, includeHidden, typedOnly, n) == prev + [n - 1];
      ShiftAppend(prev, n - 1, i);
    } else {
      assert Positions(cols', includeHidden, typedOnly, n + 1) == prev' by {
        assert !Keeps(cols'[n], includeHidden, typedOnly);
      }
    }
  }

  /** The inserted hidden column itself is skipped. */
  lemma PositionsAtHiddenInsert(cols: seq<Column>, i: nat, h: Column, includeHidden: bool, typedOnly: bool)
    requires i <= |cols|
    requires h.hidden && !includeHidden
    ensures Positions(InsertAt(cols, i, h), includeHidden, typedOnly, i + 1)
            == Shift(Positions(cols, includeHidden, typedOnly, i), i)
  {
    var cols' := InsertAt(cols, i, h);
    PositionsBeforeInsert(cols, i, h, includeHidden, typedOnly, i);
    assert !Keeps(cols'[i], includeHidden, typedOnly);
    assert Positions(cols', includeHidden, typedOnly, i + 1) == Positions(cols', includeHidden, typedOnly, i);
    ShiftBelow(Positions(cols, includeHidden, typedOnly, i), i);
  }

  lemma ShiftBelow(ps: seq<nat>, i: nat)
    requires forall k :: 0 <= k < |ps| ==> ps[k] < i
    ensures Shift(ps, i) == ps
  {
  }

  lemma ShiftAppend(ps: seq<nat>, p: nat, i: nat)
    requires i <= p
    ensures Shift(ps + [p], i) == Shift(ps, i) + [p + 1]
  {
    assert forall k :: 0 <= k < |ps| ==> (ps + [p])[k] == ps[k];
  }

  /** Picking the renumbered positions from the extended grid picks the same columns. */
  lemma PickAfterInsert(cols: seq<Column>, i: nat, h: Column, ps: seq<nat>)
    requires i <= |cols|
    requires forall k :: 0 <= k < |ps| ==> ps[k] < |cols|
    ensures forall k :: 0 <= k < |ps| ==> Shift(ps, i)[k] < |cols| + 1
    ensures Pick(InsertAt(cols, i, h), Shift(ps, i)) == Pick(cols, ps)
  {
  }
}
