/**
 * The second stage of `createWorksheet`: one `<Row>` per record. The row
 * loop walks every grid column with a cursor `k` into the cell-type list
 * that advances once per retained column, and writes a cell only while
 * `cellType[k]` exists.
 */
module RowSerializer {
  import opened Wrappers
  import opened Grid
  import opened Text

  /** The fixed pieces of a cell and a row. */
  const Indent: string := "    "
  const DataOpen: string := Indent + "<Cell ss:StyleID=\"Default\"><Data ss:Type=\""
  const DataTypeEnd: string := "\">"
  const DataClose: string := "</Data></Cell>"
  const RowOpen: string := "   <Row>"
  const RowClose: string := "    </Row>"

  /** A cell of a row: a renderer's raw markup, or a typed `<Data>` element with its text. */
  datatype Cell = Rendered(markup: string) | DataCell(cellType: CellType, text: string)

  /**
   * The library functions the row loop calls, left uninterpreted:
   * `Ext.htmlEncode` and `Ext.Date.format(v, 'Y-m-d')`.
   */
  datatype Formatters = Formatters(htmlEncode: Value -> string, formatDate: Value -> string)

  /** `store.getAt(j)`: the store's j-th record, or nothing past its end. */
  function StoreAt(store: seq<Record>, j: nat): (r: Option<Record>)
    ensures r.Some? <==> j < |store|
    ensures r.Some? ==> r.value == store[j]
  {
    if j < |store| then Some(store[j]) else None
  }

  /**
   * The cell written for the column `col` at grid position `j` when the
   * cursor supplies cell type `t`. A renderer receives the value and the
   * store record at the column's position; otherwise a DateTime cell holds
   * the formatted date and any other cell the encoded value.
   */
  function CellFor(col: Column, j: nat, t: CellType, rec: Record, store: seq<Record>, fmt: Formatters): (c: Cell)
    ensures c.Rendered? <==> col.xmlRenderer.Some?
    ensures c.Rendered? ==> c.markup == col.xmlRenderer.value(Lookup(rec, FieldKey(col)), StoreAt(store, j))
    ensures c.DataCell? ==> c.cellType == t
    ensures c.DataCell? && t == DateTime ==> c.text == fmt.formatDate(Lookup(rec, FieldKey(col)))
    ensures c.DataCell? && t != DateTime ==> c.text == fmt.htmlEncode(Lookup(rec, FieldKey(col)))
  {
    var v := Lookup(rec, FieldKey(col));
    match col.xmlRenderer
    case Some(render) => Rendered(render(v, StoreAt(store, j)))
    case None => DataCell(t, if t == DateTime then fmt.formatDate(v) else fmt.htmlEncode(v))
  }

  /**
   * A cell reads only its own column's field of the record: two records
   * that agree on that field give the same cell, unless a renderer also
   * receives the store record, which is the same for both.
   */
  lemma CellReadsOwnField(col: Column, j: nat, t: CellType, rec1: Record, rec2: Record, store: seq<Record>, fmt: Formatters)
    requires Lookup(rec1, FieldKey(col)) == Lookup(rec2, FieldKey(col))
    ensures CellFor(col, j, t, rec1, store, fmt) == CellFor(col, j, t, rec2, store, fmt)
  {
  }

  function Min(a: nat, b: nat): nat
  {
    if a <= b then a else b
  }

  /**
   * The cells for the retained columns at positions `ps`: the k-th retained
   * column is paired with the k-th cell type, for as long as both last.
   */
  function CellsAt(cols: seq<Column>, ps: seq<nat>, types: seq<CellType>, rec: Record, store: seq<Record>, fmt: Formatters)
    : seq<Cell>
    requires forall k :: 0 <= k < |ps| ==> ps[k] < |cols|
  {
    seq(Min(|ps|, |types|), k requires 0 <= k < Min(|ps|, |types|) =>
      CellFor(cols[ps[k]], ps[k], types[k], rec, store, fmt))
  }

  /** The cells of one record's row. */
  function RowCells(cols: seq<Column>, includeHidden: bool, types: seq<CellType>, rec: Record, store: seq<Record>, fmt: Formatters)
    : seq<Cell>
  {
    CellsAt(cols, RetainedPositions(cols, includeHidden), types, rec, store, fmt)
  }

  /** The markup of one cell, with its indentation and line break. */
  function CellXml(c: Cell): (r: string)
    ensures |Indent| + |NL| <= |r| && r[..|Indent|] == Indent && r[|r| - |NL|..] == NL
    ensures c.Rendered? ==> |r| == |Indent| + |c.markup| + |NL| && Occurs(r, c.markup, |Indent|)
    ensures c.DataCell? ==>
              var open := DataOpen + CellTypeName(c.cellType) + DataTypeEnd;
              && |r| == |open| + |c.text| + |DataClose + NL|
              && Occurs(r, open, 0)
              && Occurs(r, c.text, |open|)
              && Occurs(r, DataClose + NL, |r| - |DataClose + NL|)
  {
    match c
    case Rendered(m) =>
      LineAround(Indent, Indent, m, "", NL);
      assert Indent + m + "" + NL == Indent + m + NL;
      Indent + m + NL
    case DataCell(t, text) =>
      var head := "<Cell ss:StyleID=\"Default\"><Data ss:Type=\"" + CellTypeName(t) + DataTypeEnd;
      var pre := DataOpen + CellTypeName(t) + DataTypeEnd;
      assert pre == Indent + head;
      LineAround(Indent, pre, text, DataClose, NL);
      pre + text + DataClose + NL
  }

  /**
   * A data cell's markup determines its cell type and its text: the three
   * `ss:Type` literals differ in their first letter, and the text sits
   * between fixed delimiters.
   */
  lemma DataCellXmlInjective(t1: CellType, x1: string, t2: CellType, x2: string)
    requires CellXml(DataCell(t1, x1)) == CellXml(DataCell(t2, x2))
    ensures t1 == t2 && x1 == x2
  {
    var m := CellXml(DataCell(t1, x1));
    var tail := DataClose + NL;
    var pre1 := DataOpen + CellTypeName(t1) + DataTypeEnd;
    var pre2 := DataOpen + CellTypeName(t2) + DataTypeEnd;
    assert m == pre1 + x1 + tail;
    assert m == pre2 + x2 + tail;
    assert m[|DataOpen|] == CellTypeName(t1)[0] == CellTypeName(t2)[0] by {
      assert m[|DataOpen|] == pre1[|DataOpen|] == pre2[|DataOpen|];
    }
    assert |pre1| == |pre2|;
    assert x1 == m[|pre1|..|m| - |tail|];
  }

  /** The markup of a sequence of cells, in order. */
  function CellsXml(cs: seq<Cell>): string
  {
    if |cs| == 0 then "" else CellsXml(cs[..|cs| - 1]) + CellXml(cs[|cs| - 1])
  }

  /** The markup of one row. */
  function RowXml(cs: seq<Cell>): string
  {
    RowOpen + NL + CellsXml(cs) + RowClose + NL
  }

  /** The rows of cells of the records, one per record, in order. */
  function RowsOf(cols: seq<Column>, includeHidden: bool, types: seq<CellType>, records: seq<Record>, store: seq<Record>, fmt: Formatters)
    : seq<seq<Cell>>
  {
    seq(|records|, i requires 0 <= i < |records| => RowCells(cols, includeHidden, types, records[i], store, fmt))
  }

  /** The markup of the first `n` rows, in order. */
  function RowsXmlUpTo(rows: seq<seq<Cell>>, n: nat): string
    requires n <= |rows|
  {
    if n == 0 then "" else RowsXmlUpTo(rows, n - 1) + RowXml(rows[n - 1])
  }

  /** The markup of the rows, in order. */
  function RowsXml(rows: seq<seq<Cell>>): string
  {
    RowsXmlUpTo(rows, |rows|)
  }

  /** The outer loop of `createWorksheet`: one row of markup per record. */
  method SerializeRows(cols: seq<Column>, includeHidden: bool, cellType: seq<CellType>, records: seq<Record>, store: seq<Record>, fmt: Formatters)
    returns (xml: string)
    ensures xml == RowsXml(RowsOf(cols, includeHidden, cellType, records, store, fmt))
  {
    ghost var rows := RowsOf(cols, includeHidden, cellType, records, store, fmt);
    assert |rows| == |records|;
    xml := "";
    var i := 0;
    while i < |records|
      invariant i <= |records|
      invariant xml == RowsXmlUpTo(rows, i)
    {
      var row := SerializeRow(cols, includeHidden, cellType, records[i], store, fmt);
      assert rows[i] == RowCells(cols, includeHidden, cellType, records[i], store, fmt);
      assert RowsXmlUpTo(rows, i + 1) == RowsXmlUpTo(rows, i) + RowXml(rows[i]);
      xml := xml + row;
      i := i + 1;
    }
  }

  /**
   * The inner loop of `createWorksheet` for one record: it visits every
   * column, and for each retained column writes a cell if the cursor still
   * has a cell type, then advances the cursor.
   */
  method SerializeRow(cols: seq<Column>, includeHidden: bool, cellType: seq<CellType>, rec: Record, store: seq<Record>, fmt: Formatters)
    returns (xml: string)
    ensures xml == RowXml(RowCells(cols, includeHidden, cellType, rec, store, fmt))
  {
    var body := "";
    var k := 0;
    var j := 0;
    assert CellsAt(cols, [], cellType, rec, store, fmt) == [];
    while j < |cols|
      invariant j <= |cols|
      invariant k == |Positions(cols, includeHidden, false, j)|
      invariant body == CellsXml(CellsAt(cols, Positions(cols, includeHidden, false, j), cellType, rec, store, fmt))
    {
      RowStep(cols, includeHidden, cellType, rec, store, fmt, j);
      if includeHidden || !cols[j].hidden {
        if k < |cellType| {
          body := body + CellXml(CellFor(cols[j], j, cellType[k], rec, store, fmt));
        }
        k := k + 1;
      }
      j := j + 1;
    }
    xml := RowOpen + NL + body + RowClose + NL;
  }

  /** One column of the row loop: what it adds to the cells and to the cursor. */
  lemma RowStep(cols: seq<Column>, includeHidden: bool, types: seq<CellType>, rec: Record, store: seq<Record>, fmt: Formatters, j: nat)
    requires j < |cols|
    ensures var ps := Positions(cols, includeHidden, false, j);
            var cells := CellsAt(cols, ps, types, rec, store, fmt);
            var ps' := Positions(cols, includeHidden, false, j + 1);
            var cells' := CellsAt(cols, ps', types, rec, store, fmt);
            if Retains(cols[j], includeHidden) then
              |ps'| == |ps| + 1
              && (|ps| < |types| ==> CellsXml(cells') == CellsXml(cells) + CellXml(CellFor(cols[j], j, types[|ps|], rec, store, fmt)))
              && (|ps| >= |types| ==> cells' == cells)
            else ps' == ps
  {
    var ps := Positions(cols, includeHidden, false, j);
    if Retains(cols[j], includeHidden) {
      assert Positions(cols, includeHidden, false, j + 1) == ps + [j];
      CellsAtAppend(cols, ps, j, types, rec, store, fmt);
      if |ps| < |types| {
        CellsXmlAppend(CellsAt(cols, ps, types, rec, store, fmt), CellFor(cols[j], j, types[|ps|], rec, store, fmt));
      }
    }
  }

  lemma CellsXmlAppend(cs: seq<Cell>, c: Cell)
    ensures CellsXml(cs + [c]) == CellsXml(cs) + CellXml(c)
  {
    assert (cs + [c])[..|cs|] == cs;
  }

  /** Extending the retained positions by `j` adds a cell exactly when a cell type is left for it. */
  lemma CellsAtAppend(cols: seq<Column>, ps: seq<nat>, j: nat, types: seq<CellType>, rec: Record, store: seq<Record>, fmt: Formatters)
    requires forall k :: 0 <= k < |ps| ==> ps[k] < |cols|
    requires j < |cols|
    ensures CellsAt(cols, ps + [j], types, rec, store, fmt)
            == CellsAt(cols, ps, types, rec, store, fmt)
               + (if |ps| < |types| then [CellFor(cols[j], j, types[|ps|], rec, store, fmt)] else [])
  {
  }

  /**
   * Every row holds one cell per cell type of the plan, as long as there
   * are no more cell types than retained columns.
   */
  lemma RowLength(cols: seq<Column>, includeHidden: bool, types: seq<CellType>, rec: Record, store: seq<Record>, fmt: Formatters)
    requires |types| <= |RetainedPositions(cols, includeHidden)|
    ensures |RowCells(cols, includeHidden, types, rec, store, fmt)| == |types|
  {
  }

  /**
   * When hidden columns are excluded, inserting a hidden column leaves
   * every row unchanged, provided no column from the insertion point on has
   * a renderer (such a renderer would receive a different store record,
   * because that record is looked up by column position).
   */
  lemma RowIgnoresHiddenColumn(
    cols: seq<Column>, i: nat, h: Column, types: seq<CellType>, rec: Record, store: seq<Record>, fmt: Formatters)
    requires i <= |cols| && h.hidden
    requires forall j :: i <= j < |cols| ==> cols[j].xmlRenderer.None?
    ensures RowCells(InsertAt(cols, i, h), false, types, rec, store, fmt) == RowCells(cols, false, types, rec, store, fmt)
  {
    var cols' := InsertAt(cols, i, h);
    var ps := RetainedPositions(cols, false);
    PositionsAfterHiddenInsert(cols, i, h, false, false, |cols|);
    var ps' := Shift(ps, i);
    assert RetainedPositions(cols', false) == ps';
    var n := Min(|ps|, |types|);
    forall k | 0 <= k < n
      ensures CellFor(cols'[ps'[k]], ps'[k], types[k], rec, store, fmt)
              == CellFor(cols[ps[k]], ps[k], types[k], rec, store, fmt)
    {
      assert cols'[ps'[k]] == cols[ps[k]];
    }
  }
}
