/**
 * The worksheet and workbook envelope: `createWorksheet`, which runs the
 * column plan and the row loop and wraps the rows in a `<Worksheet>`, and
 * `getExcelXml`, which wraps that worksheet in the workbook document.
 */
module Workbook {
  import opened Wrappers
  import opened Grid
  import opened ColumnPlan
  import opened RowSerializer
  import opened Decimal
  import opened Text
  import opened Prolog

  /** The fixed `WindowHeight`. */
  const WindowHeight: nat := 9000

  /** The worksheet before it is written out: window size, table extent and rows of cells. */
  datatype Sheet = Sheet(height: nat, width: nat, columnCount: nat, rowCount: nat, rows: seq<seq<Cell>>)

  /** The value `createWorksheet` returns: window height and width, and the worksheet markup. */
  datatype WorksheetResult = WorksheetResult(height: nat, width: nat, xml: string)

  /**
   * The worksheet, stated declaratively: the column plan, the window width
   * `floor(total * 30) + 50`, `ExpandedColumnCount` equal to the number of
   * cell types, `ExpandedRowCount` equal to the store's size plus two, and
   * one row of cells per exported record, in order.
   */
  function SheetOf(
    cols: seq<Column>, fields: FieldTypes, includeHidden: bool,
    store: seq<Record>, records: seq<Record>, fmt: Formatters): Result<Sheet, ExportError>
  {
    match PlanOf(cols, fields, includeHidden)
    case Failure(e) => Failure(e)
    case Success(plan) =>
      Success(Sheet(
        WindowHeight,
        plan.totalWidth * 30 + 50,
        |plan.cellTypes|,
        |store| + 2,
        RowsOf(cols, includeHidden, plan.cellTypes, records, store, fmt)))
  }

  /**
   * The pieces of the worksheet markup: the header with the title and the
   * table's extent, the rows, and the closing tags.
   */
  function WorksheetChunks(title: string, columnCount: nat, rowCount: nat, rowsXml: string): seq<string>
  {
    [ " <Worksheet ss:Name=\"", title, "\">", NL,
      "  <Table x:FullRows=\"1\" x:FullColumns=\"1\"", NL,
      "   ss:ExpandedColumnCount=\"", NatToString(columnCount), "\"", NL,
      "   ss:ExpandedRowCount=\"", NatToString(rowCount), "\">", NL,
      rowsXml,
      "  </Table>", NL, " </Worksheet>", NL ]
  }

  /** The worksheet markup of a sheet. */
  function WorksheetXml(title: string, s: Sheet): string
  {
    Concat(WorksheetChunks(title, s.columnCount, s.rowCount, RowsXml(s.rows)))
  }

  /** The value `createWorksheet` returns for a sheet. */
  function Output(title: string, s: Sheet): WorksheetResult
  {
    WorksheetResult(s.height, s.width, WorksheetXml(title, s))
  }

  /**
   * The pieces of the workbook document: the fixed prolog, the title as
   * given, the window height and width in decimal, the fixed styles, and
   * the worksheet markup.
   */
  function DocumentChunks(fixed: FixedText, title: string, ws: WorksheetResult): seq<string>
  {
    [ fixed.opening,
      "  <Title>", title, "</Title>", NL,
      fixed.properties,
      "  <WindowHeight>", NatToString(ws.height), "</WindowHeight>", NL,
      "  <WindowWidth>", NatToString(ws.width), "</WindowWidth>", NL,
      fixed.settingsAndStyles,
      ws.xml, NL, "</Workbook>" ]
  }

  /** The workbook document around a worksheet, for any fixed text. */
  function Document(fixed: FixedText, title: string, ws: WorksheetResult): string
  {
    Concat(DocumentChunks(fixed, title, ws))
  }

  /** The workbook document around a worksheet. */
  function ExcelXml(title: string, ws: WorksheetResult): string
  {
    Document(Fixed, title, ws)
  }

  /**
   * `createWorksheet`: the column plan, then one row per record, then the
   * closing tags. It fails where the plan fails.
   */
  method CreateWorksheet(
    title: string, cols: seq<Column>, fields: FieldTypes, includeHidden: bool,
    store: seq<Record>, records: seq<Record>, fmt: Formatters)
    returns (r: Result<WorksheetResult, ExportError>)
    ensures match SheetOf(cols, fields, includeHidden, store, records, fmt)
            case Success(s) => r == Success(Output(title, s))
            case Failure(e) => r == Failure(e)
  {
    var plan := BuildPlan(cols, fields, includeHidden);
    if plan.Failure? {
      return Failure(plan.error);
    }
    var cellType := plan.value.cellTypes;
    var rows := SerializeRows(cols, includeHidden, cellType, records, store, fmt);
    var width := plan.value.totalWidth * 30 + 50;
    return Success(WorksheetResult(WindowHeight, width, Concat(WorksheetChunks(title, |cellType|, |store| + 2, rows))));
  }

  /** `getExcelXml`: the worksheet inside the workbook document. */
  method GetExcelXml(
    title: string, cols: seq<Column>, fields: FieldTypes, includeHidden: bool,
    store: seq<Record>, records: seq<Record>, fmt: Formatters)
    returns (r: Result<string, ExportError>)
    ensures match SheetOf(cols, fields, includeHidden, store, records, fmt)
            case Success(s) => r == Success(ExcelXml(title, Output(title, s)))
            case Failure(e) => r == Failure(e)
  {
    var worksheet := CreateWorksheet(title, cols, fields, includeHidden, store, records, fmt);
    if worksheet.Failure? {
      return Failure(worksheet.error);
    }
    return Success(ExcelXml(title, worksheet.value));
  }

  /**
   * The shape of a worksheet: window height 9000, window width
   * `total * 30 + 50` over all retained columns, one table column per
   * retained column with a `dataIndex` (never more than the retained
   * columns), `ExpandedRowCount` the store's size plus two, one row per
   * exported record, and every row exactly `ExpandedColumnCount` cells.
   */
  lemma SheetShape(
    cols: seq<Column>, fields: FieldTypes, includeHidden: bool,
    store: seq<Record>, records: seq<Record>, fmt: Formatters)
    requires SheetOf(cols, fields, includeHidden, store, records, fmt).Success?
    ensures var s := SheetOf(cols, fields, includeHidden, store, records, fmt).value;
            && s.height == 9000
            && s.width == SumWidths(Retained(cols, includeHidden)) * 30 + 50
            && s.columnCount == |TypedPositions(cols, includeHidden)|
            && s.columnCount <= |RetainedPositions(cols, includeHidden)|
            && s.rowCount == |store| + 2
            && |s.rows| == |records|
            && forall i :: 0 <= i < |s.rows| ==> |s.rows[i]| == s.columnCount
  {
    PlanColumnCount(cols, fields, includeHidden);
    var plan := PlanOf(cols, fields, includeHidden).value;
    forall i | 0 <= i < |records|
      ensures |RowCells(cols, includeHidden, plan.cellTypes, records[i], store, fmt)| == |plan.cellTypes|
    {
      RowLength(cols, includeHidden, plan.cellTypes, records[i], store, fmt);
    }
  }

  /**
   * `ExpandedRowCount` counts the store, not the exported records: it is
   * two more than the number of rows written exactly when as many records
   * are exported as the store holds.
   */
  lemma RowCountFollowsStore(
    cols: seq<Column>, fields: FieldTypes, includeHidden: bool,
    store: seq<Record>, records: seq<Record>, fmt: Formatters)
    requires SheetOf(cols, fields, includeHidden, store, records, fmt).Success?
    ensures var s := SheetOf(cols, fields, includeHidden, store, records, fmt).value;
            s.rowCount == |s.rows| + 2 <==> |store| == |records|
  {
  }

  /**
   * The export fails exactly when a retained column with a `dataIndex`
   * names a field the store does not describe.
   */
  lemma SheetFailsIff(
    cols: seq<Column>, fields: FieldTypes, includeHidden: bool,
    store: seq<Record>, records: seq<Record>, fmt: Formatters)
    ensures SheetOf(cols, fields, includeHidden, store, records, fmt).Failure?
            <==> exists j :: 0 <= j < |cols| && Keeps(cols[j], includeHidden, true) && FieldKey(cols[j]) !in fields
  {
    PlanFailsIff(cols, fields, includeHidden);
  }

  /**
   * Exporting the records `a + b` writes the rows of `a` followed by the
   * rows of `b`: rows keep the records' order and do not depend on one another.
   */
  lemma SheetRowsConcat(
    cols: seq<Column>, fields: FieldTypes, includeHidden: bool,
    store: seq<Record>, a: seq<Record>, b: seq<Record>, fmt: Formatters)
    requires SheetOf(cols, fields, includeHidden, store, a + b, fmt).Success?
    ensures SheetOf(cols, fields, includeHidden, store, a, fmt).Success?
    ensures SheetOf(cols, fields, includeHidden, store, b, fmt).Success?
    ensures SheetOf(cols, fields, includeHidden, store, a + b, fmt).value.rows
            == SheetOf(cols, fields, includeHidden, store, a, fmt).value.rows
               + SheetOf(cols, fields, includeHidden, store, b, fmt).value.rows
  {
  }

  /**
   * When hidden columns are excluded, a hidden column inserted anywhere
   * leaves the worksheet unchanged, provided no column from the insertion
   * point on has a renderer.
   */
  lemma SheetIgnoresHiddenColumn(
    cols: seq<Column>, i: nat, h: Column, fields: FieldTypes,
    store: seq<Record>, records: seq<Record>, fmt: Formatters)
    requires i <= |cols| && h.hidden
    requires forall j :: i <= j < |cols| ==> cols[j].xmlRenderer.None?
    ensures SheetOf(InsertAt(cols, i, h), fields, false, store, records, fmt)
            == SheetOf(cols, fields, false, store, records, fmt)
  {
    PlanIgnoresHiddenColumn(cols, fields, i, h);
    var cols' := InsertAt(cols, i, h);
    if PlanOf(cols, fields, false).Success? {
      var types := PlanOf(cols, fields, false).value.cellTypes;
      forall r | 0 <= r < |records|
        ensures RowCells(cols', false, types, records[r], store, fmt) == RowCells(cols, false, types, records[r], store, fmt)
      {
        RowIgnoresHiddenColumn(cols, i, h, types, records[r], store, fmt);
      }
      assert RowsOf(cols', false, types, records, store, fmt) == RowsOf(cols, false, types, records, store, fmt);
    }
  }

  /**
   * When every retained column has a `dataIndex`, the table has one column
   * per retained column and cell k of every row is written for the k-th
   * retained column with the type of that column's own field.
   */
  lemma SheetAlignedWhenAllTyped(
    cols: seq<Column>, fields: FieldTypes, includeHidden: bool,
    store: seq<Record>, records: seq<Record>, fmt: Formatters)
    requires forall j :: 0 <= j < |cols| && Retains(cols[j], includeHidden) ==> HasDataIndex(cols[j])
    requires SheetOf(cols, fields, includeHidden, store, records, fmt).Success?
    ensures var s := SheetOf(cols, fields, includeHidden, store, records, fmt).value;
            var ps := RetainedPositions(cols, includeHidden);
            && s.columnCount == |ps|
            && forall r, k :: 0 <= r < |records| && 0 <= k < |ps| ==>
                 FieldKey(cols[ps[k]]) in fields
                 && s.rows[r][k] == CellFor(cols[ps[k]], ps[k], CellTypeOf(fields[FieldKey(cols[ps[k]])]), records[r], store, fmt)
  {
    PlanTypesAligned(cols, fields, includeHidden);
    var ps := RetainedPositions(cols, includeHidden);
    var rs := Retained(cols, includeHidden);
    assert forall k :: 0 <= k < |ps| ==> rs[k] == cols[ps[k]];
  }

  /**
   * The cell-type shift in general: cell k of every row is written for the
   * k-th retained column, but with the type of the k-th retained column
   * that has a `dataIndex`. A row has a cell for as many retained columns
   * as there are cell types.
   */
  lemma SheetCellsShifted(
    cols: seq<Column>, fields: FieldTypes, includeHidden: bool,
    store: seq<Record>, records: seq<Record>, fmt: Formatters)
    requires SheetOf(cols, fields, includeHidden, store, records, fmt).Success?
    ensures var s := SheetOf(cols, fields, includeHidden, store, records, fmt).value;
            s.columnCount == |TypedColumns(cols, includeHidden)| && |s.rows| == |records|
    ensures var s := SheetOf(cols, fields, includeHidden, store, records, fmt).value;
            var ps := RetainedPositions(cols, includeHidden);
            forall r :: 0 <= r < |records| ==> |s.rows[r]| == Min(|ps|, |TypedColumns(cols, includeHidden)|)
    ensures var s := SheetOf(cols, fields, includeHidden, store, records, fmt).value;
            var ps := RetainedPositions(cols, includeHidden);
            var typed := TypedColumns(cols, includeHidden);
            forall r, k :: 0 <= r < |records| && 0 <= k < |ps| && k < |typed| ==>
              ps[k] < |cols| && FieldKey(typed[k]) in fields
              && s.rows[r][k] == CellFor(cols[ps[k]], ps[k], CellTypeOf(fields[FieldKey(typed[k])]), records[r], store, fmt)
  {
  }

  /**
   * The cell-type shift: a retained column without a `dataIndex` ahead of a
   * typed one takes that column's type and its cell, so the typed column's
   * value is never written. Here a Number cell holds the encoded value of
   * the untyped column, and the `price` value 5 does not appear.
   */
  lemma TypeShiftExample(fmt: Formatters)
    ensures var untyped := Column(10, false, None, None);
            var price := Column(20, false, Some("price"), None);
            var rec: Record := map["price" := Num(5)];
            SheetOf([untyped, price], map["price" := "float"], false, [rec], [rec], fmt)
            == Success(Sheet(9000, 950, 1, 3, [[DataCell(Number, fmt.htmlEncode(Undefined))]]))
  {
    var untyped := Column(10, false, None, None);
    var price := Column(20, false, Some("price"), None);
    var cols := [untyped, price];
    var rec: Record := map["price" := Num(5)];
    var fields := map["price" := "float"];
    var cell := DataCell(Number, fmt.htmlEncode(Undefined));
    assert PlanOf(cols, fields, false) == Success(Plan([Number], 30)) by {
      assert Positions(cols, false, false, 2) == [0, 1];
      assert Positions(cols, false, true, 2) == [1];
      assert Retained(cols, false) == cols;
      assert SumWidths([untyped]) == 10 by {
        assert [untyped][..0] == [];
      }
      assert SumWidths(cols) == 30 by {
        assert cols[..1] == [untyped];
      }
      assert TypedColumns(cols, false) == [price];
      assert CellTypesOf([price], fields) == [Number];
    }
    assert RowsOf(cols, false, [Number], [rec], [rec], fmt) == [[cell]] by {
      assert Positions(cols, false, false, 2) == [0, 1];
      assert Lookup(rec, FieldKey(untyped)) == Undefined;
      assert RowCells(cols, false, [Number], rec, [rec], fmt) == [cell];
    }
  }

  /**
   * Whatever the fixed text, the worksheet markup, a line break and the
   * closing `</Workbook>` tag end the document, right after the fixed
   * settings and styles.
   */
  lemma WorksheetInDocument(fixed: FixedText, title: string, ws: WorksheetResult)
    ensures var doc := Document(fixed, title, ws);
            var at := |fixed.opening| + |"  <Title>"| + |title| + |"</Title>"| + |NL| + |fixed.properties|
                      + |"  <WindowHeight>"| + |NatToString(ws.height)| + |"</WindowHeight>"| + |NL|
                      + |"  <WindowWidth>"| + |NatToString(ws.width)| + |"</WindowWidth>"| + |NL|
                      + |fixed.settingsAndStyles|;
            && Occurs(doc, ws.xml + NL + "</Workbook>", at)
            && |doc| == at + |ws.xml + NL + "</Workbook>"|
    ensures var doc := Document(fixed, title, ws);
            var piece := ws.xml + NL + "</Workbook>";
            |piece| <= |doc| && Occurs(doc, piece, |doc| - |piece|)
  {
    var parts := DocumentChunks(fixed, title, ws);
    var before := Concat(parts[..15]);
    var piece := ws.xml + NL + "</Workbook>";
    assert |before| == |fixed.opening| + |"  <Title>"| + |title| + |"</Title>"| + |NL| + |fixed.properties|
                       + |"  <WindowHeight>"| + |NatToString(ws.height)| + |"</WindowHeight>"| + |NL|
                       + |"  <WindowWidth>"| + |NatToString(ws.width)| + |"</WindowWidth>"| + |NL|
                       + |fixed.settingsAndStyles| by {
      ConcatPrefixLength(parts, 15);
      PrefixLengthSix(parts);
      PrefixLengthTen(parts);
      PrefixLengthFifteen(parts);
    }
    assert Concat(parts) == before + piece + "" by {
      ThreePiecesInConcat(parts, 15);
      assert parts[18..] == [];
    }
    OccursBetween(before, piece, "");
  }

  /** Whatever the fixed text, the title line follows the opening text. */
  lemma TitleInDocument(fixed: FixedText, title: string, ws: WorksheetResult)
    ensures Occurs(Document(fixed, title, ws), "  <Title>" + title + "</Title>", |fixed.opening|)
  {
    var parts := DocumentChunks(fixed, title, ws);
    Enclosed(parts, 1, "  <Title>", "</Title>");
    ConcatStep(parts, 0);
  }

  /** Whatever the fixed text, the height line follows the title line and the properties. */
  lemma HeightInDocument(fixed: FixedText, title: string, ws: WorksheetResult)
    ensures Occurs(Document(fixed, title, ws),
                   "  <WindowHeight>" + NatToString(ws.height) + "</WindowHeight>",
                   |fixed.opening| + |"  <Title>"| + |title| + |"</Title>"| + |NL| + |fixed.properties|)
  {
    var parts := DocumentChunks(fixed, title, ws);
    Enclosed(parts, 6, "  <WindowHeight>", "</WindowHeight>");
    ConcatPrefixLength(parts, 6);
    PrefixLengthSix(parts);
  }

  /** Whatever the fixed text, the width line follows the height line. */
  lemma WidthInDocument(fixed: FixedText, title: string, ws: WorksheetResult)
    ensures Occurs(Document(fixed, title, ws),
                   "  <WindowWidth>" + NatToString(ws.width) + "</WindowWidth>",
                   |fixed.opening| + |"  <Title>"| + |title| + |"</Title>"| + |NL| + |fixed.properties|
                   + |"  <WindowHeight>"| + |NatToString(ws.height)| + |"</WindowHeight>"| + |NL|)
  {
    var parts := DocumentChunks(fixed, title, ws);
    Enclosed(parts, 10, "  <WindowWidth>", "</WindowWidth>");
    ConcatPrefixLength(parts, 10);
    PrefixLengthSix(parts);
    PrefixLengthTen(parts);
  }

  /**
   * The document carries the title exactly as given, unescaped, between
   * `<Title>` and `</Title>`, right after the fixed opening text.
   */
  lemma DocumentCarriesTitle(title: string, ws: WorksheetResult)
    ensures Occurs(ExcelXml(title, ws), "  <Title>" + title + "</Title>", |WorkbookOpen|)
  {
    TitleInDocument(Fixed, title, ws);
  }

  /**
   * The document carries the window height as decimal digits that read
   * back as the height, on the line after the title and the properties.
   */
  lemma DocumentCarriesHeight(title: string, ws: WorksheetResult)
    ensures exists digits :: AllDigits(digits) && ParseDecimal(digits) == ws.height
              && Occurs(ExcelXml(title, ws), "  <WindowHeight>" + digits + "</WindowHeight>",
                        |WorkbookOpen| + |"  <Title>"| + |title| + |"</Title>"| + |NL| + |PropertiesClose|)
  {
    HeightInDocument(Fixed, title, ws);
    ParseNatToString(ws.height);
  }

  /**
   * The document carries the window width as decimal digits that read back
   * as the width, on the line after the window height.
   */
  lemma DocumentCarriesWidth(title: string, ws: WorksheetResult)
    ensures exists digits :: AllDigits(digits) && ParseDecimal(digits) == ws.width
              && Occurs(ExcelXml(title, ws), "  <WindowWidth>" + digits + "</WindowWidth>",
                        |WorkbookOpen| + |"  <Title>"| + |title| + |"</Title>"| + |NL| + |PropertiesClose|
                        + |"  <WindowHeight>"| + |NatToString(ws.height)| + |"</WindowHeight>"| + |NL|)
  {
    WidthInDocument(Fixed, title, ws);
    ParseNatToString(ws.width);
  }

  /**
   * The document ends with the worksheet markup exactly as given, then a
   * line break and `</Workbook>`; `WorksheetInDocument` places it after the
   * fixed settings and styles.
   */
  lemma DocumentCarriesWorksheet(title: string, ws: WorksheetResult)
    ensures var doc := ExcelXml(title, ws);
            var piece := ws.xml + NL + "</Workbook>";
            |piece| <= |doc| && Occurs(doc, piece, |doc| - |piece|)
  {
    WorksheetInDocument(Fixed, title, ws);
  }

  /** The worksheet's start tag, at the very beginning, carries the title as given. */
  lemma WorksheetCarriesTitle(title: string, s: Sheet)
    ensures Occurs(WorksheetXml(title, s), " <Worksheet ss:Name=\"" + title + "\">", 0)
  {
    var parts := WorksheetChunks(title, s.columnCount, s.rowCount, RowsXml(s.rows));
    Enclosed(parts, 0, " <Worksheet ss:Name=\"", "\">");
  }

  /**
   * The table's `ExpandedColumnCount` is written as decimal digits that read
   * back as the column count, on the line after the `<Table>` start.
   */
  lemma WorksheetCarriesColumnCount(title: string, s: Sheet)
    ensures exists digits :: AllDigits(digits) && ParseDecimal(digits) == s.columnCount
              && Occurs(WorksheetXml(title, s), "   ss:ExpandedColumnCount=\"" + digits + "\"",
                        |" <Worksheet ss:Name=\""| + |title| + |"\">"| + |NL| + |"  <Table x:FullRows=\"1\" x:FullColumns=\"1\""| + |NL|)
  {
    var parts := WorksheetChunks(title, s.columnCount, s.rowCount, RowsXml(s.rows));
    var digits := NatToString(s.columnCount);
    Enclosed(parts, 6, "   ss:ExpandedColumnCount=\"", "\"");
    ParseNatToString(s.columnCount);
    assert |Concat(parts[..6])| == |" <Worksheet ss:Name=\""| + |title| + |"\">"| + |NL| + |"  <Table x:FullRows=\"1\" x:FullColumns=\"1\""| + |NL| by {
      ConcatPrefixLength(parts, 6);
      PrefixLengthSix(parts);
    }
    assert Occurs(WorksheetXml(title, s), "   ss:ExpandedColumnCount=\"" + digits + "\"", |Concat(parts[..6])|);
  }

  /**
   * The table's `ExpandedRowCount` is written as decimal digits that read
   * back as the row count, on the line after `ExpandedColumnCount`.
   */
  lemma WorksheetCarriesRowCount(title: string, s: Sheet)
    ensures exists digits :: AllDigits(digits) && ParseDecimal(digits) == s.rowCount
              && Occurs(WorksheetXml(title, s), "   ss:ExpandedRowCount=\"" + digits + "\">",
                        |" <Worksheet ss:Name=\""| + |title| + |"\">"| + |NL| + |"  <Table x:FullRows=\"1\" x:FullColumns=\"1\""| + |NL| + |"   ss:ExpandedColumnCount=\""| + |NatToString(s.columnCount)| + |"\""| + |NL|)
  {
    var parts := WorksheetChunks(title, s.columnCount, s.rowCount, RowsXml(s.rows));
    var digits := NatToString(s.rowCount);
    Enclosed(parts, 10, "   ss:ExpandedRowCount=\"", "\">");
    ParseNatToString(s.rowCount);
    assert |Concat(parts[..10])| == |" <Worksheet ss:Name=\""| + |title| + |"\">"| + |NL| + |"  <Table x:FullRows=\"1\" x:FullColumns=\"1\""| + |NL| + |"   ss:ExpandedColumnCount=\""| + |NatToString(s.columnCount)| + |"\""| + |NL| by {
      ConcatPrefixLength(parts, 10);
      PrefixLengthSix(parts);
      PrefixLengthTen(parts);
    }
    assert Occurs(WorksheetXml(title, s), "   ss:ExpandedRowCount=\"" + digits + "\">", |Concat(parts[..10])|);
  }
}
