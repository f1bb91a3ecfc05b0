# SpreadsheetML export of a grid, in Dafny

This project models the core of the grid export plugin `GridXmlExport`. That
core is the serialiser that turns a grid into an Excel 2003 XML
(SpreadsheetML) document. It has two functions:

- `createWorksheet` builds the `<Worksheet>` element and the window size;
- `getExcelXml` wraps that worksheet in the `<Workbook>` document.

The inputs are:

- the grid's columns, in order;
- the store's field-type map;
- the list of records to export;
- the store itself.

The store matters on its own because `ExpandedRowCount` counts the store and
not the exported records, and because renderers receive one of its records.
The model follows the source's three stages.

- **Column plan** (`ColumnPlan`). One pass over the columns keeps the
  *retained* ones: those that are visible, or every column when
  `includeHidden` is set. It adds up their widths. For each retained column
  with a `dataIndex` it pushes a cell type taken from the field's type:
  `int` and `float` give Number, `date` gives DateTime, anything else gives
  String. A typed column whose field the map lacks makes the source
  dereference `undefined` and throw. The model returns that as the error
  `UnknownField(dataIndex)`, naming the first such column.
- **Rows** (`RowSerializer`). For each record, the source walks all columns
  with a cursor `k` that advances once per retained column. It writes a cell
  only while `cellType[k]` exists. A cell is either the renderer's markup,
  written verbatim, or a `<Cell ss:StyleID="Default"><Data ss:Type="…">`
  element. The `<Data>` text is the `Y-m-d` date for DateTime and the
  HTML-encoded value otherwise.
- **Envelope** (`Workbook`, `Prolog`). The window height is 9000 and the
  window width is `total * 30 + 50`. `ExpandedColumnCount` is the number of
  cell types, and `ExpandedRowCount` is the store's size plus two. The title
  is written as given, without escaping. The workbook prolog, namespaces and
  styles are fixed text.

Each stage is written twice:

- as a declarative definition (`PlanOf`, `RowCells`/`RowsOf`, `SheetOf`);
- as a method that follows the source's loops statement by statement
  (`BuildPlan`, `SerializeRow`, `SerializeRows`, `CreateWorksheet`,
  `GetExcelXml`).

Each method's contract says that it computes exactly the declarative
definition. The lemmas state the properties about the declarative side.
Documents are built as lists of pieces joined by `Text.Concat`, and
`Text.Occurs` says that a piece appears in a document at a given index.

### The cell-type shift

The cursor `k` counts retained columns, but `cellType` holds entries only for
retained columns that have a `dataIndex`. So the k-th retained column takes
`cellType[k]`, which is the type of the k-th typed column. Once a retained
column without a `dataIndex` has been passed, the columns after it take
types meant for columns further right. Each row holds cells for the first
`cellType.length` retained columns, and the last retained columns get no
cell. `Workbook.SheetCellsShifted` states this for every grid.
`Workbook.TypeShiftExample` shows it on a two-column grid, and
`Workbook.SheetAlignedWhenAllTyped` states the case where cells and types
line up.

### Further details of the source

- A column with no `dataIndex` at all reads its value under the property
  name `"undefined"`, because JavaScript converts the missing key to that
  string.
- A `dataIndex` counts for a cell type only when it is truthy. A column whose
  `dataIndex` is the empty string gets no cell type, but it still reads its
  value under the property name `""`.
- A renderer receives `store.getAt(j)`, where `j` is the column's position
  in the grid and not the record's index. So a hidden column inserted ahead
  of a column with a renderer changes that renderer's input even though the
  hidden column is not exported. The hidden-column lemmas for rows therefore
  require that no column at or after the insertion point has a renderer.

## Model

| member | source | states |
|---|---|---|
| Grid.CellTypeOf | src/GridXmlExport.js:183-205 | the cell type is Number exactly for `int` and `float`, DateTime exactly for `date`, and String for every other type name, `bool` and `boolean` included |
| Grid.CellTypeNameRoundTrip | src/GridXmlExport.js:185-202 | each `ss:Type` literal written (`Number`, `DateTime`, `String`) reads back as the cell type it was written for |
| Grid.Positions | src/GridXmlExport.js:176-177 | every selected position is a column of the grid that is retained (and typed, for the typed pass) |
| Grid.PositionsComplete | src/GridXmlExport.js:176-177 | every retained column (every retained typed column, for the typed pass) is selected |
| Grid.PositionsIncreasing | src/GridXmlExport.js:176 | the columns are selected in grid order |
| Grid.TypedAtMostRetained | src/GridXmlExport.js:177-180 | the typed pass never selects more columns than the retained pass |
| Grid.IncludeHiddenRetainsAll | src/GridXmlExport.js:177 | with `includeHidden` set, every column is retained, in grid order |
| Grid.PositionsAfterHiddenInsert | src/GridXmlExport.js:177 | a hidden column inserted anywhere is never selected while hidden columns are excluded, and the other columns keep being selected under their shifted positions |
| ColumnPlan.FirstUnknown | src/GridXmlExport.js:180-183 | the failing column is typed with an unknown field, and every typed column before it is known |
| ColumnPlan.BuildPlan | src/GridXmlExport.js:176-209 | the plan loop fails with the first typed retained column whose field is unknown; otherwise it yields the typed columns' cell types in order and the total width of all retained columns |
| ColumnPlan.PlanFailsIff | src/GridXmlExport.js:180-183 | the plan fails if and only if some retained column with a `dataIndex` names a field the map lacks |
| ColumnPlan.PlanColumnCount | src/GridXmlExport.js:180-209 | the number of cell types is the number of retained columns with a `dataIndex`, and at most the number of retained columns |
| ColumnPlan.PlanTypesAligned | src/GridXmlExport.js:180-206 | when every retained column has a `dataIndex`, the k-th cell type is the type of the k-th retained column's field |
| ColumnPlan.IncludeHiddenWidth | src/GridXmlExport.js:176-179 | with `includeHidden` set, the total width is the sum of every column's width |
| ColumnPlan.PlanIgnoresHiddenColumn | src/GridXmlExport.js:176-209 | with hidden columns excluded, inserting a hidden column anywhere changes neither the width, nor the cell types, nor the outcome |
| Grid.FieldKey | src/GridXmlExport.js:232 | the property read for a cell is the column's `dataIndex` when it has one, and `"undefined"` when it has none |
| RowSerializer.StoreAt | src/GridXmlExport.js:233 | `store.getAt(j)` yields a record exactly when `j` is within the store, and then it yields the store's j-th record |
| RowSerializer.CellFor | src/GridXmlExport.js:231-243 | a column with a renderer gets the renderer's markup for the value and for the store record at the column's grid position; any other column gets a data cell of the cursor's type, holding the formatted date for DateTime and the encoded value otherwise |
| RowSerializer.CellReadsOwnField | src/GridXmlExport.js:231-243 | a cell depends on the record only through its own column's field |
| RowSerializer.CellXml | src/GridXmlExport.js:235-243 | a rendered line is exactly four spaces, the renderer's markup and a line break; a data line is exactly `<Cell ss:StyleID="Default"><Data ss:Type="T">` after four spaces, then the text, then `</Data></Cell>` and a line break |
| RowSerializer.SerializeRow | src/GridXmlExport.js:224-249 | the row loop writes, between `<Row>` and `</Row>`, one cell for each of the first `cellType.length` retained columns, pairing the k-th retained column with `cellType[k]` |
| RowSerializer.SerializeRows | src/GridXmlExport.js:223-250 | the record loop writes one row per record, in the records' order |
| RowSerializer.RowLength | src/GridXmlExport.js:227-247 | a row has exactly one cell per cell type when there are no more cell types than retained columns |
| RowSerializer.RowIgnoresHiddenColumn | src/GridXmlExport.js:228-235 | with hidden columns excluded, an inserted hidden column adds no cell and leaves every cell unchanged, given no renderer at or after the insertion point |
| RowSerializer.DataCellXmlInjective | src/GridXmlExport.js:237-243 | a data cell's markup determines its `ss:Type` and its text |
| Decimal.ParseNatToString | src/GridXmlExport.js:146-147 | the decimal text written for a whole number reads back as that number |
| Decimal.NatToStringInjective | src/GridXmlExport.js:219-220 | different counts are written as different decimal texts |
| Workbook.CreateWorksheet | src/GridXmlExport.js:163-255 | `createWorksheet` fails exactly as the plan does; otherwise it returns height 9000, width `total * 30 + 50`, and the worksheet markup of the planned sheet |
| Workbook.GetExcelXml | src/GridXmlExport.js:128-161 | `getExcelXml` fails exactly as `createWorksheet` does; otherwise it returns the workbook document around that worksheet |
| Workbook.SheetShape | src/GridXmlExport.js:209-220 | height 9000, width from all retained columns, column count equal to the retained typed columns and at most the retained columns, row count equal to the store's size plus two, one row per record, every row as long as the column count |
| Workbook.RowCountFollowsStore | src/GridXmlExport.js:220 | `ExpandedRowCount` is two more than the rows written exactly when as many records are exported as the store holds |
| Workbook.SheetFailsIff | src/GridXmlExport.js:180-183 | the export fails if and only if a retained column with a `dataIndex` names a field the store does not describe |
| Workbook.SheetRowsConcat | src/GridXmlExport.js:223-250 | exporting `a + b` gives the rows of `a` followed by the rows of `b` |
| Workbook.SheetIgnoresHiddenColumn | src/GridXmlExport.js:176-235 | with hidden columns excluded, an inserted hidden column leaves the whole worksheet unchanged, given no renderer at or after the insertion point |
| Workbook.SheetAlignedWhenAllTyped | src/GridXmlExport.js:227-247 | when every retained column has a `dataIndex`, cell k of each row is written for the k-th retained column with the type of its own field |
| Workbook.SheetCellsShifted | src/GridXmlExport.js:227-246 | for every grid, cell k of each row is written for the k-th retained column with the type of the k-th typed retained column, and each row has as many cells as the smaller of the two counts |
| Workbook.TypeShiftExample | src/GridXmlExport.js:227-246 | an untyped column ahead of a `float` column takes the Number type and the only cell, so the float value is never written |
| Workbook.DocumentCarriesTitle | src/GridXmlExport.js:139 | the document contains the title as given, unescaped, between `<Title>` and `</Title>`, right after the fixed opening text |
| Workbook.DocumentCarriesHeight | src/GridXmlExport.js:146 | right after the title line and the fixed document properties, the document contains `<WindowHeight>`, decimal digits that read back as the worksheet height, and `</WindowHeight>` |
| Workbook.DocumentCarriesWidth | src/GridXmlExport.js:147 | right after the window-height line, the document contains `<WindowWidth>`, decimal digits that read back as the worksheet width, and `</WindowWidth>` |
| Workbook.WorksheetInDocument | src/GridXmlExport.js:132-160 | whatever the fixed text, the worksheet markup, a line break and `</Workbook>` end the document, right after the window-width line and the fixed settings and styles |
| Workbook.DocumentCarriesWorksheet | src/GridXmlExport.js:159-160 | the document ends with the worksheet markup exactly as given, then a line break and `</Workbook>` |
| Workbook.WorksheetCarriesTitle | src/GridXmlExport.js:217 | the worksheet's start tag, at the very beginning of its markup, carries the title as given, unescaped |
| Workbook.WorksheetCarriesColumnCount | src/GridXmlExport.js:219 | on the line after the `<Table>` start, `ExpandedColumnCount` is written as decimal digits that read back as the number of cell types |
| Workbook.WorksheetCarriesRowCount | src/GridXmlExport.js:220 | on the line after `ExpandedColumnCount`, `ExpandedRowCount` is written as decimal digits that read back as the store's size plus two |

## Left out

- Plugin lifecycle and UI wiring (`init`, `onRender`, `getExportButtons`): component plumbing with no effect on the document.
- `exportAll`, `exportSelection`, `exportXmlInit`: event and selection-model flow. Their only effect here is which records are passed, and the model takes the records as a parameter.
- `pushToBrowser`: browser I/O (`window.open` of a base64 data URI).
- `Ext.htmlEncode`, `Ext.Date.format(v, 'Y-m-d')` and the column renderers are foreign code. They are function parameters, uninterpreted; a renderer receives the value and the store record, and its unused second argument is dropped.
- The field-type lookup `store.model.prototype.fields.map` is a map from field name to type name. Names that a plain JavaScript object inherits from its prototype, and fields that lack a `type`, are not modelled.
- Dead values that never reach the output (`cellTypeClass`, `cellClass`, and the `getFullWidth` result in `getExcelXml`) are not modelled.
- Widths are whole numbers, so `Math.floor(total * 30)` is the identity. Fractional pixel widths are not modelled.
- Record values are a small datatype, and numbers in it are integers. Only the values' identity matters, because the formatters are uninterpreted.
- The title is a string. A grid without a title, which JavaScript would write as `undefined`, is not modelled.
- Text.NL: the line separator is fixed at a single line feed. The exporter's `newLine` property (src/GridXmlExport.js:49, read at 131 and 175) can be reconfigured, and a different separator is not modelled.
- Decimal.NatToString: writes every whole number as plain decimal digits. JavaScript switches to exponent notation from 1e21, which no window size or count here reaches.
- RowIgnoresHiddenColumn: requires that no renderer sits at or after the insertion point. A renderer there receives the store record at its new column position, so the source really does change that cell.
- SheetIgnoresHiddenColumn: carries the same renderer requirement, for the same reason.
- No lemma counts `<Row>` tags in the final string, because a renderer's markup is arbitrary text and may itself contain them. Row counts and row order are stated over the rows of cells that `SerializeRows` writes out in order.
