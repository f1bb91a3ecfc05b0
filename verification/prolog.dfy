/**
 * The fixed text of the workbook document: the XML declaration and
 * namespaces, the document properties, the workbook settings and the two
 * styles every export carries.
 */
module Prolog {
  import opened Text

  /** The XML declaration, the `<Workbook>` start tag with its namespaces, and the properties start tag. */
  const WorkbookOpen: string :=
    "<?xml version=\"1.0\"?>" + NL
    + "<Workbook xmlns=\"urn:schemas-microsoft-com:office:spreadsheet\"" + NL
    + " xmlns:o=\"urn:schemas-microsoft-com:office:office\"" + NL
    + " xmlns:x=\"urn:schemas-microsoft-com:office:excel\"" + NL
    + " xmlns:ss=\"urn:schemas-microsoft-com:office:spreadsheet\"" + NL
    + " xmlns:html=\"http://www.w3.org/TR/REC-html40\">" + NL
    + " <DocumentProperties xmlns=\"urn:schemas-microsoft-com:office:office\">" + NL

  /** From the version to the start of the `ExcelWorkbook` block. */
  const PropertiesClose: string :=
    "  <Version>14.0</Version>" + NL
    + " </DocumentProperties>" + NL
    + " <OfficeDocumentSettings xmlns=\"urn:schemas-microsoft-com:office:office\">" + NL
    + "   <AllowPNG/>" + NL
    + " </OfficeDocumentSettings>" + NL
    + " <ExcelWorkbook xmlns=\"urn:schemas-microsoft-com:office:excel\">" + NL

  /** The protection flags and the two fixed styles. */
  const SettingsAndStyles: string :=
    "  <ProtectStructure>False</ProtectStructure>" + NL
    + "  <ProtectWindows>False</ProtectWindows>" + NL
    + " </ExcelWorkbook>" + NL
    + " <Styles>" + NL
    + "  <Style ss:ID=\"Hyperlink\" ss:Name=\"Hyperlink\">" + NL
    + "   <Font ss:FontName=\"Helvetica\" ss:Size=\"12\" ss:Color=\"#0000D4\" ss:Underline=\"Single\"/>" + NL
    + "  </Style>" + NL
    + "  <Style ss:ID=\"Default\">" + NL
    + "   <Font ss:FontName=\"Helvetica\" ss:Size=\"12\" ss:Color=\"#000000\"/>" + NL
    + "  </Style>" + NL
    + " </Styles>" + NL

  /** The three stretches of fixed text that the title, the window size and the worksheet separate. */
  datatype FixedText = FixedText(opening: string, properties: string, settingsAndStyles: string)

  /** The workbook's fixed text. */
  const Fixed: FixedText := FixedText(WorkbookOpen, PropertiesClose, SettingsAndStyles)
}
