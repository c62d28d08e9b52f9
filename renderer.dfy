/** `NewRCPDDoc`: the Word register built from the extracted data. The
    document is an object whose state the methods of `modify` change one
    after the other: the fonts of the styles, the first section's page
    geometry, that section's header paragraph, and the body, to which a
    subtitle paragraph and then a table are appended. */
module Renderer {
  import opened Wrappers
  import opened PyText
  import opened Docx
  import opened Extractor

  // ---------------------------------------------------------------------
  // Configuration
  // ---------------------------------------------------------------------

  /** The arguments `create_doc` and `main` pass to the constructor: an A4
      page in millimetres and the three column widths in inches. */
  const PageHeight: real := 297.0
  const PageWidth: real := 210.0
  const Space: real := 12.7
  const Column0Width: real := 0.42
  const Column1Width: real := 2.10
  const Column2Width: real := 4.68

  /** The style and font `modify` sets, and the styles it applies. */
  const NormalStyle: string := "Normal"
  const BodyFont: string := "Times New Roman"
  const BodyFontSize: nat := 12
  const TableGridStyle: string := "Table Grid"
  /** The fill of columns 0 and 1. */
  const LightGrey: string := "f2f2f2"

  const Title: string := "Rejestr czynności przetwarzania danych"
  /** The plain part of the subtitle; there are two spaces before the dash. */
  const SubtitleLabel: string := "Administrator Danych Osobowych  - "
  const DocxExtension: string := ".docx"

  /** The first section of python-docx's default template: US Letter with
      1.25 inch side margins, 1 inch top and bottom margins and half an
      inch to the header and footer, in millimetres. */
  const DefaultSection: Section := Section(279.4, 215.9, 31.75, 31.75, 25.4, 25.4, 12.7, 12.7)

  // ---------------------------------------------------------------------
  // table_0_data
  // ---------------------------------------------------------------------

  function Min(a: nat, b: nat): nat {
    if a <= b then a else b
  }

  /** Python's `zip`: pairs up to the end of the shorter sequence. */
  function Zip<A, B>(xs: seq<A>, ys: seq<B>): (r: seq<(A, B)>)
    ensures |r| == Min(|xs|, |ys|)
    ensures forall i :: 0 <= i < |r| ==> r[i] == (xs[i], ys[i])
  {
    if xs == [] || ys == [] then [] else [(xs[0], ys[0])] + Zip(xs[1..], ys[1..])
  }

  /** One tuple of `table_0_data`: the position, the key and the value. */
  datatype Entry = Entry(index: nat, key: string, value: string)

  /** Python's `enumerate(pairs, start)`, flattened into entries. */
  function Enumerate(pairs: seq<(string, string)>, start: nat): (r: seq<Entry>)
    ensures |r| == |pairs|
    ensures forall i :: 0 <= i < |r| ==> r[i] == Entry(start + i, pairs[i].0, pairs[i].1)
  {
    if pairs == [] then [] else [Entry(start, pairs[0].0, pairs[0].1)] + Enumerate(pairs[1..], start + 1)
  }

  /** `[(i, item1, item2) for i, (item1, item2) in enumerate(zip(column1, column2))]`:
      one entry per position both columns have, numbered from 0; a length
      mismatch is silently truncated. */
  function TableData(column1: seq<string>, column2: seq<string>): (r: seq<Entry>)
    ensures |r| == Min(|column1|, |column2|)
    ensures forall i :: 0 <= i < |r| ==> r[i] == Entry(i, column1[i], column2[i])
  {
    Enumerate(Zip(column1, column2), 0)
  }

  /** The list is empty exactly when one of the columns is. */
  lemma TableDataEmpty(column1: seq<string>, column2: seq<string>)
    ensures TableData(column1, column2) == [] <==> column1 == [] || column2 == []
  {
    var r := TableData(column1, column2);
    assert |r| == Min(|column1|, |column2|);
  }

  // ---------------------------------------------------------------------
  // The rows the table is built from
  // ---------------------------------------------------------------------

  /** `f'{item0 + 1}.'`: the 1-based ordinal followed by a dot. */
  function Label(index: nat): string {
    NatToString(index + 1) + "."
  }

  /** A label is the decimal ordinal, without leading zeros, then a dot, so
      different entries get different labels. */
  lemma {:induction false} LabelFacts(index: nat)
    ensures |Label(index)| >= 2 && Label(index)[|Label(index)| - 1] == '.'
    ensures ParseNat(Label(index)[..|Label(index)| - 1]) == index + 1
    ensures Label(index)[0] != '0'
    ensures forall k :: 0 <= k < |Label(index)| - 1 ==> IsDigit(Label(index)[k])
  {
    var digits := NatToString(index + 1);
    assert Label(index)[..|Label(index)| - 1] == digits;
    NatToStringRoundTrip(index + 1);
    if |digits| == 1 {
      assert DigitValue(digits[0]) == index + 1;
    }
  }

  lemma {:induction false} LabelInjective(i: nat, j: nat)
    requires Label(i) == Label(j)
    ensures i == j
  {
    LabelFacts(i);
    LabelFacts(j);
  }

  /** The text a cell of a populated row receives, by column. */
  function EntryText(e: Entry, column: nat): string {
    if column == 0 then Label(e.index) else if column == 1 then e.key else e.value
  }

  /** The row `populate_table` appends for one entry to a table of `n`
      columns: the three texts, then untouched empty cells. */
  function DataRow(e: Entry, n: nat): seq<TableCell>
    requires 3 <= n
  {
    [WithText(EmptyCell, Label(e.index)), WithText(EmptyCell, e.key), WithText(EmptyCell, e.value)] + EmptyRow(n - 3)
  }

  function DataRows(data: seq<Entry>, n: nat): seq<seq<TableCell>>
    requires 3 <= n
  {
    seq(|data|, i requires 0 <= i < |data| => DataRow(data[i], n))
  }

  function StyledRow(row: seq<TableCell>, style: string): seq<TableCell> {
    seq(|row|, j requires 0 <= j < |row| => RestyledCell(row[j], style))
  }

  /** Every paragraph of every cell restyled. */
  function StyledRows(rows: seq<seq<TableCell>>, style: string): seq<seq<TableCell>> {
    seq(|rows|, k requires 0 <= k < |rows| => StyledRow(rows[k], style))
  }

  function EmboldenedRow(row: seq<TableCell>): seq<TableCell> {
    seq(|row|, j requires 0 <= j < |row| => EmboldenedCell(row[j]))
  }

  /** Every cell of one column shaded. */
  function ShadedColumn(rows: seq<seq<TableCell>>, column: nat, colour: string): seq<seq<TableCell>>
    requires forall k :: 0 <= k < |rows| ==> column < |rows[k]|
  {
    seq(|rows|, k requires 0 <= k < |rows| => rows[k][column := ShadedCell(rows[k][column], colour)])
  }

  /** The rows `set_table` leaves in a fresh three-column table for
      non-empty data: populated, restyled `Normal`, row 0 emboldened, and
      columns 0 and 1 shaded light grey, in that order. */
  function RenderedRows(data: seq<Entry>): seq<seq<TableCell>>
    requires data != []
  {
    var styled := StyledRows(DataRows(data, 3), NormalStyle);
    var bolded := styled[0 := EmboldenedRow(styled[0])];
    ShadedColumn(ShadedColumn(bolded, 0, LightGrey), 1, LightGrey)
  }

  /** The same cells described one by one, independently of the order of
      the steps. */
  function RenderedCell(e: Entry, column: nat, heading: bool): TableCell {
    TableCell([Paragraph([Run(EntryText(e, column), heading)], Some(NormalStyle), Inherit)],
              if column < 2 then [LightGrey] else [])
  }

  lemma RenderedCellOfRow(data: seq<Entry>, i: nat, c: nat)
    requires i < |data| && c < 3
    ensures |RenderedRows(data)| == |data| && |RenderedRows(data)[i]| == 3
    ensures RenderedRows(data)[i][c] == RenderedCell(data[i], c, i == 0)
  {
    var populated := DataRows(data, 3);
    var styled := StyledRows(populated, NormalStyle);
    assert populated[i][c] == WithText(EmptyCell, EntryText(data[i], c));
    assert styled[i][c] == TableCell([Paragraph([Run(EntryText(data[i], c), false)], Some(NormalStyle), Inherit)], []);
    var bolded := styled[0 := EmboldenedRow(styled[0])];
    if i == 0 {
      assert bolded[0][c] == EmboldenedCell(styled[0][c]);
      assert EmboldenedParagraph(styled[0][c].paragraphs[0]).runs == [Run(EntryText(data[i], c), true)];
    }
    assert bolded[i][c] == TableCell([Paragraph([Run(EntryText(data[i], c), i == 0)], Some(NormalStyle), Inherit)], []);
    var shaded := ShadedColumn(bolded, 0, LightGrey);
    assert shaded[i][c] == bolded[i][c].(fills := if c == 0 then [LightGrey] else []);
  }

  /** Every cell of the finished table: row `i` holds the label `i + 1.`,
      the key and the value, each as one `Normal` paragraph with one run,
      bold exactly in row 0, and the cells of columns 0 and 1 carry exactly
      one light grey fill while those of column 2 carry none. */
  lemma {:induction false} RenderedTableContents(data: seq<Entry>)
    requires data != []
    ensures |RenderedRows(data)| == |data|
    ensures forall i :: 0 <= i < |data| ==> |RenderedRows(data)[i]| == 3
    ensures forall i, c :: 0 <= i < |data| && 0 <= c < 3 ==>
              RenderedRows(data)[i][c] == RenderedCell(data[i], c, i == 0)
  {
    RenderedCellOfRow(data, 0, 0);
    forall i, c | 0 <= i < |data| && 0 <= c < 3
      ensures |RenderedRows(data)[i]| == 3
      ensures RenderedRows(data)[i][c] == RenderedCell(data[i], c, i == 0)
    {
      RenderedCellOfRow(data, i, c);
    }
  }

  /** The register for keys and values read from the sheet: row `i` reads
      `i + 1.`, `keys[i]`, `values[i]`, for every position both rows have. */
  lemma {:induction false} RenderedRegister(keys: seq<string>, values: seq<string>)
    requires keys != [] && values != []
    ensures TableData(keys, values) != []
    ensures |RenderedRows(TableData(keys, values))| == Min(|keys|, |values|)
    ensures forall i :: 0 <= i < Min(|keys|, |values|) ==>
              var row := RenderedRows(TableData(keys, values))[i];
              && |row| == 3
              && row[0] == RenderedCell(Entry(i, keys[i], values[i]), 0, i == 0)
              && row[1] == RenderedCell(Entry(i, keys[i], values[i]), 1, i == 0)
              && row[2] == RenderedCell(Entry(i, keys[i], values[i]), 2, i == 0)
              && row[0].paragraphs[0].runs[0].text == Label(i)
              && row[1].paragraphs[0].runs[0].text == keys[i]
              && row[2].paragraphs[0].runs[0].text == values[i]
  {
    var data := TableData(keys, values);
    RenderedTableContents(data);
    forall i | 0 <= i < Min(|keys|, |values|)
      ensures |RenderedRows(data)[i]| == 3
      ensures RenderedRows(data)[i][0] == RenderedCell(Entry(i, keys[i], values[i]), 0, i == 0)
      ensures RenderedRows(data)[i][1] == RenderedCell(Entry(i, keys[i], values[i]), 1, i == 0)
      ensures RenderedRows(data)[i][2] == RenderedCell(Entry(i, keys[i], values[i]), 2, i == 0)
    {
      assert data[i] == Entry(i, keys[i], values[i]);
    }
  }

  // ---------------------------------------------------------------------
  // The inner loops over paragraphs and runs
  // ---------------------------------------------------------------------

  /** `for run in paragraph.runs: run.bold = True`. */
  method EmboldenParagraph(p: Paragraph) returns (q: Paragraph)
    ensures q == EmboldenedParagraph(p)
  {
    var runs := p.runs;
    var i := 0;
    while i < |runs|
      invariant 0 <= i <= |runs| == |p.runs|
      invariant forall j :: 0 <= j < |runs| ==> runs[j] == if j < i then p.runs[j].(bold := true) else p.runs[j]
    {
      runs := runs[i := runs[i].(bold := true)];
      i := i + 1;
    }
    q := p.(runs := runs);
  }

  /** `for paragraph in cell.paragraphs: for run in paragraph.runs: run.bold = True`. */
  method EmboldenCell(c: TableCell) returns (d: TableCell)
    ensures d == EmboldenedCell(c)
  {
    var paragraphs := c.paragraphs;
    var i := 0;
    while i < |paragraphs|
      invariant 0 <= i <= |paragraphs| == |c.paragraphs|
      invariant forall j :: 0 <= j < |paragraphs| ==>
                  paragraphs[j] == if j < i then EmboldenedParagraph(c.paragraphs[j]) else c.paragraphs[j]
    {
      var q := EmboldenParagraph(paragraphs[i]);
      paragraphs := paragraphs[i := q];
      i := i + 1;
    }
    d := c.(paragraphs := paragraphs);
  }

  /** `for paragraph in cell.paragraphs: paragraph.style = style`. */
  method RestyleCell(c: TableCell, style: string) returns (d: TableCell)
    ensures d == RestyledCell(c, style)
  {
    var paragraphs := c.paragraphs;
    var i := 0;
    while i < |paragraphs|
      invariant 0 <= i <= |paragraphs| == |c.paragraphs|
      invariant forall j :: 0 <= j < |paragraphs| ==>
                  paragraphs[j] == if j < i then c.paragraphs[j].(style := Some(style)) else c.paragraphs[j]
    {
      paragraphs := paragraphs[i := paragraphs[i].(style := Some(style))];
      i := i + 1;
    }
    d := c.(paragraphs := paragraphs);
  }

  // ---------------------------------------------------------------------
  // The output file
  // ---------------------------------------------------------------------

  /** `f'{folder}/{raw_filename}.docx'`, the path `save` writes to. */
  function OutputPath(folder: string, rawFilename: string): string {
    folder + "/" + rawFilename + DocxExtension
  }

  /** The folder, the base name and the extension can be read back from
      the path, so one folder never receives two base names under one path. */
  lemma OutputPathParts(folder: string, rawFilename: string)
    ensures var p := OutputPath(folder, rawFilename);
      && |p| == |folder| + |rawFilename| + 6
      && p[..|folder|] == folder && p[|folder|] == '/'
      && p[|folder| + 1..|p| - 5] == rawFilename
      && p[|p| - 5..] == DocxExtension
  {
  }

  lemma {:induction false} OutputPathInjective(folder: string, a: string, b: string)
    requires OutputPath(folder, a) == OutputPath(folder, b)
    ensures a == b
  {
    OutputPathParts(folder, a);
    OutputPathParts(folder, b);
  }

  /** `add_run(text)` leaves the run empty when `text` is `None`. */
  function RunText(v: CellValue): string {
    if v.Some? then v.value else ""
  }

  /** The paragraph `set_subtitle` appends: the plain label, then the
      administrator in bold. */
  function SubtitleParagraph(administrator: CellValue): Paragraph {
    Paragraph([Run(SubtitleLabel, false), Run(RunText(administrator), true)], Some(NormalStyle), Inherit)
  }

  /** A block of the document body. */
  datatype Block = ParagraphBlock(paragraph: Paragraph) | TableBlock(table: Table)

  // ---------------------------------------------------------------------
  // The document
  // ---------------------------------------------------------------------

  class NewRcpdDoc {
    const folder: string
    const rawFilename: string
    const filename: string
    const path: string
    const administrator: CellValue
    const column1: seq<string>
    const column2: seq<string>
    const height: real
    const width: real
    const space: real
    const column0Width: real
    const column1Width: real
    const column2Width: real
    const tableData: seq<Entry>
    const title: string

    /** `self.doc`: the fonts set on named styles, the first section, that
        section's header paragraph, and the body. */
    var fonts: map<string, Font>
    var section: Section
    var header: Paragraph
    var body: seq<Block>

    /** `NewRCPDDoc(...)` over a new `Document()`: no font set, the
        template's section, an empty header paragraph in the `Header`
        style, an empty body. */
    constructor (folder: string, rawFilename: string, administrator: CellValue,
                 column1: seq<string>, column2: seq<string>,
                 height: real, width: real, space: real,
                 column0Width: real, column1Width: real, column2Width: real)
      ensures this.folder == folder && this.rawFilename == rawFilename && this.administrator == administrator
      ensures this.column1 == column1 && this.column2 == column2
      ensures this.height == height && this.width == width && this.space == space
      ensures this.column0Width == column0Width && this.column1Width == column1Width && this.column2Width == column2Width
      ensures filename == rawFilename + DocxExtension && path == OutputPath(folder, rawFilename)
      ensures tableData == TableData(column1, column2) && title == Title
      ensures fonts == map[] && section == DefaultSection
      ensures header == Paragraph([], Some("Header"), Inherit) && body == []
    {
      this.folder := folder;
      this.rawFilename := rawFilename;
      this.filename := rawFilename + DocxExtension;
      this.path := folder + "/" + rawFilename + DocxExtension;
      this.administrator := administrator;
      this.column1 := column1;
      this.column2 := column2;
      this.height := height;
      this.width := width;
      this.space := space;
      this.column0Width := column0Width;
      this.column1Width := column1Width;
      this.column2Width := column2Width;
      this.tableData := TableData(column1, column2);
      this.title := Title;
      fonts := map[];
      section := DefaultSection;
      header := Paragraph([], Some("Header"), Inherit);
      body := [];
    }

    /** `set_font`: the named style gets the font; the other styles keep
        theirs. */
    method SetFont(styleName: string, fontName: string, fontSize: nat)
      modifies this
      ensures fonts == old(fonts)[styleName := Font(fontName, fontSize)]
      ensures section == old(section) && header == old(header) && body == old(body)
    {
      fonts := fonts[styleName := Font(fontName, fontSize)];
    }

    /** `set_page_size`: the configured page, every margin and distance
        equal to `space` except the top margin, which is twice as large. */
    method SetPageSize()
      modifies this
      ensures section.pageHeight == height && section.pageWidth == width
      ensures section.leftMargin == space && section.rightMargin == space && section.bottomMargin == space
      ensures section.headerDistance == space && section.footerDistance == space
      ensures section.topMargin == 2.0 * space
      ensures fonts == old(fonts) && header == old(header) && body == old(body)
    {
      section := section.(pageHeight := height);
      section := section.(pageWidth := width);
      section := section.(leftMargin := space);
      section := section.(rightMargin := space);
      section := section.(topMargin := 2.0 * space);
      section := section.(bottomMargin := space);
      section := section.(headerDistance := space);
      section := section.(footerDistance := space);
    }

    /** `set_header`: the header paragraph is centred, styled `Normal`, and
        gains one bold run holding the title. */
    method SetHeader()
      modifies this
      ensures header.alignment == Center && header.style == Some(NormalStyle)
      ensures header.runs == old(header.runs) + [Run(title, true)]
      ensures fonts == old(fonts) && section == old(section) && body == old(body)
    {
      header := header.(alignment := Center);
      header := header.(style := Some(NormalStyle));
      header := header.(runs := header.runs + [Run(title, true)]);
    }

    /** `set_subtitle`: one more body paragraph, the plain label followed
        by the administrator in bold. */
    method SetSubtitle()
      modifies this
      ensures body == old(body) + [ParagraphBlock(SubtitleParagraph(administrator))]
      ensures fonts == old(fonts) && section == old(section) && header == old(header)
    {
      var subtitle := Paragraph([Run(SubtitleLabel, false)], None, Inherit);
      subtitle := subtitle.(style := Some(NormalStyle));
      subtitle := subtitle.(runs := subtitle.runs + [Run(RunText(administrator), true)]);
      assert subtitle == SubtitleParagraph(administrator);
      body := body + [ParagraphBlock(subtitle)];
    }

    /** `draw_table`: the table is centred and gains three columns of the
        configured widths, in order. */
    method DrawTable(t: Table)
      requires t.Valid()
      modifies t
      ensures t.Valid()
      ensures t.alignment == Center && t.style == old(t.style)
      ensures t.widths == old(t.widths) + [column0Width, column1Width, column2Width]
      ensures |t.rows| == |old(t.rows)|
      ensures forall k :: 0 <= k < |t.rows| ==> t.rows[k] == old(t.rows)[k] + EmptyRow(3)
    {
      t.alignment := Center;
      t.AddColumn(column0Width);
      t.AddColumn(column1Width);
      t.AddColumn(column2Width);
      forall k | 0 <= k < |t.rows|
        ensures t.rows[k] == old(t.rows)[k] + EmptyRow(3)
      {
        assert EmptyRow(3) == [EmptyCell, EmptyCell, EmptyCell];
      }
    }

    /** `populate_table`: one appended row per entry, in order; nothing
        else in the table changes. */
    static method PopulateTable(t: Table, data: seq<Entry>)
      requires t.Valid() && 3 <= |t.widths|
      modifies t
      ensures t.widths == old(t.widths) && t.alignment == old(t.alignment) && t.style == old(t.style)
      ensures t.Valid()
      ensures t.rows == old(t.rows) + DataRows(data, |t.widths|)
    {
      var i := 0;
      while i < |data|
        invariant 0 <= i <= |data|
        invariant t.Valid()
        invariant t.widths == old(t.widths) && t.alignment == old(t.alignment) && t.style == old(t.style)
        invariant t.rows == old(t.rows) + DataRows(data[..i], |t.widths|)
      {
        var e := data[i];
        var row := t.AddRow();
        t.SetCell(row, 0, WithText(t.rows[row][0], Label(e.index)));
        t.SetCell(row, 1, WithText(t.rows[row][1], e.key));
        t.SetCell(row, 2, WithText(t.rows[row][2], e.value));
        assert t.rows[row] == DataRow(e, |t.widths|);
        assert DataRows(data[..i + 1], |t.widths|) == DataRows(data[..i], |t.widths|) + [DataRow(e, |t.widths|)];
        i := i + 1;
      }
      assert data[..i] == data;
    }

    /** The inner loops of `style_table` for one row. */
    static method StyleRow(t: Table, r: nat, styleName: string)
      requires r < |t.rows|
      modifies t
      ensures t.rows == old(t.rows)[r := StyledRow(old(t.rows)[r], styleName)]
      ensures t.widths == old(t.widths) && t.alignment == old(t.alignment) && t.style == old(t.style)
    {
      var c := 0;
      while c < |t.rows[r]|
        invariant |t.rows| == |old(t.rows)|
        invariant 0 <= c <= |t.rows[r]| == |old(t.rows)[r]|
        invariant forall k :: 0 <= k < |t.rows| && k != r ==> t.rows[k] == old(t.rows)[k]
        invariant forall j :: 0 <= j < |t.rows[r]| ==>
                    t.rows[r][j] == if j < c then RestyledCell(old(t.rows)[r][j], styleName) else old(t.rows)[r][j]
        invariant t.widths == old(t.widths) && t.alignment == old(t.alignment) && t.style == old(t.style)
      {
        var d := RestyleCell(t.rows[r][c], styleName);
        t.SetCell(r, c, d);
        c := c + 1;
      }
      assert t.rows[r] == StyledRow(old(t.rows)[r], styleName);
    }

    /** `style_table`: the table takes the `Table Grid` style and every
        paragraph of every cell the given style. */
    method StyleTable(t: Table, styleName: string)
      modifies t
      ensures t.style == Some(TableGridStyle)
      ensures t.rows == StyledRows(old(t.rows), styleName)
      ensures t.widths == old(t.widths) && t.alignment == old(t.alignment)
    {
      t.style := Some(TableGridStyle);
      var r := 0;
      while r < |t.rows|
        invariant 0 <= r <= |t.rows| == |old(t.rows)|
        invariant forall k :: 0 <= k < |t.rows| ==>
                    t.rows[k] == if k < r then StyledRow(old(t.rows)[k], styleName) else old(t.rows)[k]
        invariant t.widths == old(t.widths) && t.alignment == old(t.alignment) && t.style == Some(TableGridStyle)
      {
        StyleRow(t, r, styleName);
        r := r + 1;
      }
    }

    /** `bold_table_heading`: every run of every cell of row 0 becomes
        bold. With no rows, `table.rows[0]` raises `IndexError`, reported
        as `ok == false`, and the table is left as it was. */
    static method BoldTableHeading(t: Table) returns (ok: bool)
      modifies t
      ensures ok <==> old(t.rows) != []
      ensures ok ==> t.rows == old(t.rows)[0 := EmboldenedRow(old(t.rows)[0])]
      ensures !ok ==> t.rows == old(t.rows)
      ensures t.widths == old(t.widths) && t.alignment == old(t.alignment) && t.style == old(t.style)
    {
      if |t.rows| == 0 {
        return false;
      }
      var c := 0;
      while c < |t.rows[0]|
        invariant |t.rows| == |old(t.rows)|
        invariant 0 <= c <= |t.rows[0]| == |old(t.rows)[0]|
        invariant forall k :: 0 < k < |t.rows| ==> t.rows[k] == old(t.rows)[k]
        invariant forall j :: 0 <= j < |t.rows[0]| ==>
                    t.rows[0][j] == if j < c then EmboldenedCell(old(t.rows)[0][j]) else old(t.rows)[0][j]
        invariant t.widths == old(t.widths) && t.alignment == old(t.alignment) && t.style == old(t.style)
      {
        var d := EmboldenCell(t.rows[0][c]);
        t.SetCell(0, c, d);
        c := c + 1;
      }
      assert t.rows[0] == EmboldenedRow(old(t.rows)[0]);
      ok := true;
    }

    /** `shade_cells(t.columns[column].cells, colour)`: one more fill on
        every cell of the column, in every row. */
    static method ShadeCells(t: Table, column: nat, colour: string)
      requires forall k :: 0 <= k < |t.rows| ==> column < |t.rows[k]|
      modifies t
      ensures t.rows == ShadedColumn(old(t.rows), column, colour)
      ensures t.widths == old(t.widths) && t.alignment == old(t.alignment) && t.style == old(t.style)
    {
      var r := 0;
      while r < |t.rows|
        invariant 0 <= r <= |t.rows| == |old(t.rows)|
        invariant forall k :: 0 <= k < |t.rows| ==>
                    t.rows[k] == if k < r then old(t.rows)[k][column := ShadedCell(old(t.rows)[k][column], colour)] else old(t.rows)[k]
        invariant t.widths == old(t.widths) && t.alignment == old(t.alignment) && t.style == old(t.style)
      {
        t.SetCell(r, column, ShadedCell(t.rows[r][column], colour));
        r := r + 1;
      }
    }

    /** `set_table`: a new table is appended to the body, drawn, populated
        with `table_0_data`, styled, its heading emboldened and columns 0
        and 1 shaded. With no data, emboldening fails (`ok == false`) and
        the table stays without rows and unshaded. */
    method SetTable() returns (t: Table, ok: bool)
      modifies this
      ensures fresh(t)
      ensures body == old(body) + [TableBlock(t)]
      ensures fonts == old(fonts) && section == old(section) && header == old(header)
      ensures t.alignment == Center && t.style == Some(TableGridStyle)
      ensures t.widths == [column0Width, column1Width, column2Width]
      ensures ok <==> tableData != []
      ensures ok ==> t.rows == RenderedRows(tableData)
      ensures !ok ==> t.rows == []
    {
      t := new Table();
      body := body + [TableBlock(t)];
      DrawTable(t);
      assert t.rows == [];
      PopulateTable(t, tableData);
      assert t.rows == DataRows(tableData, 3);
      StyleTable(t, NormalStyle);
      ghost var styled := StyledRows(DataRows(tableData, 3), NormalStyle);
      assert t.rows == styled && |styled| == |tableData|;
      ok := BoldTableHeading(t);
      if ok {
        assert forall k :: 0 <= k < |t.rows| ==> |t.rows[k]| == 3;
        ShadeCells(t, 0, LightGrey);
        ShadeCells(t, 1, LightGrey);
      }
    }

    /** `modify`: font, page, header, subtitle and table, in that order. */
    method Modify() returns (ok: bool)
      modifies this
      ensures fonts == old(fonts)[NormalStyle := Font(BodyFont, BodyFontSize)]
      ensures section == Section(height, width, space, space, 2.0 * space, space, space, space)
      ensures header == old(header).(alignment := Center, style := Some(NormalStyle), runs := old(header.runs) + [Run(title, true)])
      ensures |body| == |old(body)| + 2 && body[..|old(body)|] == old(body)
      ensures body[|old(body)|] == ParagraphBlock(SubtitleParagraph(administrator))
      ensures body[|old(body)| + 1].TableBlock? && fresh(body[|old(body)| + 1].table)
      ensures var t := body[|old(body)| + 1].table;
        && t.alignment == Center && t.style == Some(TableGridStyle)
        && t.widths == [column0Width, column1Width, column2Width]
        && (ok <==> tableData != [])
        && (ok ==> t.rows == RenderedRows(tableData))
        && (!ok ==> t.rows == [])
    {
      SetFont(NormalStyle, BodyFont, BodyFontSize);
      SetPageSize();
      SetHeader();
      SetSubtitle();
      var t;
      t, ok := SetTable();
    }
  }

  // ---------------------------------------------------------------------
  // One spreadsheet converted
  // ---------------------------------------------------------------------

  /** Why a conversion stops: a kept cell without text, or no table rows
      for `bold_table_heading`. */
  datatype ConvertError = ExtractFailed(cause: ExtractError) | NoEntries

  /** The body of the per-file loop (`main`, or `convert` with
      `create_doc`): extract the data, build a document with the fixed
      configuration and modify it. `f1`, `keyCells` and `valueCells` are
      the caller's lookups of cell F1 and of sheet rows 12 and 15
      (`key_row=12, value_row=15`). On success the document is ready for
      `save`, which writes it to its `path`. */
  method ConvertFile(wordFolder: string, filename: string, f1: CellValue,
                     keyCells: seq<CellValue>, valueCells: seq<CellValue>)
    returns (r: Result<NewRcpdDoc, ConvertError>)
    ensures ExtractData(filename, f1, keyCells, valueCells).Err? ==>
              r == Err(ExtractFailed(ExtractData(filename, f1, keyCells, valueCells).error))
    ensures ExtractData(filename, f1, keyCells, valueCells).Ok? ==>
              var x := ExtractData(filename, f1, keyCells, valueCells).value;
              && (r.Ok? <==> TableData(x.keys, x.values) != [])
              && (r.Err? ==> r.error == NoEntries)
              && (r.Ok? ==> var doc := r.value;
                    && fresh(doc)
                    && doc.path == OutputPath(wordFolder, BaseName(filename))
                    && doc.fonts == map[NormalStyle := Font(BodyFont, BodyFontSize)]
                    && doc.section == Section(PageHeight, PageWidth, Space, Space, 2.0 * Space, Space, Space, Space)
                    && doc.header == Paragraph([Run(Title, true)], Some(NormalStyle), Center)
                    && |doc.body| == 2
                    && doc.body[0] == ParagraphBlock(SubtitleParagraph(f1))
                    && doc.body[1].TableBlock?
                    && doc.body[1].table.alignment == Center
                    && doc.body[1].table.style == Some(TableGridStyle)
                    && doc.body[1].table.widths == [Column0Width, Column1Width, Column2Width]
                    && doc.body[1].table.rows == RenderedRows(TableData(x.keys, x.values)))
  {
    var extracted := ExtractData(filename, f1, keyCells, valueCells);
    if extracted.Err? {
      return Err(ExtractFailed(extracted.error));
    }
    var x := extracted.value;
    var doc := new NewRcpdDoc(wordFolder, x.rawFilename, x.administrator, x.keys, x.values,
                              PageHeight, PageWidth, Space, Column0Width, Column1Width, Column2Width);
    var ok := doc.Modify();
    if !ok {
      return Err(NoEntries);
    }
    r := Ok(doc);
  }
}
