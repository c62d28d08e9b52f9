/** The part of a python-docx document that the renderer touches, reduced
    to values: runs, paragraphs, table cells, the page section and style
    fonts, plus the one object the renderer changes in place through
    several calls, the table. Lengths stay in the units the caller chose
    (millimetres for the page, inches for the columns); the conversion to
    EMU is outside the model. */
module Docx {
  import opened Wrappers

  /** A run of text. `bold == false` stands for python-docx's unset value,
      which inherits from the style. */
  datatype Run = Run(text: string, bold: bool)

  datatype Alignment = Inherit | Center

  /** A paragraph: its runs, the style set on it (`None`: none set) and its
      alignment. */
  datatype Paragraph = Paragraph(runs: seq<Run>, style: Option<string>, alignment: Alignment)

  /** A table cell: its paragraphs, and the fill colour of every `w:shd`
      element appended to its cell properties, in order. */
  datatype TableCell = TableCell(paragraphs: seq<Paragraph>, fills: seq<string>)

  /** Page size, margins and header/footer distances of a document section. */
  datatype Section = Section(pageHeight: real, pageWidth: real,
                             leftMargin: real, rightMargin: real,
                             topMargin: real, bottomMargin: real,
                             headerDistance: real, footerDistance: real)

  /** The font of a named style; the size is in points. */
  datatype Font = Font(name: string, size: nat)

  /** A new cell holds one empty paragraph and no properties. */
  const EmptyCell: TableCell := TableCell([Paragraph([], None, Inherit)], [])

  function EmptyRow(n: nat): seq<TableCell> {
    seq(n, _ => EmptyCell)
  }

  /** `cell.text = text`: the content becomes a single paragraph with a
      single run; the cell properties, with their shading, stay. */
  function WithText(c: TableCell, text: string): TableCell {
    c.(paragraphs := [Paragraph([Run(text, false)], None, Inherit)])
  }

  /** `run.bold = True` for every run of a paragraph. */
  function EmboldenedParagraph(p: Paragraph): Paragraph {
    p.(runs := seq(|p.runs|, i requires 0 <= i < |p.runs| => p.runs[i].(bold := true)))
  }

  /** `run.bold = True` for every run of every paragraph of a cell. */
  function EmboldenedCell(c: TableCell): TableCell {
    c.(paragraphs := seq(|c.paragraphs|, i requires 0 <= i < |c.paragraphs| => EmboldenedParagraph(c.paragraphs[i])))
  }

  /** `paragraph.style = style` for every paragraph of a cell. */
  function RestyledCell(c: TableCell, style: string): TableCell {
    c.(paragraphs := seq(|c.paragraphs|, i requires 0 <= i < |c.paragraphs| => c.paragraphs[i].(style := Some(style))))
  }

  /** A `w:shd` element with the given fill appended to the cell properties. */
  function ShadedCell(c: TableCell, colour: string): TableCell {
    c.(fills := c.fills + [colour])
  }

  /** A python-docx table. Rows and columns are added in place and the
      renderer later changes the cells it reaches through `table.rows` and
      `table.columns`. */
  class Table {
    var alignment: Alignment
    var style: Option<string>
    /** One width per grid column, in inches. */
    var widths: seq<real>
    var rows: seq<seq<TableCell>>

    /** Every row has one cell per grid column. */
    ghost predicate Valid()
      reads this
    {
      forall r :: 0 <= r < |rows| ==> |rows[r]| == |widths|
    }

    /** `Document.add_table(0, 0)`: no rows, no columns, no style. */
    constructor ()
      ensures Valid()
      ensures alignment == Inherit && style == None && widths == [] && rows == []
    {
      alignment := Inherit;
      style := None;
      widths := [];
      rows := [];
    }

    /** `table.add_column(width)`: a grid column, and a new empty cell at the
        end of every row. */
    method AddColumn(width: real)
      requires Valid()
      modifies this
      ensures Valid()
      ensures widths == old(widths) + [width]
      ensures |rows| == |old(rows)|
      ensures forall r :: 0 <= r < |rows| ==> rows[r] == old(rows)[r] + [EmptyCell]
      ensures alignment == old(alignment) && style == old(style)
    {
      var old_rows := rows;
      widths := widths + [width];
      rows := seq(|old_rows|, r requires 0 <= r < |old_rows| => old_rows[r] + [EmptyCell]);
    }

    /** `table.add_row()`: a row of empty cells, one per grid column. */
    method AddRow() returns (index: nat)
      requires Valid()
      modifies this
      ensures Valid()
      ensures rows == old(rows) + [EmptyRow(|widths|)] && index == |old(rows)|
      ensures widths == old(widths) && alignment == old(alignment) && style == old(style)
    {
      index := |rows|;
      rows := rows + [EmptyRow(|widths|)];
    }

    /** Stores the new state of one cell. */
    method SetCell(r: nat, c: nat, cell: TableCell)
      requires r < |rows| && c < |rows[r]|
      modifies this
      ensures rows == old(rows)[r := old(rows)[r][c := cell]]
      ensures widths == old(widths) && alignment == old(alignment) && style == old(style)
      ensures old(Valid()) ==> Valid()
    {
      rows := rows[r := rows[r][c := cell]];
    }
  }
}
