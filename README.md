# RCPD register converter: a verified model

The converter turns an Excel copy of an RCPD register (*rejestr czynności
przetwarzania danych*, the register of personal-data processing operations)
into a Word document. Two classes do the work, and they appear in both
`converter.py` and `main.py`:

* `RCPDXlsx` reads one spreadsheet. It reads the administrator from cell F1,
  the keys from row 12 and the values from row 15. It collapses the
  whitespace in every kept cell and derives a base filename.
* `NewRCPDDoc` builds the Word document. It sets the `Normal` font and the
  page geometry, writes a bold title into the header and adds a subtitle
  naming the administrator. It then adds a three-column table with one row
  per key/value pair, numbered `1.`, `2.`, and so on. The table is styled,
  its first row is bold, and its first two columns are shaded light grey.

The model has five modules:

* `Wrappers` holds `Option` and `Result`.
* `PyText` holds the Python string operations used:
  * `re.sub(r'\s+', ' ', s)`, which is `Collapse`;
  * `str.strip(chars)`, which is `Strip`;
  * `str(int)`, which is `NatToString`.
* `Extractor` models `RCPDXlsx`:
  * `ReadRowSkippingOdd`;
  * `BaseName`;
  * `ExtractData`.
* `Docx` holds the python-docx values the renderer touches:
  * runs, paragraphs, cells and the page section, as values;
  * the `Table` class, which is mutated in place.
* `Renderer` models `NewRCPDDoc`:
  * the `NewRcpdDoc` class: its fields, and the `modify` steps as methods
    that change the document's state;
  * `table_0_data`, as `TableData`;
  * the output path;
  * `ConvertFile`, the per-file loop body of `main` (and of
    `convert`/`create_doc`).

Each table-building loop is a `while` loop. `populate_table` runs over the
entries and appends one row for each; `style_table` and `shade_cells` run
over the table's rows; `bold_table_heading` runs over the cells of row 0.
Each loop's postcondition ties the new rows to a function of the old ones. The
composition of those functions is `RenderedRows`. `RenderedTableContents`
proves that this composition equals an independent, cell-by-cell description
(`RenderedCell`):

* row `i` holds `i + 1.`, the key and the value;
* every cell paragraph has the `Normal` style;
* runs are bold exactly in row 0;
* each cell of columns 0 and 1 has exactly one `f2f2f2` fill, and each cell of
  column 2 has none.

The model follows the code as written, including these behaviours a reader
might not expect:

* **Base name.** `filename.strip('xlsx').strip('.')` strips *characters*, not
  a suffix. So `"sales.xlsx"` gives `"ales"`, and `"xlsx.xlsx"` gives the
  empty base name. The empty name is not rejected.
* **Row lengths.** Keys and values are paired with `zip`, so rows of different
  lengths are truncated to the shorter one. No layout-mismatch error exists.
* **Errors.** The code has no dedicated error or check for a malformed
  spreadsheet or an unwritable output file. Whatever `openpyxl.load_workbook`
  or `doc.save` raises simply propagates, and those exceptions are outside
  the model. The only failures modelled are these two:
  * `re.sub` on an empty kept cell (`ExtractError`);
  * `table.rows[0]` on an empty table (`NoEntries`).
* **Subtitle label.** The label has two spaces before the dash:
  `'Administrator Danych Osobowych  - '`.

## Model

`main.py` and `converter.py` hold two copies of both classes, with these
differences:

* `RCPDXlsx.__init__` builds its path differently (converter.py:25,
  main.py:19). The model does not use that path, because the workbook is not
  loaded here.
* `main.py`'s `NewRCPDDoc.__init__` sets no `filename` or `path`
  (converter.py:54-55). Its `save` writes `raw_filename + '.docx'` inside the
  word folder under `Path.cwd()` (main.py:156-157).
* `converter.py` does not parse as written. The docstring at converter.py:22
  is indented by nine spaces and the statement after it by eight, which is an
  `IndentationError`; lines 174, 193 and 198 have the same fault. So only
  `main.py`'s copy can run, and `convert`/`create_doc` never execute.

The logic the model covers is the same in both copies. Each member below
cites one of them; where converter.py is cited, main.py has the same lines
(and converter.py's `path` is the one written to by `save` at
converter.py:168).

| member | source | states |
|---|---|---|
| PyText.Collapse | converter.py:31 | `re.sub(r'\s+', ' ', s)`: the result is empty exactly when the input is, is never longer, and begins with the input's first character, a whitespace one becoming a space |
| PyText.IsWs | converter.py:31 | the characters `\s` matches in a `str` pattern, those for which `str.isspace()` holds: the controls 0x09-0x0D and 0x1C-0x1F, the space, 0x85, 0xA0, 0x1680, 0x2000-0x200A, 0x2028, 0x2029, 0x202F, 0x205F and 0x3000 |
| PyText.CollapseLast | converter.py:31 | the last character of a collapsed string is the input's last one, with whitespace turned into a space: a trailing whitespace run becomes one space and is not removed |
| PyText.CollapseNormalized | converter.py:31 | a collapsed string has no whitespace other than `' '` and no two adjacent whitespace characters |
| PyText.CollapseKeepsNonWs | converter.py:31 | collapsing keeps every non-whitespace character, in order, and adds none |
| PyText.CollapseIdempotent | converter.py:31 | collapsing twice gives the same result as collapsing once |
| PyText.CollapseOfNormalized | converter.py:31 | collapsing leaves a string with no adjacent whitespace and no whitespace other than spaces unchanged |
| PyText.CollapseFixedPoint | converter.py:31 | a string is unchanged by collapsing if and only if it is normalised (both directions) |
| PyText.CollapseIsTranslateThenSqueeze | converter.py:31 | collapsing equals an independent two-pass description: map every whitespace character to a space, then squeeze runs of spaces |
| PyText.Translate | converter.py:31 | every character is mapped on its own: whitespace becomes a space, and the length is kept |
| PyText.SkipWs | converter.py:31 | the maximal leading whitespace run a single replacement consumes: a suffix of the input whose dropped prefix is all whitespace and which does not start with whitespace |
| PyText.NonWs | converter.py:31 | the non-whitespace characters of a string, none of them whitespace |
| PyText.StripLeft | converter.py:41 | `lstrip(chars)`: drops leading characters while they occur in `chars`, so the result is never longer than the input |
| PyText.StripRight | converter.py:41 | `rstrip(chars)`: drops trailing characters while they occur in `chars`, so the result is never longer than the input |
| PyText.Strip | converter.py:41 | `strip(chars)`: the left strip followed by the right strip, with `chars` read as a set of characters, not as a prefix or suffix |
| PyText.StripLeftFacts | converter.py:41 | `lstrip(chars)` removes a prefix made only of `chars` and stops at the first character not in `chars` |
| PyText.StripRightFacts | converter.py:41 | `rstrip(chars)` removes a suffix made only of `chars` and stops at the last character not in `chars` |
| PyText.StripSlice | converter.py:41 | `strip(chars)` keeps one contiguous slice `s[i..j]`: everything cut off on either side is in `chars`, and the slice, when non-empty, starts and ends with a character not in `chars` |
| PyText.StripSliceUnique | converter.py:41 | any slice with those properties is the one `strip` returns |
| PyText.StripUpToStop | converter.py:41 | when a character not in `chars` is followed only by characters in `chars`, `strip` keeps the left-stripped text before it plus that character |
| PyText.NatToString | converter.py:127 | `str(n)` is a non-empty string of decimal digits without a leading zero |
| PyText.NatToStringRoundTrip | converter.py:127 | the decimal numeral reads back as the number it was made from |
| PyText.NatToStringInjective | converter.py:127 | different numbers get different numerals |
| PyText.DigitChar | converter.py:127 | the digit character for a value below 10 has that value |
| Extractor.OddCells | converter.py:31 | keeping the cells at odd index: `len(row) // 2` cells, the k-th being `row[2k+1]`, in row order |
| Extractor.ReadRowSkippingOdd | converter.py:28-31 | the reduced row succeeds exactly when every odd-index cell holds text. It then has `len(row) // 2` values, the k-th being the collapsed text of cell `2k+1`. Otherwise it reports the first kept cell without text, and every earlier kept cell holds text |
| Extractor.CollapseCells | converter.py:31 | collapsing a list of cell values succeeds exactly when every value is text, element by element, and otherwise names the first empty one |
| Extractor.KeptCells | converter.py:31 | the kept cells all hold text exactly when every odd-index cell of the row does |
| Extractor.EvenCellsIgnored | converter.py:31 | two rows that agree on their odd-index cells read the same, whatever their even-index cells hold, empty or not |
| Extractor.ReadRowNormalized | converter.py:31 | every value read is whitespace-normalised and keeps the non-whitespace characters of its cell |
| Extractor.BaseName | main.py:35 | `filename.strip('xlsx').strip('.')`: two character-set strips, first of `x`, `l`, `s`, then of `.`, not the removal of a suffix |
| Extractor.BaseNameIsSlice | converter.py:41 | the base name is one contiguous slice of the filename |
| Extractor.BaseNameHasNoOuterDot | main.py:35 | the base name neither starts nor ends with `.` |
| Extractor.BaseNameOfReport | converter.py:41 | `"Report.xlsx"` gives `"Report"` |
| Extractor.BaseNameOfSales | converter.py:41 | `"sales.xlsx"` gives `"ales"`: a character-set strip, not a suffix strip |
| Extractor.BaseNameOfExtensionOnly | converter.py:41 | `"xlsx.xlsx"` gives the empty base name |
| Extractor.BaseNameBySlices | converter.py:41 | the base name can be read off from the two stripping slices |
| Extractor.StripExtensionOfXlsxName | converter.py:41 | stripping `xlsx` from `b + ".xlsx"` removes the extension letters and the leading `x`, `l`, `s` of `b`, and leaves the dot |
| Extractor.StripDotsOfDotted | converter.py:41 | one more trailing dot makes no difference to stripping dots |
| Extractor.BaseNameOfXlsxName | converter.py:41 | the base name of `b + ".xlsx"` is `b`, without its leading `x`, `l`, `s`, stripped of dots |
| Extractor.BaseNameRoundTrip | converter.py:41 | the base name of `b + ".xlsx"` is `b` if and only if `b` is empty, or starts with none of `x`, `l`, `s`, `.` and does not end with `.` (both directions) |
| Extractor.ExtractData | converter.py:33-42 | succeeds exactly when both rows have text in every odd-index cell. The key row is read first, and the error names the failing row. A success returns the base name, F1 unchanged, and both reduced rows, element by element, without comparing their lengths |
| Docx.WithText | converter.py:127-129 | `cell.text = text`: the cell's content becomes one unstyled paragraph with one run of the text, not bold; the cell's fills stay |
| Docx.Table.constructor | converter.py:106 | `add_table(0, 0)`: a table with no rows, no columns and no style |
| Docx.Table.AddColumn | converter.py:117-119 | `add_column(width)` appends the width and adds one empty cell to the end of every row |
| Docx.Table.AddRow | converter.py:125 | `add_row()` appends one row of empty cells, one per column, and returns its index |
| Docx.Table.SetCell | converter.py:127-129 | one cell gets its new state; every other cell and the table's properties stay |
| Renderer.Zip | converter.py:65 | `zip`: as many pairs as the shorter input has elements, pair `i` being `(xs[i], ys[i])` |
| Renderer.Enumerate | converter.py:65 | `enumerate`: the same number of entries, entry `i` carrying position `start + i` |
| Renderer.TableData | converter.py:65 | `table_0_data` has `min(len(keys), len(values))` entries, entry `i` being `(i, keys[i], values[i])`. A length mismatch is truncated, not rejected |
| Renderer.TableDataEmpty | converter.py:65 | the list is empty exactly when the key row or the value row is |
| Renderer.Label | converter.py:127 | `f'{item0 + 1}.'`: the decimal numeral of the 1-based position, followed by a dot |
| Renderer.DataRow | converter.py:125-129 | the row `populate_table` appends for one entry: cells 0, 1 and 2 hold the label, the key and the value, and any further cell stays empty |
| Renderer.RenderedRows | converter.py:108-112 | the rows `set_table` leaves for non-empty data: the populated rows, restyled `Normal`, row 0 emboldened, then columns 0 and 1 shaded `f2f2f2`, in that order |
| Renderer.RenderedCell | converter.py:103-153 | the cell-by-cell description of the finished table: one `Normal` paragraph with one run of the cell's text, bold when the cell is in row 0, and one `f2f2f2` fill in columns 0 and 1 only |
| Renderer.LabelFacts | converter.py:127 | the label `f'{i + 1}.'` is a decimal numeral without a leading zero that reads back as `i + 1`, followed by a dot |
| Renderer.LabelInjective | converter.py:127 | different entries get different labels |
| Renderer.RenderedTableContents | converter.py:103-153 | the finished table of non-empty data has one row of three cells per entry. Row `i` holds `i + 1.`, the key and the value, each as one `Normal` paragraph with one run, bold exactly when `i == 0`. Columns 0 and 1 carry exactly one `f2f2f2` fill, and column 2 none |
| Renderer.RenderedCellOfRow | converter.py:103-112 | one cell of the finished table, as described above |
| Renderer.RenderedRegister | converter.py:65 | for keys and values read from the sheet, row `i` of the table reads `i + 1.`, `keys[i]`, `values[i]`, for every position both rows have |
| Renderer.EmboldenParagraph | converter.py:144-145 | every run of the paragraph becomes bold, and nothing else changes |
| Renderer.EmboldenCell | converter.py:143-145 | every run of every paragraph of the cell becomes bold, and nothing else changes |
| Renderer.RestyleCell | converter.py:136-137 | every paragraph of the cell takes the style, and nothing else changes |
| Renderer.OutputPath | converter.py:54-55 | `f'{self.folder}/{self.filename}'` with `filename = raw_filename + '.docx'`: the folder, `/`, the base name and `.docx` |
| Renderer.RunText | main.py:92 | `add_run(None)` adds an empty run, so an empty F1 cell gives the empty string and a text cell its text |
| Renderer.SubtitleParagraph | main.py:89-92 | the paragraph `set_subtitle` appends: styled `Normal`, with the plain label `Administrator Danych Osobowych  - ` and then the administrator as a bold run |
| Renderer.DefaultSection | main.py:44 | the first section of the document `Document()` creates from python-docx's default template, before `set_page_size`: US Letter (279.4 by 215.9 mm), side margins of 31.75 mm, top and bottom margins of 25.4 mm, header and footer distances of 12.7 mm |
| Renderer.OutputPathParts | converter.py:54-55 | the output path is the folder, `/`, the base name and `.docx`, and each part can be read back |
| Renderer.OutputPathInjective | converter.py:54-55 | within one folder, different base names give different paths |
| Renderer.NewRcpdDoc.constructor | converter.py:48-66 | stores the arguments; `filename` is the base name plus `.docx`, `path` is `folder/filename`, `table_0_data` is built from the two columns, and the title is fixed. The document starts empty |
| Renderer.NewRcpdDoc.SetFont | converter.py:68-73 | the named style gets the font name and size, and every other style keeps its font |
| Renderer.NewRcpdDoc.SetPageSize | converter.py:75-85 | sets the configured page height and width. The left, right and bottom margins and the header and footer distances equal `space`, and the top margin is `2 * space` |
| Renderer.NewRcpdDoc.SetHeader | main.py:78-85 | the header paragraph is centred, styled `Normal`, and gains one bold run holding the title |
| Renderer.NewRcpdDoc.SetSubtitle | main.py:87-92 | appends one `Normal` paragraph with two runs: the plain label with two spaces before the dash, then the administrator in bold |
| Renderer.NewRcpdDoc.DrawTable | main.py:105-110 | the table is centred and gains exactly three columns, of the configured widths in order |
| Renderer.NewRcpdDoc.PopulateTable | converter.py:121-129 | appends exactly one row per entry, in order. Row `i` gets `"{index+1}."`, the key and the value; no other cell and no table property changes |
| Renderer.NewRcpdDoc.StyleRow | converter.py:135-137 | every paragraph of every cell of one row takes the style; the other rows stay |
| Renderer.NewRcpdDoc.StyleTable | converter.py:131-137 | the table style becomes `Table Grid`, and every paragraph of every cell takes the given style |
| Renderer.NewRcpdDoc.BoldTableHeading | main.py:130-136 | succeeds exactly when the table has a row. Every run of row 0 then becomes bold and the later rows are untouched. An empty table fails on `table.rows[0]` (`IndexError`) and stays unchanged |
| Renderer.NewRcpdDoc.ShadeCells | main.py:138-144 | every cell of the column, in every row, gets one more fill of the colour; nothing else changes |
| Renderer.NewRcpdDoc.SetTable | converter.py:103-112 | appends a new table to the body: centred, `Table Grid`, three columns of the configured widths. It succeeds exactly when `table_0_data` is non-empty, and then its rows are the finished rows. With no data it fails, and the table has no rows |
| Renderer.NewRcpdDoc.Modify | converter.py:155-161 | applies the font (`Times New Roman`, 12, on `Normal`), page, header, subtitle and table steps in this order, and states the whole final document, including a table without rows when there is no data |
| Renderer.ConvertFile | main.py:165-172 | one file of the loop, over the caller's lookups of F1 and of sheet rows 12 and 15, with the fixed configuration. An extraction error stops it. Otherwise it fails exactly when no entries exist; on success the document has the expected path, font and page. Its header is centred and `Normal` with the bold title. Its body is the subtitle, then a centred `Table Grid` table with widths 0.42, 2.10 and 4.68 and the finished rows |

## Left out

- The tkinter GUI (`Application`, `main()` in `converter.py`) is not modelled. It only handles widgets, labels, dialogs and the event loop.
- Directory handling is not modelled: `get_input_data`, `set_output_location`, `os.listdir`, `fnmatch` and `Path.cwd()`. The model covers only the body of the per-file loop (`ConvertFile`), not the loop over the file list.
- Opening the workbook with openpyxl and looking up cells are not modelled. The two physical rows and the value of F1 are the inputs.
- Saving the document (`doc.save`) is not modelled. Its target is `path`, and for `main.py` it is the same name under `Path.cwd()`, which is not modelled.
- Spreadsheet cells holding numbers, dates or formulas are not modelled. A cell is either empty (`None`) or text. Non-text values would make `re.sub` raise `TypeError` in the source.
- The model has no full regular-expression engine. `\s` is the set of characters for which Python's `str.isspace()` holds, and the substitution is written out as `Collapse`.
- python-docx internals are reduced to values:
  - The XML of `w:shd` is a fill string appended to a per-cell list.
  - A style is its name, and looking up a style (`doc.styles[...]`) is assumed to succeed.
  - `run.bold` is a boolean, with `false` standing for "not set".
  - A paragraph's style records the assignment `paragraph.style = ...`, not the stored XML. python-docx stores no `pStyle` for the default paragraph style, so in the saved file `Some("Normal")` and `None` both read back as `Normal`.
- Unit conversion is not modelled. `Mm`, `Inches` and `Pt` turn lengths into integer EMU; the model keeps them as `real` in the configured units and does not round.
- Renderer.NewRcpdDoc.ShadeCells: takes the table and a column index rather than the list `t.columns[i].cells`. This is because the cells themselves are values of the table's `rows` field here.
- Renderer.NewRcpdDoc.PopulateTable: requires at least three columns. The source would raise `IndexError` on a narrower table, but `set_table` never passes one.
- Docx.Table: cells are values held in the table rather than shared objects, so aliasing between `row.cells` and `column.cells` is not modelled.
- Exception propagation is modelled as a returned result (`ok`, `Result`). The partly built document left behind by an `IndexError` is stated, but the model has no exception semantics.
