/** `RCPDXlsx`: what the converter reads out of one register spreadsheet.
    Opening the workbook and looking cells up are outside the model; the
    inputs are the two physical rows (`worksheet[row]`) and the value of
    cell F1, exactly as openpyxl hands them over. */
module Extractor {
  import opened Wrappers
  import opened PyText

  /** One spreadsheet cell as openpyxl reports its value: `None` when the
      cell is empty, otherwise its text. */
  type CellValue = Option<string>

  /** The characters `str.strip` removes first, and then second, when the
      base filename is derived. */
  const ExtensionChars: string := "xlsx"
  const DotChars: string := "."

  // ---------------------------------------------------------------------
  // read_row_skipping_odd
  // ---------------------------------------------------------------------

  /** The cells at odd physical index (1, 3, 5, ...): each logical field is
      merged over two columns and the second of the pair holds the value. */
  function OddCells<T>(row: seq<T>): (r: seq<T>)
    ensures |r| == |row| / 2
    ensures forall k :: 0 <= k < |r| ==> r[k] == row[2 * k + 1]
  {
    if |row| < 2 then [] else [row[1]] + OddCells(row[2..])
  }

  /** `re.sub` raises a `TypeError` on a cell whose value is `None`; the
      error says which kept cell that was: the `field`-th one, at physical
      index `2 * field + 1`. */
  datatype RowError = NotText(field: nat)

  /** Every kept cell holds text. */
  ghost predicate OddCellsAreText(row: seq<CellValue>) {
    forall k :: 0 <= k < |row| / 2 ==> row[2 * k + 1].Some?
  }

  lemma KeptCells(row: seq<CellValue>)
    ensures forall k :: 0 <= k < |row| / 2 ==> 2 * k + 1 < |row| && OddCells(row)[k] == row[2 * k + 1]
    ensures OddCellsAreText(row) <==> forall k :: 0 <= k < |OddCells(row)| ==> OddCells(row)[k].Some?
  {
    var kept := OddCells(row);
    if OddCellsAreText(row) {
      forall k | 0 <= k < |kept| ensures kept[k].Some? {
        assert kept[k] == row[2 * k + 1];
      }
    }
  }

  /** Collapses the whitespace of each cell in turn; fails at the first
      empty cell, reporting its position in `cells`. */
  function CollapseCells(cells: seq<CellValue>): (r: Result<seq<string>, nat>)
    ensures r.Ok? <==> forall k :: 0 <= k < |cells| ==> cells[k].Some?
    ensures r.Ok? ==> |r.value| == |cells|
    ensures r.Ok? ==> forall k :: 0 <= k < |cells| ==> r.value[k] == Collapse(cells[k].value)
    ensures r.Err? ==> r.error < |cells| && cells[r.error].None?
    ensures r.Err? ==> forall k :: 0 <= k < r.error ==> cells[k].Some?
  {
    if cells == [] then Ok([])
    else match cells[0]
      case None => Err(0)
      case Some(v) =>
        match CollapseCells(cells[1..])
        case Ok(rest) => Ok([Collapse(v)] + rest)
        case Err(k) => Err(k + 1)
  }

  /** `read_row_skipping_odd`: the list comprehension keeps the cells whose
      index `i` has `i % 2` true and passes each kept value through
      `re.sub(r'\s+', ' ', value)`. */
  function ReadRowSkippingOdd(row: seq<CellValue>): (r: Result<seq<string>, RowError>)
    ensures r.Ok? <==> OddCellsAreText(row)
    ensures r.Ok? ==> |r.value| == |row| / 2
    ensures r.Ok? ==> forall k :: 0 <= k < |row| / 2 ==> r.value[k] == Collapse(row[2 * k + 1].value)
    ensures r.Err? ==> r.error.field < |row| / 2 && row[2 * r.error.field + 1].None?
    ensures r.Err? ==> forall k :: 0 <= k < r.error.field ==> row[2 * k + 1].Some?
  {
    var kept := OddCells(row);
    KeptCells(row);
    match CollapseCells(kept)
    case Ok(values) =>
      assert forall k :: 0 <= k < |row| / 2 ==> values[k] == Collapse(row[2 * k + 1].value);
      Ok(values)
    case Err(k) => Err(NotText(k))
  }

  /** The cells at even index are never read: two rows that agree at every
      odd index read the same. */
  lemma EvenCellsIgnored(row1: seq<CellValue>, row2: seq<CellValue>)
    requires |row1| / 2 == |row2| / 2
    requires forall k :: 0 <= k < |row1| / 2 ==> row1[2 * k + 1] == row2[2 * k + 1]
    ensures ReadRowSkippingOdd(row1) == ReadRowSkippingOdd(row2)
  {
    assert OddCells(row1) == OddCells(row2);
  }

  /** Every kept value is normalised: its only whitespace is single spaces. */
  lemma ReadRowNormalized(row: seq<CellValue>, k: nat)
    requires ReadRowSkippingOdd(row).Ok? && k < |ReadRowSkippingOdd(row).value|
    ensures Normalized(ReadRowSkippingOdd(row).value[k])
    ensures NonWs(ReadRowSkippingOdd(row).value[k]) == NonWs(row[2 * k + 1].value)
  {
    CollapseNormalized(row[2 * k + 1].value);
    CollapseKeepsNonWs(row[2 * k + 1].value);
  }

  // ---------------------------------------------------------------------
  // filename.strip('xlsx').strip('.')
  // ---------------------------------------------------------------------

  /** The base filename: `filename.strip('xlsx').strip('.')`, two
      character-set strips on both ends, not the removal of a suffix. */
  function BaseName(filename: string): string {
    Strip(Strip(filename, ExtensionChars), DotChars)
  }

  lemma SliceOfSlice<T>(s: seq<T>, a: nat, b: nat, c: nat, d: nat)
    requires a <= b <= |s| && c <= d <= b - a
    ensures s[a..b][c..d] == s[a + c..a + d]
  {
    forall k | 0 <= k < d - c ensures s[a..b][c..d][k] == s[a + c..a + d][k] {
      assert s[a..b][c..d][k] == s[a..b][c + k];
      assert s[a..b][c + k] == s[a + c + k];
    }
  }

  /** The base name is one contiguous slice of the filename. */
  lemma BaseNameIsSlice(filename: string) returns (i: nat, j: nat)
    ensures i <= j <= |filename| && BaseName(filename) == filename[i..j]
  {
    var i1, j1 := StripSlice(filename, ExtensionChars);
    var m := filename[i1..j1];
    var i2, j2 := StripSlice(m, DotChars);
    i, j := i1 + i2, i1 + j2;
    SliceOfSlice(filename, i1, j1, i2, j2);
  }

  /** The base name neither starts nor ends with a dot. */
  lemma BaseNameHasNoOuterDot(filename: string)
    ensures var b := BaseName(filename); b == [] || (b[0] != '.' && b[|b| - 1] != '.')
  {
    var m := Strip(filename, ExtensionChars);
    var i, j := StripSlice(m, DotChars);
  }

  /** Stripping `s` down to `s[i..j]` and then to `s[i..j][i'..j']`. */
  lemma BaseNameBySlices(s: string, i: nat, j: nat, i': nat, j': nat)
    requires IsStripSlice(s, ExtensionChars, i, j)
    requires IsStripSlice(s[i..j], DotChars, i', j')
    ensures BaseName(s) == s[i..j][i'..j']
  {
    StripSliceUnique(s, ExtensionChars, i, j);
    StripSliceUnique(s[i..j], DotChars, i', j');
  }

  lemma BaseNameOfReport()
    ensures BaseName("Report.xlsx") == "Report"
  {
    var f := "Report.xlsx";
    BaseNameBySlices(f, 0, 7, 0, 6);
    assert f[0..7][0..6] == "Report";
  }

  /** Not a suffix strip: the leading `s` goes too. */
  lemma BaseNameOfSales()
    ensures BaseName("sales.xlsx") == "ales"
  {
    var f := "sales.xlsx";
    BaseNameBySlices(f, 1, 6, 0, 4);
    assert f[1..6][0..4] == "ales";
  }

  /** The base name can be empty. */
  lemma BaseNameOfExtensionOnly()
    ensures BaseName("xlsx.xlsx") == ""
  {
    var f := "xlsx.xlsx";
    BaseNameBySlices(f, 4, 5, 0, 0);
  }

  /** The `'.'` in front of the extension stops the first strip on the
      right; on the left it removes what `x`, `l` and `s` begin the name. */
  lemma StripExtensionOfXlsxName(b: string)
    ensures Strip(b + ".xlsx", ExtensionChars) == StripLeft(b, ExtensionChars) + "."
  {
    assert b + ".xlsx" == b + ['.'] + ExtensionChars;
    StripUpToStop(b, '.', ExtensionChars, ExtensionChars);
  }

  /** One more trailing dot makes no difference to stripping dots. */
  lemma StripDotsOfDotted(l: string)
    ensures Strip(l + ".", DotChars) == Strip(l, DotChars)
  {
    var t := l + ".";
    var i', j' := StripSlice(l, DotChars);
    assert IsStripSlice(t, DotChars, i', j') by {
      forall k | j' <= k < |t| ensures t[k] in DotChars {
        if k < |l| {
          assert t[k] == l[k];
        }
      }
    }
    StripSliceUnique(t, DotChars, i', j');
    assert t[i'..j'] == l[i'..j'];
  }

  /** The base name of `b + ".xlsx"`, in closed form: the leading `x`, `l`,
      `s` of `b` are lost, and dots are stripped from what is left. */
  lemma BaseNameOfXlsxName(b: string)
    ensures BaseName(b + ".xlsx") == Strip(StripLeft(b, ExtensionChars), DotChars)
  {
    StripExtensionOfXlsxName(b);
    StripDotsOfDotted(StripLeft(b, ExtensionChars));
  }

  /** Appending ".xlsx" to a base name and deriving the base name again
      gives it back exactly when it is empty or starts with none of `x`,
      `l`, `s`, `.` and does not end with `.`. */
  lemma BaseNameRoundTrip(b: string)
    ensures BaseName(b + ".xlsx") == b <==> (b == [] || (b[0] !in "xls." && b[|b| - 1] != '.'))
  {
    BaseNameOfXlsxName(b);
    var l := StripLeft(b, ExtensionChars);
    StripLeftFacts(b, ExtensionChars);
    var i, j := StripSlice(l, DotChars);
    if b != [] && b[0] !in "xls." && b[|b| - 1] != '.' {
      assert l == b;
      StripSliceUnique(b, DotChars, 0, |b|);
      assert b[0..|b|] == b;
    }
    if BaseName(b + ".xlsx") == b && b != [] {
      assert |l[i..j]| == |b|;
      assert l == b && i == 0 && j == |b|;
    }
  }

  // ---------------------------------------------------------------------
  // extract_data
  // ---------------------------------------------------------------------

  /** What `extract_data` returns: `(raw_filename, administrator, keys,
      values)`. */
  datatype Extracted = Extracted(rawFilename: string, administrator: CellValue,
                                 keys: seq<string>, values: seq<string>)

  /** The row whose reading raised; the key row is read first. */
  datatype ExtractError = KeyRowError(keyError: RowError) | ValueRowError(valueError: RowError)

  /** `extract_data(key_row, value_row)` over the cell F1 and the two rows
      already looked up. Nothing checks that the rows reduce to the same
      number of fields. */
  function ExtractData(filename: string, f1: CellValue,
                       keyCells: seq<CellValue>, valueCells: seq<CellValue>): (r: Result<Extracted, ExtractError>)
    ensures r.Ok? <==> OddCellsAreText(keyCells) && OddCellsAreText(valueCells)
    ensures r.Ok? ==> r.value.rawFilename == BaseName(filename) && r.value.administrator == f1
    ensures r.Ok? ==> |r.value.keys| == |keyCells| / 2 && |r.value.values| == |valueCells| / 2
    ensures r.Ok? ==> forall k :: 0 <= k < |keyCells| / 2 ==> r.value.keys[k] == Collapse(keyCells[2 * k + 1].value)
    ensures r.Ok? ==> forall k :: 0 <= k < |valueCells| / 2 ==> r.value.values[k] == Collapse(valueCells[2 * k + 1].value)
    ensures r.Err? ==> (r.error.KeyRowError? <==> !OddCellsAreText(keyCells))
  {
    match ReadRowSkippingOdd(keyCells)
    case Err(e) => Err(KeyRowError(e))
    case Ok(keys) =>
      match ReadRowSkippingOdd(valueCells)
      case Err(e) => Err(ValueRowError(e))
      case Ok(values) => Ok(Extracted(BaseName(filename), f1, keys, values))
  }
}
