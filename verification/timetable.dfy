/**
 * `CSVProcessor.process_csv` on an already-parsed timetable: inside each
 * weekday block, period numbers written as digit strings become
 * `第N节` ("period N"). The grid is the data frame read with
 * `header=None`; column 0 holds the weekday or is empty on the rows that
 * continue the day above.
 */
module Timetable {
  import opened Wrappers
  import Decimal

  /** One data-frame cell: NaN, a number, or a string. */
  datatype Cell = Missing | Number(value: real) | Text(text: string)

  type Row = seq<Cell>

  type Grid = seq<Row>

  const WEEKDAYS: seq<string> := ["星期一", "星期二", "星期三", "星期四", "星期五"]

  /** A frame read from a CSV file has at least one column, so every row has a column 0. */
  predicate IsFrame(grid: Grid) {
    forall i :: 0 <= i < |grid| ==> |grid[i]| >= 1
  }

  /** `CSVProcessor(input_dir, columns_to_process)`: `None` and `[]` both mean "no filter". */
  function ColumnFilter(columnsToProcess: Option<seq<int>>): seq<int> {
    match columnsToProcess
    case Some(cs) => cs
    case None => []
  }

  /** Column `col` is visited by `_process_row` and passes the filter. */
  predicate Eligible(filter: seq<int>, col: int) {
    col >= 1 && (filter == [] || col in filter)
  }

  /** `pd.notna(c) and isinstance(c, str) and c.isdigit()`, for ASCII digits. */
  predicate IsDigitText(c: Cell) {
    c.Text? && c.text != "" && Decimal.AllDigits(c.text)
  }

  /** The period label written for a digit string. */
  function Label(s: string): string {
    "第" + s + "节"
  }

  /** What `_process_row` does to one eligible cell. */
  function Rewrite(c: Cell): Cell {
    if IsDigitText(c) then Text(Label(c.text)) else c
  }

  /** `_process_row`: every eligible column of the row rewritten. */
  function ProcessRow(row: Row, filter: seq<int>): Row {
    seq(|row|, j requires 0 <= j < |row| => if Eligible(filter, j) then Rewrite(row[j]) else row[j])
  }

  predicate IsWeekday(c: Cell) {
    c.Text? && c.text in WEEKDAYS
  }

  /** Row `i` belongs to a weekday block: it is a weekday row or continues the block above with an empty column 0. */
  predicate InBlock(grid: Grid, i: nat)
    requires IsFrame(grid) && i < |grid|
  {
    IsWeekday(grid[i][0]) || (i > 0 && grid[i][0].Missing? && InBlock(grid, i - 1))
  }

  /** The reference result: every block row processed, every other row as it was. */
  function Processed(grid: Grid, filter: seq<int>): (r: Grid)
    requires IsFrame(grid)
  {
    seq(|grid|, i requires 0 <= i < |grid| =>
      if InBlock(grid, i) then ProcessRow(grid[i], filter) else grid[i])
  }

  /** `_process_row` as the source runs it: `for col in range(1, len(row))`. */
  method ProcessRowLoop(row: Row, filter: seq<int>) returns (out: Row)
    ensures out == ProcessRow(row, filter)
  {
    out := row;
    var col := 1;
    while col < |row|
      invariant |out| == |row|
      invariant forall j :: 0 <= j < |row| ==>
        out[j] == (if j < col && Eligible(filter, j) then Rewrite(row[j]) else row[j])
    {
      if filter != [] && col !in filter {
        col := col + 1;
        continue;
      }
      if IsDigitText(row[col]) {
        out := out[col := Text(Label(row[col].text))];
      }
      col := col + 1;
    }
  }

  /** Rows `0..upto` hold the result for the block rows among them; the others are untouched. */
  predicate DoneUpTo(grid: Grid, filter: seq<int>, out: Grid, upto: int)
    requires IsFrame(grid)
  {
    |out| == |grid|
    && forall i :: 0 <= i < |grid| ==>
         out[i] == (if i < upto && InBlock(grid, i) then ProcessRow(grid[i], filter) else grid[i])
  }

  /** Lines 41-46: the weekday row at `index`, then the run of rows below it with an empty column 0. */
  method ProcessBlock(grid: Grid, filter: seq<int>, out: Grid, index: nat) returns (out': Grid, next: nat)
    requires IsFrame(grid) && index < |grid| && IsWeekday(grid[index][0])
    requires DoneUpTo(grid, filter, out, index)
    ensures index < next <= |grid|
    ensures forall i :: index < i < next ==> grid[i][0].Missing?
    ensures next < |grid| ==> !grid[next][0].Missing?
    ensures DoneUpTo(grid, filter, out', next)
  {
    var processed := ProcessRowLoop(grid[index], filter);
    DoneStep(grid, filter, out, index);
    out' := out[index := processed];
    next := index + 1;
    while next < |out'| && out'[next][0].Missing?
      invariant index < next <= |grid|
      invariant forall i :: index < i < next ==> grid[i][0].Missing?
      invariant InBlock(grid, next - 1)
      invariant DoneUpTo(grid, filter, out', next)
    {
      BlockStep(grid, filter, out', next);
      processed := ProcessRowLoop(out'[next], filter);
      out' := out'[next := processed];
      next := next + 1;
    }
    BlockEnd(grid, filter, out', next);
  }

  /** A row with an empty column 0 under a block row continues the block, is still untouched, and is then done. */
  lemma BlockStep(grid: Grid, filter: seq<int>, out: Grid, k: nat)
    requires IsFrame(grid) && 0 < k < |grid| && InBlock(grid, k - 1)
    requires DoneUpTo(grid, filter, out, k) && out[k][0].Missing?
    ensures out[k] == grid[k] && InBlock(grid, k)
    ensures DoneUpTo(grid, filter, out[k := ProcessRow(out[k], filter)], k + 1)
  {
    DoneStep(grid, filter, out, k);
  }

  /** Where the block loop stops, the untouched row below does not continue the block. */
  lemma BlockEnd(grid: Grid, filter: seq<int>, out: Grid, k: nat)
    requires IsFrame(grid) && k <= |grid| && DoneUpTo(grid, filter, out, k)
    requires k < |out| ==> !out[k][0].Missing?
    ensures k < |grid| ==> !grid[k][0].Missing?
  {
    if k < |grid| {
      assert out[k] == grid[k];
    }
  }

  /** Processing the next row of a block extends the done prefix by one row. */
  lemma DoneStep(grid: Grid, filter: seq<int>, out: Grid, k: nat)
    requires IsFrame(grid) && k < |grid| && InBlock(grid, k)
    requires DoneUpTo(grid, filter, out, k)
    ensures DoneUpTo(grid, filter, out[k := ProcessRow(grid[k], filter)], k + 1)
  {
  }

  /**
   * `process_csv` as the source runs it: walk the rows; at a weekday row
   * process its block. `reach` is the first row the last block did not
   * cover; rows before it that are not weekday rows are skipped.
   */
  method ProcessCsv(grid: Grid, filter: seq<int>) returns (out: Grid)
    requires IsFrame(grid)
    ensures out == Processed(grid, filter)
  {
    out := grid;
    ghost var reach := 0;
    var index := 0;
    while index < |grid|
      invariant index <= reach <= |grid|
      invariant forall i :: index <= i < reach ==> grid[i][0].Missing?
      invariant reach < |grid| && reach > 0 && grid[reach][0].Missing? ==> !InBlock(grid, reach - 1)
      invariant DoneUpTo(grid, filter, out, reach)
    {
      var row := grid[index];
      if row[0].Text? && row[0].text in WEEKDAYS {
        out, reach := ProcessBlock(grid, filter, out, index);
      } else if index == reach {
        SkipRow(grid, filter, out, index);
        reach := index + 1;
      }
      index := index + 1;
    }
    DoneUpToAll(grid, filter, out);
  }

  /** A row that is not a weekday row and does not continue a block is left as it is. */
  lemma SkipRow(grid: Grid, filter: seq<int>, out: Grid, index: nat)
    requires IsFrame(grid) && index < |grid| && !IsWeekday(grid[index][0])
    requires index > 0 && grid[index][0].Missing? ==> !InBlock(grid, index - 1)
    requires DoneUpTo(grid, filter, out, index)
    ensures !InBlock(grid, index)
    ensures DoneUpTo(grid, filter, out, index + 1)
  {
  }

  /** Once every row is done, the result is the reference. */
  lemma DoneUpToAll(grid: Grid, filter: seq<int>, out: Grid)
    requires IsFrame(grid) && DoneUpTo(grid, filter, out, |grid|)
    ensures out == Processed(grid, filter)
  {
  }

  // ------------------------------------------------------------------ lemmas

  /** The first column of each row of `g` and `h`. */
  predicate SameColumnZero(g: Grid, h: Grid)
    requires IsFrame(g) && IsFrame(h)
  {
    |g| == |h| && forall i :: 0 <= i < |g| ==> g[i][0] == h[i][0]
  }

  /** With no filter (`None` or `[]`) every column from 1 on is eligible; otherwise exactly the listed ones from 1 on. */
  lemma ColumnFilterEligible(columnsToProcess: Option<seq<int>>, col: int)
    ensures Eligible(ColumnFilter(columnsToProcess), col)
            <==> col >= 1 && (columnsToProcess.None? || columnsToProcess.value == []
                              || col in columnsToProcess.value)
  {
  }

  /** Block membership reads nothing but column 0. */
  lemma {:induction false} InBlockColumnZero(g: Grid, h: Grid, i: nat)
    requires IsFrame(g) && IsFrame(h) && SameColumnZero(g, h) && i < |g|
    ensures InBlock(g, i) == InBlock(h, i)
  {
    if i > 0 {
      InBlockColumnZero(g, h, i - 1);
    }
  }

  /** Row `i` lies below weekday row `w` with only empty column-0 cells between. */
  predicate BelowWeekday(grid: Grid, w: nat, i: nat)
    requires IsFrame(grid) && w <= i < |grid|
  {
    IsWeekday(grid[w][0]) && forall k :: w < k <= i ==> grid[k][0].Missing?
  }

  /** A block is a weekday row plus the maximal run of rows below it with an empty column 0. */
  lemma {:induction false} InBlockIff(grid: Grid, i: nat)
    requires IsFrame(grid) && i < |grid|
    ensures InBlock(grid, i) <==> exists w: nat :: w <= i && BelowWeekday(grid, w, i)
  {
    if IsWeekday(grid[i][0]) {
      assert BelowWeekday(grid, i, i);
    } else if i > 0 && grid[i][0].Missing? {
      InBlockIff(grid, i - 1);
      if InBlock(grid, i - 1) {
        var w: nat :| w <= i - 1 && BelowWeekday(grid, w, i - 1);
        assert BelowWeekday(grid, w, i);
      } else {
        assert forall w: nat :: w < i && BelowWeekday(grid, w, i) ==> BelowWeekday(grid, w, i - 1);
      }
    } else {
      assert forall w: nat :: w < i && BelowWeekday(grid, w, i) ==> grid[i][0].Missing?;
    }
  }

  /** Processing keeps the number of rows, each row's length and column 0. */
  lemma ProcessedShape(grid: Grid, filter: seq<int>, i: nat)
    requires IsFrame(grid) && i < |grid|
    ensures |Processed(grid, filter)| == |grid|
    ensures |Processed(grid, filter)[i]| == |grid[i]|
    ensures Processed(grid, filter)[i][0] == grid[i][0]
  {
  }

  /**
   * A cell changes exactly when its row is in a block, its column is
   * eligible and it holds a digit string; it then holds that string's
   * period label. Numbers, NaN and other strings never change.
   */
  lemma ProcessedCell(grid: Grid, filter: seq<int>, i: nat, j: nat)
    requires IsFrame(grid) && i < |grid| && j < |grid[i]|
    ensures Processed(grid, filter)[i][j] != grid[i][j]
            <==> InBlock(grid, i) && Eligible(filter, j) && IsDigitText(grid[i][j])
    ensures Processed(grid, filter)[i][j] != grid[i][j]
            ==> Processed(grid, filter)[i][j] == Text(Label(grid[i][j].text))
  {
    if IsDigitText(grid[i][j]) {
      assert |Label(grid[i][j].text)| == |grid[i][j].text| + 2;
    }
  }

  /** A period label is not a digit string, so it is never rewritten again. */
  lemma LabelNotDigits(s: string)
    ensures !IsDigitText(Text(Label(s)))
  {
    assert Label(s)[0] == '第';
  }

  /** A second pass over the processed grid changes nothing. */
  lemma ProcessedIdempotent(grid: Grid, filter: seq<int>)
    requires IsFrame(grid)
    ensures IsFrame(Processed(grid, filter))
    ensures Processed(Processed(grid, filter), filter) == Processed(grid, filter)
  {
    var r := Processed(grid, filter);
    forall i | 0 <= i < |r|
      ensures |r[i]| >= 1 && r[i][0] == grid[i][0]
    {
      ProcessedShape(grid, filter, i);
    }
    forall i | 0 <= i < |r|
      ensures Processed(r, filter)[i] == r[i]
    {
      InBlockColumnZero(grid, r, i);
      if InBlock(grid, i) {
        forall j | 0 <= j < |r[i]|
          ensures ProcessRow(r[i], filter)[j] == r[i][j]
        {
          if Eligible(filter, j) && IsDigitText(grid[i][j]) {
            LabelNotDigits(grid[i][j].text);
          }
        }
      }
    }
  }
}
