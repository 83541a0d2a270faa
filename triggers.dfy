/** The region `onOpen` hands to the colouring pass, from the configuration
    constants, the sheet's last row and the sheet's physical size. */
module Triggers {

  /** First column of the job columns (1-based). */
  const PRIMARY_JOB_RANGE_INDEX: nat := 3
  /** Number of consecutive job columns. */
  const NUM_JOB_COLUMNS: nat := 3
  /** Row 1 holds the column labels; data starts on row 2. */
  const FIRST_DATA_ROW: nat := 2

  /** A block of cells as the host addresses it: 1-based top-left corner and
      a number of rows and of columns. */
  datatype Region = Region(row: nat, column: nat, numRows: nat, numColumns: nat)
  {
    function LastRow(): int { row + numRows - 1 }
    function LastColumn(): int { column + numColumns - 1 }

    /** Cell `(r, c)` lies in the block. */
    predicate Contains(r: int, c: int)
    {
      row <= r < row + numRows && column <= c < column + numColumns
    }
  }

  /** Cell `(r, c)` exists on a sheet of `maxRows` rows and `maxColumns`
      columns. */
  predicate OnSheet(r: int, c: int, maxRows: nat, maxColumns: nat)
  {
    1 <= r <= maxRows && 1 <= c <= maxColumns
  }

  /** What asking the host for a range yields: the region, or the exception
      it raises instead. */
  datatype RangeResult = Ok(region: Region) | InvalidRange

  /** `sheet.getRange(row, column, numRows, numColumns)` on a sheet of
      `maxRows` by `maxColumns` cells: the host hands out only a non-empty
      block all of whose cells exist, and raises otherwise. */
  function GetRange(row: int, column: int, numRows: int, numColumns: int,
                    maxRows: nat, maxColumns: nat): (r: RangeResult)
    ensures r.Ok? ==> r.region.row == row && r.region.column == column
    ensures r.Ok? ==> r.region.numRows == numRows && r.region.numColumns == numColumns
    ensures r.Ok? ==> forall cr, cc :: r.region.Contains(cr, cc) ==> OnSheet(cr, cc, maxRows, maxColumns)
    ensures !r.Ok? ==> numRows < 1 || numColumns < 1
                       || !OnSheet(row, column, maxRows, maxColumns)
                       || !OnSheet(row + numRows - 1, column + numColumns - 1, maxRows, maxColumns)
  {
    if 1 <= row && 1 <= column && 1 <= numRows && 1 <= numColumns
       && row + numRows - 1 <= maxRows && column + numColumns - 1 <= maxColumns
    then Ok(Region(row, column, numRows, numColumns))
    else InvalidRange
  }

  /** The region `onOpen` colours, as written: `lastRow` rows starting at
      row 2, over the job columns. It passes the sheet's last row as a row
      COUNT, so the region reaches one row past the last row. The host
      therefore refuses it on an empty sheet and on a sheet whose data fills
      its last physical row. */
  function OnOpenRegion(lastRow: nat, maxRows: nat, maxColumns: nat): (r: RangeResult)
    requires lastRow <= maxRows
    ensures r.Ok? <==> 1 <= lastRow < maxRows && 5 <= maxColumns
    ensures r.Ok? ==> r.region.row == 2 && r.region.column == 3 && r.region.LastColumn() == 5
    ensures r.Ok? ==> r.region.numRows == lastRow && r.region.LastRow() == lastRow + 1
  {
    GetRange(FIRST_DATA_ROW, PRIMARY_JOB_RANGE_INDEX, lastRow, NUM_JOB_COLUMNS, maxRows, maxColumns)
  }

  /** The region the comment on `onOpen` promises: from `[2, 3]` to
      `[lastRow, 5]`, that is every data row and nothing below it. It exists
      whenever the sheet has a data row and the job columns. */
  function DocumentedRegion(lastRow: nat, maxRows: nat, maxColumns: nat): (r: RangeResult)
    requires lastRow <= maxRows
    ensures r.Ok? <==> 2 <= lastRow && 5 <= maxColumns
    ensures r.Ok? ==> r.region.row == 2 && r.region.column == 3
    ensures r.Ok? ==> r.region.LastRow() == lastRow && r.region.LastColumn() == 5
  {
    GetRange(FIRST_DATA_ROW, PRIMARY_JOB_RANGE_INDEX, lastRow - FIRST_DATA_ROW + 1, NUM_JOB_COLUMNS,
             maxRows, maxColumns)
  }

  /** On a sheet with data and a spare row below it, the region as written
      covers exactly one row more than the documented one: the documented
      rows, plus row `lastRow + 1`. */
  lemma OnOpenOverreachesByOneRow(lastRow: nat, maxRows: nat, maxColumns: nat)
    requires 2 <= lastRow < maxRows && 5 <= maxColumns
    ensures OnOpenRegion(lastRow, maxRows, maxColumns).Ok?
    ensures DocumentedRegion(lastRow, maxRows, maxColumns).Ok?
    ensures OnOpenRegion(lastRow, maxRows, maxColumns).region.LastRow()
         == DocumentedRegion(lastRow, maxRows, maxColumns).region.LastRow() + 1
    ensures OnOpenRegion(lastRow, maxRows, maxColumns).region.numRows
         == DocumentedRegion(lastRow, maxRows, maxColumns).region.numRows + 1
  {
  }

  /** On a sheet whose data fills its last physical row, the host refuses
      the region as written, so `onOpen` colours nothing, while it would
      accept the documented region. */
  lemma OnOpenRefusedOnFullSheet(lastRow: nat, maxColumns: nat)
    requires 2 <= lastRow && 5 <= maxColumns
    ensures OnOpenRegion(lastRow, lastRow, maxColumns) == InvalidRange
    ensures DocumentedRegion(lastRow, lastRow, maxColumns).Ok?
  {
  }

  /** A new sheet of 1000 rows and 26 columns whose header sits on row 1.
      With data on rows 2 to 10, `onOpen` asks for rows 2 to 11 where the
      comment promises 2 to 10; with data down to row 1000, the host refuses
      the request. */
  lemma OnOpenOverreachExample()
    ensures OnOpenRegion(10, 1000, 26) == Ok(Region(2, 3, 10, 3))
    ensures OnOpenRegion(10, 1000, 26).region.LastRow() == 11
    ensures DocumentedRegion(10, 1000, 26) == Ok(Region(2, 3, 9, 3))
    ensures OnOpenRegion(1000, 1000, 26) == InvalidRange
    ensures DocumentedRegion(1000, 1000, 26) == Ok(Region(2, 3, 999, 3))
  {
  }
}
