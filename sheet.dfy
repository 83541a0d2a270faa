/** The colouring pass `_formatJobsRange` over one spreadsheet range: the
    colour grid it builds, and the write-back of fonts and backgrounds. */
module Sheet {
  import opened Jobs

  /** `g` has `rows` rows of exactly `cols` cells each. */
  ghost predicate Rectangular<T>(g: seq<seq<T>>, rows: nat, cols: nat)
  {
    |g| == rows && forall i :: 0 <= i < |g| ==> |g[i]| == cols
  }

  /** `a` and `b` have the same number of rows, and row `i` of one is as long
      as row `i` of the other. */
  ghost predicate SameShape<A, B>(a: seq<seq<A>>, b: seq<seq<B>>)
  {
    |a| == |b| && forall i :: 0 <= i < |a| ==> |a[i]| == |b[i]|
  }

  /** The colours of one row of cell values, cell by cell. */
  function ColorizeRow(row: seq<string>): seq<Background>
  {
    if row == [] then [] else [CellColor(row[0])] + ColorizeRow(row[1..])
  }

  /** The colour grid of a grid of cell values, row by row. */
  function ColorizeGrid(values: seq<seq<string>>): seq<seq<Background>>
  {
    if values == [] then [] else [ColorizeRow(values[0])] + ColorizeGrid(values[1..])
  }

  /** A colour row is as long as its row, and cell `j` is the colour of value `j`. */
  lemma {:induction false} ColorizeRowSpec(row: seq<string>)
    ensures |ColorizeRow(row)| == |row|
    ensures forall j :: 0 <= j < |row| ==> ColorizeRow(row)[j] == CellColor(row[j])
  {
    if row != [] {
      ColorizeRowSpec(row[1..]);
      assert forall j :: 0 < j < |row| ==> row[1..][j - 1] == row[j];
    }
  }

  /** A colour grid has one row per value row, and row `i` colours value row `i`. */
  lemma {:induction false} ColorizeGridRows(values: seq<seq<string>>)
    ensures |ColorizeGrid(values)| == |values|
    ensures forall i :: 0 <= i < |values| ==> ColorizeGrid(values)[i] == ColorizeRow(values[i])
  {
    if values != [] {
      ColorizeGridRows(values[1..]);
      assert forall i :: 0 < i < |values| ==> values[1..][i - 1] == values[i];
    }
  }

  /** Shape preservation: the colour grid has as many rows as the values, and
      each of its rows is as long as the matching row of values. */
  lemma ShapePreserved(values: seq<seq<string>>)
    ensures SameShape(values, ColorizeGrid(values))
  {
    ColorizeGridRows(values);
    forall i | 0 <= i < |values| ensures |ColorizeGrid(values)[i]| == |values[i]| {
      ColorizeRowSpec(values[i]);
    }
  }

  /** Cell `(i, j)` of the colour grid is the colour of value `(i, j)`. */
  lemma ColorizeGridAt(values: seq<seq<string>>, i: nat, j: nat)
    requires i < |values| && j < |values[i]|
    ensures i < |ColorizeGrid(values)| && j < |ColorizeGrid(values)[i]|
    ensures ColorizeGrid(values)[i][j] == CellColor(values[i][j])
  {
    ColorizeGridRows(values);
    ColorizeRowSpec(values[i]);
  }

  /** Per-cell independence: two grids that hold the same value at `(i, j)`
      get the same colour there, whatever else they hold. */
  lemma CellIndependence(v1: seq<seq<string>>, v2: seq<seq<string>>, i: nat, j: nat)
    requires i < |v1| && j < |v1[i]| && i < |v2| && j < |v2[i]|
    requires v1[i][j] == v2[i][j]
    ensures i < |ColorizeGrid(v1)| && j < |ColorizeGrid(v1)[i]|
    ensures i < |ColorizeGrid(v2)| && j < |ColorizeGrid(v2)[i]|
    ensures ColorizeGrid(v1)[i][j] == ColorizeGrid(v2)[i][j]
  {
    ColorizeGridAt(v1, i, j);
    ColorizeGridAt(v2, i, j);
  }

  /** A cell whose value is listed for role `r` gets the colour of `r`, and a
      cell whose value no table lists gets no colour. */
  lemma CellColorInGrid(values: seq<seq<string>>, i: nat, j: nat, r: Role)
    requires i < |values| && j < |values[i]|
    ensures i < |ColorizeGrid(values)| && j < |ColorizeGrid(values)[i]|
    ensures ColorizeGrid(values)[i][j] == Colored(ColorOf(r)) <==> values[i][j] in JobsOf(r)
    ensures ColorizeGrid(values)[i][j] == NoColor <==> (forall q: Role :: values[i][j] !in JobsOf(q))
  {
    ColorizeGridAt(values, i, j);
    CellColorCharacterised(values[i][j], r);
  }

  /** A one-row grid is coloured as its single row. */
  lemma ColorizeSingleRow(row: seq<string>, colors: seq<Background>)
    requires |colors| == |row|
    requires forall j :: 0 <= j < |row| ==> colors[j] == CellColor(row[j])
    ensures ColorizeGrid([row]) == [colors]
  {
    ColorizeRowSpec(row);
    assert ColorizeRow(row) == colors;
    assert [row][1..] == [];
  }

  /** Whole-grid examples. The first is the data row of the sheet layout
      the script describes; the last is an edit of a single label cell. */
  lemma ColorizeGridExamples()
    ensures ColorizeGrid([["Ninja", "Warrior", "Red Mage"]])
         == [[Colored(DPS_COLOR), Colored(TANK_COLOR), Colored(DPS_COLOR)]]
    ensures ColorizeGrid([["Astrologian", "", "Machinist"]])
         == [[Colored(HEALER_COLOR), NoColor, Colored(DPS_COLOR)]]
    ensures ColorizeGrid([["Unknown Job"]]) == [[NoColor]]
    ensures ColorizeGrid([["Job 1"]]) == [[NoColor]]
  {
    CellColorExamples();
    assert CellColor("Job 1") == NoColor;
    ColorizeSingleRow(["Ninja", "Warrior", "Red Mage"],
                      [Colored(DPS_COLOR), Colored(TANK_COLOR), Colored(DPS_COLOR)]);
    ColorizeSingleRow(["Astrologian", "", "Machinist"],
                      [Colored(HEALER_COLOR), NoColor, Colored(DPS_COLOR)]);
    ColorizeSingleRow(["Unknown Job"], [NoColor]);
    ColorizeSingleRow(["Job 1"], [NoColor]);
  }

  /** A rectangular block of cells of the sheet: its dimensions, the values
      it holds, and the background and font colour of each of its cells. */
  class Range {
    const numRows: nat
    const numColumns: nat
    var values: seq<seq<string>>
    var backgrounds: seq<seq<Background>>
    var fontColors: seq<seq<string>>

    ghost predicate Valid()
      reads this
    {
      && Rectangular(values, numRows, numColumns)
      && Rectangular(backgrounds, numRows, numColumns)
      && Rectangular(fontColors, numRows, numColumns)
    }

    constructor (numRows: nat, numColumns: nat,
                 values: seq<seq<string>>, backgrounds: seq<seq<Background>>,
                 fontColors: seq<seq<string>>)
      requires Rectangular(values, numRows, numColumns)
      requires Rectangular(backgrounds, numRows, numColumns)
      requires Rectangular(fontColors, numRows, numColumns)
      ensures Valid()
      ensures this.numRows == numRows && this.numColumns == numColumns
      ensures this.values == values && this.backgrounds == backgrounds
      ensures this.fontColors == fontColors
    {
      this.numRows, this.numColumns := numRows, numColumns;
      this.values, this.backgrounds, this.fontColors := values, backgrounds, fontColors;
    }

    /** `setFontColor`: one font colour for every cell of the range. */
    method SetFontColor(color: string)
      requires Valid()
      modifies this
      ensures Valid()
      ensures values == old(values) && backgrounds == old(backgrounds)
      ensures forall i, j :: 0 <= i < numRows && 0 <= j < numColumns ==> fontColors[i][j] == color
    {
      fontColors := seq(numRows, _ => seq(numColumns, _ => color));
    }

    /** `setBackgrounds`: one background per cell, from a grid of the range's
        own dimensions (the host refuses any other). */
    method SetBackgrounds(colors: array<array<Background>>)
      requires Valid()
      requires colors.Length == numRows
      requires forall i :: 0 <= i < colors.Length ==> colors[i].Length == numColumns
      modifies this
      ensures Valid()
      ensures values == old(values) && fontColors == old(fontColors)
      ensures forall i :: 0 <= i < numRows ==> backgrounds[i] == colors[i][..]
    {
      backgrounds := seq(colors.Length, i requires 0 <= i < colors.Length reads colors, set k | 0 <= k < colors.Length :: colors[k] =>
        colors[i][..]);
    }
  }

  /** `_formatJobsRange`: build a colour row for every row of values, filling
      each cell by the first table that lists its value, then paint every
      font white and write the colour grid back as the backgrounds. */
  method FormatJobsRange(range: Range)
    requires range.Valid()
    modifies range
    ensures range.Valid()
    ensures range.values == old(range.values)
    ensures range.backgrounds == ColorizeGrid(range.values)
    ensures forall i, j :: 0 <= i < range.numRows && 0 <= j < range.numColumns ==>
              range.fontColors[i][j] == FONT_COLOR
  {
    var values := range.values;
    var empty := new Background[0];
    var newColors := new array<Background>[|values|](_ => empty);
    for i := 0 to |values|
      invariant unchanged(range)
      invariant forall k :: 0 <= k < i ==> newColors[k][..] == ColorizeRow(values[k])
    {
      var row := values[i];
      newColors[i] := new Background[|row|](_ => NoColor);
      for j := 0 to |row|
        invariant unchanged(range)
        invariant forall k :: 0 <= k < i ==> newColors[k] != newColors[i]
        invariant forall k :: 0 <= k < i ==> newColors[k][..] == ColorizeRow(values[k])
        invariant fresh(newColors[i]) && newColors[i].Length == |row|
        invariant forall l :: 0 <= l < j ==> newColors[i][l] == CellColor(row[l])
        invariant forall l :: j <= l < |row| ==> newColors[i][l] == NoColor
      {
        var isDps := ArrayContains(DPS_JOBS, row[j]);
        if isDps {
          newColors[i][j] := Colored(DPS_COLOR);
          continue;
        }
        var isHealer := ArrayContains(HEALER_JOBS, row[j]);
        if isHealer {
          newColors[i][j] := Colored(HEALER_COLOR);
          continue;
        }
        var isTank := ArrayContains(TANK_JOBS, row[j]);
        if isTank {
          newColors[i][j] := Colored(TANK_COLOR);
          continue;
        }
      }
      ColorizeRowSpec(row);
    }
    ColorizeGridRows(values);
    forall k | 0 <= k < |values| ensures newColors[k].Length == range.numColumns {
      ColorizeRowSpec(values[k]);
    }
    range.SetFontColor(FONT_COLOR);
    range.SetBackgrounds(newColors);
  }

  /** Recomputing on an unchanged range gives the same colour grid: a second
      pass leaves the backgrounds the first pass wrote. */
  method FormatJobsRangeTwice(range: Range)
    requires range.Valid()
    modifies range
    ensures range.Valid()
    ensures range.values == old(range.values)
    ensures range.backgrounds == ColorizeGrid(old(range.values))
    ensures forall i, j :: 0 <= i < range.numRows && 0 <= j < range.numColumns ==>
              range.fontColors[i][j] == FONT_COLOR
  {
    FormatJobsRange(range);
    ghost var first := range.backgrounds;
    FormatJobsRange(range);
    assert range.backgrounds == first;
  }

  /** `onEdit`: the colouring pass over exactly the edited cells, wherever
      they are. An edited cell that names no job, such as a label or any cell
      outside the job columns, ends with no background; every edited cell,
      job or not, ends with a white font. */
  method OnEdit(range: Range)
    requires range.Valid()
    modifies range
    ensures range.Valid()
    ensures range.values == old(range.values)
    ensures forall i, j, r: Role :: 0 <= i < range.numRows && 0 <= j < range.numColumns ==>
              (range.backgrounds[i][j] == Colored(ColorOf(r)) <==> range.values[i][j] in JobsOf(r))
    ensures forall i, j :: 0 <= i < range.numRows && 0 <= j < range.numColumns ==>
              (range.backgrounds[i][j] == NoColor <==> forall q: Role :: range.values[i][j] !in JobsOf(q))
    ensures forall i, j :: 0 <= i < range.numRows && 0 <= j < range.numColumns ==>
              range.fontColors[i][j] == FONT_COLOR
  {
    FormatJobsRange(range);
    forall i, j | 0 <= i < range.numRows && 0 <= j < range.numColumns
      ensures forall r: Role :: range.backgrounds[i][j] == Colored(ColorOf(r)) <==> range.values[i][j] in JobsOf(r)
      ensures range.backgrounds[i][j] == NoColor <==> forall q: Role :: range.values[i][j] !in JobsOf(q)
    {
      forall r: Role
        ensures range.backgrounds[i][j] == Colored(ColorOf(r)) <==> range.values[i][j] in JobsOf(r)
      {
        CellColorInGrid(range.values, i, j, r);
      }
      CellColorInGrid(range.values, i, j, Dps);
    }
  }
}
