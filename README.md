# FFXIV job colouring script, modelled in Dafny

The script colours a spreadsheet of Final Fantasy XIV jobs. Row 1 holds the
column labels. Columns 3 to 5 of every later row name jobs. Each cell naming a
DPS job gets a red background, each healer job a green one, each tank job a
blue one, and any other cell no background. Every font in the processed range
is set to white. The colouring pass (`_formatJobsRange`) runs over the data
region when the sheet is opened and over the edited cells after every edit.

The model has three modules:

- `Jobs` (`jobs.dfy`): the three job tables and their colours. It holds the
  linear membership test `_arrayContains` as a loop (`ArrayContains`) and the
  first-match rule for one cell as a function (`CellColor`). `FirstMatch`
  generalises that rule to any order of the tables. The lemmas show that the
  tables are disjoint, that a cell gets a role's colour exactly when that
  role's table lists its value, and that the order of the checks never
  matters.
- `Sheet` (`sheet.dfy`): a `Range` class holding the values, backgrounds and
  font colours of a block of cells. `FormatJobsRange` is the source's nested
  loop: it allocates a colour row per value row, fills it with `continue` on
  the first match, then writes the fonts and backgrounds back. It is proved
  against the function `ColorizeGrid`. Lemmas about that function give shape
  preservation, the colour of each cell, per-cell independence and a few
  worked examples, the first of them the data row of the sheet layout the
  script describes. `OnEdit` is the same pass over the edited cells.
- `Triggers` (`triggers.dfy`): the region arithmetic of `onOpen` and the
  host's `getRange`. The host refuses a block with no rows or columns, and a
  block that runs past the sheet's physical size. The module also holds the
  mismatch between the comment on `onOpen` and its code (see Findings).

A cell no branch assigns keeps the slot of a fresh JavaScript array empty,
which the host reads as "clear the background". The model writes `NoColor`
for it. So an unmatched cell always ends with no background, whatever it had
before: the write-back overwrites and does not merge.

`onEdit` does not check that the edited cells lie in the job columns; the
script's own comment calls that check an optimisation. So editing a label, an
"X" or any other cell that names no job leaves it with white text and no
background. `Sheet.OnEdit` states this.

## Model

| member | source | states |
|---|---|---|
| `Jobs.ArrayContains` | team_avatar_jobs_form.js:113-122 | returns true exactly when some index holds an element strictly equal to the one sought; false on an empty list |
| `Jobs.TablesDisjoint` | team_avatar_jobs_form.js:21-51 | no job appears in two of the DPS, healer and tank tables |
| `Jobs.ColorsDistinct` | team_avatar_jobs_form.js:33-54 | the three role colours differ from one another |
| `Jobs.CellColorCharacterised` | team_avatar_jobs_form.js:94-105 | a cell gets role r's colour if and only if r's table lists its value; it gets no colour if and only if no table lists it |
| `Jobs.CellColorIsFirstMatch` | team_avatar_jobs_form.js:94-105 | the per-cell colour is the first match over the order DPS, healer, tank |
| `Jobs.FirstMatchFindsOwnRole` | team_avatar_jobs_form.js:94-105 | a listed job is matched at its own role by any check order that tests that role |
| `Jobs.FirstMatchUnlisted` | team_avatar_jobs_form.js:92-106 | a value no table lists is matched under no check order |
| `Jobs.OrderIrrelevant` | team_avatar_jobs_form.js:94-105 | any check order that tests all three tables gives every value the same colour as the script's order |
| `Jobs.CellColorExamples` | team_avatar_jobs_form.js:21-51 | Ninja, Red Mage and Machinist are DPS, Warrior is a tank, Astrologian is a healer; the empty string, "Unknown Job", "ninja" and "Ninja " get no colour (matching is exact and case-sensitive) |
| `Sheet.ColorizeRowSpec` | team_avatar_jobs_form.js:92-106 | a colour row is as long as its value row, and cell j is the colour of value j |
| `Sheet.ColorizeGridRows` | team_avatar_jobs_form.js:89-92 | the colour grid has one row per value row, and row i is the colour row of value row i |
| `Sheet.ShapePreserved` | team_avatar_jobs_form.js:89-93 | the colour grid has as many rows as the values, and row i is as long as value row i |
| `Sheet.ColorizeGridAt` | team_avatar_jobs_form.js:90-106 | colour cell (i, j) exists and is the colour of value (i, j) |
| `Sheet.CellIndependence` | team_avatar_jobs_form.js:88-106 | two grids holding the same value at (i, j) get the same colour there, whatever else they hold |
| `Sheet.CellColorInGrid` | team_avatar_jobs_form.js:92-106 | colour cell (i, j) is role r's colour if and only if r's table lists value (i, j), and is unset if and only if no table lists it |
| `Sheet.ColorizeGridExamples` | team_avatar_jobs_form.js:3-4 | the example data row [Ninja, Warrior, Red Mage] gives DPS, tank, DPS; the further examples [Astrologian, "", Machinist] give healer, unset, DPS, and [Unknown Job] and the label cell [Job 1] give unset |
| `Sheet.Range.SetFontColor` | team_avatar_jobs_form.js:108 | every cell of the range gets the given font colour; values and backgrounds are unchanged |
| `Sheet.Range.SetBackgrounds` | team_avatar_jobs_form.js:109 | each row of backgrounds becomes the matching row of the colour grid; values and fonts are unchanged |
| `Sheet.FormatJobsRange` | team_avatar_jobs_form.js:86-110 | values are unchanged, every background equals the computed colour of its value, every font is white, and the range keeps its shape |
| `Sheet.FormatJobsRangeTwice` | team_avatar_jobs_form.js:88-109 | a second pass over an unchanged range leaves the same backgrounds as the first, keeps the range's shape and leaves every font white |
| `Sheet.OnEdit` | team_avatar_jobs_form.js:74-84 | every edited cell, wherever it is, ends with a white font; its background is role r's colour if and only if r's table lists its value, and none if and only if no table lists it |
| `Triggers.GetRange` | team_avatar_jobs_form.js:69-70 | the host hands out a block with the requested corner and dimensions only when every one of its cells exists on the sheet; a refusal means that the block is empty or that one of its corners lies off the sheet |
| `Triggers.OnOpenRegion` | team_avatar_jobs_form.js:57-70 | as written: the region starts at row 2 and covers columns 3 to 5 with lastRow rows, so it ends at row lastRow + 1; it exists exactly when the sheet has a row below its last row and at least 5 columns, so an empty sheet and a sheet filled to its last physical row get no range |
| `Triggers.DocumentedRegion` | team_avatar_jobs_form.js:60-65 | as documented: the region runs from [2, 3] to [lastRow, 5], and exists exactly when the sheet has a data row and at least 5 columns |
| `Triggers.OnOpenOverreachesByOneRow` | team_avatar_jobs_form.js:63-70 | on a sheet with data and a spare row, the region as written has one row more than the documented one and ends one row lower |
| `Triggers.OnOpenRefusedOnFullSheet` | team_avatar_jobs_form.js:63-70 | on a sheet whose data fills its last physical row, the host refuses the region as written and accepts the documented one |
| `Triggers.OnOpenOverreachExample` | team_avatar_jobs_form.js:63-70 | on a 1000 by 26 sheet, lastRow 10 gives rows 2 to 11 as written and 2 to 10 as documented; lastRow 1000 is refused as written and accepted as documented |

## Left out

- `SpreadsheetApp.getActiveSheet`, `sheet.getLastRow`, `sheet.getMaxRows` and `sheet.getMaxColumns` are host calls. The last row and the sheet's physical size are parameters of `Triggers.OnOpenRegion`. The host keeps the last row within the physical size, which is the requires of `Triggers.OnOpenRegion` and `Triggers.DocumentedRegion`.
- `Triggers.GetRange` models only the host's refusal of an empty block and of a block that runs off the sheet. The host's own argument checks and messages are not modelled.
- `Range.getValues` is a host call. `Sheet.FormatJobsRange` reads the range's `values` field directly.
- `Sheet.Range.SetBackgrounds` requires a grid of the range's own dimensions, because the host raises an error for any other. No error path is modelled, since the script only ever passes a grid built from the range's own values.
- The `Logger.log` calls are diagnostics with no effect on the sheet.
- How the host dispatches the `onOpen` and `onEdit` triggers is host event plumbing. `Sheet.OnEdit` takes the edited range as a parameter. The model does not connect `Triggers.OnOpenRegion` to a `Sheet.Range`, because that needs a model of the sheet that owns the ranges.
- Cell values other than text (numbers, dates, booleans) are not modelled. Cells hold strings only. Under strict equality a non-text value never equals a table entry; such a cell would get no colour.
- Overlapping edits and any concurrency belong to the host.
- The hex colour strings are opaque constants. Their rendering and validity are not modelled.

## Findings

| source | as written | input that shows it | evidently intended | confidence | as-written member | corrected member |
|---|---|---|---|---|---|---|
| team_avatar_jobs_form.js:63-70 | `onOpen` passes `sheet.getLastRow()` to `getRange` as the row COUNT of a region starting at row 2 | lastRow = 10: the region covers rows 2 to 11, while the comment promises rows 2 to 10; lastRow = maxRows = 1000: the host refuses the region | a count of `lastRow - 1`, so the region ends at `[lastRow, 5]` | high that the region is one row too long, from the source text. The consequences rest on the host's documented behaviour: with a spare row below the data, that blank row gets a white font and a cleared background; on a sheet whose data fills its last physical row, `getRange` raises and `onOpen` colours nothing. Not executed | `Triggers.OnOpenRegion` (with `Triggers.OnOpenOverreachesByOneRow`, `Triggers.OnOpenRefusedOnFullSheet`, `Triggers.OnOpenOverreachExample`) | `Triggers.DocumentedRegion` |
