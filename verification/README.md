# Mesh to RTMsim bulk-data converter, modelled in Dafny

`converter2.py` reads a mesh, picks out its triangles and writes them as a
NASTRAN-style bulk-data file in the classic small-field format: every card is a
run of 8-character columns. This project models the pure part of that script:

- **Triangle selection** (module `Mesh`). The mesh arrives as a point sequence
  and a list of cell blocks, each with a topology tag. The first block tagged
  `"triangle"` supplies the elements, and every later one is ignored. With no
  such block the script stops before writing anything.
- **Card emission** (module `BulkData`). The output is written in this order:
  - the comment line and `BEGIN BULK`;
  - a PSHELL and a MAT1 card holding fixed placeholder values;
  - one GRID card per point, with node id = 0-based position + 1;
  - one CTRIA3 card per triangle, with element id = position + 1, property 1,
    and the three node references shifted from 0-based to 1-based;
  - finally `ENDDATA`.
- **Column padding** (module `Columns`). `:<8` pads a text on the right and
  `:>8` pads it on the left. Neither one truncates, so an over-long value makes
  its column wider.
- **Decimal integers** (module `Decimal`). These are what the integer columns
  hold.
- **The script as a whole** (module `Converter`). It maps a loaded mesh, or a
  failed load, to the output lines or to the reason there are none.

To state that the cards carry what they should, the model adds readers for them:
- `ParseIntField` trims an integer column and reads its digits. It accepts only
  the canonical rendering, so a zero-padded number such as `00000002` is rejected.
- `ParseCtria3` splits a line into columns and undoes the renumbering.
- `ParseGridPosition` reads a GRID card's node id back as a 0-based position.

The script itself has no readers. These exist only so the round-trip properties
can be stated.

Coordinates have an uninterpreted type `C`, and the `.4f` rendering is a
parameter `fmt: C -> string`. The three placeholder reals of the PSHELL and MAT1
cards are their fixed renderings: `1.0`, `2.1e+05` and `0.3`.

## Model

| member | source | states |
|---|---|---|
| Mesh.SelectTriangles | converter2.py:20-27 | Succeeds exactly when some block is tagged "triangle", and then returns the cells of the first such block |
| Mesh.ScanForTriangles | converter2.py:20-27 | The early-exit loop over the blocks finds nothing exactly when no block is a triangle block. Otherwise it returns the first triangle block's cells, the same result as SelectTriangles |
| Mesh.SelectsFirst | converter2.py:22-25 | When block i is the first triangle block, the selection is exactly block i's cells |
| Mesh.LaterBlocksIgnored | converter2.py:22-25 | Once a triangle block exists, appending any further blocks (triangle or not) leaves the selection unchanged |
| Mesh.LeadingBlocksSkipped | converter2.py:22-25 | Non-triangle blocks placed in front of the list do not change the selection |
| Decimal.NatToString | converter2.py:64 | A non-negative integer renders as a non-empty digit string, with a leading zero only for 0 itself |
| Decimal.ParseNat | converter2.py:64 | Reading succeeds exactly on canonical digit strings: non-empty, all digits, and no leading zero unless the string is "0" |
| Decimal.ParseNatRoundTrip | converter2.py:64 | Reading the decimal rendering of n gives back n |
| Decimal.NatToStringCanonical | converter2.py:64 | Any digit string without a leading zero is the rendering of its own value |
| Decimal.ParseNatExact | converter2.py:64 | Reading is the exact inverse of rendering: a string reads as n exactly when it is the rendering of n |
| Decimal.WidthBound | converter2.py:52-56 | For k ≥ 1, a rendering has at most k digits exactly when n < 10^k |
| Columns.RightJustify | converter2.py:46-64 | `:>8`: the padded text is max(8, len) characters long, so it is never cut short |
| Columns.LeftJustify | converter2.py:46-64 | `:<8`: the padded text is max(8, len) characters long, so it is never cut short |
| Columns.RightJustifyShape | converter2.py:56 | `:>8` puts max(8, len) − len spaces before the text and keeps the text whole |
| Columns.LeftJustifyShape | converter2.py:64 | `:<8` puts the same number of spaces after the text and keeps the text whole |
| Columns.RightJustifyRoundTrip | converter2.py:64 | Trimming the left padding of a right-justified text that has no leading space gives back the text |
| Columns.LeftJustifyRoundTrip | converter2.py:64 | Trimming the right padding of a left-justified text that has no trailing space gives back the text |
| Columns.TrimLeftRemovesSpaces | converter2.py:64 | Left trimming removes only a run of spaces: the input is those spaces followed by the result |
| Columns.TrimRightRemovesSpaces | converter2.py:56 | Right trimming removes only a run of trailing spaces |
| Columns.TrimLeftPadding | converter2.py:64 | Left trimming undoes any amount of left padding |
| Columns.TrimRightPadding | converter2.py:56 | Right trimming undoes any amount of right padding |
| Columns.RenderedWidths | converter2.py:56 | Every rendered column is at least 8 wide, and all are exactly 8 exactly when every field's text fits in 8 |
| Columns.ConcatLength | converter2.py:64 | A line of n full-width columns is 8·n characters long |
| Columns.ConcatWide | converter2.py:64 | One over-wide column makes the whole line longer than 8·n |
| Columns.SplitFields | converter2.py:64 | Cutting a line into 8-character chunks loses nothing: the chunks concatenate back to the line, and all but the last are full |
| Columns.SplitConcat | converter2.py:64 | Cutting a line of full-width columns into chunks gives back exactly those columns |
| Columns.FirstColumnOfLine | converter2.py:56 | The first 8 characters of a line of full-width columns are its first column |
| BulkData.BulkLines | converter2.py:40-66 | The output has N + M + 5 lines: the comment, BEGIN BULK, PSHELL, MAT1, then GRID card k−4 at each line k of 4..N+3 and CTRIA3 card k−4−N at each later line, then ENDDATA last |
| BulkData.WriteBulk | converter2.py:40-66 | Writing the lines loop by loop yields exactly BulkLines |
| BulkData.Enumerate | converter2.py:51-64 | An enumerate loop yields one card per item, the card built from that item's 0-based position and the item, in order |
| BulkData.CardOrder | converter2.py:40-66 | A line is a GRID card exactly when it is one of lines 4..N+3, and a CTRIA3 card exactly when it is one of the M lines after those. So every GRID card precedes every CTRIA3 card, and both follow PSHELL and MAT1 |
| BulkData.LineKindAt | converter2.py:40-66 | The same GRID/CTRIA3 classification as CardOrder, for a single line index |
| BulkData.FramingUntagged | converter2.py:40-47 | Neither kind of card can be mistaken for the comment, BEGIN BULK, PSHELL, MAT1 or ENDDATA lines |
| BulkData.PshellCardColumns | converter2.py:43-46 | The PSHELL card is the tag followed by property id 1, material id 1 and thickness 1.0, each in its own 8-wide column |
| BulkData.Mat1CardColumns | converter2.py:44-47 | The MAT1 card is the tag followed by material id 1, E = 2.1e+05, a blank column and ν = 0.3, each in its own 8-wide column |
| BulkData.PshellRendered | converter2.py:46 | The four PSHELL columns, each padded to exactly 8 characters |
| BulkData.Mat1Rendered | converter2.py:47 | The five MAT1 columns, each padded to exactly 8 characters |
| BulkData.IntField | converter2.py:52-64 | An id column (`{node_id:>8}`, `{element_id:>8}` and so on) is right-justified and its text reads back as exactly that id |
| BulkData.ParseIntField | converter2.py:52-64 | A column is read exactly when, with its left padding trimmed, it is a canonical digit string |
| BulkData.IntFieldWidth | converter2.py:52-64 | An integer field fits its column exactly when the id is below 10^8 |
| BulkData.IntFieldRoundTrip | converter2.py:52-64 | A right-justified integer column reads back as the integer |
| BulkData.IdFieldsFit | converter2.py:60-64 | A run of id columns has one column per id exactly when every id is below 10^8 |
| BulkData.IdColumnsRoundTrip | converter2.py:60-64 | A run of rendered id columns reads back as the same ids, in order |
| BulkData.Ctria3Ids | converter2.py:60-64 | A CTRIA3 card carries five ids, the second being property 1, and every id is at least 1 because all are shifted to 1-based. Their contents are pinned down by Ctria3IdsRoundTrip |
| BulkData.Ctria3IdsFit | converter2.py:59-64 | The ids written for element i all fit exactly when element id i+1 and all three node ids are below 10^8 |
| BulkData.Ctria3FromIds | converter2.py:60-64 | Whatever it accepts is the id list of the element and triple it returns |
| BulkData.Ctria3IdsRoundTrip | converter2.py:60-64 | Undoing the +1 shift on element i's ids gives back i and the original 0-based triple |
| BulkData.Ctria3Card | converter2.py:59-64 | The f-string of line 64: six padded columns, never shorter than 48 characters because padding never truncates. What the columns hold is stated by Ctria3RoundTrip, Ctria3ReadsBack and Ctria3Overflows |
| BulkData.ReadCtria3 | converter2.py:64 | It accepts only six full-width columns that start with the padded CTRIA3 tag |
| BulkData.ParseCtria3 | converter2.py:64 | A line it accepts is 48 characters long and starts with the padded CTRIA3 tag |
| BulkData.Ctria3ReadsBack | converter2.py:59-64 | When all ids fit, the CTRIA3 card of element i is exactly 48 characters and reads back as i with its original triple |
| BulkData.Ctria3Overflows | converter2.py:59-64 | When some id reaches 10^8, the card is longer than 48 characters and no longer reads as a CTRIA3 card |
| BulkData.Ctria3RoundTrip | converter2.py:59-64 | A CTRIA3 card reads back as its position and original triple exactly when every id fits below 10^8 |
| BulkData.GridCard | converter2.py:56 | The f-string of line 56: six padded columns, never shorter than 48 characters because padding never truncates. What the columns hold is stated by GridCardColumns, GridLineRoundTrip and GridCardWidth |
| BulkData.GridCardWidth | converter2.py:51-56 | A GRID card is at least 48 characters, and exactly 48 exactly when the node id is below 10^8 and each rendered coordinate is at most 8 characters. So the fixed width that the comment at line 55 expects holds only for renderings of at most 8 characters |
| BulkData.GridLineSplit | converter2.py:51-56 | When the node id is below 10^8 and each rendered coordinate is at most 8 characters, a GRID line splits into exactly six columns: the padded tag, node id i+1, a blank CP column, then x, y and z, each right-justified, in that order |
| BulkData.GridCardColumns | converter2.py:51-56 | The same six columns for the GRID card of a point: its node id, a blank column, then the renderings of its own x, y and z in that order |
| BulkData.GridLineRoundTrip | converter2.py:51-56 | When node id i+1 is below 10^8, a GRID line for position i carries that id in its second column and reads back as i, whatever the three coordinate renderings |
| BulkData.GridPositionRoundTrip | converter2.py:51-56 | When node id i+1 is below 10^8, the GRID card of the point at position i carries node id i+1, read back as i |
| BulkData.GridLineAt | converter2.py:51-56 | With fewer than 10^8 points, output line k (4 ≤ k < N+4) carries node id k−3, i.e. reads back as point position k−4 |
| BulkData.GridLinesReadBack | converter2.py:51-56 | With fewer than 10^8 points, in any run of lines holding the GRID cards of the points from line 4 on, line k reads back as point position k−4 |
| BulkData.GridLinesSplit | converter2.py:51-56 | In any such run of lines, when point k−4's id and renderings fit their columns, line k splits into the columns of point k−4's GRID card: node id k−3, a blank column, then that point's x, y and z renderings |
| BulkData.GridLineColumns | converter2.py:51-56 | Output line k (4 ≤ k < N+4) splits into the GRID tag, node id k−3, a blank column and the renderings of point k−4's x, y and z, in that order, when these fit their columns |
| BulkData.PointsWritten | converter2.py:51-56 | When every point's id and renderings fit, the GRID lines carry the points in input order: each line holds its point's own three coordinates in columns 4 to 6 |
| BulkData.NodeIdsDense | converter2.py:51-56 | With fewer than 10^8 points, the node ids of the GRID lines are 1..N, in point order |
| BulkData.Ctria3LineAt | converter2.py:59-64 | When all ids of its triangle are below 10^8, output line k in the CTRIA3 range is 48 characters and reads back as element k−4−N with its original triple. No bound against N is placed on the node references |
| BulkData.ElementsRoundTrip | converter2.py:59-64 | When all ids fit, every CTRIA3 line reads back as its element position and original 0-based triple |
| BulkData.UncheckedReferences | converter2.py:59-64 | An example of the missing range check, for fewer than 10^8 − 1 points: a single triangle whose three references equal the number of points (out of range) is still written and reads back unchanged |
| Converter.Convert | converter2.py:13-30 | A failed load gives a read error, and a loaded mesh fails exactly when it has no triangle block. Otherwise the output is the bulk-data lines of the points and the first triangle block's cells |
| Converter.Run | converter2.py:13-66 | The script's control flow (load check, triangle scan with early exit, card loops) computes exactly Convert |
| Converter.ConvertLineCount | converter2.py:32-66 | A successful conversion has N + M + 5 lines, where M is the row count of the first triangle block |
| Converter.EmptyTriangleBlock | converter2.py:24-27 | A first triangle block with no rows still counts as found: the output is the framing lines and the GRID cards, with no CTRIA3 card |

## Left out

- Reading the mesh file: the external reader is not modelled. Its outcome is a parameter: either a mesh or a failure.
- File I/O: the output is modelled as the sequence of lines written. Newlines, a failing open or write, and a partial file left behind by a failure mid-write are not modelled.
- Console messages and `exit()`: left out. Each exit is modelled as an error value returned with no lines.
- Floating-point formatting: the coordinates' `.4f` rendering is the parameter `fmt`.
- PSHELL and MAT1 values: their `.1f` and `.1e` renderings are written out as the literals `1.0`, `2.1e+05` and `0.3`.
- Point shape: points always have three coordinates. A point with fewer or more coordinates would make the unpacking in line 53 fail mid-write, and that is not modelled.
- Integer width: node references and ids are unbounded natural numbers. The numpy integer width of the source arrays is not modelled, and neither are negative connectivity entries.
- Block rows: a block's rows are modelled as triples, whatever its tag. Only the rows of the selected triangle block are ever used.
- Readers beyond the round trips: the readers `ParseCtria3` and `ParseGridPosition` exist only to state the round trips and are not code of the script.
  - `ParseCtria3` accepts exactly the 48-character small-field form. It does not parse free-field or large-field cards.
  - `ParseGridPosition` reads only the node id column of a GRID card, not its coordinates.
