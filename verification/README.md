# Plasterboard panelling engine, modelled in Dafny

The application lays standard plasterboard panels over the walls of a room. Each wall has a width, a height and a list of openings: doors, windows, sockets, switches, pipes. All sizes are whole centimetres. The origin is at the bottom left.

For one wall the engine does the following:
- It picks an orientation for the panel, either as given or turned by 90 degrees.
- It walks a grid of tiles row by row, clipping the tiles at the wall's right and top edges.
- It drops every tile that a single opening hides entirely.
- It records, for each remaining panel, the cut of every opening that overlaps it.
- It collects the strips left over from trimmed panels. It keeps those of at least 2500 cm² and reports them largest first.

For a whole project the engine places every wall, tags the panels and offcuts with their wall, and sums the counts and areas into one report with a waste percentage. Beside the engine sit the checks that the editing forms run before accepting a wall dimension or an opening field, and a table of standard opening templates.

The model has these modules:
- `Geometry`: rectangles and the overlap, containment and intersection tests. Each test is tied to a reference meaning: the set of unit squares a rectangle covers.
- `Project`: walls and openings, the overflow test and the opening-overlap test.
- `Tiling`: the orientation choice and the grid of panels, as specification functions, with the geometric facts about them.
- `Offcuts`: the strips of a trimmed panel, the reusability filter and the sort by decreasing surface.
- `Placement`: the per-wall engine as methods with loops. Each method is proved equal to the specification functions. This module also holds the two walls of the application's default project, worked out in full.
- `Aggregation`: the multi-wall loop, the report, and the sums and bounds the report satisfies.
- `Validators`: the two validation functions, and the wall invariant that an accepted edit preserves.
- `Templates`: the template table and the function that applies a template.

## Model

| member | source | states |
|---|---|---|
| Geometry.Overlaps | src/utils/optimisation.js:285-292 | the strict four-comparison overlap test; its meaning is stated by Geometry.OverlapsIffCommonPoint and Geometry.OverlapsSymmetric |
| Geometry.Contains | src/utils/optimisation.js:296-303 | the closed containment comparison; its meaning is stated by Geometry.ContainsIffAllPoints and Geometry.ContainsReflexive |
| Project.OpeningsOverlap | src/utils/optimisation.js:322-324 | the overlap test on two openings' rectangles; stated by Project.OpeningsOverlapSymmetric |
| Project.OverflowsWall | src/utils/optimisation.js:327-333 | an opening with a negative position or a far edge beyond the wall; stated by Project.OverflowsIffNotContained |
| Project.OpeningsArea | src/utils/optimisation.js:16 | the summed area of the openings; Placement.PanelCountBounds states the useful area with it |
| Offcuts.StripsOf | src/utils/optimisation.js:153-193 | the strips of a trimmed panel; stated by Offcuts.StripsOfMembers, Offcuts.StripsOfShape and Offcuts.StripsConserveArea |
| Offcuts.KeepReusable | src/utils/optimisation.js:129-132 | keeps no more offcuts than it is given; what it keeps is stated by Offcuts.KeepReusableSelects |
| Tiling.Candidate | src/utils/optimisation.js:23-37 | the tiling of one orientation, with ceiling tile counts; stated by Tiling.BestConfig |
| Tiling.Score | src/utils/optimisation.js:37-44 | ten thousand per panel plus the panels' area beyond the wall; stated by Tiling.BestConfigScores |
| Tiling.CellRect | src/utils/optimisation.js:73-79 | the grid cell clipped at the wall's right and top edges; stated by Tiling.CellPanel and Tiling.CellNonEmpty |
| Tiling.MakePanel | src/utils/optimisation.js:93-115 | the panel record of a clipped cell with its trim flag and cuts; stated by Tiling.CellPanel |
| Tiling.Cell | src/utils/optimisation.js:73-117 | the panel of a grid cell, or none when one opening hides it; stated by Tiling.CellOmittedIffHidden |
| Tiling.CutsFor | src/utils/optimisation.js:104-115 | at most one cut per opening; which cuts, in which order, is stated by Tiling.CutsForMatchOpenings, Tiling.CutsForSingle and Tiling.CutsForAppend |
| Tiling.Tiles | src/utils/optimisation.js:71-127 | the panels of the grid in row-major order; stated by Tiling.TilesWellPlaced, Tiling.TilesRowMajor, Tiling.TilesDisjoint, Tiling.TilesCoverVisibleWall |
| Placement.OffcutsOf | src/utils/optimisation.js:119-123 | the strips of every trimmed panel, in panel order; stated by Placement.OffcutsOfSnoc and Placement.OffcutsOfWellPlaced |
| Placement.PlacementWith | src/utils/optimisation.js:129-149 | a wall's result for a chosen tiling; stated by Placement.OptimizePlacement |
| Placement.WallPlacement | src/utils/optimisation.js:10-150 | a wall's result for the best tiling; stated by Placement.PanelCountBounds, Placement.PanelsTileWall and Placement.ReportedOffcuts |
| Aggregation.Accumulate | src/utils/optimisation.js:204-255 | the running totals after n walls; stated by the Accumulate lemmas below, the panel and offcut lists by Aggregation.AccumulatePanels and Aggregation.AccumulateOffcutList |
| Aggregation.ReportOf | src/utils/optimisation.js:257-280 | the report built from the totals; stated by Aggregation.TotalsWaste |
| Aggregation.Aggregate | src/utils/optimisation.js:196-281 | the report of a whole project; stated by Aggregation.ReportLists, Aggregation.ReportLines, Aggregation.ReportCounts and Aggregation.ReportWaste |
| Aggregation.WastePercentage | src/utils/optimisation.js:262 | the clamped waste percentage, with JavaScript's division by zero; stated by Aggregation.WastePercentageFormula and Aggregation.WastePercentageRange |
| Aggregation.OffcutsSurface | src/utils/optimisation.js:265 | the summed surface of the offcuts; stated by Aggregation.OffcutsSurfaceBound |
| Geometry.Intersection | src/utils/optimisation.js:307-319 | the intersection lies inside both rectangles; for non-empty rectangles it is non-empty exactly when they overlap |
| Geometry.IntersectionPoints | src/utils/optimisation.js:307-319 | the intersection covers exactly the unit squares common to both rectangles |
| Geometry.OverlapsSymmetric | src/utils/optimisation.js:285-292 | overlap does not depend on argument order |
| Geometry.OverlapsIffCommonPoint | src/utils/optimisation.js:285-292 | for non-empty rectangles, the four-comparison overlap test holds exactly when they share a unit square |
| Geometry.ContainsReflexive | src/utils/optimisation.js:296-303 | every rectangle contains itself |
| Geometry.ContainsIffAllPoints | src/utils/optimisation.js:296-303 | for a non-empty inner rectangle, containment is inclusion of its unit squares |
| Project.OverflowsIffNotContained | src/utils/optimisation.js:327-333 | an opening overflows a wall exactly when the wall rectangle (0, 0, width, height) does not contain it |
| Project.OpeningsOverlapSymmetric | src/utils/optimisation.js:322-324 | the opening-overlap test is the rectangle overlap test, and it is symmetric |
| Templates.ApplyTemplate | src/utils/modelesOuvertures.js:14-53 | an unknown kind returns the opening unchanged; a known kind sets the base kind and the table's width and height and keeps id and position; only a pipe gets the round shape and diameter 10; only a socket or switch gets the table's count and layout |
| Templates.KindIsKey | src/utils/modelesOuvertures.js:40-48 | for every kind in the table the displayed kind is the key itself, because no entry has a count above one |
| Templates.ApplyTemplateIdempotent | src/utils/modelesOuvertures.js:14-53 | applying the same template twice equals applying it once |
| Templates.DecimalString | src/utils/modelesOuvertures.js:46 | the rendering of a count is a non-empty string of decimal digits, without a leading zero, whose decimal value is the count |
| Validators.AnyOverflows | src/utils/validators.js:19-21 | true exactly when some opening of the list overflows a wall of the given size |
| Validators.ValidateWallDimension | src/utils/validators.js:5-29 | each error is returned exactly when it is the first that applies: not positive exactly for a value of 0 or below; too wide exactly for a positive width above 1000; too high exactly for a positive height above 500; overflow exactly when the value passes those and some opening would overflow the resized wall; the value is accepted exactly when none of these applies |
| Validators.OverlapsOther | src/utils/validators.js:47-48 | true exactly when some opening with a different id overlaps the edited opening |
| Validators.ValidateOpening | src/utils/validators.js:32-56 | each error is returned exactly when it is the first that applies: negative exactly for a negative number; the width bound only for x and width edits, and the height bound only for y and height edits; overlap exactly when the edit passes those and another opening overlaps the edited one; the edit is accepted exactly when none of these applies |
| Validators.AcceptedWallEditKeepsValid | src/utils/validators.js:5-29 | a dimension edit that passes validation keeps the wall valid: dimensions within limits, openings inside the wall, unique ids, no two openings overlapping |
| Validators.AcceptedOpeningEditKeepsValid | src/utils/validators.js:32-56 | an opening edit that passes validation keeps the wall valid |
| Offcuts.StripsOfMembers | src/utils/optimisation.js:153-193 | a lateral strip exactly when the width was trimmed, a top strip exactly when the height was trimmed, a corner piece exactly when both were, and nothing else |
| Offcuts.StripsOfShape | src/utils/optimisation.js:153-193 | every strip's surface is its width times its height; the strips of a trimmed panel are non-empty, lie inside the full panel and do not overlap the part kept |
| Offcuts.StripsConserveArea | src/utils/optimisation.js:153-193 | the kept part plus the strips' surfaces is exactly one full panel |
| Offcuts.KeepReusableSelects | src/utils/optimisation.js:129-132 | the kept offcuts are exactly those of at least 2500 cm², each with its multiplicity |
| Offcuts.KeepReusableAppend | src/utils/optimisation.js:129-132 | filtering distributes over concatenation |
| Offcuts.Insert | src/utils/optimisation.js:133 | insertion adds exactly one occurrence of the offcut |
| Offcuts.InsertSorted | src/utils/optimisation.js:133 | inserting into a list sorted by decreasing surface keeps it sorted |
| Offcuts.SortBySurface | src/utils/optimisation.js:133 | the sorted list is a permutation of its input |
| Offcuts.SortBySurfaceSorted | src/utils/optimisation.js:133 | the sorted list is ordered by decreasing surface |
| Tiling.CeilDiv | src/utils/optimisation.js:35-36 | the result is the least q with q * b >= a |
| Tiling.BestConfig | src/utils/optimisation.js:23-56 | the kept tiling has ceiling tile counts, at least one tile each way, and tiles that cover the wall |
| Tiling.BestConfigScores | src/utils/optimisation.js:23-56 | the kept tiling is one of the two candidates and scores no worse than either; it is the turned one exactly when that scores strictly lower, so a tie keeps the panel as given |
| Tiling.AnyContains | src/utils/optimisation.js:84-89 | true exactly when some single opening contains the rectangle |
| Tiling.CutFor | src/utils/optimisation.js:104-115 | the cut lies inside both the panel and the opening; its local coordinates are its offset from the panel's corner; it carries the opening's kind; it is non-empty exactly when the two overlap |
| Tiling.CutForPoints | src/utils/optimisation.js:106 | a cut covers exactly the panel's unit squares that the opening covers |
| Tiling.CutsForMatchOpenings | src/utils/optimisation.js:104-115 | every cut comes from an overlapping opening, and every overlapping opening yields its cut |
| Tiling.CutsForSingle | src/utils/optimisation.js:104-115 | a single opening gives exactly its cut when it overlaps the panel, and no cut otherwise |
| Tiling.CutsForAppend | src/utils/optimisation.js:104-115 | the cuts of two opening lists joined are the cuts of the first followed by those of the second: one cut per overlapping opening, in opening order |
| Tiling.CellPanel | src/utils/optimisation.js:73-101 | the panel of grid cell (row, col) sits at (col * tile width, row * tile height), is the clipped cell, and is well placed |
| Tiling.CellNonEmpty | src/utils/optimisation.js:78-82 | for ceiling tile counts, every clipped grid cell has positive width and height |
| Tiling.GridIndexed | src/utils/optimisation.js:71-117 | each emitted panel is the panel of a grid cell within the grid |
| Tiling.GridOrdered | src/utils/optimisation.js:71-72 | the cells of the emitted panels come in row-major order |
| Tiling.GridComplete | src/utils/optimisation.js:71-117 | the panel of every grid cell inside the grid is emitted |
| Tiling.TilesWellPlaced | src/utils/optimisation.js:71-101 | every emitted panel is at most one tile in size and lies inside the wall; it is trimmed only at the wall's right or top edge; its trim flag is set exactly when it was clipped; no single opening hides it; its cuts are those of the openings it overlaps |
| Tiling.TilesRowMajor | src/utils/optimisation.js:71-75 | panels come bottom row first and left to right within a row |
| Tiling.TilesDisjoint | src/utils/optimisation.js:71-79 | no two emitted panels overlap |
| Tiling.CellOmittedIffHidden | src/utils/optimisation.js:82-92 | a grid cell has no emitted panel exactly when some single opening contains its clipped rectangle |
| Tiling.TilesCoverVisibleWall | src/utils/optimisation.js:71-117 | every unit square of the wall outside all openings lies in some emitted panel |
| Placement.ChooseOrientation | src/utils/optimisation.js:28-61 | the loop over the two candidates, replacing the best only on a strictly lower score, returns the kept tiling |
| Placement.ComputeCuts | src/utils/optimisation.js:104-115 | the loop over the openings returns one cut per overlapping opening, in opening order |
| Placement.LayCell | src/utils/optimisation.js:73-101 | one grid step gives the panel of that cell, or none |
| Placement.LayRow | src/utils/optimisation.js:72-125 | the inner loop appends the row's panels, and the offcut list stays the strips of the trimmed panels laid so far |
| Placement.LayPanels | src/utils/optimisation.js:71-127 | the nested loops produce the grid's panels, and the strips of their trimmed panels |
| Placement.OptimizePlacement | src/utils/optimisation.js:10-150 | the result equals the per-wall specification: the grid's panels, the panel count, the useful area, the orientation and the sorted reusable offcuts |
| Placement.OffcutsOfSnoc | src/utils/optimisation.js:120-123 | laying one more panel appends its strips, if it is trimmed |
| Placement.OffcutsOfAppend | src/utils/optimisation.js:120-123 | the strips of two panel lists are concatenated in order |
| Placement.OffcutsOfWellPlaced | src/utils/optimisation.js:119-123 | every strip of well-placed panels is non-empty, has its area as surface, lies outside the wall, and lies inside the full panel of a trimmed panel |
| Placement.PanelCountBounds | src/utils/optimisation.js:135-141 | the useful area is the wall area less the openings' area; the panel count is at least the number of panels laid; the counted panels' area covers the useful area |
| Placement.PanelsTileWall | src/utils/optimisation.js:71-127 | one wall's panels are well placed, pairwise disjoint and in row-major order, and cover every visible unit square of the wall |
| Placement.ReportedOffcuts | src/utils/optimisation.js:129-133 | the reported offcuts are sorted by decreasing surface; they are exactly the strips of at least 2500 cm²; each is non-empty, has its area as surface and lies beyond the wall |
| Placement.SmallWallScoresTie | src/components/App.jsx:32-38 | on the 188 x 238 wall both orientations need two 120 x 250 panels and score 35256, so the panel keeps its given orientation |
| Placement.SmallWallPanels | src/components/App.jsx:32-38 | that wall gets a 120 x 238 panel and a 68 x 238 panel |
| Placement.SmallWallKept | src/utils/optimisation.js:129-133 | of the four strips those two panels leave, only the 52 x 238 one is kept |
| Placement.SmallWallResult | src/components/App.jsx:32-38 | that wall's result: given orientation, those two panels, a count of 2, and one reusable 52 x 238 offcut |
| Placement.DefaultWallConfig | src/components/App.jsx:22-30 | on the 300 x 250 wall the panel as given scores 45000 against 165000 turned, so it keeps its orientation |
| Placement.DefaultWallFirstCuts | src/components/App.jsx:27-30 | the door alone cuts the first tile, at local (50, 0) |
| Placement.DefaultWallSecondCuts | src/components/App.jsx:27-30 | the door and then the window cut the second tile |
| Placement.DefaultWallThirdCuts | src/components/App.jsx:27-30 | the window alone cuts the third tile |
| Placement.DefaultWallPanels | src/components/App.jsx:22-30 | that wall gets two full panels and one 60 x 250 panel, with those cuts |
| Placement.DefaultWallKept | src/utils/optimisation.js:129-133 | the one 60 x 250 strip beside the wall is kept |
| Placement.DefaultOpeningsArea | src/components/App.jsx:27-30 | the door and the window cover 28900 cm² |
| Placement.DefaultWallResult | src/components/App.jsx:22-30 | that wall's result: three panels, counted as three although the useful area of 46100 cm² fits in two, and one reusable 60 x 250 offcut |
| Aggregation.TagPanels | src/utils/optimisation.js:215-219 | each panel, in order, is tagged with the wall's id and name |
| Aggregation.TagOffcuts | src/utils/optimisation.js:227-231 | each offcut, in order, is tagged with the wall's id and name |
| Aggregation.Placements | src/utils/optimisation.js:204-212 | there is one placement per wall, and entry k is the placement of wall k |
| Aggregation.PlaceWall | src/utils/optimisation.js:206-242 | one wall's tagged panels, useful area, count, tagged offcuts and summary line |
| Aggregation.AddWall | src/utils/optimisation.js:244-254 | one pass of the loop extends the running totals by the next wall |
| Aggregation.BuildReport | src/utils/optimisation.js:257-280 | the report computed from the running totals |
| Aggregation.OptimizeAllWalls | src/utils/optimisation.js:196-281 | the loop over the walls, then the report, equals the whole-project specification |
| Aggregation.AccumulateLines | src/utils/optimisation.js:233-242 | after n walls there is one summary line per wall, in wall order |
| Aggregation.AccumulatePanelCount | src/utils/optimisation.js:253-254 | the total panel count is the sum of the summary lines' counts |
| Aggregation.AccumulateUsefulArea | src/utils/optimisation.js:250-251 | the total useful area is the sum of the summary lines' areas |
| Aggregation.AccumulateOffcutCount | src/utils/optimisation.js:247-248 | the number of offcuts is the sum of the summary lines' offcut counts |
| Aggregation.AccumulateBounds | src/utils/optimisation.js:253-259 | the total count is at least the number of panels listed, and the counted panels' area covers the total useful area |
| Aggregation.PlacementsCover | src/utils/optimisation.js:204-212 | every wall's placement satisfies the count bounds the totals need |
| Aggregation.OffcutsSurfaceBound | src/utils/optimisation.js:265 | reusable offcuts have a total surface of at least 2500 cm² per offcut |
| Aggregation.AccumulateOffcuts | src/utils/optimisation.js:247-248 | every offcut collected so far is reusable |
| Aggregation.PlacementsReusable | src/utils/optimisation.js:227-231 | every offcut of every wall's placement is reusable |
| Aggregation.AccumulatePanels | src/utils/optimisation.js:204-245 | after n walls the panel list has as many entries as the first n placements have panels, and the entry at (panels of walls 0..k-1) + i is panel i of wall k's placement tagged with wall k's id and name |
| Aggregation.AccumulateOffcutList | src/utils/optimisation.js:204-248 | the same block layout for the offcut list: wall k's kept offcuts, tagged with wall k, in their order, after those of the walls before it |
| Aggregation.AccumulateOrigins | src/utils/optimisation.js:214-248 | every tagged panel and offcut comes from the placement of the wall whose id and name it carries |
| Aggregation.WastePercentageFormula | src/utils/optimisation.js:262 | for a non-zero total the percentage is max(0, (total - useful) / total * 100), evaluated exactly |
| Aggregation.WastePercentageRange | src/utils/optimisation.js:262 | when the total is at least the useful area: over a positive total the percentage is the unclamped fraction, between 0 and 100 for a non-negative useful area; over a zero total it is NaN exactly when the useful area is 0 |
| Aggregation.ReportLines | src/utils/optimisation.js:233-280 | the report has one line per wall in wall order, and its panel count, useful area and offcut count are the sums of the lines |
| Aggregation.ReportCounts | src/utils/optimisation.js:257-270 | the report counts at least the panels it lists; its panel area covers its useful area; its panel area is zero exactly when no panel is counted |
| Aggregation.TotalsWaste | src/utils/optimisation.js:258-262 | for totals whose panel area covers the useful area and is zero only with no panel counted, the report's percentage is unclamped: the plain fraction over a positive panel area, between 0 and 100 for a non-negative useful area, and NaN with no panel counted exactly when the useful area is 0 |
| Aggregation.ReportLists | src/utils/optimisation.js:196-278 | the report's panel list and offcut details are each wall's placed panels and kept offcuts, tagged with that wall, concatenated in wall order: lengths are the sums over the walls, and entry (sum over walls before k) + i is wall k's i-th item |
| Aggregation.ReportOffcutsReusable | src/utils/optimisation.js:227-265 | every offcut in the report has a surface of at least 2500 cm², so the reported offcut surface is at least 2500 cm² per offcut |
| Aggregation.ReportWaste | src/utils/optimisation.js:258-262 | the clamp to zero never applies: over a positive panel area the percentage is the plain fraction, between 0 and 100 for a non-negative useful area; with no panel counted it is NaN exactly when the useful area is 0 |
| Aggregation.EmptyProject | src/utils/optimisation.js:196-281 | a project without walls reports no panels, zero areas, and NaN as its percentage |
| Aggregation.FirstWallPlaced | src/components/App.jsx:22-30 | the first default wall gets three panels, a count of 3, and one 60 x 250 offcut |
| Aggregation.SecondWallPlaced | src/components/App.jsx:32-38 | the second default wall gets two panels, a count of 2, and one 52 x 238 offcut |
| Aggregation.DefaultProjectTotals | src/components/App.jsx:21-39 | the running totals after the two default walls: five panels, 90844 cm² useful, the two summary lines and the two tagged offcuts |
| Aggregation.DefaultProjectReport | src/components/App.jsx:15-39 | the default project's report: 5 panels, 150000 cm² of panels, 90844 cm² useful, a waste of 5915600 / 150000 percent, and 2 reusable offcuts totalling 27376 cm² |

## Left out

- PDF export, the React components, zoom and pan, and `alert`: these are user interface and I/O.
- The console logging in the template function.
- Display conversions: the `dimensions` text of a wall's summary line, the m² figure `surfaceEnM2`, and the `toFixed` and `toLocaleString` formatting. The summary line and the offcut summary carry every other field.
- Aggregation.WastePercentage: the percentage is a `Number` value: an exact fraction, +Infinity, or NaN. It follows JavaScript's division by zero and `Math.max(0, NaN)`, which is NaN. The floating-point rounding of the division and of `* 100` is not modelled.
- Placement.OptimizePlacement: requires positive wall and panel dimensions. The wall editor refuses wall dimensions of 0 or below. The panel-size form (`src/components/PlaqueDimensionsForm.jsx:20`, `:37`) does not validate, so the source also runs on panel sizes of 0 or below, and this requires excludes those inputs.
  - With a zero panel dimension both scores are NaN (`Infinity * 0`). No orientation is chosen, and the source throws a TypeError at `src/utils/optimisation.js:59`.
  - With a negative panel dimension the source returns a result. For a -120 x 250 panel on the 300 x 250 wall it lays no panel and counts `max(0, ceil(46100 / -30000)) = 0` panels. The model does not cover this.
- JavaScript numbers are doubles, exact only up to 2^53. The model's integers are unbounded, so it does not capture the rounding of scores and areas for very large sizes.
- Validators.ValidateOpening: the values are integers. The forms pass `parseInt(...) || 0` (`src/components/OuvertureItem.jsx:58-113`), so NaN never reaches the validator, and an unreadable field arrives as 0. Editing the kind runs only the overlap check, because a kind never compares below 0.
- Adding an opening is not validated, so the wall invariant `ValidWall` is only what accepted edits preserve, not a property of every wall: adding an opening (`src/components/App.jsx:122-140`) places an unchecked 60 x 60 opening at (10, 10), and two such additions overlap.
- Templates.ApplyTemplate: only table keys count as known kinds. Names inherited from JavaScript's object prototype (`constructor`, `toString`, ...) are not modelled as table lookups. The template function is not called by the interface; it is modelled for completeness. Its default argument, an empty opening (`src/utils/modelesOuvertures.js:14`), is not modelled: the model always receives an opening.
- The copy of each wall's openings before placement (`src/utils/optimisation.js:206`). It only protects the caller's records, and the model has no shared state.
- An offcut pool reused across walls, best-fit matching, offcuts cut from the margins around openings, and de-duplication of offcuts. The code has none of these, so the model has none either. The threshold for keeping an offcut is on its surface (`src/utils/optimisation.js:130-132`), as the code has it, not on its smaller side.
- Offcuts.SortBySurface: JavaScript's `sort` with comparator `b.surface - a.surface` is stable. The model inserts each offcut before the first one of equal or smaller surface, which keeps equal surfaces in input order, but this stability is not stated as a lemma.
