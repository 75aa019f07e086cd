# aeye map viewer — a Dafny model

aeye shows a dataset of images as a zoomable map. The server lays the images out in two
dimensions. It cuts that plane into a quadtree of tiles, picks representative images for
every tile at every zoom level and stores the tiles in a database. The browser keeps a
window onto the plane. It fetches the tiles around the window, draws one sprite per visible
image from a fixed pool of sprites, and pans, glides and zooms in response to the mouse,
touch, pinches and the wheel. Several scripts around this prepare the datasets, the
scatter plots of the UMAP projections, the nginx and docker-compose configuration, and the
image captions.

This project models that core in Dafny and proves its properties.

- **Quadtree tiles.** Tile addressing and the prefetch funnel are modelled in `tiles.dfy`,
  `prefetch.dfy`, `funnel.dfy` and `report.dfy`. They cover `frontend/src/Map/utilities.js`
  and its Python twin `backend/src/report/tiling.py`.
- **Server tiling.** The grid, the zoom levels and the fetch-back of flushed tiles are in
  `tiling.dfy` and `zoom_levels.dfy`
  (`backend/src/db_utilities/create_and_populate_clusters_collection.py`).
- **Map view.** The sprite pool, tile cache, pending requests, camera and gestures form
  the class `Viewport.ClustersMap` in `viewport.dfy`. Its arithmetic is in
  `viewport_geometry.dfy` (`frontend/src/Map/ClustersMap.js`).
- **Server helpers.**
  - Collection counters, the collection updater and the index parser: `dependencies.dfy`.
  - Reading UMAP rows, first tiles and image tiles: `gets.dfy`.
  - Writing the UMAP rows: `umap.dfy`.
- **Dataset preparation.**
  - File-name metadata: `datasets.dfy`.
  - Embedding records: `embeddings.dfy`.
  - The captioning image list: `captioning.dfy`.
- **Configuration.**
  - The nginx configuration: `nginx_conf.dfy`.
  - The docker-compose volume: `compose.dfy`.
  - The dataset list: `dataset_list.dfy`.
- **Front-end text.** The API host: `host.dfy`. The image description: `card_text.dfy`.
- **Shared helpers.** `wrappers.dfy`, `seqs.dfy` and `strings.dfy`.

Modelling conventions:

- A function that only computes becomes a Dafny function. A loop becomes a method whose
  loop invariants tie it to such a function.
- State the source updates in place becomes a class whose methods say what changes and
  what is kept: the map view, the collection getters and updater, and the captioning
  dataset.
- JavaScript numbers are exact reals. Python and JavaScript integers are unbounded
  integers.
- Exceptions, `sys.exit` and `undefined` results become `Result` or `Option` values.

## Model

| member | source | states |
|---|---|---|
| Tiles.Pow4IsSquare | frontend/src/Map/utilities.js:160 | a level has `4^z == 2^z * 2^z` tiles, the square of its side |
| Tiles.OffsetGrows | frontend/src/Map/utilities.js:160-165 | the first index of a level is at least one past every index of the levels before it |
| Tiles.IndexRange | frontend/src/Map/utilities.js:159-167 | an on-grid tile's index lies in `[S_z, S_z + 4^z)` where `S_z` sums the sizes of the levels above |
| Tiles.IndexInjective | frontend/src/Map/utilities.js:159-167 | two on-grid tiles with the same index are the same tile |
| Tiles.ZoomFromFinds | frontend/src/Map/utilities.js:173-176 | the `while (sum < index)` scan stops at the level whose index block holds the index |
| Tiles.ZoomFromBlock | frontend/src/Map/utilities.js:173-181 | the level the scan finds holds the index in its block |
| Tiles.TileOfIndex | frontend/src/Map/utilities.js:169-185 | every index decodes to an on-grid tile that encodes back to the same index |
| Tiles.IndexRoundTrip | frontend/src/Map/utilities.js:159-185 | decoding the index of an on-grid tile gives the tile back |
| Tiles.SplitInLevel | frontend/src/Map/utilities.js:180-184 | inside its level block an index splits into column `r / 2^z` and row `r % 2^z` |
| Tiles.ConvertTileToIndex | frontend/src/Map/utilities.js:159-167 | the accumulator loop returns `sum_{i<z} 4^i + 2^z * x + y` for any integers x, y |
| Tiles.ConvertIndexToTile | frontend/src/Map/utilities.js:169-185 | the scan, including the early return when `sum === index`, gives an on-grid tile whose index is the input |
| Tiles.SplitIsTileOf | frontend/src/Map/utilities.js:180-184 | the floor division and subtraction of the last step compute the decoded tile |
| Tiles.LevelSeven | frontend/src/__tests__/Map/testUtilities.js:15-77 | level 2 starts at 5, level 7 starts at 5461 and has 128 columns |
| Tiles.KnownIndexes | frontend/src/__tests__/Map/testUtilities.js:15-77 | indexes 0, 5, 13390, 16085 and 5461 decode to (0,0,0), (0,0,2), (61,121,7), (83,0,7) and (0,0,7) |
| Strings.FirstIndex | backend/src/app/dependencies.py:217 | the position found is a separator with none before it |
| Strings.FirstIndexAt | backend/src/app/dependencies.py:217 | a separator with none before it is the one found |
| Strings.Split | backend/src/app/dependencies.py:217 | `str.split(sep)` always returns at least one piece |
| Strings.SplitJoin | frontend/src/Map/ClustersMap.js:153 | joining pieces free of the separator and splitting again gives the pieces back |
| Strings.JoinSplit | backend/src/app/dependencies.py:216-217 | splitting and joining again with the same separator gives the text back |
| Strings.DigitChar | frontend/src/Map/ClustersMap.js:153 | a decimal digit is written as the character that reads back as it |
| Strings.Digits | frontend/src/Map/ClustersMap.js:153 | a natural number is written with decimal digits only |
| Strings.DigitsRoundTrip | backend/src/app/dependencies.py:217 | `int` reads back the value of the digits the client writes |
| Strings.NumberText | frontend/src/Map/ClustersMap.js:153 | a number is written as a non-empty text of digits and minus signs |
| Strings.ParseSigned | backend/src/app/dependencies.py:217 | once stripped, `int(value)` succeeds exactly on a numeral (digits, with single underscores allowed between two digits) after an optional sign |
| Strings.StripSurrounded | backend/src/app/dependencies.py:217 | `int` ignores any whitespace around a text that neither starts nor ends with whitespace |
| Strings.DigitsNumeral | backend/src/app/dependencies.py:217 | plain digits are a numeral worth their decimal value |
| Strings.ParseNumeral | backend/src/app/dependencies.py:217 | a stripped numeral reads as its value |
| Strings.ParseMinusNumeral | backend/src/app/dependencies.py:217 | a stripped minus sign and numeral read as the negated value |
| Strings.NumberTextStripped | frontend/src/Map/ClustersMap.js:153 | the client's text of a number has no whitespace around it |
| Strings.ParseSpaced | backend/src/app/dependencies.py:217 | whitespace around a number is ignored: `int(" 2")` is 2 |
| Strings.ParseUnderscored | backend/src/app/dependencies.py:217 | underscores between digits are ignored: `int("1_000")` is 1000 |
| Strings.ParseNumberText | backend/src/app/dependencies.py:216-217 | the server's `int` reads back every integer the client writes, negative ones included |
| Strings.ParseNegative | backend/src/app/dependencies.py:217 | a minus sign followed by digits reads back as the negated value |
| Tiling.GetIndexFromTile | backend/src/db_utilities/create_and_populate_clusters_collection.py:108-113 | the accumulator loop computes the same index as the viewer's `convertTileToIndex` |
| Tiling.ServerIndexDecodes | backend/src/db_utilities/create_and_populate_clusters_collection.py:108-113 | an index the server stores for an on-grid tile decodes in the viewer to that tile |
| Tiling.BoxOf | backend/src/db_utilities/create_and_populate_clusters_collection.py:308-310 | the box of the minima and maxima of x and y contains every entity |
| Tiling.BoxContains | backend/src/db_utilities/create_and_populate_clusters_collection.py:308-310 | every entity lies between the minima and maxima of the coordinates |
| Tiling.Cell | backend/src/db_utilities/create_and_populate_clusters_collection.py:322-329 | the floor division clamped by `min(..., number_of_tiles - 1)` always yields a cell inside the grid, the maximum included |
| Tiling.CellOf | backend/src/db_utilities/create_and_populate_clusters_collection.py:320-329 | every entity inside the box lands in a cell of the `n x n` grid |
| Tiling.GridOf | backend/src/db_utilities/create_and_populate_clusters_collection.py:316-332 | the grid holds `n` columns of `n` cells |
| Tiling.FillGrid | backend/src/db_utilities/create_and_populate_clusters_collection.py:316-332 | the loop appends each entity, in order, to the cell it falls in |
| Tiling.GridStep | backend/src/db_utilities/create_and_populate_clusters_collection.py:332 | adding one more entity changes only its own cell, by appending it |
| Tiling.Scan | backend/src/db_utilities/create_and_populate_clusters_collection.py:335-341 | the nested loop returns the largest cell size and the total size of all cells |
| Tiling.CellBelowMax | backend/src/db_utilities/create_and_populate_clusters_collection.py:338-340 | no cell holds more than the maximum the scan reports |
| Tiling.TotalIsCount | backend/src/db_utilities/create_and_populate_clusters_collection.py:343 | `assert tot_images == len(entities)` always holds: every entity is in exactly one cell |
| Tiling.TotalGrows | backend/src/db_utilities/create_and_populate_clusters_collection.py:332 | appending one entity to a cell raises the total by one |
| Tiling.CreateTiling | backend/src/db_utilities/create_and_populate_clusters_collection.py:304-351 | an empty list or a box of zero width or height is an error; otherwise the zoom returned is the least one whose cells hold at most 30 entities, with its grid |
| Tiling.PointInCell | backend/src/db_utilities/create_and_populate_clusters_collection.py:320-332 | entities at one point share one cell at every zoom |
| Tiling.NeverFits | backend/src/db_utilities/create_and_populate_clusters_collection.py:314-348 | with more than 30 entities at one point no zoom fits, so the `while True` loop never ends |
| Tiling.SomeAtPoint | backend/src/db_utilities/create_and_populate_clusters_collection.py:320-332 | a positive count at a point is witnessed by an entity at that point |
| ZoomLevels.TileStarts | backend/src/db_utilities/create_and_populate_clusters_collection.py:399-408 | the k-th tile of a zoom starts at `k * side`, ends inside the base grid, and `tile_x // side` gives back `k` |
| ZoomLevels.OneOwner | backend/src/db_utilities/create_and_populate_clusters_collection.py:399-408 | every base cell belongs to exactly one tile of each zoom |
| ZoomLevels.ParentCovers | backend/src/db_utilities/create_and_populate_clusters_collection.py:443-444 | the tile `(x // 2, y // 2)` of the previous zoom covers every base cell of tile `(x, y)` |
| ZoomLevels.HalfCovers | backend/src/db_utilities/create_and_populate_clusters_collection.py:443-444 | halving a tile coordinate gives the coarser tile that holds the same base coordinate |
| ZoomLevels.ColumnCellsMembers | backend/src/db_utilities/create_and_populate_clusters_collection.py:430-436 | an entity is gathered from a column exactly when it is in one of the cells read |
| ZoomLevels.BlockMembers | backend/src/db_utilities/create_and_populate_clusters_collection.py:430-436 | an entity is in a tile exactly when it is in one of the base cells below it |
| ZoomLevels.CellsIsProduct | backend/src/db_utilities/create_and_populate_clusters_collection.py:430-438 | counting one per cell read gives width times height |
| ZoomLevels.GatherColumn | backend/src/db_utilities/create_and_populate_clusters_collection.py:433-436 | the inner loop appends the cells of one column, in order, and counts them |
| ZoomLevels.EntitiesInTile | backend/src/db_utilities/create_and_populate_clusters_collection.py:430-438 | the nested loop gathers the block of base cells below the tile, and `assert count == 4 ** (max_zoom_level - zoom_level)` holds |
| ZoomLevels.Indexes | backend/src/db_utilities/create_and_populate_clusters_collection.py:497 | the list of indexes has one entry per entity, in order |
| ZoomLevels.OldReps | backend/src/db_utilities/create_and_populate_clusters_collection.py:470-474 | the previous representatives kept are no more than those there were |
| ZoomLevels.OldRepsMeaning | backend/src/db_utilities/create_and_populate_clusters_collection.py:470-474 | a previous representative is kept exactly when an entity of the tile has its index, and distinct indexes stay distinct |
| ZoomLevels.OldRepresentatives | backend/src/db_utilities/create_and_populate_clusters_collection.py:470-474 | the double loop with `break` keeps the previous representatives found in the tile, in their order |
| ZoomLevels.SmallTile | backend/src/db_utilities/create_and_populate_clusters_collection.py:479-493 | a tile with few entities has one representative per entity |
| ZoomLevels.SmallTileRepresentatives | backend/src/db_utilities/create_and_populate_clusters_collection.py:479-493 | each entity becomes a representative with no members, marked `in_previous` when a kept representative has its index |
| ZoomLevels.CountInSkips | backend/src/db_utilities/create_and_populate_clusters_collection.py:497-505 | an index absent from the entities does not change how many of them are counted |
| ZoomLevels.CountInAll | backend/src/db_utilities/create_and_populate_clusters_collection.py:497-505 | with distinct entity indexes, every index of a set drawn from them is counted once |
| ZoomLevels.MarkedCounts | backend/src/db_utilities/create_and_populate_clusters_collection.py:497-508 | the marked representatives are the entities whose index is a kept one, and every entity is shown once |
| ZoomLevels.SmallTileChecks | backend/src/db_utilities/create_and_populate_clusters_collection.py:497-508 | the assertions after a small tile hold: `in_previous` exactly for previous indexes, the marked count equals the kept count, and the member counts add up to the entities of the tile |
| ZoomLevels.RecordMeaning | backend/src/db_utilities/create_and_populate_clusters_collection.py:611-616 | the mapping gains every representative not yet present, with this tile, and keeps every earlier entry |
| ZoomLevels.RecordImages | backend/src/db_utilities/create_and_populate_clusters_collection.py:611-616 | the loop records each representative not yet mapped |
| ZoomLevels.FirstTileWins | backend/src/db_utilities/create_and_populate_clusters_collection.py:394-616 | over all steps an image is mapped exactly when some tile shows it, and to the first tile that does |
| ZoomLevels.CoarsestTile | backend/src/db_utilities/create_and_populate_clusters_collection.py:394-616 | since zooms are visited coarsest first, an image is mapped to a tile no finer than any tile showing it |
| ZoomLevels.FirstShowing | backend/src/db_utilities/create_and_populate_clusters_collection.py:394-616 | the first step that shows an image exists and is no later than any step that does |
| ZoomLevels.ColumnFromMembers | backend/src/db_utilities/create_and_populate_clusters_collection.py:236-242 | a column scan yields the index of every tile below the start row that is not in memory, and nothing else |
| ZoomLevels.PreviouslyInsertedIndexes | backend/src/db_utilities/create_and_populate_clusters_collection.py:231-244 | the loops as written: `break` leaves only the inner loop, so the list is cut at the limit only within a column |
| ZoomLevels.PreviouslyInsertedIndexesCorrected | backend/src/db_utilities/create_and_populate_clusters_collection.py:231-244 | the intended scan collects the missing tiles column by column and stops at `LIMIT_FOR_FETCH` |
| ZoomLevels.FillColumnPast | backend/src/db_utilities/create_and_populate_clusters_collection.py:243-244 | once the limit is reached, a further column is appended whole |
| ZoomLevels.FillAllPast | backend/src/db_utilities/create_and_populate_clusters_collection.py:236-244 | once the limit is reached, every later column is appended whole |
| ZoomLevels.FillColumnReaches | backend/src/db_utilities/create_and_populate_clusters_collection.py:239-244 | a column fills the list up to the limit or takes all its tiles |
| ZoomLevels.FillAllReaches | backend/src/db_utilities/create_and_populate_clusters_collection.py:236-244 | the scan collects at least the limit or every missing tile |
| ZoomLevels.FillAllSplit | backend/src/db_utilities/create_and_populate_clusters_collection.py:236-244 | scanning two runs of columns is scanning the first and carrying on with the second |
| ZoomLevels.Overflow | backend/src/db_utilities/create_and_populate_clusters_collection.py:236-244 | when the limit is reached before a non-empty column, the list ends longer than the limit |
| ZoomLevels.ColumnFromLength | backend/src/db_utilities/create_and_populate_clusters_collection.py:237 | with nothing in memory, a column from row `y` has `2^z - y` tiles |
| ZoomLevels.ColumnsFromShape | backend/src/db_utilities/create_and_populate_clusters_collection.py:236 | the scan visits `2^z - x` columns, the j-th being column `x + j` |
| ZoomLevels.FullColumns | backend/src/db_utilities/create_and_populate_clusters_collection.py:236-237 | from `(0, 0)` with nothing in memory there are `2^z` full columns |
| ZoomLevels.FetchOverflowAsWritten | backend/src/db_utilities/create_and_populate_clusters_collection.py:231-244 | at zoom 9 with nothing in memory the list as written exceeds `LIMIT_FOR_FETCH` |
| ZoomLevels.SquareOverflows | backend/src/db_utilities/create_and_populate_clusters_collection.py:231-244 | a 512 x 512 level with nothing in memory overflows the limit |
| ZoomLevels.FillColumnWithin | backend/src/db_utilities/create_and_populate_clusters_collection.py:239-244 | a column that fits under the limit is appended whole |
| ZoomLevels.FillAllWithin | backend/src/db_utilities/create_and_populate_clusters_collection.py:236-244 | columns that fit under the limit are appended whole |
| ZoomLevels.AgreeWithinLimit | backend/src/db_utilities/create_and_populate_clusters_collection.py:231-244 | when the missing tiles fit under the limit, the loops as written and the corrected scan agree |
| Prefetch.PushColumn | frontend/src/Map/utilities.js:100-108 | one column of the window: the tile itself, then the rows above and below it that exist, in the order the guards test them |
| Prefetch.ColumnUnrolled | frontend/src/Map/utilities.js:100-108 | the column is exactly the five guarded pushes of the source |
| Prefetch.GetTilesFromZoomLevel | frontend/src/Map/utilities.js:95-156 | the window is the centre column, then the columns to the left and right that exist, each as the guarded pushes build it |
| Prefetch.BlockUnrolled | frontend/src/Map/utilities.js:100-153 | the window is exactly the five guarded columns of the source |
| Prefetch.ColumnMembers | frontend/src/Map/utilities.js:100-108 | a tile is in a column exactly when it lies at one of the allowed row offsets and that row exists |
| Prefetch.BlockMembers | frontend/src/Map/utilities.js:95-156 | a tile is in the window exactly when both of its offsets are allowed and the row and column exist |
| Prefetch.NeighbourhoodMembers | frontend/src/Map/utilities.js:95-156 | around an on-grid tile the window is exactly the on-grid tiles of its zoom from one before to three after it in each direction |
| Prefetch.WindowStep | frontend/src/Map/utilities.js:101-108 | the five guards on one axis admit exactly the coordinates from `c - 1` to `c + 3` inside the grid |
| Prefetch.ColumnNoDup | frontend/src/Map/utilities.js:100-108 | no tile is pushed twice within a column |
| Prefetch.BlockNoDup | frontend/src/Map/utilities.js:100-153 | no tile is pushed twice within the window |
| Prefetch.NeighbourhoodNoDup | frontend/src/Map/utilities.js:95-156 | the window never lists a tile twice |
| Prefetch.ColumnFull | frontend/src/Map/utilities.js:100-108 | a column whose rows all exist has one tile per row offset |
| Prefetch.BlockFull | frontend/src/Map/utilities.js:100-153 | a window whose rows and columns all exist has five tiles per column |
| Prefetch.InteriorNeighbourhoodSize | frontend/src/Map/utilities.js:95-156 | away from the edges the window has 25 tiles |
| Prefetch.NeighbourhoodTestSizes | frontend/src/__tests__/Map/testUtilities.js:99-104 | the window of (1, 1, 1) has 4 tiles; the window of (5, 7, 5) has 25 tiles, not the 20 the test expects |
| Prefetch.Children | frontend/src/Map/utilities.js:69-85 | four children per tile when a finer level exists, none otherwise, the k-th child of the i-th tile at position `4i + k` |
| Prefetch.GetTilesFromNextZoomLevel | frontend/src/Map/utilities.js:69-85 | the loop pushes the four children of each tile, in order |
| Prefetch.ParentOfChild | frontend/src/Map/utilities.js:75-80 | each of the four children halves back to its parent |
| Prefetch.ChildOfParent | frontend/src/Map/utilities.js:75-80 | every tile of a finer zoom is one of the four children of its parent |
| Prefetch.ChildrenMembers | frontend/src/Map/utilities.js:69-85 | a tile is among the children of a level exactly when its parent is in that level |
| Prefetch.ChildHasParent | frontend/src/Map/utilities.js:69-85 | every child listed has its parent in the level |
| Prefetch.ParentHasChild | frontend/src/Map/utilities.js:69-85 | every tile whose parent is in the level is listed |
| Prefetch.ChildrenOnGrid | frontend/src/Map/utilities.js:69-85 | the children of on-grid tiles are on the grid of the next zoom |
| Prefetch.ChildrenNoDup | frontend/src/Map/utilities.js:69-85 | distinct tiles have distinct children, so the list has no repeats |
| Prefetch.PushSideColumn | frontend/src/Map/utilities.js:9-21 | one side of the ring: two finer tiles for each existing row of the window, then the corner tiles above and below when they exist |
| Prefetch.PushRow | frontend/src/Map/utilities.js:41-46 | the top or bottom of the ring: two finer tiles for each existing column of the window |
| Prefetch.PushSideColumnIf | frontend/src/Map/utilities.js:7-38 | a side of the ring is added exactly when its guard holds |
| Prefetch.PushRowIf | frontend/src/Map/utilities.js:39-56 | the top or bottom of the ring is added exactly when its guard holds |
| Prefetch.CollectBorder | frontend/src/Map/utilities.js:3-59 | the ring is the left side, the right side, the top and the bottom, each under its guard, and nothing when the next zoom does not exist |
| Prefetch.GetTilesFromNextZoomLevelAtBorder | frontend/src/Map/utilities.js:3-59 | the ring as written, with the bottom guard `tile_y + 3 < 2 ** zoom_level` |
| Prefetch.GetTilesAtBorder | frontend/src/Map/utilities.js:3-59 | the ring with the bottom guard `tile_y + 4 < 2 ** zoom_level` that the other three sides use |
| Prefetch.ColumnPairsShape | frontend/src/Map/utilities.js:9-14 | the finer tiles of a side stay in its column, in rows the window covers, strictly increasing |
| Prefetch.RowPairsShape | frontend/src/Map/utilities.js:41-46 | the finer tiles of a row stay in it, in columns the window covers, strictly increasing |
| Prefetch.ColumnPairsFull | frontend/src/Map/utilities.js:9-14 | away from the edges a side holds two tiles per row |
| Prefetch.RowPairsFull | frontend/src/Map/utilities.js:41-46 | away from the edges a row holds two tiles per column |
| Prefetch.SideColumnShape | frontend/src/Map/utilities.js:9-21 | a side of the ring lies in one finer column, from the row before the window to the row after it |
| Prefetch.SideColumnNoDup | frontend/src/Map/utilities.js:9-21 | a side of the ring lists no tile twice |
| Prefetch.SideColumnOnGrid | frontend/src/Map/utilities.js:9-21 | a side of an on-grid window lies on the finer grid |
| Prefetch.RowOnGrid | frontend/src/Map/utilities.js:41-46 | a top or bottom row of the ring lies on the finer grid |
| Prefetch.RowFacts | frontend/src/Map/utilities.js:41-46 | a top or bottom row lies in one finer row, under the window's columns, with no repeats |
| Prefetch.RingShape | frontend/src/Map/utilities.js:3-59 | every ring tile is one zoom finer, only when that zoom exists, and halves to a coarse tile just outside the window |
| Prefetch.RingNoDup | frontend/src/Map/utilities.js:3-59 | the ring lists no tile twice |
| Prefetch.FrameNoDup | frontend/src/Map/utilities.js:3-59 | four sides in distinct columns and rows share no tile |
| Prefetch.RingOnGrid | frontend/src/Map/utilities.js:3-59 | with the bottom guard of the other sides, every ring tile lies on the finer grid |
| Prefetch.LeftOnGrid | frontend/src/Map/utilities.js:7-22 | the left side lies on the finer grid |
| Prefetch.RightOnGrid | frontend/src/Map/utilities.js:23-38 | the right side lies on the finer grid |
| Prefetch.TopOnGrid | frontend/src/Map/utilities.js:39-47 | the top row lies on the finer grid |
| Prefetch.BottomOnGrid | frontend/src/Map/utilities.js:48-56 | with the guard `tile_y + 4 < 2 ** zoom_level` the bottom row lies on the finer grid |
| Prefetch.RingAvoidsChildren | frontend/src/Map/utilities.js:193-195 | no ring tile is a child of a window tile, so joining children and ring adds no repeats |
| Prefetch.RingSize | frontend/src/Map/utilities.js:3-59 | away from the edges the ring has 44 tiles |
| Prefetch.RingGuardsAgree | frontend/src/Map/utilities.js:48 | the two bottom guards differ only when `tile_y + 4 == 2 ** zoom_level` |
| Prefetch.BorderLeavesGrid | frontend/src/Map/utilities.js:48-53 | with the guard as written, window (0, 0, 2) under maximum zoom 3 puts the off-grid tile (0, 8, 3) in the ring, and its index equals that of (1, 0, 3), which is a child of the window |
| Prefetch.CornerBottomRow | frontend/src/Map/utilities.js:48-53 | the guard as written adds (0, 8, 3) to the ring of window (0, 0, 2) |
| Prefetch.CornerChild | frontend/src/Map/utilities.js:75-80 | (1, 0, 3) is a child of the window (0, 0, 2) |
| Funnel.Uncached | frontend/src/Map/utilities.js:216-220 | the tiles kept are exactly those missing from the cache, in order, never more than given |
| Funnel.IndexesAppend | frontend/src/Map/utilities.js:218 | pushing a tile appends its index |
| Funnel.IndexesToFetch | frontend/src/Map/utilities.js:215-221 | the loop pushes the index of each tile the cache does not hold, in order |
| Funnel.CollectFunnel | frontend/src/Map/utilities.js:192-212 | the funnel is the window, the next level (children then ring), the children of that, the window of the parent and the window of the grandparent |
| Funnel.CollectFine | frontend/src/Map/utilities.js:192-199 | the window, the next level and the level after, in order |
| Funnel.CollectCoarse | frontend/src/Map/utilities.js:201-212 | the windows of the parent and the grandparent, each only when that zoom exists |
| Funnel.GetTilesToFetch | frontend/src/Map/utilities.js:188-222 | the indexes of the funnel's tiles missing from the cache, with the ring's bottom guard as written |
| Funnel.GetTilesToFetchCorrected | frontend/src/Map/utilities.js:188-222 | the same with the bottom guard of the other sides |
| Funnel.GetTilesForTranslationTicker | frontend/src/Map/utilities.js:224-233 | the indexes of the window's tiles missing from the cache |
| Funnel.GetTilesForZoomTicker | frontend/src/Map/utilities.js:235-253 | the indexes of the window, its children and the parent's window, missing from the cache |
| Funnel.UncachedNoCache | frontend/src/Map/utilities.js:216-220 | with an empty cache every tile is kept |
| Funnel.UncachedNoDup | frontend/src/Map/utilities.js:216-220 | filtering keeps distinct tiles distinct |
| Funnel.IndexesNoDup | frontend/src/Map/utilities.js:218 | distinct on-grid tiles have distinct indexes |
| Funnel.FetchList | frontend/src/Map/utilities.js:215-221 | every index requested decodes to a listed tile missing from the cache, every such tile is requested, and distinct tiles give distinct indexes |
| Funnel.HalfOrigin | frontend/src/Map/utilities.js:202-204 | the parent of an on-grid tile is on the grid |
| Funnel.QuarterOrigin | frontend/src/Map/utilities.js:208-210 | the grandparent of an on-grid tile is on the grid |
| Funnel.WindowFacts | frontend/src/Map/utilities.js:95-156 | the window of an on-grid tile is at its zoom and on the grid |
| Funnel.ChildrenLevel | frontend/src/Map/utilities.js:69-85 | children are one zoom finer, and exist only below the maximum zoom |
| Funnel.NextLevelFacts | frontend/src/Map/utilities.js:193-195 | the next level is one zoom finer, only below the maximum, and on the grid with the corrected bottom guard |
| Funnel.CoarseFacts | frontend/src/Map/utilities.js:201-212 | the parent's window is one zoom coarser, the grandparent's two, both on the grid |
| Funnel.LevelsFacts | frontend/src/Map/utilities.js:192-212 | each of the five parts of the funnel lies at its own zoom |
| Funnel.FunnelZooms | frontend/src/Map/utilities.js:192-212 | every funnel tile is within two zooms of the window and no finer than the maximum zoom |
| Funnel.FiveLevels | frontend/src/Map/utilities.js:192-212 | five lists at five different zooms, each without repeats, join without repeats |
| Funnel.FunnelNoDup | frontend/src/Map/utilities.js:192-212 | the funnel never lists a tile twice |
| Funnel.FunnelOnGrid | frontend/src/Map/utilities.js:192-212 | with the corrected bottom guard every funnel tile is on the grid |
| Funnel.FetchIndexesCorrect | frontend/src/Map/utilities.js:188-222 | with the corrected guard the request holds no index twice, each index decodes to a funnel tile missing from the cache and no finer than the maximum zoom, and every such tile is requested |
| Funnel.GuardsAgree | frontend/src/Map/utilities.js:48 | the funnel as written equals the corrected one except when `tile_y + 4 == 2 ** zoom_level` |
| Prefetch.ChildrenNatural | frontend/src/Map/utilities.js:69-93 | the children of tiles without negative coordinates have none either |
| Prefetch.RingNatural | frontend/src/Map/utilities.js:3-58 | as written, no ring tile of an on-grid window has a negative coordinate |
| Prefetch.BottomNatural | frontend/src/Map/utilities.js:48-56 | the bottom row of the ring has no negative coordinate |
| Prefetch.BottomRowOffGrid | frontend/src/Map/utilities.js:48-56 | as written, when the window reaches the grid's last row and a finer level exists, the ring holds a tile below the finer grid |
| Prefetch.FirstRowPair | frontend/src/Map/utilities.js:48-56 | a ring row starting at an on-grid column holds that column's left child |
| Funnel.FunnelNatural | frontend/src/Map/utilities.js:192-212 | no funnel tile of an on-grid window has a negative coordinate |
| Funnel.FunnelOnGridAsWritten | frontend/src/Map/utilities.js:192-212 | the funnel as written lies on the grid exactly unless the window reaches the grid's last row and a finer level exists |
| Funnel.InteriorFunnelSize | frontend/src/Map/utilities.js:188-222 | away from the edges, with two finer and two coarser zooms, the funnel has `25 * 3 + (25 * 4 + 44) * 5` tiles |
| Funnel.CoarseSizes | frontend/src/Map/utilities.js:201-212 | away from the edges the two coarser windows hold 50 tiles |
| Funnel.FetchIndexesAsWritten | frontend/src/Map/utilities.js:188-222 | except on the row where the guards differ, the request as written equals the corrected one and has no repeats |
| Funnel.FunnelTestSize | frontend/src/__tests__/Map/testUtilities.js:82-94 | for (17, 18, 5) under maximum zoom 7 with an empty cache, 795 indexes are requested |
| Funnel.FunnelTestDistinct | frontend/src/__tests__/Map/testUtilities.js:90-92 | those 795 indexes are distinct |
| Funnel.SharedIndex | frontend/src/Map/utilities.js:218 | two listed tiles with one index make the request repeat an index |
| Funnel.FunnelDuplicatesAsWritten | frontend/src/Map/utilities.js:48 | for (0, 0, 2) under maximum zoom 3 the request as written repeats an index |
| Funnel.ZoomTickerWithinFunnel | frontend/src/Map/utilities.js:235-245 | every tile the zoom ticker asks for is in the funnel |
| Funnel.TickerFetchLists | frontend/src/Map/utilities.js:224-253 | the two ticker requests hold no repeats, each index decodes to a listed tile missing from the cache, and every such tile is requested |
| Dependencies.TouchedCounters | backend/src/app/dependencies.py:54-69 | after a pass the queried collection's counter is the maximum, every other counter drops by one but not below zero, no key appears or disappears, and "loaded exactly when the counter is positive" still holds |
| Dependencies.PassEventsMeaning | backend/src/app/dependencies.py:59-68 | a pass releases exactly the other collections whose counter was 1, and loads the queried one exactly when its counter was 0 |
| Dependencies.PassEventsDistinct | backend/src/app/dependencies.py:59-68 | no collection is loaded or released twice in one pass |
| Dependencies.PassEventsStep | backend/src/app/dependencies.py:59-69 | each step of the loop appends the events of one key |
| Dependencies.TouchedUpTo | backend/src/app/dependencies.py:59-69 | after `i + 1` keys the collections are those after `i` keys with the `i`-th key touched |
| Dependencies.TouchedAll | backend/src/app/dependencies.py:59-69 | touching every key in turn gives the result of a whole pass |
| Dependencies.CollectionNameGetter.constructor | backend/src/app/dependencies.py:17-41 | the getter starts with one fresh entry (counter 0, not loaded) for each dataset name plus suffix present in the database |
| Dependencies.CollectionNameGetter.Register | backend/src/app/dependencies.py:180-198 | a name present in the database and missing from the map is added fresh; anything else leaves the map alone |
| Dependencies.CollectionNameGetter.RegisterAll | backend/src/app/dependencies.py:178-198 | registering a list adds each missing name present in the database and keeps every entry there was |
| Dependencies.CollectionNameGetter.UpdateOne | backend/src/app/dependencies.py:60-69 | one step of the loop: the queried key is loaded if it was at 0 and set to the maximum; another key is released if it was at 1 and counted down |
| Dependencies.CollectionNameGetter.UpdateCounters | backend/src/app/dependencies.py:54-69 | the loop over all keys performs the pass of `TouchedCounters` and logs its loads and releases |
| Dependencies.CollectionNameGetter.Call | backend/src/app/dependencies.py:43-114 | a known name is returned and counts as a use; an unknown name gives `None` and changes nothing |
| Dependencies.Suffixed | backend/src/app/dependencies.py:39 | each dataset name gets the getter's suffix |
| Dependencies.RegisteredFacts | backend/src/app/dependencies.py:178-198 | registration keeps the old keys as a prefix, adds no key twice, and holds exactly the old keys and the listed names present in the database |
| Dependencies.Names | backend/src/app/dependencies.py:179 | the list of dataset names, in order |
| Dependencies.Listed | backend/src/app/dependencies.py:201-202 | the datasets returned are exactly the listed ones present in the database, in order |
| Dependencies.Updater.constructor | backend/src/app/dependencies.py:158-167 | given three distinct valid getters, the updater holds them, is valid and has no datasets yet |
| Dependencies.Updater.Refresh | backend/src/app/dependencies.py:169-205 | the three getters gain the missing names present in the database, with their suffixes, and lose none; no collection is loaded or released; the result is the listed datasets present in the database |
| Dependencies.ParseFields | backend/src/app/dependencies.py:217 | the list is parsed exactly when every field is an integer, and then holds each field's value |
| Dependencies.ParsePair | backend/src/app/dependencies.py:217 | two fields that are integers give the list of their values |
| Dependencies.SpacedListSplit | backend/src/app/dependencies.py:217 | `"1, 2".split(',')` gives `"1"` and `" 2"` |
| Dependencies.SpacedListParsed | backend/src/app/dependencies.py:216-217 | spaces after the commas are accepted: `"1, 2"` reads as [1, 2] |
| Dependencies.Texts | frontend/src/Map/ClustersMap.js:153 | the client writes each index as its decimal text |
| Dependencies.ParseJoined | backend/src/app/dependencies.py:216-217 | a non-empty list of integers the client joins with commas is parsed back to the same list |
| Dependencies.ParseTexts | backend/src/app/dependencies.py:217 | parsing the client's texts gives back the integers |
| Dependencies.EmptyFieldRejected | backend/src/app/dependencies.py:217 | a request with an empty field, the empty string included, is an error |
| Gets.Position | backend/src/app/gets.py:189-190 | `list.index` returns the first position holding the value |
| Gets.PositionOfElement | backend/src/app/gets.py:189-190 | in a list without repeats the value at `i` is found at `i` |
| Gets.ParametersDistinct | backend/src/CONSTANTS.py:35-36 | neither list of allowed parameters repeats a value |
| Gets.UmapIndex | backend/src/app/gets.py:184-192 | the pair is accepted exactly when both values are in the allowed lists, and then numbers a row below `8 * 6` |
| Gets.PairNumberOf | backend/src/app/gets.py:189-192 | with lists free of repeats the pair at positions `(i, j)` gets row `i * len(MIN_DISTS) + j` |
| Gets.IndexOfPair | backend/src/app/gets.py:184-192 | the i-th number of neighbours and the j-th minimum distance give row `i * 6 + j` |
| Gets.UmapIndexIsPair | backend/src/app/gets.py:189-192 | an accepted pair gets the row its positions number |
| Gets.Evens | backend/src/app/gets.py:200 | the even positions of the data, in order |
| Gets.Odds | backend/src/app/gets.py:201 | the odd positions of the data, in order |
| Gets.FindRow | backend/src/app/gets.py:195-198 | a row found has the number asked for; no row is found only when none has it |
| Gets.GetUmapData | backend/src/app/gets.py:178-204 | a plot comes back only for an allowed pair |
| Gets.Xs | backend/src/app/gets.py:200 | the x coordinates of the points, in order |
| Gets.Ys | backend/src/app/gets.py:201 | the y coordinates of the points, in order |
| Gets.UnflattenFlatten | backend/src/app/gets.py:200-201 | splitting stored points into even and odd positions gives back their x and y coordinates |
| Gets.ReadBackPlot | backend/src/app/gets.py:178-204 | reading the table the report writes succeeds exactly for the allowed pairs and returns the projection computed for that pair |
| Gets.FoundIsAt | backend/src/app/gets.py:195-198 | in a table whose k-th row is numbered k, asking for k finds that row |
| Gets.Range | backend/src/app/gets.py:168 | `list(range(a, b))` lists `a` to `b - 1` in order |
| Gets.BatchesCover | backend/src/app/gets.py:164-172 | the batches the loop queries are each non-empty and at most 16384 long, and together list every index below the limit, in order |
| Gets.RangeSplit | backend/src/app/gets.py:164-172 | two adjacent ranges make one |
| Gets.GetFirstTiles | backend/src/app/gets.py:154-175 | the results are the answers to the batches below `min(num_entities, 1365)`, in order |
| Gets.Answers | backend/src/app/gets.py:167-171 | one answer per batch, in order |
| Gets.OneQuery | backend/src/app/gets.py:161-172 | since 1365 is below 16384 the loop sends at most one query, for all indexes below the limit |
| Gets.FirstTilesAreCoarse | backend/src/app/gets.py:161 | the indexes below 1365 are exactly those of the on-grid tiles of zoom 0 to 5 |
| Gets.Truncate | backend/src/app/gets.py:98 | Python's `int` of a float rounds towards zero |
| Gets.GetTileFromImage | backend/src/app/gets.py:97-101 | nothing is returned exactly when the query found nothing; otherwise the first record with its numbers truncated |
| Gets.WholeTileKept | backend/src/app/gets.py:97-99 | a tile stored as whole numbers comes back as the same integers |
| Umap.Flatten | backend/src/report/create_and_populate_umap_collection.py:83 | the stored data lists each point's x then y, two numbers per point, in order |
| Umap.Rows | backend/src/report/create_and_populate_umap_collection.py:74-87 | one row per parameter pair, the k-th numbered k |
| Umap.GenerateScatterPlots | backend/src/report/create_and_populate_umap_collection.py:41-100 | an empty collection produces nothing; otherwise the nested loops produce exactly one row per pair, numbered in order |
| Umap.RowNumber | backend/src/report/create_and_populate_umap_collection.py:75-87 | the pair at positions `(i, j)` is written as row `i * 6 + j`, and that number divides back into `i` and `j` |
| Umap.RowIndexes | backend/src/report/create_and_populate_umap_collection.py:75-87 | the row numbers are `0, 1, 2, ...` and no row repeats |
| Umap.RowLengths | backend/src/report/create_and_populate_umap_collection.py:84 | `assert len(datapoint["data"]) == 2 * collection.num_entities` holds for every row |
| Embeddings.CheckLengths | backend/src/db_utilities/create_and_populate_embeddings_collection.py:94-98 | the loop succeeds exactly when every column but the embeddings has one entry per embedding |
| Embeddings.ModifyData | backend/src/db_utilities/create_and_populate_embeddings_collection.py:80-116 | the input is accepted exactly when both required columns are there, the embeddings form a matrix and every column has the right length; then there is one record per embedding, the i-th built from row `i` |
| Embeddings.RecordMeaning | backend/src/db_utilities/create_and_populate_embeddings_collection.py:105-114 | a record holds the index, the embedding under the vector field, `x` and `y` at 0 and every other column, and a later column of the same name wins |
| Report.GetTilesFromPrevZoomLevel | backend/src/report/tiling.py:141-150 | the window one level up around the halved tile, or nothing at level 0 |
| Report.GetTiles | backend/src/report/tiling.py:153-165 | the window, its children with the border ring, and their children, as the viewer computes them |
| Report.PrevLevelFacts | backend/src/report/tiling.py:141-150 | the window one level up is empty at level 0, lies one zoom coarser and on the grid |
| Report.FineLevelsFacts | backend/src/report/tiling.py:153-165 | around an on-grid tile `get_tiles` lists no tile twice and stays within two zooms below the window |
| Report.PlotTilesDistinct | backend/src/report/tiling.py:318-320 | the plot script's assertion holds: around (15, 18) at zoom 5 with maximum 7 no tile is listed twice |
| Metadata.FileList | backend/src/db_utilities/datasets.py:77-84 | the loop keeps the names of the entries that are files and not the minimap, in directory order |
| Metadata.KeptMeaning | backend/src/db_utilities/datasets.py:81-82 | a name is kept exactly when some entry with that name is a file other than `minimap.png` or `minimap.jpg`, and no more names are kept than there are entries |
| Metadata.Replace | backend/src/db_utilities/datasets.py:109 | replacing one character by another keeps the length |
| Metadata.JoinSplitReplaces | backend/src/db_utilities/datasets.py:109 | `d.join(s.split(c))` replaces every `c` in `s` by `d` |
| Metadata.ReplaceAt | backend/src/db_utilities/datasets.py:109 | a replacement splits at the first occurrence of the character |
| Metadata.RemoveSuffix | backend/src/db_utilities/datasets.py:109 | `removesuffix` drops the suffix exactly when the text ends with it, and otherwise changes nothing |
| Metadata.BestArtworksAuthorMeaning | backend/src/db_utilities/datasets.py:109 | the author is found exactly when the name has a hyphen, and is the second field without `.jpg`, underscores turned into spaces; a name without a hyphen raises |
| Metadata.AuthorBeforeSecondHyphen | backend/src/db_utilities/datasets.py:109 | for `number-author-rest` the author is the middle field with spaces for underscores |
| Metadata.Capitalize | backend/src/db_utilities/datasets.py:147 | on ASCII text `capitalize` keeps the length |
| Metadata.CapitalizeIdempotent | backend/src/db_utilities/datasets.py:147 | capitalising a capitalised text changes nothing |
| Metadata.Possessive | backend/src/db_utilities/datasets.py:157-159 | the possessive pass keeps the number of words |
| Metadata.AttachS | backend/src/db_utilities/datasets.py:157-159 | the loop appends `'s` to each word followed by a lone `s` |
| Metadata.Article | backend/src/db_utilities/datasets.py:162-164 | the article pass keeps the number of words |
| Metadata.ArticleMeaning | backend/src/db_utilities/datasets.py:162-164 | the first word is unchanged and each later word gets `l'` in front exactly when the already updated word before it is `l` |
| Metadata.AttachL | backend/src/db_utilities/datasets.py:162-164 | the loop, which reads the word it may have just changed, computes the article pass |
| Metadata.AttachStep | backend/src/db_utilities/datasets.py:162-164 | one step of the loop keeps its invariant |
| Metadata.AttachedPrefix | backend/src/db_utilities/datasets.py:163-164 | a step changes only the word after position `i` |
| Metadata.ArticleAttaches | backend/src/db_utilities/datasets.py:163-164 | after an `l` that is not last the next word gets the article |
| Metadata.ArticleSkips | backend/src/db_utilities/datasets.py:163-164 | any other word leaves the next one alone |
| Metadata.WithoutMeaning | backend/src/db_utilities/datasets.py:167-169 | filtering out a word keeps exactly the other words |
| Metadata.NoParticles | backend/src/db_utilities/datasets.py:167-169 | no lone `s` or `l` is left in the title |
| Metadata.DateMeaning | backend/src/db_utilities/datasets.py:151-171 | a date is found exactly when the last word is four digits, and is its value; the title is made from the other words, or from all of them when there is no date |
| Metadata.DigitsBelow | backend/src/db_utilities/datasets.py:152-153 | a text of `n` digits has a value below `10^n`, so a four-digit year is at most 9999 |
| Metadata.TitleLoops | backend/src/db_utilities/datasets.py:151-171 | splitting the third field by `-` and running the loops gives the title and date of `DateMeaning` |
| Metadata.TitleFromWords | backend/src/db_utilities/datasets.py:152-171 | the loops over a non-empty word list give its title and date |
| Metadata.TitleOf | backend/src/db_utilities/datasets.py:157-171 | the title is the capitalised join of the words after both passes and filters |
| Metadata.WikiArtItem | backend/src/db_utilities/datasets.py:142-171 | the record is built from the underscore fields of the name after the first |
| Metadata.FieldsMeaning | backend/src/db_utilities/datasets.py:129-171 | with no field the genre is empty, with at most one the author is empty, with at most two the title is empty and the date -1; the genre and author replace hyphens by spaces, the author is capitalised, and fields after the third are ignored |
| DatasetList.ParsedFlagsMeaning | backend/src/dataset_creation/add_dataset_to_list.py:11-50 | each flag is the value of its last occurrence, unset when absent; the database defaults when absent |
| DatasetList.Parsing | backend/src/dataset_creation/add_dataset_to_list.py:23-50 | the loop over the options computes the parsed flags |
| DatasetList.Names | backend/src/dataset_creation/add_dataset_to_list.py:75 | the names of the listed datasets, in order |
| DatasetList.UpsertedNames | backend/src/dataset_creation/add_dataset_to_list.py:74-94 | a listed name keeps the list of names; a new name is appended |
| DatasetList.UpsertedAppends | backend/src/dataset_creation/add_dataset_to_list.py:83-94 | a new dataset goes at the end, with the given fields and zoom levels -1, and the rest stays |
| DatasetList.UpsertedUpdatesFirst | backend/src/dataset_creation/add_dataset_to_list.py:75-82 | the first entry with the name gets the new fields and keeps its zoom levels; every other entry stays |
| DatasetList.UpsertedNoDup | backend/src/dataset_creation/add_dataset_to_list.py:74-94 | a list without repeated names keeps none |
| DatasetList.UpsertedIdempotent | backend/src/dataset_creation/add_dataset_to_list.py:74-94 | adding the same dataset twice is adding it once |
| DatasetList.DatasetsFile.constructor | backend/src/dataset_creation/add_dataset_to_list.py:71-72 | the file holds the datasets read |
| DatasetList.DatasetsFile.AddDataset | backend/src/dataset_creation/add_dataset_to_list.py:67-98 | a missing collate function, dataset class, directory or website name raises, with that key, and the list is unchanged; otherwise the dataset is updated in place or appended |
| NginxConf.Indent | backend/src/dataset_creation/generate_nginx_conf.py:26 | `"    " * level` is four spaces per level |
| NginxConf.KeyText | backend/src/dataset_creation/generate_nginx_conf.py:15-16 | a key starting with an ASCII digit loses that digit; any other key is kept |
| NginxConf.DepthConcat | backend/src/dataset_creation/generate_nginx_conf.py:26-28 | the nesting depth of two runs of lines adds up |
| NginxConf.BalancedConcat | backend/src/dataset_creation/generate_nginx_conf.py:13-43 | two balanced runs of lines make a balanced run |
| NginxConf.BalancedWrap | backend/src/dataset_creation/generate_nginx_conf.py:26-28 | a balanced body between an opening and a closing line is balanced |
| NginxConf.BalancedLeaf | backend/src/dataset_creation/generate_nginx_conf.py:43 | a directive line is balanced |
| NginxConf.DictLinesWellFormed | backend/src/dataset_creation/generate_nginx_conf.py:7-43 | the lines printed for an object are balanced, each is a directive or a brace line, and each is indented at least to its level |
| NginxConf.EntryLinesWellFormed | backend/src/dataset_creation/generate_nginx_conf.py:13-43 | the lines printed for one key, whatever its branch, are balanced and indented at least to their level |
| NginxConf.DirectiveWellFormed | backend/src/dataset_creation/generate_nginx_conf.py:39-43 | an indented directive is well formed |
| NginxConf.BlockWellFormed | backend/src/dataset_creation/generate_nginx_conf.py:26-28 | an indented block whose body is one level deeper is well formed |
| NginxConf.IndentGrows | backend/src/dataset_creation/generate_nginx_conf.py:27 | a deeper indent starts with the shallower one |
| NginxConf.Closing | backend/src/dataset_creation/generate_nginx_conf.py:28 | a closing line closes and does not open |
| NginxConf.WrapIndented | backend/src/dataset_creation/generate_nginx_conf.py:26-28 | a block's lines are all indented at least to its level |
| NginxConf.LowerText | backend/src/dataset_creation/add_location.py:42-44 | `lower()` changes each character on its own |
| NginxConf.ParsedFlagsMeaning | backend/src/dataset_creation/add_location.py:11-49 | parsing fails exactly when some `resized` value is neither y nor n, in either case; otherwise `resized` is set by the last such flag being y, and the name is set exactly when a name flag is given |
| NginxConf.ParsedFlagsFail | backend/src/dataset_creation/add_location.py:41-47 | parsing fails exactly when some `resized` value is neither y nor n |
| NginxConf.ParsedFlagsResized | backend/src/dataset_creation/add_location.py:41-45 | `resized` holds exactly when the last `resized` flag is y |
| NginxConf.ParsedFlagsName | backend/src/dataset_creation/add_location.py:37-38 | the name is set exactly when a name flag is given |
| NginxConf.ParsedFlagsStops | backend/src/dataset_creation/add_location.py:47 | after the first bad `resized` value the rest of the flags do not matter |
| NginxConf.Parsing | backend/src/dataset_creation/add_location.py:36-49 | the loop over the options computes the parsed flags, raising on the first bad `resized` value |
| NginxConf.Keys | backend/src/dataset_creation/add_location.py:58 | the keys of an object, in insertion order |
| NginxConf.AssignMeaning | backend/src/dataset_creation/add_location.py:58-66 | assigning a key makes it hold the value, leaves every other key alone, and appends the key only when it is new |
| NginxConf.AssignTwice | backend/src/dataset_creation/add_location.py:58-66 | assigning the same value twice is assigning it once |
| NginxConf.LocationBlockMeaning | backend/src/dataset_creation/add_location.py:57-67 | the new location sends the CORS header and aliases the directory, and has the `resized_images` rewrite exactly when `resized` is not set |
| NginxConf.AddLocationServes | backend/src/dataset_creation/add_location.py:52-69 | after the search every `locations` object serves the new location, no key is added or removed, and scalar entries are untouched |
| NginxConf.AddToEntryServes | backend/src/dataset_creation/add_location.py:54-69 | one entry keeps its key and kind and, when it is an object, serves the new location |
| NginxConf.AddLocationIdempotent | backend/src/dataset_creation/add_location.py:52-69 | adding the same location twice is adding it once |
| NginxConf.AddToEntryIdempotent | backend/src/dataset_creation/add_location.py:54-69 | the same holds entry by entry |
| NginxConf.BlockPrintable | backend/src/dataset_creation/add_location.py:57-67 | the new location can be printed by `recursive_parse` |
| NginxConf.AssignPrintable | backend/src/dataset_creation/add_location.py:58-66 | assigning a printable entry keeps an object printable |
| NginxConf.AddLocationPrintable | backend/src/dataset_creation/add_location.py:52-69 | a printable configuration stays printable after the location is added |
| NginxConf.AddToEntryPrintable | backend/src/dataset_creation/add_location.py:54-69 | the same holds entry by entry |
| Compose.WithVolumeMeaning | backend/src/dataset_creation/add_volume_to_nginx_service.py:43-47 | the service's other settings are kept; with a volume list the mount is appended only when missing, so a second run changes nothing; without one the list becomes the single mount without `../` |
| Compose.SecondRunMountsTwice | backend/src/dataset_creation/add_volume_to_nginx_service.py:43-47 | starting without volumes, two runs mount the directory twice, once without and once with `../` |
| Compose.WithVolumeCorrectedIdempotent | backend/src/dataset_creation/add_volume_to_nginx_service.py:43-47 | with the same mount text in both branches the update is idempotent and always adds the mount |
| Compose.DockerCompose.constructor | backend/src/dataset_creation/add_volume_to_nginx_service.py:79-80 | the file holds the services read |
| Compose.DockerCompose.SearchForNginxVolumes | backend/src/dataset_creation/add_volume_to_nginx_service.py:37-47 | only the `nginx` service changes, by the volume update; without one nothing changes |
| Compose.OnlyNginxChanges | backend/src/dataset_creation/add_volume_to_nginx_service.py:39-47 | every other service and the set of services are kept |
| Compose.FirstDirectoryMeaning | backend/src/dataset_creation/add_volume_to_nginx_service.py:30-34 | no directory is returned exactly when no directory flag is given, and otherwise the value of the first one |
| Compose.Parsing | backend/src/dataset_creation/add_volume_to_nginx_service.py:11-34 | the loop returns the value of the first directory flag, or nothing |
| Host.Trimmed | frontend/src/App.js:10-12 | exactly one trailing `/` is removed, if present |
| Host.UpToColonMeaning | frontend/src/App.js:15-22 | the scan stops just after the n-th colon, or runs off the end exactly when there are fewer than n colons |
| Host.ExtractHost | frontend/src/App.js:6-29 | the loop computes the host as written |
| Host.ScanStep | frontend/src/App.js:17-22 | one step of the scan consumes one character and counts it when it is a colon |
| Host.ScanEnd | frontend/src/App.js:17 | the scan stops once it has two colons or reaches the end |
| Host.HostIntendedMeaning | frontend/src/App.js:6-29 | the intended host ends in 443, preceded by the address up to its second colon, or by the whole address and one colon when it has fewer |
| Host.HostAgreement | frontend/src/App.js:24-28 | the loop as written gives the intended host except when the second colon is the last character |
| Host.SkipPlain | frontend/src/App.js:17-22 | characters that are not colons only move the scan along |
| Host.TakeColon | frontend/src/App.js:18-20 | a colon counts towards the two |
| Host.HostWithPort | frontend/src/App.js:6-29 | `scheme://host:port` becomes `scheme://host:443` |
| Host.SecondColonAt | frontend/src/App.js:17-22 | in `scheme://host:rest` the second colon is the one after the host |
| Host.HostWithoutPort | frontend/src/App.js:6-29 | `scheme://host` becomes `scheme://host:443` |
| Host.HostDoubleColon | frontend/src/App.js:24-28 | `scheme://host:` becomes `scheme://host::443` as written, and `scheme://host:443` as intended |
| Host.SecondColonLast | frontend/src/App.js:17-22 | in `scheme://host:` the scan ends exactly at the end |
| CardText.CapitalizeAll | frontend/src/Carousel/MainImageCard.js:38 | capitalising maps each word to one word |
| CardText.WordStartsUpper | frontend/src/Carousel/MainImageCard.js:38 | upper-casing the first character of each space-separated word keeps the length |
| CardText.NoSpaceWord | frontend/src/Carousel/MainImageCard.js:38 | a single word is capitalised by upper-casing its first character |
| CardText.StartsAfterSpace | frontend/src/Carousel/MainImageCard.js:38 | after a space a new word starts |
| CardText.CapitalizeWordsMeaning | frontend/src/Carousel/MainImageCard.js:38 | split, capitalise each word and join equals upper-casing every character that starts the text or follows a space, the rest unchanged |
| CardText.GenerateText | frontend/src/Carousel/MainImageCard.js:35-57 | the method's appends produce exactly the card text `Text(img)` that the lemmas below describe |
| CardText.TextOfNothing | frontend/src/Carousel/MainImageCard.js:35-57 | an image with no field gives an empty text |
| CardText.UnknownDateOmitted | frontend/src/Carousel/MainImageCard.js:49-52 | a date of -1 is left out as if there were no date |
| CardText.CountAppend | frontend/src/Carousel/MainImageCard.js:35-57 | newlines of two texts add up |
| CardText.CountAbsent | frontend/src/Carousel/MainImageCard.js:35-57 | a text without the character counts none |
| CardText.CapitalizeKeepsNewlines | frontend/src/Carousel/MainImageCard.js:38 | capitalising adds no newline |
| CardText.LineCount | frontend/src/Carousel/MainImageCard.js:37-47 | a present field ends its line with one newline; an absent one adds nothing |
| CardText.CaptionLineCount | frontend/src/Carousel/MainImageCard.js:53-54 | the caption adds no newline |
| CardText.DateLineCount | frontend/src/Carousel/MainImageCard.js:49-52 | the date adds a line exactly when it is present and not -1 |
| CardText.LinesCount | frontend/src/Carousel/MainImageCard.js:35-57 | the text has one newline per present author, title, genre and known date |
| CardText.CapitalizedNoNewline | frontend/src/Carousel/MainImageCard.js:38 | capitalising keeps a field present or absent and free of newlines |
| CardText.TextLineBreaks | frontend/src/Carousel/MainImageCard.js:35-57 | when no field holds a newline the text has exactly one line break per printed field other than the caption |
| CardText.TextEnds | frontend/src/Carousel/MainImageCard.js:37-54 | with an author the text starts with `Artist: `, and with a caption it ends with `AI Caption: ` and the caption |
| CardText.LinesSplit | frontend/src/Carousel/MainImageCard.js:35-57 | the text is the author line followed by the rest, which ends with the caption line |
| Captioning.Files | backend/src/captioning/captioning.py:36-38 | the file list holds exactly the names of the entries that are not directories, and no more names than entries |
| Captioning.ListFiles | backend/src/captioning/captioning.py:36-38 | the loop appends the non-directory names in directory order |
| Captioning.Prefix | backend/src/captioning/captioning.py:42 | `file.split(separator)[0]` is the longest start of the name without the separator |
| Captioning.CheckPrefixes | backend/src/captioning/captioning.py:41-43 | the check passes exactly when every name starts with digits before its first separator |
| Captioning.Insert | backend/src/captioning/captioning.py:46 | inserting into a sorted list keeps it sorted and adds exactly the element |
| Captioning.HeadBelow | backend/src/captioning/captioning.py:46 | the head of a sorted list stays below everything after an insertion behind it |
| Captioning.ConsSorted | backend/src/captioning/captioning.py:46 | a head below every later key keeps the list sorted |
| Captioning.SortByKey | backend/src/captioning/captioning.py:46 | the list is sorted by the number before the separator and is a permutation of the input |
| Captioning.PyBound | backend/src/captioning/captioning.py:67 | a Python slice bound, a negative one counted from the end, always falls within `[0, len]` |
| Captioning.DatasetForImages.constructor | backend/src/captioning/captioning.py:31-34 | a new dataset starts at offset 0 holding the given file list |
| Captioning.DatasetForImages.GetItem | backend/src/captioning/captioning.py:52-56 | item `idx` is file `idx`, reported with index `idx + start` |
| Captioning.DatasetForImages.DoSlicing | backend/src/captioning/captioning.py:65-67 | the offset becomes `start` and the list becomes the Python slice `[start:end]` |
| Captioning.OpenDataset | backend/src/captioning/captioning.py:31-47 | opening fails exactly when some file name does not start with digits; otherwise the files are sorted by that number and are the directory's files |
| Captioning.CheckRange | backend/src/captioning/captioning.py:110-117 | the range is accepted exactly when `start < len`, the end (defaulting to `len` for -1) is at most `len`, and `start < end` |
| Captioning.CheckRangeCorrected | backend/src/captioning/captioning.py:110-117 | the intended check also rejects a negative start |
| Captioning.ReportedIndexesCorrected | backend/src/captioning/captioning.py:52-67 | with the corrected check the slice has `end - start` files and item `i` is file `start + i`, so the reported index is the file's position |
| Captioning.NegativeStartAsWritten | backend/src/captioning/captioning.py:110-121 | as written, start -1 is accepted, the slice holds only the last file, and it is reported with index -1 instead of its position |
| Captioning.Collate | backend/src/captioning/captioning.py:70-80 | the batch becomes the list of images and the list of indexes, position by position |
| Captioning.CollateRoundTrip | backend/src/captioning/captioning.py:70-80 | zipping the two lists gives the batch back |
| ViewGeometry.Clamp | frontend/src/Map/ClustersMap.js:1349-1350 | `Math.max(Math.min(v, hi), lo)` lies within a non-empty `[lo, hi]`, leaves a value already inside unchanged, and is one of `v`, `lo`, `hi` |
| ViewGeometry.Round | frontend/src/Map/ClustersMap.js:499-501 | `Math.round` is within half a unit of its argument |
| ViewGeometry.MappersInverse | frontend/src/Map/ClustersMap.js:220-238 | mapping global to stage coordinates and back, or stage to global and back, returns the starting coordinate |
| ViewGeometry.NextZoom | frontend/src/Map/ClustersMap.js:1035 | the level of the tiles kept on stage never exceeds the maximum and is the current level, the next one or the maximum |
| ViewGeometry.ZoomStepKeeps | frontend/src/Map/ClustersMap.js:1951-1999 | a zoom step keeps the level in `[0, max]` and the depth in `(-1, 1)`; the level moves by one in the direction of the zoom only when depth plus delta reached plus or minus 1, and the depth is then 0; a depth that stays non-zero grew by exactly `delta` |
| ViewGeometry.ZoomClampIdle | frontend/src/Map/ClustersMap.js:1992-1996 | away from the two borders a depth clamped to plus or minus 1 never moves the level outside `[0, max]`, so the clamp of the level never acts |
| ViewGeometry.ScaleOf | frontend/src/Map/ClustersMap.js:383-391 | which branch of `scaleSprite` applies: unscaled exactly outside the background, `2^(depth-1)` at non-negative depth, `2^depth` at negative depth |
| ViewGeometry.LayerTestsAgree | frontend/src/Map/ClustersMap.js:561-562 | for a sprite not deeper than the level on stage, the test of `addSpriteToStage` (`zoom >= next`) and the test of `updateStage` at line 1128 (`zoom == next`) choose the same layer |
| ViewGeometry.FitSizeMeaning | frontend/src/Map/ClustersMap.js:393-415 | the fitted sprite keeps the artwork's aspect ratio, fits the maximal box and touches one of its sides |
| ViewGeometry.OriginTile | frontend/src/Map/ClustersMap.js:1042-1043 | the tile holding the stage's corner is a column or row of the grid |
| ViewGeometry.SpriteTile | frontend/src/Map/ClustersMap.js:1085-1090 | the tile of a sprite is a column or row of the grid |
| ViewGeometry.SpriteTileInside | frontend/src/Map/ClustersMap.js:1085-1090 | for a coordinate inside the real bounds the tile is the one whose interval contains it |
| ViewGeometry.PanClamps | frontend/src/Map/ClustersMap.js:1762-1777 | a pan moves to the clamped target position, which stays within the limits |
| ViewGeometry.PanShiftRemaps | frontend/src/Map/ClustersMap.js:1770-1785 | the shift handed to `updateStage` is exactly how far every artwork's stage coordinate moves when the camera pans |
| ViewGeometry.PanShiftScales | frontend/src/Map/ClustersMap.js:1766-1777 | the pixel shift is the camera's change of position converted to pixels, clamped or not |
| ViewGeometry.ZoomAnchors | frontend/src/Map/ClustersMap.js:1977-1989 | zooming by factor `f` about a global point keeps that point at the same stage position (before the clamp) |
| ViewGeometry.FinalPosition | frontend/src/Map/ClustersMap.js:1345-1350 | the final camera position for an image lies within the limits |
| ViewGeometry.FinalPositionCentres | frontend/src/Map/ClustersMap.js:1345-1348 | when the clamp does not act, the image lands centred on the stage |
| ViewGeometry.MomentumVelocity | frontend/src/Map/ClustersMap.js:1646-1650 | the momentum velocity is bounded by the maximal velocity times the factor |
| ViewGeometry.Ceil | frontend/src/Map/ClustersMap.js:1371 | `Math.ceil` is the least integer not below its argument |
| ViewGeometry.StepsCover | frontend/src/Map/ClustersMap.js:1374-1375 | the computed number of equal steps leads exactly from the start to the final position |
| ViewGeometry.TickerStepApproaches | frontend/src/Map/ClustersMap.js:1396-1408 | each tick of the translation ticker leaves one step fewer to the final position |
| ViewGeometry.LastFrame | frontend/src/Map/ClustersMap.js:1385-1387 | the ticker has reached the final position once no step is left |
| ViewGeometry.ZoomTickKeeps | frontend/src/Map/ClustersMap.js:1456-1467 | a zoom ticker step keeps level and depth valid and adds exactly `delta` to level plus depth |
| Viewport.Unrequested | frontend/src/Map/ClustersMap.js:1056-1062 | an index stays in the fetch list exactly when its tile is neither cached nor pending |
| Viewport.SelectUnrequested | frontend/src/Map/ClustersMap.js:1058-1062 | the filter keeps the indexes whose tile is neither cached nor pending |
| Viewport.StoredKeys | frontend/src/Map/ClustersMap.js:171-179 | after a response the cache holds its old tiles plus every tile of the response |
| Viewport.StoredKeeps | frontend/src/Map/ClustersMap.js:171-179 | a cached tile absent from the response keeps its data |
| Viewport.StoredLatest | frontend/src/Map/ClustersMap.js:173-176 | a tile of the response holds the data of its last occurrence |
| Viewport.EmptyStage | frontend/src/Map/ClustersMap.js:588-613 | after `reset` the stage is consistent, holds no sprite and the pool holds `SPRITEPOOLSIZE` sprites |
| Viewport.FullPool | frontend/src/Map/ClustersMap.js:74 | the initial pool holds `SPRITEPOOLSIZE` distinct sprites |
| Viewport.Moved | frontend/src/Map/ClustersMap.js:1137-1165 | re-positioning a sprite, afresh or by a shift, never changes which artwork it shows |
| Viewport.AddedConsistent | frontend/src/Map/ClustersMap.js:470-578 | adding a new artwork keeps the stage consistent |
| Viewport.AddedHolds | frontend/src/Map/ClustersMap.js:470-569 | a new artwork takes the last sprite of the pool and records its information, layer and texture flag; a texture is asked for exactly when it lies near the stage |
| Viewport.AddedFrames | frontend/src/Map/ClustersMap.js:470-578 | adding an artwork removes none and leaves every other artwork's record, layer and texture alone |
| Viewport.Updated | frontend/src/Map/ClustersMap.js:1126-1234 | updating one artwork keeps the stage consistent and touches no other artwork |
| Viewport.UpdatedConsistent | frontend/src/Map/ClustersMap.js:1126-1234 | the updated stage is consistent |
| Viewport.UpdatedFrames | frontend/src/Map/ClustersMap.js:1126-1234 | the update keeps every artwork on stage and every other artwork's record, layer and texture |
| Viewport.TextureStep | frontend/src/Map/ClustersMap.js:1179-1234 | near the stage a texture is flagged and requested unless it already was; away from it a request in flight is aborted and the flag cleared; a request always comes with the flag |
| Viewport.Refresh | frontend/src/Map/ClustersMap.js:1126-1234 | updating an artwork on stage keeps the stage consistent, re-positions it, puts it in the background exactly when it sits at the level on stage (unless at the deepest level at rest), follows the texture rule and touches nothing else |
| Viewport.Newcomer | frontend/src/Map/ClustersMap.js:470-578 | a new artwork gets the last pool sprite, its stage position, the layer its zoom level calls for, and a texture request exactly when it lies near the stage |
| Viewport.PlacedItem | frontend/src/Map/ClustersMap.js:1113-1125 | an artwork is placed unless it is new and the pool is empty, in which case the stage is unchanged |
| Viewport.PlacedTile | frontend/src/Map/ClustersMap.js:1107-1125 | placing a tile's artworks keeps the stage consistent |
| Viewport.PlacedTiles | frontend/src/Map/ClustersMap.js:1102-1239 | placing the visible tiles keeps the stage consistent |
| Viewport.Unavailable | frontend/src/Map/ClustersMap.js:1237-1238 | at most one unavailable tile is counted per visible tile |
| Viewport.UnavailableNone | frontend/src/Map/ClustersMap.js:1237-1238 | no tile is unavailable exactly when every visible tile is cached |
| Viewport.PlacedItemProgress | frontend/src/Map/ClustersMap.js:1113-1169 | a placed artwork is on stage in its layer, nothing else came on stage, nothing left it and every other artwork is untouched |
| Viewport.PlacedTileProgress | frontend/src/Map/ClustersMap.js:1107-1236 | after a tile every artwork of its data is on stage in its layer and nothing else changed; when the pool ran dry it is empty and nothing left the stage |
| Viewport.PlacedTilesProgress | frontend/src/Map/ClustersMap.js:1102-1239 | after the visible tiles every artwork of their cached data is on stage in its layer and nothing else changed; when the pool ran dry it is empty and nothing left the stage |
| Viewport.Settles | frontend/src/Map/ClustersMap.js:1078-1239 | removing what is not kept and then placing the visible data leaves on stage exactly the kept artworks and that data |
| Viewport.Window | frontend/src/Map/ClustersMap.js:1035-1043 | the tile of the stage's corner is on the grid at the level kept on stage |
| Viewport.WantedFacts | frontend/src/Map/ClustersMap.js:1047-1054 | no wanted tile has a negative coordinate; all lie on the grid exactly unless the caller is an interaction whose window reaches the grid's last row with a level below it |
| Viewport.BatchMeaning | frontend/src/Map/ClustersMap.js:1047-1068 | every index sent is the index of an uncached wanted tile, names an uncached tile and was not pending; every on-grid wanted tile neither cached nor pending is sent; when all wanted tiles are on the grid every index names a wanted tile |
| Viewport.NaturalIndex | frontend/src/Map/utilities.js:159-167 | a tile without negative coordinates has a non-negative index |
| Viewport.InteractionAsksOutsideFunnel | frontend/src/Map/ClustersMap.js:1047-1048 | as written, a window reaching the grid's last row from row 3 or lower lists an off-grid tile whose index is that of an on-grid tile the funnel does not list, and that index is requested |
| Viewport.InteractionAsksOutsideFunnelExample | frontend/src/Map/ClustersMap.js:1047-1048 | window (0, 4, 3) under maximum zoom 5 requests tile (1, 0, 4), which it does not want |
| Viewport.OffGridListed | frontend/src/Map/utilities.js:188-199 | as written, the off-grid bottom-row tile is in the interaction funnel |
| Viewport.AliasIndex | frontend/src/Map/utilities.js:159-167 | row 2^(z+1) of column 2x numbers like row 0 of column 2x + 1 |
| Viewport.AliasNotListed | frontend/src/Map/utilities.js:188-212 | the aliased on-grid tile is not in the funnel |
| Viewport.AliasNotInNext | frontend/src/Map/utilities.js:3-93 | the aliased tile is neither a child of the window nor a ring tile |
| Viewport.IndexListed | frontend/src/Map/utilities.js:214-221 | a listed uncached tile has its index in the list |
| Viewport.Velocity | frontend/src/Map/ClustersMap.js:1628-1629 | a velocity times the elapsed time (at least 1 ms) is the displacement |
| Viewport.Recorded | frontend/src/Map/ClustersMap.js:1622-1630 | the newest velocity comes last and the oldest is dropped once more than `NUM_OF_VELOCITIES` are kept |
| Viewport.Sampled | frontend/src/Map/ClustersMap.js:1612-1638 | the first sample of a gesture only records the position; later ones record the velocity and add the distance to the total movement |
| Viewport.TotalWithin | frontend/src/Map/ClustersMap.js:1738-1743 | the sum of velocities each within `[lo, hi]` lies between `n * lo` and `n * hi` |
| Viewport.Fling | frontend/src/Map/ClustersMap.js:1727-1748 | a fling starts exactly when the gesture moved far enough, ended within 100 ms and recorded a velocity; its velocity is the average |
| Viewport.Panned | frontend/src/Map/ClustersMap.js:1762-1781 | a pan changes only the camera position, which stays within the limits |
| Viewport.Glide | frontend/src/Map/ClustersMap.js:1668-1689 | a momentum glide changes only the camera position, which stays within the limits |
| Viewport.GlidingStep | frontend/src/Map/ClustersMap.js:1666-1702 | one momentum frame moves by the rounded decayed velocity and stops at a corner |
| Viewport.GlidingEnds | frontend/src/Map/ClustersMap.js:1640-1706 | after 60 frames or a corner the glide is complete |
| Viewport.Limits | frontend/src/Map/ClustersMap.js:1420-1429 | the effective size is positive and the limits contain the real bounds symmetrically |
| Viewport.LimitsScale | frontend/src/Map/ClustersMap.js:1422-1423 | the effective size times `2^(level + depth)` is the real extent |
| Viewport.ZoomKeepsAnchor | frontend/src/Map/ClustersMap.js:1977-1989 | moving the camera toward the anchor by `2^(-delta)` keeps the anchor at the same stage position |
| Viewport.SizedWidths | frontend/src/Map/ClustersMap.js:1980 | changing level plus depth by `d` scales the effective width by `2^(-d)` |
| Viewport.SizedSpan | frontend/src/Map/ClustersMap.js:1422 | the effective width at level plus depth `z` spans the real extent over `2^z` |
| Viewport.ZoomedAtBorderKeeps | frontend/src/Map/ClustersMap.js:1926-1948 | at a border a zoom only resets the depth to 0, keeps the position and leaves the camera valid |
| Viewport.ZoomedAboutKeeps | frontend/src/Map/ClustersMap.js:1951-1999 | a zoom away from the borders takes the level and depth of the zoom step, leaves the camera valid and moves it toward the anchor |
| Viewport.SpriteUnderMouse | frontend/src/Map/ClustersMap.js:1898-1922 | the topmost sprite under the mouse (the first among equal z-indexes) is found, or none when no such sprite is above -100 |
| Viewport.ZoomAnchor | frontend/src/Map/ClustersMap.js:1957-1968 | the anchor is the global position of a sprite under the mouse, or the mouse position mapped to global coordinates when there is none |
| Viewport.SumVelocities | frontend/src/Map/ClustersMap.js:1738-1743 | the loop sums the recorded velocities |
| Viewport.WheelDelta | frontend/src/Map/ClustersMap.js:1873 | the wheel delta is `-deltaY / 1000` clamped to `[-0.12, 0.12]` |
| Viewport.FinalWindow | frontend/src/Map/ClustersMap.js:1319-1352 | the camera position that centres an image lies within the limits |
| Viewport.NoShift | frontend/src/Map/ClustersMap.js:1362-1364 | a camera already at the final position needs no pixel shift |
| Viewport.SameLevel | frontend/src/Map/ClustersMap.js:1434-1439 | zero zoom steps means the camera is already at the target level with depth 0 |
| Viewport.ZoomProgress | frontend/src/Map/ClustersMap.js:1457-1459 | before the last frame the accumulated steps stay short of the total depth |
| Viewport.ZoomFrameKeeps | frontend/src/Map/ClustersMap.js:1456-1489 | a zoom ticker frame keeps the camera valid, ends at the target level with depth 0 on the last frame, moves level plus depth by `delta` otherwise, and moves toward the target location |
| Viewport.ClustersMap.constructor | frontend/src/Map/ClustersMap.js:53-148 | the map starts with an empty stage, cache and pending set and no gesture |
| Viewport.ClustersMap.ChildrenCount | frontend/src/Map/ClustersMap.js:1257-1260 | foreground and background children together are the sprites on stage, and no sprite is in both |
| Viewport.ClustersMap.Reset | frontend/src/Map/ClustersMap.js:588-624 | `reset` empties stage, cache and pending set, refills the pool and clears the gesture |
| Viewport.ClustersMap.AddSpriteToStage | frontend/src/Map/ClustersMap.js:470-578 | the stage becomes the stage with the new artwork; nothing else changes |
| Viewport.ClustersMap.RemoveSprite | frontend/src/Map/ClustersMap.js:1001-1029 | the sprite returns to the pool and every record of the artwork is dropped; nothing else changes |
| Viewport.ClustersMap.TextureArrived | frontend/src/Map/ClustersMap.js:535-545 | an arrived texture ends its request and leaves the sprite flagged as loaded |
| Viewport.ClustersMap.ScheduleFetch | frontend/src/Map/ClustersMap.js:1056-1068 | the batch is the unrequested indexes and they all become pending |
| Viewport.ClustersMap.MarkPending | frontend/src/Map/ClustersMap.js:1064-1068 | every index of the batch becomes pending |
| Viewport.ClustersMap.FetchArrived | frontend/src/Map/ClustersMap.js:171-179 | a response stores its tiles in the cache and releases their pending indexes |
| Viewport.ClustersMap.RemoveInvisible | frontend/src/Map/ClustersMap.js:1078-1096 | afterwards the stage holds exactly the kept artworks, each still as it was |
| Viewport.ClustersMap.UpdateSprite | frontend/src/Map/ClustersMap.js:1126-1234 | the stage becomes the refreshed stage |
| Viewport.ClustersMap.PlaceItem | frontend/src/Map/ClustersMap.js:1113-1169 | placing one artwork gives the stage and success of `PlacedItem` |
| Viewport.ClustersMap.PlaceTile | frontend/src/Map/ClustersMap.js:1107-1236 | the loop over a tile's data places every artwork, or reports an empty pool |
| Viewport.ClustersMap.WantedIndexes | frontend/src/Map/ClustersMap.js:1045-1053 | each caller lists the indexes of exactly its wanted tiles that are not cached, in order |
| Viewport.ClustersMap.RequestTiles | frontend/src/Map/ClustersMap.js:1035-1073 | with `getTilesToFetch` as written for an interaction: every index sent is the index of an uncached wanted tile and names an uncached tile that was not pending; every on-grid wanted tile neither cached nor pending is sent; when all wanted tiles are on the grid every index names one; the batch becomes pending |
| Viewport.ClustersMap.PlaceCached | frontend/src/Map/ClustersMap.js:1104-1107 | a cached tile is placed and a missing one is skipped |
| Viewport.ClustersMap.PlaceVisible | frontend/src/Map/ClustersMap.js:1099-1239 | the loop over the visible tiles places them and counts the unavailable ones |
| Viewport.ClustersMap.AddVisible | frontend/src/Map/ClustersMap.js:1099-1247 | every artwork of the cached visible tiles is on stage in its layer and the count of unavailable tiles is recorded, unless the pool ran dry |
| Viewport.ClustersMap.UpdateStage | frontend/src/Map/ClustersMap.js:1031-1261 | the fetch batch is that of `RequestTiles` for the window; the stage then holds exactly the kept artworks and the visible data, in their layers |
| Viewport.ClustersMap.Restage | frontend/src/Map/ClustersMap.js:1031-1261 | `updateStage` changes only the stage and the pending set, which only grows |
| Viewport.ClustersMap.MouseDown | frontend/src/Map/ClustersMap.js:1708-1724 | a press starts a new gesture at the mouse position, unless the handler is disabled |
| Viewport.ClustersMap.TouchStart | frontend/src/Map/ClustersMap.js:1798-1810 | a touch starts a new gesture at the touched position |
| Viewport.ClustersMap.UpdateVelocities | frontend/src/Map/ClustersMap.js:1612-1638 | the gesture records the new sample |
| Viewport.ClustersMap.PanBy | frontend/src/Map/ClustersMap.js:1762-1781 | the camera pans, and the returned shift is the pan in pixels |
| Viewport.ClustersMap.HandleMove | frontend/src/Map/ClustersMap.js:1754-1787 | a move records a sample and pans the camera against the movement |
| Viewport.ClustersMap.MouseMove | frontend/src/Map/ClustersMap.js:1790-1795 | a mouse move acts only while the button is down |
| Viewport.ClustersMap.TouchMove | frontend/src/Map/ClustersMap.js:1814-1818 | a touch move acts only while not pinching |
| Viewport.ClustersMap.Momentum | frontend/src/Map/ClustersMap.js:1640-1706 | the momentum ticker glides the camera as the glide describes |
| Viewport.ClustersMap.GlideFrames | frontend/src/Map/ClustersMap.js:1656-1704 | the ticker runs until 60 frames or a corner |
| Viewport.ClustersMap.MouseUp | frontend/src/Map/ClustersMap.js:1727-1752 | releasing the button ends the gesture and starts a glide exactly when the gesture flings |
| Viewport.ClustersMap.TouchEnd | frontend/src/Map/ClustersMap.js:1820-1846 | the end of a pinch clears the recorded velocities and counts the pinch down; otherwise a glide starts exactly when the gesture flings, with the factor fitted to the stage width |
| Viewport.ClustersMap.PinchStart | frontend/src/Map/ClustersMap.js:1849-1853 | a pinch counts up to at most 2 and restarts its scale at 1 |
| Viewport.ClustersMap.HandleZoom | frontend/src/Map/ClustersMap.js:1924-2004 | a zoom takes the level and depth of the zoom step; at a border it only resets the depth, otherwise it zooms about the sprite or the point under the mouse |
| Viewport.ClustersMap.ZoomAtBorder | frontend/src/Map/ClustersMap.js:1926-1948 | at a border the camera becomes the border camera |
| Viewport.ClustersMap.ZoomAbout | frontend/src/Map/ClustersMap.js:1951-2002 | away from the borders the camera zooms about the anchor |
| Viewport.ClustersMap.Pinch | frontend/src/Map/ClustersMap.js:1857-1867 | a pinch zooms by its change of scale exactly when the scale is non-zero, the change exceeds 0.0001 and the map is not already at the deepest level zooming in |
| Viewport.ClustersMap.MouseWheel | frontend/src/Map/ClustersMap.js:1869-1890 | a large mouse-wheel step zooms in 0.01 increments, counted with `Math.ceil`; a trackpad or small step zooms once |
| Viewport.ClustersMap.TranslationTicker | frontend/src/Map/ClustersMap.js:1355-1418 | the translation ticker does nothing below one pixel; otherwise it ends at the final position after `ceil(shift / PIXEL_STEP)` frames |
| Viewport.ClustersMap.Travel | frontend/src/Map/ClustersMap.js:1383-1415 | the ticker loop reaches the final position |
| Viewport.ClustersMap.ZoomTicker | frontend/src/Map/ClustersMap.js:1432-1498 | the zoom ticker ends at the target level with depth 0 after `ceil(abs(depth to go) / DEPTH_STEP)` frames |

## Left out

- Drawing is not modelled: PIXI containers, textures, filters, blur, the minimap, the
  spinner, the sprite pulse and the Hammer and DOM event wiring. A sprite is the number of
  its slot in the pool. Texture loading is reduced to the loaded flag and the request in
  flight.
- Sprite sizes are not modelled. The resize that `updateStage` applies through
  `scaleSprite` when the zoom changes is left out. The size rule is modelled by
  `ViewGeometry.FitSizeMeaning`. `ViewGeometry.ScaleOf` models which branch of
  `scaleSprite` applies (unscaled, `2^(depth-1)` or `2^depth`); the factors themselves
  have a real exponent and are not computed.
- The z-index and the screen box of each sprite are inputs (`SpriteBox`) to
  `Viewport.SpriteUnderMouse` and `Viewport.ClustersMap.HandleZoom`.
- `Math.round` pixel snapping is modelled only where it decides something: a texture
  request and the glide steps.
- Floating point is not modelled. Coordinates are exact reals, so rounding effects of
  JavaScript numbers, such as the trackpad test `deltaY % 1`, are not captured.
- `2 ** (zoomLevel + depth)` has a real exponent. It is the parameter `exp2`, and only
  its positivity is assumed through `Viewport.Positive`.
- `Math.sqrt` of the movement is the parameter `distance`, whose square the caller
  supplies.
- `Date.now()` is the parameter `now`.
- The lru-cache holding the tiles is a map that never evicts. Its bound of 12000 entries
  is not modelled.
- Promises, tickers and `setTimeout` are not modelled.
  - A ticker or a glide runs to completion inside one method.
  - Events that would interleave with it are not modelled.
  - Neither is a dataset switch that stops it.
  - Neither is `stopMomentumTranslationTicker`.
  - The wheel's 6 ms pauses between zoom steps are not modelled.
- `moveToImage`, `finalStepsOfMoveToImage` and `fetchFirstTiles` are not modelled; they
  only chain the tickers and the network. The tickers they drive are modelled as
  `Viewport.ClustersMap.ZoomTicker` and `Viewport.ClustersMap.TranslationTicker`.
- Viewport.ClustersMap.FetchArrived: only a successful response is modelled. A failed
  request leaves its indexes pending, as the code at ClustersMap.js:183-186 does.
- Viewport.PlacedItem: a new artwork that finds the pool empty stops the placement and
  leaves the stage as it was. The source would go on with an `undefined` sprite and fail.
- Viewport.ProperScreen: screen and sprite sizes are assumed positive, the screen wider
  and higher than a sprite, and the real bounds non-empty.
- Captioning.DatasetForImages.GetItem: requires a non-negative index. The data loader
  only asks for `0 .. len - 1`, so Python's negative indexing is not modelled.
- Captioning.SortByKey: proves the result sorted by key and a permutation of the input.
  It does not prove the stability of Python's sort.
- The LLaVA captioning model, image loading and the output file of `captioning.py` are
  not modelled.
- CardText.CapitalizeWords: `toUpperCase` is modelled for ASCII letters only. Other
  characters are kept.
- NginxConf.KeyText: `isdigit()` is read as ASCII digits only. A key starting with
  another Unicode digit, such as `²` or `٣`, keeps that character in the model, where
  Python drops it, and so such a key is not recognised as `locations` either.
- Metadata.Capitalize: `str.capitalize` is modelled for ASCII letters only. Python maps
  every Unicode letter and can change the length (`"ß"` becomes `"Ss"`, `"éCOLE"`
  becomes `"École"`); the model keeps non-ASCII characters and the length.
- Strings.ParseInt: `int()` is modelled on ASCII text. The six ASCII whitespace
  characters are stripped and `_` between digits is accepted, as in Python. Other Unicode
  whitespace and non-ASCII decimal digits, which Python also accepts, make the model
  report an error.
- Dependencies.ParseFields: inherits the ASCII reading of `int()` from `Strings.ParseInt`,
  so a field with non-ASCII digits or whitespace is an error in the model.
- Metadata.DateMeaning: `isdigit()` is read as ASCII digits only. Python's `isdigit` also
  accepts other Unicode digits, such as superscripts, which the model does not treat as a
  date.
- Captioning.CheckPrefixes: `isdigit()` is read as ASCII digits only, so a prefix of
  non-ASCII digits fails the check in the model but passes in Python.
- Tiling.CreateTiling: the source doubles the grid with no bound. The model stops and
  reports an error after `bound` doublings. `Tiling.NeverFits` shows entities that never
  fit.
- The shuffle of the entities in `create_tiling` is not modelled.
- The k-means branch of `create_zoom_levels` is not modelled (floating-point clustering),
  and neither are its insert and flush of tiles to the database. Only the tile
  enumeration, the parent lookup, the small-tile branch, its checks and `images_to_tile`
  are modelled.
- Milvus queries, inserts and schemas are not modelled. Query results are parameters of
  the members that use them.
- The UMAP reduction is the parameter `reduce` of `Umap`.
- `COUNTER_MAX_VALUE` is the parameter `counterMax` of `Dependencies`. It comes from
  `app/CONSTANTS.py`, which is not part of this model.
- The locks of `dependencies.py` are not modelled. The counters are updated one request
  at a time.
- Three classes of `dependencies.py` are not modelled: `UMAPCollectionGetter`,
  `DatasetCollectionInfoGetter` and `Embedder`. They only hand out a database collection
  or call the embedding model, and keep no counter.
- NginxConf.AddLocation: `recursive_search_of_locations` updates the JSON tree in place.
  The model returns the new tree as a value, so aliasing between subtrees is not
  captured.
- The check in `add_location.py`'s main block that rejects an empty name or an empty
  directory is not modelled; only the parsing of the `resized` flag is.
- JSON and YAML reading and writing, `getopt` and `argparse` boilerplate and file I/O
  are not modelled. A `sys.exit` after a failed check is an `Err` result; the process
  itself is not modelled.
- Compose.Parsing, NginxConf.Parsing and DatasetList.Parsing: the `-h`/`--help` option,
  which prints the usage and exits in all three `parsing()` functions, is not modelled.
  With `-h` among the options the source stops there, while the models go on reading the
  remaining options.

## Notes on the code

- The repository's own test (frontend/src/__tests__/Map/testUtilities.js:99-104) expects
  20 tiles from `getTilesFromZoomLevel(5, 7, 5)`. The code lists 25: the window is
  clamped into the grid, not cut. The model follows the code.
- `fetchTiles` (frontend/src/Map/ClustersMap.js:183-186) only logs a failed request. The
  requested indexes stay pending, so those tiles are never asked for again while the map
  stays on that dataset. The model follows the code.

## Findings

| source | as written | input that shows it | evidently intended | confidence | as-written member | corrected member |
|---|---|---|---|---|---|---|
| frontend/src/Map/utilities.js:48 | the bottom row of the border ring is added when `tile_y + 3 < 2^zoom` (the same guard is at backend/src/report/tiling.py:48), one row more than the other sides allow | window (0, 0) at zoom 2 with maximum zoom 3: the ring holds tile (0, 8) at zoom 3, below the 8-row grid; its index equals that of tile (1, 0) at zoom 3, so the fetch list repeats an index | the guard `tile_y + 4 < 2^zoom` of the other sides, which keeps the ring on the grid and the list free of repeats | high (not executed) | Prefetch.BorderLeavesGrid, Funnel.FunnelDuplicatesAsWritten, Viewport.InteractionAsksOutsideFunnel | Funnel.GetTilesToFetchCorrected, Funnel.FetchIndexesCorrect |
| frontend/src/App.js:24-28 | an address whose host ends in a colon with no port keeps that colon and gets a second one before 443 | `http://h:` becomes `http://h::443` | `http://h:443`, the scheme and host with port 443 | medium (not executed) | Host.HostDoubleColon | Host.HostIntendedMeaning |
| backend/src/captioning/captioning.py:110-121 | the range checks of `inference` accept a negative start | start -1 and end -1 over two or more files: the slice holds only the last file, which is reported with index -1 instead of its position | a negative start rejected, so every file is reported with its position in the sorted list | medium (not executed) | Captioning.NegativeStartAsWritten | Captioning.CheckRangeCorrected, Captioning.ReportedIndexesCorrected |
| backend/src/db_utilities/create_and_populate_clusters_collection.py:236-244 | the `break` on reaching `LIMIT_FOR_FETCH` leaves only the inner loop, and the outer loop goes on with the next column | zoom 9 with no tile held in memory: 261952 indexes are listed, more than the limit of 200000 | the search stops once the list reaches the limit | high (not executed) | ZoomLevels.FetchOverflowAsWritten | ZoomLevels.PreviouslyInsertedIndexesCorrected |
| backend/src/dataset_creation/add_volume_to_nginx_service.py:43-47 | a service without volumes gets the mount `dir:...`, while one with volumes gets `../dir:...` and is compared against that text | a run on a service without volumes followed by a second run with the same directory mounts the directory twice, once with and once without `../` | the same mount text in both branches, so a second run changes nothing | high (not executed) | Compose.SecondRunMountsTwice | Compose.WithVolumeCorrectedIdempotent |
