# tile_tools in Dafny

A model of the integer tile-grid logic of `tile_tools`, a tool that downloads
web-map tiles for a bounding box and a range of zoom levels, stores them as
`{out}/{job}/{z}/{x}/{y}.png`, and stitches the tiles of one zoom level into a
single image with its world file.

The model has four parts, one module each, plus three small support modules.

- **Tiles** (`tile.dfy`): the `Tile` class.
  - Coordinates are constant. The image payload is a mutable field.
  - The TMS row `y_tms`.
  - The Bing quadtree key. The `QuadTree` loop, which works from the highest bit down, is proved equal to `QuadKey`, defined recursively as the parent tile's key followed by one digit. `DecodeQuadKey` is its inverse.
  - The relative path `{z}/{x}/{y}.png` and the full path under a job directory, with a parser `ParseTilePath` that reads a path back into its tile.
- **TileSets** (`tileset.dfy`): the `TileSet` class.
  - Latitude clamping to ±85.05112877980659.
  - Columns and rows of a zoom, between the two corner tiles that `deg2num` gives.
  - `pop_tileset`: the nested loops that create one fresh tile per column and row of every zoom. Columns are the outer loop, rows the inner one.
- **Downloads** (`download.dfy`): the `TileDownloadJob` class.
  - The partition of all tiles into `downloads` and `exists`, by whether their file is on disk.
  - The counters of `get_tiles`/`fetch`.
  - The image each fetch leaves on a tile.
  - The loop that saves every tile holding an image, clears its payload and appends it to `exists`.
- **Stitching** (`stitch.dfy`): the `TileStitchJob` class.
  - The canvas size `256·|cols| × 256·|rows|`.
  - Each tile's paste offset `256·(x − start.x), 256·(y − start.y)`.
  - The loop over the tiles of the zoom, failing on an unknown zoom or a missing tile file.
  - The two output files.
- **Support**: `Text` (Python's `str()` of an integer, its inverse, and POSIX `os.path.join`), `FileSystem` (the set of file paths that exist) and `Wrappers` (`Option`, `Result`).

The world outside the program becomes parameters:
- The disk is a `Disk` object holding the set of existing file paths.
- The provider's answers are a sequence of `Outcome`s, one per tile of `downloads`, in order: a body, an HTTP error code, or a transport failure.
- The bytes of `blank.png` are an `Option` that is `None` when the file cannot be read.
- `deg2num` is a function-valued field of the tile set.

Choices where the model departs from the code's surface:
- The `exists` list is named `existing`.
- The keys of the `counts` dictionary are an enumeration `Counter`, one constructor per key: "download", "exists", "attempted", "found", "not_found" and "blocked".
- Inner loops are separate methods so that each loop carries its own invariants:
  - `GenAllZoomLists`, `GenZoomRange`, `GenNextZoom` and `GenZoomLists`, module-level methods that take the file test as a function value and build the two lists that `GenDownloadLists` then stores in `downloads` and `existing`;
  - `PopZoom` and `PopColumn`;
  - the fetch loop and the save loop of `get_tiles`, as `FetchAll`, `SaveFetched`, `SaveNext` and `SaveTile`.

Behaviour of the code that the model keeps as written:
- Tiles of a zoom are enumerated column by column: x outer, y inner.
- A 404 gives the tile the placeholder only when `blank.png` can be read. Otherwise the exception is swallowed by `finally: return tile` and the tile keeps its image.
- A non-empty body is what is saved: `if tile.image` is Python truthiness. An empty body from a successful fetch is counted as found but never saved.
- A zoom whose box is inverted, so that it has no column or no row, has no tiles and a canvas of zero width or height. Its stitch fails, because the world file divides by the canvas size.

## Model

| member | source | states |
|---|---|---|
| Tiles.Tile.constructor | tile_tools/tile_tools.py:38-42 | The tile has the given coordinates and no image, and its stored path is the `{z}/{x}/{y}.png` of those coordinates. |
| Tiles.Tile.YTms | tile_tools/tile_tools.py:44-48 | The TMS row lies in `[0, 2^z)` exactly when the Slippy row does, and flipping it back gives the Slippy row. |
| Tiles.QuadKey | tile_tools/tile_tools.py:50-63 | The quadtree key of a zoom-z tile has exactly z characters, each a digit 0 to 3. |
| Tiles.Tile.QuadTree | tile_tools/tile_tools.py:50-63 | The digit-by-digit loop, from the highest bit down, builds exactly `QuadKey(x, y, z)`, the key defined from the parent tile's key. |
| Tiles.Bit | tile_tools/tile_tools.py:57-60 | The mask test `(v & (1 << k)) != 0` of the loop, read in two's complement as Python does for negative values too: bit k of v, a 0 or a 1. |
| Tiles.BitValue | tile_tools/tile_tools.py:57-60 | Bit k of v is the parity of v shifted right by k, that is of v divided by 2^k rounding down. |
| Tiles.QuadKeyAt | tile_tools/tile_tools.py:55-62 | Position k of the key, counted from the coarsest level, is the digit of bit z−1−k of x plus twice bit z−1−k of y, which is what the loop appends at step k. |
| Tiles.AppendDigit | tile_tools/tile_tools.py:56-62 | The child tile that a digit d selects below tile (a, b) has as its key the parent's key followed by d. |
| Tiles.DecodeStep | tile_tools/tile_tools.py:56-62 | Reading one more digit doubles the parent's column and row and adds the digit's x bit and y bit. |
| Tiles.DecodeQuadKeyOfTile | tile_tools/tile_tools.py:50-63 | For every tile inside the `2^z × 2^z` grid, decoding its quadtree key gives back its column and row. |
| Tiles.DecodeChild | tile_tools/tile_tools.py:56-62 | When a parent tile's key decodes to the parent, the key of each of its four children decodes to that child. |
| Tiles.QuadKeyChild | tile_tools/tile_tools.py:56-62 | The key of a tile is the key of its parent, the tile at half its column and row, followed by the digit of its position within the parent. |
| Tiles.ChildKey | tile_tools/tile_tools.py:56-62 | When a key without its last digit is the key of a tile, the key is the key of that tile's child which the last digit selects. |
| Tiles.ChildInGrid | tile_tools/tile_tools.py:50-63 | The child that a digit selects below a tile of the zoom-n grid lies in the zoom-(n+1) grid. |
| Tiles.QuadKeyOfDecoded | tile_tools/tile_tools.py:50-63 | Every string of digits 0 to 3 decodes to a tile inside the grid of its length, and that tile's key is the string. So keys and grid tiles correspond one to one. |
| Tiles.TilePath | tile_tools/tile_tools.py:100-101 | `os.path.join` of the zoom, the column and `{y}.png` is exactly `{z}/{x}/{y}.png`, since no component is empty, absolute or slash-terminated. |
| Tiles.ParseFileNameOf | tile_tools/tile_tools.py:101 | The file name `{y}.png` reads back as the row y, negative rows included. |
| Tiles.SplitAtSlash | tile_tools/tile_tools.py:101 | Cutting `u/v` at its first slash gives back u and v when u has no slash, as `str()` of an integer never does. |
| Tiles.ParsePartsOf | tile_tools/tile_tools.py:100-101 | The three components printed for a tile read back as that tile. |
| Tiles.ParseLayout | tile_tools/tile_tools.py:100-101 | The string `{z}/{x}/{y}.png` parses back to the tile (x, y, z). |
| Tiles.ParseTilePathRoundTrip | tile_tools/tile_tools.py:100-101 | The relative path of a tile parses back to that tile, so the path determines the tile. |
| Tiles.Tile.FullPath | tile_tools/tile_tools.py:103-104 | The full path of a tile ends with the tile's relative path `{z}/{x}/{y}.png`. |
| Tiles.FullPathInjective | tile_tools/tile_tools.py:103-104 | Under one output directory and job name, two tiles with the same full path are the same tile. |
| Text.IntStr | tile_tools/tile_tools.py:101 | `str()` of an integer is non-empty, contains no slash and starts with a minus sign or a digit. |
| Text.ParseIntStr | tile_tools/tile_tools.py:101 | Reading back the decimal form of any integer gives the integer. |
| Text.IntStrInjective | tile_tools/tile_tools.py:101 | Different integers print differently. |
| Text.JoinStep | tile_tools/tile_tools.py:101 | One step of POSIX `os.path.join`: an absolute component replaces the path; a relative one is appended, after at most one added separator. |
| Text.JoinStepEndsWith | tile_tools/tile_tools.py:101 | Whatever the path, one join step ends with the component joined. |
| Text.Join | tile_tools/tile_tools.py:100-104 | `os.path.join(a, *parts)` is at least as long as the last part, and is that part when it is absolute. |
| Text.JoinEndsWith | tile_tools/tile_tools.py:104 | A join of one or more parts ends with the last part. |
| Text.JoinRelative | tile_tools/tile_tools.py:101 | Joining a relative component appends it after a separator, and adds no separator when the path is empty or already ends with one. |
| Text.JoinPlain | tile_tools/tile_tools.py:101 | Joining three plain components, none empty, absolute or slash-terminated, puts exactly one slash between each. |
| TileSets.TileSet.CheckNorth | tile_tools/tile_tools.py:133-136 | The clamped northern edge is at most 85.05112877980659. It equals the input when the input is at or below the limit, and equals the limit otherwise. |
| TileSets.TileSet.CheckSouth | tile_tools/tile_tools.py:138-141 | The clamped southern edge is at least −85.05112877980659. It equals the input when the input is at or above the limit, and equals the limit otherwise. |
| TileSets.Range | tile_tools/tile_tools.py:154 | `range(lo, hi)` has `hi − lo` elements (none when `hi ≤ lo`), the i-th being `lo + i`. |
| TileSets.RangeMembers | tile_tools/tile_tools.py:153-157 | v is in `range(lo, hi)` exactly when `lo ≤ v < hi`. |
| TileSets.RangeNoDup | tile_tools/tile_tools.py:153-157 | A range lists no value twice. |
| TileSets.TileSet.TopLeft | tile_tools/tile_tools.py:162-163 | The north-west corner's tile is `deg2num(n, w)`; with a projection numbering columns eastwards and rows southwards and a box that is not inverted, its column and row are at most those of the south-east corner's tile. |
| TileSets.TileSet.BottomRight | tile_tools/tile_tools.py:159-160 | The south-east corner's tile is `deg2num(s, e)`; under the same conditions its column and row are at least those of the north-west corner's tile. |
| TileSets.TileSet.Cols | tile_tools/tile_tools.py:153-154 | A column is listed exactly when it lies between the top-left and bottom-right columns, both included. |
| TileSets.TileSet.Rows | tile_tools/tile_tools.py:156-157 | A row is listed exactly when it lies between the top-left and bottom-right rows, both included. |
| TileSets.Column | tile_tools/tile_tools.py:148-149 | The inner loop over the rows yields one coordinate per row, in row order, all in the given column and zoom. |
| TileSets.GridLength | tile_tools/tile_tools.py:147-149 | The grid of a zoom has `len(cols) · len(rows)` tiles. |
| TileSets.GridAt | tile_tools/tile_tools.py:147-149 | Position `i·len(rows) + j` of the grid holds column i and row j, so columns are the outer loop. |
| TileSets.GridMembers | tile_tools/tile_tools.py:147-149 | A coordinate is in the grid exactly when it has the grid's zoom, a listed column and a listed row. |
| TileSets.GridNoDup | tile_tools/tile_tools.py:147-149 | With distinct columns and distinct rows, the grid lists no coordinate twice. |
| TileSets.TileSet.constructor | tile_tools/tile_tools.py:114-131 | The fields are as given and the bounding box is clamped. Every zoom in `[zoomMin, zoomMax]`, and no other, holds the grid of that zoom, made of fresh tiles without images. |
| TileSets.TileSet.PopTileset | tile_tools/tile_tools.py:143-151 | The result has exactly the zooms of the range. Each zoom holds fresh, image-less tiles whose coordinates are the column-outer grid of that zoom. |
| TileSets.TileSet.PopZoom | tile_tools/tile_tools.py:146-150 | The tiles of one zoom are fresh, have no image, and have the coordinates of that zoom's grid, in order. |
| TileSets.TileSet.PopColumn | tile_tools/tile_tools.py:148-149 | The tiles of one column are fresh, have no image, and have that column's coordinates, in row order. |
| TileSets.TileCount | tile_tools/tile_tools.py:143-157 | A zoom of a tile set has one tile per column and row. |
| TileSets.BoxHasTiles | tile_tools/tile_tools.py:143-163 | With such a projection and a box that is not inverted, every zoom has at least one tile. |
| TileSets.TileOrder | tile_tools/tile_tools.py:145-150 | The tile at position `i·len(rows) + j` of a zoom is the one at column i and row j. |
| TileSets.TilesDistinct | tile_tools/tile_tools.py:143-151 | No coordinate, and so no tile object, appears twice within a zoom. |
| TileSets.TileBounds | tile_tools/tile_tools.py:143-163 | Every tile listed under a zoom has that zoom and lies between the zoom's top-left and bottom-right corners. |
| TileSets.TilesTagged | tile_tools/tile_tools.py:145-150 | Each zoom lists distinct tile objects, all carrying that zoom. |
| TileSets.TilesInWorld | tile_tools/tile_tools.py:143-163 | When both corners of a zoom lie in the `2^z` world grid, so do all its tiles and their TMS rows. |
| Downloads.AllTilesZooms | tile_tools/tile_tools.py:208-209 | A tile met while running over zooms lo..hi carries one of those zooms. |
| Downloads.AllTilesDistinct | tile_tools/tile_tools.py:208-209 | Running over all zooms meets no tile object twice. |
| Downloads.OnDisk | tile_tools/tile_tools.py:203-211 | The file test of the partition: `test_file(tile.full_path(self))` as a function of the tile, over the files on disk. |
| Downloads.OnDiskExactly | tile_tools/tile_tools.py:203-211 | The file test holds for a tile exactly when the tile's full path is among the files on disk. |
| Downloads.FilterNextZoom | tile_tools/tile_tools.py:208-214 | Partitioning one more zoom appends that zoom's tiles of each side to the lists built so far. |
| Downloads.FilterPrefix | tile_tools/tile_tools.py:209-214 | Testing one more tile appends it to exactly the side its test selects. |
| Downloads.FilterAppend | tile_tools/tile_tools.py:208-214 | Partitioning a concatenation is partitioning each part and concatenating the results. |
| Downloads.FilterSides | tile_tools/tile_tools.py:211-214 | The two sides together hold every tile exactly as often as the input does. |
| Downloads.FilterSidesStep | tile_tools/tile_tools.py:211-214 | Testing one more tile keeps the two sides together a permutation of the tiles tested. |
| Downloads.FilterPartition | tile_tools/tile_tools.py:211-216 | The two sides are a permutation of the input, split in two, so their lengths add up to its length. |
| Downloads.FilterMembers | tile_tools/tile_tools.py:211-214 | A tile is on a side exactly when it is in the input and its file test selects that side. |
| Downloads.FilterNoDup | tile_tools/tile_tools.py:211-214 | A side of a duplicate-free input has no duplicates. |
| Downloads.FilterAll | tile_tools/tile_tools.py:211-214 | When the test holds for every tile, every tile goes to the existing side and none to the download side. |
| Downloads.NothingToDownload | tile_tools/tile_tools.py:201-216 | When every tile's file is on disk, nothing is to be downloaded and every tile is found existing. |
| Downloads.TileDownloadJob.constructor | tile_tools/tile_tools.py:191-199 | The job name is the tile set's folder. `downloads` and `existing` are the missing and present sides of all tiles, in enumeration order, and `downloads` is duplicate-free. The counts hold just their two lengths, which add up to the number of tiles. |
| Downloads.TileDownloadJob.GenDownloadLists | tile_tools/tile_tools.py:201-216 | Every tile of every zoom, in order, is appended to `downloads` when its file is missing and to `existing` when it is present. Then "download" and "exists" are set to the two lengths. |
| Downloads.GenAllZoomLists | tile_tools/tile_tools.py:208-214 | For the zooms lo..hi of a zoom map, lowest first, each tile is appended to the missing list when its file is absent and to the present list when it exists. |
| Downloads.GenZoomRange | tile_tools/tile_tools.py:208-214 | Starting from empty lists, the zooms lo..hi, lowest first, give exactly the missing and the present sides of all their tiles, in order. |
| Downloads.GenNextZoom | tile_tools/tile_tools.py:208-214 | Running one more zoom extends both lists by exactly that zoom's share of each side. |
| Downloads.GenZoomLists | tile_tools/tile_tools.py:209-214 | The tiles of one zoom, in order, are appended to the missing or the present list, as their file test selects. |
| Downloads.Classify | tile_tools/tile_tools.py:234-248 | An outcome counts as found exactly when the body was read, as blocked exactly on HTTP 403, and as not found exactly on HTTP 404. |
| Downloads.AfterFetch | tile_tools/tile_tools.py:233-250 | After a fetch the tile holds the body on success, or the placeholder on a 404 when it could be read. After a 404 without a readable placeholder, a 403 or any other failure it keeps what it had. |
| Downloads.Tally | tile_tools/tile_tools.py:233-250 | One fetch raises "attempted" by one and at most one of found, not_found and blocked, lowers none, and changes no other key. |
| Downloads.TallyAll | tile_tools/tile_tools.py:259 | A run of fetches keeps the set of keys. |
| Downloads.TallyAllCounts | tile_tools/tile_tools.py:233-259 | A run raises "attempted" by its length and each of found, not_found and blocked by the number of outcomes of that kind, and leaves the other keys alone. |
| Downloads.Reset | tile_tools/tile_tools.py:252-255 | After the reset the four fetch counters are present. |
| Downloads.ResetTally | tile_tools/tile_tools.py:233-259 | After a reset and a run, "attempted" is the number of fetches, found, not_found and blocked count the outcomes of their kind and sum to at most "attempted", the keys are the old keys plus the four, and the other counters are unchanged. |
| Downloads.CountsPartition | tile_tools/tile_tools.py:238-248 | Every outcome is of exactly one kind (found, not found, blocked or ignored), so the four counts add up to the number of outcomes. |
| Downloads.Afters | tile_tools/tile_tools.py:259 | The images after the run: one per tile, each the image its own fetch leaves. |
| Downloads.HasImage | tile_tools/tile_tools.py:262 | `if tile.image` holds exactly when the tile holds a non-empty payload. |
| Downloads.Cleared | tile_tools/tile_tools.py:262-265 | After the save step the tile holds no image; a tile that held one is set to `None`, and any other keeps its value. |
| Downloads.Saved | tile_tools/tile_tools.py:259-266 | Every tile the save loop appends to `existing` is one of the tiles it ran over. |
| Downloads.SavedHolders | tile_tools/tile_tools.py:259-266 | Every tile holding an image is appended to `existing`. |
| Downloads.SavedOnlyHolders | tile_tools/tile_tools.py:262-266 | Only a tile holding an image is appended to `existing`; with SavedHolders, a tile is saved exactly when it holds an image. |
| Downloads.SavedPrefix | tile_tools/tile_tools.py:259-266 | Running the save loop over one more tile appends that tile exactly when it holds an image. |
| Downloads.SavedFilesStep | tile_tools/tile_tools.py:260-264 | Running the save loop over one more tile adds its file to the disk exactly when it holds an image. |
| Downloads.SavedOnlyFoundOrNotFound | tile_tools/tile_tools.py:233-266 | Starting from tiles without images, no more tiles are saved than were found or not found. |
| Downloads.SavedStep | tile_tools/tile_tools.py:262-266 | One more tile processed extends the saved tiles by that tile, and the files on disk by its file, exactly when it holds an image. |
| Downloads.FilesOfAppend | tile_tools/tile_tools.py:264 | Saving one more tile adds exactly its file. |
| Downloads.SavedAll | tile_tools/tile_tools.py:262-266 | When every tile holds an image, every tile is saved, in order. |
| Downloads.FilesOfMembers | tile_tools/tile_tools.py:260-264 | Each saved tile's file is among the files written. |
| Downloads.AllFoundLeavesNothing | tile_tools/tile_tools.py:201-266 | When every fetch brings a non-empty body and the files written are on disk, partitioning those tiles afresh leaves nothing to download. |
| Downloads.TileDownloadJob.Fetch | tile_tools/tile_tools.py:233-250 | One fetch tallies its outcome into the counters and leaves on the tile the image `AfterFetch` gives. |
| Downloads.TileDownloadJob.FetchAll | tile_tools/tile_tools.py:233-259 | Fetching every tile of `downloads` once, in order, tallies all outcomes and leaves on each tile the image of its own fetch. |
| Downloads.TileDownloadJob.SaveTile | tile_tools/tile_tools.py:260-266 | A tile holding a non-empty image gets its file written, loses its payload and is appended to `existing`. Any other tile changes nothing. |
| Downloads.TileDownloadJob.SaveFetched | tile_tools/tile_tools.py:259-266 | The tiles holding an image are appended to `existing` in order and their files are added to the disk. Those tiles lose their payload, and every other tile keeps its own. |
| Downloads.TileDownloadJob.SaveNext | tile_tools/tile_tools.py:259-266 | One pass of the save loop: the tile at position i is saved, cleared and appended exactly when it holds an image, and all other tiles keep their payloads. |
| Downloads.TileDownloadJob.GetTiles | tile_tools/tile_tools.py:218-274 | `downloads` is unchanged and still duplicate-free, and the counters are the reset-then-tallied ones. The tiles whose fetch left an image are appended to `existing` and their files added to the disk. Their payloads are cleared, and every other tile keeps what its fetch left. |
| Stitching.Offset | tile_tools/tile_tools.py:343-344 | A tile is pasted on the 256-pixel grid, at the origin exactly when it is the top-left tile. |
| Stitching.Layout | tile_tools/tile_tools.py:337-346 | The stitch pastes one image per tile, in tile order: each tile's file at its offset from the top-left tile. |
| Stitching.OffsetInCanvas | tile_tools/tile_tools.py:337-344 | Every tile of the zoom is pasted on the 256-pixel grid, at an offset within `[0, px − 256] × [0, py − 256]`. |
| Stitching.OffsetsDistinct | tile_tools/tile_tools.py:337-344 | Two different tiles of the zoom are pasted at different offsets. |
| Stitching.GridOffset | tile_tools/tile_tools.py:337-344 | The tile of column i and row j is pasted at `(256·i, 256·j)`. |
| Stitching.LayoutInCanvas | tile_tools/tile_tools.py:334-344 | Every paste of the stitch lies on the grid and wholly inside the canvas. |
| Stitching.LayoutDistinct | tile_tools/tile_tools.py:334-344 | No two pastes of the stitch share a place. |
| Stitching.LayoutFillsCanvas | tile_tools/tile_tools.py:320-323 | There are exactly as many pastes as the canvas has 256 by 256 cells. With the two lemmas above, the tiles cover the canvas exactly. |
| Stitching.EmptyCanvasIffNoTiles | tile_tools/tile_tools.py:320-323 | The canvas has zero width or height exactly when the zoom has no tiles, which happens exactly when the top-left tile lies right of or below the bottom-right one. |
| Stitching.TileStitchJob.constructor | tile_tools/tile_tools.py:316-323 | The stem is `join(out_path, job_name)`, and the canvas is 256 pixels per column by 256 per row of the zoom. |
| Stitching.TileStitchJob.Stitch | tile_tools/tile_tools.py:325-355 | A zoom absent from the tile set fails as unknown, and a zoom present but without tiles fails on its empty canvas, both writing nothing. Otherwise the stitch succeeds exactly when every tile's file exists. A failure names the first missing file in tile order and writes nothing. On success the canvas is `px × py` with every tile's file pasted at its offset, in order, and `{stem}.png` and `{stem}.pngw` are added to the disk. |

## Left out

- `deg2num`, `to_point`, `to_rectangle`, the meter conversions, `extents_meters`, `gen_world`, `center_x`/`center_y` and `avg_zoom`: floating-point geodesy. `deg2num` is a parameter of the tile set; the others are not modelled. The model takes no position on the contents of the world file, only on its existence.
- `Provider`, `gen_url`, `Tile.url` and `Tile.identifier`: URL and name formatting for the network. Fetch answers are given as outcomes instead.
- The writers of the leaflet viewer, the metadata and MBTiles files, and `convert_tif`: they only hand the job's directory to templates and external tools.
- `test_path` and `os.makedirs`: directories are not modelled; the disk is a set of file paths.
- PIL: decoding, re-encoding and pasting are not modelled. A saved tile's file exists and a stitch records which file went where. An undecodable body or a corrupt file on disk is not modelled.
- The eventlet pool: fetches may complete in any order. The model runs all fetches first, in the order of `downloads`, and then the loop over the results, also in that order. Each fetch touches only its own tile and the counters, which only add. `pool.imap` yields the fetched tiles in the order of `downloads`. So the final counters, images, `existing` list and disk are as modelled.
- Progress lines written to stdout, and the error codes printed by `fetch`: output only.
- Tiles.Tile.YTms: computed over unbounded integers. Python's `int(2.0**z - y - 1)` goes through a float, so it is exact only while the values fit a double's 53-bit mantissa.
- TileSets.TileSet.CheckNorth, TileSets.TileSet.CheckSouth and the bounding box use exact reals. The source compares Python floats with the double literal 85.05112877980659, so the model takes no position on rounding.
- Stitching.TileStitchJob.Stitch: on a zoom without tiles the model writes nothing. The source may already have saved `path.png` and created an empty `path.pngw` before `gen_world` divides by zero.
- Tiles.Tile.FullPath: the contract states the suffix only. That distinct tiles get distinct full paths is the separate lemma FullPathInjective.
- Downloads.Saved: the contract states that saved tiles come from the input; that every image holder is saved is the separate lemma SavedHolders, that only image holders are saved is SavedOnlyHolders, and the order is stated by SavedPrefix and SaveFetched.
- Text.Join and Text.JoinStep: the contracts state lengths and the absolute case; that the result ends with the last part is the separate lemmas JoinEndsWith and JoinStepEndsWith.
- The file-test loops take the test as a function value built from the disk's files, instead of calling `os.path.exists` for each tile.
- Zoom levels are natural numbers; a negative zoom is not modelled.
- `Tile.path` is computed once, in the constructor, as a constant. The source recomputes it from the never-changing coordinates on each call.
- Tiles.Tile.constructor: the source's default arguments (`x=0, y=0, z=0`) are not modelled; every call in the source passes all three.
- `src/tile.py` and the command-line front end are not part of this model.
