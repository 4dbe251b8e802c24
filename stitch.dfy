/**
 * A stitch job: every tile of one zoom level pasted into a single canvas,
 * 256 pixels per tile, at the offset of its column and row from the top-left
 * tile; the canvas and its world file are then saved next to the tile folder.
 */
module Stitching {
  import opened Wrappers
  import opened Tiles
  import opened TileSets
  import opened FileSystem
  import opened Text
  import opened Downloads

  /** The side of a tile image, in pixels. */
  const TileSize := 256

  /** One tile image pasted into the canvas with its top-left corner at (cx, cy). */
  datatype Paste = Paste(file: string, cx: int, cy: int)

  /** The stitched image: its size and the tiles pasted into it, in order. */
  datatype Canvas = Canvas(width: int, height: int, pastes: seq<Paste>)

  datatype StitchError =
    | UnknownZoom(zoom: nat)    // the tile set has no tiles at this zoom (a KeyError)
    | MissingTile(path: string) // a tile file could not be opened (an IOError)
    | EmptyCanvas(zoom: nat)    // the world file divides by a zero width or height (a ZeroDivisionError)

  /** Where the tile at column x, row y goes, relative to the top-left tile `start`. */
  function Offset(x: int, y: int, start: (int, int)): (o: (int, int))
    ensures o.0 % TileSize == 0 && o.1 % TileSize == 0
    ensures o == (0, 0) <==> (x, y) == start
  {
    (TileSize * (x - start.0), TileSize * (y - start.1))
  }

  /** The pastes of a run over `tiles`: each tile's file at its offset, in the order of `tiles`. */
  function Layout(tiles: seq<Tile>, start: (int, int), outPath: string, jobName: string): (ps: seq<Paste>)
    ensures |ps| == |tiles|
    ensures forall i :: 0 <= i < |tiles| ==>
      ps[i] == Paste(tiles[i].FullPath(outPath, jobName), Offset(tiles[i].x, tiles[i].y, start).0, Offset(tiles[i].x, tiles[i].y, start).1)
  {
    seq(|tiles|, i requires 0 <= i < |tiles| =>
      Paste(tiles[i].FullPath(outPath, jobName), Offset(tiles[i].x, tiles[i].y, start).0, Offset(tiles[i].x, tiles[i].y, start).1))
  }

  /**
   * Every tile of a zoom lands on the 256-pixel grid, wholly inside the
   * `256·|cols|` by `256·|rows|` canvas.
   */
  lemma OffsetInCanvas(ts: TileSet, zoom: nat, t: Tile)
    requires ts.Valid() && zoom in ts.tiles && t in ts.tiles[zoom]
    ensures var (cx, cy) := Offset(t.x, t.y, ts.TopLeft(zoom));
      && cx % TileSize == 0 && cy % TileSize == 0
      && 0 <= cx <= TileSize * |ts.Cols(zoom)| - TileSize
      && 0 <= cy <= TileSize * |ts.Rows(zoom)| - TileSize
  {
    TileBounds(ts, zoom, t);
    var start, end := ts.TopLeft(zoom), ts.BottomRight(zoom);
    assert |ts.Cols(zoom)| == end.0 - start.0 + 1;
    assert |ts.Rows(zoom)| == end.1 - start.1 + 1;
  }

  /** Two different tiles of a zoom never go to the same place. */
  lemma OffsetsDistinct(ts: TileSet, zoom: nat, t: Tile, u: Tile)
    requires ts.Valid() && zoom in ts.tiles && t in ts.tiles[zoom] && u in ts.tiles[zoom] && t != u
    ensures Offset(t.x, t.y, ts.TopLeft(zoom)) != Offset(u.x, u.y, ts.TopLeft(zoom))
  {
    var tiles := ts.tiles[zoom];
    TilesDistinct(ts, zoom);
    TileBounds(ts, zoom, t);
    TileBounds(ts, zoom, u);
    var a :| 0 <= a < |tiles| && tiles[a] == t;
    var b :| 0 <= b < |tiles| && tiles[b] == u;
    assert Coords(tiles)[a] != Coords(tiles)[b];
  }

  /** The tile in column i and row j of the grid is pasted at (256·i, 256·j). */
  lemma GridOffset(ts: TileSet, zoom: nat, i: nat, j: nat)
    requires ts.Valid() && zoom in ts.tiles
    requires i < |ts.Cols(zoom)| && j < |ts.Rows(zoom)|
    ensures i * |ts.Rows(zoom)| + j < |ts.tiles[zoom]|
    ensures var t := ts.tiles[zoom][i * |ts.Rows(zoom)| + j];
      Offset(t.x, t.y, ts.TopLeft(zoom)) == (TileSize * i, TileSize * j)
  {
    TileOrder(ts, zoom, i, j);
  }

  /** Every paste of a zoom sits on the 256-pixel grid, wholly inside the canvas. */
  lemma LayoutInCanvas(ts: TileSet, zoom: nat, outPath: string, jobName: string)
    requires ts.Valid() && zoom in ts.tiles
    ensures var ps := Layout(ts.tiles[zoom], ts.TopLeft(zoom), outPath, jobName);
      forall k :: 0 <= k < |ps| ==>
        && ps[k].cx % TileSize == 0 && 0 <= ps[k].cx <= TileSize * |ts.Cols(zoom)| - TileSize
        && ps[k].cy % TileSize == 0 && 0 <= ps[k].cy <= TileSize * |ts.Rows(zoom)| - TileSize
  {
    var tiles := ts.tiles[zoom];
    forall k | 0 <= k < |tiles|
      ensures var (cx, cy) := Offset(tiles[k].x, tiles[k].y, ts.TopLeft(zoom));
        && cx % TileSize == 0 && 0 <= cx <= TileSize * |ts.Cols(zoom)| - TileSize
        && cy % TileSize == 0 && 0 <= cy <= TileSize * |ts.Rows(zoom)| - TileSize
    {
      OffsetInCanvas(ts, zoom, tiles[k]);
    }
  }

  /** No two pastes of a zoom share a place. */
  lemma LayoutDistinct(ts: TileSet, zoom: nat, outPath: string, jobName: string)
    requires ts.Valid() && zoom in ts.tiles
    ensures var ps := Layout(ts.tiles[zoom], ts.TopLeft(zoom), outPath, jobName);
      forall a, b :: 0 <= a < b < |ps| ==> (ps[a].cx, ps[a].cy) != (ps[b].cx, ps[b].cy)
  {
    var tiles := ts.tiles[zoom];
    TilesDistinct(ts, zoom);
    forall a, b | 0 <= a < b < |tiles|
      ensures Offset(tiles[a].x, tiles[a].y, ts.TopLeft(zoom)) != Offset(tiles[b].x, tiles[b].y, ts.TopLeft(zoom))
    {
      OffsetsDistinct(ts, zoom, tiles[a], tiles[b]);
    }
  }

  /** A zoom has exactly as many pastes as its canvas has 256 by 256 cells. */
  lemma LayoutFillsCanvas(ts: TileSet, zoom: nat, outPath: string, jobName: string)
    requires ts.Valid() && zoom in ts.tiles
    ensures var ps := Layout(ts.tiles[zoom], ts.TopLeft(zoom), outPath, jobName);
      |ps| * TileSize * TileSize == (TileSize * |ts.Cols(zoom)|) * (TileSize * |ts.Rows(zoom)|)
  {
    TileCount(ts, zoom);
  }

  /**
   * The canvas of a zoom has no width or no height exactly when the zoom has
   * no tiles: the top-left corner lies east of or south of the bottom-right one.
   */
  lemma EmptyCanvasIffNoTiles(ts: TileSet, zoom: nat)
    requires ts.Valid() && zoom in ts.tiles
    ensures (TileSize * |ts.Cols(zoom)| == 0 || TileSize * |ts.Rows(zoom)| == 0) <==> ts.tiles[zoom] == []
    ensures ts.tiles[zoom] == [] <==> ts.TopLeft(zoom).0 > ts.BottomRight(zoom).0 || ts.TopLeft(zoom).1 > ts.BottomRight(zoom).1
  {
    TileCount(ts, zoom);
    var start, end := ts.TopLeft(zoom), ts.BottomRight(zoom);
    if start.0 <= end.0 {
      assert start.0 in ts.Cols(zoom);
    }
    if start.1 <= end.1 {
      assert start.1 in ts.Rows(zoom);
    }
    if |ts.Cols(zoom)| > 0 {
      assert ts.Cols(zoom)[0] in ts.Cols(zoom);
    }
    if |ts.Rows(zoom)| > 0 {
      assert ts.Rows(zoom)[0] in ts.Rows(zoom);
    }
  }

  /** Stitches the tiles of one zoom level of a download job's tile set. */
  class TileStitchJob {
    const job: TileDownloadJob
    const tileset: TileSet
    /** `outPath/jobName`, the stem of the two files written. */
    const path: string
    const zoom: nat
    /** The canvas size in pixels. */
    const px: int
    const py: int

    constructor (job: TileDownloadJob, zoom: nat)
      ensures this.job == job && tileset == job.tileset && this.zoom == zoom
      ensures path == Join(job.outPath, [job.jobName])
      ensures px == TileSize * |tileset.Cols(zoom)| && py == TileSize * |tileset.Rows(zoom)|
      ensures Sized()
    {
      this.job := job;
      tileset := job.tileset;
      path := Join(job.outPath, [job.jobName]);
      this.zoom := zoom;
      px := TileSize * |job.tileset.Cols(zoom)|;
      py := TileSize * |job.tileset.Rows(zoom)|;
    }

    /** The canvas is 256 pixels per column by 256 per row of the zoom, as the constructor sets it. */
    predicate Sized() {
      px == TileSize * |tileset.Cols(zoom)| && py == TileSize * |tileset.Rows(zoom)|
    }

    /** The file a tile was saved under by the download job. */
    function TileFile(t: Tile): string {
      t.FullPath(job.outPath, job.jobName)
    }

    /**
     * Opens and pastes every tile of the zoom in the tile set's order, then
     * writes `path.png` and its world file `path.pngw`. Fails, writing
     * nothing, when the tile set has no entry for the zoom, at the first tile
     * whose file is missing, or when the world file would divide by a zero
     * width or height, which happens exactly when the zoom has no tiles.
     */
    method Stitch(disk: Disk) returns (r: Result<Canvas, StitchError>)
      modifies disk
      ensures zoom !in tileset.tiles ==> r == Failure(UnknownZoom(zoom))
      ensures zoom in tileset.tiles ==>
        (r.Success? <==> px != 0 && py != 0 && forall t | t in tileset.tiles[zoom] :: TileFile(t) in old(disk.files))
      ensures r.Success? ==>
        && zoom in tileset.tiles
        && r.value == Canvas(px, py, Layout(tileset.tiles[zoom], tileset.TopLeft(zoom), job.outPath, job.jobName))
        && disk.files == old(disk.files) + {path + ".png", path + ".pngw"}
      ensures r.Failure? ==> disk.files == old(disk.files)
      ensures r.Failure? && r.error.MissingTile? ==>
        && zoom in tileset.tiles
        && exists i :: 0 <= i < |tileset.tiles[zoom]|
             && r.error.path == TileFile(tileset.tiles[zoom][i]) && r.error.path !in old(disk.files)
             && forall k :: 0 <= k < i ==> TileFile(tileset.tiles[zoom][k]) in old(disk.files)
      ensures r.Failure? && r.error.EmptyCanvas? ==>
        zoom in tileset.tiles && (px == 0 || py == 0) && forall t | t in tileset.tiles[zoom] :: TileFile(t) in old(disk.files)
      ensures Sized() && tileset.Valid() && zoom in tileset.tiles && tileset.tiles[zoom] == [] ==>
        r == Failure(EmptyCanvas(zoom))
      ensures Sized() && tileset.Valid() && zoom in tileset.tiles && tileset.tiles[zoom] != [] ==>
        (r.Success? <==> forall t | t in tileset.tiles[zoom] :: TileFile(t) in old(disk.files))
    {
      if zoom !in tileset.tiles {
        return Failure(UnknownZoom(zoom));
      }
      var start := tileset.TopLeft(zoom);
      var tiles := tileset.tiles[zoom];
      var pastes: seq<Paste> := [];
      // The progress counter behind the "Stitched: c/len(tiles)" line.
      var c := 0;
      for i := 0 to |tiles|
        invariant c == |pastes| == i
        invariant forall k :: 0 <= k < i ==> pastes[k] == Layout(tiles, start, job.outPath, job.jobName)[k]
        invariant forall k :: 0 <= k < i ==> TileFile(tiles[k]) in disk.files
        invariant disk.files == old(disk.files)
      {
        var file := tiles[i].FullPath(job.outPath, job.jobName);
        var cx := TileSize * (tiles[i].x - start.0);
        var cy := TileSize * (tiles[i].y - start.1);
        if file !in disk.files {
          assert tiles[i] in tiles;
          return Failure(MissingTile(file));
        }
        pastes := pastes + [Paste(file, cx, cy)];
        c := c + 1;
      }
      assert pastes == Layout(tiles, start, job.outPath, job.jobName);
      if Sized() && tileset.Valid() {
        EmptyCanvasIffNoTiles(tileset, zoom);
      }
      if px == 0 || py == 0 {
        return Failure(EmptyCanvas(zoom));
      }
      disk.files := disk.files + {path + ".png", path + ".pngw"};
      return Success(Canvas(px, py, pastes));
    }
  }
}
