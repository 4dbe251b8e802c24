/**
 * The tiles covering a bounding box over a range of zoom levels: for each zoom,
 * every column from the top-left tile to the bottom-right tile, and within each
 * column every row, both ends included.
 */
module TileSets {
  import opened Wrappers
  import opened Tiles

  /** The latitude limit of the spherical-Mercator projection, in degrees. */
  const MaxLatitude: real := 85.05112877980659

  /** The northern, eastern, southern and western edges of a box, in degrees. */
  datatype BBox = BBox(n: real, e: real, s: real, w: real)

  /** Python's `range(lo, hi)`. */
  function Range(lo: int, hi: int): (r: seq<int>)
    ensures |r| == if lo < hi then hi - lo else 0
    ensures forall i :: 0 <= i < |r| ==> r[i] == lo + i
  {
    seq(if lo < hi then hi - lo else 0, i requires i >= 0 => lo + i)
  }

  /** A range holds exactly the integers from `lo` up to, not including, `hi`. */
  lemma RangeMembers(lo: int, hi: int)
    ensures forall v :: v in Range(lo, hi) <==> lo <= v < hi
  {
    forall v | lo <= v < hi
      ensures v in Range(lo, hi)
    {
      assert Range(lo, hi)[v - lo] == v;
    }
  }

  predicate NoDup<T(==)>(s: seq<T>) {
    forall i, j :: 0 <= i < j < |s| ==> s[i] != s[j]
  }

  /** One column of tiles: column x at zoom z, for each row of `rows`, in order. */
  function Column(z: nat, x: int, rows: seq<int>): (cs: seq<Coord>)
    ensures |cs| == |rows|
    ensures forall j :: 0 <= j < |rows| ==> cs[j] == Coord(x, rows[j], z)
  {
    seq(|rows|, j requires 0 <= j < |rows| => Coord(x, rows[j], z))
  }

  /** All tiles of the given columns and rows at zoom z, column by column. */
  function Grid(z: nat, cols: seq<int>, rows: seq<int>): seq<Coord> {
    if cols == [] then []
    else Grid(z, cols[..|cols| - 1], rows) + Column(z, cols[|cols| - 1], rows)
  }

  /** The grid holds one tile per column and row. */
  lemma {:induction false} GridLength(z: nat, cols: seq<int>, rows: seq<int>)
    ensures |Grid(z, cols, rows)| == |cols| * |rows|
  {
    if cols != [] {
      GridLength(z, cols[..|cols| - 1], rows);
      assert |cols| * |rows| == (|cols| - 1) * |rows| + |rows|;
    }
  }

  /** Row j of a column before column n comes before the first tile of column n. */
  lemma {:induction false} BeforeColumn(i: nat, n: nat, r: nat, j: nat)
    requires i < n && j < r
    ensures i * r + j < n * r
    decreases n
  {
    if i + 1 < n {
      BeforeColumn(i, n - 1, r, j);
    }
    assert n * r == (n - 1) * r + r;
  }

  /** The grid is ordered column-outer, row-inner: column i, row j sits at i * |rows| + j. */
  lemma {:induction false} GridAt(z: nat, cols: seq<int>, rows: seq<int>, i: nat, j: nat)
    requires i < |cols| && j < |rows|
    ensures i * |rows| + j < |Grid(z, cols, rows)|
    ensures Grid(z, cols, rows)[i * |rows| + j] == Coord(cols[i], rows[j], z)
  {
    var r, n := |rows|, |cols| - 1;
    var prefix := cols[..n];
    var front, back := Grid(z, prefix, rows), Column(z, cols[n], rows);
    assert Grid(z, cols, rows) == front + back;
    GridLength(z, prefix, rows);
    var k := i * r + j;
    if i < n {
      GridAt(z, prefix, rows, i, j);
      BeforeColumn(i, n, r, j);
      assert (front + back)[k] == front[k];
    } else {
      assert k == n * r + j;
      assert (front + back)[k] == back[j];
    }
  }

  /** A tile is in the grid exactly when it has zoom z, one of the columns and one of the rows. */
  lemma {:induction false} GridMembers(z: nat, cols: seq<int>, rows: seq<int>, c: Coord)
    ensures c in Grid(z, cols, rows) <==> c.z == z && c.x in cols && c.y in rows
  {
    if cols != [] {
      var n := |cols| - 1;
      GridMembers(z, cols[..n], rows, c);
      assert cols == cols[..n] + [cols[n]];
      if c in Column(z, cols[n], rows) {
        var j :| 0 <= j < |rows| && Column(z, cols[n], rows)[j] == c;
      }
      if c.z == z && c.x == cols[n] && c.y in rows {
        var j :| 0 <= j < |rows| && rows[j] == c.y;
        assert Column(z, cols[n], rows)[j] == c;
      }
    }
  }

  /** Without repeated columns or rows, no tile is listed twice. */
  lemma {:induction false} GridNoDup(z: nat, cols: seq<int>, rows: seq<int>)
    requires NoDup(cols) && NoDup(rows)
    ensures NoDup(Grid(z, cols, rows))
  {
    if cols != [] {
      var n := |cols| - 1;
      var prefix := cols[..n];
      var front, back := Grid(z, prefix, rows), Column(z, cols[n], rows);
      GridNoDup(z, prefix, rows);
      forall a, b | 0 <= a < |front| && 0 <= b < |back|
        ensures front[a] != back[b]
      {
        GridMembers(z, prefix, rows, front[a]);
        assert cols[n] !in prefix;
      }
      assert Grid(z, cols, rows) == front + back;
    }
  }

  lemma RangeNoDup(lo: int, hi: int)
    ensures NoDup(Range(lo, hi))
  {
  }

  /**
   * A corner-to-tile function that numbers columns eastwards and rows
   * southwards: a point further east never has a smaller column, and a point
   * further south never has a smaller row. The spherical-Mercator `deg2num`,
   * truncated to int, is of this kind for latitudes strictly within ±90°.
   */
  ghost predicate Monotone(f: (real, real, nat) -> (int, int)) {
    forall lat1, lon1, lat2, lon2, z: nat ::
      lat2 <= lat1 && lon1 <= lon2 ==> f(lat1, lon1, z).0 <= f(lat2, lon2, z).0 && f(lat1, lon1, z).1 <= f(lat2, lon2, z).1
  }

  /**
   * The tiles of a box over the zoom range [zoomMin, zoomMax]. The geographic
   * corner of a zoom level becomes a tile index through `deg2num`, the
   * spherical-Mercator formula, which is taken as given.
   */
  class TileSet {
    const name: string
    const version: string
    const description: string
    const folder: string
    const bbox: BBox
    const zoomMin: nat
    const zoomMax: nat
    const deg2num: (real, real, nat) -> (int, int)
    var tiles: map<nat, seq<Tile>>

    /** Exactly the zoom levels zoomMin..zoomMax have tiles. */
    ghost predicate HasZooms()
      reads this
    {
      forall z: nat :: z in tiles <==> zoomMin <= z <= zoomMax
    }

    /** `tiles` lists, for each zoom of the range and only those, the grid of that zoom. */
    ghost predicate Valid()
      reads this
    {
      && HasZooms()
      && (forall z | z in tiles :: Coords(tiles[z]) == Grid(z, Cols(z), Rows(z)))
      && (forall z | z in tiles :: forall t | t in tiles[z] :: t.Valid())
    }

    /** `extents` is (north, south, west, east); the latitudes are clamped to the projection. */
    constructor (name: string, version: string, description: string, folder: string,
                 extents: (real, real, real, real), zoomMin: nat, zoomMax: nat,
                 deg2num: (real, real, nat) -> (int, int))
      ensures this.name == name && this.version == version && this.description == description
      ensures this.folder == folder && this.deg2num == deg2num
      ensures bbox == BBox(CheckNorth(extents.0), extents.3, CheckSouth(extents.1), extents.2)
      ensures this.zoomMin == zoomMin && this.zoomMax == zoomMax
      ensures Valid()
      ensures forall z | z in tiles :: forall t | t in tiles[z] :: fresh(t) && t.image == None && t.Valid()
    {
      this.name, this.version, this.description, this.folder := name, version, description, folder;
      var (north, south, west, east) := extents;
      bbox := BBox(CheckNorth(north), east, CheckSouth(south), west);
      this.zoomMin, this.zoomMax := zoomMin, zoomMax;
      this.deg2num := deg2num;
      new;
      tiles := PopTileset();
    }

    /** Clamps a northern edge to the projection's limit; at or below it, the edge is kept. */
    static function CheckNorth(north: real): (r: real)
      ensures r <= MaxLatitude
      ensures north <= MaxLatitude ==> r == north
      ensures north > MaxLatitude ==> r == MaxLatitude
    {
      if north > MaxLatitude then MaxLatitude else north
    }

    /** Clamps a southern edge to the projection's limit; at or above it, the edge is kept. */
    static function CheckSouth(south: real): (r: real)
      ensures r >= -MaxLatitude
      ensures south >= -MaxLatitude ==> r == south
      ensures south < -MaxLatitude ==> r == -MaxLatitude
    {
      if south < -MaxLatitude then -MaxLatitude else south
    }

    /**
     * The tile of the north-west corner. With a projection that numbers
     * columns eastwards and rows southwards, it is above and left of the
     * south-east corner's tile whenever the box is not inverted.
     */
    function TopLeft(zoom: nat): (c: (int, int))
      ensures Monotone(deg2num) && bbox.w <= bbox.e && bbox.s <= bbox.n ==>
        c.0 <= deg2num(bbox.s, bbox.e, zoom).0 && c.1 <= deg2num(bbox.s, bbox.e, zoom).1
    {
      deg2num(bbox.n, bbox.w, zoom)
    }

    /** The tile of the south-east corner: below and right of the north-west corner's tile. */
    function BottomRight(zoom: nat): (c: (int, int))
      ensures Monotone(deg2num) && bbox.w <= bbox.e && bbox.s <= bbox.n ==>
        deg2num(bbox.n, bbox.w, zoom).0 <= c.0 && deg2num(bbox.n, bbox.w, zoom).1 <= c.1
    {
      deg2num(bbox.s, bbox.e, zoom)
    }

    /** The tile columns at a zoom: from the top-left column to the bottom-right one. */
    function Cols(zoom: nat): (cols: seq<int>)
      ensures forall v :: v in cols <==> TopLeft(zoom).0 <= v <= BottomRight(zoom).0
    {
      var cols := Range(TopLeft(zoom).0, BottomRight(zoom).0 + 1);
      assert forall v :: v in cols <==> TopLeft(zoom).0 <= v <= BottomRight(zoom).0 by {
        RangeMembers(TopLeft(zoom).0, BottomRight(zoom).0 + 1);
      }
      cols
    }

    /** The tile rows at a zoom: from the top-left row to the bottom-right one. */
    function Rows(zoom: nat): (rows: seq<int>)
      ensures forall v :: v in rows <==> TopLeft(zoom).1 <= v <= BottomRight(zoom).1
    {
      var rows := Range(TopLeft(zoom).1, BottomRight(zoom).1 + 1);
      assert forall v :: v in rows <==> TopLeft(zoom).1 <= v <= BottomRight(zoom).1 by {
        RangeMembers(TopLeft(zoom).1, BottomRight(zoom).1 + 1);
      }
      rows
    }

    /** Builds, for each zoom of the range, the fresh tiles of its grid. */
    method PopTileset() returns (tileset: map<nat, seq<Tile>>)
      ensures forall z: nat :: z in tileset <==> zoomMin <= z <= zoomMax
      ensures forall z | z in tileset :: Coords(tileset[z]) == Grid(z, Cols(z), Rows(z))
      ensures forall z | z in tileset :: forall t | t in tileset[z] :: fresh(t) && t.image == None && t.Valid()
    {
      tileset := map[];
      var zoom := zoomMin;
      while zoom <= zoomMax
        invariant zoomMin <= zoom
        invariant forall z: nat :: z in tileset <==> zoomMin <= z < zoom && z <= zoomMax
        invariant forall z | z in tileset :: Coords(tileset[z]) == Grid(z, Cols(z), Rows(z))
        invariant forall z | z in tileset :: forall t | t in tileset[z] :: fresh(t) && t.image == None && t.Valid()
      {
        var tiles := PopZoom(zoom);
        tileset := tileset[zoom := tiles];
        zoom := zoom + 1;
      }
    }

    /** The body of PopTileset for one zoom: a fresh tile per column and row, column by column. */
    method PopZoom(zoom: nat) returns (tiles: seq<Tile>)
      ensures Coords(tiles) == Grid(zoom, Cols(zoom), Rows(zoom))
      ensures forall t | t in tiles :: fresh(t) && t.image == None && t.Valid()
    {
      var cols, rows := Cols(zoom), Rows(zoom);
      tiles := [];
      for i := 0 to |cols|
        invariant Coords(tiles) == Grid(zoom, cols[..i], rows)
        invariant forall t | t in tiles :: fresh(t) && t.image == None && t.Valid()
      {
        var column := PopColumn(zoom, cols[i], rows);
        CoordsAppend(tiles, column);
        assert cols[..i + 1][..i] == cols[..i];
        tiles := tiles + column;
      }
      assert cols[..|cols|] == cols;
    }

    /** The innermost loop of PopTileset: a fresh tile in column x for each row, in order. */
    static method PopColumn(zoom: nat, x: int, rows: seq<int>) returns (tiles: seq<Tile>)
      ensures Coords(tiles) == Column(zoom, x, rows)
      ensures forall t | t in tiles :: fresh(t) && t.image == None && t.Valid()
    {
      tiles := [];
      for j := 0 to |rows|
        invariant Coords(tiles) == Column(zoom, x, rows[..j])
        invariant forall t | t in tiles :: fresh(t) && t.image == None && t.Valid()
      {
        var tile := new Tile(x, rows[j], zoom);
        CoordsAppend(tiles, [tile]);
        tiles := tiles + [tile];
      }
      assert rows[..|rows|] == rows;
    }
  }

  /** The coordinates of two runs of tiles, one after the other. */
  lemma CoordsAppend(a: seq<Tile>, b: seq<Tile>)
    ensures Coords(a + b) == Coords(a) + Coords(b)
  {
  }

  /** Each zoom of a tile set lists one tile per column and row. */
  lemma TileCount(ts: TileSet, z: nat)
    requires ts.Valid() && z in ts.tiles
    ensures |ts.tiles[z]| == |ts.Cols(z)| * |ts.Rows(z)|
  {
    GridLength(z, ts.Cols(z), ts.Rows(z));
  }

  /**
   * With a projection that numbers columns eastwards and rows southwards, a
   * box that is not inverted has at least one tile at every zoom.
   */
  lemma BoxHasTiles(ts: TileSet, z: nat)
    requires ts.Valid() && z in ts.tiles
    requires Monotone(ts.deg2num) && ts.bbox.w <= ts.bbox.e && ts.bbox.s <= ts.bbox.n
    ensures |ts.tiles[z]| >= 1
  {
    TileCount(ts, z);
    var start := ts.TopLeft(z);
    assert start.0 in ts.Cols(z) && start.1 in ts.Rows(z);
  }

  /** Each zoom of a tile set lists its tiles column-outer, row-inner. */
  lemma TileOrder(ts: TileSet, z: nat, i: nat, j: nat)
    requires ts.Valid() && z in ts.tiles
    requires i < |ts.Cols(z)| && j < |ts.Rows(z)|
    ensures i * |ts.Rows(z)| + j < |ts.tiles[z]|
    ensures ts.tiles[z][i * |ts.Rows(z)| + j].Position() == Coord(ts.Cols(z)[i], ts.Rows(z)[j], z)
  {
    GridAt(z, ts.Cols(z), ts.Rows(z), i, j);
  }

  /** No tile is listed twice at a zoom; in particular the tile objects are distinct. */
  lemma TilesDistinct(ts: TileSet, z: nat)
    requires ts.Valid() && z in ts.tiles
    ensures NoDup(Coords(ts.tiles[z]))
    ensures NoDup(ts.tiles[z])
  {
    GridNoDup(z, ts.Cols(z), ts.Rows(z));
    var cs := Coords(ts.tiles[z]);
    forall a, b | 0 <= a < b < |ts.tiles[z]|
      ensures ts.tiles[z][a] != ts.tiles[z][b]
    {
      assert cs[a] != cs[b];
    }
  }

  /** Every listed tile has the zoom it is listed under and lies between the two corners. */
  lemma TileBounds(ts: TileSet, z: nat, t: Tile)
    requires ts.Valid() && z in ts.tiles && t in ts.tiles[z]
    ensures t.z == z
    ensures ts.TopLeft(z).0 <= t.x <= ts.BottomRight(z).0
    ensures ts.TopLeft(z).1 <= t.y <= ts.BottomRight(z).1
  {
    var i :| 0 <= i < |ts.tiles[z]| && ts.tiles[z][i] == t;
    assert Coords(ts.tiles[z])[i] == t.Position();
    GridMembers(z, ts.Cols(z), ts.Rows(z), t.Position());
  }

  /** Every zoom lists distinct tile objects, each carrying that zoom. */
  lemma TilesTagged(ts: TileSet)
    requires ts.Valid()
    ensures forall z | z in ts.tiles :: NoDup(ts.tiles[z]) && forall u | u in ts.tiles[z] :: u.z == z
  {
    forall z | z in ts.tiles
      ensures NoDup(ts.tiles[z]) && forall u | u in ts.tiles[z] :: u.z == z
    {
      TilesDistinct(ts, z);
      forall u | u in ts.tiles[z]
        ensures u.z == z
      {
        TileBounds(ts, z, u);
      }
    }
  }

  /**
   * When both corners of a zoom lie inside the 2^z by 2^z world grid, so does
   * every tile listed at that zoom, and so does its TMS row.
   */
  lemma TilesInWorld(ts: TileSet, z: nat, t: Tile)
    requires ts.Valid() && z in ts.tiles && t in ts.tiles[z]
    requires 0 <= ts.TopLeft(z).0 && ts.BottomRight(z).0 < Pow2(z)
    requires 0 <= ts.TopLeft(z).1 && ts.BottomRight(z).1 < Pow2(z)
    ensures 0 <= t.x < Pow2(t.z) && 0 <= t.y < Pow2(t.z)
    ensures 0 <= t.YTms() < Pow2(t.z)
  {
    TileBounds(ts, z, t);
  }
}
