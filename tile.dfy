/**
 * A map tile in the Slippy (XYZ) convention, where row y grows southward, with
 * its TMS row, its Bing quadtree key and its relative file path.
 */
module Tiles {
  import opened Wrappers
  import opened Text

  /** An opaque image payload: the bytes of a tile image. */
  type Payload = seq<bv8>

  /** The identity of a tile. */
  datatype Coord = Coord(x: int, y: int, z: nat)

  /** 2^n: the number of tile rows (and columns) at zoom n. */
  function Pow2(n: nat): (r: nat)
    ensures r >= 1
  {
    if n == 0 then 1 else 2 * Pow2(n - 1)
  }

  /**
   * Bit k of x in two's complement, which is what Python's `x & (1 << k) != 0`
   * tests, negative numbers included (Dafny's `/` by 2 floors like Python's `>>`).
   */
  function Bit(x: int, k: nat): (b: nat)
    ensures b < 2
    decreases k
  {
    if k == 0 then x % 2 else Bit(x / 2, k - 1)
  }

  /** Bit k of x is the parity of x shifted right by k, that is of x divided by 2^k, rounding down. */
  lemma {:induction false} BitValue(x: int, k: nat)
    ensures Bit(x, k) == (x / Pow2(k)) % 2
    decreases k
  {
    if k > 0 {
      BitValue(x / 2, k - 1);
      HalveThenDivide(x, Pow2(k - 1));
    }
  }

  /** Halving and then dividing by d is dividing by 2·d, with floor division throughout. */
  lemma HalveThenDivide(x: int, d: nat)
    requires d > 0
    ensures (x / 2) / d == x / (2 * d)
  {
    var q, r := x / 2, x % 2;
    var q2, r2 := q / d, q % d;
    assert x == 2 * q + r && q == d * q2 + r2;
    assert x == (2 * d) * q2 + (2 * r2 + r);
    assert 0 <= 2 * r2 + r < 2 * d;
    DivUnique(x, 2 * d, q2, 2 * r2 + r);
  }

  /** Floor division is the unique q with x == d·q + r and 0 <= r < d. */
  lemma DivUnique(x: int, d: nat, q: int, r: int)
    requires d > 0 && 0 <= r < d && x == d * q + r
    ensures x / d == q
  {
    var k := x / d - q;
    assert d * k == r - x % d;
    MulAtLeast(d, k);
  }

  /** A non-zero multiple of d is at least d away from zero. */
  lemma MulAtLeast(d: nat, k: int)
    requires d > 0
    ensures k >= 1 ==> d * k >= d
    ensures k <= -1 ==> d * k + d <= 0
  {
  }

  predicate IsQuadDigit(c: char) {
    '0' <= c <= '3'
  }

  predicate IsQuadKey(s: string) {
    forall k :: 0 <= k < |s| ==> IsQuadDigit(s[k])
  }

  /** The base-4 digit for one level: the x bit plus twice the y bit. */
  function QuadDigit(xb: nat, yb: nat): (c: char)
    requires xb < 2 && yb < 2
    ensures IsQuadDigit(c) && DigitValue(c) == xb + 2 * yb
  {
    DigitChar(xb + 2 * yb)
  }

  /**
   * The quadtree key of tile (x, y) at zoom z: the key of its parent tile one
   * zoom up, (x / 2, y / 2), followed by the digit of its lowest x and y bits.
   */
  function QuadKey(x: int, y: int, z: nat): (key: string)
    ensures |key| == z && IsQuadKey(key)
    decreases z
  {
    if z == 0 then [] else QuadKey(x / 2, y / 2, z - 1) + [QuadDigit(x % 2, y % 2)]
  }

  /** Position k of the key, counted from the coarsest level, is the digit of bit z-1-k of x and y. */
  lemma {:induction false} QuadKeyAt(x: int, y: int, z: nat, k: nat)
    requires k < z
    ensures QuadKey(x, y, z)[k] == QuadDigit(Bit(x, z - 1 - k), Bit(y, z - 1 - k))
    decreases z
  {
    if k < z - 1 {
      QuadKeyAt(x / 2, y / 2, z - 1, k);
      assert QuadKey(x, y, z)[k] == QuadKey(x / 2, y / 2, z - 1)[k];
    } else {
      assert Bit(x, 0) == x % 2 && Bit(y, 0) == y % 2;
    }
  }

  /** Reads a quadtree key back into its column and row. */
  function DecodeQuadKey(key: string): (int, int)
    requires IsQuadKey(key)
  {
    if key == [] then (0, 0)
    else
      var (x, y) := DecodeQuadKey(key[..|key| - 1]);
      var d := DigitValue(key[|key| - 1]);
      (2 * x + d % 2, 2 * y + d / 2)
  }

  /** Decoding one more digit doubles the parent's column and row and adds the digit's bits. */
  lemma DecodeStep(parent: string, xb: nat, yb: nat)
    requires IsQuadKey(parent) && xb < 2 && yb < 2
    ensures IsQuadKey(parent + [QuadDigit(xb, yb)])
    ensures DecodeQuadKey(parent + [QuadDigit(xb, yb)])
      == (2 * DecodeQuadKey(parent).0 + xb, 2 * DecodeQuadKey(parent).1 + yb)
  {
    var key := parent + [QuadDigit(xb, yb)];
    assert key[..|key| - 1] == parent;
    var d := DigitValue(key[|key| - 1]);
    assert d % 2 == xb && d / 2 == yb by {
      assert d == xb + 2 * yb;
      if yb == 0 {
        assert d == xb;
      } else {
        assert d == xb + 2;
      }
    }
  }

  /** Decoding the key of a tile inside the zoom-z grid gives back its column and row. */
  lemma {:induction false} DecodeQuadKeyOfTile(x: int, y: int, z: nat)
    requires 0 <= x < Pow2(z) && 0 <= y < Pow2(z)
    ensures DecodeQuadKey(QuadKey(x, y, z)) == (x, y)
  {
    if z > 0 {
      Halve(x, z - 1);
      Halve(y, z - 1);
      var a, b := x / 2, y / 2;
      DecodeQuadKeyOfTile(a, b, z - 1);
      DecodeChild(x, y, a, b, z - 1);
    }
  }

  /** A tile's key decodes to the tile once its parent's key decodes to the parent (a, b). */
  lemma DecodeChild(x: int, y: int, a: int, b: int, n: nat)
    requires 0 <= x - 2 * a < 2 && 0 <= y - 2 * b < 2
    requires DecodeQuadKey(QuadKey(a, b, n)) == (a, b)
    ensures DecodeQuadKey(QuadKey(x, y, n + 1)) == (x, y)
  {
    QuadKeyChild(x, y, a, b, n);
    DecodeStep(QuadKey(a, b, n), x - 2 * a, y - 2 * b);
  }

  /** The key of a tile is its parent (a, b)'s key followed by the digit of its own low bits. */
  lemma QuadKeyChild(x: int, y: int, a: int, b: int, n: nat)
    requires 0 <= x - 2 * a < 2 && 0 <= y - 2 * b < 2
    ensures QuadKey(x, y, n + 1) == QuadKey(a, b, n) + [QuadDigit(x - 2 * a, y - 2 * b)]
  {
    assert x / 2 == a && x % 2 == x - 2 * a && y / 2 == b && y % 2 == y - 2 * b;
  }

  /** Halving a column or row of the zoom n+1 grid gives its parent's, inside the zoom n grid. */
  lemma Halve(x: int, n: nat)
    requires 0 <= x < Pow2(n + 1)
    ensures 0 <= x / 2 < Pow2(n) && 2 * (x / 2) + x % 2 == x
  {
  }

  /** A digit d split into its x bit `d % 2` and y bit `d / 2`, appended to (a, b), halves back to (a, b). */
  lemma DigitHalves(a: int, b: int, d: nat)
    requires d < 4
    ensures var x, y := 2 * a + d % 2, 2 * b + d / 2;
      x / 2 == a && y / 2 == b && x % 2 + 2 * (y % 2) == d
  {
    if d == 0 {
    } else if d == 1 {
      assert (2 * a + 1) / 2 == a;
    } else if d == 2 {
      assert (2 * b + 1) / 2 == b;
    } else {
      assert (2 * a + 1) / 2 == a && (2 * b + 1) / 2 == b;
    }
  }

  /** The key of the child tile that digit d selects is the parent's key followed by d. */
  lemma AppendDigit(a: int, b: int, n: nat, d: nat)
    requires d < 4
    ensures QuadKey(2 * a + d % 2, 2 * b + d / 2, n + 1) == QuadKey(a, b, n) + [DigitChar(d)]
  {
    var x, y := 2 * a + d % 2, 2 * b + d / 2;
    DigitHalves(a, b, d);
    assert QuadDigit(x % 2, y % 2) == DigitChar(d);
  }

  /** Every string of digits 0..3 is the key of exactly the tile it decodes to. */
  lemma {:induction false} QuadKeyOfDecoded(key: string)
    requires IsQuadKey(key)
    ensures var (x, y) := DecodeQuadKey(key);
      0 <= x < Pow2(|key|) && 0 <= y < Pow2(|key|) && QuadKey(x, y, |key|) == key
  {
    if key != [] {
      var n := |key| - 1;
      QuadKeyOfDecoded(key[..n]);
      var (a, b) := DecodeQuadKey(key[..n]);
      var d := DigitValue(key[n]);
      assert DecodeQuadKey(key) == (2 * a + d % 2, 2 * b + d / 2);
      ChildInGrid(a, b, n, d);
      ChildKey(key, a, b);
    }
  }

  /** A child of a tile inside the zoom-n grid lies inside the zoom n+1 grid. */
  lemma ChildInGrid(a: int, b: int, n: nat, d: nat)
    requires 0 <= a < Pow2(n) && 0 <= b < Pow2(n) && d < 4
    ensures 0 <= 2 * a + d % 2 < Pow2(n + 1) && 0 <= 2 * b + d / 2 < Pow2(n + 1)
  {
  }

  /** A key whose front is the key of (a, b) is the key of the child of (a, b) its last digit selects. */
  lemma ChildKey(key: string, a: int, b: int)
    requires IsQuadKey(key) && key != [] && QuadKey(a, b, |key| - 1) == key[..|key| - 1]
    ensures var d := DigitValue(key[|key| - 1]);
      QuadKey(2 * a + d % 2, 2 * b + d / 2, |key|) == key
  {
    var n := |key| - 1;
    var d := DigitValue(key[n]);
    AppendDigit(a, b, n, d);
    assert DigitChar(d) == key[n];
    assert key == key[..n] + [key[n]];
  }

  /**
   * The relative path of tile (x, y, z), `os.path.join` of its zoom, its
   * column and `{y}.png`: since no component is empty, absolute or
   * slash-terminated, it reads `{z}/{x}/{y}.png`.
   */
  function TilePath(c: Coord): (p: string)
    ensures p == IntStr(c.z) + "/" + IntStr(c.x) + "/" + IntStr(c.y) + ".png"
  {
    var zs, xs, ys := IntStr(c.z), IntStr(c.x), IntStr(c.y) + ".png";
    assert zs[|zs| - 1] in zs && xs[|xs| - 1] in xs;
    JoinPlain(zs, xs, ys);
    Join(zs, [xs, ys])
  }

  /** Reads the row back from a file name `{y}.png`. */
  function ParseFileName(file: string): Option<int> {
    if |file| < 4 || file[|file| - 4..] != ".png" then None else ParseInt(file[..|file| - 4])
  }

  /** Reads a tile back from the three components of its path. */
  function ParseParts(zText: string, xText: string, file: string): Option<Coord> {
    match (ParseInt(zText), ParseInt(xText), ParseFileName(file))
    case (Some(z), Some(x), Some(y)) => if z >= 0 then Some(Coord(x, y, z)) else None
    case _ => None
  }

  /** Splits a relative tile path back into its zoom, column and row. */
  function ParseTilePath(p: string): Option<Coord> {
    var i := IndexOf(p, '/');
    if i == |p| then None
    else
      var rest := p[i + 1..];
      var j := IndexOf(rest, '/');
      if j == |rest| then None
      else ParseParts(p[..i], rest[..j], rest[j + 1..])
  }

  /** The file name of row y reads back as y. */
  lemma ParseFileNameOf(y: int)
    ensures ParseFileName(IntStr(y) + ".png") == Some(y)
  {
    var file := IntStr(y) + ".png";
    assert file[|file| - 4..] == ".png" && file[..|file| - 4] == IntStr(y);
    ParseIntStr(y);
  }

  /** Cutting `u + "/" + v` at its first slash gives back `u` and `v` when `u` has none. */
  lemma {:induction false} SplitAtSlash(u: string, v: string)
    requires '/' !in u
    ensures var s := u + "/" + v;
      IndexOf(s, '/') == |u| && s[..|u|] == u && s[|u| + 1..] == v
  {
    var s := u + "/" + v;
    if u != [] {
      assert s[0] == u[0];
      assert s[1..] == u[1..] + "/" + v;
      SplitAtSlash(u[1..], v);
    }
  }

  /** The path of a tile determines the tile. */
  lemma ParseTilePathRoundTrip(c: Coord)
    ensures ParseTilePath(TilePath(c)) == Some(c)
  {
    ParseLayout(c);
  }

  /** The components printed for a tile read back as that tile. */
  lemma ParsePartsOf(c: Coord)
    ensures ParseParts(IntStr(c.z), IntStr(c.x), IntStr(c.y) + ".png") == Some(c)
  {
    ParseIntStr(c.z);
    ParseIntStr(c.x);
    ParseFileNameOf(c.y);
  }

  lemma ParseLayout(c: Coord)
    ensures ParseTilePath(IntStr(c.z) + "/" + IntStr(c.x) + "/" + IntStr(c.y) + ".png") == Some(c)
  {
    var zs, xs := IntStr(c.z), IntStr(c.x);
    var file := IntStr(c.y) + ".png";
    var rest := xs + "/" + file;
    var p := zs + "/" + rest;
    assert p == IntStr(c.z) + "/" + IntStr(c.x) + "/" + IntStr(c.y) + ".png";
    SplitAtSlash(zs, rest);
    var i := IndexOf(p, '/');
    assert i == |zs| && p[..i] == zs && p[i + 1..] == rest;
    SplitAtSlash(xs, file);
    var j := IndexOf(rest, '/');
    assert j == |xs| && rest[..j] == xs && rest[j + 1..] == file;
    assert ParseTilePath(p) == ParseParts(zs, xs, file);
    ParsePartsOf(c);
  }

  /** Distinct tiles are stored under distinct files of the same job directory. */
  lemma FullPathInjective(outPath: string, jobName: string, c: Coord, d: Coord)
    requires Join(outPath, [jobName, TilePath(c)]) == Join(outPath, [jobName, TilePath(d)])
    ensures c == d
  {
    var dir, p, q := JoinStep(outPath, jobName), TilePath(c), TilePath(d);
    assert [jobName, p][1..] == [p] && [jobName, q][1..] == [q];
    JoinRelative(dir, p);
    JoinRelative(dir, q);
    var sep := if dir == [] || dir[|dir| - 1] == '/' then "" else "/";
    assert (dir + sep + p)[|dir + sep|..] == p;
    assert (dir + sep + q)[|dir + sep|..] == q;
    ParseTilePathRoundTrip(c);
    ParseTilePathRoundTrip(d);
  }

  /**
   * A tile. Its coordinates never change; its image payload is held only while
   * the tile is being fetched and saved.
   */
  class Tile {
    const x: int
    const y: int
    const z: nat
    /** The relative path `{z}/{x}/{y}.png`, fixed once since the coordinates never change. */
    const path: string
    var image: Option<Payload>

    constructor (x: int, y: int, z: nat)
      ensures this.x == x && this.y == y && this.z == z && image == None
      ensures Valid()
    {
      this.x, this.y, this.z := x, y, z;
      path := TilePath(Coord(x, y, z));
      image := None;
    }

    /** The stored path is the one the coordinates give. */
    ghost predicate Valid() {
      path == TilePath(Position())
    }

    function Position(): Coord {
      Coord(x, y, z)
    }

    /**
     * The row in the TMS convention, counted from the southern edge. The flip
     * keeps a row inside the grid (and one outside it outside) and is its own
     * inverse.
     */
    function YTms(): (r: int)
      ensures 0 <= y < Pow2(z) <==> 0 <= r < Pow2(z)
      ensures Pow2(z) - r - 1 == y
    {
      Pow2(z) - y - 1
    }

    /** The quadtree key, built digit by digit from the highest bit down. */
    method QuadTree() returns (key: string)
      ensures key == QuadKey(x, y, z)
    {
      key := "";
      var i := z;
      while i > 0
        invariant 0 <= i <= z
        invariant |key| == z - i
        invariant forall k :: 0 <= k < z - i ==> key[k] == QuadKey(x, y, z)[k]
      {
        var digit := 0;
        if Bit(x, i - 1) != 0 {
          digit := digit + 1;
        }
        if Bit(y, i - 1) != 0 {
          digit := digit + 2;
        }
        assert digit == Bit(x, i - 1) + 2 * Bit(y, i - 1);
        QuadKeyAt(x, y, z, z - i);
        assert DigitChar(digit) == QuadKey(x, y, z)[z - i];
        key := key + [DigitChar(digit)];
        i := i - 1;
      }
    }

    /** The path of the tile's file under the job directory `outPath/jobName`. */
    function FullPath(outPath: string, jobName: string): (p: string)
      ensures EndsWith(p, path)
    {
      JoinEndsWith(outPath, [jobName, path]);
      Join(outPath, [jobName, path])
    }
  }

  /** The coordinates of a sequence of tiles. */
  function Coords(ts: seq<Tile>): (cs: seq<Coord>)
    ensures |cs| == |ts|
    ensures forall i :: 0 <= i < |ts| ==> cs[i] == ts[i].Position()
  {
    seq(|ts|, i requires 0 <= i < |ts| => ts[i].Position())
  }
}
