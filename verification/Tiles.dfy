/** The map tile grid, and one tile drawn from the sixteen two zooms down. */
module Tiles {
  import opened Wrappers

  /** Latitude to distance down the map and back; the top of the map is 0 and the bottom is 1. */
  datatype Projection = Projection(down: real -> real, up: real -> real)

  ghost predicate Mercator(p: Projection) {
    && (forall lat :: -90.0 < lat < 90.0 ==> p.up(p.down(lat)) == lat)
    && (forall u :: -90.0 < p.up(u) < 90.0 && p.down(p.up(u)) == u)
    && (forall u, v :: u < v ==> p.up(u) > p.up(v))
  }

  datatype Box = Box(west: real, south: real, east: real, north: real)

  function Pow2(z: nat): (n: int)
    ensures n >= 1
  {
    if z == 0 then 1 else 2 * Pow2(z - 1)
  }

  lemma FourTimes(z: nat)
    ensures Pow2(z + 2) == 4 * Pow2(z)
  {
    assert Pow2(z + 2) == 2 * Pow2(z + 1);
  }

  /** Towards zero, as `int` does. */
  function Truncate(v: real): int {
    if v >= 0.0 then v.Floor else -((-v).Floor)
  }

  function Column(lng: real, z: nat): real {
    (lng + 180.0) / 360.0 * Pow2(z) as real
  }

  function Row(p: Projection, lat: real, z: nat): real {
    p.down(lat) * Pow2(z) as real
  }

  function TileAt(p: Projection, lng: real, lat: real, z: nat): (int, int) {
    (Truncate(Column(lng, z)), Truncate(Row(p, lat, z)))
  }

  function West(z: nat, x: int): real {
    x as real / Pow2(z) as real * 360.0 - 180.0
  }

  function North(p: Projection, z: nat, y: int): real {
    p.up(y as real / Pow2(z) as real)
  }

  function TileBox(p: Projection, z: nat, x: int, y: int): Box {
    Box(West(z, x), North(p, z, y + 1), West(z, x + 1), North(p, z, y))
  }

  /** A tile holds its west and north edges; the east and south ones belong to its neighbours. */
  predicate InTile(p: Projection, z: nat, x: int, y: int, lng: real, lat: real) {
    var b := TileBox(p, z, x, y);
    b.west <= lng < b.east && b.south < lat <= b.north
  }

  /** The whole box, edges included. */
  predicate InBox(b: Box, lng: real, lat: real) {
    b.west <= lng <= b.east && b.south <= lat <= b.north
  }

  predicate Inside(b: Box, lng: real, lat: real) {
    b.west < lng < b.east && b.south < lat < b.north
  }

  // ---- grid coordinates -----------------------------------------------------------------

  lemma Scaled(a: real, b: real, n: real)
    requires n > 0.0
    ensures a / n <= b <==> a <= b * n
    ensures a / n < b <==> a < b * n
    ensures b <= a / n <==> b * n <= a
    ensures b < a / n <==> b * n < a
  {
    assert a / n * n == a;
    Ordered(a / n, b, n);
    Ordered(b, a / n, n);
  }

  lemma Ordered(a: real, b: real, n: real)
    requires n > 0.0
    ensures a < b <==> a * n < b * n
    ensures a == b ==> a * n == b * n
  {
    if a < b {
      assert (b - a) * n > 0.0;
    } else if b < a {
      assert (a - b) * n > 0.0;
    }
  }

  /** A longitude is east of a tile edge exactly when its column is past it. */
  lemma WestIff(z: nat, x: int, lng: real)
    ensures West(z, x) <= lng <==> x as real <= Column(lng, z)
    ensures West(z, x) < lng <==> x as real < Column(lng, z)
  {
    var n := Pow2(z) as real;
    var u := (lng + 180.0) / 360.0;
    Scaled(x as real, u, n);
    assert West(z, x) <= lng <==> x as real / n <= u;
  }

  /** A latitude is below a tile edge exactly when its row is past it. */
  lemma NorthIff(p: Projection, z: nat, y: int, lat: real)
    requires Mercator(p) && -90.0 < lat < 90.0
    ensures lat <= North(p, z, y) <==> y as real <= Row(p, lat, z)
    ensures lat < North(p, z, y) <==> y as real < Row(p, lat, z)
  {
    var n := Pow2(z) as real;
    var u := y as real / n;
    var v := p.down(lat);
    assert p.up(v) == lat;
    Scaled(y as real, v, n);
    if u < v {
      assert p.up(u) > p.up(v);
    } else if v < u {
      assert p.up(v) > p.up(u);
    }
  }

  lemma InTileIff(p: Projection, z: nat, x: int, y: int, lng: real, lat: real)
    requires Mercator(p) && -90.0 < lat < 90.0
    ensures InTile(p, z, x, y, lng, lat) <==>
      x as real <= Column(lng, z) < (x + 1) as real && y as real <= Row(p, lat, z) < (y + 1) as real
    ensures InBox(TileBox(p, z, x, y), lng, lat) <==>
      x as real <= Column(lng, z) <= (x + 1) as real && y as real <= Row(p, lat, z) <= (y + 1) as real
  {
    WestIff(z, x, lng);
    WestIff(z, x + 1, lng);
    NorthIff(p, z, y, lat);
    NorthIff(p, z, y + 1, lat);
  }

  /** A latitude in a tile's box is on the map. */
  lemma BoxOnMap(p: Projection, z: nat, x: int, y: int, lng: real, lat: real)
    requires Mercator(p) && InBox(TileBox(p, z, x, y), lng, lat)
    ensures -90.0 < lat < 90.0
  {
    assert p.up(y as real / Pow2(z) as real) < 90.0;
    assert -90.0 < p.up((y + 1) as real / Pow2(z) as real);
  }

  // ---- a point and its tile ----------------------------------------------------------------

  predicate Lands(v: real) {
    v >= 0.0 || v == Truncate(v) as real
  }

  lemma Negated(f: int, v: real)
    requires f as real <= -v < f as real + 1.0
    ensures v <= (-f) as real && v < (-f) as real + 1.0
  {
    assert (-f) as real == -(f as real);
  }

  lemma LandsIff(v: real)
    ensures Truncate(v) as real <= v < (Truncate(v) + 1) as real <==> Lands(v)
  {
    if v < 0.0 {
      Negated((-v).Floor, v);
    }
  }

  /** The point lies in the tile computed for it exactly when neither coordinate is rounded up
      towards zero, as happens west of the map or above it. */
  lemma PointInItsTile(p: Projection, lng: real, lat: real, z: nat)
    requires Mercator(p) && -90.0 < lat < 90.0
    ensures var t := TileAt(p, lng, lat, z);
            InTile(p, z, t.0, t.1, lng, lat) <==> Lands(Column(lng, z)) && Lands(Row(p, lat, z))
  {
    var t := TileAt(p, lng, lat, z);
    InTileIff(p, z, t.0, t.1, lng, lat);
    LandsIff(Column(lng, z));
    LandsIff(Row(p, lat, z));
  }

  predicate InRange(p: Projection, lng: real, lat: real) {
    -180.0 <= lng < 180.0 && -90.0 < lat < 90.0 && 0.0 <= p.down(lat) < 1.0
  }

  /** An in-range point lies in its tile, and the tile is on the grid. */
  lemma {:induction false} InRangeInTile(p: Projection, lng: real, lat: real, z: nat)
    requires Mercator(p) && InRange(p, lng, lat)
    ensures var t := TileAt(p, lng, lat, z);
            && InTile(p, z, t.0, t.1, lng, lat)
            && 0 <= t.0 < Pow2(z) && 0 <= t.1 < Pow2(z)
  {
    ColumnOnGrid(lng, z);
    RowOnGrid(p, lat, z);
    PointInItsTile(p, lng, lat, z);
  }

  lemma ColumnOnGrid(lng: real, z: nat)
    requires -180.0 <= lng < 180.0
    ensures Lands(Column(lng, z)) && 0 <= Truncate(Column(lng, z)) < Pow2(z)
  {
    var u := (lng + 180.0) / 360.0;
    OnGrid(u, Pow2(z));
    assert Column(lng, z) == u * Pow2(z) as real;
  }

  lemma RowOnGrid(p: Projection, lat: real, z: nat)
    requires 0.0 <= p.down(lat) < 1.0
    ensures Lands(Row(p, lat, z)) && 0 <= Truncate(Row(p, lat, z)) < Pow2(z)
  {
    OnGrid(p.down(lat), Pow2(z));
  }

  lemma OnGrid(u: real, n: int)
    requires 0.0 <= u < 1.0 && n >= 1
    ensures 0.0 <= u * n as real < n as real
    ensures Lands(u * n as real) && 0 <= Truncate(u * n as real) < n
  {
    assert (1.0 - u) * n as real > 0.0;
  }

  // ---- sixteen tiles two zooms down -----------------------------------------------------------

  lemma FourColumns(lng: real, z: nat)
    ensures Column(lng, z + 2) == 4.0 * Column(lng, z)
  {
    FourTimes(z);
  }

  lemma FourRows(p: Projection, lat: real, z: nat)
    ensures Row(p, lat, z + 2) == 4.0 * Row(p, lat, z)
  {
    FourTimes(z);
  }

  predicate OneOfFour(x: int, child: int) {
    4 * x <= child < 4 * x + 4
  }

  lemma Quarter(v: real, x: int)
    ensures x as real <= v < (x + 1) as real <==> OneOfFour(x, (4.0 * v).Floor)
  {
  }

  /** The quarter the point falls in, the last one taking the far edge. */
  function ClosedQuarter(v: real, x: int): int {
    if v == (x + 1) as real then 4 * x + 3 else (4.0 * v).Floor
  }

  lemma ClosedQuarterHolds(v: real, x: int)
    requires x as real <= v <= (x + 1) as real
    ensures var c := ClosedQuarter(v, x); OneOfFour(x, c) && c as real <= 4.0 * v <= (c + 1) as real
  {
  }

  /** A tile is exactly its sixteen children, and a point is in one of them only. */
  lemma TileSplits(p: Projection, z: nat, x: int, y: int, lng: real, lat: real)
    requires Mercator(p) && -90.0 < lat < 90.0
    ensures InTile(p, z, x, y, lng, lat) <==>
      exists cx, cy :: OneOfFour(x, cx) && OneOfFour(y, cy) && InTile(p, z + 2, cx, cy, lng, lat)
  {
    FourColumns(lng, z);
    FourRows(p, lat, z);
    InTileIff(p, z, x, y, lng, lat);
    Quarter(Column(lng, z), x);
    Quarter(Row(p, lat, z), y);
    var cx, cy := Column(lng, z + 2).Floor, Row(p, lat, z + 2).Floor;
    InTileIff(p, z + 2, cx, cy, lng, lat);
    if InTile(p, z, x, y, lng, lat) {
      assert OneOfFour(x, cx) && OneOfFour(y, cy);
    }
    if cx', cy' :| OneOfFour(x, cx') && OneOfFour(y, cy') && InTile(p, z + 2, cx', cy', lng, lat) {
      InTileIff(p, z + 2, cx', cy', lng, lat);
    }
  }

  lemma OneChild(p: Projection, z: nat, x: int, y: int, x': int, y': int, lng: real, lat: real)
    requires Mercator(p) && -90.0 < lat < 90.0
    requires InTile(p, z, x, y, lng, lat) && InTile(p, z, x', y', lng, lat)
    ensures x == x' && y == y'
  {
    InTileIff(p, z, x, y, lng, lat);
    InTileIff(p, z, x', y', lng, lat);
  }

  /** With edges: the box is the union of the sixteen boxes. */
  lemma BoxSplits(p: Projection, z: nat, x: int, y: int, lng: real, lat: real)
    requires Mercator(p)
    ensures InBox(TileBox(p, z, x, y), lng, lat) <==>
      exists cx, cy :: OneOfFour(x, cx) && OneOfFour(y, cy) && InBox(TileBox(p, z + 2, cx, cy), lng, lat)
  {
    FourColumns(lng, z);
    FourRows(p, lat, z);
    if InBox(TileBox(p, z, x, y), lng, lat) {
      BoxOnMap(p, z, x, y, lng, lat);
      InTileIff(p, z, x, y, lng, lat);
      ClosedQuarterHolds(Column(lng, z), x);
      ClosedQuarterHolds(Row(p, lat, z), y);
      var cx, cy := ClosedQuarter(Column(lng, z), x), ClosedQuarter(Row(p, lat, z), y);
      InTileIff(p, z + 2, cx, cy, lng, lat);
      assert OneOfFour(x, cx) && OneOfFour(y, cy) && InBox(TileBox(p, z + 2, cx, cy), lng, lat);
    }
    if cx, cy :| OneOfFour(x, cx) && OneOfFour(y, cy) && InBox(TileBox(p, z + 2, cx, cy), lng, lat) {
      BoxOnMap(p, z + 2, cx, cy, lng, lat);
      InTileIff(p, z + 2, cx, cy, lng, lat);
      InTileIff(p, z, x, y, lng, lat);
    }
  }

  /** Different tiles of one zoom share no interior point. */
  lemma InteriorsDisjoint(p: Projection, z: nat, x: int, y: int, x': int, y': int, lng: real, lat: real)
    requires Mercator(p) && (x != x' || y != y')
    ensures !(Inside(TileBox(p, z, x, y), lng, lat) && Inside(TileBox(p, z, x', y'), lng, lat))
  {
    if Inside(TileBox(p, z, x, y), lng, lat) {
      BoxOnMap(p, z, x, y, lng, lat);
      InTileIff(p, z, x, y, lng, lat);
      InTileIff(p, z, x', y', lng, lat);
    }
  }

  /** The tile two zooms down of a point in its tile is one of the sixteen. */
  lemma {:induction false} ChildOfItsTile(p: Projection, lng: real, lat: real, z: nat)
    requires Mercator(p) && InRange(p, lng, lat)
    ensures var t, c := TileAt(p, lng, lat, z), TileAt(p, lng, lat, z + 2);
            OneOfFour(t.0, c.0) && OneOfFour(t.1, c.1)
  {
    var t := TileAt(p, lng, lat, z);
    InRangeInTile(p, lng, lat, z);
    InRangeInTile(p, lng, lat, z + 2);
    InTileIff(p, z, t.0, t.1, lng, lat);
    FourColumns(lng, z);
    FourRows(p, lat, z);
    Quarter(Column(lng, z), t.0);
    Quarter(Row(p, lat, z), t.1);
  }

  // ---- stitching ---------------------------------------------------------------------------------

  type Pixel = nat
  const SIDE: nat := 256

  /** A tile image by pixel, left to right and top to bottom. */
  type Picture = (nat, nat) -> Pixel

  method Paste(canvas: array2<Pixel>, picture: Picture, left: nat, top: nat)
    requires left + SIDE <= canvas.Length0 && top + SIDE <= canvas.Length1
    modifies canvas
    ensures forall i, j :: 0 <= i < canvas.Length0 && 0 <= j < canvas.Length1 ==>
      canvas[i, j] == if left <= i < left + SIDE && top <= j < top + SIDE
                      then picture(i - left, j - top) else old(canvas[i, j])
  {
    forall i, j | left <= i < left + SIDE && top <= j < top + SIDE {
      canvas[i, j] := picture(i - left, j - top);
    }
  }

  predicate EmptyBelow(tile: (nat, int, int) -> Option<Picture>, z: nat, x: int, y: int) {
    tile(z + 2, x, y).None?
  }

  /** The child tile a canvas pixel comes from, in the order the children are pasted. */
  function Slot(i: nat, j: nat): nat {
    j / SIDE * 4 + i / SIDE
  }

  function Child(tile: (nat, int, int) -> Option<Picture>, z: nat, x: int, y: int, col: nat, row: nat)
    : Option<Picture>
  {
    tile(z + 2, x * 4 + col, y * 4 + row)
  }

  /** A canvas pixel, counted from the left and from the top, is the pixel of the tile two zooms down
      that many quarters to the right of the tile's left edge and below its top edge. */
  predicate Drawn(tile: (nat, int, int) -> Option<Picture>, z: nat, x: int, y: int, i: nat, j: nat, pixel: Pixel) {
    var child := tile(z + 2, 4 * x + i / 256, 4 * y + j / 256);
    child.Some? && pixel == child.value(i % 256, j % 256)
  }

  /** The first `k` children are there ... */
  ghost predicate ThereBefore(tile: (nat, int, int) -> Option<Picture>, z: nat, x: int, y: int, k: nat) {
    forall c: nat, d: nat :: c < 4 && d < 4 && d * 4 + c < k ==> Child(tile, z, x, y, c, d).Some?
  }

  /** ... and drawn. */
  ghost predicate DrawnBefore(tile: (nat, int, int) -> Option<Picture>, z: nat, x: int, y: int,
                              canvas: array2<Pixel>, k: nat)
    reads canvas
  {
    && canvas.Length0 == canvas.Length1 == 4 * SIDE
    && forall i: nat, j: nat :: i < 4 * SIDE && j < 4 * SIDE && Slot(i, j) < k ==>
         Drawn(tile, z, x, y, i, j, canvas[i, j])
  }

  method PasteChild(canvas: array2<Pixel>, picture: Picture, tile: (nat, int, int) -> Option<Picture>,
                    z: nat, x: int, y: int, col: nat, row: nat)
    requires col < 4 && row < 4 && Child(tile, z, x, y, col, row) == Some(picture)
    requires DrawnBefore(tile, z, x, y, canvas, row * 4 + col)
    modifies canvas
    ensures DrawnBefore(tile, z, x, y, canvas, row * 4 + col + 1)
  {
    Paste(canvas, picture, col * SIDE, row * SIDE);
  }

  /** `_stitch_tiles`, up to the encoding of the result; `pillow` tells whether Pillow is there. */
  method StitchTiles(pillow: bool, tile: (nat, int, int) -> Option<Picture>, z: nat, x: int, y: int)
    returns (r: Option<array2<Pixel>>)
    ensures r.None? <==>
      !pillow || exists tx, ty :: 4 * x <= tx < 4 * x + 4 && 4 * y <= ty < 4 * y + 4 && EmptyBelow(tile, z, tx, ty)
    ensures r.Some? ==> r.value.Length0 == 4 * SIDE && r.value.Length1 == 4 * SIDE
    ensures r.Some? ==> forall i: nat, j: nat :: i < 4 * SIDE && j < 4 * SIDE ==>
      Drawn(tile, z, x, y, i, j, r.value[i, j])
  {
    if !pillow {
      return None;
    }
    var canvas := new Pixel[4 * SIDE, 4 * SIDE]((_, _) => 0);
    for row := 0 to 4
      invariant ThereBefore(tile, z, x, y, row * 4) && DrawnBefore(tile, z, x, y, canvas, row * 4)
    {
      for col := 0 to 4
        invariant ThereBefore(tile, z, x, y, row * 4 + col) && DrawnBefore(tile, z, x, y, canvas, row * 4 + col)
      {
        var picture := Child(tile, z, x, y, col, row);
        if picture.None? {
          assert EmptyBelow(tile, z, 4 * x + col, 4 * y + row);
          return None;
        }
        PasteChild(canvas, picture.value, tile, z, x, y, col, row);
      }
    }
    forall tx, ty | 4 * x <= tx < 4 * x + 4 && 4 * y <= ty < 4 * y + 4 ensures !EmptyBelow(tile, z, tx, ty) {
      assert Child(tile, z, x, y, tx - 4 * x, ty - 4 * y).Some?;
    }
    r := Some(canvas);
  }

  // ---- where the pixels lie --------------------------------------------------------------------

  lemma QuarterSteps(a: real, n: real, k: real)
    requires n > 0.0
    ensures (4.0 * a + k) / (4.0 * n) == a / n + k / 4.0 * (1.0 / n)
    ensures (a + 1.0) / n - a / n == 1.0 / n
  {
  }

  lemma WestOfChild(z: nat, x: int, col: nat)
    ensures West(z + 2, 4 * x + col) == West(z, x) + col as real / 4.0 * (West(z, x + 1) - West(z, x))
  {
    FourTimes(z);
    QuarterSteps(x as real, Pow2(z) as real, col as real);
    assert (4 * x + col) as real == 4.0 * x as real + col as real;
    var n := Pow2(z) as real;
    assert West(z, x + 1) - West(z, x) == ((x as real + 1.0) / n - x as real / n) * 360.0;
  }

  lemma RowOfChild(z: nat, y: int, row: nat)
    ensures (4 * y + row) as real / Pow2(z + 2) as real
         == y as real / Pow2(z) as real
            + row as real / 4.0 * ((y + 1) as real / Pow2(z) as real - y as real / Pow2(z) as real)
  {
    FourTimes(z);
    QuarterSteps(y as real, Pow2(z) as real, row as real);
    assert (4 * y + row) as real == 4.0 * y as real + row as real;
  }

  /** The tile a canvas pixel is drawn from lies in the tile's box as many quarters from its west
      edge as the pixel does from the left, and, in the projection, from its north edge as the
      pixel does from the top. */
  lemma PixelPlace(p: Projection, z: nat, x: int, y: int, i: nat, j: nat)
    requires Mercator(p)
    ensures var b, child := TileBox(p, z, x, y), TileBox(p, z + 2, 4 * x + i / 256, 4 * y + j / 256);
            && child.west == b.west + (i / 256) as real / 4.0 * (b.east - b.west)
            && child.east == b.west + (i / 256 + 1) as real / 4.0 * (b.east - b.west)
            && (var north, height := p.down(b.north), p.down(b.south) - p.down(b.north);
                && p.down(child.north) == north + (j / 256) as real / 4.0 * height
                && p.down(child.south) == north + (j / 256 + 1) as real / 4.0 * height)
  {
    WestOfChild(z, x, i / 256);
    WestOfChild(z, x, i / 256 + 1);
    RowOfChild(z, y, j / 256);
    RowOfChild(z, y, j / 256 + 1);
  }

  /** At zoom 0 there is one tile, from one end of the map to the other. */
  lemma ZoomZero(p: Projection, lng: real, lat: real)
    requires Mercator(p) && InRange(p, lng, lat)
    ensures TileAt(p, lng, lat, 0) == (0, 0)
    ensures var b := TileBox(p, 0, 0, 0);
            b.west == -180.0 && b.east == 180.0 && p.down(b.north) == 0.0 && p.down(b.south) == 1.0
  {
    InRangeInTile(p, lng, lat, 0);
  }
}
