/**
  One tile layer of the viewer: a Deep Zoom Image pyramid of 512-pixel tiles
  covering an 8000 x 8000 image, shown in a planar (Cartesian) coordinate
  system. The tiling framework asks the layer for a tile index `(x, y, z)`;
  the layer answers with the locator of the tile file to load, or with nothing
  for a negative column or row. When a tile image has arrived, the layer
  places it in the tile's cell, shrinking the rectangle for tiles at the image
  edge that are narrower or shorter than the nominal size.
*/
module TileLayer {
  import opened Wrappers
  import opened Decimal

  /** The stored pyramid levels, coarsest to finest. */
  datatype Pyramid = Pyramid(minLevel: int, maxLevel: int) {
    predicate Valid() {
      minLevel <= maxLevel
    }
  }

  /** The levels present on disk for the 8000 x 8000 image. */
  const DziLevels := Pyramid(9, 13)
  const NominalTileSize: nat := 512
  const ImageWidth: nat := 8000
  const ImageHeight: nat := 8000

  /** The finest viewer zoom; it shows the finest stored level. */
  const MaxZoom: int := 0

  /** The coarsest viewer zoom: as many steps below zero as the pyramid has levels below its finest. */
  function MinZoom(p: Pyramid): (z: int)
    ensures z <= MaxZoom <==> p.Valid()
    ensures MaxZoom - z == p.maxLevel - p.minLevel
  {
    p.minLevel - p.maxLevel
  }

  /**
    The stored level that serves viewer zoom `z`: zoom 0 is the finest level,
    and each zoom step down is one level coarser.
  */
  function StoredLevel(p: Pyramid, z: int): (level: int)
    ensures p.minLevel <= level <= p.maxLevel <==> MinZoom(p) <= z <= MaxZoom
    ensures z == MaxZoom ==> level == p.maxLevel
    ensures z == MinZoom(p) ==> level == p.minLevel
  {
    z + p.maxLevel
  }

  /** One zoom step is one pyramid level, in both directions. */
  lemma StoredLevelIsOffset(p: Pyramid, z1: int, z2: int)
    ensures StoredLevel(p, z1) - StoredLevel(p, z2) == z1 - z2
    ensures StoredLevel(p, z1) < StoredLevel(p, z2) <==> z1 < z2
  {
  }

  /** Every stored level is reached by exactly one zoom of the exposed range. */
  lemma ZoomRangeCoversLevels(p: Pyramid, level: int)
    requires p.minLevel <= level <= p.maxLevel
    ensures exists z :: MinZoom(p) <= z <= MaxZoom && StoredLevel(p, z) == level
    ensures forall z :: StoredLevel(p, z) == level ==> z == level - p.maxLevel
  {
    var z := level - p.maxLevel;
    assert StoredLevel(p, z) == level;
  }

  /** The zoom range and level mapping of the image shown here. */
  lemma DziZoomRange()
    ensures MinZoom(DziLevels) == -4 && MaxZoom == 0
    ensures StoredLevel(DziLevels, 0) == 13 && StoredLevel(DziLevels, -4) == 9
  {
  }

  /** The index of a tile the framework asks for: column, row and viewer zoom. */
  datatype TileIndex = TileIndex(x: int, y: int, z: int)

  /** A tile's file name within its level directory: column and row joined by an underscore. */
  function TileFileName(col: nat, row: nat): (name: string)
    ensures |name| > 4 && name[|name| - 4..] == ".png"
  {
    NatToDecimal(col) + "_" + NatToDecimal(row) + ".png"
  }

  /**
    The Deep Zoom file layout: one directory per level under `dir`, and in it
    one file per tile, named by `TileFileName`.
  */
  function DziTilePath(dir: string, level: int, col: nat, row: nat): (path: string)
    ensures |path| > |dir| + 5 && path[..|dir|] == dir && path[|dir|] == '/'
    ensures path[|path| - 4..] == ".png"
  {
    var name := TileFileName(col, row);
    var path := dir + "/" + IntToDecimal(level) + "/" + name;
    assert path[|path| - 4..] == name[|name| - 4..];
    path
  }

  /**
    Reading a file name back: the digits before the first underscore give the
    column, and the digits between it and `.png` give the row. Each part is
    exactly the number's spelling, with a leading zero only for zero.
  */
  lemma TileFileNameReadBack(col: nat, row: nat)
    ensures var name, k := TileFileName(col, row), |NatToDecimal(col)|;
      k + 1 < |name| - 4 && name[k] == '_' && '_' !in name[..k] &&
      AllDigits(name[..k]) && DecimalValue(name[..k]) == col &&
      AllDigits(name[k + 1..|name| - 4]) && DecimalValue(name[k + 1..|name| - 4]) == row &&
      |name| == k + 1 + |NatToDecimal(row)| + 4 &&
      (name[0] == '0' <==> col == 0) && (name[k + 1] == '0' <==> row == 0)
  {
    var x, y := NatToDecimal(col), NatToDecimal(row);
    var name := TileFileName(col, row);
    assert name == x + ['_'] + y + ".png";
    assert name[..|x|] == x;
    assert name[|x| + 1..|name| - 4] == y;
    DecimalHasNoSeparators(col);
    NatToDecimalRoundTrip(col);
    NatToDecimalRoundTrip(row);
  }

  /**
    Reading a tile path back: after `dir` and a slash come the signed digits
    of the level up to the next slash, and after that the tile's file name.
  */
  lemma DziTilePathReadBack(dir: string, level: int, col: nat, row: nat)
    ensures var path, start, m := DziTilePath(dir, level, col, row), |dir| + 1, |IntToDecimal(level)|;
      start + m < |path| && path[start + m] == '/' && '/' !in path[start..start + m] &&
      IsSignedDecimal(path[start..start + m]) && SignedDecimalValue(path[start..start + m]) == level &&
      path[start + m + 1..] == TileFileName(col, row)
  {
    var l, name := IntToDecimal(level), TileFileName(col, row);
    var path := DziTilePath(dir, level, col, row);
    assert path == dir + "/" + l + "/" + name;
    assert path[|dir| + 1..|dir| + 1 + |l|] == l;
    assert path[|dir| + 1 + |l| + 1..] == name;
    DecimalHasNoSeparators(level);
    IntToDecimalRoundTrip(level);
  }

  /** Cancels a separator that occurs in neither left part. */
  lemma SplitAtSeparator(a: string, b: string, a': string, b': string, c: char)
    requires c !in a && c !in a'
    requires a + [c] + b == a' + [c] + b'
    ensures a == a' && b == b'
  {
    var s := a + [c] + b;
    if |a| < |a'| {
      SeparatorAt(a, c, b, a', b');
      assert false;
    } else if |a'| < |a| {
      SeparatorAt(a', c, b', a, b);
      assert false;
    } else {
      assert a == s[..|a|] == a';
      assert b == s[|a| + 1..] == b';
    }
  }

  /** In `a + [c] + b`, position `|a|` holds `c`; a longer `a'` holds there what that string holds. */
  lemma SeparatorAt(a: string, c: char, b: string, a': string, b': string)
    ensures |a| < |a'| && a + [c] + b == a' + [c] + b' ==> a'[|a|] == c
  {
    if |a| < |a'| && a + [c] + b == a' + [c] + b' {
      var s := a + [c] + b;
      assert s[|a|] == c;
      assert a'[|a|] == (a' + [c] + b')[|a|];
    }
  }

  /** Two paths `dir/L/F` with the same `dir` and a slash-free `L` agree in `L` and in `F`. */
  lemma SplitLevelDirectory(dir: string, l1: string, f1: string, l2: string, f2: string)
    requires '/' !in l1 && '/' !in l2
    requires dir + "/" + l1 + "/" + f1 == dir + "/" + l2 + "/" + f2
    ensures l1 == l2 && f1 == f2
  {
    var p1, p2 := dir + "/" + l1 + "/" + f1, dir + "/" + l2 + "/" + f2;
    assert p1[|dir| + 1..] == l1 + ['/'] + f1;
    assert p2[|dir| + 1..] == l2 + ['/'] + f2;
    SplitAtSeparator(l1, f1, l2, f2, '/');
  }

  /** Distinct tiles of one level have distinct file names. */
  lemma TileFileNameInjective(c1: nat, r1: nat, c2: nat, r2: nat)
    ensures TileFileName(c1, r1) == TileFileName(c2, r2) <==> c1 == c2 && r1 == r2
  {
    if TileFileName(c1, r1) == TileFileName(c2, r2) {
      var x1, y1, x2, y2 := NatToDecimal(c1), NatToDecimal(r1), NatToDecimal(c2), NatToDecimal(r2);
      assert x1 + ['_'] + (y1 + ".png") == TileFileName(c1, r1);
      assert x2 + ['_'] + (y2 + ".png") == TileFileName(c2, r2);
      DecimalHasNoSeparators(c1);
      DecimalHasNoSeparators(c2);
      SplitAtSeparator(x1, y1 + ".png", x2, y2 + ".png", '_');
      assert y1 == (y1 + ".png")[..|y1|];
      assert y2 == (y2 + ".png")[..|y2|];
      NatToDecimalInjective(c1, c2);
      NatToDecimalInjective(r1, r2);
    }
  }

  /** Distinct tiles of one directory live in distinct files. */
  lemma DziTilePathInjective(dir: string, l1: int, c1: nat, r1: nat, l2: int, c2: nat, r2: nat)
    ensures DziTilePath(dir, l1, c1, r1) == DziTilePath(dir, l2, c2, r2) <==> l1 == l2 && c1 == c2 && r1 == r2
  {
    if DziTilePath(dir, l1, c1, r1) == DziTilePath(dir, l2, c2, r2) {
      DecimalHasNoSeparators(l1);
      DecimalHasNoSeparators(l2);
      SplitLevelDirectory(dir, IntToDecimal(l1), TileFileName(c1, r1), IntToDecimal(l2), TileFileName(c2, r2));
      IntToDecimalInjective(l1, l2);
      TileFileNameInjective(c1, r1, c2, r2);
    }
  }

  /** The image's extent in world coordinates, `[minX, minY, maxX, maxY]`. */
  datatype Extent = Extent(minX: int, minY: int, maxX: int, maxY: int)

  /** The configuration a tile layer is created with. */
  datatype TileLayerProps = TileLayerProps(
    id: string,
    path: string,
    levels: Pyramid,
    minZoom: int,
    maxZoom: int,
    tileSize: nat,
    extent: Extent)

  /**
    The layer for one channel, whose pyramid is stored under `path`. Its
    zoom range is exactly the range whose stored levels exist.
  */
  function CreateTileLayer(path: string): (layer: TileLayerProps)
    ensures layer.path == path && layer.levels == DziLevels
    ensures layer.id == "TileLayer-" + path
    ensures layer.minZoom <= layer.maxZoom
    ensures forall z :: layer.minZoom <= z <= layer.maxZoom <==>
      layer.levels.minLevel <= StoredLevel(layer.levels, z) <= layer.levels.maxLevel
    ensures layer.tileSize == NominalTileSize
    ensures layer.extent == Extent(0, 0, ImageWidth, ImageHeight)
  {
    TileLayerProps(
      "TileLayer-" + path,
      path,
      DziLevels,
      MinZoom(DziLevels),
      MaxZoom,
      NominalTileSize,
      Extent(0, 0, ImageWidth, ImageHeight))
  }

  /**
    The tile file the layer asks to load for `tile`, under the deployment's
    public base URL `base`; `None` (nothing is loaded) for a negative column
    or row.
  */
  function GetTileData(layer: TileLayerProps, base: string, tile: TileIndex): (locator: Option<string>)
    ensures locator.None? <==> tile.x < 0 || tile.y < 0
    ensures locator.Some? ==>
      locator.value == DziTilePath(base + layer.path, StoredLevel(layer.levels, tile.z), tile.x, tile.y)
  {
    if tile.x < 0 || tile.y < 0 then
      None
    else
      Some(DziTilePath(base + layer.path, tile.z + layer.levels.maxLevel, tile.x, tile.y))
  }

  /** Two tile indices that load the same file of a layer are the same index. */
  lemma GetTileDataInjective(layer: TileLayerProps, base: string, t1: TileIndex, t2: TileIndex)
    requires GetTileData(layer, base, t1).Some?
    ensures GetTileData(layer, base, t1) == GetTileData(layer, base, t2) <==> t1 == t2
  {
    if GetTileData(layer, base, t1) == GetTileData(layer, base, t2) {
      DziTilePathInjective(base + layer.path,
        StoredLevel(layer.levels, t1.z), t1.x, t1.y,
        StoredLevel(layer.levels, t2.z), t2.x, t2.y);
    }
  }

  /** A tile's cell in world coordinates, as the tiling framework reports it. */
  datatype CellBox = CellBox(left: real, top: real, right: real, bottom: real)

  /** The pixel size of a loaded tile image. */
  datatype ImageSize = ImageSize(width: nat, height: nat)

  /** A bitmap's placement, in the order `[left, bottom, right, top]` the bitmap layer takes. */
  datatype BitmapBounds = BitmapBounds(left: real, bottom: real, right: real, top: real)

  /** The bitmap drawn for one loaded tile. */
  datatype BitmapSubLayer = BitmapSubLayer(bounds: BitmapBounds, image: ImageSize)

  /** The divisor along one axis: the nominal tile size, or the image size when that is larger. */
  function EffectiveTileSize(imageSize: nat): (size: nat)
    ensures size >= NominalTileSize && size >= imageSize
    ensures size == NominalTileSize || size == imageSize
  {
    if NominalTileSize >= imageSize then NominalTileSize else imageSize
  }

  /**
    The extent along one axis of the rectangle an image of `imageSize` pixels
    covers in a cell of extent `cellExtent`. A full-size (or larger) image
    fills the cell; a smaller one covers its share of a nominal tile.
  */
  function BoxExtent(cellExtent: real, imageSize: nat): (extent: real)
    ensures imageSize >= NominalTileSize ==> extent == cellExtent
    ensures imageSize < NominalTileSize ==>
      extent * (NominalTileSize as real) == cellExtent * (imageSize as real)
    ensures 0.0 <= cellExtent ==> 0.0 <= extent <= cellExtent
    ensures cellExtent <= 0.0 ==> cellExtent <= extent <= 0.0
  {
    var tileSize := EffectiveTileSize(imageSize) as real;
    ScaleWithinCell(cellExtent, imageSize as real, tileSize);
    cellExtent * (imageSize as real) / tileSize
  }

  /** Scaling by a ratio between 0 and 1 stays between 0 and the original value. */
  lemma ScaleWithinCell(e: real, part: real, whole: real)
    requires 0.0 <= part <= whole && 0.0 < whole
    ensures 0.0 <= e ==> 0.0 <= e * part / whole <= e
    ensures e <= 0.0 ==> e <= e * part / whole <= 0.0
  {
    var ratio := part / whole;
    assert 0.0 <= ratio <= 1.0;
    assert e * part / whole == e * ratio;
  }

  /** An image half the nominal size covers half the cell. */
  lemma HalfImageHalfExtent(cellExtent: real)
    ensures BoxExtent(cellExtent, NominalTileSize / 2) == cellExtent / 2.0
  {
    assert EffectiveTileSize(256) == 512;
    assert BoxExtent(cellExtent, 256) == cellExtent * 256.0 / 512.0 == cellExtent / 2.0;
  }

  /**
    With a pitch of `pitch` world units per pixel of a full tile, every pixel
    of a smaller edge image keeps that pitch: the image is not stretched.
  */
  lemma PixelPitchPreserved(pitch: real, imageSize: nat)
    requires imageSize <= NominalTileSize
    ensures BoxExtent((NominalTileSize as real) * pitch, imageSize) == (imageSize as real) * pitch
  {
  }

  /** A larger image never covers less of a non-negative cell. */
  lemma BoxExtentMonotone(cellExtent: real, w1: nat, w2: nat)
    requires 0.0 <= cellExtent && w1 <= w2
    ensures BoxExtent(cellExtent, w1) <= BoxExtent(cellExtent, w2)
  {
  }

  /**
    The rectangle a loaded image occupies: it keeps the cell's left and top
    edges, and along each axis covers the share of the cell given by `BoxExtent`.
  */
  function SubLayerBounds(cell: CellBox, image: ImageSize): (b: BitmapBounds)
    ensures b.left == cell.left && b.top == cell.top
    ensures b.right - b.left == BoxExtent(cell.right - cell.left, image.width)
    ensures b.bottom - b.top == BoxExtent(cell.bottom - cell.top, image.height)
    ensures image.width >= NominalTileSize ==> b.right == cell.right
    ensures image.height >= NominalTileSize ==> b.bottom == cell.bottom
    ensures cell.left <= cell.right ==> cell.left <= b.right <= cell.right
    ensures cell.top <= cell.bottom ==> cell.top <= b.bottom <= cell.bottom
  {
    var boxWidth := BoxExtent(cell.right - cell.left, image.width);
    var boxHeight := BoxExtent(cell.bottom - cell.top, image.height);
    BitmapBounds(cell.left, cell.top + boxHeight, cell.left + boxWidth, cell.top)
  }

  /** A full-size image is placed on its cell exactly. */
  lemma FullTileUnchanged(cell: CellBox, image: ImageSize)
    requires image.width == NominalTileSize && image.height == NominalTileSize
    ensures SubLayerBounds(cell, image) == BitmapBounds(cell.left, cell.bottom, cell.right, cell.top)
  {
  }

  /** An image half as wide as a tile keeps the cell's height and half its width. */
  lemma HalfWidthTile(cell: CellBox)
    ensures var b := SubLayerBounds(cell, ImageSize(NominalTileSize / 2, NominalTileSize));
      b.left == cell.left && b.top == cell.top && b.bottom == cell.bottom &&
      b.right - b.left == (cell.right - cell.left) / 2.0
  {
    HalfImageHalfExtent(cell.right - cell.left);
  }

  /**
    The sublayers drawn for a tile once its load has settled: none when there
    is no image, and otherwise a single bitmap of that image placed by
    `SubLayerBounds`.
  */
  function RenderSubLayers(cell: CellBox, data: Option<ImageSize>): (layers: seq<BitmapSubLayer>)
    ensures data.None? <==> layers == []
    ensures data.Some? ==> |layers| == 1 && layers[0].image == data.value
    ensures data.Some? ==> layers[0].bounds == SubLayerBounds(cell, data.value)
  {
    if data.None? then [] else [BitmapSubLayer(SubLayerBounds(cell, data.value), data.value)]
  }
}
