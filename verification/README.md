# Deep Zoom tile layers for a three-channel image viewer

The viewer shows an 8000 x 8000 image. It is made of three channels (red,
blue and yellow), and each channel is stored as its own Deep Zoom Image
pyramid of 512-pixel tiles at levels 9 (coarsest) to 13 (finest). Each
channel is drawn by one tile layer. Each layer does three things:

- it turns a tile index `(x, y, z)` from the tiling framework into the file
  to load, `{base}{path}/{z + 13}/{x}_{y}.png`, or into nothing for a
  negative column or row;
- it exposes the zoom range `[9 - 13, 0] = [-4, 0]`, so that each viewer
  zoom reaches one stored level;
- once a tile image has loaded, it places the image in the tile's cell. An
  edge tile narrower or shorter than 512 pixels covers only its share of
  the cell, and a full-size or larger tile covers the whole cell.

The model is pure: datatypes, functions and lemmas in four modules.

- `Wrappers`: `Option`, which stands for JavaScript's `null`.
- `Decimal`: how a template literal spells a whole number, in plain digits.
  The exponent spelling and double precision of very large numbers are left
  out. It comes with a reader (`DecimalValue`, `SignedDecimalValue`) and
  round-trip lemmas, so the spelling is proved unambiguous.
- `TileLayer`: the pyramid levels and zoom range, the Deep Zoom file
  layout, `createTileLayer`, `getTileData` and the bounds arithmetic of
  `renderSubLayers`.
- `App`: the three channel layers, in order, and the files they request
  for one tile index.

The stored levels are a `Pyramid(minLevel, maxLevel)` value. The source's
levels are the constant `DziLevels = Pyramid(9, 13)`. The level and zoom
lemmas are proved for any pyramid, and `DziZoomRange` states the source's
concrete numbers. The public base URL is the opaque string parameter `base`.
Coordinates in the bounds arithmetic are `real`.

There is no compositor and no clamp in the code. Each channel is an
independent layer that loads and places its own tiles, and a channel whose
tile fails leaves the others drawn. The additive blend is WebGL blend state
(`ONE`/`ONE`/`FUNC_ADD`, src/App.js:71-77) applied by the GPU.

## Model

| member | source | states |
|---|---|---|
| `Decimal.NatToDecimal` | src/App.js:35 | the interpolated column or row is a non-empty run of digits that starts with `0` only for zero |
| `Decimal.IntToDecimal` | src/App.js:35 | the interpolated level is digits, with a leading minus sign exactly when it is negative, and its magnitude starts with `0` only for zero |
| `Decimal.NatToDecimalRoundTrip` | src/App.js:35 | reading the digits of a column or row back gives the same number |
| `Decimal.IntToDecimalRoundTrip` | src/App.js:35 | reading a spelled level back, sign included, gives the same number |
| `Decimal.NatToDecimalInjective` | src/App.js:35 | two columns (or rows) have the same spelling if and only if they are equal |
| `Decimal.IntToDecimalInjective` | src/App.js:35 | two levels have the same spelling if and only if they are equal |
| `Decimal.DecimalHasNoSeparators` | src/App.js:35 | a spelled number contains neither `/` nor `_`, so it cannot run into the next part of the path |
| `TileLayer.MinZoom` | src/App.js:41 | `minZoom = minDzi - maxDzi` is at most `maxZoom = 0` exactly when the levels are ordered, and the range spans as many zoom steps as there are levels below the finest |
| `TileLayer.StoredLevel` | src/App.js:35 | the stored level `z + maxDzi` lies in `[minDzi, maxDzi]` if and only if `z` lies in `[minZoom, maxZoom]`; zoom 0 gives the finest level and `minZoom` the coarsest |
| `TileLayer.StoredLevelIsOffset` | src/App.js:35 | the level mapping is an offset: level differences equal zoom differences, and it preserves order |
| `TileLayer.ZoomRangeCoversLevels` | src/App.js:40-41 | every stored level is served by some zoom of the exposed range, and by exactly one zoom |
| `TileLayer.DziZoomRange` | src/App.js:19-20 | for levels 9..13 the range is `[-4, 0]`, zoom 0 gives level 13 and zoom -4 gives level 9 |
| `TileLayer.TileFileName` | src/App.js:35 | a tile's file name ends in `.png` |
| `TileLayer.DziTilePath` | src/App.js:35 | a tile path starts with the channel directory and a `/`, and ends in `.png` |
| `TileLayer.TileFileNameReadBack` | src/App.js:35 | in `{x}_{y}.png` the digits before the first underscore read back as the column and those between it and `.png` as the row; each part has exactly its number's length and starts with `0` only for zero |
| `TileLayer.DziTilePathReadBack` | src/App.js:35 | after the directory and a slash, the signed digits up to the next slash read back as the level, and the rest is the tile's file name |
| `TileLayer.TileFileNameInjective` | src/App.js:35 | `{x}_{y}.png` names are equal if and only if the columns and the rows are equal |
| `TileLayer.DziTilePathInjective` | src/App.js:35 | within one directory, `{level}/{x}_{y}.png` paths are equal if and only if level, column and row are all equal |
| `TileLayer.CreateTileLayer` | src/App.js:15-82 | the layer keeps its channel path, its id is `TileLayer-` followed by that path, its tile size is 512, its extent is `[0, 0, 8000, 8000]`, and its zoom range is exactly the set of zooms whose stored level exists |
| `TileLayer.GetTileData` | src/App.js:26-37 | nothing is loaded if and only if the column or row is negative; otherwise the file loaded is the Deep Zoom path of level `z + 13`, column `x`, row `y` under `base + path` |
| `TileLayer.GetTileDataInjective` | src/App.js:34-35 | two tile indices that a layer loads from the same file are the same index (zoom included) |
| `TileLayer.EffectiveTileSize` | src/App.js:57-58 | the divisor `Math.max(512, size)` is at least 512 and at least the image size, and is one of the two |
| `TileLayer.BoxExtent` | src/App.js:62-63 | an image of 512 or more pixels covers the whole cell extent; a smaller one covers `extent * size / 512`; the result always lies between 0 and the cell extent |
| `TileLayer.HalfImageHalfExtent` | src/App.js:62 | an image of 256 pixels covers exactly half the cell extent |
| `TileLayer.PixelPitchPreserved` | src/App.js:62-63 | an image of at most 512 pixels keeps a full tile's world size per pixel, so edge tiles are not stretched |
| `TileLayer.BoxExtentMonotone` | src/App.js:57-63 | a larger image never covers less of a cell |
| `TileLayer.SubLayerBounds` | src/App.js:56-68 | the bitmap keeps the cell's left and top edges; each axis covers the `BoxExtent` share of the cell; a full-size axis reaches the cell's right or bottom edge; the bitmap stays inside the cell |
| `TileLayer.FullTileUnchanged` | src/App.js:57-68 | a 512 x 512 image is placed exactly on its cell |
| `TileLayer.HalfWidthTile` | src/App.js:57-68 | a 256 x 512 image keeps the cell origin and height and covers half its width |
| `TileLayer.RenderSubLayers` | src/App.js:46-79 | a tile without an image yields no sublayer; a tile with an image yields one bitmap of that image, placed by `SubLayerBounds` |
| `App.Layers` | src/App.js:113-117 | one layer per channel, each the layer `CreateTileLayer` builds for that channel's path, in the order red, blue, yellow, with pairwise distinct layer ids |
| `App.TileLocators` | src/App.js:113-117 | for one tile index, the three layers load either nothing (negative column or row) or three distinct files, each at the same level, column and row of its own channel's pyramid |
| `App.FinestTileFiveFive` | src/App.js:34-35 | column 5, row 5 at zoom 0 is loaded from `{base}{path}/13/5_5.png` |
| `App.TileThreeSevenAtZoomMinusTwo` | src/App.js:34-35 | column 3, row 7 at zoom -2 is loaded from `{base}{path}/11/3_7.png`: column before the underscore, row after it |
| `App.FirstTileAtCoarsestZoom` | src/App.js:34-35 | column 0, row 0 at the coarsest zoom -4 is loaded from `{base}{path}/9/0_0.png` |
| `App.TileFiveFiveAtFinestZoom` | src/App.js:113-117 | column 5, row 5 at zoom 0 issues exactly three loads: red, blue and yellow `.../13/5_5.png`, in that order |

## Left out

- The `load(url, ImageLoader)` call and image decoding (src/App.js:36) are asynchronous network I/O through a library. The model stops at the locator passed to `load`, and a loaded image is only its `{width, height}`.
- `process.env.PUBLIC_URL` is the opaque string parameter `base`.
- The bounds division uses IEEE-754 doubles in the source. The model computes it exactly over `real`, so rounding is not captured.
- The additive channel blend is WebGL blend state on the bitmap layer (src/App.js:71-77) and runs on the GPU. There is no pixel arithmetic in the code to model.
- The `...props` spread, `data: null`, `_imageCoordinateSystem` and `coordinateSystem` settings are passed through to the rendering framework and are not modelled.
- Tile visibility, caching, request scheduling and the construction of layers, views and the `DeckGL` component belong to the framework.
- The `onTileUnload` and `onTileError` hooks only log (src/App.js:43-44). The React `App` component, its view state and `onViewStateChange` (src/App.js:85-130) are UI plumbing.
- The framework passes whole-number tile indices, so the model spells only integers. JavaScript's spelling of fractional numbers is not modelled.
- Decimal.NatToDecimal: spells every natural number in plain digits. JavaScript writes numbers from 1e21 on with an exponent (`1e+21`) and holds integers above 2^53 inexactly; tile columns and rows are far below both.
- Decimal.IntToDecimal: spells every integer in plain digits, and `z + maxDzi` is exact integer addition rather than a double addition. Exponent spelling from 1e21 and double precision above 2^53 are not modelled; pyramid levels are far below both.
