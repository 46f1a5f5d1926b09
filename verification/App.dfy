/**
  The viewer composes three channels of the same image (red, blue and yellow),
  each stored as its own Deep Zoom pyramid and shown by its own tile layer.
  The layers are stacked in this order and asked for the same tile indices.
*/
module App {
  import opened Wrappers
  import opened TileLayer

  const RedPath := "/red_circle/red_circle_files"
  const BluePath := "/blue_circle/blue_circle_files"
  const YellowPath := "/yellow_circle/yellow_circle_files"

  /** The channel pyramids, in layer order. */
  const ChannelPaths: seq<string> := [RedPath, BluePath, YellowPath]

  /** One tile layer per channel, in channel order, with distinct layer ids. */
  function Layers(): (layers: seq<TileLayerProps>)
    ensures |layers| == |ChannelPaths|
    ensures forall i :: 0 <= i < |layers| ==> layers[i] == CreateTileLayer(ChannelPaths[i])
    ensures forall i, j :: 0 <= i < j < |layers| ==> layers[i].id != layers[j].id
  {
    [CreateTileLayer(RedPath), CreateTileLayer(BluePath), CreateTileLayer(YellowPath)]
  }

  /**
    The files the three layers ask to load for one tile index, in layer order:
    all or none, the same level and tile in each channel's pyramid, and never
    the same file twice.
  */
  function TileLocators(base: string, tile: TileIndex): (locators: seq<Option<string>>)
    ensures |locators| == |ChannelPaths|
    ensures forall i :: 0 <= i < |locators| ==> (locators[i].None? <==> tile.x < 0 || tile.y < 0)
    ensures forall i :: 0 <= i < |locators| && locators[i].Some? ==>
      locators[i].value == DziTilePath(base + ChannelPaths[i], StoredLevel(DziLevels, tile.z), tile.x, tile.y)
    ensures forall i, j :: 0 <= i < j < |locators| && locators[i].Some? ==> locators[i] != locators[j]
  {
    var layers := Layers();
    [GetTileData(layers[0], base, tile), GetTileData(layers[1], base, tile), GetTileData(layers[2], base, tile)]
  }

  /** Column 5, row 5 at zoom 0 is a file of a level-13 directory, for any layer. */
  lemma FinestTileFiveFive(layer: TileLayerProps, base: string)
    requires layer.levels == DziLevels
    ensures GetTileData(layer, base, TileIndex(5, 5, 0)) == Some(base + layer.path + "/13/5_5.png")
  {
    assert Decimal.NatToDecimal(1) == "1" && Decimal.NatToDecimal(5) == "5";
    assert Decimal.IntToDecimal(13) == Decimal.NatToDecimal(1) + "3" == "13";
    assert TileFileName(5, 5) == "5_5.png";
    var dir := base + layer.path;
    assert DziTilePath(dir, 13, 5, 5) == dir + "/" + "13" + "/" + "5_5.png" == dir + "/13/5_5.png";
  }

  /** Column 3, row 7 at zoom -2 is a file of a level-11 directory: column before the underscore, row after it. */
  lemma TileThreeSevenAtZoomMinusTwo(layer: TileLayerProps, base: string)
    requires layer.levels == DziLevels
    ensures GetTileData(layer, base, TileIndex(3, 7, -2)) == Some(base + layer.path + "/11/3_7.png")
  {
    assert Decimal.NatToDecimal(1) == "1" && Decimal.NatToDecimal(3) == "3" && Decimal.NatToDecimal(7) == "7";
    assert Decimal.IntToDecimal(11) == Decimal.NatToDecimal(1) + "1" == "11";
    assert TileFileName(3, 7) == "3_7.png";
    var dir := base + layer.path;
    assert DziTilePath(dir, 11, 3, 7) == dir + "/" + "11" + "/" + "3_7.png" == dir + "/11/3_7.png";
  }

  /** The first tile at the coarsest zoom, -4, is a file of the level-9 directory. */
  lemma FirstTileAtCoarsestZoom(layer: TileLayerProps, base: string)
    requires layer.levels == DziLevels
    ensures GetTileData(layer, base, TileIndex(0, 0, -4)) == Some(base + layer.path + "/9/0_0.png")
  {
    assert Decimal.NatToDecimal(0) == "0" && Decimal.NatToDecimal(9) == "9";
    assert Decimal.IntToDecimal(9) == "9";
    assert TileFileName(0, 0) == "0_0.png";
    var dir := base + layer.path;
    assert DziTilePath(dir, 9, 0, 0) == dir + "/" + "9" + "/" + "0_0.png" == dir + "/9/0_0.png";
  }

  /** The tile at column 5, row 5 of the finest zoom is loaded from each channel's level-13 directory. */
  lemma TileFiveFiveAtFinestZoom(base: string)
    ensures TileLocators(base, TileIndex(5, 5, 0)) == [
      Some(base + RedPath + "/13/5_5.png"),
      Some(base + BluePath + "/13/5_5.png"),
      Some(base + YellowPath + "/13/5_5.png")]
  {
    var layers := Layers();
    FinestTileFiveFive(layers[0], base);
    FinestTileFiveFive(layers[1], base);
    FinestTileFiveFive(layers[2], base);
  }
}
