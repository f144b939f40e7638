/** Worked examples: the pyramid and layer built for a 4096 x 3072 scan. */
module Examples {

  import opened Pyramid
  import opened TileLayer
  import opened Wrappers
  import opened Decimal
  import opened TileAddress

  /** Five halving-related sizes from 256 x 192 up to 4096 x 3072 form its pyramid under 256-pixel tiles. */
  lemma ExamplePyramidShape()
    ensures IsPyramid([Size(256, 192), Size(512, 384), Size(1024, 768), Size(2048, 1536), Size(4096, 3072)],
                      Size(4096, 3072), 256)
  {
    var expected := [Size(256, 192), Size(512, 384), Size(1024, 768), Size(2048, 1536), Size(4096, 3072)];
    assert forall k :: 0 <= k < 4 ==> expected[k] == Half(expected[k + 1]) by {
      assert expected[0] == Half(expected[1]) && expected[1] == Half(expected[2]);
      assert expected[2] == Half(expected[3]) && expected[3] == Half(expected[4]);
    }
  }

  /** Under 128-pixel tiles the same image has a sixth, 128 x 96 level below. */
  lemma ExampleRetinaPyramidShape()
    ensures IsPyramid([Size(128, 96), Size(256, 192), Size(512, 384), Size(1024, 768), Size(2048, 1536), Size(4096, 3072)],
                      Size(4096, 3072), 128)
  {
    var expected := [Size(128, 96), Size(256, 192), Size(512, 384), Size(1024, 768), Size(2048, 1536), Size(4096, 3072)];
    assert forall k :: 0 <= k < 5 ==> expected[k] == Half(expected[k + 1]) by {
      assert expected[0] == Half(expected[1]) && expected[1] == Half(expected[2]);
      assert expected[2] == Half(expected[3]) && expected[3] == Half(expected[4]);
      assert expected[4] == Half(expected[5]);
    }
  }

  /** The pyramid of a 4096 x 3072 image under 256-pixel tiles has five levels, from 256 x 192 up. */
  lemma ExampleLevels()
    ensures Levels(Size(4096, 3072), 256)
         == [Size(256, 192), Size(512, 384), Size(1024, 768), Size(2048, 1536), Size(4096, 3072)]
  {
    ExamplePyramidShape();
    LevelsCharacterized([Size(256, 192), Size(512, 384), Size(1024, 768), Size(2048, 1536), Size(4096, 3072)],
      Size(4096, 3072), 256);
  }

  /** Under 128-pixel tiles it has six levels, from 128 x 96 up. */
  lemma ExampleRetinaLevels()
    ensures Levels(Size(4096, 3072), 128)
         == [Size(128, 96), Size(256, 192), Size(512, 384), Size(1024, 768), Size(2048, 1536), Size(4096, 3072)]
  {
    ExampleRetinaPyramidShape();
    LevelsCharacterized([Size(128, 96), Size(256, 192), Size(512, 384), Size(1024, 768), Size(2048, 1536), Size(4096, 3072)],
      Size(4096, 3072), 128);
  }

  /**
   A layer over a 4096 x 3072 image with 256-pixel tiles: `maxZoom` 4 and a
   16 x 12 grid at full resolution; on a retina display the tiles are 128
   pixels, `maxZoom` is 5 and the full-resolution grid is 32 x 24.
   */
  lemma ExampleLayer()
    ensures var l := Initialize("", Options(4096, 3072, 256, 0, 0, 18, true, DefaultTolerance), false).value;
      l.options.maxZoom == 4 && l.gridSizes[4] == Size(16, 12) && l.gridSizes[0] == Size(1, 1)
    ensures var l := Initialize("", Options(4096, 3072, 256, 0, 0, 18, true, DefaultTolerance), true).value;
      l.options.tileSize == 128 && l.options.maxZoom == 5 && l.gridSizes[5] == Size(32, 24)
  {
    ExampleLevels();
    ExampleRetinaLevels();
    assert GridSize(Size(256, 192), 256) == Size(1, 1);
  }

  /** A group number padded with a leading zero is not a tile URL. */
  lemma ExamplePaddedUrlRefused()
    ensures ParseTileUrl("", "TileGroup00/0-0-0.jpg") == None
  {
    var padded := "TileGroup00/0-0-0.jpg";
    assert "" + "TileGroup" <= padded;
    assert padded[|"" + "TileGroup"|..] == "00/0-0-0.jpg";
    assert ReadNat("00/0-0-0.jpg") == None;
  }
}
