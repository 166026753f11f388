/** The region-of-interest box that `create_shapefile` draws around a site.
    The site is first snapped to the centre of the Sentinel-2 pixel that
    contains it (a raster library call, so the centre is an input here); the
    box is then a square of half-side `c` around that centre, where `c` is half
    the configured ROI side, plus 5 m when that half is an even number of
    metres. */
module Roi {
  import opened Values
  import opened Text

  /** `shapely.geometry.box(minx, miny, maxx, maxy)`. */
  datatype Box = Box(left: real, bottom: real, right: real, top: real)

  /** The "cardinal" distance for an ROI side of `area` metres. The code
      computes `area / 2` as a float and tests `% 2 == 0`, which holds exactly
      when `area` is a multiple of 4. */
  function CardinalDistance(area: int): real
  {
    if area % 4 == 0 then area as real / 2.0 + 5.0 else area as real / 2.0
  }

  /** The box around the snapped pixel centre (px, py). */
  function BoxAround(area: int, px: real, py: real): Box
  {
    var c := CardinalDistance(area);
    Box(px - c, py - c, px + c, py + c)
  }

  /** The box is a square centred on the snapped pixel centre. */
  lemma BoxIsCentredSquare(area: int, px: real, py: real)
    ensures var b := BoxAround(area, px, py);
      && (b.left + b.right) / 2.0 == px
      && (b.bottom + b.top) / 2.0 == py
      && b.right - b.left == b.top - b.bottom == 2.0 * CardinalDistance(area)
  {
  }

  /** For every side the S2 setters accept (a multiple of 10 m) the cardinal
      distance is a whole number of metres ending in 5: `c = 10 * (k / 2) + 5`
      with `k = area / 10`. */
  lemma {:induction false} CardinalDistanceEndsInFive(area: int)
    requires area % 10 == 0
    ensures CardinalDistance(area) == (10 * (area / 10 / 2) + 5) as real
  {
    var k := area / 10;
    assert area == 10 * k;
    var h := k / 2;
    if k % 2 == 0 {
      assert k == 2 * h;
      assert area == 20 * h;
      assert area % 4 == 0;
      assert area as real / 2.0 == (10 * h) as real;
    } else {
      assert k == 2 * h + 1;
      assert area == 20 * h + 10;
      assert area % 4 == 2;
      assert area as real / 2.0 == (10 * h + 5) as real;
    }
  }

  /** When the snapped centre is the centre of a 10 m pixel (x = 10 a + 5,
      y = 10 b + 5), every edge of the box lies on a pixel edge, so clipping
      keeps whole border pixels, and each side spans the odd number
      `2 * (area / 10 / 2) + 1` of pixels centred on the site's pixel. */
  lemma BoxOnPixelEdges(area: int, a: int, b: int)
    requires area % 10 == 0
    ensures var h := area / 10 / 2;
      var box := BoxAround(area, (10 * a + 5) as real, (10 * b + 5) as real);
      && box.left == (10 * (a - h)) as real
      && box.right == (10 * (a + h + 1)) as real
      && box.bottom == (10 * (b - h)) as real
      && box.top == (10 * (b + h + 1)) as real
      && box.right - box.left == (10 * (2 * h + 1)) as real
  {
    CardinalDistanceEndsInFive(area);
  }

  /** The default 900 m side gives a 455 m half-side: 91 pixels of 10 m per side. */
  lemma DefaultBoxSpans91Pixels(px: real, py: real)
    ensures CardinalDistance(900) == 455.0
    ensures BoxAround(900, px, py).right - BoxAround(900, px, py).left == 910.0
  {
  }

  /** The EPSG code of `crs.data["init"]`, `"epsg:32632".split(":")[1]`:
      IndexError when the text has no ':'. */
  function CrsCode(init: string): (r: Result<string>)
    ensures r.Err? <==> ':' !in init
    ensures r.Ok? ==> ':' !in r.value
  {
    var fields := Split(init, ':');
    SplitPiecesHaveNoSeparator(init, ':');
    if |fields| < 2 then
      assert ':' !in init by {
        if ':' in init {
          var i :| 0 <= i < |init| && init[i] == ':';
          assert init == init[..i] + [':'] + init[i + 1..];
          SplitAround(init[..i], init[i + 1..], ':');
        }
      }
      Err(IndexError)
    else
      assert ':' in init by {
        if ':' !in init { SplitWithoutSeparator(init, ':'); }
      }
      Ok(fields[1])
  }

  /** `create_shapefile` on the CRS texts of the L1C and L2A images, the ROI
      side and the snapped pixel centre. Different EPSG codes raise SystemExit;
      a side that a driver set to raw configuration text makes `area / 2` raise
      TypeError. */
  function CreateShapefile(initL1C: string, initL2A: string, area: Setting<int>, px: real, py: real): (r: Result<Box>)
  {
    var codeL1C :- CrsCode(initL1C);
    var codeL2A :- CrsCode(initL2A);
    if codeL2A != codeL1C then Err(SystemExit)
    else match area
      case RawText(_) => Err(TypeError)
      case Checked(v) => Ok(BoxAround(v, px, py))
  }

  /** With readable CRS texts, `create_shapefile` raises SystemExit exactly when
      the EPSG codes differ, and otherwise returns the box around the centre. */
  lemma CreateShapefileOutcome(initL1C: string, initL2A: string, area: int, px: real, py: real)
    requires ':' in initL1C && ':' in initL2A
    ensures CrsCode(initL1C).value != CrsCode(initL2A).value ==>
              CreateShapefile(initL1C, initL2A, Checked(area), px, py) == Err(SystemExit)
    ensures CrsCode(initL1C).value == CrsCode(initL2A).value ==>
              CreateShapefile(initL1C, initL2A, Checked(area), px, py) == Ok(BoxAround(area, px, py))
  {
  }

  /** The EPSG code of `<authority>:<code>` is the code. */
  lemma CrsCodeOfPair(authority: string, code: string)
    requires ':' !in authority && ':' !in code
    ensures CrsCode(authority + [':'] + code) == Ok(code)
  {
    calc {
      Split(authority + [':'] + code, ':');
      { SplitAround(authority, code, ':'); }
      Split(authority, ':') + Split(code, ':');
      { SplitWithoutSeparator(authority, ':'); SplitWithoutSeparator(code, ':'); }
      [authority, code];
    }
  }
}
