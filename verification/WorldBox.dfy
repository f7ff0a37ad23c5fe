/**
 The block box of a world export and the 512-block region files it needs
 (`export/dsh_world_export.py`), with the API's own check of the same box
 (`export_service.py`).  Python's `//` floors; Dafny's `/` by a positive
 constant does the same.
 */
module WorldBox {
  import opened Options

  const REGION_BLOCKS: int := 512
  /** The world border. */
  const COORDINATE_LIMIT: int := 29_999_984

  datatype Region = Region(x: int, z: int)

  function Min(a: int, b: int): int { if a <= b then a else b }
  function Max(a: int, b: int): int { if a <= b then b else a }

  /** Inclusive block corners. */
  datatype Area = Area(x1: int, z1: int, x2: int, z2: int) {
    function Width(): int { x2 - x1 + 1 }
    function Depth(): int { z2 - z1 + 1 }

    ghost predicate NonEmpty() { x1 <= x2 && z1 <= z2 }

    ghost predicate Contains(x: int, z: int) { x1 <= x <= x2 && z1 <= z <= z2 }

    /** The region files, column by column. */
    function Regions(): seq<Region> {
      Columns(x1 / REGION_BLOCKS, x2 / REGION_BLOCKS, z1 / REGION_BLOCKS, z2 / REGION_BLOCKS)
    }
  }

  function FromCorners(x1: int, z1: int, x2: int, z2: int): Area {
    Area(Min(x1, x2), Min(z1, z2), Max(x1, x2), Max(z1, z2))
  }

  function Around(x: int, z: int, size: int): Area {
    var half := size / 2;
    Area(x - half, z - half, x - half + size - 1, z - half + size - 1)
  }

  function Column(rx: int, rz1: int, rz2: int): seq<Region>
    decreases rz2 - rz1
  {
    if rz1 > rz2 then [] else [Region(rx, rz1)] + Column(rx, rz1 + 1, rz2)
  }

  function Columns(rx1: int, rx2: int, rz1: int, rz2: int): seq<Region>
    decreases rx2 - rx1
  {
    if rx1 > rx2 then [] else Column(rx1, rz1, rz2) + Columns(rx1 + 1, rx2, rz1, rz2)
  }

  /** The region that holds a block, and what it means for a region to hold one. */
  function RegionOf(x: int, z: int): Region {
    Region(x / REGION_BLOCKS, z / REGION_BLOCKS)
  }

  ghost predicate Spans(index: int, b: int) {
    index * 512 <= b < (index + 1) * 512
  }

  ghost predicate Covers(r: Region, x: int, z: int) {
    Spans(r.x, x) && Spans(r.z, z)
  }

  ghost predicate Intersects(r: Region, a: Area) {
    exists x, z :: a.Contains(x, z) && Covers(r, x, z)
  }

  ghost predicate Distinct(rs: seq<Region>) {
    forall i, j | 0 <= i < j < |rs| :: rs[i] != rs[j]
  }

  lemma {:induction false} ColumnIsExact(rx: int, rz1: int, rz2: int)
    ensures forall r :: r in Column(rx, rz1, rz2) <==> r.x == rx && rz1 <= r.z <= rz2
    ensures Distinct(Column(rx, rz1, rz2))
    ensures |Column(rx, rz1, rz2)| == Max(0, rz2 - rz1 + 1)
    decreases rz2 - rz1
  {
    if rz1 <= rz2 {
      ColumnIsExact(rx, rz1 + 1, rz2);
    }
  }

  lemma {:induction false} ColumnsAreExact(rx1: int, rx2: int, rz1: int, rz2: int)
    ensures forall r :: r in Columns(rx1, rx2, rz1, rz2) <==> rx1 <= r.x <= rx2 && rz1 <= r.z <= rz2
    ensures Distinct(Columns(rx1, rx2, rz1, rz2))
    decreases rx2 - rx1
  {
    if rx1 <= rx2 {
      var first, others := Column(rx1, rz1, rz2), Columns(rx1 + 1, rx2, rz1, rz2);
      ColumnIsExact(rx1, rz1, rz2);
      ColumnsAreExact(rx1 + 1, rx2, rz1, rz2);
      forall i, j | 0 <= i < j < |first + others|
        ensures (first + others)[i] != (first + others)[j]
      {
        assert i < |first| ==> first[i] in first;
        assert j >= |first| ==> others[j - |first|] in others;
      }
    }
  }

  lemma {:induction false} ColumnsCount(rx1: int, rx2: int, rz1: int, rz2: int)
    ensures |Columns(rx1, rx2, rz1, rz2)| == Max(0, rx2 - rx1 + 1) * Max(0, rz2 - rz1 + 1)
    decreases rx2 - rx1
  {
    if rx1 <= rx2 {
      ColumnIsExact(rx1, rz1, rz2);
      ColumnsCount(rx1 + 1, rx2, rz1, rz2);
      var n, m := rx2 - rx1, Max(0, rz2 - rz1 + 1);
      assert (n + 1) * m == n * m + m;
    }
  }

  /**
   A box built from corners is the one they span, whichever way round; one built around
   a point has the size asked for and the point in its middle, at most a block nearer
   its far end.
   */
  lemma BuiltBoxes(x1: int, z1: int, x2: int, z2: int, size: int)
    ensures FromCorners(x1, z1, x2, z2).NonEmpty()
    ensures forall x, z :: FromCorners(x1, z1, x2, z2).Contains(x, z) <==>
              (x1 <= x <= x2 || x2 <= x <= x1) && (z1 <= z <= z2 || z2 <= z <= z1)
    ensures size >= 1 ==> Around(x1, z1, size).NonEmpty() && Around(x1, z1, size).Contains(x1, z1)
    ensures Around(x1, z1, size).Width() == size == Around(x1, z1, size).Depth()
    ensures var a := Around(x1, z1, size); 0 <= (x1 - a.x1) - (a.x2 - x1) <= 1 && 0 <= (z1 - a.z1) - (a.z2 - z1) <= 1
  {
  }

  /** One axis: a region index between the floors of the ends meets the interval, and only such an index does. */
  lemma AxisMeets(lo: int, hi: int, index: int)
    requires lo <= hi
    ensures lo / REGION_BLOCKS <= index <= hi / REGION_BLOCKS
       <==> exists b :: Spans(index, b) && lo <= b <= hi
  {
    if lo / REGION_BLOCKS <= index <= hi / REGION_BLOCKS {
      var b := Max(lo, index * REGION_BLOCKS);
      assert Spans(index, b) && lo <= b <= hi;
    }
  }

  /** A region is listed, exactly once, when and only when it holds a block of the box. */
  lemma RegionsCoverTheBox(a: Area)
    requires a.NonEmpty()
    ensures forall r :: r in a.Regions() <==> Intersects(r, a)
    ensures Distinct(a.Regions())
  {
    ColumnsAreExact(a.x1 / REGION_BLOCKS, a.x2 / REGION_BLOCKS, a.z1 / REGION_BLOCKS, a.z2 / REGION_BLOCKS);
    forall r
      ensures r in a.Regions() <==> Intersects(r, a)
    {
      AxisMeets(a.x1, a.x2, r.x);
      AxisMeets(a.z1, a.z2, r.z);
      if r in a.Regions() {
        var x :| Spans(r.x, x) && a.x1 <= x <= a.x2;
        var z :| Spans(r.z, z) && a.z1 <= z <= a.z2;
        assert a.Contains(x, z) && Covers(r, x, z);
      }
    }
  }

  /** Every block of the box lies in one listed region and in no other region at all. */
  lemma EveryBlockOnce(a: Area, x: int, z: int)
    requires a.Contains(x, z)
    ensures RegionOf(x, z) in a.Regions()
    ensures forall r :: Covers(r, x, z) <==> r == RegionOf(x, z)
  {
    RegionsCoverTheBox(a);
    assert Covers(RegionOf(x, z), x, z);
  }

  /** How many region files one axis can need. */
  function MostRegions(width: int): int { (width + 510) / REGION_BLOCKS + 1 }

  /**
   An axis of width `w` needs at most `(w + 510) // 512 + 1` regions, a bound
   the worst alignment reaches, so a box within the 512 cap needs at most four.
   */
  lemma FewRegions(a: Area)
    requires a.NonEmpty()
    ensures a.x2 / REGION_BLOCKS - a.x1 / REGION_BLOCKS + 1 <= MostRegions(a.Width())
    ensures a.z2 / REGION_BLOCKS - a.z1 / REGION_BLOCKS + 1 <= MostRegions(a.Depth())
    ensures |a.Regions()| <= MostRegions(a.Width()) * MostRegions(a.Depth())
    ensures a.Width() <= 512 && a.Depth() <= 512 ==> |a.Regions()| <= 4
  {
    var rx1, rx2, rz1, rz2 := a.x1 / REGION_BLOCKS, a.x2 / REGION_BLOCKS, a.z1 / REGION_BLOCKS, a.z2 / REGION_BLOCKS;
    ColumnsCount(rx1, rx2, rz1, rz2);
    Product(rx2 - rx1 + 1, MostRegions(a.Width()), rz2 - rz1 + 1, MostRegions(a.Depth()));
    if a.Width() <= 512 && a.Depth() <= 512 {
      Product(rx2 - rx1 + 1, 2, rz2 - rz1 + 1, 2);
    }
  }

  lemma Product(a: int, b: int, c: int, d: int)
    requires 0 <= a <= b && 0 <= c <= d
    ensures a * c <= b * d
  {
    assert a * c <= b * c;
    assert b * c <= b * d;
  }

  /** The bound is tight: a box starting on the last block of a region needs that many. */
  lemma FewRegionsIsTight(w: int)
    requires w >= 1
    ensures var a := FromCorners(511, 511, 511 + w - 1, 511 + w - 1);
            a.Width() == w && |a.Regions()| == MostRegions(w) * MostRegions(w)
  {
    var a := FromCorners(511, 511, 511 + w - 1, 511 + w - 1);
    ColumnsCount(a.x1 / REGION_BLOCKS, a.x2 / REGION_BLOCKS, a.z1 / REGION_BLOCKS, a.z2 / REGION_BLOCKS);
  }

  function Abs(v: int): int { if v < 0 then -v else v }

  predicate InsideBorder(x1: int, z1: int, x2: int, z2: int) {
    Abs(x1) <= COORDINATE_LIMIT && Abs(z1) <= COORDINATE_LIMIT && Abs(x2) <= COORDINATE_LIMIT && Abs(z2) <= COORDINATE_LIMIT
  }

  /** `ExportService.validate_area`: the box in order, or a refusal. */
  function ValidateArea(x1: int, z1: int, x2: int, z2: int, cap: int): Option<Area> {
    if !InsideBorder(x1, z1, x2, z2) then None
    else
      var a := Area(Min(x1, x2), Min(z1, z2), Max(x1, x2), Max(z1, z2));
      if a.Width() > cap || a.Depth() > cap then None else Some(a)
  }

  /** The pod's own reading of the four numbers it is passed, and its size check. */
  function PodArea(x1: int, z1: int, x2: int, z2: int, cap: int): Option<Area> {
    var a := FromCorners(x1, z1, x2, z2);
    if a.Width() > cap || a.Depth() > cap then None else Some(a)
  }

  /**
   A box the API accepts reaches the exporter unchanged: the pod rebuilds the
   same box from the corners it is passed and its own check accepts it.  The
   box is the one the corners span, whichever way round they were given.
   */
  lemma AcceptedAreaPassesThePod(x1: int, z1: int, x2: int, z2: int, cap: int)
    ensures ValidateArea(x1, z1, x2, z2, cap).Some?
       <==> && -29_999_984 <= x1 <= 29_999_984 && -29_999_984 <= z1 <= 29_999_984
            && -29_999_984 <= x2 <= 29_999_984 && -29_999_984 <= z2 <= 29_999_984
            && x2 - x1 < cap && x1 - x2 < cap && z2 - z1 < cap && z1 - z2 < cap
    ensures PodArea(x1, z1, x2, z2, cap).Some? <==> x2 - x1 < cap && x1 - x2 < cap && z2 - z1 < cap && z1 - z2 < cap
    ensures ValidateArea(x1, z1, x2, z2, cap).Some? ==>
              var a := ValidateArea(x1, z1, x2, z2, cap).value;
              && PodArea(a.x1, a.z1, a.x2, a.z2, cap) == Some(a)
              && a.NonEmpty()
              && (forall x, z :: a.Contains(x, z) <==>
                    (x1 <= x <= x2 || x2 <= x <= x1) && (z1 <= z <= z2 || z2 <= z <= z1))
              && (cap <= 512 ==> |a.Regions()| <= 4)
  {
    if ValidateArea(x1, z1, x2, z2, cap).Some? {
      FewRegions(ValidateArea(x1, z1, x2, z2, cap).value);
    }
  }
}
