/**
 Grid generation against its closed-form estimate, over the real numbers (grid/grid.go).
 The cosine of the middle latitude is a parameter; validated latitudes make it non-negative.
 */
module Grid {
  import opened Tables

  const KM_PER_DEGREE_LAT: real := 111.32
  const MIN_COS_LATITUDE: real := 0.000001

  datatype BoundingBox = BoundingBox(minLat: real, minLon: real, maxLat: real, maxLon: real)

  datatype Cell = Cell(lat: real, lon: real)

  function Ceil(x: real): int {
    -(-x).Floor
  }

  function AtLeastZero(n: int): nat {
    if n < 0 then 0 else n
  }

  function NormalizeCellSizeKm(cellSizeKm: real): real {
    if cellSizeKm <= 0.0 then 1.0 else cellSizeKm
  }

  function ClampCos(cosMidLat: real): real {
    if -MIN_COS_LATITUDE < cosMidLat < MIN_COS_LATITUDE
    then if cosMidLat < 0.0 then -MIN_COS_LATITUDE else MIN_COS_LATITUDE
    else cosMidLat
  }

  function LatStep(cellSizeKm: real): real {
    NormalizeCellSizeKm(cellSizeKm) / KM_PER_DEGREE_LAT
  }

  function LonStep(cellSizeKm: real, cosMidLat: real): real {
    NormalizeCellSizeKm(cellSizeKm) / (KM_PER_DEGREE_LAT * ClampCos(cosMidLat))
  }

  lemma StepsArePositive(cellSizeKm: real, cosMidLat: real)
    requires cosMidLat >= 0.0
    ensures LatStep(cellSizeKm) > 0.0 && LonStep(cellSizeKm, cosMidLat) > 0.0
  {
    var denominator := KM_PER_DEGREE_LAT * ClampCos(cosMidLat);
    assert denominator > 0.0;
    PositiveQuotient(NormalizeCellSizeKm(cellSizeKm), denominator);
  }

  lemma PositiveQuotient(x: real, y: real)
    requires x > 0.0 && y > 0.0
    ensures x / y > 0.0
  {
  }

  // ---------- One axis ----------

  /** The centre of the cell with index `k` on an axis that starts at `lo`. */
  function Centre(lo: real, step: real, k: int): real {
    lo + step / 2.0 + k as real * step
  }

  /** Centres that lie below `hi`: the claim that the loops are held against. */
  function CentreCount(lo: real, hi: real, step: real): nat
    requires step > 0.0
  {
    AtLeastZero(Ceil((hi - lo) / step - 0.5))
  }

  /** What the estimate counts on the same axis. */
  function EstimatedCount(lo: real, hi: real, step: real): nat
    requires step != 0.0
  {
    AtLeastZero(Ceil((hi - lo) / step))
  }

  lemma QuotientOrder(x: real, step: real, q: real)
    requires step > 0.0
    ensures q * step < x <==> q < x / step
    ensures x < q * step <==> x / step < q
  {
    var d := x / step;
    assert d * step == x;
    if q < d { assert (d - q) * step > 0.0; }
    if d < q { assert (q - d) * step > 0.0; }
  }

  /** The loop condition holds for exactly the first `CentreCount` indices. */
  lemma CentreIsBelow(lo: real, hi: real, step: real, k: nat)
    requires step > 0.0
    ensures Centre(lo, step, k) < hi <==> k < CentreCount(lo, hi, step)
  {
    var q := (hi - lo) / step;
    assert Centre(lo, step, k) == lo + (k as real + 0.5) * step;
    QuotientOrder(hi - lo, step, k as real + 0.5);
    assert k as real + 0.5 < q <==> k < Ceil(q - 0.5);
  }

  /**
   The estimate is the count or one more, and it is the count exactly if the last partial cell is absent or
   more than half a cell.
   */
  lemma EstimateIsCountOrOneMore(lo: real, hi: real, step: real)
    requires step > 0.0
    ensures CentreCount(lo, hi, step) <= EstimatedCount(lo, hi, step) <= CentreCount(lo, hi, step) + 1
    ensures EstimatedCount(lo, hi, step) == CentreCount(lo, hi, step) <==>
            var q := (hi - lo) / step;
            q <= 0.0 || q == q.Floor as real || q - q.Floor as real > 0.5
  {
    HalfLess((hi - lo) / step);
  }

  lemma HalfLess(q: real)
    ensures AtLeastZero(Ceil(q - 0.5)) <= AtLeastZero(Ceil(q)) <= AtLeastZero(Ceil(q - 0.5)) + 1
    ensures AtLeastZero(Ceil(q)) == AtLeastZero(Ceil(q - 0.5)) <==>
            q <= 0.0 || q == q.Floor as real || q - q.Floor as real > 0.5
  {
    var f := q.Floor;
    assert q == f as real ==> Ceil(q) == f && Ceil(q - 0.5) == f;
    assert q != f as real ==> Ceil(q) == f + 1;
    assert 0.0 < q - f as real <= 0.5 ==> Ceil(q - 0.5) == f;
    assert q - f as real > 0.5 ==> Ceil(q - 0.5) == f + 1;
  }

  /** Every point of the axis up to the end of the last cell is within half a step of a centre. */
  lemma NearestCentre(lo: real, hi: real, step: real, x: real) returns (k: nat)
    requires step > 0.0 && lo <= x && CentreCount(lo, hi, step) > 0
    requires x <= lo + CentreCount(lo, hi, step) as real * step
    ensures k < CentreCount(lo, hi, step)
    ensures -step / 2.0 <= x - Centre(lo, step, k) <= step / 2.0
  {
    var n := CentreCount(lo, hi, step);
    var q := (x - lo) / step;
    assert lo + q * step == x;
    QuotientOrder(x - lo, step, 0.0);
    QuotientOrder(x - lo, step, n as real);
    k := if q.Floor < n then q.Floor else n - 1;
    var d := q - k as real - 0.5;
    assert -0.5 <= d <= 0.5;
    OffsetFromCentre(lo, step, k, q, d);
    Scaled(d, step);
  }

  lemma OffsetFromCentre(lo: real, step: real, k: nat, q: real, d: real)
    requires d == q - k as real - 0.5
    ensures lo + q * step - Centre(lo, step, k) == d * step
  {
    assert d * step == q * step - k as real * step - 0.5 * step;
  }

  lemma Scaled(d: real, step: real)
    requires step > 0.0 && -0.5 <= d <= 0.5
    ensures -step / 2.0 <= d * step <= step / 2.0
  {
    assert (d + 0.5) * step >= 0.0 && (0.5 - d) * step >= 0.0;
  }

  /** What lies beyond the last cell is a strip at most half a step wide. */
  lemma TrailingStrip(lo: real, hi: real, step: real)
    requires step > 0.0
    ensures hi - (lo + CentreCount(lo, hi, step) as real * step) <= step / 2.0
  {
    var n := CentreCount(lo, hi, step);
    CentreIsBelow(lo, hi, step, n);
  }

  // ---------- The grid ----------

  function CellIn(bbox: BoundingBox, latStep: real, lonStep: real): (nat, nat) -> Cell {
    (i, j) => Cell(Centre(bbox.minLat, latStep, i), Centre(bbox.minLon, lonStep, j))
  }

  /** The first `rows` rows of the grid, south to north, each west to east. */
  function GridRows(bbox: BoundingBox, latStep: real, lonStep: real, rows: nat, columns: nat): seq<Cell> {
    Table(CellIn(bbox, latStep, lonStep), rows, columns)
  }

  function Rows(bbox: BoundingBox, cellSizeKm: real): nat {
    assert LatStep(cellSizeKm) > 0.0 by { StepsArePositive(cellSizeKm, 1.0); }
    CentreCount(bbox.minLat, bbox.maxLat, LatStep(cellSizeKm))
  }

  function Columns(bbox: BoundingBox, cellSizeKm: real, cosMidLat: real): nat
    requires cosMidLat >= 0.0
  {
    assert LonStep(cellSizeKm, cosMidLat) > 0.0 by { StepsArePositive(cellSizeKm, cosMidLat); }
    CentreCount(bbox.minLon, bbox.maxLon, LonStep(cellSizeKm, cosMidLat))
  }

  method GenerateCells(bbox: BoundingBox, cellSizeKm: real, cosMidLat: real) returns (cells: seq<Cell>)
    requires cosMidLat >= 0.0
    ensures cells == GridRows(bbox, LatStep(cellSizeKm), LonStep(cellSizeKm, cosMidLat),
                              Rows(bbox, cellSizeKm), Columns(bbox, cellSizeKm, cosMidLat))
  {
    StepsArePositive(cellSizeKm, cosMidLat);
    var latStep, lonStep := LatStep(cellSizeKm), LonStep(cellSizeKm, cosMidLat);
    ghost var rows, columns := Rows(bbox, cellSizeKm), Columns(bbox, cellSizeKm, cosMidLat);
    cells := [];
    var lat := bbox.minLat + latStep / 2.0;
    ghost var i := 0;
    CentreIsBelow(bbox.minLat, bbox.maxLat, latStep, 0);
    while lat < bbox.maxLat
      invariant 0 <= i <= rows && lat == Centre(bbox.minLat, latStep, i)
      invariant lat < bbox.maxLat <==> i < rows
      invariant cells == GridRows(bbox, latStep, lonStep, i, columns)
      decreases rows - i
    {
      ghost var before := cells;
      var lon := bbox.minLon + lonStep / 2.0;
      ghost var j := 0;
      CentreIsBelow(bbox.minLon, bbox.maxLon, lonStep, 0);
      while lon < bbox.maxLon
        invariant 0 <= j <= columns && lon == Centre(bbox.minLon, lonStep, j)
        invariant lon < bbox.maxLon <==> j < columns
        invariant cells == before + Row(CellIn(bbox, latStep, lonStep), i, j)
        decreases columns - j
      {
        cells := cells + [Cell(lat, lon)];
        NextCentre(bbox.minLon, lonStep, j);
        lon := lon + lonStep;
        j := j + 1;
        CentreIsBelow(bbox.minLon, bbox.maxLon, lonStep, j);
      }
      NextCentre(bbox.minLat, latStep, i);
      lat := lat + latStep;
      i := i + 1;
      CentreIsBelow(bbox.minLat, bbox.maxLat, latStep, i);
    }
  }

  lemma NextCentre(lo: real, step: real, k: nat)
    ensures Centre(lo, step, k + 1) == Centre(lo, step, k) + step
  {
    assert (k + 1) as real * step == k as real * step + step;
  }

  function EstimateCellCount(bbox: BoundingBox, cellSizeKm: real, cosMidLat: real): nat {
    var latStep, lonStep := LatStep(cellSizeKm), LonStep(cellSizeKm, cosMidLat);
    assert latStep != 0.0 by { StepsArePositive(cellSizeKm, 1.0); }
    assert lonStep != 0.0 by {
      QuotientNotZero(NormalizeCellSizeKm(cellSizeKm), KM_PER_DEGREE_LAT * ClampCos(cosMidLat));
    }
    EstimatedCount(bbox.minLat, bbox.maxLat, latStep) * EstimatedCount(bbox.minLon, bbox.maxLon, lonStep)
  }

  lemma QuotientNotZero(x: real, y: real)
    requires x != 0.0 && y != 0.0
    ensures x / y != 0.0
  {
    assert x / y * y == x;
  }

  // ---------- Main results ----------

  lemma CellAt(bbox: BoundingBox, latStep: real, lonStep: real, rows: nat, columns: nat, i: nat, j: nat)
    requires i < rows && j < columns
    ensures |GridRows(bbox, latStep, lonStep, rows, columns)| == rows * columns
    ensures 0 <= i * columns + j < rows * columns
    ensures GridRows(bbox, latStep, lonStep, rows, columns)[i * columns + j] ==
            Cell(Centre(bbox.minLat, latStep, i), Centre(bbox.minLon, lonStep, j))
  {
    TableSize(CellIn(bbox, latStep, lonStep), rows, columns);
    TableAt(CellIn(bbox, latStep, lonStep), rows, columns, i, j);
  }

  /** The point lies in the square of the cell. */
  predicate Covers(c: Cell, latStep: real, lonStep: real, lat: real, lon: real) {
    && -latStep / 2.0 <= lat - c.lat <= latStep / 2.0
    && -lonStep / 2.0 <= lon - c.lon <= lonStep / 2.0
  }

  /** Every point of the box that is before the end of the last row and column is in the square of a generated cell. */
  lemma GridCovers(bbox: BoundingBox, cellSizeKm: real, cosMidLat: real, lat: real, lon: real) returns (c: Cell)
    requires cosMidLat >= 0.0 && Rows(bbox, cellSizeKm) > 0 && Columns(bbox, cellSizeKm, cosMidLat) > 0
    requires bbox.minLat <= lat <= bbox.minLat + Rows(bbox, cellSizeKm) as real * LatStep(cellSizeKm)
    requires bbox.minLon <= lon <= bbox.minLon
             + Columns(bbox, cellSizeKm, cosMidLat) as real * LonStep(cellSizeKm, cosMidLat)
    ensures c in GridRows(bbox, LatStep(cellSizeKm), LonStep(cellSizeKm, cosMidLat),
                          Rows(bbox, cellSizeKm), Columns(bbox, cellSizeKm, cosMidLat))
    ensures Covers(c, LatStep(cellSizeKm), LonStep(cellSizeKm, cosMidLat), lat, lon)
  {
    StepsArePositive(cellSizeKm, cosMidLat);
    c := CoveringCell(bbox, LatStep(cellSizeKm), LonStep(cellSizeKm, cosMidLat), lat, lon);
  }

  lemma CoveringCell(bbox: BoundingBox, latStep: real, lonStep: real, lat: real, lon: real) returns (c: Cell)
    requires latStep > 0.0 && lonStep > 0.0
    requires CentreCount(bbox.minLat, bbox.maxLat, latStep) > 0 && CentreCount(bbox.minLon, bbox.maxLon, lonStep) > 0
    requires bbox.minLat <= lat <= bbox.minLat + CentreCount(bbox.minLat, bbox.maxLat, latStep) as real * latStep
    requires bbox.minLon <= lon <= bbox.minLon + CentreCount(bbox.minLon, bbox.maxLon, lonStep) as real * lonStep
    ensures c in GridRows(bbox, latStep, lonStep, CentreCount(bbox.minLat, bbox.maxLat, latStep),
                          CentreCount(bbox.minLon, bbox.maxLon, lonStep))
    ensures Covers(c, latStep, lonStep, lat, lon)
  {
    var rows, columns := CentreCount(bbox.minLat, bbox.maxLat, latStep), CentreCount(bbox.minLon, bbox.maxLon, lonStep);
    var i := NearestCentre(bbox.minLat, bbox.maxLat, latStep, lat);
    var j := NearestCentre(bbox.minLon, bbox.maxLon, lonStep, lon);
    CellAt(bbox, latStep, lonStep, rows, columns, i, j);
    c := Cell(Centre(bbox.minLat, latStep, i), Centre(bbox.minLon, lonStep, j));
  }

  lemma CellMembers(bbox: BoundingBox, latStep: real, lonStep: real, rows: nat, columns: nat, c: Cell)
      returns (i: nat, j: nat)
    requires c in GridRows(bbox, latStep, lonStep, rows, columns)
    ensures i < rows && j < columns
    ensures c == Cell(Centre(bbox.minLat, latStep, i), Centre(bbox.minLon, lonStep, j))
  {
    i, j := TableMember(CellIn(bbox, latStep, lonStep), rows, columns, c);
  }

  /** The squares end where the last row or column ends. */
  lemma EndOfAxis(lo: real, step: real, n: nat, k: nat, x: real)
    requires step > 0.0 && k < n && x - Centre(lo, step, k) <= step / 2.0
    ensures x <= lo + n as real * step
  {
    assert (k + 1) as real * step == k as real * step + step;
    assert (n - (k + 1)) as real * step >= 0.0;
    assert n as real * step == (k + 1) as real * step + (n - (k + 1)) as real * step;
  }

  /**
   A point of the box is in the square of a generated cell exactly if it is before the end of the last row and
   column.
   */
  lemma CoveredExactly(bbox: BoundingBox, cellSizeKm: real, cosMidLat: real, lat: real, lon: real)
    requires cosMidLat >= 0.0 && bbox.minLat <= lat && bbox.minLon <= lon
    ensures var rows, columns := Rows(bbox, cellSizeKm), Columns(bbox, cellSizeKm, cosMidLat);
            var latStep, lonStep := LatStep(cellSizeKm), LonStep(cellSizeKm, cosMidLat);
            (exists c :: c in GridRows(bbox, latStep, lonStep, rows, columns) && Covers(c, latStep, lonStep, lat, lon))
            <==> && rows > 0 && columns > 0
                 && lat <= bbox.minLat + rows as real * latStep && lon <= bbox.minLon + columns as real * lonStep
  {
    var rows, columns := Rows(bbox, cellSizeKm), Columns(bbox, cellSizeKm, cosMidLat);
    var latStep, lonStep := LatStep(cellSizeKm), LonStep(cellSizeKm, cosMidLat);
    StepsArePositive(cellSizeKm, cosMidLat);
    forall c | c in GridRows(bbox, latStep, lonStep, rows, columns) && Covers(c, latStep, lonStep, lat, lon)
      ensures rows > 0 && columns > 0
      ensures lat <= bbox.minLat + rows as real * latStep && lon <= bbox.minLon + columns as real * lonStep
    {
      var i, j := CellMembers(bbox, latStep, lonStep, rows, columns, c);
      EndOfAxis(bbox.minLat, latStep, rows, i, lat);
      EndOfAxis(bbox.minLon, lonStep, columns, j, lon);
    }
    if && rows > 0 && columns > 0
       && lat <= bbox.minLat + rows as real * latStep && lon <= bbox.minLon + columns as real * lonStep {
      var c := GridCovers(bbox, cellSizeKm, cosMidLat, lat, lon);
    }
  }

  /** What remains on either axis is a strip at most half a step wide. */
  lemma GridLeavesNarrowStrips(bbox: BoundingBox, cellSizeKm: real, cosMidLat: real)
    requires cosMidLat >= 0.0
    ensures bbox.maxLat - (bbox.minLat + Rows(bbox, cellSizeKm) as real * LatStep(cellSizeKm))
            <= LatStep(cellSizeKm) / 2.0
    ensures bbox.maxLon - (bbox.minLon + Columns(bbox, cellSizeKm, cosMidLat) as real * LonStep(cellSizeKm, cosMidLat))
            <= LonStep(cellSizeKm, cosMidLat) / 2.0
  {
    StepsArePositive(cellSizeKm, cosMidLat);
    TrailingStrip(bbox.minLat, bbox.maxLat, LatStep(cellSizeKm));
    TrailingStrip(bbox.minLon, bbox.maxLon, LonStep(cellSizeKm, cosMidLat));
  }

  /** The estimate of the whole grid: never too low, at most one row and one column too high. */
  lemma EstimateBounds(bbox: BoundingBox, cellSizeKm: real, cosMidLat: real)
    requires cosMidLat >= 0.0
    ensures var rows, columns := Rows(bbox, cellSizeKm), Columns(bbox, cellSizeKm, cosMidLat);
            rows * columns <= EstimateCellCount(bbox, cellSizeKm, cosMidLat) <= (rows + 1) * (columns + 1)
  {
    StepsArePositive(cellSizeKm, cosMidLat);
    var latStep, lonStep := LatStep(cellSizeKm), LonStep(cellSizeKm, cosMidLat);
    EstimateIsCountOrOneMore(bbox.minLat, bbox.maxLat, latStep);
    EstimateIsCountOrOneMore(bbox.minLon, bbox.maxLon, lonStep);
    var rows, columns := Rows(bbox, cellSizeKm), Columns(bbox, cellSizeKm, cosMidLat);
    var r, c := EstimatedCount(bbox.minLat, bbox.maxLat, latStep), EstimatedCount(bbox.minLon, bbox.maxLon, lonStep);
    ProductOrder(rows, r, columns, c);
    ProductOrder(r, rows + 1, c, columns + 1);
  }

  lemma ProductOrder(a: nat, b: nat, c: nat, d: nat)
    requires a <= b && c <= d
    ensures a * c <= b * d
  {
    assert a * c <= a * d by { assert a * (d - c) >= 0; assert a * d == a * c + a * (d - c); }
    assert a * d <= b * d by { assert (b - a) * d >= 0; assert b * d == a * d + (b - a) * d; }
  }

  lemma ProductStrict(a: nat, b: nat, c: nat, d: nat)
    requires a <= b && c <= d && b > 0 && d > 0
    ensures a * c == b * d <==> a == b && c == d
  {
    if a < b {
      ProductOrder(a, b - 1, c, d);
      assert b * d == (b - 1) * d + d;
    } else if c < d {
      ProductOrder(a, b, c, d - 1);
      assert b * d == b * (d - 1) + b;
    }
  }

  /** On an axis, whether no cell is counted that is not generated. */
  predicate ExactAxis(lo: real, hi: real, step: real)
    requires step != 0.0
  {
    var q := (hi - lo) / step;
    q == q.Floor as real || q - q.Floor as real > 0.5
  }

  /**
   For a box that is not empty, the estimate equals the number of generated cells exactly if on both
   axes the last partial cell is absent or more than half a cell.
   */
  lemma EstimateIsExactIff(bbox: BoundingBox, cellSizeKm: real, cosMidLat: real)
    requires cosMidLat >= 0.0 && bbox.minLat < bbox.maxLat && bbox.minLon < bbox.maxLon
    ensures LatStep(cellSizeKm) > 0.0 && LonStep(cellSizeKm, cosMidLat) > 0.0
    ensures EstimateCellCount(bbox, cellSizeKm, cosMidLat)
            == |GridRows(bbox, LatStep(cellSizeKm), LonStep(cellSizeKm, cosMidLat),
                         Rows(bbox, cellSizeKm), Columns(bbox, cellSizeKm, cosMidLat))|
            <==> ExactAxis(bbox.minLat, bbox.maxLat, LatStep(cellSizeKm))
                 && ExactAxis(bbox.minLon, bbox.maxLon, LonStep(cellSizeKm, cosMidLat))
  {
    StepsArePositive(cellSizeKm, cosMidLat);
    var latStep, lonStep := LatStep(cellSizeKm), LonStep(cellSizeKm, cosMidLat);
    var rows, columns := Rows(bbox, cellSizeKm), Columns(bbox, cellSizeKm, cosMidLat);
    TableSize(CellIn(bbox, latStep, lonStep), rows, columns);
    EstimateIsCountOrOneMore(bbox.minLat, bbox.maxLat, latStep);
    EstimateIsCountOrOneMore(bbox.minLon, bbox.maxLon, lonStep);
    PositiveQuotient(bbox.maxLat - bbox.minLat, latStep);
    PositiveQuotient(bbox.maxLon - bbox.minLon, lonStep);
    var r, c := EstimatedCount(bbox.minLat, bbox.maxLat, latStep), EstimatedCount(bbox.minLon, bbox.maxLon, lonStep);
    assert r > 0 && c > 0;
    ProductStrict(rows, r, columns, c);
  }

  /**
   The estimate is not always the number of cells: a box of one and a quarter cells each way has one cell and
   is estimated at four.
   */
  lemma EstimateCanExceed()
    ensures var step := 1.0 / KM_PER_DEGREE_LAT;
            var bbox := BoundingBox(0.0, 0.0, 1.25 * step, 1.25 * step);
            EstimateCellCount(bbox, 1.0, 1.0) == 4 && Rows(bbox, 1.0) == 1 && Columns(bbox, 1.0, 1.0) == 1
  {
    var step := 1.0 / KM_PER_DEGREE_LAT;
    assert LatStep(1.0) == step && LonStep(1.0, 1.0) == step;
    assert 1.25 * step / step == 1.25;
  }
}
