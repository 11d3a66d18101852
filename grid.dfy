/**
 * `grid`: one axis-aligned rectangle per centre, at ground level. The cell size along each
 * axis is the smallest strictly positive difference between two centres along that axis.
 */
module Grid {
  import opened Wrappers
  import opened Errors
  import opened Czml
  import opened Decorations
  import opened SensorInputs

  // ---------------------------------------------------------------------------
  // Input

  /** A list is reshaped to (n, 3, 1); an array must already have that shape. There is no dtype check. */
  function GridPoints(p: PointsInput): (r: Result<seq<Point>, Error>)
    requires WellFormed(p)
    ensures p.PointList? ==> (r.Failure? <==> |p.numbers| % 3 != 0)
    ensures p.PointList? && r.Failure? ==> r.error == ReshapeError
    ensures p.PointList? && r.Success? ==>
      (3 * |r.value| == |p.numbers| && forall i :: 0 <= i < |r.value| ==>
         r.value[i] == Point(NumberValue(p.numbers[3 * i]), NumberValue(p.numbers[3 * i + 1]), NumberValue(p.numbers[3 * i + 2])))
    ensures p.PointArray? && |p.shape| != 3 ==> r == Failure(NumDimensionsError)
    ensures p.PointArray? && |p.shape| == 3 && p.shape[1..] != [3, 1] ==> r == Failure(ShapeError)
    ensures p.PointArray? && |p.shape| == 3 && p.shape[1..] == [3, 1] ==>
      (r.Success? && |r.value| == p.shape[0] && 3 * |r.value| == |p.flat| &&
       forall i :: 0 <= i < |r.value| ==> r.value[i] == RowPoint(p.flat, i))
  {
    match p
    case PointList(ns) =>
      if |ns| % 3 != 0 then Failure(ReshapeError)
      else Success(seq(|ns| / 3, i requires 0 <= i < |ns| / 3 =>
        Point(NumberValue(ns[3 * i]), NumberValue(ns[3 * i + 1]), NumberValue(ns[3 * i + 2]))))
    case PointArray(shape, _, flat) =>
      if |shape| != 3 then Failure(NumDimensionsError)
      else if shape[1..] != [3, 1] then Failure(ShapeError)
      else
        assert shape == [shape[0], 3, 1];
        ProductOfPoints(shape[0]);
        Success(seq(shape[0], i requires 0 <= i < shape[0] => RowPoint(flat, i)))
  }

  function Grounded(pts: seq<Point>): seq<Point>
  {
    seq(|pts|, i requires 0 <= i < |pts| => pts[i].(alt := 0.0))
  }

  /** The working copy of the centres, with every altitude set to zero; the caller's points stay as they are. */
  method GroundedCopy(pts: seq<Point>) returns (copy: array<Point>)
    ensures fresh(copy)
    ensures copy[..] == Grounded(pts)
  {
    copy := new Point[|pts|](i requires 0 <= i < |pts| => pts[i]);
    var i := 0;
    while i < copy.Length
      invariant 0 <= i <= copy.Length
      invariant forall j :: 0 <= j < i ==> copy[j] == pts[j].(alt := 0.0)
      invariant forall j :: i <= j < copy.Length ==> copy[j] == pts[j]
    {
      copy[i] := copy[i].(alt := 0.0);
      i := i + 1;
    }
  }

  // ---------------------------------------------------------------------------
  // Cell size

  function Abs(x: real): real
  {
    if x < 0.0 then -x else x
  }

  function MinOption(a: Option<real>, b: Option<real>): (r: Option<real>)
    ensures r.None? <==> a.None? && b.None?
    ensures r == a || r == b
    ensures r.Some? && a.Some? ==> r.value <= a.value
    ensures r.Some? && b.Some? ==> r.value <= b.value
  {
    if a.None? then b else if b.None? then a else if b.value < a.value then b else a
  }

  /** The least strictly positive |x - xs[j]| over j < m, if there is one. */
  function NearestOther(xs: seq<real>, x: real, m: nat): (r: Option<real>)
    requires m <= |xs|
    ensures r.Some? ==> r.value > 0.0
  {
    if m == 0 then None
    else
      var d := Abs(x - xs[m - 1]);
      MinOption(NearestOther(xs, x, m - 1), if d > 0.0 then Some(d) else None)
  }

  /** `NearestOther` is none exactly when the first `m` values all equal `x`. */
  lemma {:induction false} NearestOtherNone(xs: seq<real>, x: real, m: nat)
    requires m <= |xs|
    ensures NearestOther(xs, x, m).None? <==> forall j :: 0 <= j < m ==> xs[j] == x
  {
    if m > 0 {
      NearestOtherNone(xs, x, m - 1);
    }
  }

  /** `NearestOther` is the distance from `x` to one of the first `m` values. */
  lemma {:induction false} NearestOtherAttained(xs: seq<real>, x: real, m: nat)
    requires m <= |xs| && NearestOther(xs, x, m).Some?
    ensures exists j :: 0 <= j < m && Abs(x - xs[j]) == NearestOther(xs, x, m).value
  {
    var d := Abs(x - xs[m - 1]);
    if NearestOther(xs, x, m).value == d {
      assert 0 <= m - 1 < m;
    } else {
      NearestOtherAttained(xs, x, m - 1);
      var j :| 0 <= j < m - 1 && Abs(x - xs[j]) == NearestOther(xs, x, m - 1).value;
      assert 0 <= j < m;
    }
  }

  /** `NearestOther` is at most the distance from `x` to any of the first `m` values that differs from it. */
  lemma {:induction false} NearestOtherBelow(xs: seq<real>, x: real, m: nat, j: nat)
    requires j < m <= |xs| && xs[j] != x
    ensures NearestOther(xs, x, m).Some? && NearestOther(xs, x, m).value <= Abs(x - xs[j])
  {
    if j < m - 1 {
      NearestOtherBelow(xs, x, m - 1, j);
    }
  }

  /** The least strictly positive |xs[i] - xs[j]| over i < k and any j, if there is one. */
  function PairwiseMin(xs: seq<real>, k: nat): (r: Option<real>)
    requires k <= |xs|
    ensures r.Some? ==> r.value > 0.0
  {
    if k == 0 then None
    else MinOption(PairwiseMin(xs, k - 1), NearestOther(xs, xs[k - 1], |xs|))
  }

  /** `PairwiseMin` is none exactly when each of the first `k` values equals every value. */
  lemma {:induction false} PairwiseMinNone(xs: seq<real>, k: nat)
    requires k <= |xs|
    ensures PairwiseMin(xs, k).None? <==> forall i, j :: 0 <= i < k && 0 <= j < |xs| ==> xs[j] == xs[i]
  {
    if k > 0 {
      PairwiseMinNone(xs, k - 1);
      NearestOtherNone(xs, xs[k - 1], |xs|);
      assert PairwiseMin(xs, k) == MinOption(PairwiseMin(xs, k - 1), NearestOther(xs, xs[k - 1], |xs|));
    }
  }

  /** When there is a positive difference among the first `k` values, `PairwiseMin` is one of them. */
  lemma {:induction false} PairwiseMinAttained(xs: seq<real>, k: nat)
    requires k <= |xs| && PairwiseMin(xs, k).Some?
    ensures exists i, j :: 0 <= i < k && 0 <= j < |xs| && Abs(xs[i] - xs[j]) == PairwiseMin(xs, k).value
  {
    var prev, here := PairwiseMin(xs, k - 1), NearestOther(xs, xs[k - 1], |xs|);
    var r := PairwiseMin(xs, k);
    assert r == MinOption(prev, here);
    if r == here {
      NearestOtherAttained(xs, xs[k - 1], |xs|);
      var j :| 0 <= j < |xs| && Abs(xs[k - 1] - xs[j]) == here.value;
      assert 0 <= k - 1 < k;
    } else {
      PairwiseMinAttained(xs, k - 1);
      var i, j :| 0 <= i < k - 1 && 0 <= j < |xs| && Abs(xs[i] - xs[j]) == prev.value;
      assert 0 <= i < k;
    }
  }

  /** `PairwiseMin` is at most any positive difference between one of the first `k` values and another value. */
  lemma {:induction false} PairwiseMinBelowPair(xs: seq<real>, k: nat, i: nat, j: nat)
    requires i < k <= |xs| && j < |xs| && xs[j] != xs[i]
    ensures PairwiseMin(xs, k).Some? && PairwiseMin(xs, k).value <= Abs(xs[i] - xs[j])
  {
    if i == k - 1 {
      NearestOtherBelow(xs, xs[i], |xs|, j);
    } else {
      PairwiseMinBelowPair(xs, k - 1, i, j);
    }
  }

  lemma PairwiseMinBelow(xs: seq<real>, k: nat)
    requires k <= |xs| && PairwiseMin(xs, k).Some?
    ensures forall i, j :: 0 <= i < k && 0 <= j < |xs| && xs[j] != xs[i] ==> PairwiseMin(xs, k).value <= Abs(xs[i] - xs[j])
  {
    forall i, j | 0 <= i < k && 0 <= j < |xs| && xs[j] != xs[i]
      ensures PairwiseMin(xs, k).value <= Abs(xs[i] - xs[j])
    {
      PairwiseMinBelowPair(xs, k, i, j);
    }
  }

  /** The minimum of the positive pairwise differences; numpy's minimum of an empty selection fails. */
  function Pitch(xs: seq<real>): (r: Result<real, Error>)
    ensures r.Failure? ==> r.error == EmptyMinimum
    ensures r.Success? ==> r.value > 0.0
  {
    match PairwiseMin(xs, |xs|)
    case None => Failure(EmptyMinimum)
    case Some(d) => Success(d)
  }

  /** The cell size is the least strictly positive difference, and it fails exactly when all values are equal. */
  lemma PitchIsLeastPositiveDifference(xs: seq<real>)
    ensures Pitch(xs).Failure? <==> forall i, j :: 0 <= i < |xs| && 0 <= j < |xs| ==> xs[j] == xs[i]
    ensures Pitch(xs).Success? ==> exists i, j :: 0 <= i < |xs| && 0 <= j < |xs| && Abs(xs[i] - xs[j]) == Pitch(xs).value
    ensures Pitch(xs).Success? ==> forall i, j :: 0 <= i < |xs| && 0 <= j < |xs| && xs[j] != xs[i] ==> Pitch(xs).value <= Abs(xs[i] - xs[j])
  {
    PairwiseMinNone(xs, |xs|);
    if Pitch(xs).Success? {
      PairwiseMinAttained(xs, |xs|);
      PairwiseMinBelow(xs, |xs|);
    }
  }

  function Latitudes(pts: seq<Point>): (r: seq<real>)
    ensures |r| == |pts| && forall i :: 0 <= i < |pts| ==> r[i] == pts[i].lat
  {
    seq(|pts|, i requires 0 <= i < |pts| => pts[i].lat)
  }

  function Longitudes(pts: seq<Point>): (r: seq<real>)
    ensures |r| == |pts| && forall i :: 0 <= i < |pts| ==> r[i] == pts[i].lon
  {
    seq(|pts|, i requires 0 <= i < |pts| => pts[i].lon)
  }

  // ---------------------------------------------------------------------------
  // Cells

  /** The corners of the cell around `c`, clockwise from the south-west one, at altitude zero. */
  function Cell(c: Point, dLon: real, dLat: real): seq<Cartographic>
  {
    [ Cartographic(c.lon - dLon / 2.0, c.lat - dLat / 2.0, 0.0),
      Cartographic(c.lon - dLon / 2.0, c.lat + dLat / 2.0, 0.0),
      Cartographic(c.lon + dLon / 2.0, c.lat + dLat / 2.0, 0.0),
      Cartographic(c.lon + dLon / 2.0, c.lat - dLat / 2.0, 0.0) ]
  }

  const White: Value := Colour([255, 255, 255, 255])

  /** The polygon fields: the template's, plus a white outline. */
  function CellFields(d: Decoration): map<string, Value>
  {
    d.shape["outlineColor" := White]["outline" := Flag(true)]
  }

  function CellPacket(i: nat, c: Point, dLon: real, dLat: real, d: Decoration): Packet
  {
    Packet(GridId(i), Geometry(PolygonKind, Cell(c, dLon, dLat), CellFields(d)), d.extras)
  }

  function Cells(cs: seq<Point>, dLon: real, dLat: real, ds: seq<Decoration>): seq<Packet>
    requires |cs| == |ds|
  {
    seq(|cs|, i requires 0 <= i < |cs| => CellPacket(i, cs[i], dLon, dLat, ds[i]))
  }

  /** The cells, or the `TypeError` of the first cell whose keywords collide. */
  function CellsOutcome(cs: seq<Point>, dLon: real, dLat: real, ds: seq<Decoration>): Result<seq<Packet>, Error>
    requires |cs| == |ds|
  {
    if AnyCollides(ds, |ds|, GridRule) then Failure(DuplicateKeyword) else Success(Cells(cs, dLon, dLat, ds))
  }

  /**
   * The cells around validated centres, or the failure of one of the two minima (latitude
   * first), or the `TypeError` of a cell whose keywords collide.
   */
  function GridOfCentres(cs: seq<Point>, params: seq<(string, Value)>): Result<seq<Packet>, Error>
  {
    var dLat :- Pitch(Latitudes(cs));
    var dLon :- Pitch(Longitudes(cs));
    CellsOutcome(cs, dLon, dLat, EntityDecorations(params, |cs|, GridRule))
  }

  function GridSpec(p: PointsInput, params: seq<(string, Value)>): Result<seq<Packet>, Error>
    requires WellFormed(p)
  {
    var pts :- GridPoints(p);
    GridOfCentres(Grounded(pts), params)
  }

  /** The cell loop; `Packet` raises at the first cell whose keywords collide. */
  method BuildCells(cs: seq<Point>, dLon: real, dLat: real, ds: seq<Decoration>) returns (r: Result<seq<Packet>, Error>)
    requires |cs| == |ds|
    ensures r == CellsOutcome(cs, dLon, dLat, ds)
  {
    var out := [];
    var i := 0;
    while i < |cs|
      invariant 0 <= i <= |cs|
      invariant out == Cells(cs, dLon, dLat, ds)[..i]
      invariant forall j :: 0 <= j < i ==> !Collides(ds[j], GridRule)
    {
      if Collides(ds[i], GridRule) {
        assert AnyCollides(ds, |ds|, GridRule);
        return Failure(DuplicateKeyword);
      }
      out := out + [CellPacket(i, cs[i], dLon, dLat, ds[i])];
      i := i + 1;
    }
    assert Cells(cs, dLon, dLat, ds)[..|cs|] == Cells(cs, dLon, dLat, ds);
    return Success(out);
  }

  method BuildGrid(cs: seq<Point>, params: seq<(string, Value)>) returns (r: Result<seq<Packet>, Error>)
    ensures r == GridOfCentres(cs, params)
  {
    var dLat := Pitch(Latitudes(cs));
    if dLat.Failure? {
      return Failure(dLat.error);
    }
    var dLon := Pitch(Longitudes(cs));
    if dLon.Failure? {
      return Failure(dLon.error);
    }
    var ds := Distribute(params, |cs|, GridRule, false);
    assert ds == EntityDecorations(params, |cs|, GridRule);
    r := BuildCells(cs, dLon.value, dLat.value, ds);
  }

  /** `grid`: check, copy at ground level, then build the cells around the copy. */
  method MakeGrid(p: PointsInput, params: seq<(string, Value)>) returns (r: Result<seq<Packet>, Error>)
    requires WellFormed(p)
    ensures r == GridSpec(p, params)
  {
    var v := GridPoints(p);
    if v.Failure? {
      return Failure(v.error);
    }
    var copy := GroundedCopy(v.value);
    r := BuildGrid(copy[..], params);
  }

  // ---------------------------------------------------------------------------
  // Properties

  /** A cell is the rectangle of the given width and height centred on its centre, at altitude zero. */
  lemma CellIsRectangle(c: Point, dLon: real, dLat: real)
    ensures var r := Cell(c, dLon, dLat);
      |r| == 4 && (forall k :: 0 <= k < 4 ==> r[k].alt == 0.0) &&
      r[0].lon == r[1].lon && r[1].lat == r[2].lat && r[2].lon == r[3].lon && r[3].lat == r[0].lat &&
      r[2].lon - r[0].lon == dLon && r[2].lat - r[0].lat == dLat &&
      (r[0].lon + r[2].lon) / 2.0 == c.lon && (r[0].lat + r[2].lat) / 2.0 == c.lat
  {
  }

  /** A point strictly inside the rectangle spanned by the first and third corners of a ring. */
  predicate Inside(ring: seq<Cartographic>, x: real, y: real)
    requires |ring| == 4
  {
    ring[0].lon < x < ring[2].lon && ring[0].lat < y < ring[2].lat
  }

  lemma AbsAtLeast(a: real, b: real, d: real)
    requires d <= Abs(a - b)
    ensures a + d <= b || b + d <= a
  {
  }

  lemma CellsLayout(cs: seq<Point>, dLon: real, dLat: real, ds: seq<Decoration>)
    requires |cs| == |ds|
    ensures var out := Cells(cs, dLon, dLat, ds);
      |out| == |cs| &&
      forall i :: 0 <= i < |out| ==>
        (out[i].id == GridId(i) && out[i].geometry.kind == PolygonKind &&
         out[i].geometry.positions == Cell(cs[i], dLon, dLat) &&
         out[i].geometry.fields["outline"] == Flag(true) && out[i].geometry.fields["outlineColor"] == White)
  {
  }

  /** A successful grid is the cells around the grounded centres, sized by the two pitches. */
  lemma GridIsCells(p: PointsInput, params: seq<(string, Value)>)
    requires WellFormed(p) && GridSpec(p, params).Success?
    ensures GridPoints(p).Success?
    ensures var cs := Grounded(GridPoints(p).value);
      Pitch(Latitudes(cs)).Success? && Pitch(Longitudes(cs)).Success? &&
      GridSpec(p, params).value ==
        Cells(cs, Pitch(Longitudes(cs)).value, Pitch(Latitudes(cs)).value, EntityDecorations(params, |cs|, GridRule))
  {
  }

  /** The packets are one per centre, in order, each a white-outlined cell at ground level centred on its centre. */
  lemma GridLayout(p: PointsInput, params: seq<(string, Value)>)
    requires WellFormed(p) && GridSpec(p, params).Success?
    ensures GridPoints(p).Success?
    ensures var out, centres := GridSpec(p, params).value, GridPoints(p).value;
      |out| == |centres| &&
      forall i :: 0 <= i < |out| ==>
        (out[i].id == GridId(i) && out[i].geometry.kind == PolygonKind && |out[i].geometry.positions| == 4 &&
         (forall k :: 0 <= k < 4 ==> out[i].geometry.positions[k].alt == 0.0) &&
         (out[i].geometry.positions[0].lon + out[i].geometry.positions[2].lon) / 2.0 == centres[i].lon &&
         (out[i].geometry.positions[0].lat + out[i].geometry.positions[2].lat) / 2.0 == centres[i].lat &&
         out[i].geometry.fields["outline"] == Flag(true) && out[i].geometry.fields["outlineColor"] == White)
  {
    GridIsCells(p, params);
    var centres := GridPoints(p).value;
    var cs := Grounded(centres);
    var dLat, dLon := Pitch(Latitudes(cs)).value, Pitch(Longitudes(cs)).value;
    var out := GridSpec(p, params).value;
    CellsLayout(cs, dLon, dLat, EntityDecorations(params, |cs|, GridRule));
    forall i | 0 <= i < |out|
      ensures (out[i].geometry.positions[0].lon + out[i].geometry.positions[2].lon) / 2.0 == centres[i].lon
      ensures (out[i].geometry.positions[0].lat + out[i].geometry.positions[2].lat) / 2.0 == centres[i].lat
      ensures forall k :: 0 <= k < 4 ==> out[i].geometry.positions[k].alt == 0.0
    {
      CellIsRectangle(cs[i], dLon, dLat);
    }
  }

  /** The pitch is at most any strictly positive difference. */
  lemma PitchBelow(xs: seq<real>, i: nat, j: nat)
    requires Pitch(xs).Success? && i < |xs| && j < |xs| && xs[i] != xs[j]
    ensures Pitch(xs).value <= Abs(xs[i] - xs[j])
  {
    PitchIsLeastPositiveDifference(xs);
  }

  /** Two cells whose centres are at least a cell size apart along one axis do not overlap. */
  lemma CellsApart(a: Point, b: Point, dLon: real, dLat: real, x: real, y: real)
    requires (a.lat != b.lat && dLat <= Abs(a.lat - b.lat)) || (a.lon != b.lon && dLon <= Abs(a.lon - b.lon))
    ensures !(Inside(Cell(a, dLon, dLat), x, y) && Inside(Cell(b, dLon, dLat), x, y))
  {
    if a.lat != b.lat && dLat <= Abs(a.lat - b.lat) {
      AbsAtLeast(a.lat, b.lat, dLat);
    } else {
      AbsAtLeast(a.lon, b.lon, dLon);
    }
  }

  lemma SeparatedCellsDoNotOverlap(cs: seq<Point>, dLon: real, dLat: real, ds: seq<Decoration>, i: nat, j: nat, x: real, y: real)
    requires |cs| == |ds| && i < |cs| && j < |cs|
    requires (cs[i].lat != cs[j].lat && dLat <= Abs(cs[i].lat - cs[j].lat)) ||
             (cs[i].lon != cs[j].lon && dLon <= Abs(cs[i].lon - cs[j].lon))
    ensures var out := Cells(cs, dLon, dLat, ds);
      |out| == |cs| && |out[i].geometry.positions| == 4 && |out[j].geometry.positions| == 4 &&
      !(Inside(out[i].geometry.positions, x, y) && Inside(out[j].geometry.positions, x, y))
  {
    CellsApart(cs[i], cs[j], dLon, dLat, x, y);
  }

  lemma CentresToCells(cs: seq<Point>, params: seq<(string, Value)>)
    requires GridOfCentres(cs, params).Success?
    ensures Pitch(Latitudes(cs)).Success? && Pitch(Longitudes(cs)).Success?
    ensures GridOfCentres(cs, params).value ==
      Cells(cs, Pitch(Longitudes(cs)).value, Pitch(Latitudes(cs)).value, EntityDecorations(params, |cs|, GridRule))
  {
  }

  /** Two centres at different latitudes are at least one cell height apart. */
  lemma LatitudesSeparated(cs: seq<Point>, i: nat, j: nat)
    requires Pitch(Latitudes(cs)).Success? && i < |cs| && j < |cs| && cs[i].lat != cs[j].lat
    ensures Pitch(Latitudes(cs)).value <= Abs(cs[i].lat - cs[j].lat)
  {
    PitchBelow(Latitudes(cs), i, j);
  }

  /** Two centres at different longitudes are at least one cell width apart. */
  lemma LongitudesSeparated(cs: seq<Point>, i: nat, j: nat)
    requires Pitch(Longitudes(cs)).Success? && i < |cs| && j < |cs| && cs[i].lon != cs[j].lon
    ensures Pitch(Longitudes(cs)).value <= Abs(cs[i].lon - cs[j].lon)
  {
    PitchBelow(Longitudes(cs), i, j);
  }

  /** The cells of two different centres never overlap. */
  lemma CellsDoNotOverlap(cs: seq<Point>, params: seq<(string, Value)>, i: nat, j: nat, x: real, y: real)
    requires GridOfCentres(cs, params).Success? && i < |cs| && j < |cs|
    requires cs[i].lat != cs[j].lat || cs[i].lon != cs[j].lon
    ensures var out := GridOfCentres(cs, params).value;
      |out| == |cs| && |out[i].geometry.positions| == 4 && |out[j].geometry.positions| == 4 &&
      !(Inside(out[i].geometry.positions, x, y) && Inside(out[j].geometry.positions, x, y))
  {
    CentresToCells(cs, params);
    if cs[i].lat != cs[j].lat {
      LatitudesSeparated(cs, i, j);
    } else {
      LongitudesSeparated(cs, i, j);
    }
    SeparatedCellsDoNotOverlap(cs, Pitch(Longitudes(cs)).value, Pitch(Latitudes(cs)).value,
      EntityDecorations(params, |cs|, GridRule), i, j, x, y);
  }

  /** A grid whose centres all share one latitude (a single centre, or a single row) fails. */
  lemma SingleRowFails(p: PointsInput, params: seq<(string, Value)>)
    requires WellFormed(p) && GridPoints(p).Success?
    requires forall i :: 0 <= i < |GridPoints(p).value| ==> GridPoints(p).value[i].lat == GridPoints(p).value[0].lat
    ensures GridSpec(p, params) == Failure(EmptyMinimum)
  {
    var lats := Latitudes(Grounded(GridPoints(p).value));
    PitchIsLeastPositiveDifference(lats);
  }

  /** The pitch of values that differ by `d` or not at all is `d`. */
  lemma PitchOfRegularValues(xs: seq<real>, d: real)
    requires d > 0.0
    requires forall i, j :: 0 <= i < |xs| && 0 <= j < |xs| ==> Abs(xs[i] - xs[j]) == 0.0 || Abs(xs[i] - xs[j]) == d
    requires exists i, j :: 0 <= i < |xs| && 0 <= j < |xs| && Abs(xs[i] - xs[j]) == d
    ensures Pitch(xs) == Success(d)
  {
    PitchIsLeastPositiveDifference(xs);
    var i, j :| 0 <= i < |xs| && 0 <= j < |xs| && Abs(xs[i] - xs[j]) == d;
    assert xs[j] != xs[i];
  }

  /** The pitch of values taking two distinct values is their distance. */
  lemma PitchOfTwoValues(xs: seq<real>, i0: nat, j0: nat)
    requires i0 < |xs| && j0 < |xs| && xs[i0] != xs[j0]
    requires forall i :: 0 <= i < |xs| ==> xs[i] == xs[i0] || xs[i] == xs[j0]
    ensures Pitch(xs) == Success(Abs(xs[i0] - xs[j0]))
  {
    var d := Abs(xs[i0] - xs[j0]);
    forall i, j | 0 <= i < |xs| && 0 <= j < |xs|
      ensures Abs(xs[i] - xs[j]) == 0.0 || Abs(xs[i] - xs[j]) == d
    {
    }
    PitchOfRegularValues(xs, d);
  }

  const TwoByTwo: PointsInput := PointList([
    Float(10.0), Float(20.0), Float(5.0), Float(10.0), Float(20.1), Float(5.0),
    Float(10.2), Float(20.0), Float(5.0), Float(10.2), Float(20.1), Float(5.0)])

  lemma TwoByTwoCentres()
    ensures GridPoints(TwoByTwo).Success?
    ensures Grounded(GridPoints(TwoByTwo).value) == TwoByTwoCentresGrounded
  {
    var pts := GridPoints(TwoByTwo).value;
    assert |pts| == 4;
    assert pts[0] == Point(10.0, 20.0, 5.0) && pts[1] == Point(10.0, 20.1, 5.0);
    assert pts[2] == Point(10.2, 20.0, 5.0) && pts[3] == Point(10.2, 20.1, 5.0);
  }

  const TwoByTwoCentresGrounded: seq<Point> :=
    [Point(10.0, 20.0, 0.0), Point(10.0, 20.1, 0.0), Point(10.2, 20.0, 0.0), Point(10.2, 20.1, 0.0)]

  lemma TwoByTwoLatitudePitch()
    ensures Pitch(Latitudes(TwoByTwoCentresGrounded)) == Success(0.2)
  {
    var lats := Latitudes(TwoByTwoCentresGrounded);
    assert lats == [10.0, 10.0, 10.2, 10.2];
    PitchOfTwoValues(lats, 0, 2);
  }

  lemma TwoByTwoLongitudePitch()
    ensures Pitch(Longitudes(TwoByTwoCentresGrounded)) == Success(0.1)
  {
    var lons := Longitudes(TwoByTwoCentresGrounded);
    assert lons == [20.0, 20.1, 20.0, 20.1];
    PitchOfTwoValues(lons, 0, 1);
  }

  /** Four centres 0.2 degrees apart in latitude and 0.1 apart in longitude give cells of that size. */
  lemma TwoByTwoGrid(params: seq<(string, Value)>)
    requires NoReservedKeywords(params, GridRule)
    ensures GridSpec(TwoByTwo, params).Success? && |GridSpec(TwoByTwo, params).value| == 4
    ensures GridSpec(TwoByTwo, params).value[3].geometry.positions ==
      [Cartographic(20.05, 10.1, 0.0), Cartographic(20.05, 10.3, 0.0), Cartographic(20.15, 10.3, 0.0), Cartographic(20.15, 10.1, 0.0)]
  {
    TwoByTwoCentres();
    TwoByTwoLatitudePitch();
    TwoByTwoLongitudePitch();
    var cs := TwoByTwoCentresGrounded;
    var out := Cells(cs, 0.1, 0.2, EntityDecorations(params, 4, GridRule));
    NoneCollideWithoutReservedKeywords(params, 4, GridRule);
    assert GridSpec(TwoByTwo, params) == Success(out);
    assert out[3].geometry.positions == Cell(cs[3], 0.1, 0.2);
  }

  /**
   * The grid fails with the latitude minimum's error, else the longitude minimum's, else
   * the `TypeError` of a colliding cell; it succeeds exactly when none of these occurs.
   */
  lemma GridOutcome(cs: seq<Point>, params: seq<(string, Value)>)
    ensures var r, ds := GridOfCentres(cs, params), EntityDecorations(params, |cs|, GridRule);
      && (r.Success? <==> Pitch(Latitudes(cs)).Success? && Pitch(Longitudes(cs)).Success? && !AnyCollides(ds, |cs|, GridRule))
      && (Pitch(Latitudes(cs)).Failure? ==> r == Failure(Pitch(Latitudes(cs)).error))
      && (Pitch(Latitudes(cs)).Success? && Pitch(Longitudes(cs)).Failure? ==> r == Failure(Pitch(Longitudes(cs)).error))
      && (Pitch(Latitudes(cs)).Success? && Pitch(Longitudes(cs)).Success? && AnyCollides(ds, |cs|, GridRule) ==>
            r == Failure(DuplicateKeyword))
  {
  }
}
