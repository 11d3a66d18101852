/**
 * `sensor_polyline`: the wireframe of each sensor's field of view, as polylines.
 * For every sensor and every non-zero range (minimum, then maximum) it emits four
 * corner lines from the origin, two elevation arcs and two azimuth arcs.
 */
module SensorPolyline {
  import opened Wrappers
  import opened Errors
  import opened Czml
  import opened Angles
  import opened Decorations
  import opened SensorInputs

  /**
   * The geodetic transform chain (degrees to radians, AER to ENU, ENU to ECEF, ECEF to
   * geodetic, radians to degrees on WGS84): origin in degrees, then azimuth and
   * elevation in radians, then range in metres.
   */
  type Transform = (Point, real, real, real) -> Point

  /** The number of samples `range(n)` yields. */
  function ArcLength(n: int): nat
  {
    if n > 0 then n else 0
  }

  const CornerNames: seq<string> := ["line00", "line01", "line11", "line10"]

  /** Corners 0..3 are (az-, el-), (az+, el-), (az+, el+), (az-, el+); no wrapping. */
  function CornerAzimuth(s: Sensor, c: nat): real
  {
    if c == 0 || c == 3 then s.az - s.azFov / 2.0 else s.az + s.azFov / 2.0
  }

  function CornerElevation(s: Sensor, c: nat): real
  {
    if c < 2 then s.el - s.elFov / 2.0 else s.el + s.elFov / 2.0
  }

  /** The straight line from the origin to corner `c` at range `r`. */
  function EdgePacket(s: Sensor, i: nat, c: nat, r: real, d: Decoration, geo: Transform): Packet
    requires c < 4
  {
    var corner := geo(s.origin, CornerAzimuth(s, c), CornerElevation(s, c), r);
    Packet(LineId(i, CornerNames[c]),
           Geometry(PolylineKind, [ToCartographic(s.origin), ToCartographic(corner)], d.shape),
           d.extras)
  }

  /** Sample `k` of the elevation arc at azimuth `az`: both angles wrapped by 2π. */
  function ElevationArcPoint(s: Sensor, az: real, k: nat, r: real, geo: Transform): Cartographic
  {
    ToCartographic(geo(s.origin, Wrap(az, TwoPi), Wrap(Ascending(s.el, s.elFov, k, s.arcPoints), TwoPi), r))
  }

  function ElevationArc(s: Sensor, az: real, r: real, geo: Transform): seq<Cartographic>
  {
    seq(ArcLength(s.arcPoints), k requires 0 <= k => ElevationArcPoint(s, az, k, r, geo))
  }

  /** Sample `k` of the azimuth arc at elevation `el`: azimuth wrapped by 2π, elevation by π. */
  function AzimuthArcPoint(s: Sensor, el: real, k: nat, r: real, geo: Transform): Cartographic
  {
    ToCartographic(geo(s.origin, Wrap(Ascending(s.az, s.azFov, k, s.arcPoints), TwoPi), Wrap(el, Pi), r))
  }

  function AzimuthArc(s: Sensor, el: real, r: real, geo: Transform): seq<Cartographic>
  {
    seq(ArcLength(s.arcPoints), k requires 0 <= k => AzimuthArcPoint(s, el, k, r, geo))
  }

  function ElevationArcPacket(s: Sensor, az: real, r: real, d: Decoration, geo: Transform): Packet
  {
    Packet(ArcId, Geometry(PolylineKind, ElevationArc(s, az, r, geo), d.shape), d.extras)
  }

  function AzimuthArcPacket(s: Sensor, i: nat, el: real, r: real, d: Decoration, geo: Transform): Packet
  {
    Packet(AzimuthArcId(i, Wrap(el, Pi), r), Geometry(PolylineKind, AzimuthArc(s, el, r, geo), d.shape), d.extras)
  }

  /** Packet `k` of the eight one sensor emits at one range. */
  function RangePacket(s: Sensor, i: nat, r: real, d: Decoration, geo: Transform, k: nat): Packet
    requires k < 8
  {
    if k < 4 then EdgePacket(s, i, k, r, d, geo)
    else if k == 4 then ElevationArcPacket(s, s.az - s.azFov / 2.0, r, d, geo)
    else if k == 5 then ElevationArcPacket(s, s.az + s.azFov / 2.0, r, d, geo)
    else if k == 6 then AzimuthArcPacket(s, i, s.el - s.elFov / 2.0, r, d, geo)
    else AzimuthArcPacket(s, i, s.el + s.elFov / 2.0, r, d, geo)
  }

  /** The eight packets of one sensor at one range: four lines, two elevation arcs, two azimuth arcs. */
  function RangeWireframe(s: Sensor, i: nat, r: real, d: Decoration, geo: Transform): seq<Packet>
  {
    seq(8, k requires 0 <= k < 8 => RangePacket(s, i, r, d, geo, k))
  }

  /** The packets of one sensor over the ranges `rs`, a range of 0 contributing nothing. */
  function RangesWireframe(s: Sensor, i: nat, rs: seq<real>, d: Decoration, geo: Transform): seq<Packet>
  {
    if rs == [] then []
    else
      var last := rs[|rs| - 1];
      RangesWireframe(s, i, rs[..|rs| - 1], d, geo) + (if last == 0.0 then [] else RangeWireframe(s, i, last, d, geo))
  }

  function SensorWireframe(s: Sensor, i: nat, d: Decoration, geo: Transform): seq<Packet>
  {
    RangesWireframe(s, i, [s.rMin, s.rMax], d, geo)
  }

  /** The packets of the first `k` sensors, in sensor order. */
  function Wireframe(ss: seq<Sensor>, ds: seq<Decoration>, k: nat, geo: Transform): seq<Packet>
    requires k <= |ss| == |ds|
  {
    if k == 0 then [] else Wireframe(ss, ds, k - 1, geo) + SensorWireframe(ss[k - 1], k - 1, ds[k - 1], geo)
  }

  /** A sensor with a non-zero range builds packets; one with both ranges zero builds none. */
  predicate HasRange(s: Sensor)
  {
    s.rMin != 0.0 || s.rMax != 0.0
  }

  /** Among the first `k` sensors, one builds a packet whose keywords collide. */
  predicate Clashes(ss: seq<Sensor>, ds: seq<Decoration>, k: nat)
    requires k <= |ss| == |ds|
  {
    exists i :: 0 <= i < k && HasRange(ss[i]) && Collides(ds[i], PolylineRule)
  }

  /** The wireframe of all sensors, or the `TypeError` of the first colliding packet. */
  function WireframeOutcome(ss: seq<Sensor>, ds: seq<Decoration>, geo: Transform): Result<seq<Packet>, Error>
    requires |ss| == |ds|
  {
    if Clashes(ss, ds, |ss|) then Failure(DuplicateKeyword) else Success(Wireframe(ss, ds, |ss|, geo))
  }

  /** The reference for the whole function: validation, then decoration, then the wireframe. */
  function SensorPolylineSpec(a: SensorArgs, params: seq<(string, Value)>, geo: Transform): Result<seq<Packet>, Error>
    requires WellFormed(a.points)
  {
    var ss :- Validate(a);
    WireframeOutcome(ss, EntityDecorations(params, |ss|, PolylineRule), geo)
  }

  // ---------------------------------------------------------------------------
  // The loops of the source

  method BuildElevationArc(s: Sensor, az: real, r: real, geo: Transform) returns (arc: seq<Cartographic>)
    ensures arc == ElevationArc(s, az, r, geo)
  {
    arc := [];
    var k := 0;
    while k < s.arcPoints
      invariant 0 <= k <= ArcLength(s.arcPoints)
      invariant arc == seq(k, k' requires 0 <= k' => ElevationArcPoint(s, az, k', r, geo))
    {
      arc := arc + [ElevationArcPoint(s, az, k, r, geo)];
      k := k + 1;
    }
  }

  method BuildAzimuthArc(s: Sensor, el: real, r: real, geo: Transform) returns (arc: seq<Cartographic>)
    ensures arc == AzimuthArc(s, el, r, geo)
  {
    arc := [];
    var k := 0;
    while k < s.arcPoints
      invariant 0 <= k <= ArcLength(s.arcPoints)
      invariant arc == seq(k, k' requires 0 <= k' => AzimuthArcPoint(s, el, k', r, geo))
    {
      arc := arc + [AzimuthArcPoint(s, el, k, r, geo)];
      k := k + 1;
    }
  }

  /** The body of the range loop: lines, then elevation arcs, then azimuth arcs. */
  method AppendRange(out: seq<Packet>, s: Sensor, i: nat, r: real, d: Decoration, geo: Transform)
    returns (out': seq<Packet>)
    ensures out' == out + RangeWireframe(s, i, r, d, geo)
  {
    out' := out + [EdgePacket(s, i, 0, r, d, geo), EdgePacket(s, i, 1, r, d, geo),
                   EdgePacket(s, i, 2, r, d, geo), EdgePacket(s, i, 3, r, d, geo)];
    var azimuths := [s.az - s.azFov / 2.0, s.az + s.azFov / 2.0];
    var t := 0;
    while t < 2
      invariant 0 <= t <= 2
      invariant out' == out + RangeWireframe(s, i, r, d, geo)[..4 + t]
    {
      var arc := BuildElevationArc(s, azimuths[t], r, geo);
      out' := out' + [Packet(ArcId, Geometry(PolylineKind, arc, d.shape), d.extras)];
      t := t + 1;
    }
    var elevations := [s.el - s.elFov / 2.0, s.el + s.elFov / 2.0];
    t := 0;
    while t < 2
      invariant 0 <= t <= 2
      invariant out' == out + RangeWireframe(s, i, r, d, geo)[..6 + t]
    {
      var el := elevations[t];
      var arc := BuildAzimuthArc(s, el, r, geo);
      out' := out' + [Packet(AzimuthArcId(i, Wrap(el, Pi), r), Geometry(PolylineKind, arc, d.shape), d.extras)];
      t := t + 1;
    }
    assert RangeWireframe(s, i, r, d, geo)[..8] == RangeWireframe(s, i, r, d, geo);
  }

  /** The body of the sensor loop: the minimum range, then the maximum, skipping a range of 0. */
  method AppendSensor(out: seq<Packet>, s: Sensor, i: nat, d: Decoration, geo: Transform)
    returns (out': seq<Packet>)
    ensures out' == out + SensorWireframe(s, i, d, geo)
  {
    var ranges := [s.rMin, s.rMax];
    out' := out;
    var j := 0;
    while j < 2
      invariant 0 <= j <= 2
      invariant out' == out + RangesWireframe(s, i, ranges[..j], d, geo)
    {
      assert ranges[..j + 1][..j] == ranges[..j];
      if ranges[j] != 0.0 {
        out' := AppendRange(out', s, i, ranges[j], d, geo);
      }
      j := j + 1;
    }
    assert ranges[..2] == ranges;
  }

  /**
   * The sensor loop. The first packet of a sensor with a non-zero range is where `Packet`
   * raises when that sensor's keywords collide; the exception discards everything built.
   */
  method BuildWireframe(ss: seq<Sensor>, ds: seq<Decoration>, geo: Transform) returns (r: Result<seq<Packet>, Error>)
    requires |ss| == |ds|
    ensures r == WireframeOutcome(ss, ds, geo)
  {
    var out := [];
    var i := 0;
    while i < |ss|
      invariant 0 <= i <= |ss|
      invariant out == Wireframe(ss, ds, i, geo)
      invariant forall j :: 0 <= j < i ==> !(HasRange(ss[j]) && Collides(ds[j], PolylineRule))
    {
      if HasRange(ss[i]) && Collides(ds[i], PolylineRule) {
        assert Clashes(ss, ds, |ss|);
        return Failure(DuplicateKeyword);
      }
      out := AppendSensor(out, ss[i], i, ds[i], geo);
      i := i + 1;
    }
    return Success(out);
  }

  /** `sensor_polyline`: validate, distribute the keywords, build the wireframe. */
  method SensorPolyline(a: SensorArgs, params: seq<(string, Value)>, geo: Transform)
    returns (r: Result<seq<Packet>, Error>)
    requires WellFormed(a.points)
    ensures r == SensorPolylineSpec(a, params, geo)
  {
    var v := Validate(a);
    if v.Failure? {
      return Failure(v.error);
    }
    var ss := v.value;
    var ds := Distribute(params, |ss|, PolylineRule, false);
    assert ds == EntityDecorations(params, |ss|, PolylineRule);
    r := BuildWireframe(ss, ds, geo);
  }

  // ---------------------------------------------------------------------------
  // Properties of the wireframe

  /** The number of non-zero ranges among the first `k` sensors. */
  function NonZeroRanges(ss: seq<Sensor>, k: nat): nat
    requires k <= |ss|
  {
    if k == 0 then 0
    else NonZeroRanges(ss, k - 1) + (if ss[k - 1].rMin != 0.0 then 1 else 0) + (if ss[k - 1].rMax != 0.0 then 1 else 0)
  }

  /**
   * One range: four lines line00, line01, line11, line10 from the origin (written as
   * (long, lat, alt)) to the corners, then the elevation arcs at az- and az+, then the
   * azimuth arcs at el- and el+, each of n samples, every packet with the sensor's decoration.
   */
  lemma RangeWireframeLayout(s: Sensor, i: nat, r: real, d: Decoration, geo: Transform)
    ensures var ps := RangeWireframe(s, i, r, d, geo);
      && |ps| == 8
      && (forall c :: 0 <= c < 4 ==>
            && ps[c].id == LineId(i, CornerNames[c])
            && ps[c].geometry.positions
               == [Cartographic(s.origin.lon, s.origin.lat, s.origin.alt),
                   ToCartographic(geo(s.origin, CornerAzimuth(s, c), CornerElevation(s, c), r))])
      && ps[4].geometry.positions == ElevationArc(s, s.az - s.azFov / 2.0, r, geo)
      && ps[5].geometry.positions == ElevationArc(s, s.az + s.azFov / 2.0, r, geo)
      && ps[6].geometry.positions == AzimuthArc(s, s.el - s.elFov / 2.0, r, geo)
      && ps[7].geometry.positions == AzimuthArc(s, s.el + s.elFov / 2.0, r, geo)
      && (forall k :: 4 <= k < 8 ==> |ps[k].geometry.positions| == ArcLength(s.arcPoints))
  {
  }

  /** Every packet of a range carries the sensor's decoration and is a polyline. */
  lemma RangeWireframeDecoration(s: Sensor, i: nat, r: real, d: Decoration, geo: Transform)
    ensures forall p :: p in RangeWireframe(s, i, r, d, geo) ==>
      p.extras == d.extras && p.geometry.fields == d.shape && p.geometry.kind == PolylineKind
  {
    forall p | p in RangeWireframe(s, i, r, d, geo)
      ensures p.extras == d.extras && p.geometry.fields == d.shape && p.geometry.kind == PolylineKind
    {
      var k :| 0 <= k < 8 && p == RangeWireframe(s, i, r, d, geo)[k];
    }
  }

  /** The corner order: (az-, el-), (az+, el-), (az+, el+), (az-, el+). */
  lemma CornerOrder(s: Sensor)
    ensures [CornerAzimuth(s, 0), CornerAzimuth(s, 1), CornerAzimuth(s, 2), CornerAzimuth(s, 3)]
         == [s.az - s.azFov / 2.0, s.az + s.azFov / 2.0, s.az + s.azFov / 2.0, s.az - s.azFov / 2.0]
    ensures [CornerElevation(s, 0), CornerElevation(s, 1), CornerElevation(s, 2), CornerElevation(s, 3)]
         == [s.el - s.elFov / 2.0, s.el - s.elFov / 2.0, s.el + s.elFov / 2.0, s.el + s.elFov / 2.0]
  {
  }

  /** A sensor emits 8 packets per non-zero range, each carrying the sensor's decoration. */
  lemma SensorWireframeShape(s: Sensor, i: nat, d: Decoration, geo: Transform)
    ensures |SensorWireframe(s, i, d, geo)| == 8 * ((if s.rMin != 0.0 then 1 else 0) + (if s.rMax != 0.0 then 1 else 0))
    ensures forall p :: p in SensorWireframe(s, i, d, geo) ==>
      p.extras == d.extras && p.geometry.fields == d.shape && p.geometry.kind == PolylineKind
    ensures s.rMin == 0.0 ==> SensorWireframe(s, i, d, geo) == (if s.rMax == 0.0 then [] else RangeWireframe(s, i, s.rMax, d, geo))
    ensures s.rMin != 0.0 ==> SensorWireframe(s, i, d, geo)[..8] == RangeWireframe(s, i, s.rMin, d, geo)
  {
    var rs := [s.rMin, s.rMax];
    assert rs[..1] == [s.rMin] && [s.rMin][..0] == [];
    var lo := if s.rMin == 0.0 then [] else RangeWireframe(s, i, s.rMin, d, geo);
    var hi := if s.rMax == 0.0 then [] else RangeWireframe(s, i, s.rMax, d, geo);
    assert RangesWireframe(s, i, [s.rMin], d, geo) == lo;
    assert SensorWireframe(s, i, d, geo) == lo + hi;
    RangeWireframeDecoration(s, i, s.rMin, d, geo);
    RangeWireframeDecoration(s, i, s.rMax, d, geo);
  }

  /** The whole output has exactly eight packets per non-zero range. */
  lemma {:induction false} WireframeCount(ss: seq<Sensor>, ds: seq<Decoration>, k: nat, geo: Transform)
    requires k <= |ss| == |ds|
    ensures |Wireframe(ss, ds, k, geo)| == 8 * NonZeroRanges(ss, k)
  {
    if k > 0 {
      WireframeCount(ss, ds, k - 1, geo);
      SensorWireframeShape(ss[k - 1], k - 1, ds[k - 1], geo);
    }
  }

  lemma PrefixOfConcat<T>(a: seq<T>, b: seq<T>, c: seq<T>)
    requires a <= b
    ensures a <= b + c
  {
    assert (b + c)[..|a|] == b[..|a|];
  }

  /** Sensors are processed in order: the packets of the first `j` sensors come first. */
  lemma {:induction false} WireframeInSensorOrder(ss: seq<Sensor>, ds: seq<Decoration>, j: nat, k: nat, geo: Transform)
    requires j <= k <= |ss| == |ds|
    ensures Wireframe(ss, ds, j, geo) <= Wireframe(ss, ds, k, geo)
  {
    if j < k {
      WireframeInSensorOrder(ss, ds, j, k - 1, geo);
      var w, tail := Wireframe(ss, ds, k - 1, geo), SensorWireframe(ss[k - 1], k - 1, ds[k - 1], geo);
      assert Wireframe(ss, ds, k, geo) == w + tail;
      PrefixOfConcat(Wireframe(ss, ds, j, geo), w, tail);
    }
  }

  /** Every elevation-arc sample is the transform at an azimuth and an elevation in [0, 2π). */
  lemma ElevationArcAngles(s: Sensor, az: real, r: real, geo: Transform, k: nat)
    requires k < ArcLength(s.arcPoints)
    ensures exists a, e :: 0.0 <= a < TwoPi && 0.0 <= e < TwoPi && ElevationArc(s, az, r, geo)[k] == ToCartographic(geo(s.origin, a, e, r))
  {
    var a, e := Wrap(az, TwoPi), Wrap(Ascending(s.el, s.elFov, k, s.arcPoints), TwoPi);
    assert ElevationArc(s, az, r, geo)[k] == ToCartographic(geo(s.origin, a, e, r));
  }

  /** Every azimuth-arc sample is the transform at an azimuth in [0, 2π) and an elevation in [0, π). */
  lemma AzimuthArcAngles(s: Sensor, el: real, r: real, geo: Transform, k: nat)
    requires k < ArcLength(s.arcPoints)
    ensures exists a, e :: 0.0 <= a < TwoPi && 0.0 <= e < Pi && AzimuthArc(s, el, r, geo)[k] == ToCartographic(geo(s.origin, a, e, r))
  {
    var a, e := Wrap(Ascending(s.az, s.azFov, k, s.arcPoints), TwoPi), Wrap(el, Pi);
    assert AzimuthArc(s, el, r, geo)[k] == ToCartographic(geo(s.origin, a, e, r));
  }

  /**
   * The call fails on a validation error, or when a sensor that builds packets has colliding
   * keywords; otherwise it returns 8 packets per non-zero range, sensor after sensor.
   */
  lemma SensorPolylineCount(a: SensorArgs, params: seq<(string, Value)>, geo: Transform)
    requires WellFormed(a.points)
    ensures SensorPolylineSpec(a, params, geo).Success? <==>
      Validate(a).Success? && !Clashes(Validate(a).value, EntityDecorations(params, |Validate(a).value|, PolylineRule), |Validate(a).value|)
    ensures Validate(a).Failure? ==> SensorPolylineSpec(a, params, geo) == Failure(Validate(a).error)
    ensures Validate(a).Success? && SensorPolylineSpec(a, params, geo).Failure? ==>
      SensorPolylineSpec(a, params, geo) == Failure(DuplicateKeyword)
    ensures SensorPolylineSpec(a, params, geo).Success? ==>
      |SensorPolylineSpec(a, params, geo).value| == 8 * NonZeroRanges(Validate(a).value, |Validate(a).value|)
  {
    if Validate(a).Success? {
      var ss := Validate(a).value;
      WireframeCount(ss, EntityDecorations(params, |ss|, PolylineRule), |ss|, geo);
    }
  }

  /** One sensor at (31.4°, 34.7°, 1000 m) with ranges 5000 m and 10000 m: 16 polylines. */
  lemma SingleSensorTwoRanges(params: seq<(string, Value)>, geo: Transform)
    requires NoReservedKeywords(params, PolylineRule)
    ensures var a := SensorArgs(PointArray([3, 1], true, [31.4, 34.7, 1000.0]), Scalar(10.0), Scalar(30.0),
                                Scalar(100.0), Scalar(20.0), Scalar(10000.0), Some(Scalar(5000.0)), Each(10));
      WellFormed(a.points) && SensorPolylineSpec(a, params, geo).Success?
      && |SensorPolylineSpec(a, params, geo).value| == 16
  {
    var a := SensorArgs(PointArray([3, 1], true, [31.4, 34.7, 1000.0]), Scalar(10.0), Scalar(30.0),
                        Scalar(100.0), Scalar(20.0), Scalar(10000.0), Some(Scalar(5000.0)), Each(10));
    ProductOfPoint();
    SensorPolylineCount(a, params, geo);
    var ss := Validate(a).value;
    assert |ss| == 1 && ss[0].rMin == 5000.0 && ss[0].rMax == 10000.0;
    assert NonZeroRanges(ss, 1) == 2;
    NoCollisionWithoutReservedKeywords(params, 1, 0, PolylineRule, false);
  }

  /** `id="s1"` collides with the id `sensor_polyline` gives every packet: the call raises. */
  lemma IdKeywordFails(geo: Transform)
    ensures var a := SensorArgs(PointArray([3, 1], true, [31.4, 34.7, 1000.0]), Scalar(0.0), Scalar(0.0),
                                Scalar(10.0), Scalar(10.0), Scalar(1000.0), None, Each(10));
      WellFormed(a.points) && SensorPolylineSpec(a, [("id", Text("s1"))], geo) == Failure(DuplicateKeyword)
  {
    var a := SensorArgs(PointArray([3, 1], true, [31.4, 34.7, 1000.0]), Scalar(0.0), Scalar(0.0),
                        Scalar(10.0), Scalar(10.0), Scalar(1000.0), None, Each(10));
    ProductOfPoint();
    var ss := Validate(a).value;
    assert |ss| == 1 && ss[0].rMax == 1000.0;
    ReservedKeywordCollides([], "id", Text("s1"), 1, 0, PolylineRule);
    assert [] + [("id", Text("s1"))] == [("id", Text("s1"))];
    assert Clashes(ss, EntityDecorations([("id", Text("s1"))], 1, PolylineRule), 1);
  }

  /** An azimuth field of view of length 2 against a single point is a mismatch. */
  lemma MismatchedFieldOfView(params: seq<(string, Value)>, geo: Transform)
    ensures var a := SensorArgs(PointArray([3, 1], true, [31.4, 34.7, 1000.0]), Scalar(10.0), Scalar(30.0),
                                Listed([100.0, 50.0]), Scalar(20.0), Scalar(10000.0), None, Each(10));
      WellFormed(a.points) && SensorPolylineSpec(a, params, geo) == Failure(MismatchedInputsError)
  {
    ProductOfPoint();
  }
}
