/**
 * `sensor_polygon`: the faces of each sensor's field of view, as polygons with per-position
 * heights. Per sensor: the four boundary end caps, then for each non-zero range the strips
 * between consecutive elevation rows, built from a buffer that holds one row between emissions.
 */
module SensorPolygon {
  import opened Wrappers
  import opened Errors
  import opened Czml
  import opened Angles
  import opened Decorations
  import opened SensorInputs
  import SensorPolyline

  type Transform = SensorPolyline.Transform

  function ArcLength(n: int): nat
  {
    SensorPolyline.ArcLength(n)
  }

  /** The polygon fields of every face: the template's, plus `perPositionHeight=True`. */
  function FaceFields(d: Decoration): map<string, Value>
  {
    d.shape["perPositionHeight" := Flag(true)]
  }

  function FacePacket(i: nat, ring: seq<Cartographic>, d: Decoration): Packet
  {
    Packet(SensorId(i), Geometry(PolygonKind, ring, FaceFields(d)), d.extras)
  }

  // ---------------------------------------------------------------------------
  // End caps: the first half of a ring at the minimum range, swept upward; the second
  // at the maximum range, swept back downward. Both sweeps are wrapped by π.

  /** The swept angle of sample `k` of half `m` (0: upward, 1: downward). */
  function CapSweep(base: real, fov: real, m: nat, k: nat, n: int): real
  {
    Wrap(if m == 0 then Ascending(base, fov, k, n) else Descending(base, fov, k, n), Pi)
  }

  function CapRange(s: Sensor, m: nat): real
  {
    if m == 0 then s.rMin else s.rMax
  }

  /** The cap at the fixed (unwrapped) azimuth `az`: elevation swept. */
  function AzimuthCapPoint(s: Sensor, az: real, m: nat, k: nat, geo: Transform): Cartographic
  {
    ToCartographic(geo(s.origin, az, CapSweep(s.el, s.elFov, m, k, s.arcPoints), CapRange(s, m)))
  }

  function AzimuthCapHalf(s: Sensor, az: real, m: nat, geo: Transform): seq<Cartographic>
  {
    seq(ArcLength(s.arcPoints), k requires 0 <= k => AzimuthCapPoint(s, az, m, k, geo))
  }

  /** The cap at the fixed (unwrapped) elevation `el`: azimuth swept. */
  function ElevationCapPoint(s: Sensor, el: real, m: nat, k: nat, geo: Transform): Cartographic
  {
    ToCartographic(geo(s.origin, CapSweep(s.az, s.azFov, m, k, s.arcPoints), el, CapRange(s, m)))
  }

  function ElevationCapHalf(s: Sensor, el: real, m: nat, geo: Transform): seq<Cartographic>
  {
    seq(ArcLength(s.arcPoints), k requires 0 <= k => ElevationCapPoint(s, el, m, k, geo))
  }

  /** The four caps of a sensor: at az-, az+, then at el-, el+. */
  function Caps(s: Sensor, i: nat, d: Decoration, geo: Transform): seq<Packet>
  {
    var azLo, azHi := s.az - s.azFov / 2.0, s.az + s.azFov / 2.0;
    var elLo, elHi := s.el - s.elFov / 2.0, s.el + s.elFov / 2.0;
    [ FacePacket(i, AzimuthCapHalf(s, azLo, 0, geo) + AzimuthCapHalf(s, azLo, 1, geo), d),
      FacePacket(i, AzimuthCapHalf(s, azHi, 0, geo) + AzimuthCapHalf(s, azHi, 1, geo), d),
      FacePacket(i, ElevationCapHalf(s, elLo, 0, geo) + ElevationCapHalf(s, elLo, 1, geo), d),
      FacePacket(i, ElevationCapHalf(s, elHi, 0, geo) + ElevationCapHalf(s, elHi, 1, geo), d) ]
  }

  // ---------------------------------------------------------------------------
  // Strips: row k0 sits at elevation sample k0 (wrapped by π); even rows sweep azimuth
  // upward, odd rows downward (wrapped by 2π).

  function RowAzimuth(s: Sensor, k0: nat, k1: nat): real
  {
    Wrap(if k0 % 2 == 0 then Ascending(s.az, s.azFov, k1, s.arcPoints)
         else Descending(s.az, s.azFov, k1, s.arcPoints), TwoPi)
  }

  function RowElevation(s: Sensor, k0: nat): real
  {
    Wrap(Ascending(s.el, s.elFov, k0, s.arcPoints), Pi)
  }

  function RowPoint(s: Sensor, k0: nat, k1: nat, r: real, geo: Transform): Cartographic
  {
    ToCartographic(geo(s.origin, RowAzimuth(s, k0, k1), RowElevation(s, k0), r))
  }

  function Row(s: Sensor, k0: nat, r: real, geo: Transform): seq<Cartographic>
  {
    seq(ArcLength(s.arcPoints), k1 requires 0 <= k1 => RowPoint(s, k0, k1, r, geo))
  }

  /** Strip `k` (k >= 1): row k-1 followed by row k. */
  function Strip(s: Sensor, k: nat, r: real, geo: Transform): seq<Cartographic>
    requires k >= 1
  {
    Row(s, k - 1, r, geo) + Row(s, k, r, geo)
  }

  /** The strips at range `r`: one per row after the first. */
  function RangeStrips(s: Sensor, i: nat, r: real, d: Decoration, geo: Transform): seq<Packet>
  {
    var n := ArcLength(s.arcPoints);
    seq(if n == 0 then 0 else n - 1, j requires 0 <= j => FacePacket(i, Strip(s, j + 1, r, geo), d))
  }

  function RangesStrips(s: Sensor, i: nat, rs: seq<real>, d: Decoration, geo: Transform): seq<Packet>
  {
    if rs == [] then []
    else
      var last := rs[|rs| - 1];
      RangesStrips(s, i, rs[..|rs| - 1], d, geo) + (if last == 0.0 then [] else RangeStrips(s, i, last, d, geo))
  }

  function SensorFaces(s: Sensor, i: nat, d: Decoration, geo: Transform): seq<Packet>
  {
    Caps(s, i, d, geo) + RangesStrips(s, i, [s.rMin, s.rMax], d, geo)
  }

  function Faces(ss: seq<Sensor>, ds: seq<Decoration>, k: nat, geo: Transform): seq<Packet>
    requires k <= |ss| == |ds|
  {
    if k == 0 then [] else Faces(ss, ds, k - 1, geo) + SensorFaces(ss[k - 1], k - 1, ds[k - 1], geo)
  }

  /** The faces of all sensors, or the `TypeError` of the first colliding packet: every sensor builds its caps. */
  function FacesOutcome(ss: seq<Sensor>, ds: seq<Decoration>, geo: Transform): Result<seq<Packet>, Error>
    requires |ss| == |ds|
  {
    if AnyCollides(ds, |ds|, SensorPolygonRule) then Failure(DuplicateKeyword) else Success(Faces(ss, ds, |ss|, geo))
  }

  function SensorPolygonSpec(a: SensorArgs, params: seq<(string, Value)>, geo: Transform): Result<seq<Packet>, Error>
    requires WellFormed(a.points)
  {
    var ss :- Validate(a);
    FacesOutcome(ss, EntityDecorations(params, |ss|, SensorPolygonRule), geo)
  }

  // ---------------------------------------------------------------------------
  // The loops of the source

  /** An azimuth-boundary cap: for each range in (min, max), for each sample. */
  method BuildAzimuthCap(s: Sensor, az: real, geo: Transform) returns (ring: seq<Cartographic>)
    ensures ring == AzimuthCapHalf(s, az, 0, geo) + AzimuthCapHalf(s, az, 1, geo)
  {
    ring := [];
    var m := 0;
    while m < 2
      invariant 0 <= m <= 2
      invariant ring == if m == 0 then [] else if m == 1 then AzimuthCapHalf(s, az, 0, geo)
                        else AzimuthCapHalf(s, az, 0, geo) + AzimuthCapHalf(s, az, 1, geo)
    {
      ghost var before := ring;
      var k := 0;
      while k < s.arcPoints
        invariant 0 <= k <= ArcLength(s.arcPoints)
        invariant ring == before + AzimuthCapHalf(s, az, m, geo)[..k]
      {
        ring := ring + [AzimuthCapPoint(s, az, m, k, geo)];
        k := k + 1;
      }
      assert AzimuthCapHalf(s, az, m, geo)[..k] == AzimuthCapHalf(s, az, m, geo);
      m := m + 1;
    }
  }

  /** An elevation-boundary cap: for each range in (min, max), for each sample. */
  method BuildElevationCap(s: Sensor, el: real, geo: Transform) returns (ring: seq<Cartographic>)
    ensures ring == ElevationCapHalf(s, el, 0, geo) + ElevationCapHalf(s, el, 1, geo)
  {
    ring := [];
    var m := 0;
    while m < 2
      invariant 0 <= m <= 2
      invariant ring == if m == 0 then [] else if m == 1 then ElevationCapHalf(s, el, 0, geo)
                        else ElevationCapHalf(s, el, 0, geo) + ElevationCapHalf(s, el, 1, geo)
    {
      ghost var before := ring;
      var k := 0;
      while k < s.arcPoints
        invariant 0 <= k <= ArcLength(s.arcPoints)
        invariant ring == before + ElevationCapHalf(s, el, m, geo)[..k]
      {
        ring := ring + [ElevationCapPoint(s, el, m, k, geo)];
        k := k + 1;
      }
      assert ElevationCapHalf(s, el, m, geo)[..k] == ElevationCapHalf(s, el, m, geo);
      m := m + 1;
    }
  }

  method BuildCaps(s: Sensor, i: nat, d: Decoration, geo: Transform) returns (caps: seq<Packet>)
    ensures caps == Caps(s, i, d, geo)
  {
    caps := [];
    var azimuths := [s.az - s.azFov / 2.0, s.az + s.azFov / 2.0];
    var t := 0;
    while t < 2
      invariant 0 <= t <= 2
      invariant caps == Caps(s, i, d, geo)[..t]
    {
      var ring := BuildAzimuthCap(s, azimuths[t], geo);
      caps := caps + [FacePacket(i, ring, d)];
      t := t + 1;
    }
    var elevations := [s.el - s.elFov / 2.0, s.el + s.elFov / 2.0];
    t := 0;
    while t < 2
      invariant 0 <= t <= 2
      invariant caps == Caps(s, i, d, geo)[..2 + t]
    {
      var ring := BuildElevationCap(s, elevations[t], geo);
      caps := caps + [FacePacket(i, ring, d)];
      t := t + 1;
    }
    assert Caps(s, i, d, geo)[..4] == Caps(s, i, d, geo);
  }

  /**
   * The strip loop at one range. The buffer is extended point by point; from row 1 on,
   * after each row it holds the previous row and the current one, is emitted, and
   * loses its first n points.
   */
  method BuildStrips(s: Sensor, i: nat, r: real, d: Decoration, geo: Transform) returns (strips: seq<Packet>)
    ensures strips == RangeStrips(s, i, r, d, geo)
  {
    var n := s.arcPoints;
    var buffer: seq<Cartographic> := [];
    strips := [];
    var k0 := 0;
    while k0 < n
      invariant 0 <= k0 <= ArcLength(n)
      invariant k0 == 0 ==> buffer == []
      invariant k0 > 0 ==> buffer == Row(s, k0 - 1, r, geo)
      invariant strips == seq(if k0 == 0 then 0 else k0 - 1, j requires 0 <= j => FacePacket(i, Strip(s, j + 1, r, geo), d))
    {
      ghost var previous := buffer;
      var el := Wrap(Ascending(s.el, s.elFov, k0, n), Pi);
      var k1 := 0;
      while k1 < n
        invariant 0 <= k1 <= n
        invariant buffer == previous + Row(s, k0, r, geo)[..k1]
      {
        var az := if k0 % 2 == 0 then Wrap(Ascending(s.az, s.azFov, k1, n), TwoPi)
                  else Wrap(Descending(s.az, s.azFov, k1, n), TwoPi);
        buffer := buffer + [ToCartographic(geo(s.origin, az, el, r))];
        k1 := k1 + 1;
      }
      assert Row(s, k0, r, geo)[..n] == Row(s, k0, r, geo);
      if k0 > 0 {
        assert buffer == Strip(s, k0, r, geo);
        strips := strips + [FacePacket(i, buffer, d)];
        buffer := buffer[n..];
      }
      k0 := k0 + 1;
    }
  }

  method AppendSensor(out: seq<Packet>, s: Sensor, i: nat, d: Decoration, geo: Transform) returns (out': seq<Packet>)
    ensures out' == out + SensorFaces(s, i, d, geo)
  {
    var caps := BuildCaps(s, i, d, geo);
    out' := out + caps;
    var ranges := [s.rMin, s.rMax];
    var j := 0;
    while j < 2
      invariant 0 <= j <= 2
      invariant out' == out + caps + RangesStrips(s, i, ranges[..j], d, geo)
    {
      assert ranges[..j + 1][..j] == ranges[..j];
      if ranges[j] != 0.0 {
        var strips := BuildStrips(s, i, ranges[j], d, geo);
        out' := out' + strips;
      }
      j := j + 1;
    }
    assert ranges[..2] == ranges;
  }

  /**
   * The sensor loop. A sensor's first cap is where `Packet` raises when its keywords
   * collide; the exception discards everything built.
   */
  method BuildFaces(ss: seq<Sensor>, ds: seq<Decoration>, geo: Transform) returns (r: Result<seq<Packet>, Error>)
    requires |ss| == |ds|
    ensures r == FacesOutcome(ss, ds, geo)
  {
    var out := [];
    var i := 0;
    while i < |ss|
      invariant 0 <= i <= |ss|
      invariant out == Faces(ss, ds, i, geo)
      invariant forall j :: 0 <= j < i ==> !Collides(ds[j], SensorPolygonRule)
    {
      if Collides(ds[i], SensorPolygonRule) {
        assert AnyCollides(ds, |ds|, SensorPolygonRule);
        return Failure(DuplicateKeyword);
      }
      out := AppendSensor(out, ss[i], i, ds[i], geo);
      i := i + 1;
    }
    return Success(out);
  }

  /** `sensor_polygon`: validate, distribute the keywords, build the faces. */
  method SensorPolygon(a: SensorArgs, params: seq<(string, Value)>, geo: Transform)
    returns (r: Result<seq<Packet>, Error>)
    requires WellFormed(a.points)
    ensures r == SensorPolygonSpec(a, params, geo)
  {
    var v := Validate(a);
    if v.Failure? {
      return Failure(v.error);
    }
    var ss := v.value;
    var ds := Distribute(params, |ss|, SensorPolygonRule, false);
    assert ds == EntityDecorations(params, |ss|, SensorPolygonRule);
    r := BuildFaces(ss, ds, geo);
  }

  // ---------------------------------------------------------------------------
  // Properties

  /** Strips per non-zero range: one fewer than the rows. */
  function StripsPerRange(s: Sensor): nat
  {
    var n := ArcLength(s.arcPoints);
    if n == 0 then 0 else n - 1
  }

  function NonZeroCount(s: Sensor): nat
  {
    (if s.rMin != 0.0 then 1 else 0) + (if s.rMax != 0.0 then 1 else 0)
  }

  /** The number of faces of the first `k` sensors. */
  function FaceCount(ss: seq<Sensor>, k: nat): nat
    requires k <= |ss|
  {
    if k == 0 then 0 else FaceCount(ss, k - 1) + 4 + NonZeroCount(ss[k - 1]) * StripsPerRange(ss[k - 1])
  }

  /** Every cap is a closed ring of 2n points: the upward sweep at minimum range, the downward one at maximum. */
  lemma CapsShape(s: Sensor, i: nat, d: Decoration, geo: Transform)
    ensures var cs := Caps(s, i, d, geo);
      |cs| == 4 &&
      (forall c :: c in cs ==>
        (c.id == SensorId(i) && c.geometry.kind == PolygonKind
         && |c.geometry.positions| == 2 * ArcLength(s.arcPoints)
         && c.geometry.fields == FaceFields(d) && c.extras == d.extras))
  {
  }

  /** The downward half of a cap retraces the upward half's angles in reverse order. */
  lemma CapRetraces(base: real, fov: real, k: nat, n: int)
    requires 2 <= n && k < n
    ensures CapSweep(base, fov, 1, k, n) == CapSweep(base, fov, 0, n - 1 - k, n)
  {
    DescendingIsReversed(base, fov, k, n);
  }

  /** Sample `k` of a half of an azimuth cap is `geo` at the fixed azimuth and an elevation in [0, π). */
  lemma AzimuthCapHalfAngle(s: Sensor, az: real, m: nat, k: nat, geo: Transform)
    requires k < ArcLength(s.arcPoints)
    ensures exists w :: 0.0 <= w < Pi && AzimuthCapHalf(s, az, m, geo)[k] == ToCartographic(geo(s.origin, az, w, CapRange(s, m)))
  {
    var w := CapSweep(s.el, s.elFov, m, k, s.arcPoints);
    assert AzimuthCapHalf(s, az, m, geo)[k] == ToCartographic(geo(s.origin, az, w, CapRange(s, m)));
  }

  /** Sample `k` of a half of an elevation cap is `geo` at an azimuth in [0, π) and the fixed elevation. */
  lemma ElevationCapHalfAngle(s: Sensor, el: real, m: nat, k: nat, geo: Transform)
    requires k < ArcLength(s.arcPoints)
    ensures exists w :: 0.0 <= w < Pi && ElevationCapHalf(s, el, m, geo)[k] == ToCartographic(geo(s.origin, w, el, CapRange(s, m)))
  {
    var w := CapSweep(s.az, s.azFov, m, k, s.arcPoints);
    assert ElevationCapHalf(s, el, m, geo)[k] == ToCartographic(geo(s.origin, w, el, CapRange(s, m)));
  }

  /**
   * Position `p` of cap `q` (az-, az+, el-, el+) is `geo` at the cap's fixed angle, kept
   * unwrapped, and a swept angle wrapped into [0, π); the first half lies at the minimum
   * range, the second at the maximum.
   */
  lemma CapAngles(s: Sensor, i: nat, d: Decoration, geo: Transform, q: nat, p: nat)
    requires q < 4 && p < 2 * ArcLength(s.arcPoints)
    ensures var pos := Caps(s, i, d, geo)[q].geometry.positions[p];
      var r := if p < ArcLength(s.arcPoints) then s.rMin else s.rMax;
      var fixed := [s.az - s.azFov / 2.0, s.az + s.azFov / 2.0, s.el - s.elFov / 2.0, s.el + s.elFov / 2.0][q];
      exists w :: 0.0 <= w < Pi &&
        pos == ToCartographic(if q < 2 then geo(s.origin, fixed, w, r) else geo(s.origin, w, fixed, r))
  {
    var n := ArcLength(s.arcPoints);
    var m, k := if p < n then 0 else 1, if p < n then p else p - n;
    var fixed := [s.az - s.azFov / 2.0, s.az + s.azFov / 2.0, s.el - s.elFov / 2.0, s.el + s.elFov / 2.0][q];
    var ring := Caps(s, i, d, geo)[q].geometry.positions;
    if q < 2 {
      var lo, hi := AzimuthCapHalf(s, fixed, 0, geo), AzimuthCapHalf(s, fixed, 1, geo);
      assert ring == lo + hi;
      assert ring[p] == (if m == 0 then lo else hi)[k];
      AzimuthCapHalfAngle(s, fixed, m, k, geo);
      var w :| 0.0 <= w < Pi && AzimuthCapHalf(s, fixed, m, geo)[k] == ToCartographic(geo(s.origin, fixed, w, CapRange(s, m)));
      assert ring[p] == ToCartographic(geo(s.origin, fixed, w, CapRange(s, m)));
    } else {
      var lo, hi := ElevationCapHalf(s, fixed, 0, geo), ElevationCapHalf(s, fixed, 1, geo);
      assert ring == lo + hi;
      assert ring[p] == (if m == 0 then lo else hi)[k];
      ElevationCapHalfAngle(s, fixed, m, k, geo);
      var w :| 0.0 <= w < Pi && ElevationCapHalf(s, fixed, m, geo)[k] == ToCartographic(geo(s.origin, w, fixed, CapRange(s, m)));
      assert ring[p] == ToCartographic(geo(s.origin, w, fixed, CapRange(s, m)));
    }
  }

  /** A strip is the previous row followed by the current one. */
  lemma StripLayout(s: Sensor, k: nat, r: real, geo: Transform)
    requires k >= 1
    ensures var n := ArcLength(s.arcPoints);
      |Strip(s, k, r, geo)| == 2 * n &&
      Strip(s, k, r, geo)[..n] == Row(s, k - 1, r, geo) &&
      Strip(s, k, r, geo)[n..] == Row(s, k, r, geo)
  {
  }

  /** Consecutive strips share a row: strip k ends with the row that strip k+1 begins with. */
  lemma StripsShareRows(s: Sensor, k: nat, r: real, geo: Transform)
    requires k >= 1
    ensures var n := ArcLength(s.arcPoints);
      Strip(s, k, r, geo)[n..] == Strip(s, k + 1, r, geo)[..n]
  {
    StripLayout(s, k, r, geo);
    StripLayout(s, k + 1, r, geo);
  }

  /** The rows zig-zag: the last azimuth of a row is the first azimuth of the next one. */
  lemma RowsZigZag(s: Sensor, k0: nat)
    requires s.arcPoints >= 2
    ensures RowAzimuth(s, k0, s.arcPoints - 1) == RowAzimuth(s, k0 + 1, 0)
  {
    AscendingEnds(s.az, s.azFov, s.arcPoints);
    DescendingIsReversed(s.az, s.azFov, 0, s.arcPoints);
    DescendingIsReversed(s.az, s.azFov, s.arcPoints - 1, s.arcPoints);
  }

  /** Odd rows visit the azimuths of the even rows in reverse. */
  lemma OddRowsReversed(s: Sensor, k0: nat, k1: nat)
    requires 2 <= s.arcPoints && k1 < s.arcPoints && k0 % 2 == 1
    ensures RowAzimuth(s, k0, k1) == RowAzimuth(s, 0, s.arcPoints - 1 - k1)
  {
    DescendingIsReversed(s.az, s.azFov, k1, s.arcPoints);
  }

  lemma RangesStripsCount(s: Sensor, i: nat, d: Decoration, geo: Transform)
    ensures |RangesStrips(s, i, [s.rMin, s.rMax], d, geo)| == NonZeroCount(s) * StripsPerRange(s)
  {
    var rs := [s.rMin, s.rMax];
    assert rs[..1] == [s.rMin] && [s.rMin][..0] == [];
    assert RangesStrips(s, i, [s.rMin], d, geo) == (if s.rMin == 0.0 then [] else RangeStrips(s, i, s.rMin, d, geo));
  }

  /** A face of sensor `i`: a polygon with the face fields and the extras of its decoration. */
  predicate IsFace(p: Packet, i: nat, d: Decoration)
  {
    p.id == SensorId(i) && p.geometry.kind == PolygonKind && p.geometry.fields == FaceFields(d) && p.extras == d.extras
  }

  predicate AreFaces(ps: seq<Packet>, i: nat, d: Decoration)
  {
    forall p :: p in ps ==> IsFace(p, i, d)
  }

  lemma RangeStripsAreFaces(s: Sensor, i: nat, r: real, d: Decoration, geo: Transform)
    ensures AreFaces(RangeStrips(s, i, r, d, geo), i, d)
  {
    var strips := RangeStrips(s, i, r, d, geo);
    forall p | p in strips
      ensures IsFace(p, i, d)
    {
      var j :| 0 <= j < |strips| && strips[j] == p;
      assert p == FacePacket(i, Strip(s, j + 1, r, geo), d);
    }
  }

  /** The faces of one sensor: its four caps, then n-1 strips per non-zero range. */
  lemma SensorFacesCount(s: Sensor, i: nat, d: Decoration, geo: Transform)
    ensures |SensorFaces(s, i, d, geo)| == 4 + NonZeroCount(s) * StripsPerRange(s)
  {
    RangesStripsCount(s, i, d, geo);
  }

  /** A sensor's faces begin with its four caps, and all are polygons of that sensor with its decoration. */
  lemma SensorFacesShape(s: Sensor, i: nat, d: Decoration, geo: Transform)
    ensures |SensorFaces(s, i, d, geo)| >= 4 && SensorFaces(s, i, d, geo)[..4] == Caps(s, i, d, geo)
    ensures AreFaces(SensorFaces(s, i, d, geo), i, d)
  {
    var caps := Caps(s, i, d, geo);
    assert AreFaces(caps, i, d) by {
      CapsShape(s, i, d, geo);
    }
    var rs := [s.rMin, s.rMax];
    assert rs[..1] == [s.rMin] && [s.rMin][..0] == [];
    var lo := if s.rMin == 0.0 then [] else RangeStrips(s, i, s.rMin, d, geo);
    var hi := if s.rMax == 0.0 then [] else RangeStrips(s, i, s.rMax, d, geo);
    assert RangesStrips(s, i, [s.rMin], d, geo) == lo;
    assert RangesStrips(s, i, rs, d, geo) == lo + hi;
    RangeStripsAreFaces(s, i, s.rMin, d, geo);
    RangeStripsAreFaces(s, i, s.rMax, d, geo);
    assert SensorFaces(s, i, d, geo) == caps + (lo + hi);
    assert (caps + (lo + hi))[..4] == caps;
  }

  lemma {:induction false} FacesCount(ss: seq<Sensor>, ds: seq<Decoration>, k: nat, geo: Transform)
    requires k <= |ss| == |ds|
    ensures |Faces(ss, ds, k, geo)| == FaceCount(ss, k)
  {
    if k > 0 {
      FacesCount(ss, ds, k - 1, geo);
      SensorFacesCount(ss[k - 1], k - 1, ds[k - 1], geo);
    }
  }

  /** A polygon whose positions carry their own heights. */
  predicate PerPositionPolygon(p: Packet)
  {
    p.geometry.kind == PolygonKind && "perPositionHeight" in p.geometry.fields &&
    p.geometry.fields["perPositionHeight"] == Flag(true)
  }

  /** Every face is a polygon with per-position heights, whatever the template. */
  lemma {:induction false} FacesArePolygons(ss: seq<Sensor>, ds: seq<Decoration>, k: nat, geo: Transform)
    requires k <= |ss| == |ds|
    ensures forall p :: p in Faces(ss, ds, k, geo) ==> PerPositionPolygon(p)
  {
    if k > 0 {
      FacesArePolygons(ss, ds, k - 1, geo);
      var before, last := Faces(ss, ds, k - 1, geo), SensorFaces(ss[k - 1], k - 1, ds[k - 1], geo);
      SensorFacesShape(ss[k - 1], k - 1, ds[k - 1], geo);
      assert Faces(ss, ds, k, geo) == before + last;
      forall p | p in last
        ensures PerPositionPolygon(p)
      {
        assert IsFace(p, k - 1, ds[k - 1]);
      }
    }
  }

  /**
   * The function fails on a validation error, or when a sensor's keywords collide, and
   * otherwise emits the counted faces.
   */
  lemma SensorPolygonCount(a: SensorArgs, params: seq<(string, Value)>, geo: Transform)
    requires WellFormed(a.points)
    ensures SensorPolygonSpec(a, params, geo).Success? <==>
      Validate(a).Success? && !AnyCollides(EntityDecorations(params, |Validate(a).value|, SensorPolygonRule), |Validate(a).value|, SensorPolygonRule)
    ensures Validate(a).Failure? ==> SensorPolygonSpec(a, params, geo) == Failure(Validate(a).error)
    ensures Validate(a).Success? && SensorPolygonSpec(a, params, geo).Failure? ==>
      SensorPolygonSpec(a, params, geo) == Failure(DuplicateKeyword)
    ensures SensorPolygonSpec(a, params, geo).Success? ==>
      |SensorPolygonSpec(a, params, geo).value| == FaceCount(Validate(a).value, |Validate(a).value|)
  {
    if Validate(a).Success? {
      var ss := Validate(a).value;
      FacesCount(ss, EntityDecorations(params, |ss|, SensorPolygonRule), |ss|, geo);
    }
  }

  /** A `polygon` keyword that is not a `Polygon` template collides with the computed polygon. */
  lemma PolygonKeywordFails(a: SensorArgs, v: Value, geo: Transform)
    requires WellFormed(a.points) && Validate(a).Success? && |Validate(a).value| > 0
    requires !v.Shape? && !v.List?
    ensures SensorPolygonSpec(a, [("polygon", v)], geo) == Failure(DuplicateKeyword)
  {
    var ss := Validate(a).value;
    ReservedKeywordCollides([], "polygon", v, |ss|, 0, SensorPolygonRule);
    assert [] + [("polygon", v)] == [("polygon", v)];
    var ds := EntityDecorations([("polygon", v)], |ss|, SensorPolygonRule);
    assert ds[0] == DecorationOf([("polygon", v)], |ss|, 0, SensorPolygonRule, false);
    assert AnyCollides(ds, |ss|, SensorPolygonRule);
  }
}
