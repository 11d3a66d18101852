/**
 * The input checks and broadcasting shared by `sensor_polyline` and
 * `sensor_polygon`: every failure is decided here, before any geometry is built.
 */
module SensorInputs {
  import opened Wrappers
  import opened Errors
  import opened Czml
  import opened Angles

  /** A Python number in a point list: numpy infers a floating dtype when any of them is a float. */
  datatype Number = Int(i: int) | Float(x: real)

  function NumberValue(v: Number): real
  {
    match v
    case Int(i) => i as real
    case Float(x) => x
  }

  /** The point argument: a Python sequence of numbers, or a numpy array given by shape, dtype and row-major data. */
  datatype PointsInput =
    | PointList(numbers: seq<Number>)
    | PointArray(shape: seq<nat>, floating: bool, flat: seq<real>)

  function Product(shape: seq<nat>): nat
  {
    if shape == [] then 1 else shape[0] * Product(shape[1..])
  }

  lemma ProductOfPoint()
    ensures Product([3, 1]) == 3
  {
    assert [3, 1][1..] == [1];
    assert [1][1..] == [];
  }

  lemma ProductOfPoints(n: nat)
    ensures Product([n, 3, 1]) == 3 * n
  {
    assert [n, 3, 1][1..] == [3, 1];
    ProductOfPoint();
  }

  /** A numpy array holds exactly as many values as its shape says. */
  predicate WellFormed(p: PointsInput)
  {
    p.PointArray? ==> |p.flat| == Product(p.shape)
  }

  /** An angle or range argument: a number, a Python sequence, a numpy array, or anything else. */
  datatype Param = Scalar(x: real) | Listed(xs: seq<real>) | NdArray(xs: seq<real>) | Unsupported

  /** `n_arc_points`: one int for every sensor, or a sequence of them. */
  datatype ArcPoints = Each(n: int) | PerSensor(ns: seq<int>)

  /** One resolved sensor: origin in degrees, angles in radians, ranges in metres. */
  datatype Sensor = Sensor(origin: Point, az: real, el: real, azFov: real, elFov: real,
                           rMin: real, rMax: real, arcPoints: int)

  /** Point `i` of `n` points laid out as an (n, 3, 1) array. */
  function RowPoint(flat: seq<real>, i: nat): Point
    requires 3 * i + 2 < |flat|
  {
    Point(flat[3 * i], flat[3 * i + 1], flat[3 * i + 2])
  }

  /** The rank, shape and dtype checks of the point argument and its reshaping to (N, 3, 1). */
  function ValidatePoints(p: PointsInput): (r: Result<seq<Point>, Error>)
    requires WellFormed(p)
    ensures p.PointArray? && |p.shape| == 2 && p.shape != [3, 1] ==> r == Failure(ShapeError)
    ensures p.PointArray? && |p.shape| == 3 && p.shape[1..] != [3, 1] ==> r == Failure(ShapeError)
    ensures p.PointArray? && |p.shape| != 2 && |p.shape| != 3 ==> r == Failure(NumDimensionsError)
    ensures p.PointArray? && p.shape == [3, 1] && p.floating ==> r.Success? && |r.value| == 1
    ensures p.PointArray? && |p.shape| == 3 && p.shape[1..] == [3, 1] && p.shape[0] > 0 && p.floating ==>
      r.Success? && |r.value| == p.shape[0]
    ensures (p.PointArray? && (p.shape == [3, 1] || (|p.shape| == 3 && p.shape[1..] == [3, 1] && p.shape[0] > 0))
             && !p.floating) ==> r == Failure(DataTypeError)
    ensures (p.PointList? && p.numbers == []) || (p.PointArray? && |p.shape| == 3 && p.shape[1..] == [3, 1] && p.shape[0] == 0) ==>
      r == Failure(IndexError)
    ensures p.PointList? && |p.numbers| % 3 != 0 ==> r == Failure(ReshapeError)
    ensures p.PointList? && |p.numbers| % 3 == 0 && |p.numbers| > 0 ==>
      (r.Success? <==> exists k :: 0 <= k < |p.numbers| && p.numbers[k].Float?)
    ensures r.Success? ==> |r.value| > 0
    ensures r.Success? && p.PointArray? ==>
      (3 * |r.value| == |p.flat| && forall i :: 0 <= i < |r.value| ==> r.value[i] == RowPoint(p.flat, i))
    ensures r.Success? && p.PointList? ==>
      (3 * |r.value| == |p.numbers| && forall i :: 0 <= i < |r.value| ==>
         r.value[i] == Point(NumberValue(p.numbers[3 * i]), NumberValue(p.numbers[3 * i + 1]), NumberValue(p.numbers[3 * i + 2])))
  {
    match p
    case PointList(ns) =>
      if |ns| % 3 != 0 then Failure(ReshapeError)
      else if |ns| == 0 then Failure(IndexError)
      else if !(exists k :: 0 <= k < |ns| && ns[k].Float?) then Failure(DataTypeError)
      else Success(seq(|ns| / 3, i requires 0 <= i < |ns| / 3 =>
        Point(NumberValue(ns[3 * i]), NumberValue(ns[3 * i + 1]), NumberValue(ns[3 * i + 2]))))
    case PointArray(shape, floating, flat) =>
      if |shape| == 2 && shape != [3, 1] then Failure(ShapeError)
      else if |shape| == 3 && shape[1..] != [3, 1] then Failure(ShapeError)
      else if |shape| != 2 && |shape| != 3 then Failure(NumDimensionsError)
      else
        var n := if |shape| == 2 then 1 else shape[0];
        assert Product(shape) == 3 * n by {
          if |shape| == 3 {
            ProductOfPoints(shape[0]);
            assert shape == [shape[0], 3, 1];
          } else {
            ProductOfPoint();
          }
        }
        if n == 0 then Failure(IndexError)
        else if !floating then Failure(DataTypeError)
        else Success(seq(n, i requires 0 <= i < n => RowPoint(flat, i)))
  }

  /** A parameter made into an array: a number becomes a one-element array. */
  function ToArray(p: Param, name: string): (r: Result<seq<real>, Error>)
    ensures p.Scalar? ==> r == Success([p.x])
    ensures (p.Listed? || p.NdArray?) ==> r == Success(p.xs)
    ensures p.Unsupported? ==> r == Failure(ParameterTypeError(name))
  {
    match p
    case Scalar(x) => Success([x])
    case Listed(xs) => Success(xs)
    case NdArray(xs) => Success(xs)
    case Unsupported => Failure(ParameterTypeError(name))
  }

  /** The minimum range: a missing one becomes zeros of the maximum range's length. */
  function MinRanges(rMin: Option<Param>, maxs: seq<real>): (r: Result<seq<real>, Error>)
    ensures rMin.None? ==> r.Success? && |r.value| == |maxs| && forall i :: 0 <= i < |maxs| ==> r.value[i] == 0.0
    ensures rMin.Some? ==> r == ToArray(rMin.value, "m_distance_min")
  {
    if rMin.None? then Success(seq(|maxs|, _ => 0.0)) else ToArray(rMin.value, "m_distance_min")
  }

  /** `n_arc_points`: an int is replicated once per sensor. */
  function ArcCounts(arcs: ArcPoints, n: nat): (r: seq<int>)
    ensures arcs.Each? ==> |r| == n && forall i :: 0 <= i < n ==> r[i] == arcs.n
    ensures arcs.PerSensor? ==> r == arcs.ns
  {
    if arcs.Each? then seq(n, _ => arcs.n) else arcs.ns
  }

  /** All of the sensor parameters, as the two sensor functions receive them. */
  datatype SensorArgs = SensorArgs(points: PointsInput, az: Param, el: Param, azFov: Param, elFov: Param,
                                   rMax: Param, rMin: Option<Param>, arcs: ArcPoints)

  /** Every check of lines 142-212 (and 633-703), then the conversion to radians. */
  function Validate(a: SensorArgs): (r: Result<seq<Sensor>, Error>)
    requires WellFormed(a.points)
  {
    var pts :- ValidatePoints(a.points);
    var azs :- ToArray(a.az, "deg_az_broadside");
    var els :- ToArray(a.el, "deg_el_broadside");
    var azFovs :- ToArray(a.azFov, "deg_az_FOV");
    var elFovs :- ToArray(a.elFov, "deg_el_FOV");
    var maxs :- ToArray(a.rMax, "m_distance_max");
    var mins :- MinRanges(a.rMin, maxs);
    var ns := ArcCounts(a.arcs, |pts|);
    if !(|pts| == |azs| == |els| == |azFovs| == |elFovs| == |maxs| == |mins| == |ns|) then
      Failure(MismatchedInputsError)
    else
      Success(seq(|pts|, i requires 0 <= i < |pts| =>
        Sensor(pts[i], DegToRad(azs[i]), DegToRad(els[i]), DegToRad(azFovs[i]), DegToRad(elFovs[i]),
               mins[i], maxs[i], ns[i])))
  }

  /** The length a parameter has once made into an array (a missing one has none). */
  function ParamLength(p: Param): nat
  {
    match p
    case Scalar(_) => 1
    case Listed(xs) => |xs|
    case NdArray(xs) => |xs|
    case Unsupported => 0
  }

  /** The parameters that were given with a length, in the order they are checked. */
  predicate AllSupported(a: SensorArgs)
  {
    !a.az.Unsupported? && !a.el.Unsupported? && !a.azFov.Unsupported? && !a.elFov.Unsupported?
    && !a.rMax.Unsupported? && (a.rMin.Some? ==> !a.rMin.value.Unsupported?)
  }

  /** Every parameter has the length `n`, the number of points. */
  predicate LengthsMatch(a: SensorArgs, n: nat)
  {
    && ParamLength(a.az) == n && ParamLength(a.el) == n && ParamLength(a.azFov) == n
    && ParamLength(a.elFov) == n && ParamLength(a.rMax) == n
    && (a.rMin.Some? ==> ParamLength(a.rMin.value) == n)
    && (a.arcs.PerSensor? ==> |a.arcs.ns| == n)
  }

  /**
   * The validation succeeds exactly when the points are valid, every parameter has a
   * supported type and every length equals the number of points; a failure of the last
   * condition alone is `MismatchedInputsError`.
   */
  lemma ValidateOutcome(a: SensorArgs)
    requires WellFormed(a.points)
    ensures Validate(a).Success? <==>
      ValidatePoints(a.points).Success? && AllSupported(a) && LengthsMatch(a, |ValidatePoints(a.points).value|)
    ensures ValidatePoints(a.points).Success? && AllSupported(a) && !LengthsMatch(a, |ValidatePoints(a.points).value|)
      ==> Validate(a) == Failure(MismatchedInputsError)
    ensures ValidatePoints(a.points).Failure? ==> Validate(a) == Failure(ValidatePoints(a.points).error)
  {
  }

  /** Element `i` of a parameter once made into an array: a scalar is its only element. */
  function ParamAt(p: Param, i: nat): real
    requires i < ParamLength(p)
  {
    match p
    case Scalar(x) => x
    case Listed(xs) => xs[i]
    case NdArray(xs) => xs[i]
  }

  /** A parameter made into an array holds its elements, in order; a scalar becomes a one-element array. */
  lemma ToArrayElements(p: Param, name: string)
    requires ToArray(p, name).Success?
    ensures |ToArray(p, name).value| == ParamLength(p)
    ensures forall i :: 0 <= i < ParamLength(p) ==> ToArray(p, name).value[i] == ParamAt(p, i)
  {
  }

  /** On success there is one sensor per point, with every parameter's value for that sensor. */
  lemma ValidateBroadcasts(a: SensorArgs)
    requires WellFormed(a.points) && Validate(a).Success?
    ensures var ss := Validate(a).value;
      && |ss| == |ValidatePoints(a.points).value|
      && LengthsMatch(a, |ss|)
      && (forall i :: 0 <= i < |ss| ==> ss[i].origin == ValidatePoints(a.points).value[i])
      && (forall i :: 0 <= i < |ss| ==> ss[i].az == DegToRad(ParamAt(a.az, i)) && ss[i].el == DegToRad(ParamAt(a.el, i)))
      && (forall i :: 0 <= i < |ss| ==>
            ss[i].azFov == DegToRad(ParamAt(a.azFov, i)) && ss[i].elFov == DegToRad(ParamAt(a.elFov, i)))
      && (forall i :: 0 <= i < |ss| ==> ss[i].rMax == ParamAt(a.rMax, i))
      && (a.rMin.None? ==> forall i :: 0 <= i < |ss| ==> ss[i].rMin == 0.0)
      && (a.rMin.Some? ==> forall i :: 0 <= i < |ss| ==> ss[i].rMin == ParamAt(a.rMin.value, i))
      && (a.arcs.Each? ==> forall i :: 0 <= i < |ss| ==> ss[i].arcPoints == a.arcs.n)
      && (a.arcs.PerSensor? ==> forall i :: 0 <= i < |ss| ==> ss[i].arcPoints == a.arcs.ns[i])
  {
    ValidateOutcome(a);
    var pts := ValidatePoints(a.points).value;
    var azs, els := ToArray(a.az, "deg_az_broadside").value, ToArray(a.el, "deg_el_broadside").value;
    var azFovs, elFovs := ToArray(a.azFov, "deg_az_FOV").value, ToArray(a.elFov, "deg_el_FOV").value;
    var maxs := ToArray(a.rMax, "m_distance_max").value;
    var mins := MinRanges(a.rMin, maxs).value;
    var ns := ArcCounts(a.arcs, |pts|);
    var ss := Validate(a).value;
    assert ss == seq(|pts|, i requires 0 <= i < |pts| =>
      Sensor(pts[i], DegToRad(azs[i]), DegToRad(els[i]), DegToRad(azFovs[i]), DegToRad(elFovs[i]),
             mins[i], maxs[i], ns[i]));
    ToArrayElements(a.az, "deg_az_broadside");
    ToArrayElements(a.el, "deg_el_broadside");
    ToArrayElements(a.azFov, "deg_az_FOV");
    ToArrayElements(a.elFov, "deg_el_FOV");
    ToArrayElements(a.rMax, "m_distance_max");
    if a.rMin.Some? {
      ToArrayElements(a.rMin.value, "m_distance_min");
    }
  }
}
