/**
 * `border`: one polyline packet per border, in input order. A border is a registry name or
 * an array of (lat, long, alt) points; its positions are every k-th point, as (long, lat, alt).
 */
module Border {
  import opened Wrappers
  import opened Errors
  import opened Czml
  import opened Decorations
  import opened Helpers
  import opened Text
  import opened Slicing

  /** One element of the `borders` argument. */
  datatype BorderItem = NamedBorder(name: string) | PointArray(points: seq<Point>) | OtherItem

  /** The `borders` argument: a single name or array is wrapped into a one-element list. */
  datatype BordersArg = SingleName(name: string) | SingleArray(points: seq<Point>) | Many(items: seq<BorderItem>)

  /** The `step` argument: an int is used for every border. */
  datatype StepArg = EveryStep(k: int) | PerBorderSteps(ks: seq<int>)

  function Items(b: BordersArg): (r: seq<BorderItem>)
    ensures b.SingleName? ==> r == [NamedBorder(b.name)]
    ensures b.SingleArray? ==> r == [PointArray(b.points)]
    ensures b.Many? ==> r == b.items
  {
    match b
    case SingleName(name) => [NamedBorder(name)]
    case SingleArray(points) => [PointArray(points)]
    case Many(items) => items
  }

  function Steps(s: StepArg, n: nat): (r: seq<int>)
    ensures s.EveryStep? ==> |r| == n && forall i :: 0 <= i < n ==> r[i] == s.k
    ensures s.PerBorderSteps? ==> r == s.ks
  {
    match s
    case EveryStep(k) => seq(n, _ => k)
    case PerBorderSteps(ks) => ks
  }

  // ---------------------------------------------------------------------------
  // Packets

  /** The points of one border: looked up by name, given directly, or a type error. */
  function ResolveItem(registry: map<string, seq<real>>, item: BorderItem, suffix: string): (r: Result<seq<Point>, Error>)
    ensures item.OtherItem? ==> r == Failure(BorderTypeError)
    ensures item.PointArray? ==> r == Success(item.points)
    ensures item.NamedBorder? ==> r == GetBorderSpec(registry, StrName(item.name), suffix)
  {
    match item
    case NamedBorder(name) => GetBorderSpec(registry, StrName(name), suffix)
    case PointArray(points) => Success(points)
    case OtherItem => Failure(BorderTypeError)
  }

  /** The positions of a border: its decimated points, each written as (long, lat, alt). */
  function Positions(pts: seq<Point>, k: int): seq<Cartographic>
    requires k != 0
  {
    var kept := Decimate(pts, k);
    seq(|kept|, j requires 0 <= j < |kept| => ToCartographic(kept[j]))
  }

  function BorderPacket(pts: seq<Point>, k: int, d: Decoration): Packet
    requires k != 0
  {
    Packet(BorderId, Geometry(PolylineKind, Positions(pts, k), d.shape), d.extras)
  }

  /**
   * The packet of border `i`, or why it cannot be built: the lookup, the step, then the
   * `Packet` call itself, which raises when the border's keywords collide.
   */
  function BorderAt(registry: map<string, seq<real>>, items: seq<BorderItem>, steps: seq<int>,
                    ds: seq<Decoration>, suffix: string, i: nat): Result<Packet, Error>
    requires i < |items| == |ds|
  {
    var pts :- ResolveItem(registry, items[i], suffix);
    if i >= |steps| then Failure(IndexError)
    else if steps[i] == 0 then Failure(ZeroStep)
    else if Collides(ds[i], PolylineRule) then Failure(DuplicateKeyword)
    else Success(BorderPacket(pts, steps[i], ds[i]))
  }

  /** The outcome of every border, in input order. */
  function BorderResults(registry: map<string, seq<real>>, items: seq<BorderItem>, steps: seq<int>,
                         ds: seq<Decoration>, suffix: string): seq<Result<Packet, Error>>
    requires |items| == |ds|
  {
    seq(|items|, i requires 0 <= i < |items| => BorderAt(registry, items, steps, ds, suffix, i))
  }

  /** The values of the first `m` outcomes, or the first failure among them. */
  function Collect<T>(rs: seq<Result<T, Error>>, m: nat): Result<seq<T>, Error>
    requires m <= |rs|
  {
    if m == 0 then Success([])
    else
      var before :- Collect(rs, m - 1);
      var x :- rs[m - 1];
      Success(before + [x])
  }

  function BorderSpec(registry: map<string, seq<real>>, borders: BordersArg, step: StepArg,
                      params: seq<(string, Value)>, suffix: string): Result<seq<Packet>, Error>
  {
    var items := Items(borders);
    var rs := BorderResults(registry, items, Steps(step, |items|), EntityDecorations(params, |items|, PolylineRule), suffix);
    Collect(rs, |rs|)
  }

  /** Once a prefix has failed, every longer prefix fails the same way. */
  lemma {:induction false} FailureSticks<T>(rs: seq<Result<T, Error>>, m: nat, m': nat)
    requires m <= m' <= |rs|
    requires Collect(rs, m).Failure?
    ensures Collect(rs, m') == Collect(rs, m)
    decreases m' - m
  {
    if m < m' {
      FailureSticks(rs, m, m' - 1);
    }
  }

  /** A successful outcome after a successful prefix extends the collected values. */
  lemma CollectExtends<T>(rs: seq<Result<T, Error>>, i: nat, out: seq<T>)
    requires i < |rs| && Collect(rs, i) == Success(out) && rs[i].Success?
    ensures Collect(rs, i + 1) == Success(out + [rs[i].value])
  {
  }

  /** A failed outcome after a successful prefix is the failure of the whole collection. */
  lemma CollectStopsAt<T>(rs: seq<Result<T, Error>>, i: nat, out: seq<T>)
    requires i < |rs| && Collect(rs, i) == Success(out) && rs[i].Failure?
    ensures Collect(rs, |rs|) == Failure(rs[i].error)
  {
    FailureSticks(rs, i + 1, |rs|);
  }

  /** One iteration of `border`: look the border up, check its step, build its packet. */
  method ResolveBorder(registry: map<string, seq<real>>, items: seq<BorderItem>, steps: seq<int>,
                       ds: seq<Decoration>, suffix: string, i: nat) returns (r: Result<Packet, Error>)
    requires i < |items| == |ds|
    ensures r == BorderAt(registry, items, steps, ds, suffix, i)
  {
    var pts: seq<Point>;
    match items[i] {
      case NamedBorder(name) =>
        var found := GetBorder(registry, StrName(name), suffix);
        if found.Failure? {
          return Failure(found.error);
        }
        pts := found.value;
      case PointArray(points) =>
        pts := points;
      case OtherItem =>
        return Failure(BorderTypeError);
    }
    if i >= |steps| {
      return Failure(IndexError);
    }
    if steps[i] == 0 {
      return Failure(ZeroStep);
    }
    if Collides(ds[i], PolylineRule) {
      return Failure(DuplicateKeyword);
    }
    return Success(BorderPacket(pts, steps[i], ds[i]));
  }

  /** The border loop: one packet per border, stopping at the first border that fails. */
  method BuildBorders(registry: map<string, seq<real>>, items: seq<BorderItem>, steps: seq<int>,
                      ds: seq<Decoration>, suffix: string) returns (r: Result<seq<Packet>, Error>)
    requires |items| == |ds|
    ensures r == Collect(BorderResults(registry, items, steps, ds, suffix), |items|)
  {
    ghost var rs := BorderResults(registry, items, steps, ds, suffix);
    var out: seq<Packet> := [];
    var i := 0;
    while i < |items|
      invariant 0 <= i <= |items|
      invariant Collect(rs, i) == Success(out)
    {
      var p := ResolveBorder(registry, items, steps, ds, suffix, i);
      assert p == rs[i];
      if p.Failure? {
        CollectStopsAt(rs, i, out);
        return Failure(p.error);
      }
      CollectExtends(rs, i, out);
      out := out + [p.value];
      i := i + 1;
    }
    return Success(out);
  }

  /** `border`: wrap, replicate the step, distribute the keywords, then one packet per border. */
  method MakeBorder(registry: map<string, seq<real>>, borders: BordersArg, step: StepArg,
                    params: seq<(string, Value)>, suffix: string) returns (r: Result<seq<Packet>, Error>)
    ensures r == BorderSpec(registry, borders, step, params, suffix)
  {
    var items := Items(borders);
    var steps := Steps(step, |items|);
    var ds := Distribute(params, |items|, PolylineRule, false);
    assert ds == EntityDecorations(params, |items|, PolylineRule);
    r := BuildBorders(registry, items, steps, ds, suffix);
  }

  // ---------------------------------------------------------------------------
  // Properties

  /** Whether a border succeeds, and what its packet then is. */
  lemma BorderAtOutcome(registry: map<string, seq<real>>, items: seq<BorderItem>, steps: seq<int>,
                        ds: seq<Decoration>, suffix: string, i: nat)
    requires i < |items| == |ds|
    ensures var r := BorderAt(registry, items, steps, ds, suffix, i);
      && (r.Success? <==> ResolveItem(registry, items[i], suffix).Success? && i < |steps| && steps[i] != 0
                          && !Collides(ds[i], PolylineRule))
      && (items[i].OtherItem? ==> r == Failure(BorderTypeError))
      && (ResolveItem(registry, items[i], suffix).Success? && |steps| <= i ==> r == Failure(IndexError))
      && (ResolveItem(registry, items[i], suffix).Success? && i < |steps| && steps[i] == 0 ==> r == Failure(ZeroStep))
      && ((ResolveItem(registry, items[i], suffix).Success? && i < |steps| && steps[i] != 0 && Collides(ds[i], PolylineRule))
          ==> r == Failure(DuplicateKeyword))
  {
  }

  /** All outcomes succeed or the collection fails; on success the values are kept in order. */
  lemma {:induction false} CollectOutcome<T>(rs: seq<Result<T, Error>>, m: nat)
    requires m <= |rs|
    ensures var r := Collect(rs, m);
      && (r.Success? <==> forall i :: 0 <= i < m ==> rs[i].Success?)
      && (r.Success? ==> |r.value| == m)
      && (r.Success? ==> forall i :: 0 <= i < m ==> r.value[i] == rs[i].value)
  {
    if m > 0 {
      CollectOutcome(rs, m - 1);
      var r, before := Collect(rs, m), Collect(rs, m - 1);
      if before.Failure? {
        assert r == Failure(before.error);
      } else if rs[m - 1].Failure? {
        assert r == Failure(rs[m - 1].error);
      } else {
        assert r == Success(before.value + [rs[m - 1].value]);
      }
    }
  }

  /** Outcome `i` fails with `e` and every outcome before it succeeds. */
  predicate FirstFailure<T>(rs: seq<Result<T, Error>>, i: nat, e: Error)
    requires i < |rs|
  {
    rs[i] == Failure(e) && forall h :: 0 <= h < i ==> rs[h].Success?
  }

  /** A failure is that of the first outcome that fails. */
  lemma {:induction false} CollectFailure<T>(rs: seq<Result<T, Error>>, m: nat)
    requires m <= |rs|
    requires Collect(rs, m).Failure?
    ensures exists i :: 0 <= i < m && FirstFailure(rs, i, Collect(rs, m).error)
  {
    var before := Collect(rs, m - 1);
    if before.Failure? {
      CollectFailure(rs, m - 1);
      var i :| 0 <= i < m - 1 && FirstFailure(rs, i, before.error);
      assert FirstFailure(rs, i, Collect(rs, m).error);
    } else {
      CollectOutcome(rs, m - 1);
      assert FirstFailure(rs, m - 1, rs[m - 1].error);
    }
  }

  /** `Collect` over all outcomes: every value in order, or the first failure. */
  lemma CollectSummary<T>(rs: seq<Result<T, Error>>)
    ensures var r := Collect(rs, |rs|);
      && (r.Success? <==> forall i :: 0 <= i < |rs| ==> rs[i].Success?)
      && (r.Success? ==> |r.value| == |rs| && forall i :: 0 <= i < |rs| ==> r.value[i] == rs[i].value)
      && (r.Failure? ==> exists i :: 0 <= i < |rs| && FirstFailure(rs, i, r.error))
  {
    CollectOutcome(rs, |rs|);
    if Collect(rs, |rs|).Failure? {
      CollectFailure(rs, |rs|);
    }
  }

  /**
   * The borders succeed together or not at all: on success there is one packet per border,
   * in input order; on failure the error is that of the first border that fails.
   */
  lemma BorderSpecOutcome(registry: map<string, seq<real>>, borders: BordersArg, step: StepArg,
                          params: seq<(string, Value)>, suffix: string)
    ensures var items := Items(borders);
      var rs := BorderResults(registry, items, Steps(step, |items|), EntityDecorations(params, |items|, PolylineRule), suffix);
      var r := BorderSpec(registry, borders, step, params, suffix);
      && |rs| == |items|
      && (r.Success? <==> forall i :: 0 <= i < |items| ==> rs[i].Success?)
      && (r.Success? ==> |r.value| == |items| && forall i :: 0 <= i < |items| ==> r.value[i] == rs[i].value)
      && (r.Failure? ==> exists i :: 0 <= i < |items| && FirstFailure(rs, i, r.error))
  {
    var items := Items(borders);
    var rs := BorderResults(registry, items, Steps(step, |items|), EntityDecorations(params, |items|, PolylineRule), suffix);
    assert BorderSpec(registry, borders, step, params, suffix) == Collect(rs, |rs|);
    CollectSummary(rs);
  }

  /**
   * On success, packet `i` is a polyline through the points of border `i`, every step-th
   * one written as (long, lat, alt), carrying the decoration the keywords give entity `i`.
   */
  lemma BorderPacketsAreBorders(registry: map<string, seq<real>>, borders: BordersArg, step: StepArg,
                                params: seq<(string, Value)>, suffix: string, i: nat)
    requires i < |Items(borders)|
    requires BorderSpec(registry, borders, step, params, suffix).Success?
    ensures var items := Items(borders);
      var steps := Steps(step, |items|);
      var d := DecorationOf(params, |items|, i, PolylineRule, false);
      var r := BorderSpec(registry, borders, step, params, suffix).value;
      var found := ResolveItem(registry, items[i], suffix);
      && |r| == |items|
      && i < |steps| && steps[i] != 0 && found.Success?
      && r[i].id == BorderId && r[i].geometry.kind == PolylineKind
      && r[i].geometry.positions == Positions(found.value, steps[i])
      && r[i].geometry.fields == d.shape && r[i].extras == d.extras
  {
    var items := Items(borders);
    var steps := Steps(step, |items|);
    var ds := EntityDecorations(params, |items|, PolylineRule);
    var rs := BorderResults(registry, items, steps, ds, suffix);
    CollectSummary(rs);
    assert rs[i] == BorderAt(registry, items, steps, ds, suffix, i);
    BorderAtPacket(registry, items, steps, ds, suffix, i);
    assert ds[i] == DecorationOf(params, |items|, i, PolylineRule, false);
  }

  /** A border that succeeds resolved its points, had a non-zero step, and yields its polyline packet. */
  lemma BorderAtPacket(registry: map<string, seq<real>>, items: seq<BorderItem>, steps: seq<int>,
                       ds: seq<Decoration>, suffix: string, i: nat)
    requires i < |items| == |ds|
    requires BorderAt(registry, items, steps, ds, suffix, i).Success?
    ensures var found := ResolveItem(registry, items[i], suffix);
      && found.Success? && i < |steps| && steps[i] != 0
      && BorderAt(registry, items, steps, ds, suffix, i).value == BorderPacket(found.value, steps[i], ds[i])
  {
  }

  /** Position `j` of a border with a positive step is input point `j * k`, long and lat swapped. */
  lemma PositionsSwapAxes(pts: seq<Point>, k: int, j: nat)
    requires k > 0 && j < |Positions(pts, k)|
    ensures j * k < |pts|
    ensures Positions(pts, k)[j] == Cartographic(pts[j * k].lon, pts[j * k].lat, pts[j * k].alt)
  {
    DecimateForward(pts, k);
  }

  /** A single name or array is the same as a one-element list of it; an int step is the same as a one-element list. */
  lemma SingleBorderIsOneElementList(registry: map<string, seq<real>>, name: string, points: seq<Point>, k: int,
                                     params: seq<(string, Value)>, suffix: string)
    ensures BorderSpec(registry, SingleName(name), EveryStep(k), params, suffix)
         == BorderSpec(registry, Many([NamedBorder(name)]), PerBorderSteps([k]), params, suffix)
    ensures BorderSpec(registry, SingleArray(points), EveryStep(k), params, suffix)
         == BorderSpec(registry, Many([PointArray(points)]), PerBorderSteps([k]), params, suffix)
  {
    assert Steps(EveryStep(k), 1) == [k];
  }

  /** The outcome of a border depends on its item only through what the item resolves to. */
  lemma BorderAtSameResolution(registry: map<string, seq<real>>, items: seq<BorderItem>, items': seq<BorderItem>,
                               steps: seq<int>, ds: seq<Decoration>, suffix: string, i: nat)
    requires i < |items| == |items'| == |ds|
    requires ResolveItem(registry, items[i], suffix) == ResolveItem(registry, items'[i], suffix)
    ensures BorderAt(registry, items, steps, ds, suffix, i) == BorderAt(registry, items', steps, ds, suffix, i)
  {
  }

  lemma ResolveItemIgnoresCase(registry: map<string, seq<real>>, name: string, name': string, suffix: string)
    requires Lower(name) == Lower(name')
    ensures ResolveItem(registry, NamedBorder(name), suffix) == ResolveItem(registry, NamedBorder(name'), suffix)
  {
    ResolveIgnoresCase(name, name', suffix);
  }

  lemma BorderResultsOfOne(registry: map<string, seq<real>>, item: BorderItem, steps: seq<int>,
                           ds: seq<Decoration>, suffix: string)
    requires |ds| == 1
    ensures BorderResults(registry, [item], steps, ds, suffix) == [BorderAt(registry, [item], steps, ds, suffix, 0)]
  {
  }

  /** Border names are looked up without regard to case. */
  lemma BorderNameIgnoresCase(registry: map<string, seq<real>>, name: string, name': string, step: StepArg,
                              params: seq<(string, Value)>, suffix: string)
    requires Lower(name) == Lower(name')
    ensures BorderSpec(registry, SingleName(name), step, params, suffix)
         == BorderSpec(registry, SingleName(name'), step, params, suffix)
  {
    var items, items' := [NamedBorder(name)], [NamedBorder(name')];
    var steps := Steps(step, 1);
    var ds := EntityDecorations(params, 1, PolylineRule);
    ResolveItemIgnoresCase(registry, name, name', suffix);
    BorderAtSameResolution(registry, items, items', steps, ds, suffix, 0);
    BorderResultsOfOne(registry, items[0], steps, ds, suffix);
    BorderResultsOfOne(registry, items'[0], steps, ds, suffix);
  }

  /** A `polyline` keyword that is not a `Polyline` template collides with the border's own polyline. */
  lemma PolylineKeywordFails(registry: map<string, seq<real>>, points: seq<Point>, k: int, v: Value, suffix: string)
    requires k != 0 && !v.Shape? && !v.List?
    ensures BorderSpec(registry, SingleArray(points), EveryStep(k), [("polyline", v)], suffix) == Failure(DuplicateKeyword)
  {
    var params := [("polyline", v)];
    var items := Items(SingleArray(points));
    var ds := EntityDecorations(params, 1, PolylineRule);
    ReservedKeywordCollides([], "polyline", v, 1, 0, PolylineRule);
    assert [] + params == params;
    assert ds[0] == DecorationOf(params, 1, 0, PolylineRule, false);
    var rs := BorderResults(registry, items, Steps(EveryStep(k), 1), ds, suffix);
    assert rs[0] == Failure(DuplicateKeyword);
    assert Collect(rs, 0) == Success([]);
    CollectStopsAt(rs, 0, []);
  }
}
