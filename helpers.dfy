/**
 * The helpers behind the packet builders: resolving a border or billboard name to a registry
 * entry, reshaping a border's flat values into points, the comparison dispatch used on rasters,
 * and the billboard text of a PNG image.
 *
 * The registries stand for the package's data directory: a map from file name to the file's
 * content, already parsed into numbers for borders.
 */
module Helpers {
  import opened Wrappers
  import opened Errors
  import opened Czml
  import opened Text
  import Base64

  // ---------------------------------------------------------------------------
  // Names

  /** A name as the caller passes it: a `str` is lower-cased, a `Path` is used as is. */
  datatype FileName = StrName(s: string) | PathName(p: string)

  function Spelling(f: FileName): string
  {
    match f
    case StrName(s) => Lower(s)
    case PathName(p) => p
  }

  /** `t` is the end of `s`. */
  predicate EndsWith(s: string, t: string)
  {
    |t| <= |s| && s[|s| - |t|..] == t
  }

  lemma EndsWithAppend(s: string, t: string)
    ensures EndsWith(s + t, t)
  {
    assert (s + t)[|s|..] == t;
  }

  /** `PurePath.name`: what follows the last '/'. */
  function FinalComponent(p: string): (r: string)
    ensures '/' !in r
    ensures EndsWith(p, r)
  {
    var i := LastIndexOf(p, '/');
    var r := p[i + 1..];
    forall j | 0 <= j < |r|
      ensures r[j] != '/'
    {
      assert r[j] == p[i + 1 + j];
    }
    r
  }

  /** The final component is all of the path after its last '/': the whole path, or a '/' comes just before it. */
  lemma FinalComponentAfterLastSlash(p: string)
    ensures var r := FinalComponent(p); |r| == |p| || p[|p| - |r| - 1] == '/'
  {
  }

  /**
   * `PurePath.suffix`: from the last '.' of the final component, unless that '.' is its
   * first or last character, in which case it is empty (`SuffixIsFromLastDot`).
   */
  function Suffix(p: string): (r: string)
    ensures r == [] || (|r| >= 2 && r[0] == '.' && '.' !in r[1..] && '/' !in r)
    ensures EndsWith(p, r)
  {
    var name := FinalComponent(p);
    var i := LastIndexOf(name, '.');
    if 0 < i < |name| - 1 then
      var r := name[i..];
      forall j | 1 <= j < |r|
        ensures r[j] != '.'
      {
        assert r[j] == name[i + j];
      }
      r
    else ""
  }

  /**
   * A non-empty suffix is the end of the final component from a '.' that is not its first
   * character; the suffix is empty only when every '.' inside the final component, other
   * than at its ends, has another '.' after it.
   */
  lemma SuffixIsFromLastDot(p: string)
    ensures var name, r := FinalComponent(p), Suffix(p);
      r != [] ==> |r| < |name| && EndsWith(name, r)
    ensures var name, r := FinalComponent(p), Suffix(p);
      r == [] ==> forall k :: 0 < k < |name| - 1 && name[k] == '.' ==> '.' in name[k + 1..]
  {
    var name := FinalComponent(p);
    var i := LastIndexOf(name, '.');
    if !(0 < i < |name| - 1) {
      forall k | 0 < k < |name| - 1 && name[k] == '.'
        ensures '.' in name[k + 1..]
      {
        assert k < i;
        assert name[k + 1..][i - k - 1] == '.';
      }
    }
  }

  /** A suffix such as ".border": a dot followed by at least one character, none of them '.' or '/'. */
  predicate ProperSuffix(suffix: string)
  {
    |suffix| >= 2 && suffix[0] == '.' && '.' !in suffix[1..] && '/' !in suffix
  }

  /** The registry key a name resolves to: when the suffix differs, the final component plus the suffix. */
  function Resolve(f: FileName, suffix: string): (r: string)
    ensures Suffix(Spelling(f)) == suffix ==> r == Spelling(f)
    ensures Suffix(Spelling(f)) != suffix ==> r == FinalComponent(Spelling(f)) + suffix
  {
    var p := Spelling(f);
    if Suffix(p) != suffix then FinalComponent(p) + suffix else p
  }

  /** Upper-case and lower-case spellings of a `str` name resolve to the same key. */
  lemma ResolveIgnoresCase(s: string, t: string, suffix: string)
    requires Lower(s) == Lower(t)
    ensures Resolve(StrName(s), suffix) == Resolve(StrName(t), suffix)
  {
  }

  /** Every resolved key ends with the suffix. */
  lemma ResolvedEndsWithSuffix(f: FileName, suffix: string)
    ensures EndsWith(Resolve(f, suffix), suffix)
  {
    var p := Spelling(f);
    if Suffix(p) != suffix {
      EndsWithAppend(FinalComponent(p), suffix);
    }
  }

  /** When the suffix is appended, the directory part of the name is dropped. */
  lemma AppendedDropsDirectory(f: FileName, suffix: string)
    requires '/' !in suffix && Suffix(Spelling(f)) != suffix
    ensures '/' !in Resolve(f, suffix)
  {
  }

  lemma LastIndexOfAppend(a: string, b: string, c: char)
    requires c in b
    ensures LastIndexOf(a + b, c) == |a| + LastIndexOf(b, c)
  {
    var j := LastIndexOf(b, c);
    assert (a + b)[|a| + j] == c;
  }

  /** Resolving a resolved key again gives the same key, when its stem is not empty. */
  lemma ResolveIdempotent(f: FileName, suffix: string)
    requires ProperSuffix(suffix)
    requires Suffix(Spelling(f)) != suffix ==> FinalComponent(Spelling(f)) != ""
    ensures Resolve(PathName(Resolve(f, suffix)), suffix) == Resolve(f, suffix)
  {
    var p := Spelling(f);
    if Suffix(p) != suffix {
      var stem := FinalComponent(p);
      var r := stem + suffix;
      assert '/' !in r;
      assert LastIndexOf(r, '/') == -1;
      assert FinalComponent(r) == r;
      assert '.' in suffix;
      LastIndexOfAppend(stem, suffix, '.');
      assert LastIndexOf(suffix, '.') == 0;
      assert LastIndexOf(r, '.') == |stem|;
      assert r[|stem|..] == suffix;
      assert Suffix(r) == suffix;
    }
  }

  // ---------------------------------------------------------------------------
  // Borders

  /** `get_border`'s reshaping: value pairs (long, lat) become points at altitude zero. */
  function BorderPoints(values: seq<real>): (r: Result<seq<Point>, Error>)
    ensures r.Failure? <==> |values| % 2 != 0
    ensures r.Failure? ==> r.error == ReshapeError
  {
    if |values| % 2 != 0 then Failure(ReshapeError)
    else Success(seq(|values| / 2, i requires 0 <= i < |values| / 2 => Point(values[2 * i + 1], values[2 * i], 0.0)))
  }

  /** The inverse view: each point back to its (long, lat) pair. */
  function Flatten(pts: seq<Point>): (r: seq<real>)
    ensures |r| == 2 * |pts|
  {
    seq(2 * |pts|, k requires 0 <= k < 2 * |pts| => if k % 2 == 0 then pts[k / 2].lon else pts[k / 2].lat)
  }

  /** Reshaping after flattening gives the points back, for points at altitude zero. */
  lemma ReshapeFlatten(pts: seq<Point>)
    requires forall i :: 0 <= i < |pts| ==> pts[i].alt == 0.0
    ensures BorderPoints(Flatten(pts)) == Success(pts)
  {
    var vs := Flatten(pts);
    var r := BorderPoints(vs);
    forall i | 0 <= i < |pts|
      ensures r.value[i] == pts[i]
    {
      assert vs[2 * i] == pts[i].lon;
      assert vs[2 * i + 1] == pts[i].lat;
    }
    assert r.value == pts;
  }

  /** Flattening after reshaping gives the values back. */
  lemma FlattenReshape(values: seq<real>)
    requires |values| % 2 == 0
    ensures Flatten(BorderPoints(values).value) == values
  {
    var pts := BorderPoints(values).value;
    forall k | 0 <= k < |values|
      ensures Flatten(pts)[k] == values[k]
    {
      var i := k / 2;
      assert pts[i] == Point(values[2 * i + 1], values[2 * i], 0.0);
      if k % 2 == 0 {
        assert k == 2 * i;
      } else {
        assert k == 2 * i + 1;
      }
    }
  }

  /** The fill of `get_border`: a zeroed array of points, whose latitude and longitude are then set. */
  method ReshapeBorder(values: seq<real>) returns (r: Result<seq<Point>, Error>)
    ensures r == BorderPoints(values)
  {
    if |values| % 2 != 0 {
      return Failure(ReshapeError);
    }
    var n := |values| / 2;
    var points := new Point[n](_ => Point(0.0, 0.0, 0.0));
    var i := 0;
    while i < n
      invariant 0 <= i <= n
      invariant forall j :: 0 <= j < i ==> points[j] == Point(values[2 * j + 1], values[2 * j], 0.0)
      invariant forall j :: i <= j < n ==> points[j] == Point(0.0, 0.0, 0.0)
    {
      points[i] := points[i].(lat := values[2 * i + 1], lon := values[2 * i]);
      i := i + 1;
    }
    assert points[..] == BorderPoints(values).value;
    return Success(points[..]);
  }

  /** `get_border`: the key the name resolves to, looked up and reshaped. */
  function GetBorderSpec(registry: map<string, seq<real>>, f: FileName, suffix: string): Result<seq<Point>, Error>
  {
    var key := Resolve(f, suffix);
    if key !in registry then Failure(BorderNotFound(key, registry.Keys))
    else BorderPoints(registry[key])
  }

  method GetBorder(registry: map<string, seq<real>>, f: FileName, suffix: string) returns (r: Result<seq<Point>, Error>)
    ensures r == GetBorderSpec(registry, f, suffix)
  {
    var key := Resolve(f, suffix);
    if key !in registry {
      return Failure(BorderNotFound(key, registry.Keys));
    }
    r := ReshapeBorder(registry[key]);
  }

  /** A border is found exactly when its key is registered with an even count of values; it then lies at ground level. */
  lemma GetBorderOutcome(registry: map<string, seq<real>>, f: FileName, suffix: string)
    ensures var r, key := GetBorderSpec(registry, f, suffix), Resolve(f, suffix);
      && (r.Failure? <==> key !in registry || |registry[key]| % 2 != 0)
      && (key !in registry ==> r == Failure(BorderNotFound(key, registry.Keys)))
      && (key in registry && |registry[key]| % 2 != 0 ==> r == Failure(ReshapeError))
      && (r.Success? ==> |r.value| == |registry[key]| / 2 && forall i :: 0 <= i < |r.value| ==> r.value[i].alt == 0.0)
  {
    var key := Resolve(f, suffix);
    if key in registry {
      var r := BorderPoints(registry[key]);
      assert GetBorderSpec(registry, f, suffix) == r;
      assert r.Success? ==> forall i :: 0 <= i < |r.value| ==> r.value[i].alt == 0.0;
    }
  }

  // ---------------------------------------------------------------------------
  // Billboards

  /** `get_billboard`: the entry's text, stripped of surrounding whitespace. */
  function GetBillboard(registry: map<string, string>, f: FileName, suffix: string): (r: Result<string, Error>)
    ensures r.Failure? <==> Resolve(f, suffix) !in registry
    ensures r.Failure? ==> r.error == BillboardNotFound(Resolve(f, suffix), registry.Keys)
    ensures r.Success? ==> r.value == [] || (!IsSpace(r.value[0]) && !IsSpace(r.value[|r.value| - 1]))
    ensures r.Success? ==> exists i :: TrimmedAt(registry[Resolve(f, suffix)], r.value, i)
  {
    var key := Resolve(f, suffix);
    if key !in registry then Failure(BillboardNotFound(key, registry.Keys))
    else Success(Strip(registry[key]))
  }

  /** The text of a PNG image as a billboard: a data URI around the base 64 encoding of its bytes. */
  const DataPrefix: string := "data:@file/png;base64,"

  function Png2Base64(bytes: seq<Base64.byte>): (r: string)
    ensures |r| == |DataPrefix| + 4 * ((|bytes| + 2) / 3)
    ensures r[..|DataPrefix|] == DataPrefix
    ensures |r[|DataPrefix|..]| % 4 == 0 && Base64.Decode(r[|DataPrefix|..]) == bytes
  {
    var text := Base64.Encode(bytes);
    Base64.DecodeEncode(bytes);
    var r := DataPrefix + text;
    assert r[..|DataPrefix|] == DataPrefix;
    assert r[|DataPrefix|..] == text;
    r
  }

  // ---------------------------------------------------------------------------
  // Comparisons

  datatype Operation = Equal | GreaterOrEqual | LessOrEqual | Greater | Less

  /** The operation codes `perform_operation` accepts. */
  function ParseOperation(code: string): (r: Result<Operation, Error>)
    ensures r.Failure? <==> code != "eq" && code != "ge" && code != "le" && code != "g" && code != "l"
    ensures r.Failure? ==> r.error == InvalidOperation(code)
    ensures code == "eq" ==> r == Success(Equal)
    ensures code == "ge" ==> r == Success(GreaterOrEqual)
    ensures code == "le" ==> r == Success(LessOrEqual)
    ensures code == "g" ==> r == Success(Greater)
    ensures code == "l" ==> r == Success(Less)
  {
    if code == "eq" then Success(Equal)
    else if code == "ge" then Success(GreaterOrEqual)
    else if code == "le" then Success(LessOrEqual)
    else if code == "g" then Success(Greater)
    else if code == "l" then Success(Less)
    else Failure(InvalidOperation(code))
  }

  function Holds(op: Operation, x: real, y: real): bool
  {
    match op
    case Equal => x == y
    case GreaterOrEqual => x >= y
    case LessOrEqual => x <= y
    case Greater => x > y
    case Less => x < y
  }

  /** The right-hand side: a number, or an array of the same shape as the left-hand side. */
  datatype Operand = ScalarOperand(x: real) | ArrayOperand(xs: seq<real>)

  /** The broadcast length of two one-dimensional operands, when they are compatible. */
  function BroadcastLength(n: nat, m: nat): Option<nat>
  {
    if n == m then Some(n) else if n == 1 then Some(m) else if m == 1 then Some(n) else None
  }

  function Left(v1: seq<real>, j: nat): real
    requires |v1| > 0
  {
    if |v1| == 1 then v1[0] else if j < |v1| then v1[j] else 0.0
  }

  function Right(v2: Operand, j: nat): real
  {
    match v2
    case ScalarOperand(x) => x
    case ArrayOperand(xs) => if |xs| == 1 then xs[0] else if j < |xs| then xs[j] else 0.0
  }

  function OperandLength(v2: Operand): nat
  {
    match v2
    case ScalarOperand(_) => 1
    case ArrayOperand(xs) => |xs|
  }

  /** `perform_operation`: the elementwise mask, or an error for an unknown code or incompatible shapes. */
  function PerformOperation(code: string, v1: seq<real>, v2: Operand): (r: Result<seq<bool>, Error>)
    ensures ParseOperation(code).Failure? ==> r == Failure(InvalidOperation(code))
    ensures ParseOperation(code).Success? && v2.ScalarOperand? ==>
      r.Success? && |r.value| == |v1| &&
      forall i :: 0 <= i < |v1| ==> r.value[i] == Holds(ParseOperation(code).value, v1[i], v2.x)
    ensures ParseOperation(code).Success? && v2.ArrayOperand? && |v2.xs| == |v1| ==>
      r.Success? && |r.value| == |v1| &&
      forall i :: 0 <= i < |v1| ==> r.value[i] == Holds(ParseOperation(code).value, v1[i], v2.xs[i])
    ensures ParseOperation(code).Success? && v2.ArrayOperand? && |v1| == 1 ==>
      r.Success? && |r.value| == |v2.xs| &&
      forall j :: 0 <= j < |v2.xs| ==> r.value[j] == Holds(ParseOperation(code).value, v1[0], v2.xs[j])
    ensures ParseOperation(code).Success? && v2.ArrayOperand? && |v2.xs| == 1 ==>
      r.Success? && |r.value| == |v1| &&
      forall i :: 0 <= i < |v1| ==> r.value[i] == Holds(ParseOperation(code).value, v1[i], v2.xs[0])
    ensures ParseOperation(code).Success? ==>
      (r.Failure? <==> BroadcastLength(|v1|, OperandLength(v2)).None?)
    ensures r.Success? ==> |r.value| == BroadcastLength(|v1|, OperandLength(v2)).value
    ensures r.Failure? && ParseOperation(code).Success? ==> r.error == BroadcastError
  {
    var op :- ParseOperation(code);
    match BroadcastLength(|v1|, OperandLength(v2))
    case None => Failure(BroadcastError)
    case Some(n) =>
      if |v1| == 0 then Success([])
      else Success(seq(n, j requires 0 <= j => Holds(op, Left(v1, j), Right(v2, j))))
  }

  /** Each code is its comparison of element `i` with a number on the right. */
  lemma ComparisonCodes(v1: seq<real>, x: real, i: nat)
    requires i < |v1|
    ensures PerformOperation("eq", v1, ScalarOperand(x)).value[i] == (v1[i] == x)
    ensures PerformOperation("ge", v1, ScalarOperand(x)).value[i] == (v1[i] >= x)
    ensures PerformOperation("le", v1, ScalarOperand(x)).value[i] == (v1[i] <= x)
    ensures PerformOperation("g", v1, ScalarOperand(x)).value[i] == (v1[i] > x)
    ensures PerformOperation("l", v1, ScalarOperand(x)).value[i] == (v1[i] < x)
  {
  }

  /** "ge" is "g" or "eq", element by element. */
  lemma GreaterOrEqualSplits(v1: seq<real>, v2: Operand)
    requires BroadcastLength(|v1|, OperandLength(v2)).Some?
    ensures var ge, g, eq := PerformOperation("ge", v1, v2).value, PerformOperation("g", v1, v2).value,
      PerformOperation("eq", v1, v2).value;
      |ge| == |g| == |eq| && forall i :: 0 <= i < |ge| ==> ge[i] == (g[i] || eq[i])
  {
  }

  /** "le" is "l" or "eq", element by element. */
  lemma LessOrEqualSplits(v1: seq<real>, v2: Operand)
    requires BroadcastLength(|v1|, OperandLength(v2)).Some?
    ensures var le, l, eq := PerformOperation("le", v1, v2).value, PerformOperation("l", v1, v2).value,
      PerformOperation("eq", v1, v2).value;
      |le| == |l| == |eq| && forall i :: 0 <= i < |le| ==> le[i] == (l[i] || eq[i])
  {
  }

  /** "g" is the negation of "le", and "l" of "ge", element by element. */
  lemma StrictIsNegation(v1: seq<real>, v2: Operand)
    requires BroadcastLength(|v1|, OperandLength(v2)).Some?
    ensures var g, le := PerformOperation("g", v1, v2).value, PerformOperation("le", v1, v2).value;
      |g| == |le| && forall i :: 0 <= i < |g| ==> g[i] == !le[i]
    ensures var l, ge := PerformOperation("l", v1, v2).value, PerformOperation("ge", v1, v2).value;
      |l| == |ge| && forall i :: 0 <= i < |l| ==> l[i] == !ge[i]
  {
  }
}
