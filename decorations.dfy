/**
 * The distribution of trailing keyword arguments (`**add_params`) over the N
 * entities a packet-building function emits: sensors, grid centres or borders.
 */
module Decorations {
  import opened Czml

  /** The keyword fields of one entity: the packet-level ones and the geometry's own. */
  datatype Decoration = Decoration(extras: map<string, Value>, shape: map<string, Value>)

  /** Which czml3 class counts as a geometry template, and the fields the computed geometry sets itself. */
  datatype ShapeRule = ShapeRule(kind: ShapeKind, stripped: set<string>)

  /** `sensor_polyline` and `border`: a `Polyline` template loses `positions`. */
  const PolylineRule := ShapeRule(PolylineKind, {"positions"})
  /** `sensor_polygon`: a `Polygon` template loses `positions` and `perPositionHeight`. */
  const SensorPolygonRule := ShapeRule(PolygonKind, {"positions", "perPositionHeight"})
  /** `grid`: a `Polygon` template loses `positions`, `outline` and `outlineColor`. */
  const GridRule := ShapeRule(PolygonKind, {"positions", "outline", "outlineColor"})

  predicate IsTemplate(v: Value, rule: ShapeRule)
  {
    v.Shape? && v.kind == rule.kind
  }

  /**
   * `isinstance(v, Sequence) and len(v) == n`. A Python `str` is a `Sequence` too;
   * `asWritten` selects that reading, under which a string of length n is split
   * into its characters.
   */
  predicate SplitsPerEntity(v: Value, n: nat, asWritten: bool)
  {
    (v.List? && |v.items| == n) || (asWritten && v.Text? && |v.s| == n)
  }

  /** Element `i` of a value that is split one per entity. */
  function Element(v: Value, i: nat, n: nat, asWritten: bool): Value
    requires SplitsPerEntity(v, n, asWritten) && i < n
  {
    if v.List? then v.items[i] else Text([v.s[i]])
  }

  /** A template's fields without the ones the computed geometry sets. */
  function Stripped(fields: map<string, Value>, rule: ShapeRule): map<string, Value>
  {
    fields - rule.stripped
  }

  /** What the keyword `key = v` does to the decoration of entity `i` of `n`. */
  function Apply(d: Decoration, key: string, v: Value, n: nat, i: nat, rule: ShapeRule, asWritten: bool): Decoration
    requires i < n
  {
    if IsTemplate(v, rule) then
      d.(shape := Stripped(v.fields, rule))
    else if SplitsPerEntity(v, n, asWritten) then
      var e := Element(v, i, n, asWritten);
      if IsTemplate(e, rule) then d.(shape := Stripped(e.fields, rule))
      else d.(extras := d.extras[key := e])
    else
      d.(extras := d.extras[key := v])
  }

  /** The decoration of entity `i` after the keywords `params`, taken in order. */
  function DecorationOf(params: seq<(string, Value)>, n: nat, i: nat, rule: ShapeRule, asWritten: bool): Decoration
    requires i < n
    decreases |params|
  {
    if params == [] then Decoration(map[], map[])
    else
      var last := params[|params| - 1];
      Apply(DecorationOf(params[..|params| - 1], n, i, rule, asWritten), last.0, last.1, n, i, rule, asWritten)
  }

  /** The decorations of all `n` entities, with a `str` never split (see the README's Findings). */
  function EntityDecorations(params: seq<(string, Value)>, n: nat, rule: ShapeRule): seq<Decoration>
  {
    seq(n, i requires 0 <= i < n => DecorationOf(params, n, i, rule, false))
  }

  /** The keyword under which a builder passes its computed geometry to `Packet`. */
  function GeometryKeyword(kind: ShapeKind): string
  {
    match kind
    case PolylineKind => "polyline"
    case PolygonKind => "polygon"
  }

  /**
   * `Packet(id=..., polyline=..., **extras)` (or `polygon=...`) is given a keyword twice
   * when the entity's packet fields hold `id` or the geometry keyword.
   */
  predicate Collides(d: Decoration, rule: ShapeRule)
  {
    "id" in d.extras || GeometryKeyword(rule.kind) in d.extras
  }

  /** One of the first `k` entities has colliding keywords. */
  predicate AnyCollides(ds: seq<Decoration>, k: nat, rule: ShapeRule)
    requires k <= |ds|
  {
    exists i :: 0 <= i < k && Collides(ds[i], rule)
  }

  /** No keyword is named `id` or after the geometry. */
  predicate NoReservedKeywords(params: seq<(string, Value)>, rule: ShapeRule)
  {
    forall j :: 0 <= j < |params| ==> params[j].0 != "id" && params[j].0 != GeometryKeyword(rule.kind)
  }

  lemma DecorationOfSnoc(params: seq<(string, Value)>, j: nat, n: nat, i: nat, rule: ShapeRule, asWritten: bool)
    requires j < |params| && i < n
    ensures DecorationOf(params[..j + 1], n, i, rule, asWritten)
         == Apply(DecorationOf(params[..j], n, i, rule, asWritten), params[j].0, params[j].1, n, i, rule, asWritten)
  {
    assert params[..j + 1][..j] == params[..j];
  }

  /**
   * The loops that fill `add_params_per_sensor` and its geometry twin: one pass per
   * keyword, and per keyword one pass over the entities. With `asWritten` a `str`
   * as long as the entity count is split as the source does; the builders pass
   * `false`, the corrected rule (see the README's Findings).
   */
  method Distribute(params: seq<(string, Value)>, n: nat, rule: ShapeRule, asWritten: bool) returns (ds: seq<Decoration>)
    ensures |ds| == n
    ensures forall i :: 0 <= i < n ==> ds[i] == DecorationOf(params, n, i, rule, asWritten)
  {
    var extras: seq<map<string, Value>> := seq(n, _ => map[]);
    var shapes: seq<map<string, Value>> := seq(n, _ => map[]);
    var j := 0;
    while j < |params|
      invariant 0 <= j <= |params|
      invariant |extras| == n && |shapes| == n
      invariant forall i :: 0 <= i < n ==> Decoration(extras[i], shapes[i]) == DecorationOf(params[..j], n, i, rule, asWritten)
    {
      var key, v := params[j].0, params[j].1;
      var i := 0;
      if IsTemplate(v, rule) {
        var fields := v.fields - rule.stripped;
        while i < n
          invariant 0 <= i <= n && |extras| == n && |shapes| == n
          invariant forall i' :: 0 <= i' < i ==> Decoration(extras[i'], shapes[i']) == DecorationOf(params[..j + 1], n, i', rule, asWritten)
          invariant forall i' :: i <= i' < n ==> Decoration(extras[i'], shapes[i']) == DecorationOf(params[..j], n, i', rule, asWritten)
        {
          DecorationOfSnoc(params, j, n, i, rule, asWritten);
          shapes := shapes[i := fields];
          i := i + 1;
        }
      } else if SplitsPerEntity(v, n, asWritten) {
        while i < n
          invariant 0 <= i <= n && |extras| == n && |shapes| == n
          invariant forall i' :: 0 <= i' < i ==> Decoration(extras[i'], shapes[i']) == DecorationOf(params[..j + 1], n, i', rule, asWritten)
          invariant forall i' :: i <= i' < n ==> Decoration(extras[i'], shapes[i']) == DecorationOf(params[..j], n, i', rule, asWritten)
        {
          DecorationOfSnoc(params, j, n, i, rule, asWritten);
          var e := Element(v, i, n, asWritten);
          if IsTemplate(e, rule) {
            shapes := shapes[i := e.fields - rule.stripped];
          } else {
            extras := extras[i := extras[i][key := e]];
          }
          i := i + 1;
        }
      } else {
        while i < n
          invariant 0 <= i <= n && |extras| == n && |shapes| == n
          invariant forall i' :: 0 <= i' < i ==> Decoration(extras[i'], shapes[i']) == DecorationOf(params[..j + 1], n, i', rule, asWritten)
          invariant forall i' :: i <= i' < n ==> Decoration(extras[i'], shapes[i']) == DecorationOf(params[..j], n, i', rule, asWritten)
        {
          DecorationOfSnoc(params, j, n, i, rule, asWritten);
          extras := extras[i := extras[i][key := v]];
          i := i + 1;
        }
      }
      j := j + 1;
    }
    assert params[..|params|] == params;
    ds := seq(n, i requires 0 <= i < n => Decoration(extras[i], shapes[i]));
  }

  lemma DecorationOfLast(params: seq<(string, Value)>, key: string, v: Value, n: nat, i: nat, rule: ShapeRule, asWritten: bool)
    requires i < n
    ensures DecorationOf(params + [(key, v)], n, i, rule, asWritten)
         == Apply(DecorationOf(params, n, i, rule, asWritten), key, v, n, i, rule, asWritten)
  {
    assert (params + [(key, v)])[..|params|] == params;
  }

  /** A template becomes every entity's geometry fields, minus the computed ones. */
  lemma TemplateGoesToEveryEntity(params: seq<(string, Value)>, key: string, v: Value, n: nat, rule: ShapeRule)
    requires IsTemplate(v, rule)
    ensures forall i :: 0 <= i < n ==>
      DecorationOf(params + [(key, v)], n, i, rule, false)
        == DecorationOf(params, n, i, rule, false).(shape := v.fields - rule.stripped)
  {
    forall i | 0 <= i < n
      ensures DecorationOf(params + [(key, v)], n, i, rule, false)
           == DecorationOf(params, n, i, rule, false).(shape := v.fields - rule.stripped)
    {
      DecorationOfLast(params, key, v, n, i, rule, false);
    }
  }

  /**
   * A sequence of exactly `n` items is split one per entity: a template item becomes
   * that entity's geometry fields, any other item its packet field `key`.
   */
  lemma SequenceIsSplit(params: seq<(string, Value)>, key: string, v: Value, n: nat, rule: ShapeRule)
    requires v.List? && |v.items| == n
    ensures forall i :: 0 <= i < n ==>
      var before := DecorationOf(params, n, i, rule, false);
      DecorationOf(params + [(key, v)], n, i, rule, false)
        == if IsTemplate(v.items[i], rule) then before.(shape := v.items[i].fields - rule.stripped)
           else before.(extras := before.extras[key := v.items[i]])
  {
    forall i | 0 <= i < n
      ensures var before := DecorationOf(params, n, i, rule, false);
        DecorationOf(params + [(key, v)], n, i, rule, false)
          == if IsTemplate(v.items[i], rule) then before.(shape := v.items[i].fields - rule.stripped)
             else before.(extras := before.extras[key := v.items[i]])
    {
      DecorationOfLast(params, key, v, n, i, rule, false);
    }
  }

  /**
   * Under the corrected rule, any other value, a sequence of another length and
   * every string included, is set as the packet field `key` of every entity. As
   * written, a string as long as the entity count is split instead
   * (`StringIsSplitAsWritten`).
   */
  lemma OtherValueGoesToEveryEntity(params: seq<(string, Value)>, key: string, v: Value, n: nat, rule: ShapeRule)
    requires !IsTemplate(v, rule) && !(v.List? && |v.items| == n)
    ensures forall i :: 0 <= i < n ==>
      var before := DecorationOf(params, n, i, rule, false);
      DecorationOf(params + [(key, v)], n, i, rule, false) == before.(extras := before.extras[key := v])
  {
    forall i | 0 <= i < n
      ensures var before := DecorationOf(params, n, i, rule, false);
        DecorationOf(params + [(key, v)], n, i, rule, false) == before.(extras := before.extras[key := v])
    {
      DecorationOfLast(params, key, v, n, i, rule, false);
    }
  }

  /** As written, a string whose length equals the entity count is split into characters. */
  lemma TextSplitAsWritten()
    ensures DecorationOf([("name", Text("ab"))], 2, 1, PolylineRule, true).extras["name"] == Text("b")
  {
    assert [("name", Text("ab"))][..0] == [];
  }

  /**
   * As written, any `str` whose length is the entity count is split: entity `i`
   * gets the one-character string of its character `i`.
   */
  lemma StringIsSplitAsWritten(params: seq<(string, Value)>, key: string, s: string, n: nat, rule: ShapeRule)
    requires |s| == n
    ensures forall i :: 0 <= i < n ==>
      var before := DecorationOf(params, n, i, rule, true);
      DecorationOf(params + [(key, Text(s))], n, i, rule, true) == before.(extras := before.extras[key := Text([s[i]])])
  {
    forall i | 0 <= i < n
      ensures var before := DecorationOf(params, n, i, rule, true);
        DecorationOf(params + [(key, Text(s))], n, i, rule, true) == before.(extras := before.extras[key := Text([s[i]])])
    {
      DecorationOfLast(params, key, Text(s), n, i, rule, true);
    }
  }

  /**
   * The two rules differ only on a `str` whose length is the entity count: without
   * such a keyword the source's split and the corrected one agree.
   */
  lemma {:induction false} AsWrittenAgreesWithoutEntityLengthText(params: seq<(string, Value)>, n: nat, i: nat, rule: ShapeRule)
    requires i < n
    requires forall j :: 0 <= j < |params| ==> !(params[j].1.Text? && |params[j].1.s| == n)
    ensures DecorationOf(params, n, i, rule, true) == DecorationOf(params, n, i, rule, false)
  {
    if params != [] {
      AsWrittenAgreesWithoutEntityLengthText(params[..|params| - 1], n, i, rule);
    }
  }

  /** When no keyword is a sequence of `n` items, every entity gets the same decoration. */
  lemma {:induction false} UniformWithoutSplits(params: seq<(string, Value)>, n: nat, i: nat, i': nat, rule: ShapeRule)
    requires i < n && i' < n
    requires forall j :: 0 <= j < |params| ==> !(params[j].1.List? && |params[j].1.items| == n)
    ensures DecorationOf(params, n, i, rule, false) == DecorationOf(params, n, i', rule, false)
  {
    if params != [] {
      UniformWithoutSplits(params[..|params| - 1], n, i, i', rule);
    }
  }

  /** No entity's geometry fields contain a field the computed geometry sets. */
  lemma {:induction false} StrippedFieldsAbsent(params: seq<(string, Value)>, n: nat, i: nat, rule: ShapeRule, asWritten: bool)
    requires i < n
    ensures forall f :: f in rule.stripped ==> f !in DecorationOf(params, n, i, rule, asWritten).shape
  {
    if params != [] {
      StrippedFieldsAbsent(params[..|params| - 1], n, i, rule, asWritten);
    }
  }

  /** The key of every packet field is the name of one of the keywords. */
  lemma {:induction false} ExtrasComeFromKeywords(params: seq<(string, Value)>, n: nat, i: nat, rule: ShapeRule, asWritten: bool)
    requires i < n
    ensures forall k :: k in DecorationOf(params, n, i, rule, asWritten).extras ==>
      exists j :: 0 <= j < |params| && params[j].0 == k
  {
    if params != [] {
      var init := params[..|params| - 1];
      ExtrasComeFromKeywords(init, n, i, rule, asWritten);
      forall k | k in DecorationOf(params, n, i, rule, asWritten).extras
        ensures exists j :: 0 <= j < |params| && params[j].0 == k
      {
        if k == params[|params| - 1].0 {
        } else {
          assert k in DecorationOf(init, n, i, rule, asWritten).extras;
          var j :| 0 <= j < |init| && init[j].0 == k;
          assert params[j].0 == k;
        }
      }
    }
  }

  /** Without a keyword named `id` or after the geometry, no entity's packet collides. */
  lemma NoCollisionWithoutReservedKeywords(params: seq<(string, Value)>, n: nat, i: nat, rule: ShapeRule, asWritten: bool)
    requires i < n && NoReservedKeywords(params, rule)
    ensures !Collides(DecorationOf(params, n, i, rule, asWritten), rule)
  {
    ExtrasComeFromKeywords(params, n, i, rule, asWritten);
  }

  /**
   * A last keyword `id`, or one named after the geometry, whose value for entity `i` is not
   * a template makes that entity's packet collide.
   */
  lemma ReservedKeywordCollides(params: seq<(string, Value)>, key: string, v: Value, n: nat, i: nat, rule: ShapeRule)
    requires i < n && (key == "id" || key == GeometryKeyword(rule.kind))
    requires !IsTemplate(v, rule)
    requires v.List? && |v.items| == n ==> !IsTemplate(v.items[i], rule)
    ensures Collides(DecorationOf(params + [(key, v)], n, i, rule, false), rule)
  {
    DecorationOfLast(params, key, v, n, i, rule, false);
  }

  /** Without a keyword named `id` or after the geometry, no entity collides. */
  lemma NoneCollideWithoutReservedKeywords(params: seq<(string, Value)>, n: nat, rule: ShapeRule)
    requires NoReservedKeywords(params, rule)
    ensures !AnyCollides(EntityDecorations(params, n, rule), n, rule)
  {
    var ds := EntityDecorations(params, n, rule);
    forall i | 0 <= i < n
      ensures !Collides(ds[i], rule)
    {
      NoCollisionWithoutReservedKeywords(params, n, i, rule, false);
    }
  }
}
