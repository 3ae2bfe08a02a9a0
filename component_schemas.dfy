/** The component-schema map the post-passes patch in place, and the
    pieces two of them share: picking the subclasses of a superclass by
    name, building the `oneOf` superclass, and reaching into the first
    inline object of an `allOf`. */
module ComponentSchemas {
  import opened Wrappers
  import opened Strings
  import opened Iter
  import IM = IndexMaps
  import opened OpenApi

  /** The caller's `&mut IndexMap<String, ReferenceOr<Schema>>`. */
  class Components {
    var schemas: Schemas

    constructor(schemas: Schemas)
      ensures this.schemas == schemas
    {
      this.schemas := schemas;
    }
  }

  /** The prefix of every schema generated from the XSD files. */
  const GeneratedPrefix: string := "vcloud_"

  /** A key `vcloud_<t>` whose `t` starts with `start`, ends with `end` and
      is not `exclude`, with its `t`. */
  function SubclassOf(k: string, start: string, end: string, exclude: string): (r: Option<(string, string)>)
    ensures r.Some? <==> StartsWith(k, GeneratedPrefix) && StartsWith(k[|GeneratedPrefix|..], start)
                         && EndsWith(k[|GeneratedPrefix|..], end) && k[|GeneratedPrefix|..] != exclude
    ensures r.Some? ==> r.value.0 == k && k == GeneratedPrefix + r.value.1
  {
    match StripPrefix(k, GeneratedPrefix)
    case None => None
    case Some(t) =>
      if StartsWith(t, start) && EndsWith(t, end) && t != exclude then Some((k, t)) else None
  }

  function SubclassEntry(start: string, end: string, exclude: string): ((string, RefOr<Schema>)) -> Option<(string, string)>
  {
    (e: (string, RefOr<Schema>)) => SubclassOf(e.0, start, end, exclude)
  }

  /** The subclasses of a superclass, in map order: each key of `m` that is
      `vcloud_` followed by a selected name, and only those. */
  function Subclasses(m: Schemas, start: string, end: string, exclude: string): (r: seq<(string, string)>)
    ensures forall i :: 0 <= i < |r| ==> IM.HasKey(m, r[i].0) && r[i].0 == GeneratedPrefix + r[i].1
    ensures forall i :: 0 <= i < |r| ==> StartsWith(r[i].1, start) && EndsWith(r[i].1, end) && r[i].1 != exclude
    ensures forall k :: 0 <= k < |m| && SubclassOf(m[k].0, start, end, exclude).Some? ==> (m[k].0, m[k].0[|GeneratedPrefix|..]) in r
  {
    var r := FilterMap(m, SubclassEntry(start, end, exclude));
    assert forall i :: 0 <= i < |r| ==> IM.HasKey(m, r[i].0) && r[i].0 == GeneratedPrefix + r[i].1 by {
      forall i | 0 <= i < |r|
        ensures IM.HasKey(m, r[i].0) && r[i].0 == GeneratedPrefix + r[i].1
      {
        var j :| 0 <= j < |m| && SubclassEntry(start, end, exclude)(m[j]) == Some(r[i]);
      }
    }
    r
  }

  /** Subclasses keep map order: one more entry appends its pair, when it
      is selected, at the end. */
  lemma SubclassesSnoc(m: Schemas, e: (string, RefOr<Schema>), start: string, end: string, exclude: string)
    ensures Subclasses(m + [e], start, end, exclude) ==
      Subclasses(m, start, end, exclude)
      + (if SubclassOf(e.0, start, end, exclude).Some? then [SubclassOf(e.0, start, end, exclude).value] else [])
  {
    var f := SubclassEntry(start, end, exclude);
    FilterMapSnoc(m + [e], |m|, f);
    assert (m + [e])[..|m| + 1] == m + [e];
    assert (m + [e])[..|m|] == m;
  }

  /** The property every superclass discriminates on. */
  const TypeProperty: string := "_type"

  function SubclassRef(sub: (string, string)): RefOr<Schema>
  {
    Ref(ComponentRef(sub.0))
  }

  function MappingPair(sub: (string, string)): (string, string)
  {
    (sub.1, ComponentRef(sub.0))
  }

  /** The superclass schema: `oneOf` the subclasses' references, with a
      `_type` discriminator from each name to its reference. */
  function Superclass(subs: seq<(string, string)>): (r: Schema)
    ensures r.kind.OneOf? && |r.kind.oneOf| == |subs|
    ensures forall i :: 0 <= i < |subs| ==> r.kind.oneOf[i] == Ref(ComponentRef(subs[i].0))
    ensures r.data.discriminator.Some? && r.data.discriminator.value.propertyName == TypeProperty
    ensures r.data.(discriminator := None) == DefaultData
  {
    Schema(
      DefaultData.(discriminator := Some(Discriminator(TypeProperty, IM.InsertAll([], Map(subs, MappingPair))))),
      OneOf(Map(subs, SubclassRef)))
  }

  /** The discriminator resolves exactly the subclass names, each to the
      reference of its own `vcloud_` schema. */
  lemma SuperclassMapping(subs: seq<(string, string)>, t: string)
    requires forall i :: 0 <= i < |subs| ==> subs[i].0 == GeneratedPrefix + subs[i].1
    ensures var mapping := Superclass(subs).data.discriminator.value.mapping;
      IM.Get(mapping, t) == if exists i :: 0 <= i < |subs| && subs[i].1 == t then Some(ComponentRef(GeneratedPrefix + t)) else None
  {
    var pairs := Map(subs, MappingPair);
    IM.GetInsertAll([], pairs, t);
    LastValueConstant(pairs, t, ComponentRef(GeneratedPrefix + t));
    if exists i :: 0 <= i < |subs| && subs[i].1 == t {
      var i :| 0 <= i < |subs| && subs[i].1 == t;
      assert pairs[i].0 == t;
    }
  }

  /** When every pair with key `k` holds `v`, the last one does. */
  lemma {:induction false} LastValueConstant(es: seq<(string, string)>, k: string, v: string)
    requires forall i :: 0 <= i < |es| && es[i].0 == k ==> es[i].1 == v
    ensures IM.LastValue(es, k).Some? ==> IM.LastValue(es, k) == Some(v)
    decreases |es|
  {
    if es != [] {
      assert forall i :: 0 <= i < |es[1..]| ==> es[1..][i] == es[i + 1];
      LastValueConstant(es[1..], k, v);
    }
  }

  // Inline objects inside an `allOf`.

  predicate IsInlineObject(s: RefOr<Schema>)
  {
    s.Item? && s.item.kind.TypeKind? && s.item.kind.schemaType.ObjectType?
  }

  function PropertiesOf(s: RefOr<Schema>): Schemas
    requires IsInlineObject(s)
  {
    s.item.kind.schemaType.properties
  }

  function RequiredOf(s: RefOr<Schema>): seq<string>
    requires IsInlineObject(s)
  {
    s.item.kind.schemaType.required
  }

  /** The inline object with new properties and required list; its schema
      data and `additionalProperties` are kept. */
  function WithObject(s: RefOr<Schema>, properties: Schemas, required: seq<string>): (r: RefOr<Schema>)
    requires IsInlineObject(s)
    ensures IsInlineObject(r) && PropertiesOf(r) == properties && RequiredOf(r) == required
    ensures r.item.data == s.item.data
    ensures r.item.kind.schemaType.additionalProperties == s.item.kind.schemaType.additionalProperties
    ensures properties == PropertiesOf(s) && required == RequiredOf(s) ==> r == s
  {
    Item(Schema(s.item.data, TypeKind(ObjectType(properties, required, s.item.kind.schemaType.additionalProperties))))
  }

  /** `all_of.iter_mut().find_map(..)` for an inline object. */
  function FirstObjectIndex(all: seq<RefOr<Schema>>): (r: Option<nat>)
    ensures r.Some? ==> r.value < |all| && IsInlineObject(all[r.value])
    ensures r.Some? ==> forall j :: 0 <= j < r.value ==> !IsInlineObject(all[j])
    ensures r.None? <==> forall j :: 0 <= j < |all| ==> !IsInlineObject(all[j])
  {
    if all == [] then None
    else if IsInlineObject(all[0]) then Some(0)
    else
      assert forall j :: 1 <= j < |all| ==> all[j] == all[1..][j - 1];
      match FirstObjectIndex(all[1..])
      case None => None
      case Some(i) => Some(i + 1)
  }

  /** Applies `f` to the properties of the first inline object, if any;
      every other member is left alone. */
  function UpdateFirstObject(all: seq<RefOr<Schema>>, f: Schemas -> Schemas): (r: seq<RefOr<Schema>>)
    ensures |r| == |all|
    ensures FirstObjectIndex(all).None? ==> r == all
    ensures FirstObjectIndex(all).Some? ==> var i := FirstObjectIndex(all).value;
      r[i] == WithObject(all[i], f(PropertiesOf(all[i])), RequiredOf(all[i]))
      && forall j :: 0 <= j < |all| && j != i ==> r[j] == all[j]
  {
    match FirstObjectIndex(all)
    case None => all
    case Some(i) => all[i := WithObject(all[i], f(PropertiesOf(all[i])), RequiredOf(all[i]))]
  }

  /** The update reaches the same member again: the first inline object
      stays first. */
  lemma UpdateFirstObjectAgain(all: seq<RefOr<Schema>>, f: Schemas -> Schemas)
    ensures FirstObjectIndex(UpdateFirstObject(all, f)) == FirstObjectIndex(all)
  {
    var r := UpdateFirstObject(all, f);
    match FirstObjectIndex(all)
    case None =>
    case Some(i) =>
      var k := FirstObjectIndex(r);
      assert IsInlineObject(r[i]);
      assert k.Some? && k.value <= i;
  }

  /** Inserting the value a key already has changes nothing. */
  lemma InsertPresent(m: Schemas, k: string, v: RefOr<Schema>)
    requires IM.Get(m, k) == Some(v)
    ensures IM.Insert(m, k, v) == m
  {
    var i := IM.IndexOf(m, k).value;
    assert m[i] == (k, v);
  }

  /** `values_mut()` with the same rewrite on every value. */
  function MapValues(m: Schemas, f: RefOr<Schema> -> RefOr<Schema>): (r: Schemas)
    ensures |r| == |m|
    ensures forall i :: 0 <= i < |m| ==> r[i] == (m[i].0, f(m[i].1))
  {
    seq(|m|, i requires 0 <= i < |m| => (m[i].0, f(m[i].1)))
  }

  lemma GetMapValues(m: Schemas, f: RefOr<Schema> -> RefOr<Schema>, k: string)
    ensures IM.Get(MapValues(m, f), k) == MapOption(IM.Get(m, k), f)
  {
    var r := MapValues(m, f);
    match IM.IndexOf(m, k)
    case None =>
    case Some(i) =>
      assert IM.IndexOf(r, k) == Some(i) by {
        assert r[i].0 == k;
      }
  }
}
