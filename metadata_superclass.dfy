/** The `MetadataTypedValue` superclass: a `oneOf` over the generated
    metadata value types, the `typedValue` properties retyped to it, and
    the `_type` tag on the generated base type. */
module MetadataSuperclass {
  import opened Wrappers
  import opened Strings
  import opened Iter
  import IM = IndexMaps
  import opened OpenApi
  import opened ComponentSchemas

  const SuperclassKey: string := "MetadataTypedValue"
  const BaseKey: string := "vcloud_MetadataTypedValue"
  const TypedValue: string := "typedValue"

  function MetadataTypes(m: Schemas): seq<(string, string)>
  {
    Subclasses(m, "Metadata", "Value", "MetadataTypedValue")
  }

  /** The kind `typedValue` is given: `allOf` the superclass alone. */
  function SuperclassKind(): SchemaKind
  {
    AllOf([Ref(ComponentRef(SuperclassKey))])
  }

  /** An inline `typedValue` property takes the superclass kind and keeps
      its schema data; a reference, or no such property, is left as is. */
  function RetypeTypedValue(props: Schemas): (r: Schemas)
    ensures forall k :: k != TypedValue ==> IM.Get(r, k) == IM.Get(props, k)
    ensures IM.Keys(r) == IM.Keys(props)
    ensures HasInlineTypedValue(props) ==>
      IM.Get(r, TypedValue) == Some(Item(Schema(IM.Get(props, TypedValue).value.item.data, SuperclassKind())))
    ensures !HasInlineTypedValue(props) ==> r == props
  {
    if !HasInlineTypedValue(props) then props
    else
      var tv := IM.Get(props, TypedValue).value.item;
      var r := IM.Insert(props, TypedValue, Item(tv.(kind := SuperclassKind())));
      IM.GetInsertSame(props, TypedValue, Item(tv.(kind := SuperclassKind())));
      assert forall k :: k != TypedValue ==> IM.Get(r, k) == IM.Get(props, k) by {
        forall k | k != TypedValue
          ensures IM.Get(r, k) == IM.Get(props, k)
        {
          IM.GetInsertOther(props, TypedValue, Item(tv.(kind := SuperclassKind())), k);
        }
      }
      IM.KeysInsert(props, TypedValue, Item(tv.(kind := SuperclassKind())));
      r
  }

  predicate HasInlineTypedValue(props: Schemas)
  {
    IM.Get(props, TypedValue).Some? && IM.Get(props, TypedValue).value.Item?
  }

  /** The body of the `values_mut` loop for one schema: in an `allOf`, the
      first inline object member has its `typedValue` retyped. */
  function RewriteTypedValue(s: RefOr<Schema>): (r: RefOr<Schema>)
    ensures !(s.Item? && s.item.kind.AllOf?) ==> r == s
    ensures s.Item? && s.item.kind.AllOf? ==> r.Item? && r.item.data == s.item.data && r.item.kind.AllOf?
    ensures s.Item? && s.item.kind.AllOf? ==>
      r == Item(Schema(s.item.data, AllOf(UpdateFirstObject(s.item.kind.allOf, RetypeTypedValue))))
  {
    match s
    case Item(Schema(d, AllOf(all))) => Item(Schema(d, AllOf(UpdateFirstObject(all, RetypeTypedValue))))
    case _ => s
  }

  /** Retyping is idempotent. */
  lemma RetypeIdempotent(props: Schemas)
    ensures RetypeTypedValue(RetypeTypedValue(props)) == RetypeTypedValue(props)
  {
    if HasInlineTypedValue(props) {
      var tv := IM.Get(props, TypedValue).value.item;
      var once := RetypeTypedValue(props);
      var tv' := Schema(tv.data, SuperclassKind());
      assert IM.Get(once, TypedValue) == Some(Item(tv'));
      assert tv'.(kind := SuperclassKind()) == tv';
      InsertPresent(once, TypedValue, Item(tv'));
    }
  }

  /** Running the rewrite again changes nothing. */
  lemma RewriteIdempotent(s: RefOr<Schema>)
    ensures RewriteTypedValue(RewriteTypedValue(s)) == RewriteTypedValue(s)
  {
    if s.Item? && s.item.kind.AllOf? {
      var all := s.item.kind.allOf;
      var once := UpdateFirstObject(all, RetypeTypedValue);
      UpdateFirstObjectAgain(all, RetypeTypedValue);
      if FirstObjectIndex(all).Some? {
        var i := FirstObjectIndex(all).value;
        RetypeIdempotent(PropertiesOf(all[i]));
        assert UpdateFirstObject(once, RetypeTypedValue)[i] == once[i];
        assert UpdateFirstObject(once, RetypeTypedValue) == once;
      }
    }
  }

  /** Adds the `_type` enumeration if absent and lists `_type` as required
      if it is not already. */
  function TagBase(s: RefOr<Schema>, types: seq<(string, string)>): (r: RefOr<Schema>)
    requires IsInlineObject(s)
    ensures IsInlineObject(r) && r.item.data == s.item.data
  {
    var required := if TypeProperty in RequiredOf(s) then RequiredOf(s) else RequiredOf(s) + [TypeProperty];
    WithObject(s, IM.InsertIfAbsent(PropertiesOf(s), TypeProperty, Item(TypeEnumeration(types))), required)
  }

  function TypeName(sub: (string, string)): Option<string> { Some(sub.1) }

  /** The `_type` property: a string enumeration of the type names. */
  function TypeEnumeration(types: seq<(string, string)>): (r: Schema)
    ensures r.data == DefaultData && r.kind.TypeKind? && r.kind.schemaType.StringType?
    ensures |r.kind.schemaType.enumeration| == |types|
    ensures forall i :: 0 <= i < |types| ==> r.kind.schemaType.enumeration[i] == Some(types[i].1)
  {
    Bare(StringType(NoStringFormat, None, Map(types, TypeName)))
  }

  function TagBaseIn(m: Schemas, types: seq<(string, string)>): Schemas
  {
    match IM.Get(m, BaseKey)
    case Some(s) => if IsInlineObject(s) then IM.Insert(m, BaseKey, TagBase(s, types)) else m
    case None => m
  }

  function MetadataSuperclassSpec(m: Schemas): Schemas
  {
    var types := MetadataTypes(m);
    var m1 := IM.Insert(m, SuperclassKey, Item(Superclass(types)));
    TagBaseIn(MapValues(m1, RewriteTypedValue), types)
  }

  /** `metadata_superclass` on the caller's map. */
  method AddMetadataSuperclass(c: Components)
    modifies c
    ensures c.schemas == MetadataSuperclassSpec(old(c.schemas))
  {
    var types := MetadataTypes(c.schemas);
    c.schemas := IM.Insert(c.schemas, SuperclassKey, Item(Superclass(types)));
    RewriteAll(c);
    ghost var rewritten := c.schemas;
    var base := IM.Get(c.schemas, BaseKey);
    if base.Some? && IsInlineObject(base.value) {
      c.schemas := IM.Insert(c.schemas, BaseKey, TagBase(base.value, types));
    }
    assert c.schemas == TagBaseIn(rewritten, types);
  }

  /** The loop over every schema of the map, rewriting `typedValue`. */
  method RewriteAll(c: Components)
    modifies c
    ensures c.schemas == MapValues(old(c.schemas), RewriteTypedValue)
  {
    ghost var before := c.schemas;
    var i := 0;
    while i < |c.schemas|
      invariant |c.schemas| == |before| && 0 <= i <= |before|
      invariant forall j :: 0 <= j < i ==> c.schemas[j] == (before[j].0, RewriteTypedValue(before[j].1))
      invariant forall j :: i <= j < |before| ==> c.schemas[j] == before[j]
    {
      var (key, schema) := c.schemas[i];
      c.schemas := c.schemas[i := (key, RewriteTypedValue(schema))];
      i := i + 1;
    }
    assert c.schemas == MapValues(before, RewriteTypedValue);
  }

  /** `_type` ends up required exactly once when it was listed at most
      once, and is appended only when missing. */
  lemma TypeRequiredOnce(s: RefOr<Schema>, types: seq<(string, string)>)
    requires IsInlineObject(s) && multiset(RequiredOf(s))[TypeProperty] <= 1
    ensures multiset(RequiredOf(TagBase(s, types)))[TypeProperty] == 1
    ensures TypeProperty in RequiredOf(s) ==> RequiredOf(TagBase(s, types)) == RequiredOf(s)
  {
    if TypeProperty !in RequiredOf(s) {
      assert multiset(RequiredOf(s) + [TypeProperty]) == multiset(RequiredOf(s)) + multiset{TypeProperty};
    }
  }

  /** The tag keeps an existing `_type` property and otherwise adds the
      enumeration of the type names; other properties are untouched. */
  lemma TypePropertyIfAbsent(s: RefOr<Schema>, types: seq<(string, string)>, k: string)
    requires IsInlineObject(s)
    ensures IM.Get(PropertiesOf(TagBase(s, types)), k)
      == if k == TypeProperty then IM.Get(PropertiesOf(s), k).Or(Some(Item(TypeEnumeration(types)))) else IM.Get(PropertiesOf(s), k)
  {
    IM.GetInsertIfAbsent(PropertiesOf(s), TypeProperty, Item(TypeEnumeration(types)), k);
  }

  /** Afterwards the superclass sits under `MetadataTypedValue`. */
  lemma SuperclassInserted(m: Schemas)
    ensures IM.Get(MetadataSuperclassSpec(m), SuperclassKey) == Some(Item(Superclass(MetadataTypes(m))))
  {
    var types := MetadataTypes(m);
    var m1 := IM.Insert(m, SuperclassKey, Item(Superclass(types)));
    var m2 := MapValues(m1, RewriteTypedValue);
    IM.GetInsertSame(m, SuperclassKey, Item(Superclass(types)));
    GetMapValues(m1, RewriteTypedValue, SuperclassKey);
    TagBaseOther(m2, types, SuperclassKey);
  }

  lemma TagBaseOther(m: Schemas, types: seq<(string, string)>, k: string)
    requires k != BaseKey
    ensures IM.Get(TagBaseIn(m, types), k) == IM.Get(m, k)
  {
    var b := IM.Get(m, BaseKey);
    if b.Some? && IsInlineObject(b.value) {
      IM.GetInsertOther(m, BaseKey, TagBase(b.value, types), k);
    }
  }

  /** Every other entry holds its old value with `typedValue` retyped. */
  lemma OtherEntriesRewritten(m: Schemas, k: string)
    requires k != SuperclassKey && k != BaseKey
    ensures IM.Get(MetadataSuperclassSpec(m), k) == MapOption(IM.Get(m, k), RewriteTypedValue)
  {
    var types := MetadataTypes(m);
    var m1 := IM.Insert(m, SuperclassKey, Item(Superclass(types)));
    IM.GetInsertOther(m, SuperclassKey, Item(Superclass(types)), k);
    GetMapValues(m1, RewriteTypedValue, k);
    TagBaseOther(MapValues(m1, RewriteTypedValue), types, k);
  }

  /** The base type is tagged when it is an inline object and otherwise
      only rewritten like the rest. */
  lemma BaseTagged(m: Schemas)
    ensures var r := IM.Get(MetadataSuperclassSpec(m), BaseKey);
      match IM.Get(m, BaseKey)
      case Some(s) => r == Some(if IsInlineObject(s) then TagBase(s, MetadataTypes(m)) else RewriteTypedValue(s))
      case None => r.None?
  {
    var types := MetadataTypes(m);
    var m1 := IM.Insert(m, SuperclassKey, Item(Superclass(types)));
    var m2 := MapValues(m1, RewriteTypedValue);
    IM.GetInsertOther(m, SuperclassKey, Item(Superclass(types)), BaseKey);
    GetMapValues(m1, RewriteTypedValue, BaseKey);
    var b := IM.Get(m2, BaseKey);
    if b.Some? && IsInlineObject(b.value) {
      IM.GetInsertSame(m2, BaseKey, TagBase(b.value, types));
    }
  }
}
