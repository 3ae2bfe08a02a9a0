/** The `QueryResultRecordType` superclass of the REST API: a `oneOf`
    over the generated query record types, the `_type` tag on the
    generated base type, and the `record` and `reference` lists of the
    generated container type. */
module QuerySuperclass {
  import opened Wrappers
  import opened Strings
  import opened Iter
  import IM = IndexMaps
  import opened OpenApi
  import opened ComponentSchemas

  const SuperclassKey: string := "QueryResultRecordType"
  const BaseKey: string := "vcloud_QueryResultRecordType"
  const ContainerKey: string := "vcloud_ContainerType"

  function RecordTypes(m: Schemas): seq<(string, string)>
  {
    Subclasses(m, "QueryResult", "RecordType", "QueryResultRecordType")
  }

  function TypeName(sub: (string, string)): Option<string> { Some(sub.1) }

  /** The `_type` property: a string enumeration of the record type
      names. */
  function TypeEnumeration(types: seq<(string, string)>): (r: Schema)
    ensures r.data == DefaultData && r.kind.TypeKind? && r.kind.schemaType.StringType?
    ensures |r.kind.schemaType.enumeration| == |types|
    ensures forall i :: 0 <= i < |types| ==> r.kind.schemaType.enumeration[i] == Some(types[i].1)
  {
    Bare(StringType(NoStringFormat, None, Map(types, TypeName)))
  }

  /** An array of references to one component schema. */
  function ArrayOf(name: string): Schema
  {
    Bare(ArrayType(Ref(ComponentRef(name))))
  }

  /** `record` (the superclass) and `reference` lists, each only if the
      property is absent. */
  function AddContainerLists(props: Schemas): (r: Schemas)
    ensures IM.Get(r, "record") == IM.Get(props, "record").Or(Some(Item(ArrayOf(SuperclassKey))))
    ensures IM.Get(r, "reference") == IM.Get(props, "reference").Or(Some(Item(ArrayOf("vcloud_ReferenceType"))))
    ensures forall k :: k != "record" && k != "reference" ==> IM.Get(r, k) == IM.Get(props, k)
  {
    var withRecord := IM.InsertIfAbsent(props, "record", Item(ArrayOf(SuperclassKey)));
    var r := IM.InsertIfAbsent(withRecord, "reference", Item(ArrayOf("vcloud_ReferenceType")));
    assert forall k :: IM.Get(r, k) == (if k == "reference" && !IM.HasKey(withRecord, k) then Some(Item(ArrayOf("vcloud_ReferenceType"))) else IM.Get(withRecord, k)) by {
      forall k { IM.GetInsertIfAbsent(withRecord, "reference", Item(ArrayOf("vcloud_ReferenceType")), k); }
    }
    assert forall k :: IM.Get(withRecord, k) == (if k == "record" && !IM.HasKey(props, k) then Some(Item(ArrayOf(SuperclassKey))) else IM.Get(props, k)) by {
      forall k { IM.GetInsertIfAbsent(props, "record", Item(ArrayOf(SuperclassKey)), k); }
    }
    r
  }

  function TagBaseIn(m: Schemas, types: seq<(string, string)>): Schemas
  {
    match IM.Get(m, BaseKey)
    case Some(s) =>
      if IsInlineObject(s) then
        IM.Insert(m, BaseKey, WithObject(s, IM.InsertIfAbsent(PropertiesOf(s), TypeProperty, Item(TypeEnumeration(types))), RequiredOf(s)))
      else m
    case None => m
  }

  function ExtendContainer(m: Schemas): Schemas
  {
    match IM.Get(m, ContainerKey)
    case Some(s) =>
      if s.Item? && s.item.kind.AllOf? then
        IM.Insert(m, ContainerKey, Item(Schema(s.item.data, AllOf(UpdateFirstObject(s.item.kind.allOf, AddContainerLists)))))
      else m
    case None => m
  }

  function QuerySuperclassSpec(m: Schemas): Schemas
  {
    var types := RecordTypes(m);
    ExtendContainer(TagBaseIn(IM.Insert(m, SuperclassKey, Item(Superclass(types))), types))
  }

  /** `query_superclass` on the caller's map. */
  method AddQuerySuperclass(c: Components)
    modifies c
    ensures c.schemas == QuerySuperclassSpec(old(c.schemas))
  {
    var types := RecordTypes(c.schemas);
    c.schemas := IM.Insert(c.schemas, SuperclassKey, Item(Superclass(types)));
    TagBase(c, types);
    AddListsToContainer(c);
  }

  /** The `_type` property of the base record type. */
  method TagBase(c: Components, types: seq<(string, string)>)
    modifies c
    ensures c.schemas == TagBaseIn(old(c.schemas), types)
  {
    var base := IM.Get(c.schemas, BaseKey);
    if base.Some? && IsInlineObject(base.value) {
      var s := base.value;
      var props := IM.InsertIfAbsent(PropertiesOf(s), TypeProperty, Item(TypeEnumeration(types)));
      c.schemas := IM.Insert(c.schemas, BaseKey, WithObject(s, props, RequiredOf(s)));
    }
  }

  /** The `record` and `reference` lists of the container type. */
  method AddListsToContainer(c: Components)
    modifies c
    ensures c.schemas == ExtendContainer(old(c.schemas))
  {
    var container := IM.Get(c.schemas, ContainerKey);
    if container.Some? && container.value.Item? && container.value.item.kind.AllOf? {
      var s := container.value.item;
      c.schemas := IM.Insert(c.schemas, ContainerKey, Item(Schema(s.data, AllOf(UpdateFirstObject(s.kind.allOf, AddContainerLists)))));
    }
  }

  lemma TagBaseOther(m: Schemas, types: seq<(string, string)>, k: string)
    requires k != BaseKey
    ensures IM.Get(TagBaseIn(m, types), k) == IM.Get(m, k)
  {
    var b := IM.Get(m, BaseKey);
    if b.Some? && IsInlineObject(b.value) {
      var s := b.value;
      IM.GetInsertOther(m, BaseKey, WithObject(s, IM.InsertIfAbsent(PropertiesOf(s), TypeProperty, Item(TypeEnumeration(types))), RequiredOf(s)), k);
    }
  }

  lemma ExtendContainerOther(m: Schemas, k: string)
    requires k != ContainerKey
    ensures IM.Get(ExtendContainer(m), k) == IM.Get(m, k)
  {
    var b := IM.Get(m, ContainerKey);
    if b.Some? && b.value.Item? && b.value.item.kind.AllOf? {
      var s := b.value.item;
      IM.GetInsertOther(m, ContainerKey, Item(Schema(s.data, AllOf(UpdateFirstObject(s.kind.allOf, AddContainerLists)))), k);
    }
  }

  /** Afterwards the superclass sits under `QueryResultRecordType`, and
      every key other than the three touched keeps its value. */
  lemma SuperclassInserted(m: Schemas, k: string)
    ensures IM.Get(QuerySuperclassSpec(m), SuperclassKey) == Some(Item(Superclass(RecordTypes(m))))
    ensures k != SuperclassKey && k != BaseKey && k != ContainerKey ==> IM.Get(QuerySuperclassSpec(m), k) == IM.Get(m, k)
  {
    var types := RecordTypes(m);
    var m1 := IM.Insert(m, SuperclassKey, Item(Superclass(types)));
    IM.GetInsertSame(m, SuperclassKey, Item(Superclass(types)));
    TagBaseOther(m1, types, SuperclassKey);
    ExtendContainerOther(TagBaseIn(m1, types), SuperclassKey);
    if k != SuperclassKey && k != BaseKey && k != ContainerKey {
      IM.GetInsertOther(m, SuperclassKey, Item(Superclass(types)), k);
      TagBaseOther(m1, types, k);
      ExtendContainerOther(TagBaseIn(m1, types), k);
    }
  }

  /** An inline-object base type gains the `_type` enumeration unless it
      already has that property, and keeps everything else; a base type of
      another shape, or none, is left as it was. */
  lemma BaseTagged(m: Schemas, k: string)
    ensures var r := IM.Get(QuerySuperclassSpec(m), BaseKey);
      match IM.Get(m, BaseKey)
      case None => r.None?
      case Some(s) =>
        if IsInlineObject(s) then
          r.Some? && IsInlineObject(r.value) && r.value.item.data == s.item.data && RequiredOf(r.value) == RequiredOf(s)
          && IM.Get(PropertiesOf(r.value), k)
             == if k == TypeProperty then IM.Get(PropertiesOf(s), k).Or(Some(Item(TypeEnumeration(RecordTypes(m))))) else IM.Get(PropertiesOf(s), k)
        else r == Some(s)
  {
    var types := RecordTypes(m);
    var m1 := IM.Insert(m, SuperclassKey, Item(Superclass(types)));
    IM.GetInsertOther(m, SuperclassKey, Item(Superclass(types)), BaseKey);
    ExtendContainerOther(TagBaseIn(m1, types), BaseKey);
    var b := IM.Get(m1, BaseKey);
    if b.Some? && IsInlineObject(b.value) {
      var s := b.value;
      var props := IM.InsertIfAbsent(PropertiesOf(s), TypeProperty, Item(TypeEnumeration(types)));
      IM.GetInsertSame(m1, BaseKey, WithObject(s, props, RequiredOf(s)));
      IM.GetInsertIfAbsent(PropertiesOf(s), TypeProperty, Item(TypeEnumeration(types)), k);
    }
  }

  /** In an `allOf` container type the first inline object member gains
      the two lists; any other container shape is left as it was. */
  lemma ContainerExtended(m: Schemas)
    ensures var r := IM.Get(QuerySuperclassSpec(m), ContainerKey);
      match IM.Get(m, ContainerKey)
      case None => r.None?
      case Some(s) =>
        if s.Item? && s.item.kind.AllOf? then
          r == Some(Item(Schema(s.item.data, AllOf(UpdateFirstObject(s.item.kind.allOf, AddContainerLists)))))
        else r == Some(s)
  {
    var types := RecordTypes(m);
    var m1 := IM.Insert(m, SuperclassKey, Item(Superclass(types)));
    var m2 := TagBaseIn(m1, types);
    IM.GetInsertOther(m, SuperclassKey, Item(Superclass(types)), ContainerKey);
    TagBaseOther(m1, types, ContainerKey);
    var b := IM.Get(m2, ContainerKey);
    if b.Some? && b.value.Item? && b.value.item.kind.AllOf? {
      var s := b.value.item;
      IM.GetInsertSame(m2, ContainerKey, Item(Schema(s.data, AllOf(UpdateFirstObject(s.kind.allOf, AddContainerLists)))));
    }
  }
}
