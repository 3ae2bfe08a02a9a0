/** Complex types, model groups and attribute groups read as objects:
    named fields, parent types and a merged annotation (XML Schema Part 1,
    sections 3.4, 3.6 and 3.7). */
module ObjectType {
  import opened Wrappers
  import opened Xml
  import opened Iter
  import opened IndexMaps
  import opened OpenApi
  import opened Annotation
  import opened TypeErrors
  import SE = SequenceElement
  import F = Field
  import ST = SimpleType
  import G = GroupRef

  datatype ObjectType = ObjectType(
    annotation: Option<Annotation>,
    name: string,
    fields: seq<F.Field>,
    parents: seq<RefOr<ST.SimpleType>>)

  predicate IsObjectNode(n: XmlNode)
  {
    IsXsd(n, "complexType") || IsXsd(n, "group") || IsXsd(n, "attributeGroup")
  }

  predicate IsContent(n: XmlNode)
  {
    IsXsd(n, "complexContent") || IsXsd(n, "simpleContent")
  }

  /** The children that read as annotations. */
  function Annotations(cs: seq<XmlNode>, md: string -> string): seq<Annotation>
  {
    FilterMap(cs, (c: XmlNode) => FromNode(c, md).ToOption())
  }

  /** The children that read as fields. */
  function Fields(cs: seq<XmlNode>, ns: string, md: string -> string): seq<F.Field>
  {
    FilterMap(cs, (c: XmlNode) => F.Parse(c, ns, md).ToOption())
  }

  /** The parents named by the group references among the children. */
  function GroupParents(cs: seq<XmlNode>, ns: string): seq<RefOr<ST.SimpleType>>
  {
    Map(FilterMap(cs, (c: XmlNode) => G.Parse(c).ToOption()), (g: G.GroupRef) => ST.StrToSimpleTypeOrReference(ns, g.reference))
  }

  // What a `sequence` inside an `extension` contributes.

  function ExtSequenceFields(c: XmlNode, ns: string, md: string -> string): seq<F.Field>
  {
    if IsXsd(c, "sequence") then Fields(c.children, ns, md) else []
  }

  function ExtSequenceParents(c: XmlNode, ns: string): seq<RefOr<ST.SimpleType>>
  {
    if IsXsd(c, "sequence") then GroupParents(c.children, ns) else []
  }

  // What an `extension` inside a `complexContent` or `simpleContent` contributes.

  function ExtensionFields(e: XmlNode, ns: string, md: string -> string): seq<F.Field>
  {
    if IsXsd(e, "extension") then
      Fields(e.children, ns, md) + FlatMap(e.children, (c: XmlNode) => ExtSequenceFields(c, ns, md))
    else []
  }

  /** The `base` first (when present), then the group references, then
      those of the extension's sequences. */
  function ExtensionParents(e: XmlNode, ns: string): seq<RefOr<ST.SimpleType>>
  {
    if IsXsd(e, "extension") then
      (if "base" in e.attributes then [ST.StrToSimpleTypeOrReference(ns, e.attributes["base"])] else [])
      + GroupParents(e.children, ns)
      + FlatMap(e.children, (c: XmlNode) => ExtSequenceParents(c, ns))
    else []
  }

  // What a direct child contributes.

  function ChildFields(c: XmlNode, ns: string, md: string -> string): seq<F.Field>
  {
    if IsXsd(c, "sequence") then Fields(c.children, ns, md)
    else if IsContent(c) then FlatMap(c.children, (e: XmlNode) => ExtensionFields(e, ns, md))
    else []
  }

  function ChildParents(c: XmlNode, ns: string): seq<RefOr<ST.SimpleType>>
  {
    if IsXsd(c, "sequence") then GroupParents(c.children, ns)
    else if IsContent(c) then FlatMap(c.children, (e: XmlNode) => ExtensionParents(e, ns))
    else []
  }

  function ChildAnnotations(c: XmlNode, md: string -> string): seq<Annotation>
  {
    if IsContent(c) then Annotations(c.children, md) else []
  }

  function AllFields(cs: seq<XmlNode>, ns: string, md: string -> string): seq<F.Field>
  {
    FlatMap(cs, (c: XmlNode) => ChildFields(c, ns, md))
  }

  function AllParents(cs: seq<XmlNode>, ns: string): seq<RefOr<ST.SimpleType>>
  {
    FlatMap(cs, (c: XmlNode) => ChildParents(c, ns))
  }

  function AllAnnotations(cs: seq<XmlNode>, md: string -> string): seq<Annotation>
  {
    FlatMap(cs, (c: XmlNode) => ChildAnnotations(c, md))
  }

  /** The annotation of a `value` field: required, nothing else. */
  const ValueAnnotation: Annotation := Annotation(None, Some(true), false, None, false, None)

  /** A built-in parent becomes a required `value` field of its type. */
  function ValueField(p: RefOr<ST.SimpleType>): (r: Option<F.Field>)
    ensures r.Some? <==> p.Item?
    ensures r.Some? ==> r.value == F.Field(Some(ValueAnnotation), "value", p, SE.One)
  {
    if p.Item? then Some(F.Field(Some(ValueAnnotation), "value", p, SE.One)) else None
  }

  /** `parents.retain(..)`: only references stay. */
  function References(ps: seq<RefOr<ST.SimpleType>>): (r: seq<RefOr<ST.SimpleType>>)
    ensures forall i :: 0 <= i < |r| ==> r[i].Ref?
    ensures forall i :: 0 <= i < |ps| && ps[i].Ref? ==> ps[i] in r
  {
    Filter(ps, (p: RefOr<ST.SimpleType>) => p.Ref?)
  }

  /** The left fold of `merge` over the annotations, `None` when there
      are none. */
  function FoldAnnotations(anns: seq<Annotation>): (r: Option<Annotation>)
    ensures r.None? <==> anns == []
  {
    if anns == [] then None
    else
      match FoldAnnotations(anns[..|anns| - 1])
      case None => Some(anns[|anns| - 1])
      case Some(acc) => Some(Merge(acc, anns[|anns| - 1]))
  }

  /** The fold of `a + b` merges the fold of `a` in front of that of `b`. */
  lemma {:induction false} FoldAnnotationsAppend(a: seq<Annotation>, b: seq<Annotation>)
    requires a != [] && b != []
    ensures FoldAnnotations(a + b) == Some(Merge(FoldAnnotations(a).value, FoldAnnotations(b).value))
    decreases |b|
  {
    var ab := a + b;
    var b' := b[..|b| - 1];
    var x := b[|b| - 1];
    assert ab[..|ab| - 1] == a + b';
    assert ab[|ab| - 1] == x;
    if b' == [] {
      assert a + b' == a;
    } else {
      FoldAnnotationsAppend(a, b');
      MergeAssociative(FoldAnnotations(a).value, FoldAnnotations(b').value, x);
    }
  }

  /** The merged annotation is deprecated (or removed) iff one of them
      is, and its description is the first description given. */
  lemma {:induction false} FoldAnnotationsFlags(anns: seq<Annotation>)
    requires anns != []
    ensures FoldAnnotations(anns).value.deprecated <==> exists i :: 0 <= i < |anns| && anns[i].deprecated
    ensures FoldAnnotations(anns).value.removed <==> exists i :: 0 <= i < |anns| && anns[i].removed
    ensures FoldAnnotations(anns).value.description == FindMap(anns, (a: Annotation) => a.description)
  {
    var init := anns[..|anns| - 1];
    var x := anns[|anns| - 1];
    assert forall i :: 0 <= i < |init| ==> init[i] == anns[i];
    if init != [] {
      FoldAnnotationsFlags(init);
      FindMapSnoc(anns, (a: Annotation) => a.description);
    }
  }

  /** What `ObjectType::try_from` yields. */
  function ParseSpec(n: XmlNode, ns: string, md: string -> string): (r: Result<ObjectType, TypeParseError>)
    ensures r == Err(NotTypeNode) <==> !IsObjectNode(n)
    ensures r == Err(MissingName) <==> IsObjectNode(n) && "name" !in n.attributes
    ensures r.Ok? ==> r.value.name == ns + "_" + n.attributes["name"]
    ensures r.Ok? ==> forall i :: 0 <= i < |r.value.parents| ==> r.value.parents[i].Ref?
  {
    if !IsObjectNode(n) then Err(NotTypeNode)
    else if "name" !in n.attributes then Err(MissingName)
    else
      var cs := n.children;
      var parents := AllParents(cs, ns);
      Ok(ObjectType.ObjectType(
        FoldAnnotations(Annotations(cs, md) + AllAnnotations(cs, md)),
        ns + "_" + n.attributes["name"],
        Fields(cs, ns, md) + AllFields(cs, ns, md) + FilterMap(parents, ValueField),
        References(parents)))
  }

  /** The loop over a sequence inside an extension. */
  method CollectExtensionSequences(cs: seq<XmlNode>, ns: string, md: string -> string)
    returns (fields: seq<F.Field>, parents: seq<RefOr<ST.SimpleType>>)
    ensures fields == FlatMap(cs, (c: XmlNode) => ExtSequenceFields(c, ns, md))
    ensures parents == FlatMap(cs, (c: XmlNode) => ExtSequenceParents(c, ns))
  {
    fields := [];
    parents := [];
    var k := 0;
    while k < |cs|
      invariant 0 <= k <= |cs|
      invariant fields == FlatMap(cs[..k], (c: XmlNode) => ExtSequenceFields(c, ns, md))
      invariant parents == FlatMap(cs[..k], (c: XmlNode) => ExtSequenceParents(c, ns))
    {
      assert cs[..k + 1][..k] == cs[..k];
      var c := cs[k];
      if IsXsd(c, "sequence") {
        fields := fields + Fields(c.children, ns, md);
        parents := parents + GroupParents(c.children, ns);
      }
      k := k + 1;
    }
    assert cs[..k] == cs;
  }

  /** What one extension adds: its base, then its own fields and group
      references, then those of its sequences. */
  method ExtensionContribution(e: XmlNode, ns: string, md: string -> string)
    returns (fields: seq<F.Field>, parents: seq<RefOr<ST.SimpleType>>)
    ensures fields == ExtensionFields(e, ns, md)
    ensures parents == ExtensionParents(e, ns)
  {
    fields := [];
    parents := [];
    if IsXsd(e, "extension") {
      var base := if "base" in e.attributes then [ST.StrToSimpleTypeOrReference(ns, e.attributes["base"])] else [];
      var moreFields, moreParents := CollectExtensionSequences(e.children, ns, md);
      fields := Fields(e.children, ns, md) + moreFields;
      parents := base + GroupParents(e.children, ns) + moreParents;
    }
  }

  /** The loop over the extensions of a `complexContent` or `simpleContent`. */
  method CollectExtensions(cs: seq<XmlNode>, ns: string, md: string -> string)
    returns (fields: seq<F.Field>, parents: seq<RefOr<ST.SimpleType>>)
    ensures fields == FlatMap(cs, (e: XmlNode) => ExtensionFields(e, ns, md))
    ensures parents == FlatMap(cs, (e: XmlNode) => ExtensionParents(e, ns))
  {
    fields := [];
    parents := [];
    var j := 0;
    while j < |cs|
      invariant 0 <= j <= |cs|
      invariant fields == FlatMap(cs[..j], (e: XmlNode) => ExtensionFields(e, ns, md))
      invariant parents == FlatMap(cs[..j], (e: XmlNode) => ExtensionParents(e, ns))
    {
      FlatMapSnoc(cs, j, (e: XmlNode) => ExtensionFields(e, ns, md));
      FlatMapSnoc(cs, j, (e: XmlNode) => ExtensionParents(e, ns));
      var moreFields, moreParents := ExtensionContribution(cs[j], ns, md);
      fields := fields + moreFields;
      parents := parents + moreParents;
      j := j + 1;
    }
    assert cs[..j] == cs;
  }

  /** The loop over the children of the type: each `sequence` adds its
      fields and group references, each `complexContent` or
      `simpleContent` its annotations and the extensions' contributions. */
  method CollectChildren(cs: seq<XmlNode>, ns: string, md: string -> string)
    returns (annotations: seq<Annotation>, fields: seq<F.Field>, parents: seq<RefOr<ST.SimpleType>>)
    ensures annotations == AllAnnotations(cs, md)
    ensures fields == AllFields(cs, ns, md)
    ensures parents == AllParents(cs, ns)
  {
    annotations := [];
    fields := [];
    parents := [];
    var i := 0;
    while i < |cs|
      invariant 0 <= i <= |cs|
      invariant annotations == AllAnnotations(cs[..i], md)
      invariant fields == AllFields(cs[..i], ns, md)
      invariant parents == AllParents(cs[..i], ns)
    {
      FlatMapSnoc(cs, i, (c: XmlNode) => ChildFields(c, ns, md));
      FlatMapSnoc(cs, i, (c: XmlNode) => ChildParents(c, ns));
      FlatMapSnoc(cs, i, (c: XmlNode) => ChildAnnotations(c, md));
      var moreAnnotations, moreFields, moreParents := ChildContribution(cs[i], ns, md);
      annotations := annotations + moreAnnotations;
      fields := fields + moreFields;
      parents := parents + moreParents;
      i := i + 1;
    }
    assert cs[..i] == cs;
  }

  /** What one child adds: a `sequence` its fields and group references,
      a `complexContent` or `simpleContent` its annotations and what its
      extensions add; any other child nothing. */
  method ChildContribution(c: XmlNode, ns: string, md: string -> string)
    returns (annotations: seq<Annotation>, fields: seq<F.Field>, parents: seq<RefOr<ST.SimpleType>>)
    ensures annotations == ChildAnnotations(c, md)
    ensures fields == ChildFields(c, ns, md)
    ensures parents == ChildParents(c, ns)
  {
    annotations := [];
    fields := [];
    parents := [];
    if IsXsd(c, "sequence") {
      fields := Fields(c.children, ns, md);
      parents := GroupParents(c.children, ns);
    } else if IsContent(c) {
      fields, parents := CollectExtensions(c.children, ns, md);
      annotations := Annotations(c.children, md);
    }
  }

  /** `ObjectType::try_from`: gathers the annotations, fields and parents
      of the children, then turns built-in parents into `value` fields,
      keeps only the referenced parents and merges the annotations. */
  method Parse(n: XmlNode, ns: string, md: string -> string) returns (r: Result<ObjectType, TypeParseError>)
    ensures r == ParseSpec(n, ns, md)
  {
    if !IsObjectNode(n) {
      return Err(NotTypeNode);
    }
    if "name" !in n.attributes {
      return Err(MissingName);
    }
    var name := ns + "_" + n.attributes["name"];
    var cs := n.children;
    var annotations, fields, parents := CollectChildren(cs, ns, md);
    annotations := Annotations(cs, md) + annotations;
    fields := Fields(cs, ns, md) + fields;
    fields := fields + FilterMap(parents, ValueField);
    var references := References(parents);
    return Ok(ObjectType.ObjectType(FoldAnnotations(annotations), name, fields, references));
  }

  /** Fields keep document order: direct children first, then the
      children in order, then one `value` field per built-in parent. */
  lemma FieldsOrder(n: XmlNode, ns: string, md: string -> string, a: seq<XmlNode>, b: seq<XmlNode>)
    requires ParseSpec(n, ns, md).Ok? && n.children == a + b
    ensures ParseSpec(n, ns, md).value.fields ==
      Fields(a + b, ns, md) + AllFields(a, ns, md) + AllFields(b, ns, md) + FilterMap(AllParents(a + b, ns), ValueField)
  {
    ParsedFields(n, ns, md);
    FlatMapAppend(a, b, (c: XmlNode) => ChildFields(c, ns, md));
    ConcatAssociative(Fields(a + b, ns, md), AllFields(a, ns, md), AllFields(b, ns, md), FilterMap(AllParents(a + b, ns), ValueField));
  }

  /** Every field written directly among the type's children is kept. */
  lemma DirectFieldsKept(n: XmlNode, ns: string, md: string -> string, i: nat)
    requires ParseSpec(n, ns, md).Ok?
    requires i < |n.children| && F.Parse(n.children[i], ns, md).Ok?
    ensures F.Parse(n.children[i], ns, md).value in ParseSpec(n, ns, md).value.fields
  {
    ParsedFields(n, ns, md);
    var f := (c: XmlNode) => F.Parse(c, ns, md).ToOption();
    assert f(n.children[i]).Some?;
  }

  lemma ParsedFields(n: XmlNode, ns: string, md: string -> string)
    requires ParseSpec(n, ns, md).Ok?
    ensures ParseSpec(n, ns, md).value.fields
      == Fields(n.children, ns, md) + AllFields(n.children, ns, md) + FilterMap(AllParents(n.children, ns), ValueField)
  {
  }

  /** Each built-in parent gives a required `value` field. */
  lemma BuiltInParentGivesValue(n: XmlNode, ns: string, md: string -> string, k: nat)
    requires ParseSpec(n, ns, md).Ok?
    requires k < |AllParents(n.children, ns)| && AllParents(n.children, ns)[k].Item?
    ensures F.Field(Some(ValueAnnotation), "value", AllParents(n.children, ns)[k], SE.One) in ParseSpec(n, ns, md).value.fields
  {
  }

  /** The fields a type lists as required: those whose annotation says
      `required` is true, in field order. */
  function RequiredNames(fs: seq<F.Field>): (r: seq<string>)
    ensures forall x :: x in r <==> exists i :: 0 <= i < |fs| && fs[i].name == x
                                         && fs[i].annotation.Some? && fs[i].annotation.value.required == Some(true)
  {
    if fs == [] then []
    else
      var f := fs[0];
      var rest := RequiredNames(fs[1..]);
      assert forall i :: 1 <= i < |fs| ==> fs[i] == fs[1..][i - 1];
      if f.annotation.Some? && f.annotation.value.required == Some(true) then [f.name] + rest else rest
  }

  /** Required names keep field order: those of a concatenation are
      those of its parts, one after the other. */
  lemma {:induction false} RequiredNamesAppend(a: seq<F.Field>, b: seq<F.Field>)
    ensures RequiredNames(a + b) == RequiredNames(a) + RequiredNames(b)
  {
    if a != [] {
      assert (a + b)[0] == a[0];
      assert (a + b)[1..] == a[1..] + b;
      RequiredNamesAppend(a[1..], b);
    } else {
      assert a + b == b;
    }
  }

  /** A single field is listed exactly when its annotation says it is
      required. */
  lemma RequiredNamesSingle(f: F.Field)
    ensures RequiredNames([f]) == if f.annotation.Some? && f.annotation.value.required == Some(true) then [f.name] else []
  {
    assert [f][1..] == [];
  }

  /** The object part of the schema: one property per field name, the
      required names, and nothing else allowed. */
  function ObjectKind(c: ObjectType): (r: SchemaKind)
    ensures r.TypeKind? && r.schemaType.ObjectType?
    ensures r.schemaType.additionalProperties == Some(false)
  {
    TypeKind(Type.ObjectType(
      InsertAll([], Map(c.fields, (f: F.Field) => (f.name, Item(F.ToSchema(f))))),
      RequiredNames(c.fields),
      Some(false)))
  }

  /** An `allOf` member for a parent: a prefixed reference, or the schema
      of a built-in type. */
  function ParentMember(p: RefOr<ST.SimpleType>): (r: RefOr<Schema>)
    ensures p.Ref? ==> r == Ref(ComponentRef(p.reference))
  {
    match p
    case Ref(reference) => Ref(ComponentRef(reference))
    case Item(t) => Item(ST.ToSchema(t))
  }

  /** `From<&ObjectType> for Schema`. */
  function ToSchema(c: ObjectType): (r: Schema)
    ensures r.data.title == Some(c.name)
    ensures r.data.deprecated <==> c.annotation.Some? && c.annotation.value.deprecated
    ensures r.data.description == (if c.annotation.Some? then c.annotation.value.description else None)
    ensures c.parents == [] ==> r.kind == ObjectKind(c)
    ensures c.parents != [] ==> r.kind.AllOf? && |r.kind.allOf| == |c.parents| + 1
    ensures c.parents != [] ==> forall i :: 0 <= i < |c.parents| ==> r.kind.allOf[i] == ParentMember(c.parents[i])
    ensures c.parents != [] ==> r.kind.allOf[|c.parents|] == Item(Schema(DefaultData, ObjectKind(c)))
  {
    var data := SchemaData(
      false, false,
      if c.annotation.Some? then c.annotation.value.deprecated else false,
      Some(c.name),
      if c.annotation.Some? then c.annotation.value.description else None,
      None);
    if c.parents == [] then Schema(data, ObjectKind(c))
    else Schema(data, AllOf(Map(c.parents, ParentMember) + [Item(Schema(DefaultData, ObjectKind(c)))]))
  }

  /** A parsed type's schema: its `allOf` lists only prefixed references
      before the object, and every field whose annotation says it is
      required (including each `value` field) is listed as required. */
  lemma ParsedSchema(n: XmlNode, ns: string, md: string -> string, i: nat)
    requires ParseSpec(n, ns, md).Ok?
    requires i < |ParseSpec(n, ns, md).value.fields|
    ensures var o := ParseSpec(n, ns, md).value; var s := ToSchema(o);
      && (forall k :: 0 <= k < |o.parents| ==> s.kind.allOf[k] == Ref(ComponentRef(o.parents[k].reference)))
      && ((o.fields[i].annotation.Some? && o.fields[i].annotation.value.required == Some(true))
            ==> o.fields[i].name in ObjectKind(o).schemaType.required)
  {
  }
}
