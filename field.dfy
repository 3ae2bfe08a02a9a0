/** Properties of object types: element declarations (XML Schema Part 1,
    section 3.3) and attribute uses (section 3.5), and the OpenAPI schema of
    each. */
module Field {
  import opened Wrappers
  import opened Strings
  import opened Xml
  import opened Iter
  import opened OpenApi
  import opened Annotation
  import SE = SequenceElement
  import ST = SimpleType
  import P = RestPrimitiveType

  datatype Field = Field(
    annotation: Option<Annotation>,
    name: string,
    fieldType: RefOr<ST.SimpleType>,
    occurrences: SE.Occurrences)

  datatype FieldParseError = MissingName | MissingType | NotFieldNode

  /** The first child that reads as a simple type. */
  function InlineSimpleType(children: seq<XmlNode>, ns: string, md: string -> string): Option<ST.SimpleType>
  {
    FindMap(children, c => ST.Parse(c, ns, md).ToOption())
  }

  /** An inline simple type wins over the `type` attribute; without
      either the field has no type. */
  function FieldType(n: XmlNode, ns: string, md: string -> string): (r: Result<RefOr<ST.SimpleType>, FieldParseError>)
    requires n.Element?
    ensures InlineSimpleType(n.children, ns, md).Some? ==> r == Ok(Item(InlineSimpleType(n.children, ns, md).value))
    ensures InlineSimpleType(n.children, ns, md).None? && "type" in n.attributes ==>
              r == Ok(ST.StrToSimpleTypeOrReference(ns, n.attributes["type"]))
    ensures r.Err? <==> InlineSimpleType(n.children, ns, md).None? && "type" !in n.attributes
  {
    match InlineSimpleType(n.children, ns, md)
    case Some(s) => Ok(Item(s))
    case None =>
      match Attr(n, "type")
      case None => Err(MissingType)
      case Some(typeName) => Ok(ST.StrToSimpleTypeOrReference(ns, typeName))
  }

  /** `use="required"` makes an attribute occur once; anything else,
      including no `use`, makes it optional. */
  function AttributeOccurrences(n: XmlNode): (r: SE.Occurrences)
    requires n.Element?
    ensures r != SE.Array
    ensures r == SE.One <==> Attr(n, "use") == Some("required")
  {
    if Attr(n, "use") == Some("required") then SE.One else SE.Optional
  }

  /** `Field::try_from((node, namespace))`. */
  function Parse(n: XmlNode, ns: string, md: string -> string): (r: Result<Field, FieldParseError>)
    ensures r == Err(NotFieldNode) <==> !IsXsd(n, "element") && !IsXsd(n, "attribute")
    ensures r == Err(MissingName) <==> (IsXsd(n, "element") || IsXsd(n, "attribute")) && "name" !in n.attributes
    ensures r == Err(MissingType) <==> (IsXsd(n, "element") || IsXsd(n, "attribute")) && "name" in n.attributes
                                       && InlineSimpleType(n.children, ns, md).None? && "type" !in n.attributes
    ensures r.Ok? && IsXsd(n, "element") ==> r.value.name == LowerFirst(n.attributes["name"]) && r.value.occurrences == SE.ElementOccurrences(n)
    ensures r.Ok? && IsXsd(n, "attribute") ==> r.value.name == n.attributes["name"] && r.value.occurrences == AttributeOccurrences(n)
    ensures r.Ok? ==> Ok(r.value.fieldType) == FieldType(n, ns, md) && r.value.annotation == FirstAnnotation(n.children, md)
  {
    if IsXsd(n, "element") || IsXsd(n, "attribute") then
      match Attr(n, "name")
      case None => Err(MissingName)
      case Some(name) =>
        var fieldType :- FieldType(n, ns, md);
        var annotation := FirstAnnotation(n.children, md);
        if IsXsd(n, "element") then
          Ok(Field(annotation, LowerFirst(name), fieldType, SE.ElementOccurrences(n)))
        else
          Ok(Field(annotation, name, fieldType, AttributeOccurrences(n)))
    else Err(NotFieldNode)
  }

  /** The OpenAPI type of a simple type's primitive and facets, or the
      prefixed reference. */
  function TypeOrReference(t: RefOr<ST.SimpleType>): (r: RefOr<Type>)
    ensures t.Ref? ==> r == Ref(ComponentRef(t.reference))
    ensures t.Item? ==> r == Item(P.ToType(ST.Restricted(t.item)))
  {
    match t
    case Item(s) => Item(P.ToType(ST.Restricted(s)))
    case Ref(reference) => Ref(ComponentRef(reference))
  }

  /** `From<&Field> for Schema`. */
  function ToSchema(f: Field): (r: Schema)
    ensures !r.data.nullable
    ensures r.data.readOnly <==> f.annotation.Some? && f.annotation.value.modifiable == Some(NotModifiable)
    ensures r.data.deprecated <==> f.annotation.Some? && f.annotation.value.deprecated
    ensures r.data.description == (if f.annotation.Some? then f.annotation.value.description else None)
    ensures r.data.title.None? && r.data.discriminator.None?
  {
    var data := SchemaData(
      false,
      f.annotation.Some? && f.annotation.value.modifiable == Some(NotModifiable),
      f.annotation.Some? && f.annotation.value.deprecated,
      None,
      if f.annotation.Some? then f.annotation.value.description else None,
      None);
    var t := TypeOrReference(f.fieldType);
    var kind :=
      if f.occurrences == SE.Array then
        TypeKind(ArrayType(if t.Item? then Item(Bare(t.item)) else Ref(t.reference)))
      else if t.Item? then TypeKind(t.item)
      else AllOf([Ref(t.reference)]);
    Schema(data, kind)
  }

  /** The shape of a field's schema: arrays wrap the type or the
      reference as `items`; otherwise a type stands alone and a reference
      is wrapped in a one-member `allOf`. References always point into
      `#/components/schemas/`. */
  lemma SchemaShape(f: Field)
    ensures f.occurrences == SE.Array && f.fieldType.Ref? ==>
      ToSchema(f).kind == TypeKind(ArrayType(Ref(ComponentRef(f.fieldType.reference))))
    ensures f.occurrences == SE.Array && f.fieldType.Item? ==>
      ToSchema(f).kind == TypeKind(ArrayType(Item(Bare(P.ToType(ST.Restricted(f.fieldType.item))))))
    ensures f.occurrences != SE.Array && f.fieldType.Ref? ==>
      ToSchema(f).kind == AllOf([Ref(ComponentRef(f.fieldType.reference))])
    ensures f.occurrences != SE.Array && f.fieldType.Item? ==>
      ToSchema(f).kind == TypeKind(P.ToType(ST.Restricted(f.fieldType.item)))
  {
  }

  /** The annotation reader never sets `modifiable`, so no field read
      from XML is marked read-only. */
  lemma ParsedFieldsNotReadOnly(n: XmlNode, ns: string, md: string -> string)
    requires Parse(n, ns, md).Ok?
    ensures !ToSchema(Parse(n, ns, md).value).data.readOnly
  {
    var a := FirstAnnotation(n.children, md);
    if a.Some? {
      var f := c => FromNode(c, md).ToOption();
      var k :| 0 <= k < |n.children| && f(n.children[k]) == a && forall j :: 0 <= j < k ==> f(n.children[j]).None?;
      FromNodeModifiable(n.children[k], md);
    }
  }
}
