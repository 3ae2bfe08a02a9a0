/** Simple type definitions of the vCloud XSDs (XML Schema Part 1,
    section 3.14): a list of, or a restriction of, a built-in datatype. */
module SimpleType {
  import opened Wrappers
  import opened Strings
  import opened Xml
  import opened Iter
  import opened OpenApi
  import opened Annotation
  import P = RestPrimitiveType
  import opened TypeErrors

  datatype SimpleType = SimpleType(
    annotation: Option<Annotation>,
    name: Option<string>,
    pattern: Option<string>,
    list: bool,
    parent: P.PrimitiveType,
    enumeration: seq<Option<string>>,
    minInclusive: Option<string>)

  /** A child that decides the simple type: `list` or `restriction`. */
  function Decider(c: XmlNode): (r: Option<XmlNode>)
    ensures r.Some? ==> r.value == c && (IsXsd(c, "list") || IsXsd(c, "restriction"))
    ensures r.None? ==> !IsXsd(c, "list") && !IsXsd(c, "restriction")
  {
    if IsXsd(c, "list") || IsXsd(c, "restriction") then Some(c) else None
  }

  function PatternValue(c: XmlNode): Option<string>
  {
    if IsXsd(c, "pattern") then Attr(c, "value") else None
  }

  function MinInclusiveValue(c: XmlNode): Option<string>
  {
    if IsXsd(c, "minInclusive") then Attr(c, "value") else None
  }

  /** An `enumeration` facet gives its value, or `None` when it has none. */
  function EnumerationValue(c: XmlNode): Option<Option<string>>
  {
    if IsXsd(c, "enumeration") then Some(Attr(c, "value")) else None
  }

  /** `PrimitiveType::from_str` with its error lifted into the type error. */
  function ParseParent(s: string): (r: Result<P.PrimitiveType, TypeParseError>)
    ensures r.Ok? <==> P.Parse(s).Ok?
    ensures r.Ok? ==> P.Token(r.value) == s
    ensures r.Err? ==> r.error == PrimitiveTypeParseError(P.NoMatch(s))
  {
    match P.Parse(s)
    case Ok(p) => Ok(p)
    case Err(e) => Err(PrimitiveTypeParseError(e))
  }

  /** `SimpleType::try_from((node, namespace))`. */
  function Parse(n: XmlNode, ns: string, md: string -> string): (r: Result<SimpleType, TypeParseError>)
    ensures !IsXsd(n, "simpleType") ==> r == Err(NotTypeNode)
    ensures IsXsd(n, "simpleType") ==> (r == Err(NotTypeNode) <==> FindMap(n.children, Decider).None?)
    ensures r.Ok? ==> r.value.name == (if "name" in n.attributes then Some(ns + "_" + n.attributes["name"]) else None)
    ensures r.Ok? ==> r.value.annotation == FirstAnnotation(n.children, md)
  {
    if !IsXsd(n, "simpleType") then Err(NotTypeNode)
    else
      var name := if "name" in n.attributes then Some(ns + "_" + n.attributes["name"]) else None;
      var annotation := FirstAnnotation(n.children, md);
      match FindMap(n.children, Decider)
      case None => Err(NotTypeNode)
      case Some(c) =>
        if IsXsd(c, "list") then
          match Attr(c, "itemType")
          case None => Err(MissingItemTypeValue)
          case Some(itemType) =>
            var parent :- ParseParent(itemType);
            Ok(SimpleType(annotation, name, None, true, parent, [], None))
        else
          match Attr(c, "base")
          case None => Err(MissingBase)
          case Some(base) =>
            var pattern := FindMap(c.children, PatternValue);
            var minInclusive := FindMap(c.children, MinInclusiveValue);
            var enumeration := FilterMap(c.children, EnumerationValue);
            var parent :- ParseParent(base);
            Ok(SimpleType(annotation, name, pattern, false, parent, enumeration, minInclusive))
  }

  /** The first `list` or `restriction` child decides: a list needs
      `itemType` and has no facets; a restriction needs `base`, takes its
      first `pattern` and `minInclusive`, and every `enumeration` value in
      document order. */
  lemma ParseDecidingChild(n: XmlNode, ns: string, md: string -> string, i: nat)
    requires IsXsd(n, "simpleType") && i < |n.children|
    requires IsXsd(n.children[i], "list") || IsXsd(n.children[i], "restriction")
    requires forall j :: 0 <= j < i ==> Decider(n.children[j]).None?
    ensures var c := n.children[i]; var r := Parse(n, ns, md);
      && (IsXsd(c, "list") ==>
            && (r == Err(MissingItemTypeValue) <==> "itemType" !in c.attributes)
            && ("itemType" in c.attributes ==> (r.Ok? <==> P.Parse(c.attributes["itemType"]).Ok?))
            && (r.Ok? ==> r.value.list && r.value.enumeration == [] && r.value.pattern.None?
                          && r.value.minInclusive.None? && P.Token(r.value.parent) == c.attributes["itemType"]))
      && (IsXsd(c, "restriction") ==>
            && (r == Err(MissingBase) <==> "base" !in c.attributes)
            && ("base" in c.attributes ==> (r.Ok? <==> P.Parse(c.attributes["base"]).Ok?))
            && (r.Ok? ==> !r.value.list && P.Token(r.value.parent) == c.attributes["base"]
                          && r.value.pattern == FindMap(c.children, PatternValue)
                          && r.value.minInclusive == FindMap(c.children, MinInclusiveValue)
                          && r.value.enumeration == FilterMap(c.children, EnumerationValue)))
  {
    FindMapAt(n.children, Decider, i);
  }

  /** Enumeration values keep document order: the facets of `a + b` are
      those of `a` followed by those of `b`. */
  lemma EnumerationOrder(a: seq<XmlNode>, b: seq<XmlNode>)
    ensures FilterMap(a + b, EnumerationValue) == FilterMap(a, EnumerationValue) + FilterMap(b, EnumerationValue)
  {
    FilterMapAppend(a, b, EnumerationValue);
  }

  /** `str_to_simple_type_or_reference`: a built-in name becomes an
      unrestricted simple type; any other name a reference, with its
      first `:` replaced by `_`, or prefixed with the namespace. */
  function StrToSimpleTypeOrReference(ns: string, typeName: string): (r: RefOr<SimpleType>)
    ensures r.Item? <==> P.Parse(typeName).Ok?
    ensures r.Item? ==> r.item == SimpleType(None, None, None, false, P.Parse(typeName).value, [], None)
    ensures r.Ref? && ':' !in typeName ==> r.reference == ns + "_" + typeName
    ensures r.Ref? && ':' in typeName ==> exists i :: 0 <= i < |typeName| && typeName[i] == ':' && ':' !in typeName[..i]
                                                    && r.reference == typeName[..i] + "_" + typeName[i + 1..]
  {
    match P.Parse(typeName)
    case Ok(p) => Item(SimpleType(None, None, None, false, p, [], None))
    case Err(_) => Ref(if ':' in typeName then ReplaceFirst(typeName, ':', "_") else ns + "_" + typeName)
  }

  /** The primitive and facets of a simple type, as the OpenAPI type reads them. */
  function Restricted(t: SimpleType): P.RestrictedPrimitiveType
  {
    P.RestrictedPrimitiveType(t.parent, t.pattern, t.enumeration, t.minInclusive)
  }

  /** `From<&SimpleType> for Schema`. */
  function ToSchema(t: SimpleType): (r: Schema)
    ensures r.data.title == t.name && !r.data.nullable && !r.data.readOnly
    ensures r.data.deprecated <==> t.annotation.Some? && t.annotation.value.deprecated
    ensures r.data.description == (if t.annotation.Some? then t.annotation.value.description else None)
    ensures t.list ==> r.kind == TypeKind(ArrayType(Item(Bare(P.ToType(Restricted(t))))))
    ensures !t.list ==> r.kind == TypeKind(P.ToType(Restricted(t)))
  {
    var data := SchemaData(
      false, false,
      if t.annotation.Some? then t.annotation.value.deprecated else false,
      t.name,
      if t.annotation.Some? then t.annotation.value.description else None,
      None);
    var kind := TypeKind(P.ToType(Restricted(t)));
    if t.list then Schema(data, TypeKind(ArrayType(Item(Schema(DefaultData, kind)))))
    else Schema(data, kind)
  }

  /** A string enumeration read from a restriction keeps every value in
      document order in the schema, titled with the type's name. */
  lemma StringEnumerationSchema(n: XmlNode, ns: string, md: string -> string, i: nat)
    requires IsXsd(n, "simpleType") && i < |n.children| && IsXsd(n.children[i], "restriction")
    requires forall j :: 0 <= j < i ==> Decider(n.children[j]).None?
    requires Parse(n, ns, md).Ok? && P.IsStringLike(Parse(n, ns, md).value.parent)
    ensures var s := ToSchema(Parse(n, ns, md).value);
      && s.kind.TypeKind? && s.kind.schemaType.StringType?
      && s.kind.schemaType.enumeration == FilterMap(n.children[i].children, EnumerationValue)
      && s.data.title == Parse(n, ns, md).value.name
  {
    ParseDecidingChild(n, ns, md, i);
  }
}
