/** A top-level type definition of a schema document: an object type
    (complex type, model group or attribute group) or a simple type. */
module XsdType {
  import opened Wrappers
  import opened Xml
  import opened OpenApi
  import opened TypeErrors
  import OT = ObjectType
  import ST = SimpleType

  datatype Type = Object(objectType: OT.ObjectType) | Simple(simpleType: ST.SimpleType)

  /** `Type::try_from`: read as an object type; only when the node is no
      object node at all, read it as a simple type. Any other error of the
      object reader stands. */
  function Parse(n: XmlNode, ns: string, md: string -> string): (r: Result<Type, TypeParseError>)
    ensures OT.IsObjectNode(n) ==> (r.Ok? <==> "name" in n.attributes)
    ensures OT.IsObjectNode(n) && "name" !in n.attributes ==> r == Err(MissingName)
    ensures r.Ok? && r.value.Object? ==> OT.IsObjectNode(n) && r.value.objectType.name == ns + "_" + n.attributes["name"]
    ensures r.Ok? && r.value.Simple? <==> IsXsd(n, "simpleType") && ST.Parse(n, ns, md).Ok?
    ensures r.Ok? && r.value.Simple? ==> r.value.simpleType == ST.Parse(n, ns, md).value
    ensures r == Err(NotTypeNode) <==> !OT.IsObjectNode(n) && ST.Parse(n, ns, md) == Err(NotTypeNode)
  {
    match OT.ParseSpec(n, ns, md)
    case Ok(o) => Ok(Object(o))
    case Err(NotTypeNode) =>
      var s :- ST.Parse(n, ns, md);
      Ok(Simple(s))
    case Err(e) => Err(e)
  }

  /** A simple type node is never read as an object type, and an object
      type node never as a simple type. */
  lemma KindFollowsNode(n: XmlNode, ns: string, md: string -> string)
    requires Parse(n, ns, md).Ok?
    ensures Parse(n, ns, md).value.Object? <==> IsXsd(n, "complexType") || IsXsd(n, "group") || IsXsd(n, "attributeGroup")
    ensures Parse(n, ns, md).value.Simple? <==> IsXsd(n, "simpleType")
  {
  }

  /** The name a type is published under. */
  function Title(t: Type): Option<string>
  {
    match t
    case Object(o) => Some(o.name)
    case Simple(s) => s.name
  }

  /** `From<&Type> for Schema`: the schema of the object or simple type. */
  function ToSchema(t: Type): (r: Schema)
    ensures r.data.title == Title(t)
    ensures t.Object? ==> r.data.description == (if t.objectType.annotation.Some? then t.objectType.annotation.value.description else None)
    ensures t.Simple? ==> r.data.description == (if t.simpleType.annotation.Some? then t.simpleType.annotation.value.description else None)
    ensures t.Simple? ==> r.kind.TypeKind?
    ensures t.Object? ==> (r.kind.AllOf? <==> t.objectType.parents != [])
  {
    match t
    case Object(o) => OT.ToSchema(o)
    case Simple(s) => ST.ToSchema(s)
  }

  /** Every named type parsed from a document is published under a
      namespaced title. */
  lemma ParsedTitle(n: XmlNode, ns: string, md: string -> string)
    requires Parse(n, ns, md).Ok? && "name" in n.attributes
    ensures ToSchema(Parse(n, ns, md).value).data.title == Some(ns + "_" + n.attributes["name"])
  {
  }
}
