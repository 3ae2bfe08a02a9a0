/** A schema document (XML Schema Part 1, section 3.15): its type
    definitions and the locations of the documents it includes. */
module XsdSchema {
  import opened Wrappers
  import opened Xml
  import opened Iter
  import OpenApi
  import TypeErrors
  import XT = XsdType

  datatype XsdSchema = XsdSchema(includes: seq<string>, types: seq<XT.Type>)

  datatype SchemaParseError = NotSchemaNode

  /** The `schemaLocation` of an `include` child. */
  function IncludeLocation(c: XmlNode): (r: Option<string>)
    ensures r.Some? <==> IsXsd(c, "include") && "schemaLocation" in c.attributes
    ensures r.Some? ==> r.value == c.attributes["schemaLocation"]
  {
    if IsXsd(c, "include") then Attr(c, "schemaLocation") else None
  }

  /** The children that read as types, in order. */
  function Types(cs: seq<XmlNode>, ns: string, md: string -> string): (r: seq<XT.Type>)
    ensures |r| <= |cs|
    ensures forall i :: 0 <= i < |cs| && XT.Parse(cs[i], ns, md).Ok? ==> XT.Parse(cs[i], ns, md).value in r
    ensures forall k :: 0 <= k < |r| ==> exists i :: 0 <= i < |cs| && XT.Parse(cs[i], ns, md) == Ok(r[k])
  {
    var f := (c: XmlNode) => XT.Parse(c, ns, md).ToOption();
    var r := FilterMap(cs, f);
    assert forall i :: 0 <= i < |cs| ==> f(cs[i]) == XT.Parse(cs[i], ns, md).ToOption();
    r
  }

  /** The locations of the `include` children that name one, in order. */
  function Includes(cs: seq<XmlNode>): (r: seq<string>)
    ensures |r| <= |cs|
    ensures forall k :: 0 <= k < |r| ==> exists i :: 0 <= i < |cs| && IncludeLocation(cs[i]) == Some(r[k])
    ensures forall i :: 0 <= i < |cs| && IsXsd(cs[i], "include") && "schemaLocation" in cs[i].attributes ==>
              cs[i].attributes["schemaLocation"] in r
  {
    var r := FilterMap(cs, IncludeLocation);
    assert forall i :: 0 <= i < |cs| && IsXsd(cs[i], "include") && "schemaLocation" in cs[i].attributes ==>
             IncludeLocation(cs[i]) == Some(cs[i].attributes["schemaLocation"]);
    r
  }

  /** Types keep document order: one more child adds its type, if it
      reads as one, at the end. */
  lemma TypesSnoc(cs: seq<XmlNode>, c: XmlNode, ns: string, md: string -> string)
    ensures Types(cs + [c], ns, md) ==
      Types(cs, ns, md) + (if XT.Parse(c, ns, md).Ok? then [XT.Parse(c, ns, md).value] else [])
  {
    var f := (c: XmlNode) => XT.Parse(c, ns, md).ToOption();
    FilterMapSnoc(cs + [c], |cs|, f);
    assert (cs + [c])[..|cs| + 1] == cs + [c];
    assert (cs + [c])[..|cs|] == cs;
  }

  /** Included locations keep document order: one more child adds its
      location, if it is an `include` naming one, at the end. */
  lemma IncludesSnoc(cs: seq<XmlNode>, c: XmlNode)
    ensures Includes(cs + [c]) ==
      Includes(cs) + (if IsXsd(c, "include") && "schemaLocation" in c.attributes then [c.attributes["schemaLocation"]] else [])
  {
    FilterMapSnoc(cs + [c], |cs|, IncludeLocation);
    assert (cs + [c])[..|cs| + 1] == cs + [c];
    assert (cs + [c])[..|cs|] == cs;
  }

  /** `Schema::try_from(&XMLNode)`: the children that read as types, in
      order, skipping those that do not, and the included locations. */
  function Parse(n: XmlNode, ns: string, md: string -> string): (r: Result<XsdSchema, SchemaParseError>)
    ensures r.Err? <==> !IsXsd(n, "schema")
    ensures r.Ok? ==> r.value == XsdSchema(Includes(n.children), Types(n.children, ns, md))
  {
    if IsXsd(n, "schema") then Ok(XsdSchema(Includes(n.children), Types(n.children, ns, md)))
    else Err(NotSchemaNode)
  }

  /** An `include` child never contributes a type. */
  lemma IncludeIsNoType(c: XmlNode, ns: string, md: string -> string)
    requires IsXsd(c, "include")
    ensures XT.Parse(c, ns, md) == Err(TypeErrors.NotTypeNode)
  {
  }

  /** `From<&Schema> for Vec<Schema>`: one schema per type, in order. */
  function ToSchemas(s: XsdSchema): (r: seq<OpenApi.Schema>)
    ensures |r| == |s.types|
    ensures forall i :: 0 <= i < |r| ==> r[i] == XT.ToSchema(s.types[i]) && r[i].data.title == XT.Title(s.types[i])
  {
    Map(s.types, XT.ToSchema)
  }
}
