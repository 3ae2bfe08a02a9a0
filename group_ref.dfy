/** References to model groups (`<xs:group ref="..."/>`, XML Schema Part 1,
    section 3.7). */
module GroupRef {
  import opened Wrappers
  import opened Xml

  datatype GroupRef = GroupRef(reference: string)

  datatype GroupRefParseError = MissingRefAttribute | NotGroupNode

  /** `GroupRef::try_from`: the `ref` attribute of an XSD `group`, verbatim. */
  function Parse(n: XmlNode): (r: Result<GroupRef, GroupRefParseError>)
    ensures r == Err(NotGroupNode) <==> !IsXsd(n, "group")
    ensures r == Err(MissingRefAttribute) <==> IsXsd(n, "group") && "ref" !in n.attributes
    ensures r.Ok? <==> IsXsd(n, "group") && "ref" in n.attributes
    ensures r.Ok? ==> r.value.reference == n.attributes["ref"]
  {
    if IsXsd(n, "group") then
      match Attr(n, "ref")
      case Some(reference) => Ok(GroupRef(reference))
      case None => Err(MissingRefAttribute)
    else Err(NotGroupNode)
  }

  /** An attribute group reference is not a group reference. */
  lemma AttributeGroupIsNotGroup(attributes: map<string, string>, children: seq<XmlNode>)
    ensures Parse(Element(Some(XmlSchemaNs), "attributeGroup", attributes, children)) == Err(NotGroupNode)
  {
  }
}
