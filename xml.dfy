/** The parsed XML tree the XSD readers walk: `xmltree::XMLNode`, reduced
    to elements and text. */
module Xml {
  import opened Wrappers

  /** The W3C XML Schema namespace. */
  const XmlSchemaNs: string := "http://www.w3.org/2001/XMLSchema"

  datatype XmlNode =
    | Element(namespace: Option<string>, name: string, attributes: map<string, string>, children: seq<XmlNode>)
    | Text(text: string)

  /** An element of the XML Schema namespace with local name `name`. */
  predicate IsXsd(n: XmlNode, name: string)
  {
    n.Element? && n.namespace == Some(XmlSchemaNs) && n.name == name
  }

  /** An element of any namespace (the namespace must be present) with
      local name `name`. */
  predicate IsNamespaced(n: XmlNode, name: string)
  {
    n.Element? && n.namespace.Some? && n.name == name
  }

  /** `attributes.get(key)`. */
  function Attr(n: XmlNode, key: string): (r: Option<string>)
    requires n.Element?
    ensures r.Some? <==> key in n.attributes
    ensures r.Some? ==> r.value == n.attributes[key]
  {
    if key in n.attributes then Some(n.attributes[key]) else None
  }

  /** The text of an element whose first child is a text node. */
  function FirstText(n: XmlNode): (r: Option<string>)
    requires n.Element?
    ensures r.Some? <==> |n.children| > 0 && n.children[0].Text?
    ensures r.Some? ==> r.value == n.children[0].text
  {
    if |n.children| > 0 && n.children[0].Text? then Some(n.children[0].text) else None
  }
}
