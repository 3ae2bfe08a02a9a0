/** Element declarations inside a `sequence` (XML Schema Part 1, sections
    3.3 and 3.9): a property name, a type name and how often it occurs. */
module SequenceElement {
  import opened Wrappers
  import opened Strings
  import opened Xml
  import opened Annotation

  /** How many times a particle may occur, in JSON terms. */
  datatype Occurrences = Optional | One | Array

  /** The `(minOccurs, maxOccurs)` match with both defaulting to `"1"`:
      an unbounded maximum makes an array, else a zero minimum makes the
      property optional, else it occurs once. */
  function ElementOccurrences(n: XmlNode): (r: Occurrences)
    requires n.Element?
    ensures r == Array <==> Attr(n, "maxOccurs") == Some("unbounded")
    ensures r == Optional <==> Attr(n, "maxOccurs") != Some("unbounded") && Attr(n, "minOccurs") == Some("0")
  {
    var min := Attr(n, "minOccurs").GetOr("1");
    var max := Attr(n, "maxOccurs").GetOr("1");
    if max == "unbounded" then Array
    else if min == "0" then Optional
    else One
  }

  datatype SequenceElement = SequenceElement(
    annotation: Option<Annotation>,
    name: string,
    typeName: string,
    occurrences: Occurrences)

  datatype SequenceElementParseError = MissingName | MissingType | NotSequenceElementNode

  /** `SequenceElement::try_from`: an XSD `element` whose name gets its
      first character lower-cased and whose type name is kept verbatim. */
  function Parse(n: XmlNode, md: string -> string): (r: Result<SequenceElement, SequenceElementParseError>)
    ensures r == Err(NotSequenceElementNode) <==> !IsXsd(n, "element")
    ensures r == Err(MissingName) <==> IsXsd(n, "element") && "name" !in n.attributes
    ensures r == Err(MissingType) <==> IsXsd(n, "element") && "name" in n.attributes && "type" !in n.attributes
    ensures r.Ok? ==> r.value.name == LowerFirst(n.attributes["name"])
    ensures r.Ok? ==> r.value.typeName == n.attributes["type"]
    ensures r.Ok? ==> r.value.occurrences == ElementOccurrences(n)
    ensures r.Ok? ==> r.value.annotation == FirstAnnotation(n.children, md)
  {
    if IsXsd(n, "element") then
      match Attr(n, "name")
      case None => Err(MissingName)
      case Some(name) =>
        match Attr(n, "type")
        case None => Err(MissingType)
        case Some(typeName) =>
          Ok(SequenceElement(FirstAnnotation(n.children, md), LowerFirst(name), typeName, ElementOccurrences(n)))
    else Err(NotSequenceElementNode)
  }

  /** The occurrence table: `maxOccurs="unbounded"` wins over any
      `minOccurs`; `minOccurs="0"` alone is optional; neither (or any other
      values) is one. */
  lemma OccurrencesTable(attributes: map<string, string>, children: seq<XmlNode>)
    ensures var n := Element(Some(XmlSchemaNs), "element", attributes, children);
      && ElementOccurrences(n.(attributes := attributes["minOccurs" := "0"]["maxOccurs" := "unbounded"])) == Array
      && ElementOccurrences(n.(attributes := attributes["minOccurs" := "0"]["maxOccurs" := "1"])) == Optional
      && ("minOccurs" !in attributes && "maxOccurs" !in attributes ==> ElementOccurrences(n) == One)
  {
  }
}
