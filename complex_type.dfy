/** Complex type definitions read as a named list of sequence elements
    with an optional parent type (XML Schema Part 1, section 3.4,
    derivation by extension). */
module ComplexType {
  import opened Wrappers
  import opened Xml
  import opened Iter
  import opened IndexMaps
  import opened OpenApi
  import opened Annotation
  import SE = SequenceElement

  datatype ComplexType = ComplexType(
    annotation: Annotation,
    name: string,
    sequenceElements: seq<SE.SequenceElement>,
    parent: Option<string>)

  datatype ComplexTypeParseError = NotComplexTypeNode | MissingName | MissingAnnotation

  /** The children that read as sequence elements, in order. */
  function Elements(children: seq<XmlNode>, md: string -> string): seq<SE.SequenceElement>
  {
    FilterMap(children, c => SE.Parse(c, md).ToOption())
  }

  /** The elements of a child that is a `sequence`. */
  function SequenceElements(c: XmlNode, md: string -> string): seq<SE.SequenceElement>
  {
    if IsXsd(c, "sequence") then Elements(c.children, md) else []
  }

  /** The elements of the `sequence` children of an `extension`. */
  function SequencesOf(cs: seq<XmlNode>, md: string -> string): seq<SE.SequenceElement>
  {
    FlatMap(cs, (c: XmlNode) => SequenceElements(c, md))
  }

  /** The elements an `extension` contributes: its own element children,
      then those of each of its `sequence` children. */
  function ExtensionElements(c: XmlNode, md: string -> string): seq<SE.SequenceElement>
  {
    if IsXsd(c, "extension") then Elements(c.children, md) + SequencesOf(c.children, md) else []
  }

  /** The elements the children of a `complexContent` contribute. */
  function ContentElements(cs: seq<XmlNode>, md: string -> string): seq<SE.SequenceElement>
  {
    FlatMap(cs, (c: XmlNode) => ExtensionElements(c, md))
  }

  /** The parent after the children of a `complexContent`: each `extension`
      replaces it with its `base`, which may be absent. */
  function ContentParent(cs: seq<XmlNode>, parent: Option<string>): Option<string>
  {
    if cs == [] then parent
    else
      var last := cs[|cs| - 1];
      var p := ContentParent(cs[..|cs| - 1], parent);
      if IsXsd(last, "extension") then Attr(last, "base") else p
  }

  /** The elements one child of a `complexType` contributes. */
  function ChildElements(c: XmlNode, md: string -> string): seq<SE.SequenceElement>
  {
    if IsXsd(c, "sequence") then Elements(c.children, md)
    else if IsXsd(c, "complexContent") then ContentElements(c.children, md)
    else []
  }

  /** The elements the children of a `complexType` contribute, in
      document order. */
  function TypeElements(cs: seq<XmlNode>, md: string -> string): seq<SE.SequenceElement>
  {
    FlatMap(cs, (c: XmlNode) => ChildElements(c, md))
  }

  function TypeParent(cs: seq<XmlNode>): Option<string>
  {
    if cs == [] then None
    else
      var last := cs[|cs| - 1];
      var p := TypeParent(cs[..|cs| - 1]);
      if IsXsd(last, "complexContent") then ContentParent(last.children, p) else p
  }

  /** What `ComplexType::try_from` yields. */
  function ParseSpec(n: XmlNode, md: string -> string): (r: Result<ComplexType, ComplexTypeParseError>)
    ensures r == Err(NotComplexTypeNode) <==> !IsXsd(n, "complexType")
    ensures r == Err(MissingName) <==> IsXsd(n, "complexType") && "name" !in n.attributes
    ensures r == Err(MissingAnnotation) <==> IsXsd(n, "complexType") && "name" in n.attributes && FirstAnnotation(n.children, md).None?
    ensures r.Ok? ==> r.value.name == n.attributes["name"] && Some(r.value.annotation) == FirstAnnotation(n.children, md)
  {
    if IsXsd(n, "complexType") then
      match Attr(n, "name")
      case None => Err(MissingName)
      case Some(name) =>
        match FirstAnnotation(n.children, md)
        case None => Err(MissingAnnotation)
        case Some(annotation) => Ok(ComplexType(annotation, name, TypeElements(n.children, md), TypeParent(n.children)))
    else Err(NotComplexTypeNode)
  }

  /** The inner loop over an extension's children, gathering the
      elements of its `sequence` children. */
  method CollectSequences(cs: seq<XmlNode>, md: string -> string) returns (elements: seq<SE.SequenceElement>)
    ensures elements == SequencesOf(cs, md)
  {
    elements := [];
    var k := 0;
    while k < |cs|
      invariant 0 <= k <= |cs|
      invariant elements == SequencesOf(cs[..k], md)
    {
      assert cs[..k + 1][..k] == cs[..k];
      if IsXsd(cs[k], "sequence") {
        elements := elements + Elements(cs[k].children, md);
      }
      k := k + 1;
    }
    assert cs[..k] == cs;
  }

  /** The loop over a `complexContent`'s children: each `extension` sets
      the parent and contributes its elements. */
  method CollectContent(cs: seq<XmlNode>, parent0: Option<string>, md: string -> string)
    returns (elements: seq<SE.SequenceElement>, parent: Option<string>)
    ensures elements == ContentElements(cs, md)
    ensures parent == ContentParent(cs, parent0)
  {
    elements := [];
    parent := parent0;
    var j := 0;
    while j < |cs|
      invariant 0 <= j <= |cs|
      invariant elements == ContentElements(cs[..j], md)
      invariant parent == ContentParent(cs[..j], parent0)
    {
      var ext := cs[j];
      assert cs[..j + 1][..j] == cs[..j];
      if IsXsd(ext, "extension") {
        parent := Attr(ext, "base");
        var inner := CollectSequences(ext.children, md);
        elements := elements + (Elements(ext.children, md) + inner);
      }
      j := j + 1;
    }
    assert cs[..j] == cs;
  }

  /** `ComplexType::try_from`: checks the node, its name and its
      annotation, then runs the loop over the children. */
  method Parse(n: XmlNode, md: string -> string) returns (r: Result<ComplexType, ComplexTypeParseError>)
    ensures r == ParseSpec(n, md)
  {
    if !IsXsd(n, "complexType") {
      return Err(NotComplexTypeNode);
    }
    if "name" !in n.attributes {
      return Err(MissingName);
    }
    var name := n.attributes["name"];
    var annotation := FirstAnnotation(n.children, md);
    if annotation.None? {
      return Err(MissingAnnotation);
    }
    var elements, parent := CollectChildren(n.children, md);
    return Ok(ComplexType(annotation.value, name, elements, parent));
  }

  /** The loop over the children of the `complexType`: extends the
      element list and updates the parent. */
  method CollectChildren(children: seq<XmlNode>, md: string -> string)
    returns (elements: seq<SE.SequenceElement>, parent: Option<string>)
    ensures elements == TypeElements(children, md)
    ensures parent == TypeParent(children)
  {
    elements := [];
    parent := None;
    var i := 0;
    while i < |children|
      invariant 0 <= i <= |children|
      invariant elements == TypeElements(children[..i], md)
      invariant parent == TypeParent(children[..i])
    {
      FlatMapSnoc(children, i, (c: XmlNode) => ChildElements(c, md));
      assert TypeParent(children[..i + 1]) == ChildParent(children[i], TypeParent(children[..i])) by {
        assert children[..i + 1][..i] == children[..i];
      }
      var more;
      more, parent := ChildContribution(children[i], parent, md);
      elements := elements + more;
      i := i + 1;
    }
    assert children[..i] == children;
  }

  /** The parent after one child of a `complexType`. */
  function ChildParent(c: XmlNode, parent: Option<string>): Option<string>
  {
    if IsXsd(c, "complexContent") then ContentParent(c.children, parent) else parent
  }

  /** The body of the loop over the children, for one child. */
  method ChildContribution(child: XmlNode, parent0: Option<string>, md: string -> string)
    returns (elements: seq<SE.SequenceElement>, parent: Option<string>)
    ensures elements == ChildElements(child, md)
    ensures parent == ChildParent(child, parent0)
  {
    elements := [];
    parent := parent0;
    if IsXsd(child, "sequence") {
      elements := Elements(child.children, md);
    } else if IsXsd(child, "complexContent") {
      elements, parent := CollectContent(child.children, parent, md);
    }
  }

  /** Elements are gathered in document order: the elements of `a + b`
      are those of `a` followed by those of `b`. */
  lemma TypeElementsAppend(a: seq<XmlNode>, b: seq<XmlNode>, md: string -> string)
    ensures TypeElements(a + b, md) == TypeElements(a, md) + TypeElements(b, md)
  {
    FlatMapAppend(a, b, (c: XmlNode) => ChildElements(c, md));
  }

  /** Without any `complexContent` child the type has no parent. */
  lemma {:induction false} NoContentNoParent(cs: seq<XmlNode>)
    requires forall i :: 0 <= i < |cs| ==> !IsXsd(cs[i], "complexContent")
    ensures TypeParent(cs) == None
  {
    if cs != [] {
      NoContentNoParent(cs[..|cs| - 1]);
    }
  }

  /** A later extension replaces the parent an earlier one set. */
  lemma LastExtensionWins(cs: seq<XmlNode>, ext: XmlNode, parent: Option<string>)
    requires IsXsd(ext, "extension")
    ensures ContentParent(cs + [ext], parent) == Attr(ext, "base")
  {
    assert (cs + [ext])[..|cs|] == cs;
  }

  /** The property entries of the elements, in order. */
  function PropertyPairs(es: seq<SE.SequenceElement>, elementSchema: SE.SequenceElement -> Schema): (r: seq<(string, RefOr<Schema>)>)
    ensures |r| == |es|
    ensures forall i :: 0 <= i < |es| ==> r[i] == (es[i].name, Item(elementSchema(es[i])))
  {
    Map(es, (e: SE.SequenceElement) => (e.name, Item(elementSchema(e))))
  }

  function Names(es: seq<SE.SequenceElement>): (r: seq<string>)
    ensures |r| == |es|
    ensures forall i :: 0 <= i < |es| ==> r[i] == es[i].name
  {
    Map(es, (e: SE.SequenceElement) => e.name)
  }

  /** `From<&ComplexType> for Schema`; `elementSchema` stands for the
      schema of each sequence element. The properties are collected into
      an insertion-ordered map. */
  function ToSchema(c: ComplexType, elementSchema: SE.SequenceElement -> Schema): (r: Schema)
    ensures r.data.title == Some(c.name) && r.data.description == c.annotation.description
    ensures r.data.deprecated == c.annotation.deprecated
    ensures c.parent.None? ==> r.kind.TypeKind?
    ensures c.parent.Some? ==> r.kind.AllOf? && |r.kind.allOf| == 2 && r.kind.allOf[0] == Ref(ComponentRef(c.parent.value))
  {
    var body := TypeKind(ObjectType(
      InsertAll([], PropertyPairs(c.sequenceElements, elementSchema)),
      Names(c.sequenceElements),
      Some(false)));
    var data := SchemaData(false, false, c.annotation.deprecated, Some(c.name), c.annotation.description, None);
    match c.parent
    case None => Schema(data, body)
    case Some(reference) => Schema(data, AllOf([Ref(ComponentRef(reference)), Item(Schema(DefaultData, body))]))
  }

  /** The object schema (the whole schema, or the last `allOf` member
      under a parent, with default data): every element is a property
      holding the schema of its last element of that name, every element
      name is required, and nothing else is allowed. With distinct names
      the properties are exactly the elements, in order. */
  lemma ObjectOfSchema(c: ComplexType, elementSchema: SE.SequenceElement -> Schema, i: nat)
    requires i < |c.sequenceElements|
    ensures var s := ToSchema(c, elementSchema);
      var o := if c.parent.None? then s else s.kind.allOf[1].item;
      var pairs := PropertyPairs(c.sequenceElements, elementSchema);
      && o.kind.TypeKind? && o.kind.schemaType.ObjectType?
      && o.kind.schemaType.required == Names(c.sequenceElements)
      && Get(o.kind.schemaType.properties, c.sequenceElements[i].name) == LastValue(pairs, c.sequenceElements[i].name)
      && LastValue(pairs, c.sequenceElements[i].name).Some?
      && ((forall j, k :: 0 <= j < k < |c.sequenceElements| ==> c.sequenceElements[j].name != c.sequenceElements[k].name)
            ==> o.kind.schemaType.properties == pairs)
      && o.kind.schemaType.additionalProperties == Some(false)
      && (c.parent.Some? ==> o.data == DefaultData)
  {
    var es := c.sequenceElements;
    var pairs := PropertyPairs(es, elementSchema);
    var s := ToSchema(c, elementSchema);
    var o := if c.parent.None? then s else s.kind.allOf[1].item;
    assert o.kind == TypeKind(ObjectType(InsertAll([], pairs), Names(es), Some(false)));
    GetInsertAll([], pairs, es[i].name);
    assert pairs[i].0 == es[i].name;
    if forall j, k :: 0 <= j < k < |es| ==> es[j].name != es[k].name {
      assert forall j, k :: 0 <= j < k < |pairs| ==> pairs[j].0 != pairs[k].0;
      InsertAllFresh([], pairs);
    }
  }
}
