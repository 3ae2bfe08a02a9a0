/** `xs:annotation` blocks of the vCloud XSDs (XML Schema Part 1,
    section 3.13): the documentation, flags and content type a type or a
    field carries. */
module Annotation {
  import opened Wrappers
  import opened Strings
  import opened Xml
  import opened Iter

  /** Whether clients may change a field. The reader below never sets it;
      the field readers compare against `NotModifiable`. */
  datatype Modifiable = NotModifiable | Always

  datatype Annotation = Annotation(
    description: Option<string>,
    required: Option<bool>,
    deprecated: bool,
    contentType: Option<string>,
    removed: bool,
    modifiable: Option<Modifiable>)

  datatype AnnotationError = NotAnnotationNode

  /** The annotation that says nothing. */
  const Empty: Annotation := Annotation(None, None, false, None, false, None)

  /** `Annotation::merge`: the options of `a` win, the flags are or-ed. */
  function Merge(a: Annotation, b: Annotation): (r: Annotation)
    ensures r.description == (if a.description.Some? then a.description else b.description)
    ensures r.required == (if a.required.Some? then a.required else b.required)
    ensures r.contentType == (if a.contentType.Some? then a.contentType else b.contentType)
    ensures r.deprecated <==> a.deprecated || b.deprecated
    ensures r.removed <==> a.removed || b.removed
  {
    Annotation(
      a.description.Or(b.description),
      a.required.Or(b.required),
      a.deprecated || b.deprecated,
      a.contentType.Or(b.contentType),
      a.removed || b.removed,
      a.modifiable.Or(b.modifiable))
  }

  /** Merging is associative, so folding a list of annotations does not
      depend on how the merges are grouped. */
  lemma MergeAssociative(a: Annotation, b: Annotation, c: Annotation)
    ensures Merge(Merge(a, b), c) == Merge(a, Merge(b, c))
  {
  }

  /** `Empty` is a unit on both sides, and merging is idempotent. */
  lemma MergeUnitIdempotent(a: Annotation)
    ensures Merge(Empty, a) == a && Merge(a, Empty) == a
    ensures Merge(a, a) == a
  {
  }

  /** The description a child contributes: an XSD `documentation` in
      English or without attributes whose first child is text. */
  function DescriptionOf(n: XmlNode): (r: Option<string>)
    ensures r.Some? <==> IsXsd(n, "documentation") && FirstText(n).Some?
                         && (("lang" in n.attributes && n.attributes["lang"] == "en") || |n.attributes| == 0)
    ensures r.Some? ==> r == FirstText(n)
  {
    if IsXsd(n, "documentation") && (Attr(n, "lang") == Some("en") || |n.attributes| == 0)
    then FirstText(n)
    else None
  }

  /** The `required` flag a child contributes: a `documentation` with
      `source="required"` whose trimmed text is `true` or `false`. */
  function RequiredOf(n: XmlNode): (r: Option<bool>)
    ensures r.Some? <==> IsNamespaced(n, "documentation") && Attr(n, "source") == Some("required")
                         && FirstText(n).Some? && RustTrim(FirstText(n).value) in {"true", "false"}
    ensures r.Some? ==> RustTrim(FirstText(n).value) == (if r.value then "true" else "false")
  {
    if IsNamespaced(n, "documentation") && Attr(n, "source") == Some("required") then
      match FirstText(n)
      case Some(t) =>
        if RustTrim(t) == "true" then Some(true)
        else if RustTrim(t) == "false" then Some(false)
        else None
      case None => None
    else None
  }

  predicate DeprecatedOf(n: XmlNode)
  {
    IsNamespaced(n, "documentation") && Attr(n, "source") == Some("deprecated")
  }

  predicate RemovedOf(n: XmlNode)
  {
    (IsNamespaced(n, "documentation") && Attr(n, "source") == Some("removed-in"))
    || (IsNamespaced(n, "version") && "removed-in" in n.attributes)
  }

  /** The trimmed text of a `content-type` element. */
  function ContentTypeElement(n: XmlNode): (r: Option<string>)
    ensures r.Some? <==> IsNamespaced(n, "content-type") && FirstText(n).Some?
    ensures r.Some? ==> r.value == RustTrim(FirstText(n).value)
  {
    if IsNamespaced(n, "content-type") then MapOption(FirstText(n), RustTrim) else None
  }

  /** The content type an `appinfo` child contributes: its first
      `content-type` element with text. */
  function ContentTypeOf(n: XmlNode): (r: Option<string>)
    ensures r.Some? <==> IsNamespaced(n, "appinfo") && exists i :: 0 <= i < |n.children| && ContentTypeElement(n.children[i]).Some?
    ensures r.Some? ==> exists i :: 0 <= i < |n.children| && ContentTypeElement(n.children[i]) == r
                                    && forall j :: 0 <= j < i ==> ContentTypeElement(n.children[j]).None?
  {
    if IsNamespaced(n, "appinfo") then FindMap(n.children, ContentTypeElement) else None
  }

  predicate AnyDeprecated(children: seq<XmlNode>)
  {
    exists i | 0 <= i < |children| :: DeprecatedOf(children[i])
  }

  predicate AnyRemoved(children: seq<XmlNode>)
  {
    exists i | 0 <= i < |children| :: RemovedOf(children[i])
  }

  /** `TryFrom<&Vec<XMLNode>>`: reads an annotation from sibling nodes.
      It cannot fail, so it returns the annotation itself. `md` stands for
      the HTML-to-markdown conversion of the description. */
  function FromChildren(children: seq<XmlNode>, md: string -> string): (r: Annotation)
    ensures r.description.Some? <==> exists i :: 0 <= i < |children| && DescriptionOf(children[i]).Some?
    ensures r.required.Some? <==> exists i :: 0 <= i < |children| && RequiredOf(children[i]).Some?
    ensures r.deprecated <==> exists i :: 0 <= i < |children| && DeprecatedOf(children[i])
    ensures r.removed <==> exists i :: 0 <= i < |children| && RemovedOf(children[i])
    ensures r.contentType.Some? <==> exists i :: 0 <= i < |children| && ContentTypeOf(children[i]).Some?
    ensures r.description.Some? ==>
      exists i :: (0 <= i < |children| && DescriptionOf(children[i]).Some?
                   && r.description.value == md(DescriptionOf(children[i]).value)
                   && forall j :: 0 <= j < i ==> DescriptionOf(children[j]).None?)
    ensures r.contentType.Some? ==>
      exists i :: (0 <= i < |children| && ContentTypeOf(children[i]) == r.contentType
                   && forall j :: 0 <= j < i ==> ContentTypeOf(children[j]).None?)
    ensures r.modifiable.None?
  {
    Annotation(
      MapOption(FindMap(children, DescriptionOf), md),
      FindMap(children, RequiredOf),
      AnyDeprecated(children),
      FindMap(children, ContentTypeOf),
      AnyRemoved(children),
      None)
  }

  /** The `required` flag comes from the first child that states a valid
      one; children with other text are skipped. */
  lemma RequiredIsFirstValid(children: seq<XmlNode>, md: string -> string, i: nat)
    requires i < |children| && RequiredOf(children[i]).Some?
    requires forall j :: 0 <= j < i ==> RequiredOf(children[j]).None?
    ensures FromChildren(children, md).required == RequiredOf(children[i])
  {
    FindMapAt(children, RequiredOf, i);
  }

  /** The description is the first one a child gives, converted by `md`. */
  lemma DescriptionIsFirst(children: seq<XmlNode>, md: string -> string, i: nat)
    requires i < |children| && DescriptionOf(children[i]).Some?
    requires forall j :: 0 <= j < i ==> DescriptionOf(children[j]).None?
    ensures FromChildren(children, md).description == Some(md(DescriptionOf(children[i]).value))
  {
    FindMapAt(children, DescriptionOf, i);
  }

  /** The content type is the first one an `appinfo` child gives. */
  lemma ContentTypeIsFirst(children: seq<XmlNode>, md: string -> string, i: nat)
    requires i < |children| && ContentTypeOf(children[i]).Some?
    requires forall j :: 0 <= j < i ==> ContentTypeOf(children[j]).None?
    ensures FromChildren(children, md).contentType == ContentTypeOf(children[i])
  {
    FindMapAt(children, ContentTypeOf, i);
  }

  /** The annotation the first XSD `appinfo` child holds. */
  function AppinfoAnnotation(n: XmlNode, md: string -> string): (r: Option<Annotation>)
    ensures r.Some? <==> IsXsd(n, "appinfo")
  {
    if IsXsd(n, "appinfo") then Some(FromChildren(n.children, md)) else None
  }

  /** `TryFrom<&XMLNode>`: an XSD `annotation`; what its first `appinfo`
      says is merged in front of what its direct children say. */
  function FromNode(n: XmlNode, md: string -> string): (r: Result<Annotation, AnnotationError>)
    ensures r.Err? <==> !IsXsd(n, "annotation")
  {
    if IsXsd(n, "annotation") then
      var b := FromChildren(n.children, md);
      match FindMap(n.children, x => AppinfoAnnotation(x, md))
      case Some(a) => Ok(Merge(a, b))
      case None => Ok(b)
    else Err(NotAnnotationNode)
  }

  /** Without an `appinfo` child the annotation is read from the direct
      children alone; with one, its values take precedence. */
  lemma FromNodeAppinfo(n: XmlNode, md: string -> string, i: nat)
    requires IsXsd(n, "annotation")
    requires i < |n.children| && IsXsd(n.children[i], "appinfo")
    requires forall j :: 0 <= j < i ==> !IsXsd(n.children[j], "appinfo")
    ensures FromNode(n, md) == Ok(Merge(FromChildren(n.children[i].children, md), FromChildren(n.children, md)))
  {
    var f := x => AppinfoAnnotation(x, md);
    assert forall j :: 0 <= j < i ==> f(n.children[j]).None?;
    assert f(n.children[i]) == Some(FromChildren(n.children[i].children, md));
    FindMapAt(n.children, f, i);
  }

  lemma FromNodeNoAppinfo(n: XmlNode, md: string -> string)
    requires IsXsd(n, "annotation")
    requires forall j :: 0 <= j < |n.children| ==> !IsXsd(n.children[j], "appinfo")
    ensures FromNode(n, md) == Ok(FromChildren(n.children, md))
  {
    var f := x => AppinfoAnnotation(x, md);
    assert forall j :: 0 <= j < |n.children| ==> f(n.children[j]).None?;
  }

  /** The first annotation among `children` (`flat_map(Annotation::try_from).next()`). */
  function FirstAnnotation(children: seq<XmlNode>, md: string -> string): (r: Option<Annotation>)
    ensures r.Some? <==> exists i :: 0 <= i < |children| && IsXsd(children[i], "annotation")
  {
    FindMap(children, c => FromNode(c, md).ToOption())
  }

  /** Apart from `description`, which wants the XML Schema namespace, the
      readers only ask that a namespace be present, never which one. */
  lemma NamespaceValueIgnored(n: XmlNode, ns: string)
    requires n.Element? && n.namespace.Some?
    ensures RequiredOf(n.(namespace := Some(ns))) == RequiredOf(n)
    ensures DeprecatedOf(n.(namespace := Some(ns))) == DeprecatedOf(n)
    ensures RemovedOf(n.(namespace := Some(ns))) == RemovedOf(n)
    ensures ContentTypeOf(n.(namespace := Some(ns))) == ContentTypeOf(n)
  {
  }

  /** The reader never sets `modifiable`. */
  lemma FromNodeModifiable(n: XmlNode, md: string -> string)
    ensures FromNode(n, md).Ok? ==> FromNode(n, md).value.modifiable.None?
  {
    if IsXsd(n, "annotation") {
      var f := x => AppinfoAnnotation(x, md);
      var a := FindMap(n.children, f);
      if a.Some? {
        var k :| 0 <= k < |n.children| && f(n.children[k]) == a && forall j :: 0 <= j < k ==> f(n.children[j]).None?;
      }
    }
  }
}
