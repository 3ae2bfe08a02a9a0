/** Type detail pages of the REST documentation: a type's name, the XML
    elements that carry it, its namespace, description, media types and
    super type. Reading the plain text out of HTML is done by a library
    and enters as the function `innerText`. */
module DocType {
  import opened Wrappers
  import opened Strings
  import opened Iter
  import DP = DetailPage
  import Op = Operation

  datatype DocType = DocType(
    typeName: string,
    name: string,
    elements: seq<string>,
    namespace: string,
    description: string,
    mediaTypes: Option<seq<string>>,
    superType: string)

  datatype TypeParseError = DetailPageParseError(pageError: DP.DetailPageError) | CannotFindElementsError

  /** The comma-separated pieces, each trimmed; none holds a comma. */
  function TrimmedPieces(text: string): (r: seq<string>)
    ensures |r| == |Split(text, ",")|
    ensures forall i :: 0 <= i < |r| ==> r[i] == RustTrim(Split(text, ",")[i])
  {
    Map(Split(text, ","), RustTrim)
  }

  /** No element name holds a comma. */
  lemma PiecesHaveNoComma(text: string)
    ensures forall i :: 0 <= i < |TrimmedPieces(text)| ==> !Contains(TrimmedPieces(text)[i], ",")
  {
    var pieces := Split(text, ",");
    var r := TrimmedPieces(text);
    forall i | 0 <= i < |r| ensures !Contains(r[i], ",") {
      SplitPiecesFree(text, ",");
      assert pieces[i] in pieces;
      assert !Contains(pieces[i], ",");
      TrimKeepsFree(pieces[i], ",");
    }
  }

  /** The element names: the trimmed pieces, each once, in the order of
      their first occurrence. */
  function Elements(text: string): (r: seq<string>)
    ensures Distinct(r)
    ensures forall k :: 0 <= k < |r| ==> r[k] in TrimmedPieces(text)
    ensures forall i :: 0 <= i < |TrimmedPieces(text)| ==> TrimmedPieces(text)[i] in r
  {
    Dedup(TrimmedPieces(text))
  }

  /** The elements keep the order in which they first occur. */
  lemma ElementsOrder(text: string)
    ensures var t, r := TrimmedPieces(text), Elements(text);
      forall k, l :: 0 <= k < l < |r| ==> IndexOf(t, r[k]) < IndexOf(t, r[l])
  {
    DedupOrder(TrimmedPieces(text));
  }

  /** Trimming removes characters from the ends, so it cannot create an
      occurrence of a non-whitespace separator. */
  lemma TrimKeepsFree(s: string, sep: string)
    requires !Contains(s, sep)
    ensures !Contains(RustTrim(s), sep)
  {
    var t := TrimStart(s, IsRustWhitespace);
    var r := TrimEnd(t, IsRustWhitespace);
    assert RustTrim(s) == r;
    SliceKeepsFree(s, t, |s| - |t|, sep);
    SliceKeepsFree(t, r, 0, sep);
  }

  /** A slice of a string free of `sep` is free of it too. */
  lemma SliceKeepsFree(s: string, r: string, off: nat, sep: string)
    requires off + |r| <= |s| && r == s[off..off + |r|]
    requires !Contains(s, sep)
    ensures !Contains(r, sep)
  {
    forall j: nat | j <= |r| && OccursAt(r, sep, j) ensures false {
      forall k | 0 <= k < |sep| ensures s[off + j..off + j + |sep|][k] == sep[k] {
        assert r[j + k] == s[off + j + k];
      }
      assert s[off + j..off + j + |sep|] == sep;
      assert OccursAt(s, sep, off + j);
    }
  }

  /** A single name, with spaces around it, is the one element. */
  lemma SingleElement(text: string)
    requires !Contains(text, ",")
    ensures Elements(text) == [RustTrim(text)]
  {
    assert Split(text, ",") == [text];
    var t := TrimmedPieces(text);
    assert |t| == 1 && t[0] == RustTrim(text);
    assert t == [t[0]];
    DedupSingle(t[0]);
  }

  /** The component-name prefix of each known namespace. */
  function NamespacePrefix(namespace: string): (r: Option<string>)
  {
    if namespace == "http://www.vmware.com/vcloud/extension/v1.5" then Some("vcloud-ext_")
    else if namespace == "http://www.vmware.com/vcloud/versions" then Some("versioning_")
    else if namespace == "http://www.vmware.com/vcloud/v1.5" then Some("vcloud_")
    else if namespace == "http://schemas.dmtf.org/ovf/envelope/1" then Some("ovf_")
    else None
  }

  /** The name: the type behind its namespace's prefix, or the type alone
      in an unknown namespace. */
  function Name(namespace: string, typeName: string): (r: string)
    ensures EndsWith(r, typeName)
    ensures r == typeName <==> NamespacePrefix(namespace).None?
    ensures NamespacePrefix(namespace).Some? ==> r == NamespacePrefix(namespace).value + typeName
  {
    match NamespacePrefix(namespace)
    case None => typeName
    case Some(prefix) =>
      var r := prefix + typeName;
      assert r[|r| - |typeName|..] == typeName;
      r
  }

  /** Each known namespace has its own prefix, and each prefix ends in
      `_`. */
  lemma PrefixesDistinct(a: string, b: string)
    requires NamespacePrefix(a).Some? && NamespacePrefix(b).Some? && a != b
    ensures NamespacePrefix(a) != NamespacePrefix(b)
    ensures EndsWith(NamespacePrefix(a).value, "_")
  {
  }

  /** The text of the first value under `key`, as `innerText` reads it, or
      `""`. */
  function InnerTextOf(dl: DP.DefinitionList, key: string, innerText: string -> string): (r: string)
    ensures DP.Find(dl, key).None? ==> r == []
    ensures DP.Find(dl, key).Some? && DP.AsText(DP.Find(dl, key).value).None? ==> r == []
    ensures DP.Find(dl, key).Some? && DP.AsText(DP.Find(dl, key).value).Some? ==>
      r == innerText(DP.AsText(DP.Find(dl, key).value).value)
  {
    match DP.Find(dl, key)
    case None => []
    case Some(v) => DP.ToInnerText(v, innerText).GetOr([])
  }

  function TextOf(dl: DP.DefinitionList, key: string): Option<string>
  {
    match DP.Find(dl, key)
    case None => None
    case Some(v) => DP.AsText(v)
  }

  /** The text the element names are read from: `Element:` when the page
      has it, even when it holds no text, and `Elements:` otherwise. */
  function ElementsText(dl: DP.DefinitionList): Option<string>
  {
    if DP.Find(dl, "Element:").Some? then TextOf(dl, "Element:") else TextOf(dl, "Elements:")
  }

  /** `Type::try_from(DetailPage)`: the elements come from `Element:`, or
      from `Elements:` only when there is no `Element:`; everything else
      is optional. */
  function FromDetailPage(p: DP.DetailPage, innerText: string -> string): (r: Result<DocType, TypeParseError>)
    ensures r.Err? <==> ElementsText(p.definitionList).None?
    ensures r.Err? ==> r.error == CannotFindElementsError
    ensures r.Ok? ==> r.value.typeName == p.h1 && r.value.name == Name(r.value.namespace, p.h1)
    ensures r.Ok? ==> r.value.elements == Elements(ElementsText(p.definitionList).value)
    ensures r.Ok? ==> r.value.namespace == InnerTextOf(p.definitionList, "Namespace:", innerText)
    ensures r.Ok? ==> r.value.superType == InnerTextOf(p.definitionList, "Extends:", innerText)
    ensures r.Ok? ==> r.value.description == TextOf(p.definitionList, "Description:").GetOr([])
    ensures r.Ok? ==> (r.value.mediaTypes.None? <==> TextOf(p.definitionList, "Media type(s):").None?)
    ensures r.Ok? && r.value.mediaTypes.Some? ==>
      r.value.mediaTypes.value == Dedup(Op.HtmlToMimes(TextOf(p.definitionList, "Media type(s):").value))
  {
    var dl := p.definitionList;
    match DP.Find(dl, "Element:").Or(DP.Find(dl, "Elements:"))
    case None => Err(CannotFindElementsError)
    case Some(v) =>
      match DP.AsText(v)
      case None => Err(CannotFindElementsError)
      case Some(text) =>
        var namespace := InnerTextOf(dl, "Namespace:", innerText);
        var mediaTypes := match TextOf(dl, "Media type(s):")
                          case None => None
                          case Some(t) => Some(Dedup(Op.HtmlToMimes(t)));
        Ok(DocType(p.h1, Name(namespace, p.h1), Elements(text), namespace,
                   TextOf(dl, "Description:").GetOr([]), mediaTypes, InnerTextOf(dl, "Extends:", innerText)))
  }

  /** `Type::try_from(&str)`: page errors come first. */
  function ParseDocType(d: DP.Document, innerText: string -> string): (r: Result<DocType, TypeParseError>)
    ensures DP.ParseDetailPage(d).Err? ==> r == Err(DetailPageParseError(DP.ParseDetailPage(d).error))
    ensures DP.ParseDetailPage(d).Ok? ==> r == FromDetailPage(DP.ParseDetailPage(d).value, innerText)
  {
    match DP.ParseDetailPage(d)
    case Err(e) => Err(DetailPageParseError(e))
    case Ok(p) => FromDetailPage(p, innerText)
  }
}
