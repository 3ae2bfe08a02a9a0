/** Operation detail pages of the REST documentation: the HTTP method and
    path from the heading, the media types, query parameters and flags
    from the definition list, and their OpenAPI rendering. Converting HTML
    to Markdown and reading media types and element names out of example
    HTML are done by libraries and enter as the functions `md`,
    `mediaTypeOf` and `elementOf`. */
module Operation {
  import opened Wrappers
  import opened Strings
  import opened Iter
  import IM = IndexMaps
  import OA = OpenApi
  import DP = DetailPage

  datatype Method = Get | Post | Put | Delete

  /** The token each method is written as. */
  function MethodName(m: Method): string
  {
    match m
    case Get => "GET"
    case Post => "POST"
    case Put => "PUT"
    case Delete => "DELETE"
  }

  datatype MethodParseError = UnknownMethodError(input: string)

  /** `Method::from_str`: exactly the four upper-case tokens. */
  function ParseMethod(s: string): (r: Result<Method, MethodParseError>)
    ensures r.Ok? ==> MethodName(r.value) == s
    ensures r.Err? ==> r.error == UnknownMethodError(s) && forall m: Method :: MethodName(m) != s
  {
    if s == "GET" then Ok(Get)
    else if s == "POST" then Ok(Post)
    else if s == "PUT" then Ok(Put)
    else if s == "DELETE" then Ok(Delete)
    else Err(UnknownMethodError(s))
  }

  /** Every method reads back from its token. */
  lemma ParseMethodName(m: Method)
    ensures ParseMethod(MethodName(m)) == Ok(m)
  {
    match m
    case Get =>
    case Post =>
    case Put =>
    case Delete =>
  }

  // Media types.

  predicate IsMimePiece(t: string)
  {
    !(t == [] || t == "None")
  }

  /** `html_to_mimes`: the pieces between `<br>`s, without empty and
      `None` pieces, in order. */
  function HtmlToMimes(html: string): (r: seq<string>)
    ensures forall k :: 0 <= k < |r| ==> IsMimePiece(r[k]) && !Contains(r[k], "<br>") && r[k] in Split(html, "<br>")
    ensures forall i :: 0 <= i < |Split(html, "<br>")| && IsMimePiece(Split(html, "<br>")[i]) ==> Split(html, "<br>")[i] in r
    ensures r == Iter.Filter(Split(html, "<br>"), IsMimePiece)
  {
    SplitPiecesFree(html, "<br>");
    Iter.Filter(Split(html, "<br>"), IsMimePiece)
  }

  /** A single media type without separators reads as itself. */
  lemma SingleMime(html: string)
    requires IsMimePiece(html) && !Contains(html, "<br>")
    ensures HtmlToMimes(html) == [html]
  {
    assert Split(html, "<br>") == [html];
    assert Iter.Filter([html][1..], IsMimePiece) == [];
  }

  /** The value of the first example pair whose key equals `mime` ignoring
      ASCII case. */
  function MatchingValue(mime: string, second: seq<(string, string)>): (r: Option<string>)
    ensures r.None? <==> forall j :: 0 <= j < |second| ==> !EqIgnoreAsciiCase(mime, second[j].0)
    ensures r.Some? ==> exists j :: (0 <= j < |second| && EqIgnoreAsciiCase(mime, second[j].0) && r.value == second[j].1
                                     && forall k :: 0 <= k < j ==> !EqIgnoreAsciiCase(mime, second[k].0))
  {
    var f := (p: (string, string)) => if EqIgnoreAsciiCase(mime, p.0) then Some(p.1) else None;
    assert forall j :: 0 <= j < |second| ==> (f(second[j]).Some? <==> EqIgnoreAsciiCase(mime, second[j].0));
    FindMap(second, f)
  }

  function Pairing(second: seq<(string, string)>): string -> (string, string)
  {
    mime => (mime, MatchingValue(mime, second).GetOr(""))
  }

  /** `merge_mimes`: each declared media type paired with the element its
      first matching example names, or with `""`. */
  function MergeMimes(first: seq<string>, second: seq<(string, string)>): (r: seq<(string, string)>)
    requires Distinct(first)
    ensures |r| == |first|
    ensures forall i :: 0 <= i < |first| ==> r[i].0 == first[i] && r[i].1 == MatchingValue(first[i], second).GetOr("")
  {
    var pairs := Map(first, Pairing(second));
    assert Distinct(pairs) by {
      forall i, j | 0 <= i < j < |pairs| ensures pairs[i] != pairs[j] {
        assert pairs[i].0 == first[i] && pairs[j].0 == first[j];
      }
    }
    DedupDistinct(pairs);
    var r := Dedup(pairs);
    if r == [] then Map(first, (mime: string) => (mime, "")) else r
  }

  /** An example that matches no declared media type leaves every
      element empty. */
  lemma MergeWithoutExamples(first: seq<string>)
    requires Distinct(first)
    ensures forall i :: 0 <= i < |first| ==> MergeMimes(first, [])[i] == (first[i], "")
  {
  }

  /** The pairs that the examples under `key` give: a media type and an
      element, both read out of the example's HTML. */
  function ExampleContent(key: string, mediaTypeOf: string -> Option<string>, elementOf: string -> Option<string>)
    : ((string, DP.DefinitionListValue)) -> Option<(string, string)>
  {
    (p: (string, DP.DefinitionListValue)) =>
      if p.0 == key && (p.0 == "Request" || p.0 == "Response") then
        match DP.AsText(p.1)
        case None => None
        case Some(l) =>
          if mediaTypeOf(l).Some? && elementOf(l).Some? then Some((mediaTypeOf(l).value, elementOf(l).value)) else None
      else None
  }

  /** Whether example entry `p`, read for `key`, gives the pair `x`: it
      is keyed `key`, which is `Request` or `Response`, and both the
      media type and the element can be read out of its text. */
  predicate ExampleGives(p: (string, DP.DefinitionListValue), key: string,
                         mediaTypeOf: string -> Option<string>, elementOf: string -> Option<string>, x: (string, string))
  {
    && p.0 == key && (key == "Request" || key == "Response")
    && DP.AsText(p.1).Some?
    && mediaTypeOf(DP.AsText(p.1).value) == Some(x.0)
    && elementOf(DP.AsText(p.1).value) == Some(x.1)
  }

  /** `get_content_media_types_from_examples`: the distinct pairs the
      `Examples` sublist gives for `key`, in order of first occurrence. */
  function ExamplesMimes(dl: DP.DefinitionList, key: string, mediaTypeOf: string -> Option<string>, elementOf: string -> Option<string>)
    : (r: Option<seq<(string, string)>>)
    ensures r.Some? <==> DP.Find(dl, "Examples").Some? && DP.AsSublist(DP.Find(dl, "Examples").value).Some?
    ensures r.Some? ==> Distinct(r.value)
    ensures r.Some? ==>
      var e := DP.AsSublist(DP.Find(dl, "Examples").value).value;
      forall x :: x in r.value <==> exists i :: 0 <= i < |e| && ExampleGives(e[i], key, mediaTypeOf, elementOf, x)
    ensures r.Some? ==>
      r.value == Dedup(FilterMap(DP.AsSublist(DP.Find(dl, "Examples").value).value, ExampleContent(key, mediaTypeOf, elementOf)))
  {
    match DP.Find(dl, "Examples")
    case None => None
    case Some(v) =>
      match DP.AsSublist(v)
      case None => None
      case Some(e) =>
        var f := ExampleContent(key, mediaTypeOf, elementOf);
        assert forall i, x :: 0 <= i < |e| ==> (f(e[i]) == Some(x) <==> ExampleGives(e[i], key, mediaTypeOf, elementOf, x));
        Some(Dedup(FilterMap(e, f)))
  }

  /** The text of the first `innerKey` entry of the sublist of the first
      `outerKey` entry. */
  function SectionText(dl: DP.DefinitionList, outerKey: string, innerKey: string): Option<string>
  {
    match DP.Find(dl, outerKey)
    case None => None
    case Some(v) =>
      match DP.AsSublist(v)
      case None => None
      case Some(l) =>
        match DP.Find(l, innerKey)
        case None => None
        case Some(w) => DP.AsText(w)
  }

  /** The media types listed under `innerKey` in the `outerKey` section:
      its `<br>`-separated pieces that are neither empty nor `None`, each
      once, in order of first occurrence. */
  function DeclaredMimes(dl: DP.DefinitionList, outerKey: string, innerKey: string): (r: Option<seq<string>>)
    ensures r.Some? <==> SectionText(dl, outerKey, innerKey).Some?
    ensures r.Some? ==> Distinct(r.value)
    ensures r.Some? ==> forall x :: x in r.value <==> IsMimePiece(x) && x in Split(SectionText(dl, outerKey, innerKey).value, "<br>")
    ensures r.Some? ==> r.value == Dedup(HtmlToMimes(SectionText(dl, outerKey, innerKey).value))
  {
    match DP.Find(dl, outerKey)
    case None => None
    case Some(v) =>
      match DP.AsSublist(v)
      case None => None
      case Some(l) =>
        match DP.Find(l, innerKey)
        case None => None
        case Some(w) =>
          match DP.AsText(w)
          case None => None
          case Some(t) =>
            var pieces := Split(t, "<br>");
            assert forall x :: x in pieces ==> exists i :: 0 <= i < |pieces| && pieces[i] == x;
            Some(Dedup(HtmlToMimes(t)))
  }

  /** The request or response contents: the declared media types merged
      with the examples; empty when either is missing. */
  function Contents(dl: DP.DefinitionList, outerKey: string, innerKey: string, exampleKey: string,
                    mediaTypeOf: string -> Option<string>, elementOf: string -> Option<string>): (r: seq<(string, string)>)
    ensures r != [] ==> DeclaredMimes(dl, outerKey, innerKey).Some? && ExamplesMimes(dl, exampleKey, mediaTypeOf, elementOf).Some?
    ensures (DeclaredMimes(dl, outerKey, innerKey).Some? && ExamplesMimes(dl, exampleKey, mediaTypeOf, elementOf).Some?) ==>
      |r| == |DeclaredMimes(dl, outerKey, innerKey).value|
      && forall i :: 0 <= i < |r| ==>
           && r[i].0 == DeclaredMimes(dl, outerKey, innerKey).value[i]
           && r[i].1 == MatchingValue(r[i].0, ExamplesMimes(dl, exampleKey, mediaTypeOf, elementOf).value).GetOr("")
  {
    match DeclaredMimes(dl, outerKey, innerKey)
    case None => []
    case Some(mimes) =>
      match ExamplesMimes(dl, exampleKey, mediaTypeOf, elementOf)
      case None => []
      case Some(ex) => MergeMimes(mimes, ex)
  }

  // Query parameters.

  datatype QueryParameter = QueryParameter(name: string, description: Option<string>)

  /** The entries of the query-parameter sublist that have text. */
  function QueryEntry(p: (string, DP.DefinitionListValue)): Option<(string, string)>
  {
    match DP.AsText(p.1)
    case None => None
    case Some(v) => Some((p.0, v))
  }

  /** One step of the fold: `Parameter` sets the pending name;
      `Documentation` with a pending name emits a parameter and clears it;
      anything else keeps the state. */
  function QueryStep(state: (Option<string>, seq<QueryParameter>), e: (string, string), md: string -> string)
    : (Option<string>, seq<QueryParameter>)
  {
    var (name, acc) := state;
    if e.0 == "Parameter" then (Some(e.1), acc)
    else if e.0 == "Documentation" && name.Some? then
      (None, acc + [QueryParameter(name.value, if e.1 == [] then None else Some(md(e.1)))])
    else (name, acc)
  }

  function QueryFold(es: seq<(string, string)>, md: string -> string): (Option<string>, seq<QueryParameter>)
  {
    if es == [] then (None, []) else QueryStep(QueryFold(es[..|es| - 1], md), es[|es| - 1], md)
  }

  lemma QueryFoldSnoc(es: seq<(string, string)>, e: (string, string), md: string -> string)
    ensures QueryFold(es + [e], md) == QueryStep(QueryFold(es, md), e, md)
  {
    assert (es + [e])[..|es|] == es;
  }

  lemma CollectStep(s: DP.DefinitionList, i: nat, md: string -> string)
    requires i < |s|
    ensures QueryFold(FilterMap(s[..i + 1], QueryEntry), md)
      == match DP.AsText(s[i].1)
         case None => QueryFold(FilterMap(s[..i], QueryEntry), md)
         case Some(v) => QueryStep(QueryFold(FilterMap(s[..i], QueryEntry), md), (s[i].0, v), md)
  {
    FilterMapSnoc(s, i, QueryEntry);
    var es := FilterMap(s[..i], QueryEntry);
    match DP.AsText(s[i].1)
    case None =>
      assert QueryEntry(s[i]).None?;
      assert FilterMap(s[..i + 1], QueryEntry) == es;
    case Some(v) =>
      assert QueryEntry(s[i]) == Some((s[i].0, v));
      assert FilterMap(s[..i + 1], QueryEntry) == es + [(s[i].0, v)];
      QueryFoldSnoc(es, (s[i].0, v), md);
  }

  /** The fold over the text entries of the `Query parameters` sublist,
      pushing each parameter it completes. */
  method CollectQueryParameters(s: DP.DefinitionList, md: string -> string) returns (ps: seq<QueryParameter>)
    ensures ps == QueryFold(FilterMap(s, QueryEntry), md).1
  {
    var name: Option<string> := None;
    ps := [];
    var i := 0;
    while i < |s|
      invariant 0 <= i <= |s|
      invariant QueryFold(FilterMap(s[..i], QueryEntry), md) == (name, ps)
    {
      CollectStep(s, i, md);
      var text := DP.AsText(s[i].1);
      if text.Some? {
        ghost var before := (name, ps);
        var v := text.value;
        if s[i].0 == "Parameter" {
          name := Some(v);
        } else if s[i].0 == "Documentation" && name.Some? {
          ps := ps + [QueryParameter(name.value, if v == [] then None else Some(md(v)))];
          name := None;
        }
        assert (name, ps) == QueryStep(before, (s[i].0, v), md);
      }
      i := i + 1;
    }
    assert s[..i] == s;
  }

  /** `Parameter` then `Documentation` emits one parameter, whose
      description is absent exactly when the documentation is empty. */
  lemma ParameterThenDocumentation(es: seq<(string, string)>, n: string, d: string, md: string -> string)
    ensures QueryFold(es + [("Parameter", n), ("Documentation", d)], md)
      == (None, QueryFold(es, md).1 + [QueryParameter(n, if d == [] then None else Some(md(d)))])
  {
    var s := es + [("Parameter", n), ("Documentation", d)];
    assert s[..|s| - 1] == es + [("Parameter", n)];
    assert (es + [("Parameter", n)])[..|es|] == es;
  }

  /** `Documentation` without a pending name is ignored. */
  lemma OrphanDocumentationIgnored(es: seq<(string, string)>, d: string, md: string -> string)
    requires QueryFold(es, md).0.None?
    ensures QueryFold(es + [("Documentation", d)], md) == QueryFold(es, md)
  {
    assert (es + [("Documentation", d)])[..|es|] == es;
  }

  /** Every parameter is named by a `Parameter` entry. */
  lemma {:induction false} ParameterNamesFromEntries(es: seq<(string, string)>, md: string -> string)
    ensures QueryFold(es, md).0.Some? ==> ("Parameter", QueryFold(es, md).0.value) in es
    ensures forall k :: 0 <= k < |QueryFold(es, md).1| ==> ("Parameter", QueryFold(es, md).1[k].name) in es
  {
    if es != [] {
      var n := |es| - 1;
      ParameterNamesFromEntries(es[..n], md);
      assert es == es[..n] + [es[n]];
      assert forall e :: e in es[..n] ==> e in es;
    }
  }

  /** The `Query parameters` section, or none. */
  function QueryParameters(dl: DP.DefinitionList, md: string -> string): (r: seq<QueryParameter>)
    ensures (DP.Find(dl, "Query parameters").None? || DP.AsSublist(DP.Find(dl, "Query parameters").value).None?) ==> r == []
    ensures DP.Find(dl, "Query parameters").Some? && DP.AsSublist(DP.Find(dl, "Query parameters").value).Some? ==>
      var s := DP.AsSublist(DP.Find(dl, "Query parameters").value).value;
      r == QueryFold(FilterMap(s, QueryEntry), md).1
  {
    match DP.Find(dl, "Query parameters")
    case None => []
    case Some(v) =>
      match DP.AsSublist(v)
      case None => []
      case Some(s) => QueryFold(FilterMap(s, QueryEntry), md).1
  }

  // The operation.

  datatype Operation = Operation(
    httpMethod: Method,
    path: string,
    description: string,
    tag: string,
    requestContents: seq<(string, string)>,
    responseDescription: Option<string>,
    responseContents: seq<(string, string)>,
    basicAuth: bool,
    deprecated: bool,
    queryParameters: seq<QueryParameter>)

  datatype OperationParseError =
    | DetailPageParseError(pageError: DP.DetailPageError)
    | CannotFindMethodError
    | MethodParseError(methodError: MethodParseError)
    | CannotFindPathError
    | CannotFindDescriptionError

  /** The tag grouping an operation by its path. */
  function Tag(path: string): (r: string)
    ensures r == "extension" <==> StartsWith(path, "/admin/extension")
    ensures r == "admin" <==> StartsWith(path, "/admin") && !StartsWith(path, "/admin/extension")
    ensures r == "user" <==> !StartsWith(path, "/admin")
  {
    if StartsWith(path, "/admin/extension") then
      assert path[..6] == path[..16][..6];
      "extension"
    else if StartsWith(path, "/admin") then "admin"
    else "user"
  }

  /** Whether the request example uses basic authentication. */
  function BasicAuth(dl: DP.DefinitionList): bool
  {
    match DP.Find(dl, "Examples")
    case None => false
    case Some(v) =>
      match DP.AsSublist(v)
      case None => false
      case Some(d) =>
        match DP.Find(d, "Request")
        case None => false
        case Some(w) =>
          match DP.AsText(w)
          case None => false
          case Some(t) => Contains(t, "Authorization:&nbsp;Basic")
  }

  /** Whether any entry is keyed `Deprecated:`. */
  function Deprecated(dl: DP.DefinitionList): (r: bool)
    ensures r <==> exists i :: 0 <= i < |dl| && dl[i].0 == "Deprecated:"
  {
    DP.FilterNonEmpty(dl, "Deprecated:");
    DP.Filter(dl, "Deprecated:") != []
  }

  /** `Operation::try_from(DetailPage)`: the method is the first word of
      the heading and the path everything after its first space; a
      missing method, path or description is an error, checked in that
      order. */
  function FromDetailPage(p: DP.DetailPage, md: string -> string,
                          mediaTypeOf: string -> Option<string>, elementOf: string -> Option<string>)
    : (r: Result<Operation, OperationParseError>)
    ensures r == Err(CannotFindMethodError) <==> SplitAsciiWhitespace(p.h1) == []
    ensures (r.Err? && r.error.MethodParseError?) <==>
      SplitAsciiWhitespace(p.h1) != [] && ParseMethod(SplitAsciiWhitespace(p.h1)[0]).Err?
    ensures r.Err? && r.error.MethodParseError? ==> r.error.methodError.input == SplitAsciiWhitespace(p.h1)[0]
    ensures r == Err(CannotFindPathError) <==>
      SplitAsciiWhitespace(p.h1) != [] && ParseMethod(SplitAsciiWhitespace(p.h1)[0]).Ok? && ' ' !in p.h1
    ensures r == Err(CannotFindDescriptionError) <==>
      && SplitAsciiWhitespace(p.h1) != [] && ParseMethod(SplitAsciiWhitespace(p.h1)[0]).Ok? && ' ' in p.h1
      && DP.MarkdownOf(p.definitionList, "Description:", md).None?
    ensures r.Ok? <==>
      && SplitAsciiWhitespace(p.h1) != [] && ParseMethod(SplitAsciiWhitespace(p.h1)[0]).Ok? && ' ' in p.h1
      && DP.MarkdownOf(p.definitionList, "Description:", md).Some?
    ensures r.Ok? ==> MethodName(r.value.httpMethod) == SplitAsciiWhitespace(p.h1)[0]
    ensures r.Ok? ==> exists before :: p.h1 == before + " " + r.value.path && ' ' !in before
    ensures r.Ok? ==> Some(r.value.description) == DP.MarkdownOf(p.definitionList, "Description:", md)
    ensures r.Ok? ==> r.value.tag == Tag(r.value.path)
    ensures r.Ok? ==> r.value.deprecated == Deprecated(p.definitionList)
    ensures r.Ok? ==> r.value.responseDescription == DP.MarkdownOf(p.definitionList, "Output parameters", md)
    ensures r.Ok? ==> r.value.basicAuth == BasicAuth(p.definitionList)
    ensures r.Ok? ==> r.value.queryParameters == QueryParameters(p.definitionList, md)
    ensures r.Ok? ==> r.value.requestContents == Contents(p.definitionList, "Input parameters", "Consume media type(s):", "Request", mediaTypeOf, elementOf)
    ensures r.Ok? ==> r.value.responseContents == Contents(p.definitionList, "Output parameters", "Produce media type(s):", "Response", mediaTypeOf, elementOf)
  {
    var dl := p.definitionList;
    var words := SplitAsciiWhitespace(p.h1);
    if words == [] then Err(CannotFindMethodError)
    else
      match ParseMethod(words[0])
      case Err(e) => Err(MethodParseError(e))
      case Ok(m) =>
        match SplitOnce(p.h1, ' ')
        case None => Err(CannotFindPathError)
        case Some((before, path)) =>
          match DP.MarkdownOf(dl, "Description:", md)
          case None => Err(CannotFindDescriptionError)
          case Some(description) =>
            Ok(Operation(
              m, path, description, Tag(path),
              Contents(dl, "Input parameters", "Consume media type(s):", "Request", mediaTypeOf, elementOf),
              DP.MarkdownOf(dl, "Output parameters", md),
              Contents(dl, "Output parameters", "Produce media type(s):", "Response", mediaTypeOf, elementOf),
              BasicAuth(dl), Deprecated(dl), QueryParameters(dl, md)))
  }

  /** `Operation::try_from(&str)`: the page is read first, and its errors
      come before any of the operation's. */
  function ParseOperation(d: DP.Document, md: string -> string,
                          mediaTypeOf: string -> Option<string>, elementOf: string -> Option<string>)
    : (r: Result<Operation, OperationParseError>)
    ensures DP.ParseDetailPage(d).Err? ==> r == Err(DetailPageParseError(DP.ParseDetailPage(d).error))
    ensures DP.ParseDetailPage(d).Ok? ==> r == FromDetailPage(DP.ParseDetailPage(d).value, md, mediaTypeOf, elementOf)
  {
    match DP.ParseDetailPage(d)
    case Err(e) => Err(DetailPageParseError(e))
    case Ok(p) => FromDetailPage(p, md, mediaTypeOf, elementOf)
  }

  // The OpenAPI rendering.

  /** A media type object whose schema is a component reference. */
  datatype MediaType = MediaType(schema: OA.RefOr<OA.Schema>)

  type Content = IM.IndexMap<string, MediaType>

  /** The media type without its `+json` or `+xml` suffixes. */
  function WithoutFormat(mime: string): string
  {
    TrimEndMatches(TrimEndMatches(mime, "+json"), "+xml")
  }

  /** The content key: the bare media type as versioned JSON. */
  function ContentKey(mime: string, apiVersion: string): (r: string)
    ensures r == WithoutFormat(mime) + "+json;version=" + apiVersion
    ensures EndsWith(r, ";version=" + apiVersion)
  {
    var r := WithoutFormat(mime) + "+json;version=" + apiVersion;
    assert r[|r| - |";version=" + apiVersion|..] == ";version=" + apiVersion;
    r
  }

  function TypeMapped(apiVersion: string, typeMapping: map<string, string>): ((string, string)) -> Option<(string, MediaType)>
  {
    (p: (string, string)) =>
      var w := WithoutFormat(p.0);
      if w in typeMapping then Some((ContentKey(p.0, apiVersion), MediaType(OA.Ref(OA.ComponentRef(typeMapping[w]))))) else None
  }

  function ElementMapped(apiVersion: string, elementMapping: map<string, string>): ((string, string)) -> Option<(string, MediaType)>
  {
    (p: (string, string)) =>
      if p.1 in elementMapping then Some((ContentKey(p.0, apiVersion), MediaType(OA.Ref(OA.ComponentRef(elementMapping[p.1]))))) else None
  }

  /** `mimes_to_content`: one entry per media type whose bare form has a
      type name. */
  function MimesToContent(mimes: seq<(string, string)>, apiVersion: string, typeMapping: map<string, string>): Content
  {
    IM.InsertAll([], FilterMap(mimes, TypeMapped(apiVersion, typeMapping)))
  }

  /** `content_media_types_to_content`: one entry per media type whose
      element has a type name. */
  function ContentMediaTypesToContent(mimes: seq<(string, string)>, apiVersion: string, elementMapping: map<string, string>): Content
  {
    IM.InsertAll([], FilterMap(mimes, ElementMapped(apiVersion, elementMapping)))
  }

  /** The type-mapped entries extended by the element-mapped ones. */
  function FullContent(mimes: seq<(string, string)>, apiVersion: string,
                       typeMapping: map<string, string>, elementMapping: map<string, string>): Content
  {
    IM.InsertAll(MimesToContent(mimes, apiVersion, typeMapping), ContentMediaTypesToContent(mimes, apiVersion, elementMapping))
  }

  /** A content entry exists only for a mapped media type, and the
      element mapping wins over the type mapping. */
  lemma ContentLookup(mimes: seq<(string, string)>, apiVersion: string,
                      typeMapping: map<string, string>, elementMapping: map<string, string>, key: string)
    ensures IM.Get(FullContent(mimes, apiVersion, typeMapping, elementMapping), key)
      == IM.LastValue(FilterMap(mimes, ElementMapped(apiVersion, elementMapping)), key)
         .Or(IM.LastValue(FilterMap(mimes, TypeMapped(apiVersion, typeMapping)), key))
  {
    var es1 := FilterMap(mimes, TypeMapped(apiVersion, typeMapping));
    var es2 := FilterMap(mimes, ElementMapped(apiVersion, elementMapping));
    IM.GetInsertAll([], es1, key);
    IM.GetInsertAll([], es2, key);
    IM.GetInsertAll(IM.InsertAll([], es1), IM.InsertAll([], es2), key);
    LastValueOfCollected(es2, key);
  }

  /** A collected map holds, for each key, the last value given for it. */
  lemma LastValueOfCollected(es: seq<(string, MediaType)>, key: string)
    ensures IM.LastValue(IM.InsertAll([], es), key) == IM.LastValue(es, key)
  {
    var m := IM.InsertAll([], es);
    IM.GetInsertAll([], es, key);
    InsertAllUnique(es);
    LastValueUnique(m, key);
  }

  lemma {:induction false} InsertAllUnique(es: seq<(string, MediaType)>)
    ensures IM.UniqueKeys(IM.InsertAll([], es))
    decreases |es|
  {
    if es != [] {
      var n := |es| - 1;
      InsertAllUnique(es[..n]);
      assert es[..n] + [es[n]] == es;
      IM.InsertAllSnoc([], es[..n], es[n]);
      IM.InsertUnique(IM.InsertAll([], es[..n]), es[n].0, es[n].1);
    }
  }

  /** In a map with unique keys, the last value of a key is its value. */
  lemma {:induction false} LastValueUnique(m: IM.IndexMap<string, MediaType>, key: string)
    requires IM.UniqueKeys(m)
    ensures IM.LastValue(m, key) == IM.Get(m, key)
    decreases |m|
  {
    if m != [] {
      assert IM.UniqueKeys(m[1..]) by {
        forall i, j | 0 <= i < j < |m[1..]| ensures m[1..][i].0 != m[1..][j].0 {
          assert m[1..][i] == m[i + 1] && m[1..][j] == m[j + 1];
        }
      }
      LastValueUnique(m[1..], key);
      if m[0].0 == key {
        assert !IM.HasKey(m[1..], key) by {
          forall i | 0 <= i < |m[1..]| ensures m[1..][i].0 != key {
            assert m[1..][i] == m[i + 1];
          }
        }
      } else {
        assert IM.IndexOf(m, key) == match IM.IndexOf(m[1..], key) case None => None case Some(i) => Some(i + 1);
      }
    }
  }

  /** Every content key is a versioned JSON media type. */
  lemma ContentKeysVersioned(mimes: seq<(string, string)>, apiVersion: string,
                             typeMapping: map<string, string>, elementMapping: map<string, string>, key: string)
    requires IM.HasKey(FullContent(mimes, apiVersion, typeMapping, elementMapping), key)
    ensures exists i :: 0 <= i < |mimes| && key == ContentKey(mimes[i].0, apiVersion)
  {
    var byType, byElement := TypeMapped(apiVersion, typeMapping), ElementMapped(apiVersion, elementMapping);
    assert forall p :: byType(p).Some? ==> byType(p).value.0 == ContentKey(p.0, apiVersion);
    assert forall p :: byElement(p).Some? ==> byElement(p).value.0 == ContentKey(p.0, apiVersion);
    ContentLookup(mimes, apiVersion, typeMapping, elementMapping, key);
    if IM.LastValue(FilterMap(mimes, byElement), key).Some? {
      MappedKeysVersioned(mimes, byElement, apiVersion, key);
    } else {
      MappedKeysVersioned(mimes, byType, apiVersion, key);
    }
  }

  /** The keys either mapping produces come from the media types. */
  lemma MappedKeysVersioned(mimes: seq<(string, string)>, f: ((string, string)) -> Option<(string, MediaType)>,
                            apiVersion: string, key: string)
    requires forall p :: f(p).Some? ==> f(p).value.0 == ContentKey(p.0, apiVersion)
    requires IM.LastValue(FilterMap(mimes, f), key).Some?
    ensures exists i :: 0 <= i < |mimes| && key == ContentKey(mimes[i].0, apiVersion)
  {
    var es := FilterMap(mimes, f);
    var k :| 0 <= k < |es| && es[k].0 == key;
    var i :| 0 <= i < |mimes| && f(mimes[i]) == Some(es[k]);
  }

  datatype StatusCode = Range(range: int) | Code(code: int)

  datatype Response = Response(description: string, content: Content)

  datatype RequestBody = RequestBody(content: Content, required: bool)

  /** A form-style query parameter whose schema is a component reference. */
  datatype QueryParameterObject = QueryParameterObject(name: string, description: Option<string>, required: bool, schema: OA.RefOr<OA.Schema>)

  datatype OpenApiOperation = OpenApiOperation(
    description: Option<string>,
    responses: seq<(StatusCode, Response)>,
    tags: seq<string>,
    requestBody: Option<RequestBody>,
    security: seq<IM.IndexMap<string, seq<string>>>,
    deprecated: bool,
    parameters: seq<QueryParameterObject>)

  function QueryParameterObjectOf(qp: QueryParameter): QueryParameterObject
  {
    QueryParameterObject(qp.name, qp.description, false, OA.Ref(OA.ComponentRef("query-parameter_" + qp.name)))
  }

  /** `Operation::to_openapi`. */
  function ToOpenApi(op: Operation, apiVersion: string, typeMapping: map<string, string>, elementMapping: map<string, string>)
    : (r: OpenApiOperation)
    ensures r.description == Some(op.description) && r.tags == [op.tag] && r.deprecated == op.deprecated
    ensures r.requestBody.Some? <==> FullContent(op.requestContents, apiVersion, typeMapping, elementMapping) != []
    ensures r.requestBody.Some? ==> r.requestBody.value.required
    ensures r.requestBody.Some? ==> r.requestBody.value.content == FullContent(op.requestContents, apiVersion, typeMapping, elementMapping)
    ensures |r.responses| == 1 && r.responses[0].0 == Range(2)
    ensures r.responses[0].1.description == (if op.responseDescription.Some? then op.responseDescription.value else "success")
    ensures r.responses[0].1.content == FullContent(op.responseContents, apiVersion, typeMapping, elementMapping)
    ensures r.security == [[(if op.basicAuth then "basicAuth" else "bearerAuth", [])]]
    ensures |r.parameters| == |op.queryParameters|
    ensures forall i :: 0 <= i < |r.parameters| ==>
      r.parameters[i].name == op.queryParameters[i].name && !r.parameters[i].required
      && r.parameters[i].description == op.queryParameters[i].description
      && r.parameters[i].schema == OA.Ref(OA.ComponentRef("query-parameter_" + op.queryParameters[i].name))
  {
    var request := FullContent(op.requestContents, apiVersion, typeMapping, elementMapping);
    var response := FullContent(op.responseContents, apiVersion, typeMapping, elementMapping);
    OpenApiOperation(
      Some(op.description),
      [(Range(2), Response(op.responseDescription.GetOr("success"), response))],
      [op.tag],
      if request == [] then None else Some(RequestBody(request, true)),
      [[(if op.basicAuth then "basicAuth" else "bearerAuth", [])]],
      op.deprecated,
      Map(op.queryParameters, QueryParameterObjectOf))
  }
}
