/** Query detail pages of the REST documentation: a query's type name,
    description and record result type. */
module Query {
  import opened Wrappers
  import opened Strings
  import DP = DetailPage

  datatype Query = Query(name: string, description: string, recordResult: string)

  datatype QueryParseError =
    | DetailPageParseError(pageError: DP.DetailPageError)
    | CannotFindTypeName
    | CannotFindDescription
    | CannotFindRecordResult

  /** Splitting on a separator that occurs gives at least two pieces,
      the second running up to the next separator. */
  lemma SplitAtFirst(u: string, sep: string)
    requires sep != []
    ensures |Split(u, sep)| >= 2 <==> Contains(u, sep)
    ensures Contains(u, sep) ==> Split(u, sep)[1] == Split(u[Strings.Find(u, sep).value + |sep|..], sep)[0]
  {
  }

  /** The record result: the link text in `…>Name</a>)`, that is the
      piece between the first and second `>` once the closing `</a>)` is
      removed. */
  function RecordResult(t: string): (r: Option<string>)
    ensures r.Some? <==> EndsWith(t, "</a>)") && Contains(t[..|t| - 5], ">")
    ensures r.Some? ==> !Contains(r.value, ">") && r.value == Split(t[..|t| - 5], ">")[1]
  {
    match StripSuffix(t, "</a>)")
    case None => None
    case Some(u) =>
      SplitAtFirst(u, ">");
      var pieces := Split(u, ">");
      if |pieces| >= 2 then
        SplitPiecesFree(u, ">");
        assert pieces[1] in pieces;
        Some(pieces[1])
      else None
  }

  /** A link whose text holds no `>`, after an opening tag holding none
      either, yields that text. */
  lemma RecordResultOfLink(tag: string, name: string)
    requires '>' !in tag && '>' !in name
    ensures RecordResult(tag + ">" + name + "</a>)") == Some(name)
  {
    var t := tag + ">" + name + "</a>)";
    assert EndsWith(t, "</a>)") by {
      assert t[|t| - 5..] == "</a>)";
    }
    var u := t[..|t| - 5];
    assert u == tag + ">" + name;
    assert OccursAt(u, ">", |tag|);
    assert forall j: nat :: j < |tag| ==> !OccursAt(u, ">", j) by {
      forall j: nat | j < |tag| ensures !OccursAt(u, ">", j) {
        assert u[j] == tag[j];
        assert u[j..j + 1] == [u[j]];
      }
    }
    var f := Strings.Find(u, ">");
    assert f == Some(|tag|);
    assert u[|tag| + 1..] == name;
    assert !Contains(name, ">") by {
      forall j: nat | j <= |name| ensures !OccursAt(name, ">", j) {
        if j + 1 <= |name| {
          assert name[j..j + 1] == [name[j]];
        }
      }
    }
    assert Split(name, ">") == [name];
    SplitAtFirst(u, ">");
  }

  /** `Query::try_from(DetailPage)`: the first failing field, in the
      order name, description, record result, decides the error. */
  function FromDetailPage(p: DP.DetailPage, md: string -> string): (r: Result<Query, QueryParseError>)
    ensures r == Err(CannotFindTypeName) <==> TypeName(p.definitionList).None?
    ensures r == Err(CannotFindDescription) <==>
      TypeName(p.definitionList).Some? && DP.MarkdownOf(p.definitionList, "Description:", md).None?
    ensures r == Err(CannotFindRecordResult) <==>
      TypeName(p.definitionList).Some? && DP.MarkdownOf(p.definitionList, "Description:", md).Some?
      && RecordResultOf(p.definitionList).None?
    ensures r.Ok? ==> r == Ok(Query(TypeName(p.definitionList).value,
                                    DP.MarkdownOf(p.definitionList, "Description:", md).value,
                                    RecordResultOf(p.definitionList).value))
  {
    var dl := p.definitionList;
    match TypeName(dl)
    case None => Err(CannotFindTypeName)
    case Some(name) =>
      match DP.MarkdownOf(dl, "Description:", md)
      case None => Err(CannotFindDescription)
      case Some(description) =>
        match RecordResultOf(dl)
        case None => Err(CannotFindRecordResult)
        case Some(recordResult) => Ok(Query(name, description, recordResult))
  }

  /** The text of the first `Type Name:` entry, verbatim. */
  function TypeName(dl: DP.DefinitionList): (r: Option<string>)
    ensures r.Some? <==> DP.Find(dl, "Type Name:").Some? && DP.AsText(DP.Find(dl, "Type Name:").value).Some?
    ensures r.Some? ==> r == DP.AsText(DP.Find(dl, "Type Name:").value)
  {
    match DP.Find(dl, "Type Name:")
    case None => None
    case Some(v) => DP.AsText(v)
  }

  /** The record result of the first `Record Result:` entry. */
  function RecordResultOf(dl: DP.DefinitionList): (r: Option<string>)
    ensures r.Some? ==> DP.Find(dl, "Record Result:").Some? && DP.AsText(DP.Find(dl, "Record Result:").value).Some?
    ensures DP.Find(dl, "Record Result:").Some? && DP.AsText(DP.Find(dl, "Record Result:").value).Some? ==>
      r == RecordResult(DP.AsText(DP.Find(dl, "Record Result:").value).value)
  {
    match DP.Find(dl, "Record Result:")
    case None => None
    case Some(v) =>
      match DP.AsText(v)
      case None => None
      case Some(t) => RecordResult(t)
  }

  /** `Query::try_from(&str)`: page errors come first. */
  function ParseQuery(d: DP.Document, md: string -> string): (r: Result<Query, QueryParseError>)
    ensures DP.ParseDetailPage(d).Err? ==> r == Err(DetailPageParseError(DP.ParseDetailPage(d).error))
    ensures DP.ParseDetailPage(d).Ok? ==> r == FromDetailPage(DP.ParseDetailPage(d).value, md)
  {
    match DP.ParseDetailPage(d)
    case Err(e) => Err(DetailPageParseError(e))
    case Ok(p) => FromDetailPage(p, md)
  }
}
