/** The cloud-API route extractor: the rendered route articles of the
    documentation, already read out of the page, turned into a map from
    route to its path parameters. */
module CloudApiPaths {
  import opened Wrappers
  import opened Strings
  import opened Iter
  import opened IndexMaps

  /** A table row: the text of its first cell and of its `.type` cell,
      each absent when the row has no such cell. */
  datatype Row = Row(name: Option<string>, typeText: Option<string>)

  /** A parameters table: the text of the element before it, and all its
      rows, the header row first. */
  datatype Table = Table(caption: Option<string>, rows: seq<Row>)

  /** A route article: the route text, absent when the article shows
      none, and its parameter tables. */
  datatype Article = Article(route: Option<string>, tables: seq<Table>)

  datatype Parameter = Parameter(name: string, location: string, required: bool, schemaType: string)

  datatype PathItem = PathItem(parameters: seq<Parameter>)

  const PathParametersCaption := "Path parameters"

  /** The rows after the header row (`tr + tr`). */
  function BodyRows(t: Table): (r: seq<Row>)
    ensures |r| == if t.rows == [] then 0 else |t.rows| - 1
    ensures forall i :: 0 <= i < |r| ==> r[i] == t.rows[i + 1]
  {
    if t.rows == [] then [] else t.rows[1..]
  }

  /** The parameter a row describes: the name up to its first `*`, the
      type trimmed and lower-cased; nothing when a cell is missing. */
  function RowParameter(row: Row): (r: Option<Parameter>)
    ensures r.Some? <==> row.name.Some? && row.typeText.Some?
    ensures r.Some? ==> r.value.location == "path" && r.value.required
    ensures r.Some? ==> StartsWith(row.name.value, r.value.name) && !Contains(r.value.name, "*")
    ensures r.Some? ==> r.value.name == Split(row.name.value, "*")[0]
    ensures r.Some? ==> r.value.schemaType == AsciiLowercase(JsTrim(row.typeText.value))
  {
    if row.name.Some? && row.typeText.Some? then
      Some(Parameter(BeforeFirst(row.name.value, "*"), "path", true, AsciiLowercase(JsTrim(row.typeText.value))))
    else None
  }

  /** The parameters one table contributes: those of its body rows when
      it is captioned "Path parameters", none otherwise. */
  function TableParameters(t: Table): (r: seq<Parameter>)
    ensures t.caption != Some(PathParametersCaption) ==> r == []
    ensures t.caption == Some(PathParametersCaption) ==> r == FilterMap(BodyRows(t), RowParameter)
  {
    if t.caption == Some(PathParametersCaption) then FilterMap(BodyRows(t), RowParameter) else []
  }

  /** The parameters of an article: table by table, row by row. */
  function ArticleParameters(a: Article): seq<Parameter>
  {
    FlatMap(a.tables, TableParameters)
  }

  /** The entry an article contributes, when its route is found. */
  function ArticleEntry(a: Article): (r: Option<(string, PathItem)>)
    ensures r.Some? <==> a.route.Some?
    ensures r.Some? ==> r.value == (a.route.value, PathItem(ArticleParameters(a)))
  {
    if a.route.Some? then Some((a.route.value, PathItem(ArticleParameters(a)))) else None
  }

  /** What the loop leaves in `pathItems`: each article with a route
      assigns its route's entry, a later one replacing an earlier one. */
  function PathsSpec(articles: seq<Article>): IndexMap<string, PathItem>
  {
    InsertAll([], FilterMap(articles, ArticleEntry))
  }

  /** The rows loop of one table. */
  method CollectRows(t: Table, parameters0: seq<Parameter>) returns (parameters: seq<Parameter>)
    requires t.caption == Some(PathParametersCaption)
    ensures parameters == parameters0 + TableParameters(t)
  {
    parameters := parameters0;
    var rows := BodyRows(t);
    var k := 0;
    while k < |rows|
      invariant 0 <= k <= |rows|
      invariant parameters == parameters0 + FilterMap(rows[..k], RowParameter)
    {
      FilterMapSnoc(rows, k, RowParameter);
      var row := rows[k];
      if row.name.Some? && row.typeText.Some? {
        var name := BeforeFirst(row.name.value, "*");
        var typeText := AsciiLowercase(JsTrim(row.typeText.value));
        assert RowParameter(row) == Some(Parameter(name, "path", true, typeText));
        AppendAssociative(parameters0, FilterMap(rows[..k], RowParameter), [Parameter(name, "path", true, typeText)]);
        parameters := parameters + [Parameter(name, "path", true, typeText)];
      }
      k := k + 1;
    }
    assert rows[..k] == rows;
  }

  /** `paths`: for each article with a route, the parameters of its
      "Path parameters" tables, assigned to `pathItems[route]`. */
  method Paths(articles: seq<Article>) returns (pathItems: IndexMap<string, PathItem>)
    ensures pathItems == PathsSpec(articles)
  {
    pathItems := [];
    ghost var entries: seq<(string, PathItem)> := [];
    var i := 0;
    while i < |articles|
      invariant 0 <= i <= |articles|
      invariant entries == FilterMap(articles[..i], ArticleEntry)
      invariant pathItems == InsertAll([], entries)
    {
      var article := articles[i];
      FilterMapSnoc(articles, i, ArticleEntry);
      if article.route.Some? {
        var parameters := [];
        var j := 0;
        while j < |article.tables|
          invariant 0 <= j <= |article.tables|
          invariant parameters == FlatMap(article.tables[..j], TableParameters)
        {
          FlatMapSnoc(article.tables, j, TableParameters);
          var table := article.tables[j];
          if table.caption == Some(PathParametersCaption) {
            parameters := CollectRows(table, parameters);
          }
          j := j + 1;
        }
        assert article.tables[..j] == article.tables;
        InsertAllSnoc([], entries, (article.route.value, PathItem(parameters)));
        pathItems := Insert(pathItems, article.route.value, PathItem(parameters));
        entries := entries + [(article.route.value, PathItem(parameters))];
      }
      i := i + 1;
    }
    assert articles[..i] == articles;
  }

  /** A route is in the map iff some article shows it, and it holds the
      parameters of the last such article: no merging of entries. */
  lemma LastArticleWins(articles: seq<Article>, route: string)
    ensures HasKey(PathsSpec(articles), route) <==> exists i :: 0 <= i < |articles| && articles[i].route == Some(route)
    ensures Get(PathsSpec(articles), route) == LastValue(FilterMap(articles, ArticleEntry), route)
  {
    var es := FilterMap(articles, ArticleEntry);
    GetInsertAll([], es, route);
    if exists i :: 0 <= i < |articles| && articles[i].route == Some(route) {
      var i :| 0 <= i < |articles| && articles[i].route == Some(route);
      assert ArticleEntry(articles[i]).value in es;
    }
  }

  /** Parameters keep table order, then row order. */
  lemma ParameterOrder(a: Article, b: Article)
    requires a.route == b.route
    ensures ArticleParameters(Article(a.route, a.tables + b.tables)) == ArticleParameters(a) + ArticleParameters(b)
  {
    FlatMapAppend(a.tables, b.tables, TableParameters);
  }

  /** Every parameter is a required path parameter, named without `*`. */
  lemma {:induction false} ParametersArePath(ts: seq<Table>)
    ensures forall p :: p in FlatMap(ts, TableParameters) ==> p.location == "path" && p.required && !Contains(p.name, "*")
    decreases |ts|
  {
    if ts != [] {
      ParametersArePath(ts[..|ts| - 1]);
      var t := ts[|ts| - 1];
      forall p | p in TableParameters(t)
        ensures p.location == "path" && p.required && !Contains(p.name, "*")
      {
        var k :| 0 <= k < |TableParameters(t)| && TableParameters(t)[k] == p;
        var rows := BodyRows(t);
        var i :| 0 <= i < |rows| && RowParameter(rows[i]) == Some(p);
      }
    }
  }
}
