/** The shared schemas of the query-service parameters, added to the
    component map as `query-parameter_<name>`. */
module QueryParameterSchemas {
  import opened Wrappers
  import opened Strings
  import opened Iter
  import IM = IndexMaps
  import opened OpenApi
  import opened ComponentSchemas
  import Q = Query

  const KeyPrefix: string := "query-parameter_"

  function Boolean(): Schema { Bare(BooleanType) }

  function StringEnum(values: seq<Option<string>>): Schema
  {
    Bare(StringType(NoStringFormat, None, values))
  }

  function Bounded(minimum: Option<int>, maximum: Option<int>): Schema
  {
    Bare(IntegerType(NoIntegerFormat, minimum, maximum, []))
  }

  function QueryName(q: Q.Query): Option<string> { Some(q.name) }

  /** The names of the queries, as an enumeration in input order. */
  function QueryTypeNames(queries: seq<Q.Query>): (r: seq<Option<string>>)
    ensures |r| == |queries|
    ensures forall i :: 0 <= i < |queries| ==> r[i] == Some(queries[i].name)
  {
    Map(queries, QueryName)
  }

  /** The thirteen parameters, by name, in the order they are added. */
  function Parameters(queries: seq<Q.Query>): seq<(string, Schema)>
  {
    [ ("force", Boolean()),
      ("recursive", Boolean()),
      ("fields", Bare(PlainString)),
      ("filter", Bare(PlainString)),
      ("filterEncoded", Boolean()),
      ("format", StringEnum([Some("references"), Some("records"), Some("idrecords")])),
      ("links", Boolean()),
      ("offset", Bounded(Some(0), None)),
      ("page", Bounded(Some(1), None)),
      ("pageSize", Bounded(Some(1), Some(128))),
      ("sortAsc", Bare(PlainString)),
      ("sortDesc", Bare(PlainString)),
      ("type", StringEnum(QueryTypeNames(queries))) ]
  }

  function Keyed(p: (string, Schema)): (string, RefOr<Schema>)
  {
    (KeyPrefix + p.0, Item(p.1))
  }

  function Entries(queries: seq<Q.Query>): (r: Schemas)
    ensures |r| == 13
  {
    Map(Parameters(queries), Keyed)
  }

  function QueryParametersSpec(m: Schemas, queries: seq<Q.Query>): Schemas
  {
    IM.InsertAll(m, Entries(queries))
  }

  /** `query_parameters`: extends the caller's map with the entries. */
  method AddQueryParameters(c: Components, queries: seq<Q.Query>)
    modifies c
    ensures c.schemas == QueryParametersSpec(old(c.schemas), queries)
  {
    c.schemas := IM.InsertAll(c.schemas, Entries(queries));
  }

  lemma ParameterNames(queries: seq<Q.Query>)
    ensures Map(Parameters(queries), (p: (string, Schema)) => p.0)
      == ["force", "recursive", "fields", "filter", "filterEncoded", "format", "links",
          "offset", "page", "pageSize", "sortAsc", "sortDesc", "type"]
  {
  }

  /** The thirteen keys are distinct. */
  lemma {:induction false} EntryKeysDistinct(queries: seq<Q.Query>)
    ensures forall i, j :: 0 <= i < j < 13 ==> Entries(queries)[i].0 != Entries(queries)[j].0
  {
    var ps := Parameters(queries);
    ParameterNames(queries);
    forall i, j | 0 <= i < j < 13
      ensures Entries(queries)[i].0 != Entries(queries)[j].0
    {
      assert ps[i].0 != ps[j].0;
      assert Entries(queries)[i].0[|KeyPrefix|..] == ps[i].0;
      assert Entries(queries)[j].0[|KeyPrefix|..] == ps[j].0;
    }
  }

  /** Among pairs with distinct keys, a key's last value is its only one. */
  lemma {:induction false} LastValueAt(es: Schemas, i: nat)
    requires i < |es| && forall a, b :: 0 <= a < b < |es| ==> es[a].0 != es[b].0
    ensures IM.LastValue(es, es[i].0) == Some(es[i].1)
    decreases |es|
  {
    assert forall a :: 0 <= a < |es[1..]| ==> es[1..][a] == es[a + 1];
    if i == 0 {
      assert IM.LastValue(es[1..], es[0].0).None?;
    } else {
      LastValueAt(es[1..], i - 1);
    }
  }

  /** Every parameter's key holds its schema afterwards, replacing an
      entry of the same name. */
  lemma ParameterAdded(m: Schemas, queries: seq<Q.Query>, i: nat)
    requires i < 13
    ensures IM.Get(QueryParametersSpec(m, queries), KeyPrefix + Parameters(queries)[i].0) == Some(Item(Parameters(queries)[i].1))
  {
    EntryKeysDistinct(queries);
    IM.GetInsertAll(m, Entries(queries), KeyPrefix + Parameters(queries)[i].0);
    LastValueAt(Entries(queries), i);
  }

  /** Every other key keeps its value. */
  lemma OtherKeysUntouched(m: Schemas, queries: seq<Q.Query>, k: string)
    requires forall i :: 0 <= i < 13 ==> k != KeyPrefix + Parameters(queries)[i].0
    ensures IM.Get(QueryParametersSpec(m, queries), k) == IM.Get(m, k)
  {
    IM.GetInsertAll(m, Entries(queries), k);
  }

  /** Into a map without these keys, exactly the thirteen entries are
      appended, in order. */
  lemma ExactlyThirteenAdded(m: Schemas, queries: seq<Q.Query>)
    requires forall i :: 0 <= i < 13 ==> !IM.HasKey(m, KeyPrefix + Parameters(queries)[i].0)
    ensures QueryParametersSpec(m, queries) == m + Entries(queries)
    ensures |QueryParametersSpec(m, queries)| == |m| + 13
  {
    EntryKeysDistinct(queries);
    IM.InsertAllFresh(m, Entries(queries));
  }

  /** `type` enumerates the query names in input order. */
  lemma TypeEnumeratesQueries(m: Schemas, queries: seq<Q.Query>)
    ensures var t := IM.Get(QueryParametersSpec(m, queries), "query-parameter_type");
      t.Some? && t.value.Item? && t.value.item.kind.TypeKind? && t.value.item.kind.schemaType.StringType?
      && |t.value.item.kind.schemaType.enumeration| == |queries|
      && forall i :: 0 <= i < |queries| ==> t.value.item.kind.schemaType.enumeration[i] == Some(queries[i].name)
  {
    var ps := Parameters(queries);
    assert ps[12] == ("type", StringEnum(QueryTypeNames(queries)));
    assert KeyPrefix + "type" == "query-parameter_type";
    ParameterAdded(m, queries, 12);
  }

  /** `format` enumerates `references`, `records`, `idrecords`. */
  lemma FormatEnumeration(m: Schemas, queries: seq<Q.Query>)
    ensures IM.Get(QueryParametersSpec(m, queries), "query-parameter_format")
      == Some(Item(StringEnum([Some("references"), Some("records"), Some("idrecords")])))
  {
    var ps := Parameters(queries);
    assert ps[5] == ("format", StringEnum([Some("references"), Some("records"), Some("idrecords")]));
    assert KeyPrefix + "format" == "query-parameter_format";
    ParameterAdded(m, queries, 5);
  }

  /** The integer bounds: `offset` at least 0, `page` at least 1,
      `pageSize` between 1 and 128. */
  lemma PagingBounds(m: Schemas, queries: seq<Q.Query>)
    ensures IM.Get(QueryParametersSpec(m, queries), "query-parameter_offset") == Some(Item(Bounded(Some(0), None)))
    ensures IM.Get(QueryParametersSpec(m, queries), "query-parameter_page") == Some(Item(Bounded(Some(1), None)))
    ensures IM.Get(QueryParametersSpec(m, queries), "query-parameter_pageSize") == Some(Item(Bounded(Some(1), Some(128))))
  {
    var ps := Parameters(queries);
    assert ps[7] == ("offset", Bounded(Some(0), None));
    assert ps[8] == ("page", Bounded(Some(1), None));
    assert ps[9] == ("pageSize", Bounded(Some(1), Some(128)));
    assert KeyPrefix + "offset" == "query-parameter_offset";
    assert KeyPrefix + "page" == "query-parameter_page";
    assert KeyPrefix + "pageSize" == "query-parameter_pageSize";
    ParameterAdded(m, queries, 7);
    ParameterAdded(m, queries, 8);
    ParameterAdded(m, queries, 9);
  }

  /** `force`, `recursive`, `filterEncoded` and `links` are flags. */
  lemma FlagsAreBoolean(m: Schemas, queries: seq<Q.Query>)
    ensures IM.Get(QueryParametersSpec(m, queries), "query-parameter_force") == Some(Item(Boolean()))
    ensures IM.Get(QueryParametersSpec(m, queries), "query-parameter_recursive") == Some(Item(Boolean()))
    ensures IM.Get(QueryParametersSpec(m, queries), "query-parameter_filterEncoded") == Some(Item(Boolean()))
    ensures IM.Get(QueryParametersSpec(m, queries), "query-parameter_links") == Some(Item(Boolean()))
  {
    var ps := Parameters(queries);
    assert ps[0] == ("force", Boolean());
    assert ps[1] == ("recursive", Boolean());
    assert ps[4] == ("filterEncoded", Boolean());
    assert ps[6] == ("links", Boolean());
    assert KeyPrefix + "force" == "query-parameter_force";
    assert KeyPrefix + "recursive" == "query-parameter_recursive";
    assert KeyPrefix + "filterEncoded" == "query-parameter_filterEncoded";
    assert KeyPrefix + "links" == "query-parameter_links";
    ParameterAdded(m, queries, 0);
    ParameterAdded(m, queries, 1);
    ParameterAdded(m, queries, 4);
    ParameterAdded(m, queries, 6);
  }

  /** `fields`, `filter`, `sortAsc` and `sortDesc` are free text. */
  lemma FreeTextParameters(m: Schemas, queries: seq<Q.Query>)
    ensures IM.Get(QueryParametersSpec(m, queries), "query-parameter_fields") == Some(Item(Bare(PlainString)))
    ensures IM.Get(QueryParametersSpec(m, queries), "query-parameter_filter") == Some(Item(Bare(PlainString)))
    ensures IM.Get(QueryParametersSpec(m, queries), "query-parameter_sortAsc") == Some(Item(Bare(PlainString)))
    ensures IM.Get(QueryParametersSpec(m, queries), "query-parameter_sortDesc") == Some(Item(Bare(PlainString)))
  {
    var ps := Parameters(queries);
    assert ps[2] == ("fields", Bare(PlainString));
    assert ps[3] == ("filter", Bare(PlainString));
    assert ps[10] == ("sortAsc", Bare(PlainString));
    assert ps[11] == ("sortDesc", Bare(PlainString));
    assert KeyPrefix + "fields" == "query-parameter_fields";
    assert KeyPrefix + "filter" == "query-parameter_filter";
    assert KeyPrefix + "sortAsc" == "query-parameter_sortAsc";
    assert KeyPrefix + "sortDesc" == "query-parameter_sortDesc";
    ParameterAdded(m, queries, 2);
    ParameterAdded(m, queries, 3);
    ParameterAdded(m, queries, 10);
    ParameterAdded(m, queries, 11);
  }
}
