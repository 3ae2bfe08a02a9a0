/** Detail pages of the REST documentation: a title, a heading and a
    definition list of `dt`/`dd` pairs whose values may hold nested
    definition lists. The HTML is taken as an already parsed element
    tree. */
module DetailPage {
  import opened Wrappers
  import opened Strings
  import opened Iter

  /** An HTML element: its tag name, its text content, its inner HTML and
      its element children in document order. */
  datatype HtmlElement = HtmlElement(name: string, text: string, innerHtml: string, children: seq<HtmlElement>)

  datatype DefinitionListValue =
    | Text(html: string)
    | TextAndSublist(preamble: Option<string>, sublist: DefinitionList)

  type DefinitionList = seq<(string, DefinitionListValue)>

  /** A `dd` without a pending `dt`, possibly inside a nested list. */
  datatype DefinitionListError = UnexpectedEntry | NestedListError(cause: DefinitionListError)

  // Lookup.

  function KeyedValue(key: string): ((string, DefinitionListValue)) -> Option<DefinitionListValue>
  {
    (e: (string, DefinitionListValue)) => if e.0 == key then Some(e.1) else None
  }

  /** `DefinitionList::filter`: the values under exactly `key`, in order. */
  function Filter(l: DefinitionList, key: string): (r: seq<DefinitionListValue>)
    ensures forall i :: 0 <= i < |l| && l[i].0 == key ==> l[i].1 in r
    ensures forall k :: 0 <= k < |r| ==> (key, r[k]) in l
  {
    var r := FilterMap(l, KeyedValue(key));
    assert forall i :: 0 <= i < |l| ==> KeyedValue(key)(l[i]) == if l[i].0 == key then Some(l[i].1) else None;
    r
  }

  /** `DefinitionList::find`: the first value under `key`. */
  function Find(l: DefinitionList, key: string): (r: Option<DefinitionListValue>)
    ensures r.None? <==> forall i :: 0 <= i < |l| ==> l[i].0 != key
    ensures r.Some? ==> exists i :: 0 <= i < |l| && l[i] == (key, r.value) && forall j :: 0 <= j < i ==> l[j].0 != key
  {
    var r := FindMap(l, KeyedValue(key));
    assert forall i :: 0 <= i < |l| ==> KeyedValue(key)(l[i]) == if l[i].0 == key then Some(l[i].1) else None;
    r
  }

  /** `find` is the head of `filter`. */
  lemma FindIsFirstOfFilter(l: DefinitionList, key: string)
    ensures Find(l, key) == if Filter(l, key) == [] then None else Some(Filter(l, key)[0])
  {
    FindMapIsHead(l, KeyedValue(key));
  }

  /** Some value is found under `key` exactly when some entry has it. */
  lemma FilterNonEmpty(l: DefinitionList, key: string)
    ensures Filter(l, key) != [] <==> exists i :: 0 <= i < |l| && l[i].0 == key
  {
    if exists i :: 0 <= i < |l| && l[i].0 == key {
      var i :| 0 <= i < |l| && l[i].0 == key;
      assert l[i].1 in Filter(l, key);
    }
    if Filter(l, key) != [] {
      assert (key, Filter(l, key)[0]) in l;
    }
  }

  /** Repeated keys are all kept, in order. */
  lemma FilterAppend(a: DefinitionList, b: DefinitionList, key: string)
    ensures Filter(a + b, key) == Filter(a, key) + Filter(b, key)
  {
    FilterMapAppend(a, b, KeyedValue(key));
  }

  // Reading the element tree.

  predicate IsEntry(c: HtmlElement)
  {
    c.name == "dt" || c.name == "dd"
  }

  /** The `dt` and `dd` children (`:scope > dt, :scope > dd`), in
      document order. */
  function Entries(el: HtmlElement): (r: seq<HtmlElement>)
    ensures forall k :: 0 <= k < |r| ==> IsEntry(r[k]) && r[k] in el.children
    ensures forall i :: 0 <= i < |el.children| && IsEntry(el.children[i]) ==> el.children[i] in r
  {
    Iter.Filter(el.children, IsEntry)
  }

  /** Entries keep document order: one more child is selected, at the
      end, exactly when it is a `dt` or a `dd`. */
  lemma EntriesInOrder(el: HtmlElement, c: HtmlElement)
    ensures Entries(el.(children := el.children + [c])) == Entries(el) + (if IsEntry(c) then [c] else [])
  {
    Iter.FilterAppend(el.children, [c], IsEntry);
    assert [c][1..] == [];
  }

  /** The text of the inner HTML before the first `<dl>`, trimmed;
      `None` when nothing is left. */
  function Preamble(innerHtml: string): (r: Option<string>)
    ensures r.None? <==> RustTrim(BeforeFirst(innerHtml, "<dl>")) == []
    ensures r.Some? ==> r.value == RustTrim(BeforeFirst(innerHtml, "<dl>"))
  {
    var t := RustTrim(BeforeFirst(innerHtml, "<dl>"));
    if t == [] then None else Some(t)
  }

  function DlChild(c: HtmlElement): Option<HtmlElement>
  {
    if c.name == "dl" then Some(c) else None
  }

  /** `DefinitionListValue::try_from`: with a `dl` child, the preamble
      and the first such child read as a list; otherwise the preamble as
      text, empty when there is none. */
  function ValueSpec(el: HtmlElement): (r: Result<DefinitionListValue, DefinitionListError>)
    decreases el, 2, 0
  {
    match FindMap(el.children, DlChild)
    case None => Ok(Text(Preamble(el.innerHtml).GetOr("")))
    case Some(dl) =>
      match ListSpec(dl)
      case Err(e) => Err(NestedListError(e))
      case Ok(sublist) => Ok(TextAndSublist(Preamble(el.innerHtml), sublist))
  }

  /** One step of the `try_fold`: a `dt` sets the pending title; a `dd`
      with one adds the pair and clears it; a `dd` without one is an
      error. */
  function Step(state: (Option<string>, DefinitionList), e: HtmlElement, el: HtmlElement): (r: Result<(Option<string>, DefinitionList), DefinitionListError>)
    requires e in el.children
    decreases el, 0, 0
  {
    var (title, acc) := state;
    if e.name == "dt" then Ok((Some(e.text), acc))
    else if title.None? then Err(UnexpectedEntry)
    else
      var v :- ValueSpec(e);
      Ok((None, acc + [(title.value, v)]))
  }

  /** The `try_fold` over the entries so far: the pending title and the
      pairs made. */
  function FoldSpec(es: seq<HtmlElement>, el: HtmlElement): (r: Result<(Option<string>, DefinitionList), DefinitionListError>)
    requires forall k :: 0 <= k < |es| ==> IsEntry(es[k]) && es[k] in el.children
    decreases el, 0, |es|
  {
    if es == [] then Ok((None, []))
    else
      var state :- FoldSpec(es[..|es| - 1], el);
      Step(state, es[|es| - 1], el)
  }

  lemma FoldSnoc(es: seq<HtmlElement>, e: HtmlElement, el: HtmlElement)
    requires forall k :: 0 <= k < |es| ==> IsEntry(es[k]) && es[k] in el.children
    requires IsEntry(e) && e in el.children
    ensures FoldSpec(es + [e], el) == if FoldSpec(es, el).Err? then FoldSpec(es, el) else Step(FoldSpec(es, el).value, e, el)
  {
    assert (es + [e])[..|es|] == es;
  }

  /** `DefinitionList::try_from`. */
  function ListSpec(el: HtmlElement): (r: Result<DefinitionList, DefinitionListError>)
    decreases el, 1, 0
  {
    var (_, acc) :- FoldSpec(Entries(el), el);
    Ok(acc)
  }

  /** The `dt`/`dd` fold, pushing each pair onto the list. */
  method ParseDefinitionList(el: HtmlElement) returns (r: Result<DefinitionList, DefinitionListError>)
    ensures r == ListSpec(el)
  {
    var es := Entries(el);
    var title: Option<string> := None;
    var acc: DefinitionList := [];
    var i := 0;
    while i < |es|
      invariant 0 <= i <= |es|
      invariant FoldSpec(es[..i], el) == Ok((title, acc))
    {
      var e := es[i];
      FoldPrefixStep(es, i, el);
      if e.name == "dt" {
        title := Some(e.text);
      } else if title.None? {
        FoldStops(es, i, el);
        return Err(UnexpectedEntry);
      } else {
        var v := ValueSpec(e);
        if v.Err? {
          assert Step((title, acc), e, el) == Err(v.error);
          FoldStops(es, i, el);
          return Err(v.error);
        }
        assert Step((title, acc), e, el) == Ok((None, acc + [(title.value, v.value)]));
        acc := acc + [(title.value, v.value)];
        title := None;
      }
      i := i + 1;
    }
    assert es[..i] == es;
    r := Ok(acc);
  }

  /** The fold over one more entry of the list. */
  lemma FoldPrefixStep(es: seq<HtmlElement>, i: nat, el: HtmlElement)
    requires forall k :: 0 <= k < |es| ==> IsEntry(es[k]) && es[k] in el.children
    requires i < |es| && FoldSpec(es[..i], el).Ok?
    ensures FoldSpec(es[..i + 1], el) == Step(FoldSpec(es[..i], el).value, es[i], el)
  {
    assert es[..i + 1] == es[..i] + [es[i]];
    FoldSnoc(es[..i], es[i], el);
  }

  /** An error at one entry is the error of the whole fold. */
  lemma {:induction false} FoldStops(es: seq<HtmlElement>, i: nat, el: HtmlElement)
    requires forall k :: 0 <= k < |es| ==> IsEntry(es[k]) && es[k] in el.children
    requires i < |es| && FoldSpec(es[..i + 1], el).Err?
    ensures FoldSpec(es, el) == FoldSpec(es[..i + 1], el)
    decreases |es| - i
  {
    if i + 1 < |es| {
      var n := |es| - 1;
      assert es[..n][..i + 1] == es[..i + 1];
      FoldStops(es[..n], i, el);
    } else {
      assert es[..i + 1] == es;
    }
  }

  /** Two `dt`s in a row: only the second titles the next `dd`. */
  lemma LastTitleWins(es: seq<HtmlElement>, el: HtmlElement, t1: HtmlElement, t2: HtmlElement, d: HtmlElement)
    requires forall k :: 0 <= k < |es| ==> IsEntry(es[k]) && es[k] in el.children
    requires t1.name == "dt" && t2.name == "dt" && d.name == "dd"
    requires t1 in el.children && t2 in el.children && d in el.children
    requires FoldSpec(es, el).Ok? && ValueSpec(d).Ok?
    ensures FoldSpec(es + [t1, t2, d], el) == Ok((None, FoldSpec(es, el).value.1 + [(t2.text, ValueSpec(d).value)]))
  {
    var acc := FoldSpec(es, el).value.1;
    var e1 := es + [t1];
    var e2 := e1 + [t2];
    TrailingTitleAddsNothing(es, el, t1);
    EntriesSnoc(es, t1, el);
    TrailingTitleAddsNothing(e1, el, t2);
    EntriesSnoc(e1, t2, el);
    TitledEntryAdds(e2, el, d);
    assert e2 + [d] == es + [t1, t2, d];
  }

  lemma EntriesSnoc(es: seq<HtmlElement>, e: HtmlElement, el: HtmlElement)
    requires forall k :: 0 <= k < |es| ==> IsEntry(es[k]) && es[k] in el.children
    requires IsEntry(e) && e in el.children
    ensures forall k :: 0 <= k < |es + [e]| ==> IsEntry((es + [e])[k]) && (es + [e])[k] in el.children
  {
    assert forall k :: 0 <= k < |es| ==> (es + [e])[k] == es[k];
  }

  /** A `dd` under a pending title adds the pair and clears the title. */
  lemma TitledEntryAdds(es: seq<HtmlElement>, el: HtmlElement, d: HtmlElement)
    requires forall k :: 0 <= k < |es| ==> IsEntry(es[k]) && es[k] in el.children
    requires d.name == "dd" && d in el.children && ValueSpec(d).Ok?
    requires FoldSpec(es, el).Ok? && FoldSpec(es, el).value.0.Some?
    ensures FoldSpec(es + [d], el)
      == Ok((None, FoldSpec(es, el).value.1 + [(FoldSpec(es, el).value.0.value, ValueSpec(d).value)]))
  {
    FoldSnoc(es, d, el);
  }

  /** A trailing `dt` adds nothing. */
  lemma TrailingTitleAddsNothing(es: seq<HtmlElement>, el: HtmlElement, t: HtmlElement)
    requires forall k :: 0 <= k < |es| ==> IsEntry(es[k]) && es[k] in el.children
    requires t.name == "dt" && t in el.children && FoldSpec(es, el).Ok?
    ensures FoldSpec(es + [t], el) == Ok((Some(t.text), FoldSpec(es, el).value.1))
  {
    FoldSnoc(es, t, el);
  }

  /** A `dd` with no pending title is an error. */
  lemma UntitledEntryFails(es: seq<HtmlElement>, el: HtmlElement, d: HtmlElement)
    requires forall k :: 0 <= k < |es| ==> IsEntry(es[k]) && es[k] in el.children
    requires d.name == "dd" && d in el.children && FoldSpec(es, el).Ok? && FoldSpec(es, el).value.0.None?
    ensures FoldSpec(es + [d], el) == Err(UnexpectedEntry)
  {
    FoldSnoc(es, d, el);
  }

  /** Without a `dl` child the value is text; with one, a sublist. */
  lemma ValueKinds(el: HtmlElement)
    requires ValueSpec(el).Ok?
    ensures ValueSpec(el).value.Text? <==> forall i :: 0 <= i < |el.children| ==> el.children[i].name != "dl"
    ensures ValueSpec(el).value.Text? ==> ValueSpec(el).value.html == Preamble(el.innerHtml).GetOr("")
    ensures ValueSpec(el).value.TextAndSublist? ==> ValueSpec(el).value.preamble == Preamble(el.innerHtml)
  {
    assert forall i :: 0 <= i < |el.children| ==> (DlChild(el.children[i]).None? <==> el.children[i].name != "dl");
  }

  /** `as_text`: the text, or the preamble of a value with a sublist. */
  function AsText(v: DefinitionListValue): (r: Option<string>)
    ensures v.Text? ==> r == Some(v.html)
    ensures v.TextAndSublist? ==> r == v.preamble
  {
    match v
    case Text(html) => Some(html)
    case TextAndSublist(preamble, _) => preamble
  }

  /** `as_sublist`: only a value with a sublist has one. */
  function AsSublist(v: DefinitionListValue): (r: Option<DefinitionList>)
    ensures r.Some? <==> v.TextAndSublist?
    ensures r.Some? ==> r.value == v.sublist
  {
    match v
    case Text(_) => None
    case TextAndSublist(_, sublist) => Some(sublist)
  }

  /** `text_to_markdown`: the text converted to Markdown by `md` and
      trimmed. */
  function TextToMarkdown(v: DefinitionListValue, md: string -> string): (r: Option<string>)
    ensures r.Some? <==> AsText(v).Some?
    ensures r.Some? ==> r.value == RustTrim(md(AsText(v).value))
  {
    match AsText(v)
    case None => None
    case Some(h) => Some(RustTrim(md(h)))
  }

  /** `to_inner_text`: the text content of the value's HTML, as
      `innerText` reads it. */
  function ToInnerText(v: DefinitionListValue, innerText: string -> string): (r: Option<string>)
    ensures r.Some? <==> AsText(v).Some?
    ensures r.Some? ==> r.value == innerText(AsText(v).value)
  {
    match AsText(v)
    case None => None
    case Some(h) => Some(innerText(h))
  }

  /** The Markdown text of the first value under `key`. */
  function MarkdownOf(dl: DefinitionList, key: string, md: string -> string): (r: Option<string>)
    ensures r.Some? <==> Find(dl, key).Some? && AsText(Find(dl, key).value).Some?
    ensures r.Some? ==> r.value == RustTrim(md(AsText(Find(dl, key).value).value))
  {
    match Find(dl, key)
    case None => None
    case Some(v) => TextToMarkdown(v, md)
  }

  /** A parsed value always has text, unless it holds a sublist. */
  lemma ParsedTextPresent(el: HtmlElement)
    requires ValueSpec(el).Ok? && ValueSpec(el).value.Text?
    ensures AsText(ValueSpec(el).value).Some? && AsSublist(ValueSpec(el).value).None?
  {
  }

  // The page.

  /** The parts of a page the reader looks for: the first `title`, the
      first `h1` and the first `dl` child of `body`. */
  datatype Document = Document(title: Option<HtmlElement>, h1: Option<HtmlElement>, dl: Option<HtmlElement>)

  datatype DetailPage = DetailPage(title: string, h1: string, definitionList: DefinitionList)

  datatype DetailPageError = TitleNotFound | H1NotFound | DlNotFound | DefinitionListParseError(cause: DefinitionListError)

  /** `DetailPage::try_from`: the missing parts are reported in the order
      title, heading, list. */
  function ParseDetailPage(d: Document): (r: Result<DetailPage, DetailPageError>)
    ensures r == Err(TitleNotFound) <==> d.title.None?
    ensures r == Err(H1NotFound) <==> d.title.Some? && d.h1.None?
    ensures r == Err(DlNotFound) <==> d.title.Some? && d.h1.Some? && d.dl.None?
    ensures r.Ok? <==> d.title.Some? && d.h1.Some? && d.dl.Some? && ListSpec(d.dl.value).Ok?
    ensures r.Ok? ==> r.value == DetailPage(d.title.value.text, d.h1.value.text, ListSpec(d.dl.value).value)
  {
    if d.title.None? then Err(TitleNotFound)
    else if d.h1.None? then Err(H1NotFound)
    else if d.dl.None? then Err(DlNotFound)
    else
      match ListSpec(d.dl.value)
      case Err(e) => Err(DefinitionListParseError(e))
      case Ok(l) => Ok(DetailPage(d.title.value.text, d.h1.value.text, l))
  }
}
