/** Stand-ins for the three OVF schemas the XSD files refer to but the
    generator does not read: each an object whose `info` is an object
    holding a string `value`. */
module StubOvf {
  import opened Wrappers
  import IM = IndexMaps
  import opened OpenApi
  import opened ComponentSchemas

  const SectionKey: string := "ovf_Section_Type"
  const ItemKey: string := "ovf_Item"
  const RasdKey: string := "ovf_RASD_Type"

  /** An object with the single inline property `name`. */
  function Wrapping(name: string, inner: Schema): (r: Schema)
    ensures r.data == DefaultData && IsInlineObject(Item(r))
    ensures PropertiesOf(Item(r)) == [(name, Item(inner))] && RequiredOf(Item(r)) == []
  {
    Bare(PlainObject([(name, Item(inner))]))
  }

  /** The stub: `{ info: { value: string } }`. */
  function Stub(): Schema
  {
    Wrapping("info", Wrapping("value", Bare(PlainString)))
  }

  function StubOvfSpec(m: Schemas): Schemas
  {
    IM.Insert(IM.Insert(IM.Insert(m, SectionKey, Item(Stub())), ItemKey, Item(Stub())), RasdKey, Item(Stub()))
  }

  /** `stub_ovf`: three insertions into the caller's map. */
  method AddStubs(c: Components)
    modifies c
    ensures c.schemas == StubOvfSpec(old(c.schemas))
  {
    c.schemas := IM.Insert(c.schemas, SectionKey, Item(Stub()));
    c.schemas := IM.Insert(c.schemas, ItemKey, Item(Stub()));
    c.schemas := IM.Insert(c.schemas, RasdKey, Item(Stub()));
  }

  /** Afterwards all three keys hold the stub, whatever they held before,
      and every other key keeps its value. */
  lemma StubsInserted(m: Schemas, k: string)
    ensures IM.Get(StubOvfSpec(m), k) == if k in {SectionKey, ItemKey, RasdKey} then Some(Item(Stub())) else IM.Get(m, k)
  {
    var m1 := IM.Insert(m, SectionKey, Item(Stub()));
    var m2 := IM.Insert(m1, ItemKey, Item(Stub()));
    if k == RasdKey {
      IM.GetInsertSame(m2, RasdKey, Item(Stub()));
    } else if k == ItemKey {
      IM.GetInsertOther(m2, RasdKey, Item(Stub()), k);
      IM.GetInsertSame(m1, ItemKey, Item(Stub()));
    } else {
      IM.GetInsertOther(m2, RasdKey, Item(Stub()), k);
      IM.GetInsertOther(m1, ItemKey, Item(Stub()), k);
      if k == SectionKey {
        IM.GetInsertSame(m, SectionKey, Item(Stub()));
      } else {
        IM.GetInsertOther(m, SectionKey, Item(Stub()), k);
      }
    }
  }

  /** The stub's shape: its only property `info` is an inline object
      whose only property `value` is a plain string. */
  lemma StubShape()
    ensures IsInlineObject(Item(Stub())) && IM.Keys(PropertiesOf(Item(Stub()))) == ["info"]
    ensures var info := IM.Get(PropertiesOf(Item(Stub())), "info");
      info.Some? && IsInlineObject(info.value) && IM.Keys(PropertiesOf(info.value)) == ["value"]
      && IM.Get(PropertiesOf(info.value), "value") == Some(Item(Bare(PlainString)))
  {
    var inner := Wrapping("value", Bare(PlainString));
    assert IM.IndexOf([("info", Item(inner))], "info") == Some(0);
    assert IM.IndexOf([("value", Item(Bare(PlainString)))], "value") == Some(0);
  }

  /** Stubbing twice is stubbing once. */
  lemma StubOvfIdempotent(m: Schemas)
    ensures StubOvfSpec(StubOvfSpec(m)) == StubOvfSpec(m)
  {
    var once := StubOvfSpec(m);
    StubsInserted(m, SectionKey);
    StubsInserted(m, ItemKey);
    StubsInserted(m, RasdKey);
    var m1 := IM.Insert(once, SectionKey, Item(Stub()));
    InsertPresent(once, SectionKey, Item(Stub()));
    InsertPresent(m1, ItemKey, Item(Stub()));
    InsertPresent(m1, RasdKey, Item(Stub()));
  }
}
